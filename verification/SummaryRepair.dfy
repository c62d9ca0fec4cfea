/** Asking again for a summary the provider refused: when, how often, and for how many
    recordings at a time. Times are whole seconds. */
module SummaryRepair {
  import opened Results

  datatype Settings = Settings(firstDelay: int, maxDelay: int, deadline: nat, batch: int)

  /** What a recording is owed. `nextAt` is when the next ask is due. */
  datatype Marker = Marker(since: int, attempts: nat, nextAt: int, reason: string, exhausted: Option<int>, gaveUp: bool)

  /** The result of a repair that brought no summary. */
  datatype Answer = Malformed | Answer(ok: bool, failureClass: string)

  predicate Retryable(a: Answer) {
    a.Answer? && !a.ok && a.failureClass == "provider"
  }

  // ----- backoff

  function Pow2(n: nat): (r: int)
    ensures r >= 1
  {
    if n == 0 then 1 else 2 * Pow2(n - 1)
  }

  function First(cfg: Settings): (r: int)
    ensures r >= 1
  {
    if cfg.firstDelay < 1 then 1 else cfg.firstDelay
  }

  function Ceiling(cfg: Settings): int {
    if cfg.maxDelay < First(cfg) then First(cfg) else cfg.maxDelay
  }

  /** The delay after `attempts` asks: doubled every time, up to the ceiling. */
  function Delay(cfg: Settings, attempts: nat): (d: int)
    ensures First(cfg) <= d <= Ceiling(cfg)
  {
    var doubled := First(cfg) * Pow2(attempts);
    assert doubled >= First(cfg);
    if doubled > Ceiling(cfg) then Ceiling(cfg) else doubled
  }

  /** The first delay is the one set, and each is twice the one before, up to the ceiling. */
  lemma {:induction false} DelayDoubles(cfg: Settings, n: nat)
    ensures Delay(cfg, 0) == (if cfg.firstDelay < 1 then 1 else cfg.firstDelay)
    ensures Delay(cfg, n + 1) == (if 2 * Delay(cfg, n) > cfg.maxDelay then (if cfg.maxDelay < Delay(cfg, 0) then Delay(cfg, 0) else cfg.maxDelay)
                                  else 2 * Delay(cfg, n))
  {
    var f := First(cfg);
    assert f * Pow2(n + 1) == 2 * (f * Pow2(n));
    assert Pow2(0) == 1;
  }

  /** The first `n` delays together. */
  function Backoff(cfg: Settings, n: nat): int {
    if n == 0 then 0 else Backoff(cfg, n - 1) + Delay(cfg, n - 1)
  }

  lemma {:induction false} BackoffGrows(cfg: Settings, n: nat)
    ensures Backoff(cfg, n) >= n * First(cfg)
  {
    var f := First(cfg);
    if n > 0 {
      BackoffGrows(cfg, n - 1);
      assert n * f == (n - 1) * f + f;
    }
  }

  // ----- the marker

  /** A second mark keeps when the summary was first owed, how often it was asked for, and when
      the next ask is due; a stored skip is an outcome and is never marked. */
  function Marked(m: Option<Marker>, skipped: bool, cfg: Settings, reason: string, now: int): Option<Marker> {
    if skipped then m
    else if m.Some? then Some(m.value.(reason := reason))
    else Some(Marker(now, 0, now + Delay(cfg, 0), reason, None, false))
  }

  /** A failure the provider did not cause will not change by asking again. */
  function Failed(m: Option<Marker>, a: Answer): Option<Marker> {
    if m.Some? && a.Answer? && !Retryable(a) then Some(m.value.(gaveUp := true)) else m
  }

  predicate Due(m: Option<Marker>, now: int) {
    m.Some? && m.value.exhausted == None && !m.value.gaveUp && m.value.nextAt <= now
  }

  predicate Overdue(m: Marker, cfg: Settings, now: int) {
    now - m.since > cfg.deadline
  }

  /** Is the recording asked about when its turn comes? */
  predicate Asks(m: Option<Marker>, cfg: Settings, now: int) {
    Due(m, now) && !Overdue(m.value, cfg, now)
  }

  function Visited(m: Option<Marker>, cfg: Settings, now: int): Option<Marker> {
    if !Due(m, now) then m
    else if Overdue(m.value, cfg, now) then Some(m.value.(exhausted := Some(now)))
    else Some(m.value.(attempts := m.value.attempts + 1, nextAt := now + Delay(cfg, m.value.attempts + 1)))
  }

  class Owed {
    var marker: Option<Marker>
    const skipped: bool

    constructor (skipped: bool)
      ensures marker == None && this.skipped == skipped
    {
      marker, this.skipped := None, skipped;
    }

    method MarkPending(cfg: Settings, reason: string, now: int)
      modifies this
      ensures marker == Marked(old(marker), skipped, cfg, reason, now)
    {
      if skipped {
        return;
      }
      if marker == None {
        marker := Some(Marker(now, 0, now + Delay(cfg, 0), "", None, false));
      }
      marker := Some(marker.value.(reason := reason));
    }

    method ClearPending() returns (cleared: bool)
      modifies this
      ensures marker == None && cleared == old(marker).Some?
    {
      cleared := marker.Some?;
      marker := None;
    }

    method NoteRepairFailure(a: Answer)
      modifies this
      ensures marker == Failed(old(marker), a)
    {
      if marker == None {
        return;
      }
      if a.Answer? && !Retryable(a) {
        marker := Some(marker.value.(gaveUp := true));
      }
    }
  }

  // ----- one marker's life

  datatype Act = Mark(reason: string, at: int) | Visit(at: int) | Fail(answer: Answer)

  function Apply(m: Option<Marker>, cfg: Settings, a: Act): Option<Marker> {
    match a
    case Mark(reason, at) => Marked(m, false, cfg, reason, at)
    case Visit(at) => Visited(m, cfg, at)
    case Fail(answer) => Failed(m, answer)
  }

  function Run(m: Option<Marker>, cfg: Settings, tr: seq<Act>): Option<Marker>
    decreases |tr|
  {
    if tr == [] then m else Run(Apply(m, cfg, tr[0]), cfg, tr[1..])
  }

  /** When the marker was asked about along a run. */
  function AskTimes(m: Option<Marker>, cfg: Settings, tr: seq<Act>): seq<int>
    decreases |tr|
  {
    if tr == [] then []
    else (if tr[0].Visit? && Asks(m, cfg, tr[0].at) then [tr[0].at] else []) + AskTimes(Apply(m, cfg, tr[0]), cfg, tr[1..])
  }

  /** The next ask is at least the backoff so far, and the next delay, after the first refusal. */
  predicate OnSchedule(m: Marker, cfg: Settings) {
    m.since + Backoff(cfg, m.attempts + 1) <= m.nextAt
  }

  /** The asks from number `k` on keep to the backoff and to the deadline. */
  predicate InTime(times: seq<int>, k: nat, since: int, cfg: Settings) {
    forall i :: 0 <= i < |times| ==> since + Backoff(cfg, k + i + 1) <= times[i] <= since + cfg.deadline
  }

  lemma {:induction false} InTimeExtends(t: int, rest: seq<int>, k: nat, since: int, cfg: Settings)
    requires InTime(rest, k + 1, since, cfg) && since + Backoff(cfg, k + 1) <= t <= since + cfg.deadline
    ensures InTime([t] + rest, k, since, cfg)
  {
    forall i | 0 <= i < |rest| + 1
      ensures since + Backoff(cfg, k + i + 1) <= ([t] + rest)[i] <= since + cfg.deadline
    {
      if i > 0 { assert since + Backoff(cfg, k + 1 + (i - 1) + 1) <= rest[i - 1] <= since + cfg.deadline; }
    }
  }

  lemma {:induction false} ActKeepsTheSchedule(m: Marker, cfg: Settings, a: Act)
    requires OnSchedule(m, cfg)
    ensures var next, asks := Apply(Some(m), cfg, a), a.Visit? && Asks(Some(m), cfg, a.at);
            && next.Some? && OnSchedule(next.value, cfg) && next.value.since == m.since
            && next.value.attempts == m.attempts + (if asks then 1 else 0)
            && (asks ==> m.since + Backoff(cfg, m.attempts + 1) <= a.at <= m.since + cfg.deadline)
  {
  }

  /** The time of the last ask, or of the first mark before any. */
  function LastAsk(times: seq<int>, since: int): int {
    if times == [] then since else times[|times| - 1]
  }

  /** Does the answer say that asking again will not help? */
  predicate Final(a: Act) {
    a.Fail? && a.answer.Answer? && (a.answer.ok || a.answer.failureClass != "provider")
  }

  /** Where a marker stands that was asked about `k` times, the last time at `last`. */
  predicate StandsAt(m: Marker, cfg: Settings, k: nat, last: int) {
    m.attempts == k && m.nextAt == last + Delay(cfg, k)
  }

  lemma {:induction false} RunStands(m: Marker, cfg: Settings, tr: seq<Act>, last: int)
    requires StandsAt(m, cfg, m.attempts, last)
    ensures var times, end := AskTimes(Some(m), cfg, tr), Run(Some(m), cfg, tr);
            end.Some? && StandsAt(end.value, cfg, m.attempts + |times|, LastAsk(times, last)) && end.value.since == m.since
    decreases |tr|
  {
    if tr != [] {
      var a, next := tr[0], Apply(Some(m), cfg, tr[0]).value;
      var asks := a.Visit? && Asks(Some(m), cfg, a.at);
      RunStands(next, cfg, tr[1..], if asks then a.at else last);
    }
  }

  lemma {:induction false} AsksAreInTime(m: Marker, cfg: Settings, tr: seq<Act>)
    requires OnSchedule(m, cfg)
    ensures InTime(AskTimes(Some(m), cfg, tr), m.attempts, m.since, cfg)
    decreases |tr|
  {
    if tr != [] {
      var next := Apply(Some(m), cfg, tr[0]);
      var rest := AskTimes(next, cfg, tr[1..]);
      ActKeepsTheSchedule(m, cfg, tr[0]);
      AsksAreInTime(next.value, cfg, tr[1..]);
      if tr[0].Visit? && Asks(Some(m), cfg, tr[0].at) {
        InTimeExtends(tr[0].at, rest, m.attempts, m.since, cfg);
      } else {
        assert AskTimes(Some(m), cfg, tr) == rest;
      }
    }
  }

  /** While one marker lives, whatever is marked, visited or answered in whatever order, its asks
      keep to the backoff counted from the first refusal and stay within the deadline. */
  lemma {:induction false} AsksKeepTheBackoff(m: Marker, cfg: Settings, tr: seq<Act>)
    requires OnSchedule(m, cfg)
    ensures InTime(AskTimes(Some(m), cfg, tr), m.attempts, m.since, cfg)
    ensures var end := Run(Some(m), cfg, tr);
            end.Some? && end.value.since == m.since && end.value.attempts == m.attempts + |AskTimes(Some(m), cfg, tr)|
  {
    AsksAreInTime(m, cfg, tr);
    RunStands(m, cfg, tr, m.nextAt - Delay(cfg, m.attempts));
  }

  /** From the first mark on: the k-th ask (from 1) comes no earlier than the mark plus the first
      k delays and no later than the deadline, so the delays of all asks fit the deadline. */
  lemma {:induction false} RepairPace(cfg: Settings, reason: string, now: int, tr: seq<Act>)
    ensures var times := AskTimes(Marked(None, false, cfg, reason, now), cfg, tr);
            && (forall k :: 1 <= k <= |times| ==> now + Backoff(cfg, k) <= times[k - 1] <= now + cfg.deadline)
            && Backoff(cfg, |times|) <= cfg.deadline
            && |times| * First(cfg) <= cfg.deadline
  {
    var m := Marked(None, false, cfg, reason, now).value;
    var times := AskTimes(Some(m), cfg, tr);
    assert Backoff(cfg, 1) == Backoff(cfg, 0) + Delay(cfg, 0);
    AsksKeepTheBackoff(m, cfg, tr);
    BackoffGrows(cfg, |times|);
    forall k | 1 <= k <= |times| ensures now + Backoff(cfg, k) <= times[k - 1] <= now + cfg.deadline {
      assert m.since + Backoff(cfg, 0 + (k - 1) + 1) <= times[k - 1];
    }
  }

  lemma {:induction false} RunGivesUpIff(m: Marker, cfg: Settings, tr: seq<Act>)
    ensures var end := Run(Some(m), cfg, tr);
            end.Some? && (end.value.gaveUp <==> m.gaveUp || exists i :: 0 <= i < |tr| && Final(tr[i]))
    decreases |tr|
  {
    if tr != [] {
      var next := Apply(Some(m), cfg, tr[0]).value;
      RunGivesUpIff(next, cfg, tr[1..]);
      if i :| 0 <= i < |tr| && Final(tr[i]) { assert i > 0 ==> Final(tr[1..][i - 1]); }
      if i :| 0 <= i < |tr[1..]| && Final(tr[1..][i]) { assert Final(tr[i + 1]); }
    }
  }

  lemma {:induction false} RunStays(m: Marker, cfg: Settings, tr: seq<Act>)
    ensures Run(Some(m), cfg, tr).Some?
    decreases |tr|
  {
    if tr != [] { RunStays(Apply(Some(m), cfg, tr[0]).value, cfg, tr[1..]); }
  }

  lemma {:induction false} RunExpiresLate(m: Marker, cfg: Settings, tr: seq<Act>)
    requires m.exhausted == None
    ensures var end := Run(Some(m), cfg, tr);
            end.Some? && (end.value.exhausted.Some? ==> exists i :: 0 <= i < |tr| && tr[i].Visit? && tr[i].at - m.since > cfg.deadline)
    decreases |tr|
  {
    if tr != [] {
      var next := Apply(Some(m), cfg, tr[0]).value;
      if next.exhausted.Some? {
        RunStays(next, cfg, tr[1..]);
      } else {
        RunExpiresLate(next, cfg, tr[1..]);
        if i :| 0 <= i < |tr[1..]| && tr[1..][i].Visit? && tr[1..][i].at - m.since > cfg.deadline { assert tr[i + 1].Visit?; }
      }
    }
  }

  /** The reason given by the last mark. */
  function LastReason(tr: seq<Act>, reason: string): string {
    if tr == [] then reason else LastReason(tr[1..], if tr[0].Mark? then tr[0].reason else reason)
  }

  lemma {:induction false} LastReasonIsKept(m: Marker, cfg: Settings, tr: seq<Act>)
    ensures Run(Some(m), cfg, tr).Some? && Run(Some(m), cfg, tr).value.reason == LastReason(tr, m.reason)
    decreases |tr|
  {
    if tr != [] { LastReasonIsKept(Apply(Some(m), cfg, tr[0]).value, cfg, tr[1..]); }
  }

  /** From the first mark on, whatever was marked, visited or answered since: a recording is asked
      about exactly once the delay has passed since the last ask, within the deadline, unless an
      answer said that asking will not help, or a visit past the deadline wrote it off. */
  lemma {:induction false} AsksIff(cfg: Settings, reason: string, since: int, tr: seq<Act>, now: int)
    ensures var m := Marked(None, false, cfg, reason, since);
            var times, end := AskTimes(m, cfg, tr), Run(m, cfg, tr);
            && end.Some?
            && (Asks(end, cfg, now)
                <==> && LastAsk(times, since) + Delay(cfg, |times|) <= now <= since + cfg.deadline
                     && end.value.exhausted == None && !exists i :: 0 <= i < |tr| && Final(tr[i]))
            && end.value.reason == LastReason(tr, reason)
            && (end.value.exhausted.Some? ==> exists i :: 0 <= i < |tr| && tr[i].Visit? && tr[i].at - since > cfg.deadline)
  {
    var m := Marked(None, false, cfg, reason, since).value;
    RunStands(m, cfg, tr, since);
    RunGivesUpIff(m, cfg, tr);
    RunExpiresLate(m, cfg, tr);
    LastReasonIsKept(m, cfg, tr);
  }

  /** A marker that gave up, or ran out of time, is never asked about again, however often it is
      marked anew. */
  lemma {:induction false} SilencedForGood(m: Marker, cfg: Settings, tr: seq<Act>)
    requires m.exhausted.Some? || m.gaveUp
    ensures AskTimes(Some(m), cfg, tr) == []
    decreases |tr|
  {
    if tr != [] { SilencedForGood(Apply(Some(m), cfg, tr[0]).value, cfg, tr[1..]); }
  }

  // ----- one tick

  datatype Tally = Tally(started: nat, exhausted: nat, waiting: nat)

  function Budget(cfg: Settings, lastFailed: bool): (b: nat)
    ensures b >= 1 && (lastFailed ==> b == 1) && (!lastFailed && cfg.batch >= 1 ==> b == cfg.batch)
  {
    if lastFailed || cfg.batch < 1 then 1 else cfg.batch
  }

  /** The rows after a tick that may still start `budget` repairs, visited in order; `refused`
      says whose repair the summarizer would not start. */
  function Ticked(rows: seq<Option<Marker>>, refused: seq<bool>, budget: nat, cfg: Settings, now: int): (r: (seq<Option<Marker>>, Tally))
    requires |refused| == |rows|
    ensures |r.0| == |rows|
    decreases |rows|
  {
    if rows == [] || budget == 0 then (rows, Tally(0, 0, 0))
    else
      var starts := Asks(rows[0], cfg, now) && !refused[0];
      var expires := Due(rows[0], now) && !Asks(rows[0], cfg, now);
      var rest := Ticked(rows[1..], refused[1..], if starts then budget - 1 else budget, cfg, now);
      ([Visited(rows[0], cfg, now)] + rest.0,
       Tally(rest.1.started + if starts then 1 else 0, rest.1.exhausted + if expires then 1 else 0, 0))
  }

  /** How many repairs were started: rows asked about, and not refused. */
  function Count(before: seq<Option<Marker>>, after: seq<Option<Marker>>, refused: seq<bool>, cfg: Settings, now: int): nat
    requires |before| == |after| == |refused|
  {
    if before == [] then 0
    else (if after[0] != before[0] && Asks(before[0], cfg, now) && !refused[0] then 1 else 0)
         + Count(before[1..], after[1..], refused[1..], cfg, now)
  }

  /** How many recordings were written off. */
  function WrittenOff(before: seq<Option<Marker>>, after: seq<Option<Marker>>): nat
    requires |before| == |after|
  {
    if before == [] then 0
    else (if before[0].Some? && after[0].Some? && before[0].value.exhausted == None && after[0].value.exhausted.Some? then 1 else 0)
         + WrittenOff(before[1..], after[1..])
  }

  lemma {:induction false} NoneWrittenOff(rows: seq<Option<Marker>>)
    ensures WrittenOff(rows, rows) == 0
  {
    if rows != [] { NoneWrittenOff(rows[1..]); }
  }

  lemma {:induction false} NoChange(rows: seq<Option<Marker>>, refused: seq<bool>, cfg: Settings, now: int)
    requires |refused| == |rows|
    ensures Count(rows, rows, refused, cfg, now) == 0
  {
    if rows != [] { NoChange(rows[1..], refused[1..], cfg, now); }
  }

  /** A tick starts at most its budget of repairs, each for a row that was due; every row it
      reaches is left alone, written off or asked about once, and unless the budget ran out it
      reaches them all. */
  lemma {:induction false} TickRules(rows: seq<Option<Marker>>, refused: seq<bool>, budget: nat, cfg: Settings, now: int)
    requires |refused| == |rows|
    ensures var r := Ticked(rows, refused, budget, cfg, now);
            && r.1.started <= budget
            && r.1.started == Count(rows, r.0, refused, cfg, now)
            && r.1.exhausted == WrittenOff(rows, r.0) && r.1.waiting == 0
            && (forall i :: 0 <= i < |rows| ==> r.0[i] == rows[i] || r.0[i] == Visited(rows[i], cfg, now))
            && (r.1.started < budget ==> forall i :: 0 <= i < |rows| ==> r.0[i] == Visited(rows[i], cfg, now))
    decreases |rows|
  {
    if rows == [] || budget == 0 {
      NoChange(rows, refused, cfg, now);
      NoneWrittenOff(rows);
    } else {
      TickRules(rows[1..], refused[1..], if Asks(rows[0], cfg, now) && !refused[0] then budget - 1 else budget, cfg, now);
    }
  }

  lemma {:induction false} TickedStep(rows: seq<Option<Marker>>, refused: seq<bool>, i: nat, budget: nat, cfg: Settings, now: int)
    requires |refused| == |rows| && i < |rows| && budget > 0
    ensures var starts := if Asks(rows[i], cfg, now) && !refused[i] then 1 else 0;
            var expires := if Due(rows[i], now) && !Asks(rows[i], cfg, now) then 1 else 0;
            var rest := Ticked(rows[i + 1..], refused[i + 1..], budget - starts, cfg, now);
            Ticked(rows[i..], refused[i..], budget, cfg, now)
            == ([Visited(rows[i], cfg, now)] + rest.0, Tally(rest.1.started + starts, rest.1.exhausted + expires, 0))
  {
    assert rows[i..][1..] == rows[i + 1..] && refused[i..][1..] == refused[i + 1..];
  }

  /** What is left to do for the rows from `i` on, added to what is done, is the whole tick. */
  ghost predicate Underway(goal: (seq<Option<Marker>>, Tally), done: seq<Option<Marker>>, rest: (seq<Option<Marker>>, Tally),
                           started: nat, exhausted: nat) {
    goal.0 == done + rest.0 && goal.1 == Tally(started + rest.1.started, exhausted + rest.1.exhausted, 0)
  }

  /** One row's turn: it is left alone, written off, or asked about. */
  method Visit(m: Option<Marker>, cfg: Settings, now: int) returns (m': Option<Marker>, asked: bool, expired: bool)
    ensures m' == Visited(m, cfg, now) && asked == Asks(m, cfg, now) && expired == (Due(m, now) && !Asks(m, cfg, now))
  {
    m', asked, expired := m, false, false;
    if m == None || m.value.exhausted.Some? || m.value.gaveUp || m.value.nextAt > now {
      return;
    }
    if now - m.value.since > cfg.deadline {
      m', expired := Some(m.value.(exhausted := Some(now))), true;
      return;
    }
    var attempts := m.value.attempts + 1;
    m', asked := Some(m.value.(attempts := attempts, nextAt := now + Delay(cfg, attempts))), true;
  }

  lemma {:induction false} UnderwayStep(goal: (seq<Option<Marker>>, Tally), done: seq<Option<Marker>>, was: seq<Option<Marker>>, refused: seq<bool>,
                     i: nat, budget: nat, started: nat, exhausted: nat, cfg: Settings, now: int)
    requires |refused| == |was| && i < |was| && budget > 0
    requires Underway(goal, done, Ticked(was[i..], refused[i..], budget, cfg, now), started, exhausted)
    ensures var starts := if Asks(was[i], cfg, now) && !refused[i] then 1 else 0;
            var expires := if Due(was[i], now) && !Asks(was[i], cfg, now) then 1 else 0;
            Underway(goal, done + [Visited(was[i], cfg, now)],
                     Ticked(was[i + 1..], refused[i + 1..], budget - starts, cfg, now), started + starts, exhausted + expires)
  {
    TickedStep(was, refused, i, budget, cfg, now);
  }

  method VisitRow(rows: array<Option<Marker>>, i: nat, cfg: Settings, now: int, ghost done: seq<Option<Marker>>, ghost was: seq<Option<Marker>>)
    returns (asked: bool, expired: bool)
    requires i < rows.Length == |was| && |done| == i && rows[..] == done + was[i..]
    modifies rows
    ensures rows[..] == done + [Visited(was[i], cfg, now)] + was[i + 1..]
    ensures asked == Asks(was[i], cfg, now) && expired == (Due(was[i], now) && !asked)
  {
    assert rows[i] == rows[..][i] == was[i];
    var m;
    m, asked, expired := Visit(rows[i], cfg, now);
    rows[i] := m;
  }

  method TickRow(rows: array<Option<Marker>>, i: nat, refused: seq<bool>, ghost budget: nat, cfg: Settings, now: int,
                 started: nat, exhausted: nat, ghost done: seq<Option<Marker>>, ghost was: seq<Option<Marker>>,
                 ghost goal: (seq<Option<Marker>>, Tally))
    returns (started': nat, exhausted': nat)
    requires i < rows.Length == |was| == |refused| && started < budget && |done| == i && rows[..] == done + was[i..]
    requires Underway(goal, done, Ticked(was[i..], refused[i..], budget - started, cfg, now), started, exhausted)
    modifies rows
    ensures started' <= budget && rows[..] == done + [Visited(was[i], cfg, now)] + was[i + 1..]
    ensures Underway(goal, done + [Visited(was[i], cfg, now)], Ticked(was[i + 1..], refused[i + 1..], budget - started', cfg, now),
                     started', exhausted')
  {
    UnderwayStep(goal, done, was, refused, i, budget - started, started, exhausted, cfg, now);
    var asked, expired := VisitRow(rows, i, cfg, now, done, was);
    started' := if asked && !refused[i] then started + 1 else started;
    exhausted' := if expired then exhausted + 1 else exhausted;
  }

  lemma {:induction false} NothingLeft(goal: (seq<Option<Marker>>, Tally), done: seq<Option<Marker>>, rest: seq<Option<Marker>>, refused: seq<bool>,
                    budget: nat, started: nat, exhausted: nat, cfg: Settings, now: int)
    requires |rest| == |refused| && (rest == [] || budget == 0)
    requires Underway(goal, done, Ticked(rest, refused, budget, cfg, now), started, exhausted)
    ensures goal == (done + rest, Tally(started, exhausted, 0))
  {
  }

  method TickRows(rows: array<Option<Marker>>, refused: seq<bool>, budget: nat, cfg: Settings, now: int)
    returns (started: nat, exhausted: nat)
    requires |refused| == rows.Length && budget > 0
    modifies rows
    ensures (rows[..], Tally(started, exhausted, 0)) == Ticked(old(rows[..]), refused, budget, cfg, now)
  {
    started, exhausted := 0, 0;
    ghost var was := rows[..];
    ghost var done: seq<Option<Marker>> := [];
    ghost var goal := Ticked(was, refused, budget, cfg, now);
    assert was[0..] == was && refused[0..] == refused && [] + goal.0 == goal.0;
    var i := 0;
    while i < rows.Length && started < budget
      invariant 0 <= i <= rows.Length == |was| && started <= budget && |done| == i && rows[..] == done + was[i..]
      invariant Underway(goal, done, Ticked(was[i..], refused[i..], budget - started, cfg, now), started, exhausted)
    {
      started, exhausted := TickRow(rows, i, refused, budget, cfg, now, started, exhausted, done, was, goal);
      done := done + [Visited(was[i], cfg, now)];
      i := i + 1;
    }
    NothingLeft(goal, done, was[i..], refused[i..], budget - started, started, exhausted, cfg, now);
  }

  /** One watchdog tick over the rows that carry a marker. While a repair is in flight nothing is
      touched; after a failed one at most one is started. */
  method RepairDue(rows: array<Option<Marker>>, refused: seq<bool>, cfg: Settings, enabled: bool, inFlight: bool, lastFailed: bool, now: int)
    returns (counts: Tally)
    requires |refused| == rows.Length
    modifies rows
    ensures !enabled ==> rows[..] == old(rows[..]) && counts == Tally(0, 0, 0)
    ensures enabled && inFlight ==> rows[..] == old(rows[..]) && counts == Tally(0, 0, 1)
    ensures enabled && !inFlight ==> (rows[..], counts) == Ticked(old(rows[..]), refused, Budget(cfg, lastFailed), cfg, now)
  {
    if !enabled {
      return Tally(0, 0, 0);
    }
    if inFlight {
      return Tally(0, 0, 1);
    }
    var started, exhausted := TickRows(rows, refused, Budget(cfg, lastFailed), cfg, now);
    counts := Tally(started, exhausted, 0);
  }
}
