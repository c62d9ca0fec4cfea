/** The ceilings: how often a stage may ask to be tried again, and how often the watchdog may
    re-drive a recording that never moves. */
module Ladders {
  import opened Results
  import opened Recordings
  import opened Pipeline
  import opened Ledger

  // ----- retryable outcomes

  /** Does the transition announce a stage completion? */
  predicate Completes(next: Next) {
    next.events != [] && next.events[0].StageCompleted?
  }

  /** Does the action end in a retryable outcome: a broken resolver, or a handler that asks to
      be tried again? */
  predicate AsksAgain(row: Row, a: Action) {
    match a
    case Deliver(env, k, outcome, id) =>
      var d := Decide(row, env, k, id);
      d.ResolverDown? || (d.Invoke? && outcome.Retryable?)
    case TaskDone(env, task, outcome, _) =>
      Expects(row, task) && env.registry(row.flow.awaiting.value.stage).Known? && (outcome.Retryable? || outcome.Submitted?)
    case _ => false
  }

  /** A stage completes, or a terminal row is let back into the pipeline. */
  predicate Resets(row: Row, next: Next) {
    (Terminal(row.status) && !Terminal(next.row.status)) || Completes(next)
  }

  /** How many retryable outcomes a row can still take before it is failed. */
  function Budget(row: Row, cfg: Config): nat
    requires row.retryCount <= cfg.maxRetries
  {
    if Terminal(row.status) then 0 else cfg.maxRetries + 1 - row.retryCount
  }

  /** The saved count never passes the limit; without a reset the budget never grows, and a
      retryable outcome costs exactly one. */
  ghost predicate Spends(row: Row, cfg: Config, next: Next, asks: bool) {
    && row.retryCount <= cfg.maxRetries
    && next.row.retryCount <= cfg.maxRetries
    && (asks ==> Budget(next.row, cfg) == Budget(row, cfg) - 1)
    && (!Resets(row, next) ==> Budget(next.row, cfg) <= Budget(row, cfg))
  }

  lemma {:induction false} ConcludeSpends(begun: Row, cfg: Config, name: Name, index: int, fp: Option<Print>, outcome: Outcome, id: RunId)
    requires !Terminal(begun.status) && begun.retryCount <= cfg.maxRetries
    ensures Spends(begun, cfg, Conclude(begun, cfg, name, index, fp, outcome, id), outcome.Retryable?)
    ensures outcome.Submitted? ==> Conclude(begun, cfg, name, index, fp, outcome, id).row.retryCount == begun.retryCount
  {
  }

  lemma {:induction false} DeliverSpends(row: Row, cfg: Config, env: Env, k: int, outcome: Outcome, id: RunId)
    requires row.retryCount <= cfg.maxRetries
    ensures Spends(row, cfg, RunStage(row, cfg, env, k, outcome, id), AsksAgain(row, Deliver(env, k, outcome, id)))
  {
    match Decide(row, env, k, id)
    case Invoke(begun, name, index, fp) =>
      InvokeFacts(row, env, k, id);
      ConcludeSpends(begun, cfg, name, index, fp, outcome, id);
    case _ =>
  }

  lemma {:induction false} StepSpends(row: Row, cfg: Config, a: Action)
    requires row.retryCount <= cfg.maxRetries
    ensures Spends(row, cfg, Step(row, cfg, a), AsksAgain(row, a))
  {
    match a
    case Deliver(env, k, outcome, id) => DeliverSpends(row, cfg, env, k, outcome, id);
    case TaskDone(env, task, outcome, id) =>
      if Expects(row, task) {
        var w := row.flow.awaiting.value;
        ConcludeSpends(if outcome.Fatal? then row else ClearAwaiting(row), cfg, w.stage, w.index, w.fp,
                       if outcome.Submitted? then Retryable("unexpected") else outcome, id);
      }
    case _ =>
  }

  function Asks(h: History, cfg: Config, tr: seq<Action>): nat
    decreases |tr|
  {
    if tr == [] then 0 else (if AsksAgain(h.row, tr[0]) then 1 else 0) + Asks(Extend(h, cfg, tr[0]), cfg, tr[1..])
  }

  predicate NoReset(h: History, cfg: Config, tr: seq<Action>)
    decreases |tr|
  {
    tr != [] ==> !Resets(h.row, Step(h.row, cfg, tr[0])) && NoReset(Extend(h, cfg, tr[0]), cfg, tr[1..])
  }

  /** The saved count stays within MAX_STAGE_RETRIES along every run. */
  lemma {:induction false} RetryCountIsBounded(h: History, cfg: Config, tr: seq<Action>)
    requires h.row.retryCount <= cfg.maxRetries
    ensures Run(h, cfg, tr).row.retryCount <= cfg.maxRetries
    decreases |tr|
  {
    if tr != [] {
      StepSpends(h.row, cfg, tr[0]);
      RetryCountIsBounded(Extend(h, cfg, tr[0]), cfg, tr[1..]);
    }
  }

  /** Between two resets, whatever else happens, at most MAX_STAGE_RETRIES + 1 retryable
      outcomes are taken. */
  lemma {:induction false} RetriesBetweenResets(h: History, cfg: Config, tr: seq<Action>)
    requires h.row.retryCount <= cfg.maxRetries && NoReset(h, cfg, tr)
    ensures Run(h, cfg, tr).row.retryCount <= cfg.maxRetries
    ensures Asks(h, cfg, tr) + Budget(Run(h, cfg, tr).row, cfg) <= Budget(h.row, cfg) <= cfg.maxRetries + 1
    decreases |tr|
  {
    if tr != [] {
      StepSpends(h.row, cfg, tr[0]);
      RetriesBetweenResets(Extend(h, cfg, tr[0]), cfg, tr[1..]);
    }
  }

  // ----- every stage has its own attempts

  /** A completion, and every way back in but a late upload, starts from a clean count. */
  lemma {:induction false} ResetClearsTheCount(row: Row, cfg: Config, a: Action)
    requires Resets(row, Step(row, cfg, a)) && !a.CloseUpload?
    ensures Step(row, cfg, a).row.retryCount == 0
  {
    match a
    case Deliver(env, k, outcome, id) =>
      if Decide(row, env, k, id).Invoke? { InvokeFacts(row, env, k, id); }
    case _ =>
  }

  lemma {:induction false} StepCountsAsks(row: Row, cfg: Config, a: Action)
    requires !Terminal(row.status) && !Completes(Step(row, cfg, a)) && !Terminal(Step(row, cfg, a).row.status)
    ensures Step(row, cfg, a).row.retryCount == row.retryCount + if AsksAgain(row, a) then 1 else 0
  {
    match a
    case Deliver(env, k, outcome, id) =>
      if Decide(row, env, k, id).Invoke? { InvokeFacts(row, env, k, id); }
    case _ =>
  }

  lemma {:induction false} StoppedStaysStopped(h: History, cfg: Config, tr: seq<Action>)
    requires Terminal(h.row.status) && NoReset(h, cfg, tr)
    ensures Terminal(Run(h, cfg, tr).row.status)
    decreases |tr|
  {
    if tr != [] { StoppedStaysStopped(Extend(h, cfg, tr[0]), cfg, tr[1..]); }
  }

  /** As long as the row runs and nothing resets it, its count is that of the retryable outcomes. */
  lemma {:induction false} AsksAreCounted(h: History, cfg: Config, tr: seq<Action>)
    requires NoReset(h, cfg, tr) && !Terminal(Run(h, cfg, tr).row.status)
    ensures Run(h, cfg, tr).row.retryCount == h.row.retryCount + Asks(h, cfg, tr)
    decreases |tr|
  {
    if Terminal(h.row.status) {
      StoppedStaysStopped(h, cfg, tr);
    } else if tr != [] {
      var next := Extend(h, cfg, tr[0]);
      if Terminal(next.row.status) { StoppedStaysStopped(next, cfg, tr[1..]); }
      AsksAreCounted(next, cfg, tr[1..]);
      StepCountsAsks(h.row, cfg, tr[0]);
    }
  }

  /** The row is failed because its attempts are spent. */
  predicate Exhausts(next: Next) {
    && next.row.status == Error && |next.events| == 1 && next.events[0].RunFailed?
    && "retries_exhausted: " <= next.events[0].reason && next.events[0].userRetryable
  }

  lemma {:induction false} AskQueuesOrFails(row: Row, cfg: Config, a: Action)
    requires AsksAgain(row, a)
    ensures !Terminal(row.status)
    ensures var next := Step(row, cfg, a);
            if row.retryCount < cfg.maxRetries then next.row.status == Queued && next.events == [] else Exhausts(next)
  {
    match a
    case Deliver(env, k, outcome, id) =>
      if Decide(row, env, k, id).Invoke? { InvokeFacts(row, env, k, id); }
    case _ =>
  }

  /** After a completion (or a retry, a payment, a reprocess) a stage has all its attempts: the
      next MAX_STAGE_RETRIES retryable outcomes each queue the row again, and only the one after
      them fails it, whatever else happens in between. */
  lemma {:induction false} EveryStageHasItsOwnAttempts(h: History, cfg: Config, a: Action, tr: seq<Action>, again: Action)
    requires Resets(h.row, Step(h.row, cfg, a)) && !a.CloseUpload?
    requires NoReset(Extend(h, cfg, a), cfg, tr) && AsksAgain(Run(Extend(h, cfg, a), cfg, tr).row, again)
    ensures var start := Extend(h, cfg, a);
            var next := Step(Run(start, cfg, tr).row, cfg, again);
            if Asks(start, cfg, tr) < cfg.maxRetries then next.row.status == Queued && next.events == [] else Exhausts(next)
  {
    var start := Extend(h, cfg, a);
    ResetClearsTheCount(h.row, cfg, a);
    AskQueuesOrFails(Run(start, cfg, tr).row, cfg, again);
    AsksAreCounted(start, cfg, tr);
  }

  /** A stage that submits a task spends no attempt. */
  lemma {:induction false} AwaitingSpendsNothing(row: Row, cfg: Config, env: Env, k: int, task: TaskId, id: RunId)
    requires Decide(row, env, k, id).Invoke?
    ensures var next := RunStage(row, cfg, env, k, Submitted(task), id);
            && next.row.retryCount == row.retryCount && next.row.flow.redrives == row.flow.redrives
            && !Terminal(next.row.status) && next.events == [] && Expects(next.row, task)
  {
    InvokeFacts(row, env, k, id);
  }

  // ----- re-drives

  /** The counter respects the cap, and an untouched row has not been re-driven. */
  predicate Capped(row: Row, cfg: Config) {
    row.flow.redrives <= cfg.redriveCap && (!row.flow.marked ==> row.flow.redrives == 0)
  }

  /** Does a watchdog pass select the row? */
  predicate Selects(row: Row, a: Action) {
    a.Watchdog? && InPipeline(row.status)
  }

  function Least(x: nat, y: nat): nat {
    if x < y then x else y
  }

  lemma {:induction false} ConcludeRedrives(begun: Row, cfg: Config, name: Name, index: int, fp: Option<Print>, outcome: Outcome, id: RunId)
    ensures var next := Conclude(begun, cfg, name, index, fp, outcome, id);
            && next.row.flow.redrives == (if outcome.Done? then 0 else begun.flow.redrives)
            && (outcome.Done? <==> Completes(next))
            && (begun.flow.marked ==> next.row.flow.marked)
  {
  }

  /** Only a stage completion lowers the counter, and only a selecting pass raises it. */
  ghost predicate Counts(row: Row, cfg: Config, next: Next, selected: bool) {
    && next.row.flow.redrives == (if Completes(next) then 0
                                  else if selected then Least(cfg.redriveCap, row.flow.redrives + 1)
                                  else row.flow.redrives)
    && (row.flow.marked ==> next.row.flow.marked) && (next.row.flow.redrives > 0 ==> next.row.flow.marked)
  }

  lemma {:induction false} DeliverCounts(row: Row, cfg: Config, env: Env, k: int, outcome: Outcome, id: RunId)
    requires Capped(row, cfg)
    ensures Counts(row, cfg, RunStage(row, cfg, env, k, outcome, id), false)
  {
    match Decide(row, env, k, id)
    case Invoke(begun, name, index, fp) =>
      InvokeFacts(row, env, k, id);
      ConcludeRedrives(begun, cfg, name, index, fp, outcome, id);
    case _ =>
  }

  lemma {:induction false} StepCounts(row: Row, cfg: Config, a: Action)
    requires Capped(row, cfg) && cfg.redriveCap > 0
    ensures Counts(row, cfg, Step(row, cfg, a), Selects(row, a))
  {
    match a
    case Deliver(env, k, outcome, id) => DeliverCounts(row, cfg, env, k, outcome, id);
    case TaskDone(env, task, outcome, id) =>
      if Expects(row, task) {
        var w := row.flow.awaiting.value;
        ConcludeRedrives(if outcome.Fatal? then row else ClearAwaiting(row), cfg, w.stage, w.index, w.fp,
                         if outcome.Submitted? then Retryable("unexpected") else outcome, id);
      }
    case _ =>
  }

  /** How many watchdog passes of a run selected the row. */
  function Passes(h: History, cfg: Config, tr: seq<Action>): nat
    decreases |tr|
  {
    if tr == [] then 0 else (if Selects(h.row, tr[0]) then 1 else 0) + Passes(Extend(h, cfg, tr[0]), cfg, tr[1..])
  }

  predicate NothingCompletes(h: History, cfg: Config, tr: seq<Action>)
    decreases |tr|
  {
    tr != [] ==> !Completes(Step(h.row, cfg, tr[0])) && NothingCompletes(Extend(h, cfg, tr[0]), cfg, tr[1..])
  }

  /** The watchdog's counter never passes its cap. */
  lemma {:induction false} RedrivesAreBounded(h: History, cfg: Config, tr: seq<Action>)
    requires Capped(h.row, cfg) && cfg.redriveCap > 0
    ensures Capped(Run(h, cfg, tr).row, cfg)
    decreases |tr|
  {
    if tr != [] {
      StepCounts(h.row, cfg, tr[0]);
      RedrivesAreBounded(Extend(h, cfg, tr[0]), cfg, tr[1..]);
    }
  }

  lemma {:induction false} PassesAreCounted(h: History, cfg: Config, tr: seq<Action>)
    requires Capped(h.row, cfg) && cfg.redriveCap > 0 && NothingCompletes(h, cfg, tr)
    ensures Capped(Run(h, cfg, tr).row, cfg)
    ensures Run(h, cfg, tr).row.flow.redrives == Least(cfg.redriveCap, h.row.flow.redrives + Passes(h, cfg, tr))
    decreases |tr|
  {
    if tr != [] {
      StepCounts(h.row, cfg, tr[0]);
      PassesAreCounted(Extend(h, cfg, tr[0]), cfg, tr[1..]);
    }
  }

  /** The watchdog fails the row, and says why. */
  predicate GivesUp(next: Next) {
    next.row.status == Error && |next.events| == 1 && next.events[0].RunFailed? && next.events[0].reason == "reconcile_exhausted"
  }

  lemma {:induction false} SpentAfterCapPasses(h: History, cfg: Config, tr: seq<Action>)
    requires Capped(h.row, cfg) && cfg.redriveCap > 0 && NothingCompletes(h, cfg, tr)
    requires Passes(h, cfg, tr) >= cfg.redriveCap
    ensures Run(h, cfg, tr).row.flow.redrives >= cfg.redriveCap
  {
    PassesAreCounted(h, cfg, tr);
  }

  lemma {:induction false} SpentRowFails(row: Row, cfg: Config, id: RunId)
    requires InPipeline(row.status) && cfg.redriveCap > 0 && row.flow.redrives >= cfg.redriveCap
    ensures GivesUp(Step(row, cfg, Watchdog(id)))
  {
  }

  /** Among any cap + 1 passes that select a recording with no stage completion in between, the
      last at the latest fails it, whatever was delivered, retried or paid for meanwhile. */
  lemma {:induction false} WatchdogGivesUp(h: History, cfg: Config, tr: seq<Action>, id: RunId)
    requires Capped(h.row, cfg) && cfg.redriveCap > 0 && NothingCompletes(h, cfg, tr)
    requires Passes(h, cfg, tr) >= cfg.redriveCap && InPipeline(Run(h, cfg, tr).row.status)
    ensures GivesUp(Step(Run(h, cfg, tr).row, cfg, Watchdog(id)))
  {
    SpentAfterCapPasses(h, cfg, tr);
    SpentRowFails(Run(h, cfg, tr).row, cfg, id);
  }
}
