/** What every transition publishes: a terminal status is announced by exactly one event, and
    each run of a recording is announced as completed at most once. */
module Ledger {
  import opened Results
  import opened Recordings
  import opened Pipeline

  // ----- the shape of a transition

  /** The events that may accompany an entry into `status`, all tagged with one run. */
  predicate Fits(events: seq<Event>, status: Status, tag: RunTag) {
    match status
    case Completed => events == [RunCompleted(tag)]
    case Error => |events| == 1 && events[0].RunFailed? && events[0].run == tag
    case NeedsPayment => |events| == 1 && events[0].PaymentNeeded? && events[0].run == tag
    case Deleted => false
    case _ =>
      || events == []
      || (|events| == 1 && events[0].StageDue?)
      || (|events| == 2 && events[0].StageCompleted? && events[0].run == tag && events[1] == StageDue(events[0].at + 1))
  }

  /** A transition of a running recording: nothing at all, or a change of a non-terminal row
      that publishes exactly what its new status calls for, under one run identity. */
  predicate Lawful(row: Row, next: Next, tag: RunTag) {
    || next == Quiet(row)
    || (&& !Terminal(row.status)
        && Fits(next.events, next.row.status, tag)
        && (next.row.flow.marked || (!row.flow.marked && next.row.flow.run == row.flow.run))
        && (next.row.flow.run == Some(tag) || (next.row.flow.run == row.flow.run && next.events == [])
            || (next.row.flow.run == row.flow.run && |next.events| == 1 && next.events[0].StageDue?)))
  }

  /** The actions that move a row no matter whether it is terminal, or hand it to the driver. */
  predicate Explicit(a: Action) {
    a.Start? || a.Retry? || a.Pay? || a.ReprocessAll? || a.GiveUpUpload? || a.CloseUpload? || a.OpenUpload? || a.Invalidate?
  }

  function MintOf(a: Action): RunId {
    match a
    case Deliver(_, _, _, id) => id
    case TaskDone(_, _, _, id) => id
    case TaskFailed(_, _, _, id) => id
    case Start(id) => id
    case ReprocessAll(id) => id
    case Close(_, id) => id
    case Watchdog(id) => id
    case _ => 0
  }

  lemma {:induction false} ConcludeLawful(row: Row, cfg: Config, name: Name, index: int, fp: Option<Print>, outcome: Outcome, id: RunId)
    requires !Terminal(row.status)
    ensures Lawful(row, Conclude(row, cfg, name, index, fp, outcome, id), Tag(row.flow, id))
  {
  }

  lemma {:induction false} BegunLawful(row: Row, begun: Row, next: Next, id: RunId)
    requires !Terminal(row.status) && !Terminal(begun.status)
    requires begun.flow.marked && begun.flow.run == EnsureRun(row.flow, id).run
    requires Lawful(begun, next, Tag(row.flow, id))
    ensures Lawful(row, next, Tag(row.flow, id))
  {
  }

  lemma {:induction false} DeliverLawful(row: Row, cfg: Config, env: Env, k: int, outcome: Outcome, id: RunId)
    ensures Lawful(row, RunStage(row, cfg, env, k, outcome, id), Tag(row.flow, id))
  {
    match Decide(row, env, k, id)
    case Invoke(begun, name, index, fp) =>
      InvokeFacts(row, env, k, id);
      ConcludeLawful(begun, cfg, name, index, fp, outcome, id);
      BegunLawful(row, begun, Conclude(begun, cfg, name, index, fp, outcome, id), id);
    case _ =>
  }

  lemma {:induction false} TaskDoneLawful(row: Row, cfg: Config, env: Env, task: TaskId, outcome: Outcome, id: RunId)
    ensures Lawful(row, ResumeStage(row, cfg, env, task, outcome, id), Tag(row.flow, id))
  {
    if Expects(row, task) {
      var a := row.flow.awaiting.value;
      ConcludeLawful(if outcome.Fatal? then row else ClearAwaiting(row), cfg, a.stage, a.index, a.fp,
                     if outcome.Submitted? then Retryable("unexpected") else outcome, id);
    }
  }

  lemma {:induction false} StepLawful(row: Row, cfg: Config, a: Action)
    requires !Explicit(a)
    ensures Lawful(row, Step(row, cfg, a), Tag(row.flow, MintOf(a)))
  {
    match a
    case Deliver(env, k, outcome, id) => DeliverLawful(row, cfg, env, k, outcome, id);
    case TaskDone(env, task, outcome, id) => TaskDoneLawful(row, cfg, env, task, outcome, id);
    case _ =>
  }

  // ----- the ledger

  /** The three terminal statuses the driver enters, each with the event it publishes. */
  datatype Kind = Finished | Failed | Parked

  predicate Announces(e: Event, kind: Kind) {
    match kind
    case Finished => e.RunCompleted?
    case Failed => e.RunFailed?
    case Parked => e.PaymentNeeded?
  }

  function StatusOf(kind: Kind): Status {
    match kind
    case Finished => Completed
    case Failed => Error
    case Parked => NeedsPayment
  }

  function Count(log: seq<Event>, kind: Kind): nat {
    if log == [] then 0 else (if Announces(log[0], kind) then 1 else 0) + Count(log[1..], kind)
  }

  lemma {:induction false} CountConcat(o: seq<Event>, more: seq<Event>, kind: Kind)
    ensures Count(o + more, kind) == Count(o, kind) + Count(more, kind)
  {
    if o == [] {
      assert o + more == more;
    } else {
      assert (o + more)[1..] == o[1..] + more;
      CountConcat(o[1..], more, kind);
    }
  }

  function Stands(row: Row, kind: Kind): nat {
    if row.status == StatusOf(kind) then 1 else 0
  }

  /** How a kind's status is left or entered without its event: by the transition meant for it,
      by an upload that finishes late, or by the watchdog's silent write-off. */
  datatype Turn = Reopened | Overwritten | WrittenOff

  /** Does the action take that turn on the row? */
  function Turns(row: Row, a: Action, kind: Kind, turn: Turn): nat {
    match turn
    case Reopened =>
      (match kind
       case Finished => if a.ReprocessAll? && row.status == Completed then 1 else 0
       case Parked => if a.Pay? && row.status == NeedsPayment then 1 else 0
       case Failed => if a.Retry? && Retries(row, a.hasSource) then 1 else 0)
    case Overwritten => if a.CloseUpload? && TakesUpload(row, a.open) && row.status == StatusOf(kind) then 1 else 0
    case WrittenOff => if kind == Failed && a.GiveUpUpload? && row.status == Uploading then 1 else 0
  }

  /** How often a run took that turn. */
  function Taken(h: History, cfg: Config, tr: seq<Action>, kind: Kind, turn: Turn): nat
    decreases |tr|
  {
    if tr == [] then 0 else Turns(h.row, tr[0], kind, turn) + Taken(Extend(h, cfg, tr[0]), cfg, tr[1..], kind, turn)
  }

  lemma {:induction false} LawfulBalance(row: Row, next: Next, tag: RunTag, kind: Kind)
    requires Lawful(row, next, tag)
    ensures Count(next.events, kind) + Stands(row, kind) == Stands(next.row, kind)
  {
    if next.events != [] {
      var rest := next.events[1..];
      assert rest == [] || Count(rest, kind) == if Announces(rest[0], kind) then 1 else 0;
    }
  }

  lemma {:induction false} StepBalance(row: Row, cfg: Config, a: Action, kind: Kind)
    ensures var next := Step(row, cfg, a);
            Count(next.events, kind) + Stands(row, kind) + Turns(row, a, kind, WrittenOff)
            == Stands(next.row, kind) + Turns(row, a, kind, Reopened) + Turns(row, a, kind, Overwritten)
  {
    if !Explicit(a) {
      StepLawful(row, cfg, a);
      LawfulBalance(row, Step(row, cfg, a), Tag(row.flow, MintOf(a)), kind);
    }
  }

  /** Along every run: #completed = #reprocesses + #late uploads on completed rows + [completed];
      #needs_payment = #payments + #late uploads on unpaid rows + [needs_payment]; #failed +
      #write-offs = #retries + #late uploads on failed rows + [error]. */
  lemma {:induction false} TerminalLedger(h: History, cfg: Config, tr: seq<Action>, kind: Kind)
    ensures Count(Run(h, cfg, tr).log, kind) + Stands(h.row, kind) + Taken(h, cfg, tr, kind, WrittenOff)
         == Count(h.log, kind) + Taken(h, cfg, tr, kind, Reopened) + Taken(h, cfg, tr, kind, Overwritten)
            + Stands(Run(h, cfg, tr).row, kind)
    decreases |tr|
  {
    if tr != [] {
      StepBalance(h.row, cfg, tr[0], kind);
      CountConcat(h.log, Step(h.row, cfg, tr[0]).events, kind);
      TerminalLedger(Extend(h, cfg, tr[0]), cfg, tr[1..], kind);
    }
  }

  lemma {:induction false} StoppedStays(row: Row, cfg: Config, a: Action)
    requires Terminal(row.status) && !Explicit(a)
    ensures Step(row, cfg, a) == Quiet(row)
  {
    StepLawful(row, cfg, a);
  }

  /** How a row with the kind's status may be let out of it. */
  function Leaves(row: Row, a: Action, kind: Kind): nat {
    Turns(row, a, kind, Reopened) + Turns(row, a, kind, Overwritten)
  }

  /** A terminal status is left exactly by the transition meant for it (a reprocess, an allowed
      retry, a payment) and by an upload that finishes late; either way the row is queued. */
  lemma {:induction false} TerminalExits(row: Row, cfg: Config, a: Action)
    requires Terminal(row.status)
    ensures var next := Step(row, cfg, a).row;
            if Leaves(row, a, Finished) + Leaves(row, a, Failed) + Leaves(row, a, Parked) == 1
            then next.status == Queued else next.status == row.status
  {
    if !Explicit(a) { StoppedStays(row, cfg, a); }
  }
}
