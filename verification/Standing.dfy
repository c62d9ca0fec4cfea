/** What a stopped recording says about itself: its status, the notes on its row and the last
    event published about it tell one story. */
module Standing {
  import opened Results
  import opened Recordings
  import opened Checkpoints
  import opened Pipeline
  import opened Ledger

  /** The failure event repeats the note on the row; a spent ladder says so in front of it. */
  predicate Tells(e: Event, f: Failure, run: RunTag) {
    || e == RunFailed(f.stage, f.reason, f.userRetryable, run)
    || e == RunFailed(f.stage, "retries_exhausted: " + f.reason, true, run)
  }

  /** The watchdog wrote the upload off, which no event announces. */
  predicate AbandonedUpload(row: Row) {
    row.flow.notes.lastError.Some? && row.flow.notes.lastError.value.reason == "upload_abandoned"
  }

  /** The last event of `log` gives the reason the row stands where it does. */
  predicate Explains(row: Row, log: seq<Event>) {
    match row.status
    case Completed => log != [] && row.flow.run.Some? && log[|log| - 1] == RunCompleted(row.flow.run.value)
    case NeedsPayment =>
      && log != [] && row.flow.run.Some? && row.flow.notes.needsPayment.Some?
      && var bill := row.flow.notes.needsPayment.value;
         log[|log| - 1] == PaymentNeeded(bill.stage, bill.reason, row.flow.run.value)
    case Error =>
      || AbandonedUpload(row)
      || (&& log != [] && row.flow.run.Some? && row.flow.notes.lastError.Some?
          && Tells(log[|log| - 1], row.flow.notes.lastError.value, row.flow.run.value))
    case _ => true
  }

  lemma {:induction false} ConcludeAccounts(begun: Row, cfg: Config, name: Name, index: int, fp: Option<Print>, outcome: Outcome, id: RunId)
    requires !Terminal(begun.status)
    ensures var next := Conclude(begun, cfg, name, index, fp, outcome, id); Explains(next.row, next.events)
  {
  }

  lemma {:induction false} DeliverAccounts(row: Row, cfg: Config, env: Env, k: int, outcome: Outcome, id: RunId)
    requires !Terminal(row.status)
    ensures var next := RunStage(row, cfg, env, k, outcome, id); Explains(next.row, next.events)
  {
    match Decide(row, env, k, id)
    case Invoke(begun, name, index, fp) =>
      InvokeFacts(row, env, k, id);
      ConcludeAccounts(begun, cfg, name, index, fp, outcome, id);
    case _ =>
  }

  lemma {:induction false} TaskAccounts(row: Row, cfg: Config, env: Env, task: TaskId, outcome: Outcome, id: RunId)
    requires !Terminal(row.status)
    ensures var next := ResumeStage(row, cfg, env, task, outcome, id); Explains(next.row, next.events)
  {
    if Expects(row, task) {
      var a := row.flow.awaiting.value;
      ConcludeAccounts(if outcome.Fatal? then row else ClearAwaiting(row), cfg, a.stage, a.index, a.fp,
                       if outcome.Submitted? then Retryable("unexpected") else outcome, id);
    }
  }

  lemma {:induction false} RunningAccounts(row: Row, cfg: Config, a: Action)
    requires !Terminal(row.status)
    ensures var next := Step(row, cfg, a); Explains(next.row, next.events)
  {
    match a
    case Deliver(env, k, outcome, id) => DeliverAccounts(row, cfg, env, k, outcome, id);
    case TaskDone(env, task, outcome, id) => TaskAccounts(row, cfg, env, task, outcome, id);
    case _ =>
  }

  /** A terminal row is left alone, let back in, or declared stale where it stands: unless it is
      let in, nothing is published and run and notes stay. */
  lemma {:induction false} StoppedAccounts(row: Row, cfg: Config, a: Action)
    requires Terminal(row.status)
    ensures var next := Step(row, cfg, a);
            Terminal(next.row.status) ==>
              && next.events == [] && next.row.status == row.status
              && next.row.flow.run == row.flow.run && next.row.flow.notes == row.flow.notes
  {
    if !Explicit(a) { StepLawful(row, cfg, a); }
  }

  lemma {:induction false} LastOfBoth(row: Row, log: seq<Event>, events: seq<Event>)
    requires Explains(row, events)
    ensures Explains(row, log + events)
  {
    if events != [] { assert (log + events)[|log + events| - 1] == events[|events| - 1]; }
  }

  lemma {:induction false} StepExplained(h: History, cfg: Config, a: Action)
    requires Explains(h.row, h.log)
    ensures Explains(Extend(h, cfg, a).row, Extend(h, cfg, a).log)
  {
    var next := Step(h.row, cfg, a);
    if Terminal(h.row.status) {
      StoppedAccounts(h.row, cfg, a);
      if Terminal(next.row.status) { assert h.log + next.events == h.log; }
    } else {
      RunningAccounts(h.row, cfg, a);
      LastOfBoth(next.row, h.log, next.events);
    }
  }

  /** Along every run, whatever is delivered or uploaded late or twice: a completed recording's
      last event names its run, one that waits for payment has the bill its last event announced,
      and a failed one has the failure its last event announced, or was written off. */
  lemma {:induction false} StandingIsExplained(h: History, cfg: Config, tr: seq<Action>)
    requires Explains(h.row, h.log)
    ensures Explains(Run(h, cfg, tr).row, Run(h, cfg, tr).log)
    decreases |tr|
  {
    if tr != [] {
      StepExplained(h, cfg, tr[0]);
      StandingIsExplained(Extend(h, cfg, tr[0]), cfg, tr[1..]);
    }
  }

  /** What a payment settles is the bill the recording's last event announced, under its run. */
  lemma {:induction false} PaidBillWasAnnounced(h: History, cfg: Config, tr: seq<Action>)
    requires Explains(h.row, h.log) && Run(h, cfg, tr).row.status == NeedsPayment
    ensures var stopped := Run(h, cfg, tr);
            var paid := ResumeAfterPayment(stopped.row).row.flow.notes;
            && paid.needsPayment == None && paid.paidFor.Some? && stopped.log != [] && stopped.row.flow.run.Some?
            && stopped.log[|stopped.log| - 1] == PaymentNeeded(paid.paidFor.value.stage, paid.paidFor.value.reason, stopped.row.flow.run.value)
  {
    StandingIsExplained(h, cfg, tr);
  }

  // ----- when a bill stands

  /** A bill stands on the row exactly while the recording waits for it. */
  predicate BillFits(row: Row) {
    row.flow.notes.needsPayment.Some? <==> row.status == NeedsPayment
  }

  lemma {:induction false} ConcludeBill(begun: Row, cfg: Config, name: Name, index: int, fp: Option<Print>, outcome: Outcome, id: RunId)
    requires !Terminal(begun.status) && BillFits(begun)
    ensures BillFits(Conclude(begun, cfg, name, index, fp, outcome, id).row)
  {
  }

  lemma {:induction false} DeliverBill(row: Row, cfg: Config, env: Env, k: int, outcome: Outcome, id: RunId)
    requires BillFits(row)
    ensures BillFits(RunStage(row, cfg, env, k, outcome, id).row)
  {
    match Decide(row, env, k, id)
    case Invoke(begun, name, index, fp) =>
      InvokeFacts(row, env, k, id);
      ConcludeBill(begun, cfg, name, index, fp, outcome, id);
    case _ =>
  }

  lemma {:induction false} TaskBill(row: Row, cfg: Config, env: Env, task: TaskId, outcome: Outcome, id: RunId)
    requires BillFits(row)
    ensures BillFits(ResumeStage(row, cfg, env, task, outcome, id).row)
  {
    if Expects(row, task) {
      var a := row.flow.awaiting.value;
      ConcludeBill(if outcome.Fatal? then row else ClearAwaiting(row), cfg, a.stage, a.index, a.fp,
                   if outcome.Submitted? then Retryable("unexpected") else outcome, id);
    }
  }

  lemma {:induction false} StepBillIff(row: Row, cfg: Config, a: Action)
    requires BillFits(row)
    ensures BillFits(Step(row, cfg, a).row) <==> Turns(row, a, Parked, Overwritten) == 0
  {
    match a
    case Deliver(env, k, outcome, id) => DeliverBill(row, cfg, env, k, outcome, id);
    case TaskDone(env, task, outcome, id) => TaskBill(row, cfg, env, task, outcome, id);
    case _ =>
  }

  predicate FitsThroughout(h: History, cfg: Config, tr: seq<Action>)
    decreases |tr|
  {
    BillFits(h.row) && (tr != [] ==> FitsThroughout(Extend(h, cfg, tr[0]), cfg, tr[1..]))
  }

  /** At every point of a run a bill stands exactly while the recording waits for it, if and only
      if no upload of the run finishes on a recording that waits for payment. */
  lemma {:induction false} BillFitsIff(h: History, cfg: Config, tr: seq<Action>)
    requires BillFits(h.row)
    ensures FitsThroughout(h, cfg, tr) <==> Taken(h, cfg, tr, Parked, Overwritten) == 0
    decreases |tr|
  {
    if tr != [] {
      StepBillIff(h.row, cfg, tr[0]);
      if BillFits(Extend(h, cfg, tr[0]).row) { BillFitsIff(Extend(h, cfg, tr[0]), cfg, tr[1..]); }
    }
  }
}
