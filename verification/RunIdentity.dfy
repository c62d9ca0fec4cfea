/** One run, one bill: which run the events of a recording belong to. */
module RunIdentity {
  import opened Results
  import opened Recordings
  import opened Pipeline
  import opened Ledger

  /** The runs that public events have named. */
  function Tags(log: seq<Event>): set<RunTag> {
    set e | e in log && !e.StageDue? :: e.run
  }

  /** How many times the run `id` was announced as completed: what a host bills on. */
  function Bills(log: seq<Event>, id: RunId): nat {
    if log == [] then 0 else (if log[0].RunCompleted? && log[0].run.id == id then 1 else 0) + Bills(log[1..], id)
  }

  lemma {:induction false} BillsConcat(o: seq<Event>, more: seq<Event>, id: RunId)
    ensures Bills(o + more, id) == Bills(o, id) + Bills(more, id)
  {
    if o == [] {
      assert o + more == more;
    } else {
      assert (o + more)[1..] == o[1..] + more;
      BillsConcat(o[1..], more, id);
    }
  }

  lemma {:induction false} UnnamedIsUnbilled(log: seq<Event>, id: RunId)
    requires forall t :: t in Tags(log) ==> t.id != id
    ensures Bills(log, id) == 0
  {
    if log != [] {
      if !log[0].StageDue? { assert log[0].run in Tags(log); }
      forall t | t in Tags(log[1..]) ensures t in Tags(log) { }
      UnnamedIsUnbilled(log[1..], id);
    }
  }

  /** No event and no current run bears the id yet: what minting a fresh uuid provides. */
  predicate Unused(h: History, id: RunId) {
    (h.row.flow.run.Some? ==> h.row.flow.run.value.id != id) && forall t :: t in Tags(h.log) ==> t.id != id
  }

  predicate MintsRun(a: Action) {
    a.Start? || a.ReprocessAll? || a.Deliver? || a.TaskDone? || a.TaskFailed? || a.Close? || a.Watchdog?
  }

  /** Every transition that may mint a run id is handed an unused one. */
  predicate FreshIds(h: History, cfg: Config, tr: seq<Action>)
    decreases |tr|
  {
    tr != [] ==> (MintsRun(tr[0]) ==> Unused(h, MintOf(tr[0]))) && FreshIds(Extend(h, cfg, tr[0]), cfg, tr[1..])
  }

  /** The action is an upload that finishes on a completed row. */
  predicate HitsCompleted(row: Row, a: Action) {
    Turns(row, a, Finished, Overwritten) == 1
  }

  /** No upload of the run finishes on a completed row. */
  predicate Spared(h: History, cfg: Config, tr: seq<Action>)
    decreases |tr|
  {
    tr != [] ==> !HitsCompleted(h.row, tr[0]) && Spared(Extend(h, cfg, tr[0]), cfg, tr[1..])
  }

  /** The identities in the log: attempts up to the current one, one id per attempt, and the
      current run billed once if the row is completed, and not before. */
  ghost predicate Billed(h: History) {
    && var run := h.row.flow.run;
    && (run.Some? ==> h.row.flow.marked)
    && (run == None ==> Tags(h.log) == {})
    && (forall t :: t in Tags(h.log) ==> t.attempt < AttemptOf(h.row.flow) || run == Some(t))
    && (forall t :: t in Tags(h.log) && run.Some? && t.id == run.value.id ==> run == Some(t))
    && (forall s, t :: s in Tags(h.log) && t in Tags(h.log) ==> (s.id == t.id <==> s.attempt == t.attempt))
    && (forall id :: Bills(h.log, id) <= 1)
    && (h.row.status == Completed ==> run.Some?)
    && (run.Some? ==> Bills(h.log, run.value.id) == if h.row.status == Completed then 1 else 0)
  }

  lemma {:induction false} TagsOfEvents(log: seq<Event>, next: Next, tag: RunTag)
    requires Fits(next.events, next.row.status, tag)
    ensures Tags(log) <= Tags(log + next.events) <= Tags(log) + {tag}
    ensures next.events != [] && !next.events[0].StageDue? ==> tag in Tags(log + next.events)
  {
    forall t | t in Tags(log) ensures t in Tags(log + next.events) {
      var e :| e in log && !e.StageDue? && e.run == t;
      assert e in log + next.events;
    }
    if next.events != [] && !next.events[0].StageDue? { assert next.events[0] in log + next.events; }
  }

  lemma {:induction false} BillsOfEvents(next: Next, tag: RunTag, id: RunId)
    requires Fits(next.events, next.row.status, tag)
    ensures Bills(next.events, id) == if next.row.status == Completed && tag.id == id then 1 else 0
  {
    if next.events != [] {
      var rest := next.events[1..];
      assert rest == [] || (rest[0].StageDue? && rest[1..] == []);
      assert Bills(rest, id) == 0;
    }
  }

  lemma {:induction false} LawfulBilled(h: History, next: Next, id: RunId)
    requires Billed(h) && Unused(h, id)
    requires Lawful(h.row, next, Tag(h.row.flow, id))
    ensures Billed(History(next.row, h.log + next.events))
  {
    var tag := Tag(h.row.flow, id);
    if next == Quiet(h.row) {
      assert h.log + [] == h.log;
    } else {
      TagsOfEvents(h.log, next, tag);
      UnnamedIsUnbilled(h.log, id);
      forall i ensures Bills(h.log + next.events, i) == Bills(h.log, i) + if next.row.status == Completed && tag.id == i then 1 else 0 {
        BillsConcat(h.log, next.events, i);
        BillsOfEvents(next, tag, i);
      }
    }
  }

  /** Events that name no run leave the identities of the log as they are. */
  lemma {:induction false} UnnamedEvents(log: seq<Event>, events: seq<Event>)
    requires forall e :: e in events ==> e.StageDue?
    ensures Tags(log + events) == Tags(log) && forall id :: Bills(log + events, id) == Bills(log, id)
  {
    forall t | t in Tags(log) ensures t in Tags(log + events) {
      var e :| e in log && !e.StageDue? && e.run == t;
      assert e in log + events;
    }
    forall id ensures Bills(log + events, id) == Bills(log, id) {
      BillsConcat(log, events, id);
      UnnamedIsUnbilled(events, id);
    }
  }

  /** An explicit transition names no run; only a reprocess and the first start change it. */
  predicate Unnamed(row: Row, next: Next, a: Action) {
    && (forall e :: e in next.events ==> e.StageDue?)
    && (next.row.flow.run.Some? ==> next.row.flow.marked)
    && (next.row.status == Completed ==> row.status == Completed)
    && (|| (next.row.flow.run == row.flow.run && (row.status == Completed ==> next.row.status == Completed))
        || (a.ReprocessAll? && next.row.status != Completed && next.row.flow.run == Some(RunTag(a.id, AttemptOf(row.flow) + 1)))
        || (a.Start? && next.row.status != Completed && row.flow.run == None && next.row.flow.run == Some(RunTag(a.id, 1))))
  }

  lemma {:induction false} ExplicitUnnamed(row: Row, cfg: Config, a: Action)
    requires Explicit(a) && (row.flow.run.Some? ==> row.flow.marked) && !HitsCompleted(row, a)
    ensures Unnamed(row, Step(row, cfg, a), a)
  {
  }

  lemma {:induction false} ExplicitBilled(h: History, next: Next, a: Action)
    requires Billed(h) && Unnamed(h.row, next, a)
    requires MintsRun(a) ==> Unused(h, MintOf(a))
    ensures Billed(History(next.row, h.log + next.events))
  {
    UnnamedEvents(h.log, next.events);
    if a.ReprocessAll? || a.Start? { UnnamedIsUnbilled(h.log, a.id); }
  }

  lemma {:induction false} StepBilled(h: History, cfg: Config, a: Action)
    requires Billed(h) && !HitsCompleted(h.row, a)
    requires MintsRun(a) ==> Unused(h, MintOf(a))
    ensures Billed(Extend(h, cfg, a))
  {
    if Explicit(a) {
      ExplicitUnnamed(h.row, cfg, a);
      ExplicitBilled(h, Step(h.row, cfg, a), a);
    } else if MintsRun(a) {
      StepLawful(h.row, cfg, a);
      LawfulBilled(h, Step(h.row, cfg, a), MintOf(a));
    }
  }

  lemma {:induction false} RunBilled(h: History, cfg: Config, tr: seq<Action>)
    requires Billed(h) && FreshIds(h, cfg, tr) && Spared(h, cfg, tr)
    ensures Billed(Run(h, cfg, tr))
    decreases |tr|
  {
    if tr != [] {
      StepBilled(h, cfg, tr[0]);
      RunBilled(Extend(h, cfg, tr[0]), cfg, tr[1..]);
    }
  }

  /** No run is announced as completed twice, and id and attempt of the public events determine
      each other. */
  ghost predicate BilledOnce(log: seq<Event>) {
    && (forall id :: Bills(log, id) <= 1)
    && (forall s, t :: s in Tags(log) && t in Tags(log) ==> (s.id == t.id <==> s.attempt == t.attempt))
  }

  /** However a recording is retried, paid for, redelivered or reprocessed, each run is billed at
      most once, as long as no upload finishes on it while it is completed. */
  lemma {:induction false} OneBillPerRun(row: Row, cfg: Config, tr: seq<Action>)
    requires !Terminal(row.status) && (row.flow.run.Some? ==> row.flow.marked)
    requires FreshIds(History(row, []), cfg, tr) && Spared(History(row, []), cfg, tr)
    ensures BilledOnce(Run(History(row, []), cfg, tr).log)
  {
    RunBilled(History(row, []), cfg, tr);
  }

  /** Retries, payments, redeliveries and task results stay in the run they continue. */
  lemma {:induction false} RunIsKept(row: Row, cfg: Config, a: Action)
    requires row.flow.run.Some? && row.flow.marked && !a.ReprocessAll?
    ensures Step(row, cfg, a).row.flow.run == row.flow.run
  {
    if !Explicit(a) { StepLawful(row, cfg, a); }
  }

  /** The attempt number counts the reprocesses, and nothing else. */
  lemma {:induction false} AttemptCountsReprocesses(h: History, cfg: Config, tr: seq<Action>)
    requires h.row.flow.run.Some? ==> h.row.flow.marked
    ensures AttemptOf(Run(h, cfg, tr).row.flow) == AttemptOf(h.row.flow) + Taken(h, cfg, tr, Finished, Reopened)
    decreases |tr|
  {
    if tr != [] {
      if !Explicit(tr[0]) { StepLawful(h.row, cfg, tr[0]); }
      AttemptCountsReprocesses(Extend(h, cfg, tr[0]), cfg, tr[1..]);
    }
  }

  /** A row gets the run it does not have under the id handed in, and a new one from a reprocess
      alone. */
  lemma {:induction false} MintsTheGivenId(row: Row, cfg: Config, a: Action)
    requires row.flow.run.Some? ==> row.flow.marked
    ensures var run := Step(row, cfg, a).row.flow.run;
            run != row.flow.run ==>
              run.Some? && MintsRun(a) && run.value.id == MintOf(a) && (row.flow.run == None || (a.ReprocessAll? && row.status == Completed))
  {
    if !Explicit(a) { StepLawful(row, cfg, a); }
  }

  // ----- the start

  /** A row whose pipeline block nothing wrote yet has nothing in it. */
  predicate Untouched(row: Row) {
    row.flow.marked || row.flow == BLANK_FLOW.(notes := row.flow.notes)
  }

  lemma {:induction false} DeliverUntouched(row: Row, cfg: Config, env: Env, k: int, outcome: Outcome, id: RunId)
    requires Untouched(row)
    ensures Untouched(RunStage(row, cfg, env, k, outcome, id).row)
  {
    if Decide(row, env, k, id).Invoke? { InvokeFacts(row, env, k, id); }
  }

  lemma {:induction false} StepUntouched(row: Row, cfg: Config, a: Action)
    requires Untouched(row)
    ensures Untouched(Step(row, cfg, a).row)
  {
    if a.Deliver? { DeliverUntouched(row, cfg, a.env, a.k, a.outcome, a.id); }
  }

  lemma {:induction false} RunUntouched(h: History, cfg: Config, tr: seq<Action>)
    requires Untouched(h.row)
    ensures Untouched(Run(h, cfg, tr).row)
    decreases |tr|
  {
    if tr != [] {
      StepUntouched(h.row, cfg, tr[0]);
      RunUntouched(Extend(h, cfg, tr[0]), cfg, tr[1..]);
    }
  }

  /** Whenever in the life of a row it is started, that marks it, mints its first run, announces
      the first stage, and changes nothing else. */
  lemma {:induction false} StartMarksAndMints(cfg: Config, tr: seq<Action>, id: RunId)
    ensures var row := Run(History(NEW_ROW, []), cfg, tr).row;
            var next := Step(row, cfg, Start(id));
            next == Quiet(row)
            || next == Next(row.(flow := row.flow.(marked := true, run := Some(RunTag(id, 1))), writes := row.writes + 1), [StageDue(0)])
  {
    RunUntouched(History(NEW_ROW, []), cfg, tr);
  }
}
