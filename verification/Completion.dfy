/** What `completed` guarantees: every listed stage has run, none of them on an input that has
    moved or under a declaration that its result is stale. */
module Completion {
  import opened Results
  import opened Recordings
  import opened Checkpoints
  import opened Pipeline

  predicate AllSettled(row: Row, env: Env) {
    && env.pipeline.Names? && env.pipeline.names != []
    && forall n :: n in env.pipeline.names ==> Settled(row.flow, env, n)
  }

  lemma {:induction false} UnsettledStageExists(w: Workflow, env: Env, p: seq<Name>)
    ensures FirstUnsettled(w, env, p) == |p| <==> forall n :: n in p ==> Settled(w, env, n)
  {
    var i := FirstUnsettled(w, env, p);
    if i < |p| { assert p[i] in p; }
  }

  lemma {:induction false} ConcludeNeverCompletes(begun: Row, cfg: Config, name: Name, index: int, fp: Option<Print>, outcome: Outcome, id: RunId)
    requires begun.status != Completed
    ensures Conclude(begun, cfg, name, index, fp, outcome, id).row.status != Completed
  {
  }

  /** A delivery completes a recording if and only if the recording is live, every stage of the
      pipeline resolved right now is settled, and the event is not a duplicate. */
  lemma {:induction false} DeliveryCompletesIff(row: Row, cfg: Config, env: Env, k: int, outcome: Outcome, id: RunId)
    requires row.status != Completed
    ensures RunStage(row, cfg, env, k, outcome, id).row.status == Completed
        <==> !Terminal(row.status) && AllSettled(row, env) && k > row.flow.cursor.last
  {
    if env.pipeline.Names? { UnsettledStageExists(row.flow, env, env.pipeline.names); }
    match Decide(row, env, k, id)
    case Invoke(begun, name, index, fp) =>
      InvokeFacts(row, env, k, id);
      ConcludeNeverCompletes(begun, cfg, name, index, fp, outcome, id);
    case _ =>
  }

  /** No other transition completes a recording, and completing it leaves its cursor and its
      checkpoints exactly as they were found settled. */
  lemma {:induction false} CompletedMeansSettled(row: Row, cfg: Config, a: Action)
    requires row.status != Completed && Step(row, cfg, a).row.status == Completed
    ensures a.Deliver? && AllSettled(row, a.env) && a.k > row.flow.cursor.last
    ensures Step(row, cfg, a).row.flow == EnsureRun(row.flow, a.id)
  {
    match a
    case Deliver(env, k, outcome, id) =>
      DeliveryCompletesIff(row, cfg, env, k, outcome, id);
      UnsettledStageExists(row.flow, env, env.pipeline.names);
    case TaskDone(env, task, outcome, id) =>
      if Expects(row, task) {
        var w := row.flow.awaiting.value;
        ConcludeNeverCompletes(if outcome.Fatal? then row else ClearAwaiting(row), cfg, w.stage, w.index, w.fp,
                               if outcome.Submitted? then Retryable("unexpected") else outcome, id);
      }
    case _ =>
  }

  // ----- declarations

  /** The stages whose completion has been published. */
  function Ran(log: seq<Event>): set<Name> {
    set e | e in log && e.StageCompleted? :: e.name
  }

  lemma {:induction false} RanConcat(log: seq<Event>, more: seq<Event>)
    ensures Ran(log + more) == Ran(log) + Ran(more)
  {
    forall n | n in Ran(log) + Ran(more) ensures n in Ran(log + more) {
      var e :| (e in log || e in more) && e.StageCompleted? && e.name == n;
      assert e in log + more;
    }
  }

  /** The declaration still stands, or what it asked for has happened. */
  predicate Honoured(row: Row, events: seq<Event>, n: Name) {
    (n in row.flow.checks.invalidated && row.flow.marked) || n in Ran(events)
  }

  lemma {:induction false} SucceedHonours(row: Row, name: Name, index: int, fp: Option<Print>, ctx: Ctx, id: RunId, n: Name)
    requires n in row.flow.checks.invalidated
    ensures var next := Succeed(row, name, index, fp, ctx, id); Honoured(next.row, next.events, n)
  {
    var next := Succeed(row, name, index, fp, ctx, id);
    assert next.events[0] in next.events;
  }

  lemma {:induction false} ConcludeHonours(begun: Row, cfg: Config, name: Name, index: int, fp: Option<Print>, outcome: Outcome, id: RunId, n: Name)
    requires n in begun.flow.checks.invalidated && begun.flow.marked
    ensures var next := Conclude(begun, cfg, name, index, fp, outcome, id); Honoured(next.row, next.events, n)
  {
    if outcome.Done? { SucceedHonours(begun, name, index, fp, outcome.ctx, id, n); }
  }

  lemma {:induction false} DeliverHonours(row: Row, cfg: Config, env: Env, k: int, outcome: Outcome, id: RunId, n: Name)
    requires n in row.flow.checks.invalidated && row.flow.marked
    ensures var next := RunStage(row, cfg, env, k, outcome, id); Honoured(next.row, next.events, n)
  {
    match Decide(row, env, k, id)
    case Invoke(begun, name, index, fp) =>
      InvokeFacts(row, env, k, id);
      ConcludeHonours(begun, cfg, name, index, fp, outcome, id, n);
    case _ =>
  }

  lemma {:induction false} StepHonours(row: Row, cfg: Config, a: Action, n: Name)
    requires n in row.flow.checks.invalidated && row.flow.marked
    ensures var next := Step(row, cfg, a); Honoured(next.row, next.events, n)
  {
    match a
    case Deliver(env, k, outcome, id) =>
      DeliverHonours(row, cfg, env, k, outcome, id, n);
    case TaskDone(env, task, outcome, id) =>
      if Expects(row, task) {
        var w := row.flow.awaiting.value;
        ConcludeHonours(if outcome.Fatal? then row else ClearAwaiting(row), cfg, w.stage, w.index, w.fp,
                        if outcome.Submitted? then Retryable("unexpected") else outcome, id, n);
      }
    case TaskFailed(env, task, absorbed, id) =>
      if Expects(row, task) && absorbed.Some? {
        var w := row.flow.awaiting.value;
        SucceedHonours(ClearAwaiting(row), w.stage, w.index, w.fp, absorbed.value, id, n);
      }
    case Invalidate(env, from) =>
      assert Stale(row.flow.checks, n, None);
    case _ =>
  }

  lemma {:induction false} RunHonours(h: History, cfg: Config, tr: seq<Action>, n: Name)
    requires Honoured(h.row, h.log, n)
    ensures Honoured(Run(h, cfg, tr).row, Run(h, cfg, tr).log, n)
    decreases |tr|
  {
    if tr != [] {
      RanConcat(h.log, Step(h.row, cfg, tr[0]).events);
      if n !in Ran(h.log) { StepHonours(h.row, cfg, tr[0], n); }
      RunHonours(Extend(h, cfg, tr[0]), cfg, tr[1..], n);
    }
  }

  /** A declaration makes stale exactly the stage and what the pipeline lists after it; where the
      pipeline does not list the stage, or there is no pipeline, the stage alone. */
  lemma {:induction false} InvalidationReaches(row: Row, env: Env, stage: Name, n: Name, now: Option<Print>)
    ensures Stale(InvalidateFrom(row, env, stage).row.flow.checks, n, now)
        <==> Stale(row.flow.checks, n, now) || ListedFrom(env, stage, n)
  {
    assert n in Doomed(env, stage) <==> ListedFrom(env, stage, n);
  }

  /** After a stage is declared stale, whatever happens next, the recording enters `completed`
      only once that stage and every listed stage after it has completed again. */
  lemma {:induction false} InvalidatedRunsAgain(row: Row, cfg: Config, env: Env, stage: Name, tr: seq<Action>, last: Action)
    requires var h := Run(History(InvalidateFrom(row, env, stage).row, []), cfg, tr);
             h.row.status != Completed && Step(h.row, cfg, last).row.status == Completed
    ensures last.Deliver? && last.env.pipeline.Names?
    ensures forall n :: ListedFrom(env, stage, n) && n in last.env.pipeline.names
              ==> n in Ran(Run(History(InvalidateFrom(row, env, stage).row, []), cfg, tr).log)
  {
    var start := History(InvalidateFrom(row, env, stage).row, []);
    var h := Run(start, cfg, tr);
    CompletedMeansSettled(h.row, cfg, last);
    forall n | ListedFrom(env, stage, n) && n in last.env.pipeline.names ensures n in Ran(h.log) {
      InvalidationReaches(row, env, stage, n, None);
      RunHonours(start, cfg, tr, n);
      assert Settled(h.row.flow, last.env, n);
    }
  }
}
