/** Which input an answer was computed from. The log kept here is read off a run as it happens:
    the fingerprint the world showed when a handler was called, filed under the task it submitted
    or the stage it completed. Of the row it uses which handler is called, and which task is
    awaited for which stage, but no recorded fingerprint; those are proved to agree with it. */
module Provenance {
  import opened Results
  import opened Recordings
  import opened Checkpoints
  import opened Pipeline
  import opened Completion

  datatype Source = Source(submitted: map<TaskId, Option<Print>>, artifact: map<Name, Option<Print>>)

  /** A handler was called while its input read `seen`. */
  function Handled(p: Source, name: Name, seen: Option<Print>, outcome: Outcome): Source {
    match outcome
    case Done(_) => p.(artifact := p.artifact[name := seen])
    case Submitted(task) => p.(submitted := p.submitted[task := seen])
    case _ => p
  }

  /** A task's answer was taken for the stage that awaits it. */
  function Answered(p: Source, w: Awaited): Source {
    if w.task in p.submitted then p.(artifact := p.artifact[w.stage := p.submitted[w.task]]) else p
  }

  function Trace(p: Source, row: Row, a: Action): Source {
    match a
    case Deliver(env, k, outcome, id) =>
      (match Decide(row, env, k, id)
       case Invoke(begun, name, _, _) => Handled(p, name, env.read(name, begun.flow.cursor.ctx), outcome)
       case _ => p)
    case TaskDone(env, task, outcome, _) =>
      if Expects(row, task) && env.registry(row.flow.awaiting.value.stage).Known? && outcome.Done?
      then Answered(p, row.flow.awaiting.value) else p
    case TaskFailed(env, task, absorbed, _) =>
      if Expects(row, task) && env.registry(row.flow.awaiting.value.stage).Known? && absorbed.Some?
      then Answered(p, row.flow.awaiting.value) else p
    case _ => p
  }

  function TraceAll(p: Source, h: History, cfg: Config, tr: seq<Action>): Source
    decreases |tr|
  {
    if tr == [] then p else TraceAll(Trace(p, h.row, tr[0]), Extend(h, cfg, tr[0]), cfg, tr[1..])
  }

  /** What a row records agrees with where its artifacts came from. */
  ghost predicate Traced(w: Workflow, p: Source) {
    && (w.awaiting.Some? ==> w.awaiting.value.task in p.submitted && p.submitted[w.awaiting.value.task] == w.awaiting.value.fp)
    && (forall n :: n in w.checks.prints <==> n in p.artifact && p.artifact[n].Some?)
    && (forall n :: n in w.checks.prints ==> p.artifact[n] == Some(w.checks.prints[n]))
    && (!w.marked ==> w.checks.prints == map[])
  }

  /** The log of a row whose history is not known: it is what the row itself records. */
  function Origin(w: Workflow): Source {
    Source(if w.awaiting.Some? then map[w.awaiting.value.task := w.awaiting.value.fp] else map[],
           map n | n in w.checks.prints :: Some(w.checks.prints[n]))
  }

  lemma {:induction false} SameRecords(w: Workflow, w': Workflow, p: Source)
    requires Traced(w, p) && w'.checks == w.checks && (w.marked ==> w'.marked)
    requires w'.awaiting == None || w'.awaiting == w.awaiting
    ensures Traced(w', p)
  {
  }

  lemma {:induction false} SucceedTraced(row: Row, p: Source, name: Name, index: int, fp: Option<Print>, ctx: Ctx, id: RunId)
    requires Traced(row.flow, p)
    ensures Traced(Succeed(row, name, index, fp, ctx, id).row.flow, p.(artifact := p.artifact[name := fp]))
  {
  }

  lemma {:induction false} ConcludeTraced(begun: Row, p: Source, cfg: Config, name: Name, index: int, fp: Option<Print>, outcome: Outcome, id: RunId)
    requires Traced(begun.flow, p)
    ensures Traced(Conclude(begun, cfg, name, index, fp, outcome, id).row.flow, Handled(p, name, fp, outcome))
  {
    match outcome
    case Done(ctx) => SucceedTraced(begun, p, name, index, fp, ctx, id);
    case Submitted(_) =>
    case _ => SameRecords(begun.flow, Conclude(begun, cfg, name, index, fp, outcome, id).row.flow, p);
  }

  lemma {:induction false} InvokedTraced(row: Row, p: Source, cfg: Config, env: Env, k: int, outcome: Outcome, id: RunId)
    requires Traced(row.flow, p) && Decide(row, env, k, id).Invoke?
    ensures var Invoke(begun, name, index, fp) := Decide(row, env, k, id);
            Traced(Conclude(begun, cfg, name, index, fp, outcome, id).row.flow, Handled(p, name, fp, outcome))
  {
    var Invoke(begun, name, index, fp) := Decide(row, env, k, id);
    InvokeFacts(row, env, k, id);
    SameRecords(row.flow, begun.flow, p);
    ConcludeTraced(begun, p, cfg, name, index, fp, outcome, id);
  }

  lemma {:induction false} NotInvokedKeepsRecords(row: Row, cfg: Config, env: Env, k: int, outcome: Outcome, id: RunId)
    requires !Decide(row, env, k, id).Invoke?
    ensures var next := RunStage(row, cfg, env, k, outcome, id).row.flow;
            next.checks == row.flow.checks && next.awaiting == row.flow.awaiting && (row.flow.marked ==> next.marked)
  {
  }

  lemma {:induction false} DeliverTraced(row: Row, p: Source, cfg: Config, env: Env, k: int, outcome: Outcome, id: RunId)
    requires Traced(row.flow, p)
    ensures Traced(RunStage(row, cfg, env, k, outcome, id).row.flow, Trace(p, row, Deliver(env, k, outcome, id)))
  {
    if Decide(row, env, k, id).Invoke? {
      InvokeFacts(row, env, k, id);
      InvokedTraced(row, p, cfg, env, k, outcome, id);
    } else {
      NotInvokedKeepsRecords(row, cfg, env, k, outcome, id);
      SameRecords(row.flow, RunStage(row, cfg, env, k, outcome, id).row.flow, p);
    }
  }

  lemma {:induction false} TaskTraced(row: Row, p: Source, cfg: Config, a: Action)
    requires Traced(row.flow, p) && (a.TaskDone? || a.TaskFailed?)
    ensures Traced(Step(row, cfg, a).row.flow, Trace(p, row, a))
  {
    if Expects(row, a.task) {
      var w, clear := row.flow.awaiting.value, ClearAwaiting(row);
      SameRecords(row.flow, clear.flow, p);
      if a.env.registry(w.stage).Unknown? {
        SameRecords(row.flow, Step(row, cfg, a).row.flow, p);
      } else if a.TaskDone? {
        var outcome := if a.outcome.Submitted? then Retryable("unexpected") else a.outcome;
        ConcludeTraced(if a.outcome.Fatal? then row else clear, p, cfg, w.stage, w.index, w.fp, outcome, a.id);
      } else if a.absorbed.Some? {
        SucceedTraced(clear, p, w.stage, w.index, w.fp, a.absorbed.value, a.id);
      }
    }
  }

  lemma {:induction false} StepTraced(row: Row, p: Source, cfg: Config, a: Action)
    requires Traced(row.flow, p)
    ensures Traced(Step(row, cfg, a).row.flow, Trace(p, row, a))
  {
    match a
    case Deliver(env, k, outcome, id) => DeliverTraced(row, p, cfg, env, k, outcome, id);
    case TaskDone(_, _, _, _) => TaskTraced(row, p, cfg, a);
    case TaskFailed(_, _, _, _) => TaskTraced(row, p, cfg, a);
    case _ =>
  }

  lemma {:induction false} RunTraced(h: History, p: Source, cfg: Config, tr: seq<Action>)
    requires Traced(h.row.flow, p)
    ensures Traced(Run(h, cfg, tr).row.flow, TraceAll(p, h, cfg, tr))
    decreases |tr|
  {
    if tr != [] {
      StepTraced(h.row, p, cfg, tr[0]);
      RunTraced(Extend(h, cfg, tr[0]), Trace(p, h.row, tr[0]), cfg, tr[1..]);
    }
  }

  /** An answer to an old input is never finalised as the answer to a new one: at the step that
      completes a recording, every listed stage whose input reads as a known fingerprint has
      its artifact from that very input, or from one that declared no fingerprint. */
  lemma {:induction false} FinalisedAnswersMatchInputs(row: Row, cfg: Config, tr: seq<Action>, last: Action)
    requires !row.flow.marked ==> row.flow.checks.prints == map[]
    requires var h := Run(History(row, []), cfg, tr);
             h.row.status != Completed && Step(h.row, cfg, last).row.status == Completed
    ensures last.Deliver? && last.env.pipeline.Names?
    ensures var h := Run(History(row, []), cfg, tr);
            var from := TraceAll(Origin(row.flow), History(row, []), cfg, tr).artifact;
            forall n :: n in last.env.pipeline.names && n in from ==>
              var now := last.env.read(n, h.row.flow.cursor.ctx);
              from[n] == None || now == None || from[n] == now
  {
    var h := Run(History(row, []), cfg, tr);
    CompletedMeansSettled(h.row, cfg, last);
    RunTraced(History(row, []), Origin(row.flow), cfg, tr);
  }

  /** The answer to a task is filed under the input it was submitted for; while that stage's
      input reads differently, no delivery completes the recording. */
  lemma {:induction false} LateAnswerToAnOldInput(row: Row, cfg: Config, env: Env, task: TaskId, ctx: Ctx, id: RunId,
                               later: Env, k: int, outcome: Outcome, id': RunId)
    requires Expects(row, task) && env.registry(row.flow.awaiting.value.stage).Known?
    requires later.pipeline.Names? && row.flow.awaiting.value.stage in later.pipeline.names
    requires var now := later.read(row.flow.awaiting.value.stage, ctx);
             row.flow.awaiting.value.fp.Some? && now.Some? && now != row.flow.awaiting.value.fp
    ensures var next := ResumeStage(row, cfg, env, task, Done(ctx), id).row;
            && Stale(next.flow.checks, row.flow.awaiting.value.stage, later.read(row.flow.awaiting.value.stage, ctx))
            && RunStage(next, cfg, later, k, outcome, id').row.status != Completed
  {
    var next := ResumeStage(row, cfg, env, task, Done(ctx), id).row;
    RenewedIsFresh(row.flow.checks, row.flow.awaiting.value.stage, row.flow.awaiting.value.fp);
    DeliveryCompletesIff(next, cfg, later, k, outcome, id');
  }

  /** A stage that has to recompute takes every later stage with it: none of them is completed
      when its handler starts, the cursor stands just before it, the context is gone, and the
      fingerprints of the artifacts still in storage are all kept. */
  lemma {:induction false} RecomputeDropsTheTail(row: Row, env: Env, k: int, id: RunId)
    requires Decide(row, env, k, id).Invoke?
    requires Decide(row, env, k, id).name in row.flow.cursor.completed
    ensures var Invoke(begun, name, index, _) := Decide(row, env, k, id);
            var tail := env.pipeline.names[index..];
            && (forall n :: n in begun.flow.cursor.completed <==> n in row.flow.cursor.completed && n !in tail)
            && name in tail && begun.flow.cursor.last == index - 1 && begun.flow.cursor.ctx == NoCtx
            && begun.flow.checks == row.flow.checks
  {
    InvokeFacts(row, env, k, id);
  }
}
