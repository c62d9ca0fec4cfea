/** What has to run again before a recording is completed: stages that were dropped, stages whose
    input moved while they were waiting for an answer, and stages declared stale. */
module Reruns {
  import opened Results
  import opened Recordings
  import opened Checkpoints
  import opened Pipeline
  import opened Completion
  import opened Progress

  // ----- stages that are not completed

  /** The stage is not completed, or has completed since the log began. */
  predicate Owed(row: Row, events: seq<Event>, n: Name) {
    n !in row.flow.cursor.completed || n in Ran(events)
  }

  lemma {:induction false} SucceedOwes(row: Row, name: Name, index: int, fp: Option<Print>, ctx: Ctx, id: RunId, n: Name)
    requires n !in row.flow.cursor.completed
    ensures var next := Succeed(row, name, index, fp, ctx, id); Owed(next.row, next.events, n)
  {
    var next := Succeed(row, name, index, fp, ctx, id);
    assert next.events[0] in next.events;
  }

  lemma {:induction false} ConcludeOwes(begun: Row, cfg: Config, name: Name, index: int, fp: Option<Print>, outcome: Outcome, id: RunId, n: Name)
    requires n !in begun.flow.cursor.completed
    ensures var next := Conclude(begun, cfg, name, index, fp, outcome, id); Owed(next.row, next.events, n)
  {
    if outcome.Done? { SucceedOwes(begun, name, index, fp, outcome.ctx, id, n); }
  }

  lemma {:induction false} DeliverOwes(row: Row, cfg: Config, env: Env, k: int, outcome: Outcome, id: RunId, n: Name)
    requires n !in row.flow.cursor.completed
    ensures var next := RunStage(row, cfg, env, k, outcome, id); Owed(next.row, next.events, n)
  {
    match Decide(row, env, k, id)
    case Invoke(begun, name, index, fp) =>
      InvokeFacts(row, env, k, id);
      ConcludeOwes(begun, cfg, name, index, fp, outcome, id, n);
    case _ =>
  }

  lemma {:induction false} TaskOwes(row: Row, cfg: Config, a: Action, n: Name)
    requires n !in row.flow.cursor.completed && (a.TaskDone? || a.TaskFailed?)
    ensures var next := Step(row, cfg, a); Owed(next.row, next.events, n)
  {
    if Expects(row, a.task) {
      var w, clear := row.flow.awaiting.value, ClearAwaiting(row);
      if a.TaskDone? {
        ConcludeOwes(if a.outcome.Fatal? then row else clear, cfg, w.stage, w.index, w.fp,
                     if a.outcome.Submitted? then Retryable("unexpected") else a.outcome, a.id, n);
      } else if a.absorbed.Some? {
        SucceedOwes(clear, w.stage, w.index, w.fp, a.absorbed.value, a.id, n);
      }
    }
  }

  lemma {:induction false} StepOwes(row: Row, cfg: Config, a: Action, n: Name)
    requires n !in row.flow.cursor.completed
    ensures var next := Step(row, cfg, a); Owed(next.row, next.events, n)
  {
    match a
    case Deliver(env, k, outcome, id) => DeliverOwes(row, cfg, env, k, outcome, id, n);
    case TaskDone(_, _, _, _) => TaskOwes(row, cfg, a, n);
    case TaskFailed(_, _, _, _) => TaskOwes(row, cfg, a, n);
    case _ =>
  }

  lemma {:induction false} RunOwes(h: History, cfg: Config, tr: seq<Action>, n: Name)
    requires Owed(h.row, h.log, n)
    ensures Owed(Run(h, cfg, tr).row, Run(h, cfg, tr).log, n)
    decreases |tr|
  {
    if tr != [] {
      RanConcat(h.log, Step(h.row, cfg, tr[0]).events);
      if n !in h.row.flow.cursor.completed { StepOwes(h.row, cfg, tr[0], n); }
      RunOwes(Extend(h, cfg, tr[0]), cfg, tr[1..], n);
    }
  }

  /** The step takes the row into `completed`. */
  predicate Completes(row: Row, cfg: Config, a: Action) {
    row.status != Completed && Step(row, cfg, a).row.status == Completed
  }

  /** What is not completed runs before the recording is: a stage listed at the completion that was
      not completed at some point, dropped, reprocessed or never run, has completed since. */
  lemma {:induction false} UncompletedRunsFirst(row: Row, cfg: Config, tr: seq<Action>, last: Action, n: Name)
    requires n !in row.flow.cursor.completed && Completes(Run(History(row, []), cfg, tr).row, cfg, last)
    ensures last.Deliver? && last.env.pipeline.Names?
    ensures n in last.env.pipeline.names ==> n in Ran(Run(History(row, []), cfg, tr).log)
  {
    CompletedMeansSettled(Run(History(row, []), cfg, tr).row, cfg, last);
    RunOwes(History(row, []), cfg, tr, n);
    if n in last.env.pipeline.names { assert Settled(Run(History(row, []), cfg, tr).row.flow, last.env, n); }
  }

  /** The delivery calls a completed stage anew, and `n` is listed there or later. */
  predicate Drops(row: Row, a: Action, n: Name) {
    && a.Deliver? && a.env.pipeline.Names?
    && match Decide(row, a.env, a.k, a.id)
       case Invoke(_, name, index, _) =>
         name in row.flow.cursor.completed && index < |a.env.pipeline.names| && n in a.env.pipeline.names[index..]
       case _ => false
  }

  lemma {:induction false} DropOwes(row: Row, cfg: Config, drop: Action, n: Name)
    requires Drops(row, drop, n)
    ensures Owed(Step(row, cfg, drop).row, Step(row, cfg, drop).events, n)
  {
    var Invoke(begun, name, index, fp) := Decide(row, drop.env, drop.k, drop.id);
    InvokeFacts(row, drop.env, drop.k, drop.id);
    ConcludeOwes(begun, cfg, name, index, fp, drop.outcome, drop.id, n);
  }

  /** After a stage had to recompute, whatever happens next, the recording is completed only once
      that stage and every listed stage after it has completed again. */
  lemma {:induction false} DroppedRunsAgain(row: Row, cfg: Config, drop: Action, tr: seq<Action>, last: Action, n: Name)
    requires Drops(row, drop, n) && Completes(Run(Extend(History(row, []), cfg, drop), cfg, tr).row, cfg, last)
    ensures last.Deliver? && last.env.pipeline.Names?
    ensures n in last.env.pipeline.names ==> n in Ran(Run(Extend(History(row, []), cfg, drop), cfg, tr).log)
  {
    var h := Extend(History(row, []), cfg, drop);
    DropOwes(row, cfg, drop, n);
    assert h.log == Step(row, cfg, drop).events;
    RunOwes(h, cfg, tr, n);
    CompletedMeansSettled(Run(h, cfg, tr).row, cfg, last);
    if n in last.env.pipeline.names { assert Settled(Run(h, cfg, tr).row.flow, last.env, n); }
  }

  // ----- an answer to an old input

  /** The stage's input reads as something known other than `fp`. */
  ghost predicate ReadsOther(env: Env, s: Name, fp: Print) {
    forall c: Ctx :: env.read(s, c).Some? && env.read(s, c).value != fp
  }

  /** A delivery that lists stage `s` lists `n` there or later, in a pipeline that has every stage
      once. (If it has not, `s` must read something else there.) */
  ghost predicate InTail(a: Action, s: Name, fp: Print, n: Name) {
    a.Deliver? && a.env.pipeline.Names? && s in a.env.pipeline.names ==>
      && n in a.env.pipeline.names[IndexOf(a.env.pipeline.names, s)..]
      && (Distinct(a.env.pipeline.names) || ReadsOther(a.env, s, fp))
  }

  /** The stage stands completed on the old input, and no task of it is under way. */
  predicate Outdated(w: Workflow, s: Name, fp: Print) {
    && w.marked && s in w.cursor.completed && s in w.checks.prints && w.checks.prints[s] == fp
    && (w.awaiting.Some? ==> w.awaiting.value.stage != s)
  }

  lemma {:induction false} ConcludeStaysOutdated(begun: Row, cfg: Config, name: Name, index: int, fp': Option<Print>, outcome: Outcome, id: RunId, s: Name, fp: Print)
    requires Outdated(begun.flow, s, fp) && name != s
    ensures Outdated(Conclude(begun, cfg, name, index, fp', outcome, id).row.flow, s, fp)
  {
  }

  /** What a recomputation at the first unsettled stage drops. */
  function Tail(w: Workflow, env: Env): seq<Name> {
    if env.pipeline.Names? then env.pipeline.names[FirstUnsettled(w, env, env.pipeline.names)..] else []
  }

  /** Whatever is dropped takes `n` with it, or leaves the outdated stage alone. */
  lemma {:induction false} DropTakesTail(w: Workflow, a: Action, s: Name, fp: Print, n: Name)
    requires Outdated(w, s, fp) && a.Deliver? && InTail(a, s, fp, n)
    ensures n in Tail(w, a.env) || s !in Tail(w, a.env)
  {
    if a.env.pipeline.Names? && s in a.env.pipeline.names {
      var p := a.env.pipeline.names;
      var i, j := FirstUnsettled(w, a.env, p), IndexOf(p, s);
      if i <= j {
        assert p[j..] == p[i..][j - i..];
      } else {
        assert Settled(w, a.env, p[j]);
        assert forall m :: 0 <= m < |p[i..]| ==> p[i..][m] == p[i + m];
      }
    }
  }

  lemma {:induction false} NotInvokedOutdated(row: Row, cfg: Config, a: Action, s: Name, fp: Print, n: Name)
    requires Outdated(row.flow, s, fp) && a.Deliver? && !Decide(row, a.env, a.k, a.id).Invoke?
    requires n in Tail(row.flow, a.env) || s !in Tail(row.flow, a.env)
    ensures var next := Step(row, cfg, a); Outdated(next.row.flow, s, fp) || n !in next.row.flow.cursor.completed
  {
  }

  lemma {:induction false} BegunOutdated(row: Row, a: Action, s: Name, fp: Print, n: Name)
    requires Outdated(row.flow, s, fp) && a.Deliver? && Decide(row, a.env, a.k, a.id).Invoke?
    requires n in Tail(row.flow, a.env) || s !in Tail(row.flow, a.env)
    ensures var Invoke(begun, name, _, _) := Decide(row, a.env, a.k, a.id);
            n !in begun.flow.cursor.completed || (Outdated(begun.flow, s, fp) && name != s)
  {
    InvokeFacts(row, a.env, a.k, a.id);
    var Invoke(begun, name, index, _) := Decide(row, a.env, a.k, a.id);
    assert Tail(row.flow, a.env)[0] == name;
  }

  lemma {:induction false} DeliverOutdated(row: Row, cfg: Config, a: Action, s: Name, fp: Print, n: Name)
    requires Outdated(row.flow, s, fp) && a.Deliver? && InTail(a, s, fp, n)
    ensures var next := Step(row, cfg, a); Outdated(next.row.flow, s, fp) || Owed(next.row, next.events, n)
  {
    DropTakesTail(row.flow, a, s, fp, n);
    match Decide(row, a.env, a.k, a.id)
    case Invoke(begun, name, index, seen) =>
      BegunOutdated(row, a, s, fp, n);
      if n !in begun.flow.cursor.completed {
        ConcludeOwes(begun, cfg, name, index, seen, a.outcome, a.id, n);
      } else {
        ConcludeStaysOutdated(begun, cfg, name, index, seen, a.outcome, a.id, s, fp);
      }
    case _ => NotInvokedOutdated(row, cfg, a, s, fp, n);
  }

  lemma {:induction false} TaskOutdated(row: Row, cfg: Config, a: Action, s: Name, fp: Print)
    requires Outdated(row.flow, s, fp) && (a.TaskDone? || a.TaskFailed?)
    ensures Outdated(Step(row, cfg, a).row.flow, s, fp)
  {
    if Expects(row, a.task) {
      var w, clear := row.flow.awaiting.value, ClearAwaiting(row);
      if a.TaskDone? {
        ConcludeStaysOutdated(if a.outcome.Fatal? then row else clear, cfg, w.stage, w.index, w.fp,
                              if a.outcome.Submitted? then Retryable("unexpected") else a.outcome, a.id, s, fp);
      }
    }
  }

  lemma {:induction false} StepOutdated(row: Row, cfg: Config, a: Action, s: Name, fp: Print, n: Name)
    requires Outdated(row.flow, s, fp) && InTail(a, s, fp, n)
    ensures var next := Step(row, cfg, a); Outdated(next.row.flow, s, fp) || Owed(next.row, next.events, n)
  {
    match a
    case Deliver(_, _, _, _) => DeliverOutdated(row, cfg, a, s, fp, n);
    case TaskDone(_, _, _, _) => TaskOutdated(row, cfg, a, s, fp);
    case TaskFailed(_, _, _, _) => TaskOutdated(row, cfg, a, s, fp);
    case _ =>
  }

  lemma {:induction false} RunOutdated(h: History, cfg: Config, tr: seq<Action>, s: Name, fp: Print, n: Name)
    requires Outdated(h.row.flow, s, fp) || Owed(h.row, h.log, n)
    requires forall a :: a in tr ==> InTail(a, s, fp, n)
    ensures Outdated(Run(h, cfg, tr).row.flow, s, fp) || Owed(Run(h, cfg, tr).row, Run(h, cfg, tr).log, n)
    decreases |tr|
  {
    if Owed(h.row, h.log, n) {
      RunOwes(h, cfg, tr, n);
    } else if tr != [] {
      assert tr[0] in tr;
      RanConcat(h.log, Step(h.row, cfg, tr[0]).events);
      StepOutdated(h.row, cfg, tr[0], s, fp, n);
      RunOutdated(Extend(h, cfg, tr[0]), cfg, tr[1..], s, fp, n);
    }
  }

  /** The action completes the awaited stage: its task is done, or the stage absorbs its failure. */
  predicate Answers(row: Row, a: Action) {
    && (a.TaskDone? || a.TaskFailed?) && Expects(row, a.task) && a.env.registry(row.flow.awaiting.value.stage).Known?
    && (if a.TaskDone? then a.outcome.Done? else a.absorbed.Some?)
  }

  lemma {:induction false} AnswerIsOutdated(row: Row, cfg: Config, answer: Action)
    requires Answers(row, answer) && row.flow.awaiting.value.fp.Some?
    ensures Outdated(Step(row, cfg, answer).row.flow, row.flow.awaiting.value.stage, row.flow.awaiting.value.fp.value)
  {
  }

  /** The completing delivery lists both stages and finds the input of `s` other than `fp`. */
  predicate FindsMoved(row: Row, last: Action, s: Name, fp: Print, n: Name) {
    && last.Deliver? && last.env.pipeline.Names? && s in last.env.pipeline.names && n in last.env.pipeline.names
    && last.env.read(s, row.flow.cursor.ctx).Some? && last.env.read(s, row.flow.cursor.ctx).value != fp
  }

  /** A task's answer comes back for an input that has moved by the time the recording would be
      completed. Whatever the input read in between, unknown or briefly the old one: that stage and
      every stage listed after it have completed again by then. */
  lemma {:induction false} LateAnswerRunsTheTailAgain(row: Row, cfg: Config, answer: Action, tr: seq<Action>, last: Action, n: Name)
    requires Answers(row, answer) && row.flow.awaiting.value.fp.Some?
    requires forall a :: a in tr ==> InTail(a, row.flow.awaiting.value.stage, row.flow.awaiting.value.fp.value, n)
    requires var end := Run(History(Step(row, cfg, answer).row, []), cfg, tr).row;
             Completes(end, cfg, last) && FindsMoved(end, last, row.flow.awaiting.value.stage, row.flow.awaiting.value.fp.value, n)
    ensures n in Ran(Run(History(Step(row, cfg, answer).row, []), cfg, tr).log)
  {
    var s, fp := row.flow.awaiting.value.stage, row.flow.awaiting.value.fp.value;
    var start := History(Step(row, cfg, answer).row, []);
    var h := Run(start, cfg, tr);
    AnswerIsOutdated(row, cfg, answer);
    RunOutdated(start, cfg, tr, s, fp, n);
    CompletedMeansSettled(h.row, cfg, last);
    assert Settled(h.row.flow, last.env, s) && Settled(h.row.flow, last.env, n);
  }

  // ----- handlers that must be called

  function Calls(row: Row, a: Action): set<Name> {
    if a.Deliver? && Decide(row, a.env, a.k, a.id).Invoke? then {Decide(row, a.env, a.k, a.id).name} else {}
  }

  /** The stages whose handlers a run called. */
  function Called(h: History, cfg: Config, tr: seq<Action>): set<Name>
    decreases |tr|
  {
    if tr == [] then {} else Calls(h.row, tr[0]) + Called(Extend(h, cfg, tr[0]), cfg, tr[1..])
  }

  predicate AwaitedFor(w: Workflow, n: Name) {
    w.awaiting.Some? && w.awaiting.value.stage == n
  }

  /** Declared stale or not completed, with no task of the stage under way. */
  predicate MustRun(w: Workflow, n: Name) {
    !AwaitedFor(w, n) && ((w.marked && n in w.checks.invalidated) || n !in w.cursor.completed)
  }

  lemma {:induction false} ConcludeMustRun(begun: Row, cfg: Config, name: Name, index: int, fp: Option<Print>, outcome: Outcome, id: RunId, n: Name)
    requires MustRun(begun.flow, n) && name != n
    ensures MustRun(Conclude(begun, cfg, name, index, fp, outcome, id).row.flow, n)
  {
  }

  lemma {:induction false} DeliverCalls(row: Row, cfg: Config, a: Action, n: Name)
    requires MustRun(row.flow, n) && a.Deliver?
    ensures MustRun(Step(row, cfg, a).row.flow, n) || n in Calls(row, a)
  {
    match Decide(row, a.env, a.k, a.id)
    case Invoke(begun, name, index, fp) =>
      InvokeFacts(row, a.env, a.k, a.id);
      if name != n { ConcludeMustRun(begun, cfg, name, index, fp, a.outcome, a.id, n); }
    case _ =>
  }

  lemma {:induction false} TaskMustRun(row: Row, cfg: Config, a: Action, n: Name)
    requires MustRun(row.flow, n) && (a.TaskDone? || a.TaskFailed?)
    ensures MustRun(Step(row, cfg, a).row.flow, n)
  {
    if Expects(row, a.task) && a.TaskDone? {
      var w := row.flow.awaiting.value;
      ConcludeMustRun(if a.outcome.Fatal? then row else ClearAwaiting(row), cfg, w.stage, w.index, w.fp,
                            if a.outcome.Submitted? then Retryable("unexpected") else a.outcome, a.id, n);
    }
  }

  lemma {:induction false} StepCalls(row: Row, cfg: Config, a: Action, n: Name)
    requires MustRun(row.flow, n)
    ensures MustRun(Step(row, cfg, a).row.flow, n) || n in Calls(row, a)
  {
    match a
    case Deliver(_, _, _, _) => DeliverCalls(row, cfg, a, n);
    case TaskDone(_, _, _, _) => TaskMustRun(row, cfg, a, n);
    case TaskFailed(_, _, _, _) => TaskMustRun(row, cfg, a, n);
    case Invalidate(env, from) => assert n in row.flow.checks.invalidated ==> Stale(row.flow.checks, n, None);
    case _ =>
  }

  lemma {:induction false} RunCalls(h: History, cfg: Config, tr: seq<Action>, n: Name)
    requires MustRun(h.row.flow, n)
    ensures MustRun(Run(h, cfg, tr).row.flow, n) || n in Called(h, cfg, tr)
    decreases |tr|
  {
    if tr != [] {
      StepCalls(h.row, cfg, tr[0], n);
      if n !in Calls(h.row, tr[0]) { RunCalls(Extend(h, cfg, tr[0]), cfg, tr[1..], n); }
    }
  }

  predicate Lists(a: Action, n: Name) {
    a.Deliver? && a.env.pipeline.Names? && n in a.env.pipeline.names
  }

  /** Every later completion that lists the stage comes after a call of its handler. */
  ghost predicate HandlerMustRun(start: History, cfg: Config, n: Name) {
    forall tr, last :: Completes(Run(start, cfg, tr).row, cfg, last) && Lists(last, n) ==> n in Called(start, cfg, tr)
  }

  /** A row that is not deleted is let in by one of the three. */
  const ANY_ENTRY := [Retry(true), Pay, ReprocessAll(0)]

  lemma {:induction false} AnyEntry(h: History, cfg: Config)
    requires h.row.status != Deleted
    ensures var next := Run(h, cfg, ANY_ENTRY).row;
            !Terminal(next.status) && next.flow.awaiting == h.row.flow.awaiting && Called(h, cfg, ANY_ENTRY) == {}
  {
    var tr := ANY_ENTRY;
    var h1 := Extend(h, cfg, tr[0]);
    var h2 := Extend(h1, cfg, tr[1]);
    var h3 := Extend(h2, cfg, tr[2]);
    assert tr[1..] == [tr[1], tr[2]] && tr[1..][1..] == [tr[2]] && [tr[2]][1..] == [];
    assert Run(h, cfg, tr) == Run(h1, cfg, tr[1..]) == Run(h2, cfg, [tr[2]]) == h3;
    assert Called(h2, cfg, [tr[2]]) == {} && Called(h1, cfg, tr[1..]) == {};
  }

  /** The answer to the task that was awaited. */
  function OldAnswer(w: Awaited): Action {
    TaskDone(Plain([w.stage]), w.task, Done(NoCtx), 0)
  }

  lemma {:induction false} OldAnswerSettles(row: Row, cfg: Config)
    requires row.flow.awaiting.Some? && !Terminal(row.status)
    ensures var w := row.flow.awaiting.value;
            var end := Step(row, cfg, OldAnswer(w)).row;
            !Terminal(end.status) && Settled(end.flow, Plain([w.stage]), w.stage)
  {
    RenewedIsFresh(row.flow.checks, row.flow.awaiting.value.stage, row.flow.awaiting.value.fp);
  }

  lemma {:induction false} CalledConcat(h: History, cfg: Config, tr: seq<Action>, more: seq<Action>)
    ensures Called(h, cfg, tr + more) == Called(h, cfg, tr) + Called(Run(h, cfg, tr), cfg, more)
    decreases |tr|
  {
    if tr == [] {
      assert tr + more == more;
    } else {
      assert (tr + more)[1..] == tr[1..] + more && (tr + more)[0] == tr[0];
      CalledConcat(Extend(h, cfg, tr[0]), cfg, tr[1..], more);
    }
  }

  /** Let in, and the old answer taken: the stage is settled without a call. */
  lemma {:induction false} SettledWithoutACall(h: History, cfg: Config)
    requires h.row.flow.awaiting.Some? && h.row.status != Deleted
    ensures var w := h.row.flow.awaiting.value;
            var tr := ANY_ENTRY + [OldAnswer(w)];
            var end := Run(h, cfg, tr).row;
            Called(h, cfg, tr) == {} && !Terminal(end.status) && Settled(end.flow, Plain([w.stage]), w.stage)
  {
    var w := h.row.flow.awaiting.value;
    var inside := Run(h, cfg, ANY_ENTRY);
    AnyEntry(h, cfg);
    OldAnswerSettles(inside.row, cfg);
    RunConcat(h, cfg, ANY_ENTRY, [OldAnswer(w)]);
    CalledConcat(h, cfg, ANY_ENTRY, [OldAnswer(w)]);
    assert [OldAnswer(w)][1..] == [];
    assert Called(Extend(inside, cfg, OldAnswer(w)), cfg, []) == {};
  }

  lemma {:induction false} SettledFinalises(row: Row, cfg: Config, name: Name)
    requires !Terminal(row.status) && Settled(row.flow, Plain([name]), name)
    ensures Completes(row, cfg, Deliver(Plain([name]), row.flow.cursor.last + 1, Done(NoCtx), 0))
  {
    DeliveryCompletesIff(row, cfg, Plain([name]), row.flow.cursor.last + 1, Done(NoCtx), 0);
  }

  lemma {:induction false} MustRunIsCalled(start: History, cfg: Config, n: Name)
    requires MustRun(start.row.flow, n)
    ensures HandlerMustRun(start, cfg, n)
  {
    forall tr, last | Completes(Run(start, cfg, tr).row, cfg, last) && Lists(last, n) ensures n in Called(start, cfg, tr) {
      RunCalls(start, cfg, tr, n);
      CompletedMeansSettled(Run(start, cfg, tr).row, cfg, last);
      assert Settled(Run(start, cfg, tr).row.flow, last.env, n);
    }
  }

  lemma {:induction false} AwaitedNeedNotBeCalled(start: History, cfg: Config, n: Name)
    requires AwaitedFor(start.row.flow, n) && start.row.status != Deleted
    ensures !HandlerMustRun(start, cfg, n)
  {
    var tr := ANY_ENTRY + [OldAnswer(start.row.flow.awaiting.value)];
    SettledWithoutACall(start, cfg);
    SettledFinalises(Run(start, cfg, tr).row, cfg, n);
    var last := Deliver(Plain([n]), Run(start, cfg, tr).row.flow.cursor.last + 1, Done(NoCtx), 0);
    assert Lists(last, n) && n !in Called(start, cfg, tr);
  }

  /** After a declaration, a stage it reaches is really called again before any completion that
      lists it, if and only if no task of that stage was awaited when it was declared stale: the
      answer to such a task takes the declaration back without a call. */
  lemma {:induction false} DeclaredHandlerRunsIff(row: Row, cfg: Config, env: Env, stage: Name, n: Name)
    requires ListedFrom(env, stage, n) && row.status != Deleted
    ensures HandlerMustRun(History(InvalidateFrom(row, env, stage).row, []), cfg, n) <==> !AwaitedFor(row.flow, n)
  {
    var start := History(InvalidateFrom(row, env, stage).row, []);
    if AwaitedFor(row.flow, n) {
      AwaitedNeedNotBeCalled(start, cfg, n);
    } else {
      InvalidationReaches(row, env, stage, n, None);
      MustRunIsCalled(start, cfg, n);
    }
  }

  /** A reprocess runs a stage again, with a call of its handler before any completion that lists
      it, if and only if the completed run had left no task of that stage awaited: the handle
      survives the reprocess, and its answer completes the stage of the new run. */
  lemma {:induction false} ReprocessedHandlerRunsIff(row: Row, cfg: Config, id: RunId, n: Name)
    requires row.status == Completed
    ensures HandlerMustRun(History(Reprocess(row, id).row, []), cfg, n) <==> !AwaitedFor(row.flow, n)
  {
    var start := History(Reprocess(row, id).row, []);
    if AwaitedFor(row.flow, n) {
      AwaitedNeedNotBeCalled(start, cfg, n);
    } else {
      MustRunIsCalled(start, cfg, n);
    }
  }
}
