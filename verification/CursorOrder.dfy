/** The cursor of a fixed pipeline: the completed names are a prefix of it, and the public
    `stage_completed` events come in its order. */
module CursorOrder {
  import opened Results
  import opened Recordings
  import opened Checkpoints
  import opened Pipeline
  import opened Progress

  /** The completed list is the pipeline's prefix up to the last completion, and an awaited
      task belongs to the position it was submitted from. */
  ghost predicate Ordered(row: Row, p: seq<Name>) {
    var c := row.flow.cursor;
    && -1 <= c.last < |p| && c.completed == p[..c.last + 1]
    && (!row.flow.marked ==> c == START_CURSOR)
    && (row.flow.awaiting.Some? ==>
          0 <= row.flow.awaiting.value.index < |p| && p[row.flow.awaiting.value.index] == row.flow.awaiting.value.stage)
  }

  predicate Resolved(a: Action, p: seq<Name>) {
    a.Deliver? ==> a.env.pipeline == Broken || a.env.pipeline == Names(p)
  }

  /** A task's result arrives for the first pending stage. */
  predicate InTurn(row: Row, a: Action) {
    (a.TaskDone? || a.TaskFailed?) && Expects(row, a.task) ==> row.flow.awaiting.value.index == row.flow.cursor.last + 1
  }

  /** Does the action un-complete stages, by a recomputation or a reprocess? */
  predicate Drops(row: Row, a: Action) {
    || (a.ReprocessAll? && row.status == Completed)
    || (a.Deliver? && !Terminal(row.status) && Resolves(a.env)
        && Frontier(row, a.env) < |a.env.pipeline.names|
        && a.env.pipeline.names[Frontier(row, a.env)] in row.flow.cursor.completed)
  }

  lemma {:induction false} PrefixWithoutTail(p: seq<Name>, i: nat, n: nat)
    requires Distinct(p) && i <= n <= |p|
    ensures Without(p[..n], p[i..]) == p[..i]
  {
    assert p[..n] == p[..i] + p[i..n];
    WithoutConcat(p[..i], p[i..n], p[i..]);
    forall m | m in p[..i] ensures m !in p[i..] {
      var j :| 0 <= j < i && p[j] == m;
      assert forall q :: 0 <= q < |p[i..]| ==> p[i..][q] == p[i + q];
    }
    WithoutNothing(p[..i], p[i..]);
    forall m | m in p[i..n] ensures m in p[i..] {
      var j :| 0 <= j < |p[i..n]| && p[i..n][j] == m;
      assert p[i..][j] == m;
    }
    WithoutEverything(p[i..n], p[i..]);
  }

  lemma {:induction false} InPrefixIff(p: seq<Name>, n: nat, i: nat)
    requires Distinct(p) && n <= |p| && i < |p|
    ensures p[i] in p[..n] <==> i < n
  {
    if i < n { assert p[..n][i] == p[i]; }
  }

  /** Where the first unsettled stage of an ordered row stands, and what dropping from it leaves. */
  lemma {:induction false} OrderedFrontier(row: Row, env: Env)
    requires Resolves(env) && Distinct(env.pipeline.names) && Ordered(row, env.pipeline.names)
    ensures var p, i, c := env.pipeline.names, Frontier(row, env), row.flow.cursor;
            && i <= c.last + 1
            && (i < |p| ==> (p[i] in c.completed <==> i <= c.last))
            && DropFrom(c, p, i) == Cursor(p[..i], i - 1, NoCtx)
  {
    var p, i, c := env.pipeline.names, Frontier(row, env), row.flow.cursor;
    assert c.last + 1 < |p| ==> !Settled(row.flow, env, p[c.last + 1]);
    if i < |p| { InPrefixIff(p, c.last + 1, i); }
    PrefixWithoutTail(p, i, c.last + 1);
  }

  /** A success at the position just past the last completion keeps the order. */
  lemma {:induction false} SucceedOrdered(row: Row, p: seq<Name>, name: Name, index: int, fp: Option<Print>, ctx: Ctx, id: RunId)
    requires Distinct(p) && Ordered(row, p)
    requires 0 <= index < |p| && name == p[index] && index == row.flow.cursor.last + 1
    ensures Ordered(Succeed(row, name, index, fp, ctx, id).row, p)
  {
    assert name !in row.flow.cursor.completed;
    assert p[..index + 1] == p[..index] + [name];
  }

  lemma {:induction false} ConcludeOrdered(begun: Row, p: seq<Name>, cfg: Config, name: Name, index: int, fp: Option<Print>, outcome: Outcome, id: RunId)
    requires Distinct(p) && Ordered(begun, p)
    requires 0 <= index < |p| && name == p[index] && index == begun.flow.cursor.last + 1
    ensures Ordered(Conclude(begun, cfg, name, index, fp, outcome, id).row, p)
  {
    if outcome.Done? { SucceedOrdered(begun, p, name, index, fp, outcome.ctx, id); }
  }

  /** A handler of an ordered row is called just past the last completion that still stands. */
  lemma {:induction false} InvokedInOrder(row: Row, env: Env, k: int, id: RunId)
    requires Resolves(env) && Distinct(env.pipeline.names) && Ordered(row, env.pipeline.names)
    requires Decide(row, env, k, id).Invoke?
    ensures var Invoke(begun, name, index, _) := Decide(row, env, k, id);
            && Ordered(begun, env.pipeline.names) && index == begun.flow.cursor.last + 1
            && name == env.pipeline.names[index]
            && (!Drops(row, Deliver(env, k, Done(NoCtx), id)) ==> index == row.flow.cursor.last + 1)
  {
    InvokeFacts(row, env, k, id);
    OrderedFrontier(row, env);
  }

  /** Without a handler call the cursor stays, or loses a stale tail to a stage nobody knows. */
  lemma {:induction false} NotInvokedCursor(row: Row, cfg: Config, env: Env, k: int, outcome: Outcome, id: RunId)
    requires Resolves(env) && !Decide(row, env, k, id).Invoke?
    ensures var flow := RunStage(row, cfg, env, k, outcome, id).row.flow;
            && flow.awaiting == row.flow.awaiting
            && (|| (flow.cursor == row.flow.cursor && (row.flow.marked ==> flow.marked))
                || (flow.marked && Frontier(row, env) < |env.pipeline.names|
                    && env.pipeline.names[Frontier(row, env)] in row.flow.cursor.completed
                    && flow.cursor == DropFrom(row.flow.cursor, env.pipeline.names, Frontier(row, env))))
  {
  }

  lemma {:induction false} NotInvokedOrdered(row: Row, cfg: Config, env: Env, k: int, outcome: Outcome, id: RunId)
    requires Resolves(env) && Distinct(env.pipeline.names) && Ordered(row, env.pipeline.names)
    requires !Decide(row, env, k, id).Invoke?
    ensures Ordered(RunStage(row, cfg, env, k, outcome, id).row, env.pipeline.names)
  {
    NotInvokedCursor(row, cfg, env, k, outcome, id);
    OrderedFrontier(row, env);
  }

  lemma {:induction false} DeliverOrdered(row: Row, p: seq<Name>, cfg: Config, env: Env, k: int, outcome: Outcome, id: RunId)
    requires Distinct(p) && Ordered(row, p) && p != [] && env.pipeline == Names(p)
    ensures Ordered(RunStage(row, cfg, env, k, outcome, id).row, p)
  {
    match Decide(row, env, k, id)
    case Invoke(begun, name, index, fp) =>
      InvokedInOrder(row, env, k, id);
      ConcludeOrdered(begun, p, cfg, name, index, fp, outcome, id);
    case _ =>
      NotInvokedOrdered(row, cfg, env, k, outcome, id);
  }

  lemma {:induction false} TaskOrdered(row: Row, p: seq<Name>, cfg: Config, a: Action)
    requires Distinct(p) && Ordered(row, p) && InTurn(row, a) && (a.TaskDone? || a.TaskFailed?)
    ensures Ordered(Step(row, cfg, a).row, p)
  {
    if Expects(row, a.task) {
      var w, clear := row.flow.awaiting.value, ClearAwaiting(row);
      if a.TaskDone? {
        ConcludeOrdered(if a.outcome.Fatal? then row else clear, p, cfg, w.stage, w.index, w.fp,
                        if a.outcome.Submitted? then Retryable("unexpected") else a.outcome, a.id);
      } else if a.absorbed.Some? {
        SucceedOrdered(clear, p, w.stage, w.index, w.fp, a.absorbed.value, a.id);
      }
    }
  }

  lemma {:induction false} StepOrdered(row: Row, p: seq<Name>, cfg: Config, a: Action)
    requires p != [] && Distinct(p) && Ordered(row, p) && Resolved(a, p) && InTurn(row, a)
    ensures Ordered(Step(row, cfg, a).row, p)
  {
    match a
    case Deliver(env, k, outcome, id) =>
      if env.pipeline.Names? { DeliverOrdered(row, p, cfg, env, k, outcome, id); }
    case TaskDone(_, _, _, _) => TaskOrdered(row, p, cfg, a);
    case TaskFailed(_, _, _, _) => TaskOrdered(row, p, cfg, a);
    case _ =>
  }

  /** Every step of a run resolves the pipeline `p`, and each result comes in turn. */
  predicate Steady(h: History, p: seq<Name>, cfg: Config, tr: seq<Action>)
    decreases |tr|
  {
    tr != [] ==> Resolved(tr[0], p) && InTurn(h.row, tr[0]) && Steady(Extend(h, cfg, tr[0]), p, cfg, tr[1..])
  }

  /** Through recomputations, parks, waits, failures and revivals, the completed list is exactly
      the pipeline's prefix up to `completed_index`. */
  lemma {:induction false} CursorIsAPrefix(h: History, p: seq<Name>, cfg: Config, tr: seq<Action>)
    requires p != [] && Distinct(p) && Ordered(h.row, p) && Steady(h, p, cfg, tr)
    ensures Ordered(Run(h, cfg, tr).row, p)
    decreases |tr|
  {
    if tr != [] {
      StepOrdered(h.row, p, cfg, tr[0]);
      CursorIsAPrefix(Extend(h, cfg, tr[0]), p, cfg, tr[1..]);
    }
  }

  // ----- the hypothesis on results

  /** A result keeps the order exactly when it is for the first pending stage or repeats the
      last completion; any other late result breaks it. */
  lemma {:induction false} ResultKeepsOrderIff(row: Row, p: seq<Name>, cfg: Config, env: Env, task: TaskId, ctx: Ctx, id: RunId)
    requires Distinct(p) && Ordered(row, p) && Expects(row, task)
    requires env.registry(row.flow.awaiting.value.stage).Known?
    ensures Ordered(ResumeStage(row, cfg, env, task, Done(ctx), id).row, p)
        <==> row.flow.cursor.last <= row.flow.awaiting.value.index <= row.flow.cursor.last + 1
  {
    var w, c := row.flow.awaiting.value, row.flow.cursor;
    var next := ResumeStage(row, cfg, env, task, Done(ctx), id).row.flow.cursor;
    if w.index == c.last + 1 {
      SucceedOrdered(ClearAwaiting(row), p, w.stage, w.index, w.fp, ctx, id);
    } else if w.index <= c.last {
      assert p[..c.last + 1][w.index] == w.stage;
      assert next.completed == c.completed;
    } else {
      assert |next.completed| <= |c.completed| + 1;
    }
  }

  /** The pipeline of the example below. */
  const TWO_STAGES := ["a", "b"]

  /** A live row of the example's run, waiting for task 1 of its first stage. */
  function Waiting(completed: seq<Name>, place: Place, last: int, writes: nat): Row {
    Row(Queued, 0, Workflow(true, Cursor(completed, last, NoCtx), Some(place), Some(Awaited(1, "a", 0, None)),
                            NO_CHECKS, Some(RunTag(9, 1)), 0, Notes(None, None, None, None)), writes)
  }

  lemma {:induction false} SubmitExample(cfg: Config)
    ensures Step(NEW_ROW.(status := Queued), cfg, Deliver(Plain(TWO_STAGES), 0, Submitted(1), 9)) == Quiet(Waiting([], Place("a", 0), -1, 2))
  {
  }

  lemma {:induction false} CompleteExample(cfg: Config, k: nat)
    requires k < 2
    ensures Step(if k == 0 then Waiting([], Place("a", 0), -1, 2) else Waiting(["a"], Place("a", 0), 0, 4), cfg,
                 Deliver(Plain(TWO_STAGES), k, Done(NoCtx), 9)).row
         == if k == 0 then Waiting(["a"], Place("a", 0), 0, 4) else Waiting(["a", "b"], Place("b", 1), 1, 6)
  {
    assert Renewed(NO_CHECKS, TWO_STAGES[k], None) == NO_CHECKS;
  }

  lemma {:induction false} LateExample(cfg: Config)
    ensures Step(Waiting(["a", "b"], Place("b", 1), 1, 6), cfg, TaskDone(Plain(TWO_STAGES), 1, Done(NoCtx), 9)).row.flow.cursor
         == Cursor(["a", "b"], 0, NoCtx)
  {
    var row := Waiting(["a", "b"], Place("b", 1), 1, 6);
    assert row.flow.cursor.completed[0] == "a";
  }

  /** A handle that outlives its stage: the stage is submitted, completes synchronously on a
      redelivery, and the late result of the task moves `completed_index` back. */
  lemma {:induction false} LateResultExample(cfg: Config)
    ensures var env := Plain(TWO_STAGES);
            var tr := [Deliver(env, 0, Submitted(1), 9), Deliver(env, 0, Done(NoCtx), 9),
                       Deliver(env, 1, Done(NoCtx), 9), TaskDone(env, 1, Done(NoCtx), 9)];
            var start := NEW_ROW.(status := Queued);
            Ordered(start, TWO_STAGES) && !Ordered(Run(History(start, []), cfg, tr).row, TWO_STAGES)
  {
    var env := Plain(TWO_STAGES);
    var late := [TaskDone(env, 1, Done(NoCtx), 9)];
    var second := [Deliver(env, 1, Done(NoCtx), 9)] + late;
    var first := [Deliver(env, 0, Done(NoCtx), 9)] + second;
    var tr := [Deliver(env, 0, Submitted(1), 9)] + first;
    SubmitExample(cfg);
    CompleteExample(cfg, 0);
    CompleteExample(cfg, 1);
    LateExample(cfg);
    var h0 := History(NEW_ROW.(status := Queued), []);
    var h1 := Extend(h0, cfg, tr[0]);
    var h2 := Extend(h1, cfg, first[0]);
    var h3 := Extend(h2, cfg, second[0]);
    assert tr[1..] == first && first[1..] == second && second[1..] == late && late[1..] == [];
    assert Run(h0, cfg, tr) == Run(h1, cfg, first) == Run(h2, cfg, second) == Run(h3, cfg, late) == Extend(h3, cfg, late[0]);
    assert tr == [Deliver(env, 0, Submitted(1), 9), Deliver(env, 0, Done(NoCtx), 9), Deliver(env, 1, Done(NoCtx), 9), late[0]];
  }

  // ----- the public events

  /** The completion an event announces, if it does. */
  function Announces(e: Event): seq<(Name, int)> {
    if e.StageCompleted? then [(e.name, e.at)] else []
  }

  /** The completions a log announces, in order, with their positions. */
  function Stages(log: seq<Event>): seq<(Name, int)> {
    if log == [] then []
    else Announces(log[0]) + Stages(log[1..])
  }

  lemma {:induction false} StagesCons(e: Event, log: seq<Event>)
    ensures Stages([e] + log) == Announces(e) + Stages(log)
  {
    assert ([e] + log)[1..] == log;
  }

  lemma {:induction false} Associate<T>(a: seq<T>, b: seq<T>, c: seq<T>)
    ensures (a + b) + c == a + (b + c)
  {
  }

  predicate StagesAdd(o: seq<Event>, more: seq<Event>) {
    Stages(o + more) == Stages(o) + Stages(more)
  }

  lemma {:induction false} OneMoreEvent(e: Event, o: seq<Event>, more: seq<Event>)
    requires StagesAdd(o, more)
    ensures StagesAdd([e] + o, more)
  {
    StagesCons(e, o);
    StagesCons(e, o + more);
    Associate([e], o, more);
    Associate(Announces(e), Stages(o), Stages(more));
  }

  lemma {:induction false} StagesConcat(o: seq<Event>, more: seq<Event>)
    ensures StagesAdd(o, more)
  {
    if o == [] {
      assert o + more == more;
    } else {
      StagesConcat(o[1..], more);
      OneMoreEvent(o[0], o[1..], more);
      assert [o[0]] + o[1..] == o;
    }
  }

  /** The stages `lo..hi` of the pipeline with their positions. */
  function Slots(p: seq<Name>, lo: int, hi: int): (r: seq<(Name, int)>)
    requires 0 <= lo <= hi <= |p|
    ensures |r| == hi - lo && forall i :: 0 <= i < hi - lo ==> r[i] == (p[lo + i], lo + i)
  {
    seq(hi - lo, i requires 0 <= i < hi - lo => (p[lo + i], lo + i))
  }

  /** What a transition announces is what its cursor moved over. */
  ghost predicate Announced(row: Row, next: Next, p: seq<Name>) {
    && row.flow.cursor.last <= next.row.flow.cursor.last < |p| && -1 <= row.flow.cursor.last
    && Stages(next.events) == Slots(p, row.flow.cursor.last + 1, next.row.flow.cursor.last + 1)
  }

  lemma {:induction false} ConcludeStages(begun: Row, p: seq<Name>, cfg: Config, name: Name, index: int, fp: Option<Print>, outcome: Outcome, id: RunId)
    requires -1 <= begun.flow.cursor.last && index == begun.flow.cursor.last + 1 < |p| && name == p[index]
    ensures Announced(begun, Conclude(begun, cfg, name, index, fp, outcome, id), p)
  {
    var events := Conclude(begun, cfg, name, index, fp, outcome, id).events;
    if outcome.Done? {
      assert events[1..][1..] == [];
      assert Stages(events[1..]) == [];
    } else if events != [] {
      assert events[1..] == [];
    }
  }

  lemma {:induction false} NotInvokedQuiet(row: Row, cfg: Config, env: Env, k: int, outcome: Outcome, id: RunId)
    requires !Decide(row, env, k, id).Invoke? && !Drops(row, Deliver(env, k, outcome, id))
    ensures var next := RunStage(row, cfg, env, k, outcome, id);
            && next.row.flow.cursor == row.flow.cursor
            && |next.events| <= 1 && (next.events != [] ==> !next.events[0].StageCompleted?)
  {
  }

  lemma {:induction false} QuietStages(row: Row, p: seq<Name>, next: Next)
    requires -1 <= row.flow.cursor.last < |p| && next.row.flow.cursor.last == row.flow.cursor.last
    requires |next.events| <= 1 && (next.events != [] ==> !next.events[0].StageCompleted?)
    ensures Announced(row, next, p)
  {
    if next.events != [] { assert next.events[1..] == []; }
  }

  lemma {:induction false} DeliverStages(row: Row, p: seq<Name>, cfg: Config, env: Env, k: int, outcome: Outcome, id: RunId)
    requires Distinct(p) && Ordered(row, p) && p != [] && env.pipeline == Names(p)
    requires !Drops(row, Deliver(env, k, outcome, id))
    ensures Announced(row, RunStage(row, cfg, env, k, outcome, id), p)
  {
    match Decide(row, env, k, id)
    case Invoke(begun, name, index, fp) =>
      InvokedInOrder(row, env, k, id);
      ConcludeStages(begun, p, cfg, name, index, fp, outcome, id);
    case _ =>
      NotInvokedQuiet(row, cfg, env, k, outcome, id);
      QuietStages(row, p, RunStage(row, cfg, env, k, outcome, id));
  }

  lemma {:induction false} TaskStages(row: Row, p: seq<Name>, cfg: Config, a: Action)
    requires Distinct(p) && Ordered(row, p) && InTurn(row, a) && (a.TaskDone? || a.TaskFailed?)
    ensures Announced(row, Step(row, cfg, a), p)
  {
    if Expects(row, a.task) && a.env.registry(row.flow.awaiting.value.stage).Known? && (a.TaskDone? || a.absorbed.Some?) {
      var w := row.flow.awaiting.value;
      if a.TaskDone? {
        ConcludeStages(if a.outcome.Fatal? then row else ClearAwaiting(row), p, cfg, w.stage, w.index, w.fp,
                       if a.outcome.Submitted? then Retryable("unexpected") else a.outcome, a.id);
      } else {
        ConcludeStages(ClearAwaiting(row), p, cfg, w.stage, w.index, w.fp, Done(a.absorbed.value), a.id);
      }
    } else {
      QuietStages(row, p, Step(row, cfg, a));
    }
  }

  lemma {:induction false} StepStages(row: Row, p: seq<Name>, cfg: Config, a: Action)
    requires p != [] && Distinct(p) && Ordered(row, p) && Resolved(a, p) && InTurn(row, a) && !Drops(row, a)
    ensures Announced(row, Step(row, cfg, a), p)
  {
    match a
    case Deliver(env, k, outcome, id) =>
      if env.pipeline.Names? { DeliverStages(row, p, cfg, env, k, outcome, id); }
      else { QuietStages(row, p, Step(row, cfg, a)); }
    case TaskDone(_, _, _, _) => TaskStages(row, p, cfg, a);
    case TaskFailed(_, _, _, _) => TaskStages(row, p, cfg, a);
    case _ => QuietStages(row, p, Step(row, cfg, a));
  }

  lemma {:induction false} SlotsConcat(p: seq<Name>, lo: int, mid: int, hi: int)
    requires 0 <= lo <= mid <= hi <= |p|
    ensures Slots(p, lo, mid) + Slots(p, mid, hi) == Slots(p, lo, hi)
  {
  }

  predicate NothingDropped(h: History, cfg: Config, tr: seq<Action>)
    decreases |tr|
  {
    tr != [] ==> !Drops(h.row, tr[0]) && NothingDropped(Extend(h, cfg, tr[0]), cfg, tr[1..])
  }

  /** The log since `lo` announces exactly what the cursor moved over. */
  ghost predicate InOrder(from: History, to: History, p: seq<Name>) {
    && -1 <= from.row.flow.cursor.last <= to.row.flow.cursor.last < |p|
    && Stages(to.log) == Stages(from.log) + Slots(p, from.row.flow.cursor.last + 1, to.row.flow.cursor.last + 1)
  }

  lemma {:induction false} InOrderTransitive(a: History, b: History, c: History, p: seq<Name>)
    requires InOrder(a, b, p) && InOrder(b, c, p)
    ensures InOrder(a, c, p)
  {
    SlotsConcat(p, a.row.flow.cursor.last + 1, b.row.flow.cursor.last + 1, c.row.flow.cursor.last + 1);
  }

  lemma {:induction false} StepInOrder(h: History, p: seq<Name>, cfg: Config, a: Action)
    requires p != [] && Distinct(p) && Ordered(h.row, p) && Resolved(a, p) && InTurn(h.row, a) && !Drops(h.row, a)
    ensures InOrder(h, Extend(h, cfg, a), p)
  {
    StepStages(h.row, p, cfg, a);
    StagesConcat(h.log, Step(h.row, cfg, a).events);
  }

  /** As long as nothing is dropped, the stages a run announces as completed are exactly those
      between its first and its last cursor, in pipeline order, once each. */
  lemma {:induction false} EventsComeInOrder(h: History, p: seq<Name>, cfg: Config, tr: seq<Action>)
    requires p != [] && Distinct(p) && Ordered(h.row, p) && Steady(h, p, cfg, tr) && NothingDropped(h, cfg, tr)
    ensures InOrder(h, Run(h, cfg, tr), p)
    decreases |tr|
  {
    if tr == [] {
      assert Slots(p, h.row.flow.cursor.last + 1, h.row.flow.cursor.last + 1) == [];
    } else {
      var next := Extend(h, cfg, tr[0]);
      StepOrdered(h.row, p, cfg, tr[0]);
      StepInOrder(h, p, cfg, tr[0]);
      EventsComeInOrder(next, p, cfg, tr[1..]);
      InOrderTransitive(h, next, Run(next, cfg, tr[1..]), p);
    }
  }
}
