/** Which deliveries move a recording, and how far the next ones are from completing it. */
module Progress {
  import opened Results
  import opened Recordings
  import opened Checkpoints
  import opened Pipeline
  import opened Completion

  ghost predicate Distinct(p: seq<Name>) {
    forall i, j :: 0 <= i < j < |p| ==> p[i] != p[j]
  }

  /** The inputs hold still: a stage reads the same fingerprint whatever it is handed. */
  ghost predicate Still(env: Env) {
    forall n: Name, c: Ctx, c': Ctx :: env.read(n, c) == env.read(n, c')
  }

  predicate Resolves(env: Env) {
    env.pipeline.Names? && env.pipeline.names != []
  }

  /** The longest prefix of the pipeline that is completed and not stale. */
  function Frontier(row: Row, env: Env): (r: nat)
    requires Resolves(env)
    ensures r <= |env.pipeline.names|
  {
    FirstUnsettled(row.flow, env, env.pipeline.names)
  }

  // ----- duplicates

  /** Some completed stage, before the first pending one, no longer matches its input. */
  ghost predicate Recomputes(row: Row, env: Env)
    requires Resolves(env)
  {
    var p := env.pipeline.names;
    exists j :: 0 <= j < |p| && Stale(row.flow.checks, p[j], env.read(p[j], row.flow.cursor.ctx))
                && forall i :: 0 <= i <= j ==> p[i] in row.flow.cursor.completed
  }

  lemma {:induction false} RecomputesAtFrontier(row: Row, env: Env)
    requires Resolves(env)
    ensures var i := Frontier(row, env);
            Recomputes(row, env) <==> i < |env.pipeline.names| && env.pipeline.names[i] in row.flow.cursor.completed
  {
    var p, i := env.pipeline.names, Frontier(row, env);
    if Recomputes(row, env) {
      var j :| 0 <= j < |p| && Stale(row.flow.checks, p[j], env.read(p[j], row.flow.cursor.ctx))
               && forall i :: 0 <= i <= j ==> p[i] in row.flow.cursor.completed;
      assert !Settled(row.flow, env, p[j]);
      assert i <= j;
    }
  }

  lemma {:induction false} ConcludeWrites(begun: Row, cfg: Config, name: Name, index: int, fp: Option<Print>, outcome: Outcome, id: RunId)
    ensures Conclude(begun, cfg, name, index, fp, outcome, id).row.writes > begun.writes
  {
  }

  /** A delivery to a live recording is ignored, changing and publishing nothing, exactly when
      its index is not past the last completion and nothing before the first pending stage is stale. */
  lemma {:induction false} IgnoredIff(row: Row, cfg: Config, env: Env, k: int, outcome: Outcome, id: RunId)
    requires !Terminal(row.status) && Resolves(env)
    ensures RunStage(row, cfg, env, k, outcome, id) == Quiet(row) <==> k <= row.flow.cursor.last && !Recomputes(row, env)
  {
    RecomputesAtFrontier(row, env);
    match Decide(row, env, k, id)
    case Invoke(begun, name, index, fp) =>
      InvokeFacts(row, env, k, id);
      ConcludeWrites(begun, cfg, name, index, fp, outcome, id);
    case _ =>
  }

  lemma {:induction false} ConcludeDue(begun: Row, cfg: Config, name: Name, index: int, fp: Option<Print>, outcome: Outcome, id: RunId, e: Event)
    requires var next := Conclude(begun, cfg, name, index, fp, outcome, id); e in next.events && e.StageDue?
    ensures e.index == Conclude(begun, cfg, name, index, fp, outcome, id).row.flow.cursor.last + 1
  {
  }

  lemma {:induction false} DeliverDue(row: Row, cfg: Config, env: Env, k: int, outcome: Outcome, id: RunId, e: Event)
    requires e in RunStage(row, cfg, env, k, outcome, id).events && e.StageDue?
    ensures e.index == RunStage(row, cfg, env, k, outcome, id).row.flow.cursor.last + 1
  {
    match Decide(row, env, k, id)
    case Invoke(begun, name, index, fp) => ConcludeDue(begun, cfg, name, index, fp, outcome, id, e);
    case _ =>
  }

  /** Every event the driver itself publishes for the next stage points just past the last
      completion, so delivered next it is never taken for a duplicate. */
  lemma {:induction false} PublishedEventsAreDue(row: Row, cfg: Config, a: Action, e: Event, env: Env, outcome: Outcome, id: RunId)
    requires !a.Watchdog? && e in Step(row, cfg, a).events && e.StageDue?
    requires Resolves(env) && !Terminal(Step(row, cfg, a).row.status)
    ensures var next := Step(row, cfg, a).row;
            e.index == next.flow.cursor.last + 1 && RunStage(next, cfg, env, e.index, outcome, id) != Quiet(next)
  {
    var next := Step(row, cfg, a).row;
    match a {
      case Deliver(env, k, outcome, id) => DeliverDue(row, cfg, env, k, outcome, id, e);
      case TaskDone(env, task, outcome, id) =>
        if Expects(row, task) && env.registry(row.flow.awaiting.value.stage).Known? {
          var w := row.flow.awaiting.value;
          ConcludeDue(if outcome.Fatal? then row else ClearAwaiting(row), cfg, w.stage, w.index, w.fp,
                      if outcome.Submitted? then Retryable("unexpected") else outcome, id, e);
        }
      case _ =>
    }
    IgnoredIff(next, cfg, env, e.index, outcome, id);
  }

  // ----- the measure

  lemma {:induction false} SettledPrefix(w: Workflow, env: Env, p: seq<Name>, n: nat)
    requires n <= |p| && forall j :: 0 <= j < n ==> Settled(w, env, p[j])
    ensures n <= FirstUnsettled(w, env, p)
  {
  }

  /** What a handler is started on: everything before it settled, itself not completed. */
  lemma {:induction false} BegunFrontier(row: Row, env: Env, k: int, id: RunId)
    requires Decide(row, env, k, id).Invoke?
    requires env.pipeline.Names? ==> Distinct(env.pipeline.names)
    requires Still(env)
    ensures Resolves(env)
    ensures var Invoke(begun, name, index, _) := Decide(row, env, k, id);
            && Frontier(row, env) == Frontier(begun, env) == index && name == env.pipeline.names[index]
            && name !in begun.flow.cursor.completed
            && forall j :: 0 <= j < index ==> Settled(begun.flow, env, env.pipeline.names[j])
  {
    var Invoke(begun, name, index, _) := Decide(row, env, k, id);
    InvokeFacts(row, env, k, id);
    var p := env.pipeline.names;
    assert p[index] in p[index..];
    forall j | 0 <= j < index ensures Settled(begun.flow, env, p[j]) {
      assert Settled(row.flow, env, p[j]);
      assert p[j] !in p[index..];
    }
    SettledPrefix(begun.flow, env, p, index);
  }

  lemma {:induction false} SucceedFrontier(begun: Row, env: Env, name: Name, index: nat, ctx: Ctx, id: RunId)
    requires Resolves(env) && index < |env.pipeline.names| && name == env.pipeline.names[index]
    requires Still(env) && Distinct(env.pipeline.names)
    requires forall j :: 0 <= j < index ==> Settled(begun.flow, env, env.pipeline.names[j])
    ensures Frontier(Succeed(begun, name, index, env.read(name, begun.flow.cursor.ctx), ctx, id).row, env) > index
  {
    var p, fp := env.pipeline.names, env.read(name, begun.flow.cursor.ctx);
    var next := Succeed(begun, name, index, fp, ctx, id).row;
    RenewedIsFresh(begun.flow.checks, name, fp);
    forall j | 0 <= j < index + 1 ensures Settled(next.flow, env, p[j]) {
      assert env.read(p[j], ctx) == env.read(p[j], begun.flow.cursor.ctx);
    }
    SettledPrefix(next.flow, env, p, index + 1);
  }

  lemma {:induction false} ConcludeKeepsCursor(begun: Row, cfg: Config, name: Name, index: int, fp: Option<Print>, outcome: Outcome, id: RunId)
    requires !outcome.Done?
    ensures var next := Conclude(begun, cfg, name, index, fp, outcome, id).row;
            next.flow.cursor == begun.flow.cursor && next.flow.checks == begun.flow.checks
  {
  }

  lemma {:induction false} SameFrontier(w: Workflow, w': Workflow, env: Env, p: seq<Name>)
    requires w'.cursor == w.cursor && w'.checks == w.checks
    ensures FirstUnsettled(w', env, p) == FirstUnsettled(w, env, p)
  {
    var i, j := FirstUnsettled(w, env, p), FirstUnsettled(w', env, p);
    assert forall n :: Settled(w, env, n) <==> Settled(w', env, n);
  }

  lemma {:induction false} InvokedFrontier(row: Row, cfg: Config, env: Env, k: int, outcome: Outcome, id: RunId)
    requires Resolves(env) && Distinct(env.pipeline.names) && Still(env)
    requires Decide(row, env, k, id).Invoke?
    ensures var Invoke(begun, name, index, fp) := Decide(row, env, k, id);
            var next := Conclude(begun, cfg, name, index, fp, outcome, id).row;
            Frontier(next, env) >= index == Frontier(row, env) && (outcome.Done? ==> Frontier(next, env) > index)
  {
    var Invoke(begun, name, index, fp) := Decide(row, env, k, id);
    InvokeFacts(row, env, k, id);
    BegunFrontier(row, env, k, id);
    if outcome.Done? {
      SucceedFrontier(begun, env, name, index, outcome.ctx, id);
    } else {
      ConcludeKeepsCursor(begun, cfg, name, index, fp, outcome, id);
      SameFrontier(begun.flow, Conclude(begun, cfg, name, index, fp, outcome, id).row.flow, env, env.pipeline.names);
    }
  }

  lemma {:induction false} NotInvokedFrontier(row: Row, cfg: Config, env: Env, k: int, outcome: Outcome, id: RunId)
    requires Resolves(env) && Distinct(env.pipeline.names) && Still(env)
    requires !Decide(row, env, k, id).Invoke?
    ensures Frontier(RunStage(row, cfg, env, k, outcome, id).row, env) >= Frontier(row, env)
  {
    var p, i, next := env.pipeline.names, Frontier(row, env), RunStage(row, cfg, env, k, outcome, id).row;
    if next.flow.cursor == row.flow.cursor {
      SameFrontier(row.flow, next.flow, env, p);
    } else {
      forall j | 0 <= j < i ensures Settled(next.flow, env, p[j]) {
        assert Settled(row.flow, env, p[j]);
        assert p[j] !in p[i..];
      }
      SettledPrefix(next.flow, env, p, i);
    }
  }

  /** While the pipeline and the inputs hold still, no delivery, however its handler ends, ever
      shortens the frontier, and each successful handler call lengthens it. */
  lemma {:induction false} FrontierGrows(row: Row, cfg: Config, env: Env, k: int, outcome: Outcome, id: RunId)
    requires Resolves(env) && Distinct(env.pipeline.names) && Still(env)
    ensures Frontier(RunStage(row, cfg, env, k, outcome, id).row, env) >= Frontier(row, env)
    ensures Decide(row, env, k, id).Invoke? && outcome.Done?
            ==> Frontier(RunStage(row, cfg, env, k, outcome, id).row, env) > Frontier(row, env)
  {
    match Decide(row, env, k, id)
    case Invoke(_, _, _, _) => InvokedFrontier(row, cfg, env, k, outcome, id);
    case _ => NotInvokedFrontier(row, cfg, env, k, outcome, id);
  }

  // ----- synchronous handlers

  lemma {:induction false} UndroppedDelivery(row: Row, cfg: Config, env: Env, k: int, ctx: Ctx, id: RunId)
    requires !Terminal(row.status) && Resolves(env)
    requires forall n :: n in env.pipeline.names ==> env.registry(n).Known?
    requires k > row.flow.cursor.last || Recomputes(row, env)
    ensures var next := RunStage(row, cfg, env, k, Done(ctx), id);
            if Frontier(row, env) == |env.pipeline.names| then next.row.status == Completed && |next.events| == 1
            else && Decide(row, env, k, id).Invoke? && !Terminal(next.row.status)
                 && next.events == [next.events[0], StageDue(Frontier(row, env) + 1)]
                 && next.row.flow.cursor.last == Frontier(row, env)
  {
    RecomputesAtFrontier(row, env);
    if Decide(row, env, k, id).Invoke? { InvokeFacts(row, env, k, id); }
  }

  /** One delivery: the world it finds, and what its handler returns at once. */
  datatype Visit = Visit(env: Env, answer: Ctx)

  /** Deliver the event the previous delivery published, again and again, to handlers that
      succeed at once, until nothing more is published. */
  function Drive(row: Row, cfg: Config, k: int, visits: seq<Visit>, id: RunId): Row
    decreases |visits|
  {
    if visits == [] then row
    else
      var next := RunStage(row, cfg, visits[0].env, k, Done(visits[0].answer), id);
      if |next.events| == 2 && next.events[1].StageDue? then
        Drive(next.row, cfg, next.events[1].index, visits[1..], id)
      else next.row
  }

  /** The first `n` stages read in one world what they read in the other, whatever they are handed. */
  ghost predicate Keeps(p: seq<Name>, env: Env, later: Env, n: nat)
    requires n <= |p|
  {
    forall j: nat, c: Ctx, c': Ctx :: j < n ==> env.read(p[j], c) == later.read(p[j], c')
  }

  ghost predicate Runs(env: Env, p: seq<Name>) {
    env.pipeline == Names(p) && forall n :: n in p ==> env.registry(n).Known?
  }

  /** The worlds of the deliveries list the same pipeline, and from one to the next only stages
      after the one just run may come to read something else. */
  ghost predicate HoldsStill(row: Row, cfg: Config, p: seq<Name>, k: int, visits: seq<Visit>, id: RunId)
    requires p != []
    decreases |visits|
  {
    visits != [] ==>
      && Runs(visits[0].env, p)
      && var i := Frontier(row, visits[0].env);
         i < |p| && |visits| > 1 ==>
           && Keeps(p, visits[0].env, visits[1].env, i + 1)
           && HoldsStill(RunStage(row, cfg, visits[0].env, k, Done(visits[0].answer), id).row, cfg, p, i + 1, visits[1..], id)
  }

  lemma {:induction false} SuccessExtends(row: Row, cfg: Config, p: seq<Name>, env: Env, later: Env, k: int, answer: Ctx, id: RunId)
    requires p != [] && Distinct(p) && Runs(env, p) && Runs(later, p) && Decide(row, env, k, id).Invoke?
    requires Frontier(row, env) < |p| && Keeps(p, env, later, Frontier(row, env) + 1)
    ensures Frontier(RunStage(row, cfg, env, k, Done(answer), id).row, later) > Frontier(row, env)
  {
    InvokeFacts(row, env, k, id);
    var Invoke(begun, name, i, fp) := Decide(row, env, k, id);
    var next := RunStage(row, cfg, env, k, Done(answer), id).row;
    RenewedIsFresh(begun.flow.checks, name, fp);
    forall j: nat | j < i + 1 ensures Settled(next.flow, later, p[j]) {
      assert env.read(p[j], begun.flow.cursor.ctx) == later.read(p[j], answer);
      if j < i {
        assert Settled(row.flow, env, p[j]);
        assert env.read(p[j], row.flow.cursor.ctx) == later.read(p[j], answer);
        assert p[j] !in p[i..];
      }
    }
    SettledPrefix(next.flow, later, p, i + 1);
  }

  /** With synchronous handlers, from any recorded state, a live recording is completed by at most
      one success per unsettled stage and the one delivery that finalises, also where a stage
      changes what the stages after it read. */
  lemma {:induction false} SynchronousRunCompletes(row: Row, cfg: Config, p: seq<Name>, k: int, visits: seq<Visit>, id: RunId)
    requires !Terminal(row.status) && p != [] && Distinct(p) && visits != [] && HoldsStill(row, cfg, p, k, visits, id)
    requires k > row.flow.cursor.last || Recomputes(row, visits[0].env)
    requires |visits| > |p| - Frontier(row, visits[0].env)
    ensures Drive(row, cfg, k, visits, id).status == Completed
    decreases |visits|
  {
    var env, answer := visits[0].env, visits[0].answer;
    UndroppedDelivery(row, cfg, env, k, answer, id);
    if Frontier(row, env) < |p| {
      var next := RunStage(row, cfg, env, k, Done(answer), id).row;
      assert |visits| > 1 && visits[1..][0] == visits[1];
      SuccessExtends(row, cfg, p, env, visits[1].env, k, answer, id);
      SynchronousRunCompletes(next, cfg, p, Frontier(row, env) + 1, visits[1..], id);
    }
  }

  // ----- coming back from a stop

  /** A payment or an allowed retry, whichever the row waits for. */
  function LetBack(stopped: Row, hasSource: bool): Next {
    if stopped.status == NeedsPayment then ResumeAfterPayment(stopped) else RetryRecording(stopped, hasSource)
  }

  predicate MayComeBack(row: Row, hasSource: bool) {
    row.status == NeedsPayment || Retries(row, hasSource)
  }

  /** The event that lets a row back in calls the handler of what was its first unsettled stage,
      under the given run and over the same fingerprints; the cursor is intact, except that a
      completed stage which recomputes drops it from itself on. */
  predicate RunsNext(was: Row, back: Next, env: Env, run: Option<RunTag>, id: RunId)
    requires Resolves(env) && Frontier(was, env) < |env.pipeline.names|
  {
    var i := Frontier(was, env);
    var name := env.pipeline.names[i];
    var again := Decide(back.row, env, back.row.flow.cursor.last + 1, id);
    && back.events == [StageDue(back.row.flow.cursor.last + 1)] && back.row.retryCount == 0
    && again.Invoke? && again.name == name && again.index == i
    && again.begun.flow.cursor == (if name in was.flow.cursor.completed then DropFrom(was.flow.cursor, env.pipeline.names, i)
                                   else was.flow.cursor)
    && again.begun.flow.checks == was.flow.checks && again.begun.flow.run == run
  }

  lemma {:induction false} SameRunsNext(was: Row, stopped: Row, back: Next, env: Env, run: Option<RunTag>, id: RunId)
    requires stopped.flow.cursor == was.flow.cursor && stopped.flow.checks == was.flow.checks
    requires Resolves(env) && Frontier(stopped, env) == Frontier(was, env) < |env.pipeline.names| && RunsNext(stopped, back, env, run, id)
    ensures RunsNext(was, back, env, run, id)
  {
  }

  /** However a recording stopped: let back in, it calls its first unsettled stage next,
      under the run it has. */
  lemma {:induction false} FirstPendingRunsNext(stopped: Row, env: Env, hasSource: bool, id: RunId)
    requires MayComeBack(stopped, hasSource) && Resolves(env) && Frontier(stopped, env) < |env.pipeline.names|
    requires env.registry(env.pipeline.names[Frontier(stopped, env)]).Known?
    ensures RunsNext(stopped, LetBack(stopped, hasSource), env, EnsureRun(stopped.flow, id).run, id)
  {
    var back := LetBack(stopped, hasSource);
    SameFrontier(stopped.flow, back.row.flow, env, env.pipeline.names);
    InvokeFacts(back.row, env, back.row.flow.cursor.last + 1, id);
  }

  /** The stops of a live row outside a delivery: a task's result or failure, a close, and the
      watchdog. */
  predicate StopsOutside(row: Row, cfg: Config, a: Action) {
    (a.TaskDone? || a.TaskFailed? || a.Close? || a.Watchdog?) && Step(row, cfg, a) != Quiet(row) && Terminal(Step(row, cfg, a).row.status)
  }

  lemma {:induction false} StopOutsideKeeps(row: Row, cfg: Config, a: Action)
    requires StopsOutside(row, cfg, a)
    ensures var next := Step(row, cfg, a).row;
            && !Terminal(row.status) && next.flow.cursor == row.flow.cursor && next.flow.checks == row.flow.checks
            && next.flow.run.Some? && (row.flow.run.Some? ==> next.flow.run == row.flow.run)
  {
  }

  /** What runs next after such a stop is the stage that was first unsettled when it happened, in
      particular the awaited stage exactly if it was that one: with cursor, fingerprints and run
      intact, except that a completed stage which recomputes drops the cursor from itself on. */
  lemma {:induction false} StoppedOutsideRunsNext(row: Row, cfg: Config, a: Action, env: Env, hasSource: bool, id: RunId)
    requires StopsOutside(row, cfg, a) && MayComeBack(Step(row, cfg, a).row, hasSource)
    requires Resolves(env) && Frontier(row, env) < |env.pipeline.names|
    requires env.registry(env.pipeline.names[Frontier(row, env)]).Known?
    ensures RunsNext(row, LetBack(Step(row, cfg, a).row, hasSource), env, Step(row, cfg, a).row.flow.run, id)
  {
    var stopped := Step(row, cfg, a).row;
    StopOutsideKeeps(row, cfg, a);
    SameFrontier(row.flow, stopped.flow, env, env.pipeline.names);
    FirstPendingRunsNext(stopped, env, hasSource, id);
    SameRunsNext(row, stopped, LetBack(stopped, hasSource), env, stopped.flow.run, id);
  }

  lemma {:induction false} StopKeeps(begun: Row, cfg: Config, name: Name, index: int, fp: Option<Print>, outcome: Outcome, id: RunId)
    requires !Terminal(begun.status) && begun.flow.run.Some?
    requires Terminal(Conclude(begun, cfg, name, index, fp, outcome, id).row.status)
    ensures var next := Conclude(begun, cfg, name, index, fp, outcome, id).row;
            next.flow == begun.flow.(notes := next.flow.notes)
  {
  }

  /** The delivered stage recomputes, and so forgets the context the stages before it read. */
  predicate Forgets(row: Row, env: Env, k: int, id: RunId) {
    Decide(row, env, k, id).Invoke? && Decide(row, env, k, id).name in row.flow.cursor.completed
  }

  /** Without the context, the stages before the first unsettled one read what they read with it. */
  predicate ReadsTheSame(row: Row, env: Env)
    requires Resolves(env)
  {
    forall j :: 0 <= j < Frontier(row, env) ==>
      env.read(env.pipeline.names[j], NoCtx) == env.read(env.pipeline.names[j], row.flow.cursor.ctx)
  }

  lemma {:induction false} StoppedInsideFrontier(row: Row, env: Env, k: int, id: RunId)
    requires Decide(row, env, k, id).Invoke?
    requires Forgets(row, env, k, id) ==> env.pipeline.Names? && Resolves(env) && Distinct(env.pipeline.names) && ReadsTheSame(row, env)
    ensures Resolves(env) && Frontier(Decide(row, env, k, id).begun, env) == Frontier(row, env) == Decide(row, env, k, id).index
    ensures Decide(row, env, k, id).name !in Decide(row, env, k, id).begun.flow.cursor.completed
  {
    var Invoke(begun, name, index, _) := Decide(row, env, k, id);
    InvokeFacts(row, env, k, id);
    var p := env.pipeline.names;
    if Forgets(row, env, k, id) {
      assert p[index] in p[index..];
      forall j | 0 <= j < index ensures Settled(begun.flow, env, p[j]) {
        assert Settled(row.flow, env, p[j]);
        assert p[j] !in p[index..];
      }
      SettledPrefix(begun.flow, env, p, index);
    } else {
      SameFrontier(row.flow, begun.flow, env, p);
    }
  }

  /** The row stopped at a stage it had not completed, with fingerprints and run of the row before. */
  predicate StopsAt(row: Row, stopped: Row, name: Name, id: RunId) {
    && name !in stopped.flow.cursor.completed && stopped.flow.checks == row.flow.checks
    && stopped.flow.run == EnsureRun(row.flow, id).run && stopped.flow.run.Some?
  }

  lemma {:induction false} StopsInside(row: Row, cfg: Config, env: Env, k: int, id: RunId, outcome: Outcome, hasSource: bool)
    requires Decide(row, env, k, id).Invoke? && MayComeBack(RunStage(row, cfg, env, k, outcome, id).row, hasSource)
    requires Forgets(row, env, k, id) ==> env.pipeline.Names? && Resolves(env) && Distinct(env.pipeline.names) && ReadsTheSame(row, env)
    ensures Resolves(env) && Frontier(RunStage(row, cfg, env, k, outcome, id).row, env) == Decide(row, env, k, id).index < |env.pipeline.names|
    ensures Decide(row, env, k, id).name == env.pipeline.names[Decide(row, env, k, id).index]
    ensures env.registry(Decide(row, env, k, id).name).Known?
    ensures StopsAt(row, RunStage(row, cfg, env, k, outcome, id).row, Decide(row, env, k, id).name, id)
  {
    var Invoke(begun, name, index, fp) := Decide(row, env, k, id);
    InvokeFacts(row, env, k, id);
    StoppedInsideFrontier(row, env, k, id);
    StopKeeps(begun, cfg, name, index, fp, outcome, id);
    SameFrontier(begun.flow, RunStage(row, cfg, env, k, outcome, id).row.flow, env, env.pipeline.names);
  }

  /** A stage that stops the run inside its own delivery runs next, with cursor, fingerprints and
      run intact; only where it had forgotten the context must the stages before it read the same. */
  lemma {:induction false} StoppedStageRunsNext(row: Row, cfg: Config, env: Env, k: int, id: RunId, outcome: Outcome, hasSource: bool, id': RunId)
    requires Decide(row, env, k, id).Invoke?
    requires Forgets(row, env, k, id) ==> env.pipeline.Names? && Resolves(env) && Distinct(env.pipeline.names) && ReadsTheSame(row, env)
    requires MayComeBack(RunStage(row, cfg, env, k, outcome, id).row, hasSource)
    ensures Resolves(env) && Frontier(RunStage(row, cfg, env, k, outcome, id).row, env) == Decide(row, env, k, id).index < |env.pipeline.names|
    ensures StopsAt(row, RunStage(row, cfg, env, k, outcome, id).row, Decide(row, env, k, id).name, id)
    ensures var stopped := RunStage(row, cfg, env, k, outcome, id).row;
            RunsNext(stopped, LetBack(stopped, hasSource), env, stopped.flow.run, id')
  {
    StopsInside(row, cfg, env, k, id, outcome, hasSource);
    FirstPendingRunsNext(RunStage(row, cfg, env, k, outcome, id).row, env, hasSource, id');
  }

  // ----- the watchdog

  /** A re-drive delivered next is ignored exactly when the place it points to is not past the
      last completion and nothing before the first pending stage is stale. */
  lemma {:induction false} RedriveIgnoredIff(row: Row, cfg: Config, env: Env, outcome: Outcome, id: RunId)
    requires InPipeline(row.status) && RedriveAllowed(row, cfg) && Resolves(env)
    ensures var next := Redrive(row, cfg, id);
            && next.events == [StageDue(RedriveIndex(row.flow))]
            && (RunStage(next.row, cfg, env, next.events[0].index, outcome, id) == Quiet(next.row)
                <==> RedriveIndex(row.flow) <= row.flow.cursor.last && !Recomputes(row, env))
  {
    var next := Redrive(row, cfg, id);
    IgnoredIff(next.row, cfg, env, next.events[0].index, outcome, id);
    assert Recomputes(next.row, env) <==> Recomputes(row, env);
  }

  // ----- starting

  /** A first delivery of the upload event starts a recording unless something has already
      written its pipeline block: a declaration of staleness made before the start is taken for
      a start, and then no event is published at all. */
  lemma {:induction false} DeclaringBeforeTheStart(row: Row, env: Env, stage: Name, id: RunId)
    requires !Terminal(row.status)
    ensures StartPipeline(row, id).events == [StageDue(0)] <==> !row.flow.marked
    ensures StartPipeline(InvalidateFrom(row, env, stage).row, id) == Quiet(InvalidateFrom(row, env, stage).row)
  {
  }
}
