/** What each transition of the driver does to a row, as functions: the specification that the
    methods of module Driver meet and that the theorems about whole runs speak of. */
module Pipeline {
  import opened Results
  import opened Recordings
  import opened Checkpoints

  /** `MAX_STAGE_RETRIES` and `RECONCILE_MAX_REDRIVES` (0 turns the watchdog's cap off). */
  datatype Config = Config(maxRetries: nat, redriveCap: nat)

  datatype Resolved = Broken | Names(names: seq<Name>)
  datatype StageEntry = Unknown | Known(status: Option<string>)

  /** What one transition reads of the world: the resolver's answer, the stage registry, and
      the fingerprint each stage declares for its input when handed a context. */
  datatype Env = Env(pipeline: Resolved, registry: Name -> StageEntry, read: (Name, Ctx) -> Option<Print>)

  /** A world of known stages that declare neither a status nor a fingerprint. */
  function Plain(names: seq<Name>): Env {
    Env(Names(names), (n: Name) => Known(None), (n: Name, c: Ctx) => None)
  }

  /** How a stage handler ended. Every other exception is `Retryable("unexpected")`. */
  datatype Outcome =
    | Done(ctx: Ctx)
    | Submitted(task: TaskId)
    | Unpaid(reason: string)
    | Fatal(reason: string, userRetryable: bool)
    | Retryable(reason: string)

  // ----- workflow helpers

  function AttemptOf(w: Workflow): Attempt {
    if w.run.Some? then w.run.value.attempt else 1
  }

  /** The identity a public event carries; `id` is the one minted if the run has none. */
  function Tag(w: Workflow, id: RunId): RunTag {
    if w.run.Some? then w.run.value else RunTag(id, 1)
  }

  function EnsureRun(w: Workflow, id: RunId): Workflow {
    if w.run.Some? then w else w.(marked := true, run := Some(Tag(w, id)))
  }

  function SetCurrent(w: Workflow, index: int, name: Name): Workflow {
    w.(marked := true, place := Some(Place(name, index)))
  }

  function SetLastError(w: Workflow, stage: Name, reason: string, userRetryable: bool): Workflow {
    w.(notes := w.notes.(lastError := Some(Failure(stage, reason, userRetryable))))
  }

  function ClearLastError(n: Notes): Notes {
    if n.lastError == None then n else n.(lastError := None, recovered := n.lastError)
  }

  function Advance(c: Cursor, index: int, name: Name, ctx: Ctx): Cursor {
    Cursor(if name in c.completed then c.completed else c.completed + [name], index, ctx)
  }

  function DropFrom(c: Cursor, pipeline: seq<Name>, index: nat): Cursor
    requires index <= |pipeline|
  {
    Cursor(Without(c.completed, pipeline[index..]), index - 1, NoCtx)
  }

  /** Is the stage's completion usable as it stands? */
  predicate Settled(w: Workflow, env: Env, name: Name) {
    name in w.cursor.completed && !Stale(w.checks, name, env.read(name, w.cursor.ctx))
  }

  /** The first position at or after `i` whose stage is not settled, `|pipeline|` if none. */
  function FirstUnsettled(w: Workflow, env: Env, pipeline: seq<Name>, i: nat := 0): (r: nat)
    requires i <= |pipeline|
    ensures i <= r <= |pipeline|
    ensures forall j :: i <= j < r ==> Settled(w, env, pipeline[j])
    ensures r < |pipeline| ==> !Settled(w, env, pipeline[r])
    decreases |pipeline| - i
  {
    if i < |pipeline| && Settled(w, env, pipeline[i]) then FirstUnsettled(w, env, pipeline, i + 1) else i
  }

  // ----- ways a transition ends

  /** The row a transition leaves behind and the events it publishes, committed together. */
  datatype Next = Next(row: Row, events: seq<Event>)

  function Quiet(row: Row): Next {
    Next(row, [])
  }

  function Fail(row: Row, stage: Name, reason: string, userRetryable: bool, id: RunId): Next {
    Next(row.(status := Error, flow := EnsureRun(row.flow, id), writes := row.writes + 1),
         [RunFailed(stage, reason, userRetryable, Tag(row.flow, id))])
  }

  function Dlq(row: Row, stage: Name, reason: string, userRetryable: bool, id: RunId): Next {
    Fail(row.(flow := SetLastError(row.flow, stage, reason, userRetryable)), stage, reason, userRetryable, id)
  }

  /** The count that crosses the limit is not saved: `retryCount` is what the row keeps. */
  function HandleRetry(row: Row, cfg: Config, stage: Name, reason: string, id: RunId): Next {
    var failed := row.(flow := SetLastError(row.flow, stage, reason, true));
    if row.retryCount + 1 > cfg.maxRetries then
      Fail(failed, stage, "retries_exhausted: " + reason, true, id)
    else
      Quiet(failed.(retryCount := row.retryCount + 1, status := Queued, writes := row.writes + 1))
  }

  function ParkForPayment(row: Row, stage: Name, reason: string, id: RunId): Next {
    Next(row.(status := NeedsPayment, writes := row.writes + 1,
              flow := EnsureRun(row.flow.(notes := row.flow.notes.(needsPayment := Some(Bill(stage, reason)))), id)),
         [PaymentNeeded(stage, reason, Tag(row.flow, id))])
  }

  function Finalize(row: Row, id: RunId): Next {
    Next(row.(status := Completed, flow := EnsureRun(row.flow, id), writes := row.writes + 1),
         [RunCompleted(Tag(row.flow, id))])
  }

  /** The success tail shared by a handler that returned, a task that finished and a task
      whose failure the stage absorbed. */
  function Succeed(row: Row, name: Name, index: int, fp: Option<Print>, ctx: Ctx, id: RunId): Next {
    Next(row.(retryCount := 0, writes := row.writes + 1,
              flow := row.flow.(marked := true, redrives := 0, run := Some(Tag(row.flow, id)),
                                cursor := Advance(row.flow.cursor, index, name, ctx),
                                checks := Renewed(row.flow.checks, name, fp),
                                notes := ClearLastError(row.flow.notes))),
         [StageCompleted(name, index, Tag(row.flow, id)), StageDue(index + 1)])
  }

  function Await(row: Row, task: TaskId, name: Name, index: int, fp: Option<Print>): Next {
    Quiet(row.(flow := SetCurrent(row.flow, index, name).(awaiting := Some(Awaited(task, name, index, fp))),
               writes := row.writes + 1))
  }

  /** What the end of a stage handler makes of the row it was started on. */
  function Conclude(begun: Row, cfg: Config, name: Name, index: int, fp: Option<Print>, outcome: Outcome, id: RunId): Next {
    match outcome
    case Done(ctx) => Succeed(begun, name, index, fp, ctx, id)
    case Submitted(task) => Await(begun, task, name, index, fp)
    case Unpaid(reason) => ParkForPayment(begun, name, reason, id)
    case Fatal(reason, user) => Dlq(begun, name, reason, user, id)
    case Retryable(reason) => HandleRetry(begun, cfg, name, reason, id)
  }

  // ----- run_stage

  /** What a delivered event makes the driver do, decided before any handler is called.
      `Invoke` carries the row as it stands when the handler of `name` starts. */
  datatype Decision =
    | Drop
    | ResolverDown
    | NoStages
    | AllDone
    | NoSuchStage(at: Row, name: Name)
    | Invoke(begun: Row, name: Name, index: nat, fp: Option<Print>)

  function Begin(row: Row, env: Env, name: Name, index: nat, id: RunId): Decision {
    match env.registry(name)
    case Unknown => NoSuchStage(row, name)
    case Known(status) =>
      var begun := row.(flow := EnsureRun(SetCurrent(row.flow, index, name), id),
                        status := if status.Some? then Working(status.value) else row.status,
                        writes := row.writes + 1);
      Invoke(begun, name, index, env.read(name, row.flow.cursor.ctx))
  }

  /** The row after a stage that has to recompute took the tail of the pipeline with it. */
  function Rewound(row: Row, pipeline: seq<Name>, i: nat): Row
    requires i <= |pipeline|
  {
    row.(flow := row.flow.(marked := true, cursor := DropFrom(row.flow.cursor, pipeline, i)))
  }

  function Decide(row: Row, env: Env, k: int, id: RunId): Decision {
    if Terminal(row.status) then Drop
    else if env.pipeline.Broken? then ResolverDown
    else
      var p := env.pipeline.names;
      if p == [] then NoStages
      else
        var i := FirstUnsettled(row.flow, env, p);
        var recompute := i < |p| && p[i] in row.flow.cursor.completed;
        if !recompute && k <= row.flow.cursor.last then Drop
        else if i == |p| then AllDone
        else Begin(if recompute then Rewound(row, p, i) else row, env, p[i], i, id)
  }

  function RunStage(row: Row, cfg: Config, env: Env, k: int, outcome: Outcome, id: RunId): Next {
    match Decide(row, env, k, id)
    case Drop => Quiet(row)
    case ResolverDown => HandleRetry(row, cfg, "<pipeline_resolver>", "pipeline_resolver_error", id)
    case NoStages => Dlq(row, "<pipeline>", "empty_pipeline", true, id)
    case AllDone => Finalize(row, id)
    case NoSuchStage(at, name) => Dlq(at, name, "unresolvable_stage", true, id)
    case Invoke(begun, name, index, fp) => Conclude(begun, cfg, name, index, fp, outcome, id)
  }

  // ----- task results

  /** Does a result of `task` belong to the stage this row is waiting for? */
  predicate Expects(row: Row, task: TaskId) {
    !Terminal(row.status) && row.flow.awaiting.Some? && row.flow.awaiting.value.task == task
  }

  function ClearAwaiting(row: Row): Row {
    row.(flow := row.flow.(awaiting := None))
  }

  /** A result that fails the run leaves the handle in place; every other one clears it. A
      stage that submits again while it is being resumed is an unexpected error. */
  function ResumeStage(row: Row, cfg: Config, env: Env, task: TaskId, outcome: Outcome, id: RunId): Next {
    if !Expects(row, task) then Quiet(row)
    else
      var a := row.flow.awaiting.value;
      if env.registry(a.stage).Unknown? then Dlq(row, a.stage, "unresolvable_stage", true, id)
      else Conclude(if outcome.Fatal? then row else ClearAwaiting(row), cfg, a.stage, a.index, a.fp,
                    if outcome.Submitted? then Retryable("unexpected") else outcome, id)
  }

  /** `absorbed` is the context a stage returns to complete in spite of its task's failure;
      a stage the registry no longer knows absorbs nothing. */
  function FailStage(row: Row, env: Env, task: TaskId, absorbed: Option<Ctx>, id: RunId): Next {
    if !Expects(row, task) then Quiet(row)
    else
      var a := row.flow.awaiting.value;
      if env.registry(a.stage).Known? && absorbed.Some? then
        Succeed(ClearAwaiting(row), a.stage, a.index, a.fp, absorbed.value, id)
      else
        Dlq(ClearAwaiting(row), a.stage, "task_failed", true, id)
  }

  // ----- explicit transitions

  function StartPipeline(row: Row, id: RunId): Next {
    if Terminal(row.status) || row.flow.marked then Quiet(row)
    else Next(row.(flow := BLANK_FLOW.(marked := true, run := Some(RunTag(id, 1)), notes := row.flow.notes),
                   writes := row.writes + 1),
              [StageDue(0)])
  }

  function IndexOf(s: seq<Name>, n: Name): (i: nat)
    requires n in s
    ensures i < |s| && s[i] == n && n !in s[..i]
  {
    if s[0] == n then 0 else 1 + IndexOf(s[1..], n)
  }

  predicate After(p: seq<Name>, stage: Name, n: Name) {
    exists i, j :: 0 <= i < j < |p| && p[i] == stage && p[j] == n
  }

  /** Is `n` the stage itself, or does the pipeline list it somewhere after the stage? */
  predicate ListedFrom(env: Env, stage: Name, n: Name) {
    n == stage || (env.pipeline.Names? && After(env.pipeline.names, stage, n))
  }

  lemma {:induction false} TailIff(p: seq<Name>, i: nat, n: Name)
    requires i < |p| && p[i] !in p[..i]
    ensures n in p[i..] <==> n == p[i] || After(p, p[i], n)
  {
    if n in p[i..] && n != p[i] {
      var j :| 0 <= j < |p[i..]| && p[i..][j] == n;
      assert p[i + j] == n;
    }
    if After(p, p[i], n) {
      var k, j :| 0 <= k < j < |p| && p[k] == p[i] && p[j] == n;
      forall q | 0 <= q < i ensures p[q] != p[i] { assert p[q] in p[..i]; }
      assert p[i..][j - i] == n;
    }
    assert p[i..][0] == p[i];
  }

  /** The stages a declaration reaches: `stage` and, where the pipeline lists it, all after it. */
  function Doomed(env: Env, stage: Name): (r: seq<Name>)
    ensures forall n :: n in r <==> ListedFrom(env, stage, n)
  {
    if env.pipeline.Names? && stage in env.pipeline.names then
      var p, i := env.pipeline.names, IndexOf(env.pipeline.names, stage);
      assert forall n :: n in p[i..] <==> ListedFrom(env, stage, n) by { forall n { TailIff(p, i, n); } }
      p[i..]
    else [stage]
  }

  function InvalidateFrom(row: Row, env: Env, stage: Name): Next {
    Quiet(row.(flow := row.flow.(marked := true, checks := DeclareInvalid(row.flow.checks, Doomed(env, stage))),
               writes := row.writes + 1))
  }

  /** Why a retry cannot succeed: the failure is that there is no source, and there still is none. */
  predicate RetryRefused(n: Notes, hasSource: bool) {
    && n.lastError.Some? && !hasSource
    && (n.lastError.value.stage == "upload" || n.lastError.value.reason == "missing_raw_storage_key")
  }

  predicate Retries(row: Row, hasSource: bool) {
    row.status == Error && !RetryRefused(row.flow.notes, hasSource)
  }

  function RetryRecording(row: Row, hasSource: bool): Next {
    if !Retries(row, hasSource) then Quiet(row)
    else Next(row.(status := Queued, retryCount := 0, writes := row.writes + 1), [StageDue(row.flow.cursor.last + 1)])
  }

  function Paid(n: Notes): Notes {
    n.(needsPayment := None, paidFor := if n.needsPayment.Some? then n.needsPayment else n.paidFor)
  }

  function ResumeAfterPayment(row: Row): Next {
    if row.status != NeedsPayment then Quiet(row)
    else Next(row.(status := Queued, retryCount := 0, writes := row.writes + 1,
                   flow := row.flow.(notes := Paid(row.flow.notes))),
              [StageDue(row.flow.cursor.last + 1)])
  }

  function Reprocess(row: Row, id: RunId): Next {
    if row.status != Completed then Quiet(row)
    else Next(row.(status := Queued, retryCount := 0, writes := row.writes + 1,
                   flow := row.flow.(marked := true, cursor := START_CURSOR, place := None,
                                     run := Some(RunTag(id, AttemptOf(row.flow) + 1)))),
              [StageDue(0)])
  }

  /** The stage the row was last seen on, as a failure names it. */
  function CurrentStage(w: Workflow): Name {
    if w.place.Some? && w.place.value.name != "" then w.place.value.name else "pipeline"
  }

  function CloseRecording(row: Row, reason: string, id: RunId): Next {
    if !InPipeline(row.status) then Quiet(row)
    else Dlq(ClearAwaiting(row), CurrentStage(row.flow), "closed:" + reason, true, id)
  }

  // ----- the watchdog

  /** A re-drive counts against the cap, or finds it spent. */
  predicate RedriveAllowed(row: Row, cfg: Config) {
    cfg.redriveCap == 0 || row.flow.redrives < cfg.redriveCap
  }

  function RedriveIndex(w: Workflow): int {
    if w.place.Some? then w.place.value.index else 0
  }

  /** One watchdog pass that selected the row (in the pipeline, and not updated for a while). */
  function Redrive(row: Row, cfg: Config, id: RunId): Next {
    if !InPipeline(row.status) then Quiet(row)
    else if !RedriveAllowed(row, cfg) then
      Dlq(row, CurrentStage(row.flow), "reconcile_exhausted", true, id)
    else
      Next(row.(flow := row.flow.(marked := true, redrives := row.flow.redrives + 1), writes := row.writes + 1),
           [StageDue(RedriveIndex(row.flow))])
  }

  /** The watchdog writes off an upload that never arrived; no event is published. */
  function AbandonUpload(row: Row): Next {
    if row.status != Uploading then Quiet(row)
    else Quiet(row.(status := Error, flow := SetLastError(row.flow, "upload", "upload_abandoned", true),
                    writes := row.writes + 1))
  }

  // ----- the upload, which hands the row to the driver

  function BeginUpload(row: Row): Next {
    Quiet(if row.status == Created then row.(status := Uploading, writes := row.writes + 1) else row)
  }

  /** Finishing an upload asks for no status: whenever the row has no source key and the session
      was not finished before (`open`), the row is queued. The source key is cleared once the
      audio is out of the container, so that may be a row in any status. */
  predicate TakesUpload(row: Row, open: bool) {
    open && row.status != Deleted
  }

  function FinishUpload(row: Row, open: bool): Next {
    Quiet(if TakesUpload(row, open) then row.(status := Queued, writes := row.writes + 1) else row)
  }

  // ----- runs

  datatype Action =
    | Start(id: RunId)
    | Deliver(env: Env, k: int, outcome: Outcome, id: RunId)
    | TaskDone(env: Env, task: TaskId, outcome: Outcome, id: RunId)
    | TaskFailed(env: Env, task: TaskId, absorbed: Option<Ctx>, id: RunId)
    | Invalidate(env: Env, from: Name)
    | Retry(hasSource: bool)
    | Pay
    | ReprocessAll(id: RunId)
    | Close(reason: string, id: RunId)
    | Watchdog(id: RunId)
    | GiveUpUpload
    | OpenUpload
    | CloseUpload(open: bool)

  function Step(row: Row, cfg: Config, a: Action): Next {
    match a
    case Start(id) => StartPipeline(row, id)
    case Deliver(env, k, outcome, id) => RunStage(row, cfg, env, k, outcome, id)
    case TaskDone(env, task, outcome, id) => ResumeStage(row, cfg, env, task, outcome, id)
    case TaskFailed(env, task, absorbed, id) => FailStage(row, env, task, absorbed, id)
    case Invalidate(env, from) => InvalidateFrom(row, env, from)
    case Retry(hasSource) => RetryRecording(row, hasSource)
    case Pay => ResumeAfterPayment(row)
    case ReprocessAll(id) => Reprocess(row, id)
    case Close(reason, id) => CloseRecording(row, reason, id)
    case Watchdog(id) => Redrive(row, cfg, id)
    case GiveUpUpload => AbandonUpload(row)
    case OpenUpload => BeginUpload(row)
    case CloseUpload(open) => FinishUpload(row, open)
  }

  /** A row and everything published about it so far. */
  datatype History = History(row: Row, log: seq<Event>)

  function Extend(h: History, cfg: Config, a: Action): History {
    var next := Step(h.row, cfg, a);
    History(next.row, h.log + next.events)
  }

  function Run(h: History, cfg: Config, tr: seq<Action>): History
    decreases |tr|
  {
    if tr == [] then h else Run(Extend(h, cfg, tr[0]), cfg, tr[1..])
  }

  lemma {:induction false} RunCons(h: History, cfg: Config, a: Action, rest: seq<Action>)
    ensures Run(h, cfg, [a] + rest) == Run(Extend(h, cfg, a), cfg, rest)
  {
    assert ([a] + rest)[1..] == rest;
  }

  lemma {:induction false} RunConcat(h: History, cfg: Config, tr: seq<Action>, more: seq<Action>)
    ensures Run(h, cfg, tr + more) == Run(Run(h, cfg, tr), cfg, more)
    decreases |tr|
  {
    if tr == [] {
      assert tr + more == more;
    } else {
      assert (tr + more)[1..] == tr[1..] + more;
      RunConcat(Extend(h, cfg, tr[0]), cfg, tr[1..], more);
    }
  }

  // ----- what holds of every delivery

  /** A handler is only ever called for the first unsettled stage of the resolved pipeline, on
      a row that differs from the delivered one in its cursor, place, status and run only. */
  lemma {:induction false} InvokeFacts(row: Row, env: Env, k: int, id: RunId)
    requires Decide(row, env, k, id).Invoke?
    ensures !Terminal(row.status) && env.pipeline.Names? && env.pipeline.names != []
    ensures var Invoke(begun, name, index, fp) := Decide(row, env, k, id);
            var p := env.pipeline.names;
            && index == FirstUnsettled(row.flow, env, p) < |p| && name == p[index] && env.registry(name).Known?
            && begun.status == (if env.registry(name).status.Some? then Working(env.registry(name).status.value) else row.status)
            && !Terminal(begun.status) && begun.retryCount == row.retryCount && begun.writes == row.writes + 1
            && begun.flow.cursor == (if name in row.flow.cursor.completed then DropFrom(row.flow.cursor, p, index)
                                     else row.flow.cursor)
            && begun.flow == row.flow.(marked := true, cursor := begun.flow.cursor, place := Some(Place(name, index)),
                                       run := EnsureRun(row.flow, id).run)
            && fp == env.read(name, begun.flow.cursor.ctx)
            && Tag(begun.flow, id) == Tag(row.flow, id)
  {
  }
}
