/** What a stopped or retried recording is told about: the stage, the reason, and whether its user
    can do something about it; and when a trouble is over. */
module Blame {
  import opened Results
  import opened Recordings
  import opened Checkpoints
  import opened Pipeline
  import opened Ladders

  // ----- answers

  /** The answer to a task counts exactly if the row runs and waits for that very task; any other
      one, late, repeated or for another stage, changes and publishes nothing. */
  lemma {:induction false} AnswerCountsIff(row: Row, cfg: Config, a: Action)
    requires a.TaskDone? || a.TaskFailed?
    ensures Step(row, cfg, a) != Quiet(row)
        <==> !Terminal(row.status) && row.flow.awaiting.Some? && row.flow.awaiting.value.task == a.task
  {
    if Expects(row, a.task) {
      assert Step(row, cfg, a).row.writes > row.writes;
    }
  }

  // ----- failures

  /** The stage a delivery calls, once the pipeline resolves: the first that is not settled. */
  function Called(row: Row, env: Env): Name
    requires env.pipeline.Names?
  {
    var i := FirstUnsettled(row.flow, env, env.pipeline.names);
    if i < |env.pipeline.names| then env.pipeline.names[i] else ""
  }

  /** How the end of a handler fails a run. */
  predicate HandlerFails(outcome: Outcome, reason: string, userRetryable: bool) {
    match outcome
    case Fatal(why, user) => reason == why && userRetryable == user
    case Retryable(why) => reason == "retries_exhausted: " + why && userRetryable
    case _ => false
  }

  /** The stage a row was last seen on, `pipeline` before the first. */
  predicate Stood(row: Row, stage: Name) {
    match row.flow.place
    case None => stage == "pipeline"
    case Some(place) => stage == place.name || (place.name == "" && stage == "pipeline")
  }

  /** Which stage, reason and flag a failure announced by the action may carry: only a fatal
      outcome can say that its user cannot retry. */
  predicate Blames(row: Row, a: Action, stage: Name, reason: string, userRetryable: bool) {
    match a
    case Deliver(env, _, outcome, _) =>
      if env.pipeline.Broken? then
        stage == "<pipeline_resolver>" && reason == "retries_exhausted: " + "pipeline_resolver_error" && userRetryable
      else if env.pipeline.names == [] then stage == "<pipeline>" && reason == "empty_pipeline" && userRetryable
      else stage == Called(row, env)
           && if env.registry(stage).Unknown? then reason == "unresolvable_stage" && userRetryable
              else HandlerFails(outcome, reason, userRetryable)
    case TaskDone(env, _, outcome, _) =>
      row.flow.awaiting.Some? && stage == row.flow.awaiting.value.stage
      && (if env.registry(stage).Unknown? then reason == "unresolvable_stage" && userRetryable
          else if outcome.Submitted? then reason == "retries_exhausted: " + "unexpected" && userRetryable
          else HandlerFails(outcome, reason, userRetryable))
    case TaskFailed(_, _, _, _) =>
      row.flow.awaiting.Some? && stage == row.flow.awaiting.value.stage && reason == "task_failed" && userRetryable
    case Close(why, _) => Stood(row, stage) && reason == "closed:" + why && userRetryable
    case Watchdog(_) => Stood(row, stage) && reason == "reconcile_exhausted" && userRetryable
    case _ => false
  }

  lemma {:induction false} ConcludeBlames(begun: Row, cfg: Config, name: Name, index: int, fp: Option<Print>, outcome: Outcome, id: RunId, e: Event)
    requires e in Conclude(begun, cfg, name, index, fp, outcome, id).events && e.RunFailed?
    ensures e.stage == name && HandlerFails(outcome, e.reason, e.userRetryable)
  {
  }

  /** Why a delivery calls no handler. */
  lemma {:induction false} DecisionTells(row: Row, env: Env, k: int, id: RunId)
    ensures match Decide(row, env, k, id)
            case ResolverDown => env.pipeline.Broken?
            case NoStages => env.pipeline == Names([])
            case NoSuchStage(_, name) => env.pipeline.Names? && env.pipeline.names != [] && name == Called(row, env) && env.registry(name).Unknown?
            case _ => true
  {
  }

  lemma {:induction false} RetryBlames(row: Row, cfg: Config, stage: Name, reason: string, id: RunId, e: Event)
    requires e in HandleRetry(row, cfg, stage, reason, id).events && e.RunFailed?
    ensures e.stage == stage && e.reason == "retries_exhausted: " + reason && e.userRetryable
  {
  }

  lemma {:induction false} DlqBlames(row: Row, stage: Name, reason: string, userRetryable: bool, id: RunId, e: Event)
    requires e in Dlq(row, stage, reason, userRetryable, id).events && e.RunFailed?
    ensures e.stage == stage && e.reason == reason && e.userRetryable == userRetryable
  {
  }

  lemma {:induction false} BrokenEnds(row: Row, cfg: Config, a: Action)
    requires a.Deliver? && Decide(row, a.env, a.k, a.id).ResolverDown?
    ensures a.env.pipeline.Broken? && Step(row, cfg, a) == HandleRetry(row, cfg, "<pipeline_resolver>", "pipeline_resolver_error", a.id)
  {
  }

  lemma {:induction false} BrokenBlames(row: Row, cfg: Config, a: Action, e: Event)
    requires a.Deliver? && Decide(row, a.env, a.k, a.id).ResolverDown? && e in Step(row, cfg, a).events && e.RunFailed?
    ensures Blames(row, a, e.stage, e.reason, e.userRetryable)
  {
    BrokenEnds(row, cfg, a);
    RetryBlames(row, cfg, "<pipeline_resolver>", "pipeline_resolver_error", a.id, e);
  }

  lemma {:induction false} EmptyBlames(row: Row, cfg: Config, a: Action, e: Event)
    requires a.Deliver? && Decide(row, a.env, a.k, a.id).NoStages? && e in Step(row, cfg, a).events && e.RunFailed?
    ensures Blames(row, a, e.stage, e.reason, e.userRetryable)
  {
    DecisionTells(row, a.env, a.k, a.id);
    assert Step(row, cfg, a) == Dlq(row, "<pipeline>", "empty_pipeline", true, a.id);
    DlqBlames(row, "<pipeline>", "empty_pipeline", true, a.id, e);
  }

  lemma {:induction false} UnknownBlames(row: Row, cfg: Config, a: Action, e: Event)
    requires a.Deliver? && Decide(row, a.env, a.k, a.id).NoSuchStage? && e in Step(row, cfg, a).events && e.RunFailed?
    ensures Blames(row, a, e.stage, e.reason, e.userRetryable)
  {
    var NoSuchStage(at, name) := Decide(row, a.env, a.k, a.id);
    DecisionTells(row, a.env, a.k, a.id);
    assert Step(row, cfg, a) == Dlq(at, name, "unresolvable_stage", true, a.id);
    DlqBlames(at, name, "unresolvable_stage", true, a.id, e);
  }

  lemma {:induction false} DeliverBlames(row: Row, cfg: Config, a: Action, e: Event)
    requires a.Deliver? && e in Step(row, cfg, a).events && e.RunFailed?
    ensures Blames(row, a, e.stage, e.reason, e.userRetryable)
  {
    match Decide(row, a.env, a.k, a.id)
    case Invoke(begun, name, index, fp) =>
      InvokeFacts(row, a.env, a.k, a.id);
      ConcludeBlames(begun, cfg, name, index, fp, a.outcome, a.id, e);
    case ResolverDown => BrokenBlames(row, cfg, a, e);
    case NoStages => EmptyBlames(row, cfg, a, e);
    case NoSuchStage(_, _) => UnknownBlames(row, cfg, a, e);
    case _ =>
  }

  lemma {:induction false} TaskBlames(row: Row, cfg: Config, a: Action, e: Event)
    requires a.TaskDone? && e in Step(row, cfg, a).events && e.RunFailed?
    ensures Blames(row, a, e.stage, e.reason, e.userRetryable)
  {
    var w := row.flow.awaiting.value;
    if a.env.registry(w.stage).Known? {
      ConcludeBlames(if a.outcome.Fatal? then row else ClearAwaiting(row), cfg, w.stage, w.index, w.fp,
                     if a.outcome.Submitted? then Retryable("unexpected") else a.outcome, a.id, e);
    }
  }

  lemma {:induction false} FailuresSayWhy(row: Row, cfg: Config, a: Action, e: Event)
    requires e in Step(row, cfg, a).events && e.RunFailed?
    ensures Blames(row, a, e.stage, e.reason, e.userRetryable)
  {
    match a
    case Deliver(_, _, _, _) => DeliverBlames(row, cfg, a, e);
    case TaskDone(_, _, _, _) => TaskBlames(row, cfg, a, e);
    case _ =>
  }

  // ----- the other events of a stage

  /** The stage an event is about, with its position: the one the delivery called, or the one the
      task was submitted for. */
  predicate About(row: Row, a: Action, stage: Name, at: int) {
    match a
    case Deliver(env, _, _, _) =>
      env.pipeline.Names? && stage == Called(row, env) && at == FirstUnsettled(row.flow, env, env.pipeline.names)
    case TaskDone(_, _, _, _) => row.flow.awaiting.Some? && stage == row.flow.awaiting.value.stage && at == row.flow.awaiting.value.index
    case TaskFailed(_, _, _, _) => row.flow.awaiting.Some? && stage == row.flow.awaiting.value.stage && at == row.flow.awaiting.value.index
    case _ => false
  }

  lemma {:induction false} ConcludeNames(begun: Row, cfg: Config, name: Name, index: int, fp: Option<Print>, outcome: Outcome, id: RunId, e: Event)
    requires e in Conclude(begun, cfg, name, index, fp, outcome, id).events
    ensures e.StageCompleted? ==> e.name == name && e.at == index
    ensures e.PaymentNeeded? ==> e.stage == name && outcome == Unpaid(e.reason)
  {
  }

  lemma {:induction false} DeliverNames(row: Row, cfg: Config, a: Action, e: Event)
    requires a.Deliver? && e in Step(row, cfg, a).events
    ensures e.StageCompleted? ==> About(row, a, e.name, e.at)
    ensures e.PaymentNeeded? ==> a.outcome == Unpaid(e.reason) && exists at :: About(row, a, e.stage, at)
  {
    match Decide(row, a.env, a.k, a.id)
    case Invoke(begun, name, index, fp) =>
      InvokeFacts(row, a.env, a.k, a.id);
      ConcludeNames(begun, cfg, name, index, fp, a.outcome, a.id, e);
      assert About(row, a, name, index);
    case _ =>
  }

  lemma {:induction false} TaskNames(row: Row, cfg: Config, a: Action, e: Event)
    requires a.TaskDone? && e in Step(row, cfg, a).events
    ensures e.StageCompleted? ==> About(row, a, e.name, e.at)
    ensures e.PaymentNeeded? ==> a.outcome == Unpaid(e.reason) && exists at :: About(row, a, e.stage, at)
  {
    var w := row.flow.awaiting.value;
    if a.env.registry(w.stage).Known? {
      ConcludeNames(if a.outcome.Fatal? then row else ClearAwaiting(row), cfg, w.stage, w.index, w.fp,
                    if a.outcome.Submitted? then Retryable("unexpected") else a.outcome, a.id, e);
      assert About(row, a, w.stage, w.index);
    }
  }

  /** A completion names the stage and its position, and what waits for payment the stage and the
      reason it gave. */
  lemma {:induction false} StagesAreNamed(row: Row, cfg: Config, a: Action, e: Event)
    requires e in Step(row, cfg, a).events
    ensures e.StageCompleted? ==> About(row, a, e.name, e.at)
    ensures e.PaymentNeeded? ==> (a.Deliver? || a.TaskDone?) && a.outcome == Unpaid(e.reason) && exists at :: About(row, a, e.stage, at)
  {
    match a
    case Deliver(env, k, outcome, id) => DeliverNames(row, cfg, a, e);
    case TaskDone(_, _, _, _) => TaskNames(row, cfg, a, e);
    case _ =>
  }

  // ----- retries, and saves

  /** A retry does something exactly for a failed row, unless its failure is that there is no
      source, and there still is none. */
  lemma {:induction false} RetryIff(row: Row, cfg: Config, hasSource: bool)
    ensures Step(row, cfg, Retry(hasSource)) != Quiet(row)
        <==> && row.status == Error
             && (hasSource || row.flow.notes.lastError == None
                 || (row.flow.notes.lastError.value.stage != "upload" && row.flow.notes.lastError.value.reason != "missing_raw_storage_key"))
  {
    if Retries(row, hasSource) {
      assert Step(row, cfg, Retry(hasSource)).row.status == Queued;
    }
  }

  /** An upload that was opened and never arrived is noted as such, and its recording is not retried
      before there is a source. */
  lemma {:induction false} AbandonedNeedsASource(row: Row, cfg: Config)
    requires row.status in {Created, Uploading}
    ensures var next := Step(Step(row, cfg, OpenUpload).row, cfg, GiveUpUpload);
            && next.row.status == Error && next.row.flow.notes.lastError == Some(Failure("upload", "upload_abandoned", true))
            && Step(next.row, cfg, Retry(false)) == Quiet(next.row) && Step(next.row, cfg, Retry(true)).row.status == Queued
  {
  }

  /** After a reprocess the row is nowhere: a re-drive starts at the first stage, and a failure from
      outside names none. What earlier runs left in fingerprints, declarations and notes stays. */
  lemma {:induction false} ReprocessStartsOver(row: Row, cfg: Config, id: RunId, id': RunId)
    requires row.status == Completed
    ensures var again := Step(row, cfg, ReprocessAll(id)).row;
            && CurrentStage(again.flow) == "pipeline"
            && (RedriveAllowed(again, cfg) ==> Step(again, cfg, Watchdog(id')).events == [StageDue(0)])
            && again.flow.checks == row.flow.checks && again.flow.notes == row.flow.notes
            && again.flow.awaiting == row.flow.awaiting && again.flow.redrives == row.flow.redrives
  {
  }

  /** Whatever changes a row or publishes something about it is a save, which the watchdog sees. */
  lemma {:induction false} ChangesAreSaved(row: Row, cfg: Config, a: Action)
    requires Step(row, cfg, a) != Quiet(row)
    ensures Step(row, cfg, a).row.writes > row.writes
  {
    match a
    case Deliver(env, k, outcome, id) =>
      if Decide(row, env, k, id).Invoke? { InvokeFacts(row, env, k, id); }
    case _ =>
  }

  // ----- troubles that pass

  /** What a retryable outcome is noted as. */
  function Complaint(row: Row, a: Action): Failure
    requires AsksAgain(row, a)
  {
    if a.Deliver? then
      if a.env.pipeline.Broken? then Failure("<pipeline_resolver>", "pipeline_resolver_error", true)
      else Failure(Called(row, a.env), a.outcome.reason, true)
    else Failure(row.flow.awaiting.value.stage, if a.outcome.Submitted? then "unexpected" else a.outcome.reason, true)
  }

  /** Every retryable outcome is noted on the row, whether it is tried again or not. */
  lemma {:induction false} AsksAreNoted(row: Row, cfg: Config, a: Action)
    requires AsksAgain(row, a)
    ensures Step(row, cfg, a).row.flow.notes.lastError == Some(Complaint(row, a))
  {
    if a.Deliver? && Decide(row, a.env, a.k, a.id).Invoke? { InvokeFacts(row, a.env, a.k, a.id); }
  }

  /** The note is gone, and the last error recovered from is the one it held, if it held one. */
  predicate Cleared(before: Notes, after: Notes) {
    after.lastError == None && after.recovered == if before.lastError.Some? then before.lastError else before.recovered
  }

  lemma {:induction false} ConcludeClears(begun: Row, cfg: Config, name: Name, index: int, fp: Option<Print>, outcome: Outcome, id: RunId)
    requires Completes(Conclude(begun, cfg, name, index, fp, outcome, id))
    ensures Cleared(begun.flow.notes, Conclude(begun, cfg, name, index, fp, outcome, id).row.flow.notes)
  {
  }

  /** A completion takes the note away, and keeps it as the last error recovered from; one without
      a note leaves that as it was. */
  lemma {:induction false} CompletionClearsTheNote(row: Row, cfg: Config, a: Action)
    requires Completes(Step(row, cfg, a))
    ensures Cleared(row.flow.notes, Step(row, cfg, a).row.flow.notes)
  {
    match a
    case Deliver(env, k, outcome, id) =>
      match Decide(row, env, k, id) {
        case Invoke(begun, name, index, fp) =>
          InvokeFacts(row, env, k, id);
          ConcludeClears(begun, cfg, name, index, fp, outcome, id);
        case _ =>
      }
    case _ =>
  }
}
