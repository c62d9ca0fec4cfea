/** The recording row the pipeline driver works on, and the events it publishes.

    Names, fingerprints, run ids and task ids are only ever compared for
    equality, so stage names are strings and the rest are numbers.
 */
module Recordings {
  import opened Results

  type Name = string
  type Print = nat
  type RunId = nat
  type TaskId = nat

  /** The context one stage hands to the next; `NoCtx` is the empty dictionary. */
  datatype Ctx = NoCtx | Ctx(key: nat)

  /** `Working(s)` is a status a stage declares for itself while it runs. */
  datatype Status =
    | Created | Uploading | Queued | Working(stage: string)
    | Completed | Error | NeedsPayment | Deleted

  /** Runs of a recording are numbered from 1. */
  type Attempt = n: nat | n > 0 witness 1

  /** `run_id` and `attempt`: what tells one run of a recording from the next. */
  datatype RunTag = RunTag(id: RunId, attempt: Attempt)

  datatype Event =
    | StageDue(index: int)
    | StageCompleted(name: Name, at: int, run: RunTag)
    | RunCompleted(run: RunTag)
    | RunFailed(stage: Name, reason: string, userRetryable: bool, run: RunTag)
    | PaymentNeeded(stage: Name, reason: string, run: RunTag)

  /** The progress cursor: names are authoritative, `last` (`completed_index`) is the position
      of the last completion, -1 before the first. */
  datatype Cursor = Cursor(completed: seq<Name>, last: int, ctx: Ctx)

  /** `stage` and `stage_index`, always written and cleared together. */
  datatype Place = Place(name: Name, index: int)

  /** The task a stage submitted, and the fingerprint of the input it was submitted for. */
  datatype Awaited = Awaited(task: TaskId, stage: Name, index: int, fp: Option<Print>)

  /** What each artifact was computed from, and the stages declared stale. */
  datatype Checks = Checks(prints: map<Name, Print>, invalidated: seq<Name>)

  datatype Failure = Failure(stage: Name, reason: string, userRetryable: bool)
  datatype Bill = Bill(stage: Name, reason: string)
  datatype Notes = Notes(lastError: Option<Failure>, recovered: Option<Failure>,
                         needsPayment: Option<Bill>, paidFor: Option<Bill>)

  /** `workflow_state`. `marked` says that its `pipeline` block is a non-empty dictionary,
      which is what `start_pipeline` takes for "already started". */
  datatype Workflow = Workflow(
    marked: bool,
    cursor: Cursor,
    place: Option<Place>,
    awaiting: Option<Awaited>,
    checks: Checks,
    run: Option<RunTag>,
    redrives: nat,
    notes: Notes)

  /** One locked row. `writes` stands for `updated_at`: every save moves it. */
  datatype Row = Row(status: Status, retryCount: nat, flow: Workflow, writes: nat)

  /** The statuses in which a delivered event changes nothing. */
  predicate Terminal(s: Status) {
    s.Completed? || s.Error? || s.NeedsPayment? || s.Deleted?
  }

  /** The statuses the watchdog and an operator's close act on. */
  predicate InPipeline(s: Status) {
    s.Queued? || s.Working?
  }

  const START_CURSOR := Cursor([], -1, NoCtx)
  const NO_CHECKS := Checks(map[], [])
  const BLANK_FLOW := Workflow(false, START_CURSOR, None, None, NO_CHECKS, None, 0, Notes(None, None, None, None))
  const NEW_ROW := Row(Created, 0, BLANK_FLOW, 0)
}
