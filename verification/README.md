# Verification model of stapel-recordings

A Dafny 4.11 project that models the parts of the recordings service that decide things, and proves
what they promise. `dafny verify dfyconfig.toml` checks all of it.

## What is modelled

**The pipeline driver** (`pipeline.py`, `checkpoints.py`, the watchdog command). One recording is one
row: status, retry count, the cursor of completed names, the awaited task, fingerprints, declarations of
staleness, run id and attempt, re-drive counter. `Recordings` has the row and its events, `Checkpoints`
the rules of staleness, `Pipeline` each transition as a function of the row, and `Driver` the class whose
methods update the row in place and are proved to do exactly that. A run is any sequence of transitions:
deliveries of any index, task results and failures, declarations, retries, payments, reprocesses, closes,
watchdog passes, uploads. Each reads its own world (resolver, stage registry, fingerprints), so everything
a host can change may change between any two steps. The theorems:

- `Completion`, `Reruns`: what `completed` guarantees, and what has to run again before it is reached.
- `Provenance`: an answer to an old input is never finalised as the answer to a new one.
- `Ledger`: every terminal status is announced exactly once.
- `RunIdentity`, `LateUploads`: a run is billed at most once, and exactly when it is not.
- `Standing`: status, notes and last public event of a stopped recording never disagree.
- `Blame`: which answers count, what a failure says, and when a trouble is over.
- `Progress`, `LostEvents`: which deliveries are ignored, what each success gains, how far `completed` is,
  what runs next after a stop, and what a lost event costs.
- `CursorOrder`: the cursor is a prefix of the pipeline, and public events come in its order.
- `Ladders`: bounds on retries and re-drives over whole runs, and that every stage has its own attempts.

**Packers and partitioners.** `Text`, `Windows`, `Packing` and `Passages` follow `build_windows` from
rendered utterances to windows; `PassageTexts` says how those read, `CoveredUtterances` and `WholeUtterances`
which utterances they hold (`LongWords` has the lines of the examples); `Utterances` the grouping of words; `Chunkers` and `SummaryInput` the two
overlapping chunkers; `Overlaps` is what they share. In each a loop over mutable buffers is proved to
compute a function, and the function to lose nothing.

**Verified multipart upload.** `Fingerprint` has part arithmetic and the bytes under the fingerprint,
`Manifest` the check against the store. SHA-256 is an unspecified function. Where a theorem needs it to be
injective it asks so only of the inputs compared.

**Bounded rates.** `Shares` (passcode lockout and unlock tokens) and `SummaryRepair` (backoff of repairs).

**Search and index.** `RankFusion` and `Rerank` for fused and re-ranked hits; `Embedding` (batches and
calls), `EmbeddingUnits` (what is embedded under which key), `EmbeddingIndex`, `SummaryIndex` and
`EmbeddingStore` (the rows, and `embed_recording` over them); `Resending` and `ShiftedWindows` for what one
pass leaves to the next.

No lemma is left to automatic induction: every inductive proof makes its own recursive calls.

## Where the code and its documentation part

The model follows the code; each of these is proved.

- The watchdog's documentation says it closes the gap between emit and consume
  (`management/commands/recordings_reconcile.py:5-8`). Right after a success it points at the stage that
  succeeded, and the driver drops that. `Progress.RedriveIgnoredIff` is the exact condition,
  `LostEvents.NoPassMovesIt` and `LostEvents.StrandedUntilTheCap` say that such a row stays where it is
  until the cap fails it, and `LostEvents.LostEventExample` reaches one from a new row.
- Finishing an upload asks for no status (`services.py:675-702`). Once the audio is out of the container the
  source key is cleared (`stages.py:672`), and an upload may finish on a completed row, which then runs again
  under the run already billed. `LateUploads.OneBillPerRunIff` says exactly which uploads cost that,
  `LateUploads.LateUploadExample` is a run that is billed twice, `Ledger.TerminalLedger` counts all of them,
  and `Standing.BillFitsIff` is the same for a bill that waits for payment.
- A handle survives a synchronous success (`pipeline.py:413-426` does not clear it, `pipeline.py:493`
  does). `CursorOrder.ResultKeepsOrderIff` says exactly which late results keep the cursor in order, and
  `CursorOrder.LateResultExample` shows one that does not.
- A declaration of staleness is taken for kept when its stage completes (`pipeline.py:1040-1041`), also by the
  answer to a task submitted before it. `Reruns.DeclaredHandlerRunsIff` says when the handler is really called.
- A reprocess is to run every stage again from the top (`pipeline.py:686-687`). It keeps the handle of the
  finished run (`pipeline.py:724-729`), so a late answer completes a stage of the new run without a call:
  `Reruns.ReprocessedHandlerRunsIff` says exactly which stages are called.
- `start_pipeline` takes any pipeline block for a start, also the one a declaration of staleness wrote
  (`Progress.DeclaringBeforeTheStart`).
- `build_windows` speaks of whole utterances in the overlap (`vector/chunking.py:120-122`). The code carries
  whole lines: `WholeUtterances.TailIsWholeIff` says when they are whole utterances,
  `WholeUtterances.PartOfAnUtteranceExample` is a transcript where they are not.
- A window is skipped when its hash is stored under any number of its anchor. Windows that shift along one
  utterance so lose a hash in a pass that succeeds: `ShiftedWindows.ShiftedWindowExample` has the two
  transcripts. `EmbeddingIndex.AgreesIff` says when a pass leaves every row current, in the segment scheme always.
- Unchanged texts are never sent again, says `MODULE.md:354`. `Resending.SecondPassIff` says when that is so,
  and `Resending.SegmentSecondPassIff` for segments: if the model is not pinned, or answers under the pinned
  name, or there was nothing to send in the first place.
- After a crash between batches only the remainder is embedded, says `vector/embedding.py:19-20`. The batches
  of the segments are stored together or not at all: `Resending.FaultSendsEverythingAgain`,
  `Resending.AnsweredBatchIsSentAgain`.
- Stale tail chunks of a summary are pruned only by a pass that embeds something (`MODULE.md:358` has no
  such condition): `SummaryIndex.TailIsGoneIff`. `EmbeddingStore.CutSummaryExample` has two summaries, the second
  the first one cut, after which the stale row is still there.

## Model

| member | source | states |
|---|---|---|
| Completion.DeliveryCompletesIff | pipeline.py:302-426 | a delivery completes a recording if and only if it is live, every stage of the pipeline resolved right now is completed and not stale, and the event is not a duplicate |
| Completion.CompletedMeansSettled | pipeline.py:341-357 | no other transition completes a recording, and completing it changes nothing but the run it may have to mint |
| Completion.RunHonours | pipeline.py:254-296 | along every run a declaration of staleness stands until the stage it names has completed again |
| Completion.InvalidationReaches | pipeline.py:286-290 | a declaration makes stale exactly the stage and those the pipeline lists after it, or the stage alone if it is not listed or nothing resolves |
| Completion.InvalidatedRunsAgain | pipeline.py:254-296 | after a stage is declared stale, whatever happens next, `completed` is entered only once that stage and every listed stage after it has completed again, be it by the answer to an older task |
| Provenance.RunTraced | pipeline.py:374-394 | along every run the recorded fingerprints agree with an independent log of which input each artifact was computed from |
| Provenance.FinalisedAnswersMatchInputs | pipeline.py:458-501 | when a recording is completed, no listed stage has an artifact computed from a known input other than the one its input reads as now |
| Provenance.LateAnswerToAnOldInput | pipeline.py:1054-1086 | a task result is filed under the input read at submission; while that input reads differently the stage is stale and the next delivery does not complete the recording |
| Provenance.RecomputeDropsTheTail | pipeline.py:241-251 | a stage that recomputes takes every later stage with it, clears the context, and keeps all fingerprints |
| Reruns.UncompletedRunsFirst | pipeline.py:208-251 | along every run a stage that is not completed at some point and is listed at a later completion has completed in between |
| Reruns.DroppedRunsAgain | pipeline.py:241-251 | after a stage had to recompute, `completed` is entered only once it and every listed stage after it has completed again |
| Reruns.LateAnswerRunsTheTailAgain | pipeline.py:458-501 | after an answer to an old input: if the delivery that completes the recording finds that input moved, the stage and every stage listed after it have completed again, whatever the input read as in between |
| Reruns.DeclaredHandlerRunsIff | pipeline.py:1036-1041 | the handler of a declared stage is really called before any later completion that lists it, if and only if no task of that stage was awaited at the declaration |
| Reruns.ReprocessedHandlerRunsIff | pipeline.py:677-753 | after a reprocess the handler of a stage is really called before any completion that lists it, if and only if the finished run left no task of that stage awaited |
| Progress.IgnoredIff | pipeline.py:321-347 | a delivery to a live recording changes and publishes nothing exactly when its index is not past the last completion and no completed stage before the first pending one is stale |
| Progress.PublishedEventsAreDue | pipeline.py:425-426 | every stage event the driver publishes, other than a re-drive, points just past the last completion and is not ignored when delivered next |
| Progress.FrontierGrows | pipeline.py:208-251 | over a fixed pipeline and inputs that hold still, the completed-and-not-stale prefix never shrinks under a delivery and strictly grows with each successful handler call |
| Progress.UndroppedDelivery | pipeline.py:341-372 | a delivery that is not ignored finalises if nothing is pending, and otherwise calls the first pending stage and publishes the event for the one after it |
| Progress.SynchronousRunCompletes | pipeline.py:302-426 | with synchronous handlers `completed` follows from any recorded state after at most one success per pending stage, also where a stage changes what the stages after it read |
| Progress.StoppedStageRunsNext | pipeline.py:556-588 | a stage that stops the run in its own delivery runs next after a retry or a payment, with cursor, fingerprints and run intact; only if it had recomputed must the stages before it read the same without the context |
| Progress.FirstPendingRunsNext | pipeline.py:625-674 | however a recording stopped, let back in it calls its first unsettled stage next, under its run and over its fingerprints |
| Progress.StoppedOutsideRunsNext | pipeline.py:429-553 | after a stop by a task result, a task failure, a close or the watchdog, the stage that was first unsettled then runs next, so the awaited stage exactly if it was that one |
| Progress.RedriveIgnoredIff | management/commands/recordings_reconcile.py:120-123 | a re-drive delivered next is ignored exactly when the place it points to is not past the last completion and nothing before the first pending stage is stale |
| LostEvents.RedriveAfterSuccessIsIgnored | management/commands/recordings_reconcile.py:109-123 | right after a stage success a re-drive is ignored, unless a completed stage has become stale |
| LostEvents.NoPassMovesIt | management/commands/recordings_reconcile.py:109-123 | any number of re-drives of a stranded row within the cap, each delivered, changes nothing but their count |
| LostEvents.StrandedUntilTheCap | pipeline.py:833-876 | and the pass after the last one the cap allows fails it |
| LostEvents.LostEventExample | management/commands/recordings_reconcile.py:5-11 | from a new row: the event for the second of two stages is lost, and no pass ever runs that stage |
| Progress.DeclaringBeforeTheStart | pipeline.py:140-168 | a first upload event starts a recording exactly if nothing wrote its pipeline block before; a declaration of staleness does |
| Ledger.StepLawful | pipeline.py:302-553 | every transition of a running recording publishes exactly what its new status calls for, under one run identity, and none moves a terminal row |
| Ledger.StepBalance | pipeline.py:759-777 | one step: events of a terminal kind published, against the ways its status is entered and left |
| Ledger.TerminalLedger | pipeline.py:893-956 | along every run: #completed = #reprocesses + #uploads finished on completed rows + [completed], #needs_payment = #payments + #uploads finished on unpaid rows + [needs_payment], #failed + #write-offs = #retries + #uploads finished on failed rows + [error] |
| Ledger.TerminalExits | pipeline.py:115-120 | a terminal status is left exactly by a reprocess, a payment, an allowed retry or an upload that finishes late, each of which queues the row |
| Standing.StandingIsExplained | pipeline.py:893-960 | along every run the status, the notes and the last event agree: a completed recording's last event names its run, one that waits for payment has exactly the bill announced, a failed one the failure announced or a write-off |
| Standing.RunningAccounts | pipeline.py:302-553 | every transition of a running recording that stops it publishes, last, the reason it writes down |
| Standing.StoppedAccounts | pipeline.py:115-120 | a stopped recording that is not let back in publishes nothing and keeps its notes and run |
| Standing.PaidBillWasAnnounced | pipeline.py:654-672 | what a payment settles is the bill that the recording's last event announced, under its run |
| Standing.BillFitsIff | pipeline.py:915-960 | a bill stands on the row exactly while it waits for payment, at every point of a run, if and only if no upload of the run finishes on a row that waits for payment |
| Blame.AnswerCountsIff | pipeline.py:447-456 | the answer to a task changes or publishes anything exactly if the row runs and waits for that very task |
| Blame.FailuresSayWhy | pipeline.py:893-912 | a failure names the stage it is about and its reason, and only a fatal outcome can say that the user cannot retry |
| Blame.StagesAreNamed | pipeline.py:413-426 | a completion names the stage called, or the one its task was submitted for, with its position; what waits for payment names that stage and the reason it gave |
| Blame.AsksAreNoted | pipeline.py:819-823 | every retryable outcome is noted on the row, whether it is tried again or not |
| Blame.CompletionClearsTheNote | pipeline.py:1119-1138 | a completion takes that note away and keeps it as the last error recovered from |
| Blame.RetryIff | pipeline.py:598-622 | a retry requeues exactly a failed row, unless its failure is that there is no source and there still is none |
| Blame.AbandonedNeedsASource | management/commands/recordings_reconcile.py:150-173 | an upload that was opened and never arrived is noted as such, and its recording is not retried before there is a source |
| Blame.ReprocessStartsOver | pipeline.py:722-753 | after a reprocess a re-drive starts at the first stage and a failure from outside names none; fingerprints, declarations, notes and the handle stay |
| Blame.ChangesAreSaved | pipeline.py:302-426 | whatever changes a row or publishes something about it is a save, which moves `updated_at` |
| RunIdentity.OneBillPerRun | pipeline.py:759-777 | however often a recording is retried, paid for, redelivered or reprocessed, no run id is announced as completed twice and id and attempt determine each other, as long as no upload finishes on a completed row |
| RunIdentity.RunBilled | pipeline.py:990-1005 | the identities in the log keep, at every step of every such run, the invariant that gives one bill per run |
| RunIdentity.RunIsKept | pipeline.py:654-674 | no transition but a reprocess changes the run of a started recording |
| RunIdentity.MintsTheGivenId | pipeline.py:990-1005 | a row gets the run it lacks under the id minted for it, and another one from a reprocess alone |
| RunIdentity.StartMarksAndMints | pipeline.py:140-168 | whenever a row is started, that marks it, mints its first run, announces the first stage and changes nothing else |
| RunIdentity.AttemptCountsReprocesses | pipeline.py:677-753 | the attempt number grows by exactly one per reprocess, and by nothing else |
| LateUploads.OneBillPerRunIff | services.py:664-705 | every continuation of a run without an upload on a completed row bills each run once, if and only if no upload has finished on a completed row so far |
| LateUploads.ExposedIsBilledAgain | services.py:675-702 | after such an upload, a retry or a payment and two deliveries suffice to bill the run again |
| LateUploads.BillsAreCounted | pipeline.py:759-777 | along every run a run id is announced as completed once for every time the row left `completed` under it, and once more while it stands there |
| LateUploads.LateUploadExample | services.py:675-702 | from a new row: a second upload and a re-drive announce one run as completed twice |
| CursorOrder.CursorIsAPrefix | pipeline.py:1019-1041 | for a fixed duplicate-free pipeline, with task results in turn, the completed list is always exactly the prefix of length `completed_index + 1` |
| CursorOrder.ResultKeepsOrderIff | pipeline.py:491-501 | a task result keeps that order if and only if it is for the first pending position or repeats the last one |
| CursorOrder.LateResultExample | pipeline.py:413-426 | a stage completed synchronously under a surviving handle: the late result moves `completed_index` back |
| CursorOrder.InvokedInOrder | pipeline.py:208-238 | a handler of an ordered row is called just past the last completion that still stands |
| CursorOrder.EventsComeInOrder | pipeline.py:413-426 | between drops `recording.stage_completed` comes in pipeline order, once per name |
| Ladders.RetryCountIsBounded | pipeline.py:819-830 | the saved retry count never exceeds MAX_STAGE_RETRIES |
| Ladders.RetriesBetweenResets | pipeline.py:819-830 | at most MAX_STAGE_RETRIES + 1 retryable outcomes fall between two resets |
| Ladders.ResetClearsTheCount | pipeline.py:413 | every completion, retry, payment and reprocess sets the retry count to 0 |
| Ladders.EveryStageHasItsOwnAttempts | pipeline.py:819-830 | after any of these the next MAX_STAGE_RETRIES retryable outcomes each queue the row again, and only the one after them fails it |
| Ladders.AwaitingSpendsNothing | pipeline.py:379-394 | submitting a task spends no attempt and leaves the row waiting for exactly that task |
| Ladders.RedrivesAreBounded | pipeline.py:833-890 | for a positive cap, `reconcile_redrives` never exceeds it |
| Ladders.PassesAreCounted | pipeline.py:833-876 | without a completion in between, the counter is the number of passes that selected the row, up to the cap, whatever else happens |
| Ladders.WatchdogGivesUp | management/commands/recordings_reconcile.py:70-131 | among any cap + 1 passes that select a recording with no completion in between the last at the latest fails it |
| Checkpoints.RenewedIsFresh | checkpoints.py:98-133 | a completion recorded under a fingerprint is fresh for exactly that one and an unknown one; no other stage moves |
| Checkpoints.DeclareInvalid | checkpoints.py:136-149 | after a declaration exactly the named stages became stale |
| Checkpoints.ClearInvalidation | checkpoints.py:152-165 | dropping a declaration touches no other stage |
| Pipeline.FirstUnsettled | pipeline.py:208-238 | the first stage that is pending or stale: all before it are completed and not stale |
| Pipeline.Doomed | pipeline.py:277-289 | a declaration reaches the stage it names and exactly those the pipeline lists after it |
| Pipeline.InvokeFacts | pipeline.py:341-378 | what a row looks like when a handler starts on it, whatever was delivered |
| Driver.Recording.RecordFingerprint | checkpoints.py:116-133 | records what produced an artifact, or forgets it when unknown |
| Driver.Recording.DeclareStale | checkpoints.py:136-149 | adds the names to the declared ones, once each |
| Driver.Recording.ClearDeclaration | checkpoints.py:152-165 | drops one name from the declared ones |
| Driver.Recording.NextPending | pipeline.py:208-238 | finds the first unsettled stage and drops the cursor from it if it was completed before |
| Driver.Recording.DropCursorFrom | pipeline.py:241-251 | the completed list loses the tail of the pipeline and nothing else |
| Driver.Recording.RecordCompletion | pipeline.py:1019-1041 | the cursor and checkpoints after a completion |
| Driver.Recording.MintIfMissing | pipeline.py:990-1005 | mints a run only if there is none, and returns the one the row keeps |
| Driver.Recording.GiveUp | pipeline.py:893-912 | the row fails and one failure event is published |
| Driver.Recording.RetryLater | pipeline.py:819-830 | requeues within the limit; the count past it is not saved and the row fails |
| Driver.Recording.Park | pipeline.py:915-960 | the row waits for payment and one event says so |
| Driver.Recording.FinalizeRun | pipeline.py:759-777 | the row completes and one event names its run |
| Driver.Recording.CompleteStage | pipeline.py:395-426 | the success tail: counters reset, completion recorded, two events published |
| Driver.Recording.EndHandler | pipeline.py:376-426 | each of the five ways a handler can end |
| Driver.Recording.Start | pipeline.py:140-168 | starts a row that is neither terminal nor started |
| Driver.Recording.Deliver | pipeline.py:302-372 | one delivered stage event: the row and the outbox that the theorems speak of |
| Driver.Recording.RunHandler | pipeline.py:359-426 | the part of a delivery from the registry lookup on |
| Driver.Recording.Resume | pipeline.py:429-501 | one task result |
| Driver.Recording.TaskFailed | pipeline.py:504-553 | one task failure, absorbed by the stage or not |
| Driver.Recording.Invalidate | pipeline.py:254-296 | the stages a declaration reaches become stale; nothing else moves |
| Driver.Recording.GiveUpUpload | management/commands/recordings_reconcile.py:145-173 | writes off exactly a row that is uploading, without an event |
| Driver.Recording.OpenUpload | services.py:514-516 | a created row is uploading |
| Driver.Recording.CloseUpload | services.py:675-702 | queues a row of any status that has no source key, for a session not finished before |
| Driver.Recording.Retry | pipeline.py:556-622 | requeues exactly a failed row whose retry is not refused |
| Driver.Recording.Pay | pipeline.py:625-674 | requeues exactly a row that waits for payment |
| Driver.Recording.ReprocessAll | pipeline.py:677-753 | requeues exactly a completed row under the next run |
| Driver.Recording.Close | pipeline.py:792-816 | fails exactly a row that is in the pipeline |
| Driver.Recording.NoteRedrive | pipeline.py:833-876 | counts a re-drive, or fails the row once the cap is spent |
| Driver.RedriveRow | management/commands/recordings_reconcile.py:109-124 | one selected row of a watchdog pass |
| Driver.ReconcileOnce | management/commands/recordings_reconcile.py:106-131 | one watchdog pass: every selected row is re-driven or failed by its own counter alone, and the count returned is that of the re-driven |
| Windows.Clamp | vector/chunking.py:131-133 | limits are brought into range, and left alone if they are |
| Windows.RenderKeepsTheWords | vector/chunking.py:66-87 | a rendered line is its head and every word of its text |
| Windows.RenderReads | vector/chunking.py:77-87 | an utterance that says something reads as its time and speaker in brackets and its words, one space apart |
| Windows.TimestampTells | vector/chunking.py:66-74 | read as hours, minutes and seconds, a timestamp is the whole seconds of the time, 0 before the start, with hours only where there are some |
| Windows.BiteKeepsTheLine | vector/chunking.py:90-106 | one cut of a long line loses nothing but white space |
| Windows.CutFallsOnSpace | vector/chunking.py:90-106 | a line is cut at the last space it can be cut at, and inside a word only where there is none |
| Windows.PiecesKeepTheLine | vector/chunking.py:90-106 | a long line is cut into non-empty pieces within the ceiling that lose nothing but white space |
| Windows.SplitOversized | vector/chunking.py:90-106 | the loop computes those pieces |
| Passages.OrderedIsStable | vector/chunking.py:135-138 | the transcript order is ascending, loses nothing that speaks, and keeps ties in order |
| Passages.LinesKeepTheTranscript | vector/chunking.py:179-201 | the lines fit the ceiling, are not empty, and are the rendered utterances, white space aside |
| Packing.WindowsKeepRule | vector/chunking.py:182-200 | every window fits the ceiling; it took each line after its first while below the target and with room for it, and it ends with the last line, or reached its target, or could not take the next |
| Packing.WindowsAreFilled | vector/chunking.py:182-200 | every window but the last reached its target or could not take the line after it, also one that ends with the last line |
| Packing.WindowsReopen | vector/chunking.py:168-200 | each window after the first starts with the longest tail of the one before that fits the overlap budget, or afresh exactly where that tail would shut out the line that closed the one before |
| Packing.IsLastIff | vector/chunking.py:182-200 | a window is the last one exactly if the lines end with it and it is below its target or hands nothing on |
| Packing.WindowsCover | vector/chunking.py:147-178 | windows are contiguous, start strictly later, end no earlier, leave no gap, cover every line, and share at most the overlap budget |
| Packing.NothingIsLost | vector/chunking.py:147-178 | without what each shares with the one before, the windows are every line once, in order |
| Passages.Flush | vector/chunking.py:147-178 | closing a window emits it and re-opens with the longest whole-line tail within the budget |
| Passages.BuildWindows | vector/chunking.py:109-201 | the loop over mutable buffers computes the packing, whatever the utterances and limits |
| Passages.PassagesKeepTheTranscript | vector/chunking.py:109-201 | every text fits the ceiling, and dropping overlap and white space gives back every rendered utterance in transcript order |
| PassageTexts.WindowsRead | vector/chunking.py:158-167 | each window reads as its lines, in order and one newline apart, starts with its first utterance and ends with its latest, and is numbered by its place |
| PassageTexts.TextsAreTheTranscript | vector/chunking.py:109-200 | the window texts one after the other, each without the start that repeats the end of the one before, are the rendered utterances in transcript order, white space aside; what is repeated is within the overlap budget |
| CoveredUtterances.EveryUtteranceIsCovered | vector/chunking.py:124-127 | each window covers exactly a run of utterances, by id and in order; the runs never go back, leave none out and reach the last, so first appearances come in transcript order |
| WholeUtterances.BoundaryIff | vector/chunking.py:147-178 | with distinct ids the lines themselves show between which of them one utterance ends and the next starts |
| WholeUtterances.TailIsWholeIff | vector/chunking.py:162-178 | the overlap handed on is made of whole utterances if and only if it is empty, or starts and ends at such a place |
| WholeUtterances.ShortUtterancesStayWhole | vector/chunking.py:120-122 | so it is whenever no rendered utterance is longer than a window |
| WholeUtterances.PartOfAnUtteranceExample | vector/chunking.py:162-178 | a transcript whose second window is an overlap that holds part of an utterance only |
| Fingerprint.TotalPartsFor | chunked.py:122-126 | the least number of parts, at least one, that hold the file |
| Fingerprint.ExpectedPartSize | chunked.py:129-135 | defined exactly for parts 1..total, full for every part but the last |
| Fingerprint.SessionFreezesTheSameCount | services.py:472 | the count the session stores is the same as the one the fingerprint uses |
| Fingerprint.PartSizesAddUp | chunked.py:129-135 | expected part sizes sum to the file size |
| Fingerprint.AllSlicesJoin | chunked.py:148-156 | the slices that are hashed join to the file |
| Fingerprint.PreimageInjective | chunked.py:138-145 | the hashed bytes determine size, part size and every digest |
| Fingerprint.PreimageExample | chunked.py:138-145 | the header of 12 bytes in parts of 5, byte by byte |
| Fingerprint.FingerprintBytes | chunked.py:148-156 | the loop hashes exactly the expected slices |
| Manifest.GoodParts | chunked.py:187-203 | the stored parts of the expected size, the last of each number |
| Manifest.GoodHasEveryFit | chunked.py:187-203 | a number is good if any stored part of it fits |
| Manifest.LastFitIsKept | chunked.py:187-203 | of several stored parts that fit one number, the last listed is kept |
| Manifest.VerifyManifest | chunked.py:346-385 | missing parts, then the first contradicted digest, then the whole fingerprint; otherwise the store's own entries in order |
| Manifest.AcceptedPartsAgree | chunked.py:365-385 | an accepted upload completes with the kept parts, in order, none of whose reported digests differs from the declared one |
| Manifest.RefusedPartIff | chunked.py:366-369 | with every part there, part n is refused if and only if it is the first whose reported digest is not the declared one |
| Manifest.StoredFileIsTheClientsFile | chunked.py:346-385 | when the check passes and the store reports every digest, the stored parts joined in order are any client file with that fingerprint |
| Manifest.HonestUploadPasses | chunked.py:346-385 | the check never refuses the client's own file |
| Manifest.ManifestOf | chunked.py:266-280 | uploaded and missing parts partition 1..total, in order |
| Utterances.GroupsPartition | stages.py:2512-2538 | groups are consecutive runs of words covering every word once, one speaker each; none goes on past 30 seconds, 500 characters or a break it is long enough for, and none ends for another reason |
| Utterances.DroppedIff | stages.py:2500-2510 | a group is dropped exactly when every word in it is blank |
| Utterances.EveryWordOnce | stages.py:2512-2538 | every word that says something is in exactly one utterance, and no word in two |
| Utterances.UtterancesSayEveryWord | stages.py:2500-2538 | the texts of the utterances, one after the other, are the texts of all words, white space aside |
| Utterances.WordStands | stages.py:2512-2538 | within an utterance each word stands where those before it end, one space apart |
| Utterances.UtterancesAreRuns | stages.py:2500-2538 | each utterance is a run of one speaker from its first word's start to its last word's end, and they come in word order |
| Utterances.UtterancesFromWords | stages.py:2482-2538 | the loop over mutable buffers computes those utterances |
| Shares.GuessRate | shares.py:309-359 | the n-th evaluated wrong passcode comes no earlier than floor(n / max_attempts) lockouts after the first, and a positive cap bounds their number |
| Shares.GuessesArePaced | shares.py:348-359 | the same from any count, as an invariant of every run |
| Shares.CapHolds | shares.py:341-345 | past the cap nothing unlocks, the right passcode included, until a new one is set |
| Shares.OpenIff | shares.py:263-273 | whatever happened before: a revoked or expired share, or one whose recording is gone, unlocks for nobody and counts no guess; any other unlocks exactly for its passcode, if it has one, while it is neither locked nor capped |
| Shares.NewPasscodeOpens | shares.py:215-232 | a new passcode is the one that opens the share, at once; an empty one leaves it open |
| Shares.EveryBurstLocks | shares.py:348-359 | from a clean count every wrong passcode counts one, the share locks exactly when max_attempts have come together, for the lockout, and the cap is reached exactly at its count |
| Shares.TokenVerifiesIff | shares.py:289-306 | a token verifies after a run exactly if nothing was rotated or revoked, it is this share's, and it has not expired |
| Shares.OldTokensStayDead | shares.py:215-242 | no later change brings an older token back |
| Shares.Share.constructor | shares.py:191-212 | a new share: nothing counted, nothing locked, first generation |
| Shares.Share.Unlock | shares.py:309-338 | the whole new state, and exactly when each answer is given |
| Shares.Share.RegisterFailure | shares.py:348-359 | counts, and locks at every multiple of max_attempts |
| Shares.Share.SetPasscode | shares.py:215-232 | new passcode, new generation, clean count |
| Shares.Share.Revoke | shares.py:235-242 | revoked, new generation |
| SummaryRepair.DelayDoubles | summary_repair.py:81-84 | the first delay is the one set, and each is twice the one before, up to the ceiling |
| SummaryRepair.AsksKeepTheBackoff | summary_repair.py:238-307 | while a marker lives its asks keep to the backoff and the deadline, and `since` never moves |
| SummaryRepair.RepairPace | summary_repair.py:124-161 | the k-th ask comes no earlier than the first k delays after the first mark and within the deadline, so their number is bounded |
| SummaryRepair.AsksIff | summary_repair.py:200-204 | a recording is asked about exactly once the delay has passed since the last ask, within the deadline, unless an answer said that asking will not help or a visit past the deadline wrote it off |
| SummaryRepair.SilencedForGood | summary_repair.py:200-204 | an exhausted or given-up marker is never asked about again, marked again or not |
| SummaryRepair.TickRules | summary_repair.py:260-300 | a tick starts at most its budget, counts what it starts and what it writes off, touches each row at most once, and reaches every row unless the budget ran out |
| SummaryRepair.Owed.MarkPending | summary_repair.py:124-161 | a second mark keeps since, attempts and next_at; a skipped summary is never owed |
| SummaryRepair.Owed.ClearPending | summary_repair.py:164-171 | drops the marker and says whether there was one |
| SummaryRepair.Owed.NoteRepairFailure | summary_repair.py:174-197 | gives up exactly on a failure that is not the provider's |
| SummaryRepair.RepairDue | summary_repair.py:238-307 | nothing while a repair is in flight, at most one start after a failed one |
| RankFusion.ReciprocalRankFusion | vector/search.py:103-132 | each key ranked by some non-zero arm exactly once, sorted, with the sum of weight / (k + best rank) |
| RankFusion.ShareOfRank | vector/search.py:118-126 | an arm gives weight / (k + rank), with weight 1 where none is set, and a weight of 0 ranks nothing |
| RankFusion.LexLeqIff | vector/search.py:132 | ties go by text: a prefix comes first, otherwise the first difference decides |
| RankFusion.BetterRanksNeverScoreLess | vector/search.py:103-132 | with non-negative weights, a key ranked at least as well wherever another is ranked never scores less |
| Rerank.RerankOrder | vector/search.py:313-341 | a reply is accepted exactly if every entry is well-formed, in range and not repeated; then it is kept in its order |
| Rerank.ApplyRerank | vector/search.py:259-356 | unchanged when disabled, empty or rejected under FAIL_OPEN; otherwise the scored head, the unscored head, the tail |
| Rerank.RerankPlaces | vector/search.py:307-310 | first the scored hits in the order of the reply with its scores, then the other ones of the head untouched in their old order, then the tail |
| Rerank.RerankPermutes | vector/search.py:304-310 | an accepted reply never loses, repeats or invents a hit |
| Embedding.Batched | vector/embedding.py:46-72 | both loops compute the batches |
| Embedding.BatchesKeepTheTexts | vector/embedding.py:46-72 | batching loses and reorders nothing, keeps both bounds, and closes a batch only on a text that does not fit |
| Embedding.BatchesKeepBounds | vector/embedding.py:46-72 | no batch passes the size, or the budget of characters unless it is a single text, and each is closed only where the next text has no room |
| Embedding.EmbedTexts | vector/embedding.py:103-183 | the first fault, or all vectors; at least one call for any text |
| Embedding.GoodReplyIff | vector/embedding.py:160-181 | a reply is good exactly if it has one vector a text and contradicts the configured width neither by what it says nor, where it says nothing, by its first vector |
| Embedding.EveryTextGetsItsVector | vector/embedding.py:135-183 | however the texts fall into batches, vector i encodes text i |
| Embedding.OneVectorPerText | vector/embedding.py:167-182 | a successful answer has one vector a text |
| Embedding.TheReportedModelWins | vector/embedding.py:181-183 | the answer names the model that answered, not the one configured |
| EmbeddingUnits.CountAnchors | vector/embedding.py:321-334 | the loop over a counter per anchor computes the units |
| EmbeddingUnits.WindowUnitsAreDistinct | vector/embedding.py:321-334 | units on one anchor are numbered apart, so none overwrites another |
| EmbeddingUnits.WindowUnitAt | vector/embedding.py:320-334 | unit i is window i: its anchor, its text, how many utterances it covers, and as its number how many windows before it have the same anchor |
| EmbeddingUnits.TextUnitsKeepOrder | vector/embedding.py:305-311 | in the segment scheme every segment with a text is one unit of span 1, in transcript order, and no other is any |
| EmbeddingUnits.SegmentUnits | vector/embedding.py:294-334 | the units of either scheme |
| EmbeddingUnits.UnitsAreDistinct | vector/embedding.py:294-334 | in both schemes keys are pairwise distinct and no segment or window is passed over |
| EmbeddingIndex.KnownIff | vector/embedding.py:286-291 | a hash is known exactly if some row of the segment and scheme holds it, under the pinned model if one is |
| EmbeddingIndex.CurrentIff | vector/embedding.py:371-407 | after a pass a unit's own row is current exactly if the unit was due or its row was current before |
| EmbeddingIndex.PassStores | vector/embedding.py:389-406 | what a pass stores for a due unit: the hash of its text, how many utterances it spans, and the text itself unless the segment holds it |
| EmbeddingIndex.AgreesIff | vector/embedding.py:371-407 | a pass leaves every unit current if and only if every unit it may skip has its own row current already |
| EmbeddingIndex.SegmentsAgree | vector/embedding.py:371-407 | in the segment scheme, under a pinned model that answers under its name, that is always so |
| EmbeddingIndex.ForcedPassAgrees | vector/embedding.py:347-354 | a forced pass leaves every unit current, in any scheme |
| EmbeddingIndex.WhatAPassAdds | vector/embedding.py:218-243 | a pass removes no row and changes only its due units' keys under the answering model |
| EmbeddingIndex.CurrentAsksNothing | vector/embedding.py:371-407 | in any scheme, current rows leave an unforced pass nothing to do |
| Resending.SecondPassAsksNothing | vector/embedding.py:371-407 | over unchanged segments a second pass makes no call and leaves the rows alone, where the model is not pinned or answers under its name |
| Resending.SegmentSecondPassIff | vector/embedding.py:286-291 | in the segment scheme the second pass has nothing to send if and only if the model is not pinned, answers under its name, or every segment was known before the first |
| Resending.SecondPassIff | vector/embedding.py:371-407 | in any scheme: if and only if every unit keeps a row that makes it known and that no embedded unit overwrites, or an embedded unit stores its hash where it is looked for |
| Resending.RenamedModelTellsNothing | vector/embedding.py:286-291 | a pinned model that answers under another name makes no unit known that was not |
| Resending.FaultSendsEverythingAgain | vector/embedding.py:381-407 | after a fault in any batch the next pass has the same texts to send, those already answered among them; there are such texts if and only if the first batch was answered |
| Resending.AnsweredBatchIsSentAgain | vector/embedding.py:135-183 | two texts in a batch each: the one that was answered is sent again |
| Resending.ShiftedWindowIsLost | vector/embedding.py:371-407 | a unit known by another unit's row alone is lost by a pass that embeds the other one |
| ShiftedWindows.ShiftedWindowExample | vector/embedding.py:294-334 | two versions of a transcript whose windows shift along one utterance: both passes succeed, and the second loses the hash of a window |
| EmbeddingIndex.PassIsFaithful | vector/embedding.py:389-406 | every row keeps holding the encoding of a text with the row's hash |
| EmbeddingIndex.CurrentRowsHoldTheEncoding | vector/embedding.py:41-43 | a current row holds the encoding of its unit's text, unless two texts share a hash |
| SummaryIndex.ChunksAgree | vector/embedding.py:409-442 | every chunk of the summary is current after a pass under a pinned model |
| SummaryIndex.TailIsGoneIff | vector/embedding.py:418-442 | rows of a longer old summary are gone after a pass if and only if some chunk was due, or there were none |
| SummaryIndex.CutSummaryKeepsItsTail | vector/embedding.py:418-442 | a summary and then its first k chunks: the second pass sends nothing and leaves every row, also those of the chunks that are gone |
| EmbeddingStore.CutSummaryExample | vector/embedding.py:418-442 | such a pair of summaries: two chunks, then the first of them |
| SummaryIndex.SecondChunkPassAsksNothing | vector/embedding.py:409-442 | a second pass over the same summary makes no call |
| SummaryIndex.ChunkPassIsFaithful | vector/embedding.py:418-442 | every chunk row keeps holding the encoding of a text with the row's hash |
| EmbeddingStore.Store.EmbedSegments | vector/embedding.py:371-407 | the segment half computes the pass; no call exactly if it embedded nothing |
| EmbeddingStore.Store.EmbedSummary | vector/embedding.py:409-442 | the summary half likewise |
| EmbeddingStore.Store.EmbedRecording | vector/embedding.py:337-452 | both halves; a segment fault leaves the store alone, a summary fault keeps the segments; no call exactly if nothing was embedded |
| EmbeddingStore.IndexAgreesWithTheTranscript | vector/embedding.py:371-407 | after an embedding of segments every segment that has a text has a row with that text's hash |
| EmbeddingStore.RedeliveryEmbedsNothing | vector/embedding.py:17-21 | redelivered over unchanged texts, an embedding of segments and summary finds nothing to do |
| Chunkers.ChunkText | vector/embedding.py:75-97 | the loop computes the chunks and stops |
| Chunkers.ChunkTextIsLossless | vector/embedding.py:75-97 | chunks fit, overlap as asked, and the first followed by the others minus their overlap is the stripped text |
| SummaryInput.BuildSummaryInput | transcript_schema.py:361-395 | the loop computes the chunks of the transcript |
| SummaryInput.ChunkReads | transcript_schema.py:374-386 | each chunk has one line a segment of its range, in order, and the anchors of those segments |
| SummaryInput.SummaryInputIsLossless | transcript_schema.py:388-395 | contiguous, strictly advancing, without a gap; removing what each shares with the one before gives back the segments in order |
| SummaryInput.SummaryInputKeepsRules | transcript_schema.py:388-393 | a chunk with more than one segment of its own fits the limit, 30 characters a segment included; it is closed only by one that does not fit; and it starts with the overlap asked for |
| SummaryInput.AnchorsPointToTheLast | transcript_schema.py:376-386 | an id points to the start of its last segment in the chunk |

## Left out

- Transactions, row locks, ORM, outbox relay and comm transport: every transition is one atomic step and an event is an append to a list. The watchdog's save over an unlocked queryset row and the unlocked checks before `_register_failed_unlock` are atomic here too.
- What stages do: a handler is its outcome, with the fingerprint read before it ran. A stage's working status is taken to be none of the driver's own statuses.
- Contents of the context, error details, timestamps, latency, the snapshot of the previous run, and log lines: nothing that is modelled depends on them.
- Setting `deleted` and host edits of rows: `deleted` is absorbing, and no step enters it.
- The rest of an upload's plumbing: whether the source key is set and the session finished is told to the model when an upload finishes, and so is whether a retry has a source.
- Which rows a watchdog pass selects (age, batch size, order): a pass is given its rows, all in the pipeline.
- Signing, password derivation and digests of link tokens: a passcode hash stands for the passcode it matches, and only tokens the service signed exist.
- Hexadecimal and base64 forms of digests, the parsing of declared parts, `mint_part_urls` and `lookup`: digests are 32 bytes throughout.
- Which characters are white space is a table taken over from Python (`Text.IsSpace`); nothing is proved about the table itself.
- Floating point: times and durations are integers or reals, scores are reals, and RRF's k is not negative.
- Python's `sorted` is a stable insertion sort, and its `str` order of keys the order of their characters.
- The search arms, snippets, `vector/qa.py`, and how texts are fetched for a rerank: they depend on Postgres and on providers.
- `recompute_qa`, `run_qa`, rendering of transcripts, erasure, duplicates, metadata: single-branch facts, or input and output.
- Embedding rows of one recording only; `prune_segment_scheme`, which a command calls before a rebuild, is a plain deletion.
- Utterances.GroupsPartition: the ceilings hold until the last word of a group, as in the code, which checks them before it appends; the last word may pass either.
- Packing.WindowsCover: ends do not decrease but need not advance, because a window may consist of carried lines only.
- Driver.ReconcileOnce: rows that an age filter would leave out are simply not given to it, and log warnings are not modelled.
