/** The driver itself: a row updated in place, one transition at a time, under its lock. Every
    method is proved to leave the row and the outbox as module Pipeline says. */
module Driver {
  import opened Results
  import opened Recordings
  import opened Checkpoints
  import opened Pipeline

  class Recording {
    var status: Status
    var retryCount: nat
    var flow: Workflow
    var writes: nat
    var outbox: seq<Event>

    function View(): Row
      reads this
    {
      Row(status, retryCount, flow, writes)
    }

    constructor ()
      ensures View() == NEW_ROW && outbox == []
    {
      status, retryCount, flow, writes, outbox := Created, 0, BLANK_FLOW, 0, [];
    }

    // ----- checkpoints

    method RecordFingerprint(name: Name, fp: Option<Print>)
      modifies this`flow
      ensures flow == old(flow).(marked := true, checks := RecordPrint(old(flow).checks, name, fp))
    {
      var prints := flow.checks.prints;
      if fp.Some? {
        prints := prints[name := fp.value];
      } else {
        prints := prints - {name};
      }
      flow := flow.(marked := true, checks := flow.checks.(prints := prints));
    }

    method DeclareStale(names: seq<Name>)
      modifies this`flow
      ensures flow == old(flow).(marked := true, checks := DeclareInvalid(old(flow).checks, names))
    {
      var listed := ListAll(flow.checks.invalidated, names);
      flow := flow.(marked := true, checks := flow.checks.(invalidated := listed));
    }

    method ClearDeclaration(name: Name)
      modifies this`flow
      ensures flow == old(flow).(marked := true, checks := ClearInvalidation(old(flow).checks, name))
    {
      var listed := KeepAllBut(flow.checks.invalidated, [name]);
      flow := flow.(marked := true, checks := flow.checks.(invalidated := listed));
    }

    // ----- the cursor

    method NextPending(env: Env, p: seq<Name>) returns (index: nat, recompute: bool)
      modifies this`flow
      ensures index == FirstUnsettled(old(flow), env, p)
      ensures recompute == (index < |p| && p[index] in old(flow).cursor.completed)
      ensures View() == if recompute then Rewound(old(View()), p, index) else old(View())
    {
      index, recompute := 0, false;
      while index < |p|
        invariant index <= |p| && flow == old(flow) && !recompute
        invariant FirstUnsettled(flow, env, p, index) == FirstUnsettled(flow, env, p)
      {
        if p[index] !in flow.cursor.completed {
          return;
        }
        if Stale(flow.checks, p[index], env.read(p[index], flow.cursor.ctx)) {
          DropCursorFrom(p, index);
          recompute := true;
          return;
        }
        index := index + 1;
      }
    }

    method DropCursorFrom(p: seq<Name>, index: nat)
      requires index <= |p|
      modifies this`flow
      ensures View() == Rewound(old(View()), p, index)
    {
      var kept := KeepAllBut(flow.cursor.completed, p[index..]);
      flow := flow.(marked := true, cursor := Cursor(kept, index - 1, NoCtx));
    }

    /** The context is stored first, then the completion and what produced it. */
    method RecordCompletion(index: int, name: Name, fp: Option<Print>, ctx: Ctx)
      modifies this`flow
      ensures flow == old(flow).(marked := true, cursor := Advance(old(flow).cursor, index, name, ctx),
                                 checks := Renewed(old(flow).checks, name, fp))
    {
      var done := flow.cursor.completed;
      if name !in done {
        done := done + [name];
      }
      flow := flow.(marked := true, cursor := Cursor(done, index, ctx));
      RecordFingerprint(name, fp);
      ClearDeclaration(name);
    }

    method MintIfMissing(id: RunId) returns (tag: RunTag)
      modifies this`flow
      ensures flow == EnsureRun(old(flow), id) && tag == Tag(old(flow), id) && flow.run == Some(tag)
    {
      if flow.run == None {
        flow := flow.(marked := true, run := Some(RunTag(id, 1)));
      }
      tag := flow.run.value;
    }

    // ----- ways a transition ends

    method Save()
      modifies this`writes
      ensures writes == old(writes) + 1
    {
      writes := writes + 1;
    }

    method GiveUp(stage: Name, reason: string, userRetryable: bool, id: RunId, alreadyErrored: bool)
      modifies this
      ensures var next := if alreadyErrored then Fail(old(View()), stage, reason, userRetryable, id)
                          else Dlq(old(View()), stage, reason, userRetryable, id);
              View() == next.row && outbox == old(outbox) + next.events
    {
      status := Error;
      if !alreadyErrored {
        flow := SetLastError(flow, stage, reason, userRetryable);
      }
      var tag := MintIfMissing(id);
      Save();
      outbox := outbox + [RunFailed(stage, reason, userRetryable, tag)];
    }

    method RetryLater(cfg: Config, stage: Name, reason: string, id: RunId)
      modifies this
      ensures var next := HandleRetry(old(View()), cfg, stage, reason, id);
              View() == next.row && outbox == old(outbox) + next.events
    {
      var count := retryCount + 1;
      flow := SetLastError(flow, stage, reason, true);
      if count > cfg.maxRetries {
        GiveUp(stage, "retries_exhausted: " + reason, true, id, true);
        return;
      }
      status := Queued;
      retryCount := count;
      Save();
    }

    method Park(stage: Name, reason: string, id: RunId)
      modifies this
      ensures var next := ParkForPayment(old(View()), stage, reason, id);
              View() == next.row && outbox == old(outbox) + next.events
    {
      status := NeedsPayment;
      flow := flow.(notes := flow.notes.(needsPayment := Some(Bill(stage, reason))));
      var tag := MintIfMissing(id);
      Save();
      outbox := outbox + [PaymentNeeded(stage, reason, tag)];
    }

    method FinalizeRun(id: RunId)
      modifies this
      ensures var next := Finalize(old(View()), id);
              View() == next.row && outbox == old(outbox) + next.events
    {
      status := Completed;
      var tag := MintIfMissing(id);
      Save();
      outbox := outbox + [RunCompleted(tag)];
    }

    method CompleteStage(name: Name, index: int, fp: Option<Print>, ctx: Ctx, id: RunId)
      modifies this
      ensures var next := Succeed(old(View()), name, index, fp, ctx, id);
              View() == next.row && outbox == old(outbox) + next.events
    {
      retryCount := 0;
      flow := flow.(redrives := 0);
      flow := flow.(notes := ClearLastError(flow.notes));
      RecordCompletion(index, name, fp, ctx);
      var tag := MintIfMissing(id);
      Save();
      outbox := outbox + [StageCompleted(name, index, tag)];
      outbox := outbox + [StageDue(index + 1)];
    }

    method EndHandler(cfg: Config, name: Name, index: int, fp: Option<Print>, outcome: Outcome, id: RunId)
      modifies this
      ensures var next := Conclude(old(View()), cfg, name, index, fp, outcome, id);
              View() == next.row && outbox == old(outbox) + next.events
    {
      match outcome
      case Done(ctx) => CompleteStage(name, index, fp, ctx, id);
      case Submitted(task) =>
        flow := SetCurrent(flow, index, name).(awaiting := Some(Awaited(task, name, index, fp)));
        Save();
      case Unpaid(reason) => Park(name, reason, id);
      case Fatal(reason, user) => GiveUp(name, reason, user, id, false);
      case Retryable(reason) => RetryLater(cfg, name, reason, id);
    }

    // ----- transitions

    method Start(id: RunId)
      modifies this
      ensures var next := StartPipeline(old(View()), id);
              View() == next.row && outbox == old(outbox) + next.events
    {
      if Terminal(status) || flow.marked {
        return;
      }
      flow := BLANK_FLOW.(marked := true, run := Some(RunTag(id, 1)), notes := flow.notes);
      Save();
      outbox := outbox + [StageDue(0)];
    }

    /** The handler's end and the world it ran in are given; everything else is decided here. */
    method Deliver(cfg: Config, env: Env, k: int, outcome: Outcome, id: RunId)
      modifies this
      ensures var next := RunStage(old(View()), cfg, env, k, outcome, id);
              View() == next.row && outbox == old(outbox) + next.events
    {
      if Terminal(status) {
        return;
      }
      if env.pipeline.Broken? {
        RetryLater(cfg, "<pipeline_resolver>", "pipeline_resolver_error", id);
        return;
      }
      var p := env.pipeline.names;
      if p == [] {
        GiveUp("<pipeline>", "empty_pipeline", true, id, false);
        return;
      }
      var index, recompute := NextPending(env, p);
      if !recompute && k <= flow.cursor.last {
        return;
      }
      if index == |p| {
        FinalizeRun(id);
        return;
      }
      RunHandler(cfg, env, p[index], index, outcome, id);
    }

    method RunHandler(cfg: Config, env: Env, name: Name, index: nat, outcome: Outcome, id: RunId)
      modifies this
      ensures var next := match Begin(old(View()), env, name, index, id)
                          case Invoke(begun, _, _, fp) => Conclude(begun, cfg, name, index, fp, outcome, id)
                          case _ => Dlq(old(View()), name, "unresolvable_stage", true, id);
              View() == next.row && outbox == old(outbox) + next.events
    {
      var entry := env.registry(name);
      if entry.Unknown? {
        GiveUp(name, "unresolvable_stage", true, id, false);
        return;
      }
      flow := SetCurrent(flow, index, name);
      var _ := MintIfMissing(id);
      if entry.status.Some? {
        status := Working(entry.status.value);
      }
      Save();
      var fp := env.read(name, flow.cursor.ctx);
      EndHandler(cfg, name, index, fp, outcome, id);
    }

    method Resume(cfg: Config, env: Env, task: TaskId, outcome: Outcome, id: RunId)
      modifies this
      ensures var next := ResumeStage(old(View()), cfg, env, task, outcome, id);
              View() == next.row && outbox == old(outbox) + next.events
    {
      if Terminal(status) || flow.awaiting == None || flow.awaiting.value.task != task {
        return;
      }
      var a := flow.awaiting.value;
      if env.registry(a.stage).Unknown? {
        GiveUp(a.stage, "unresolvable_stage", true, id, false);
        return;
      }
      if !outcome.Fatal? {
        flow := flow.(awaiting := None);
      }
      EndHandler(cfg, a.stage, a.index, a.fp, if outcome.Submitted? then Retryable("unexpected") else outcome, id);
    }

    method TaskFailed(env: Env, task: TaskId, absorbed: Option<Ctx>, id: RunId)
      modifies this
      ensures var next := FailStage(old(View()), env, task, absorbed, id);
              View() == next.row && outbox == old(outbox) + next.events
    {
      if Terminal(status) || flow.awaiting == None || flow.awaiting.value.task != task {
        return;
      }
      var a := flow.awaiting.value;
      flow := flow.(awaiting := None);
      if env.registry(a.stage).Known? && absorbed.Some? {
        CompleteStage(a.stage, a.index, a.fp, absorbed.value, id);
        return;
      }
      GiveUp(a.stage, "task_failed", true, id, false);
    }

    method Invalidate(env: Env, stage: Name)
      modifies this
      ensures View() == InvalidateFrom(old(View()), env, stage).row && outbox == old(outbox)
    {
      DeclareStale(Doomed(env, stage));
      Save();
    }

    /** The watchdog writes off an upload that never arrived. */
    method GiveUpUpload()
      modifies this
      ensures View() == AbandonUpload(old(View())).row && outbox == old(outbox)
    {
      if status != Uploading {
        return;
      }
      status := Error;
      flow := SetLastError(flow, "upload", "upload_abandoned", true);
      Save();
    }

    method OpenUpload()
      modifies this
      ensures View() == BeginUpload(old(View())).row && outbox == old(outbox)
    {
      if status == Created {
        status := Uploading;
        Save();
      }
    }

    /** `open`: the row has no source key, and the session was not finished before. */
    method CloseUpload(open: bool)
      modifies this
      ensures View() == FinishUpload(old(View()), open).row && outbox == old(outbox)
    {
      if !open || status == Deleted {
        return;
      }
      status := Queued;
      Save();
    }

    method Retry(hasSource: bool) returns (requeued: bool)
      modifies this
      ensures requeued == Retries(old(View()), hasSource)
      ensures var next := RetryRecording(old(View()), hasSource);
              View() == next.row && outbox == old(outbox) + next.events
    {
      if status != Error || RetryRefused(flow.notes, hasSource) {
        return false;
      }
      status := Queued;
      retryCount := 0;
      Save();
      outbox := outbox + [StageDue(flow.cursor.last + 1)];
      return true;
    }

    method Pay() returns (requeued: bool)
      modifies this
      ensures requeued == (old(status) == NeedsPayment)
      ensures var next := ResumeAfterPayment(old(View()));
              View() == next.row && outbox == old(outbox) + next.events
    {
      if status != NeedsPayment {
        return false;
      }
      var parked := flow.notes.needsPayment;
      flow := flow.(notes := flow.notes.(needsPayment := None));
      if parked.Some? {
        flow := flow.(notes := flow.notes.(paidFor := parked));
      }
      status := Queued;
      retryCount := 0;
      Save();
      outbox := outbox + [StageDue(flow.cursor.last + 1)];
      return true;
    }

    method ReprocessAll(id: RunId) returns (requeued: bool)
      modifies this
      ensures requeued == (old(status) == Completed)
      ensures var next := Reprocess(old(View()), id);
              View() == next.row && outbox == old(outbox) + next.events
    {
      if status != Completed {
        return false;
      }
      flow := flow.(marked := true, cursor := START_CURSOR, place := None);
      flow := flow.(run := Some(RunTag(id, AttemptOf(flow) + 1)));
      status := Queued;
      retryCount := 0;
      Save();
      outbox := outbox + [StageDue(0)];
      return true;
    }

    method Close(reason: string, id: RunId) returns (closed: bool)
      modifies this
      ensures closed == InPipeline(old(status))
      ensures var next := CloseRecording(old(View()), reason, id);
              View() == next.row && outbox == old(outbox) + next.events
    {
      if Terminal(status) {
        return false;
      }
      if status == Created || status == Uploading {
        return false;
      }
      var stage := CurrentStage(flow);
      flow := flow.(awaiting := None);
      GiveUp(stage, "closed:" + reason, true, id, false);
      return true;
    }

    /** False means "do not re-drive it again": the cap is spent and the recording has failed. */
    method NoteRedrive(cfg: Config, id: RunId) returns (again: bool)
      modifies this
      ensures again == RedriveAllowed(old(View()), cfg)
      ensures !again ==> var next := Dlq(old(View()), CurrentStage(old(flow)), "reconcile_exhausted", true, id);
                         View() == next.row && outbox == old(outbox) + next.events
      ensures again ==> View() == old(View()).(flow := old(flow).(marked := true, redrives := old(flow).redrives + 1),
                                               writes := old(writes) + 1)
                        && outbox == old(outbox)
    {
      if cfg.redriveCap != 0 && flow.redrives >= cfg.redriveCap {
        GiveUp(CurrentStage(flow), "reconcile_exhausted", true, id, false);
        return false;
      }
      flow := flow.(marked := true, redrives := flow.redrives + 1);
      Save();
      return true;
    }
  }

  method ListAll(known: seq<Name>, names: seq<Name>) returns (listed: seq<Name>)
    ensures listed == ListedAfter(known, names)
  {
    listed := known;
    assert names[0..] == names;
    for i := 0 to |names|
      invariant ListedAfter(listed, names[i..]) == ListedAfter(known, names)
    {
      ListedStep(listed, names, i);
      if names[i] !in listed {
        listed := listed + [names[i]];
      }
    }
    assert names[|names|..] == [];
  }

  method KeepAllBut(s: seq<Name>, gone: seq<Name>) returns (kept: seq<Name>)
    ensures kept == Without(s, gone)
  {
    kept := [];
    for i := 0 to |s|
      invariant kept == Without(s[..i], gone)
    {
      WithoutConcat(s[..i], [s[i]], gone);
      assert s[..i + 1] == s[..i] + [s[i]];
      if s[i] !in gone {
        kept := kept + [s[i]];
      }
    }
    assert s[..|s|] == s;
  }

  /** One selected row of a watchdog pass. */
  method RedriveRow(r: Recording, cfg: Config, id: RunId) returns (again: bool)
    requires InPipeline(r.status)
    modifies r
    ensures again == RedriveAllowed(old(r.View()), cfg)
    ensures var next := Redrive(old(r.View()), cfg, id);
            r.View() == next.row && r.outbox == old(r.outbox) + next.events
  {
    again := r.NoteRedrive(cfg, id);
    if again {
      r.outbox := r.outbox + [StageDue(RedriveIndex(r.flow))];
    }
  }

  /** How many of the rows may still be re-driven. */
  function Redriven(rows: seq<Row>, cfg: Config): nat {
    if rows == [] then 0
    else Redriven(rows[..|rows| - 1], cfg) + if RedriveAllowed(rows[|rows| - 1], cfg) then 1 else 0
  }

  /** One watchdog pass over the rows a query selected: each stuck row is re-driven or failed,
      by its own counter and nothing else, and `count` is how many were re-driven. */
  method ReconcileOnce(rows: seq<Recording>, cfg: Config, ids: seq<RunId>, ghost before: seq<Row>, ghost sent: seq<seq<Event>>)
    returns (count: nat)
    requires |ids| == |before| == |sent| == |rows|
    requires forall i, j :: 0 <= i < j < |rows| ==> rows[i] != rows[j]
    requires forall i :: 0 <= i < |rows| ==> InPipeline(rows[i].status) && before[i] == rows[i].View() && sent[i] == rows[i].outbox
    modifies rows
    ensures forall i :: 0 <= i < |rows| ==>
              rows[i].View() == Redrive(before[i], cfg, ids[i]).row && rows[i].outbox == sent[i] + Redrive(before[i], cfg, ids[i]).events
    ensures count == Redriven(before, cfg)
  {
    count := 0;
    for n := 0 to |rows|
      invariant forall i :: 0 <= i < n ==>
                  rows[i].View() == Redrive(before[i], cfg, ids[i]).row && rows[i].outbox == sent[i] + Redrive(before[i], cfg, ids[i]).events
      invariant forall i :: n <= i < |rows| ==> rows[i].View() == before[i] && rows[i].outbox == sent[i]
      invariant count == Redriven(before[..n], cfg)
    {
      var again := RedriveRow(rows[n], cfg, ids[n]);
      assert before[..n + 1][..n] == before[..n];
      if again {
        count := count + 1;
      }
    }
    assert before[..|rows|] == before;
  }
}
