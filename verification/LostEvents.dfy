/** An event that is lost, and the watchdog that is meant to make up for it. */
module LostEvents {
  import opened Results
  import opened Recordings
  import opened Checkpoints
  import opened Pipeline
  import opened Progress
  import opened Ladders

  /** Right after a stage completed, the watchdog points at that very stage: if the event for
      the next one is lost, re-driving the recording never brings it back. */
  lemma {:induction false} RedriveAfterSuccessIsIgnored(row: Row, cfg: Config, env: Env, k: int, ctx: Ctx, id: RunId, later: Env, outcome: Outcome)
    requires Decide(row, env, k, id).Invoke? && Resolves(later)
    requires var done := RunStage(row, cfg, env, k, Done(ctx), id).row;
             InPipeline(done.status) && RedriveAllowed(done, cfg) && !Recomputes(done, later)
    ensures var next := Redrive(RunStage(row, cfg, env, k, Done(ctx), id).row, cfg, id);
            RunStage(next.row, cfg, later, next.events[0].index, outcome, id) == Quiet(next.row)
  {
    InvokeFacts(row, env, k, id);
    RedriveIgnoredIff(RunStage(row, cfg, env, k, Done(ctx), id).row, cfg, later, outcome, id);
  }

  /** A re-drive of the row, delivered in this world, is ignored. */
  ghost predicate Stranded(row: Row, env: Env) {
    && InPipeline(row.status) && Resolves(env)
    && RedriveIndex(row.flow) <= row.flow.cursor.last && !Recomputes(row, env)
  }

  /** One pass of the watchdog, and the delivery of the event it publishes. */
  datatype Pass = Pass(mint: RunId, env: Env, outcome: Outcome, id: RunId)

  function Passed(index: int, passes: seq<Pass>): seq<Action> {
    if passes == [] then []
    else
      var p := passes[0];
      [Watchdog(p.mint), Deliver(p.env, index, p.outcome, p.id)] + Passed(index, passes[1..])
  }

  /** All that a row keeps of `n` re-drives. */
  function Counted(row: Row, n: nat): Row {
    row.(flow := row.flow.(marked := n > 0 || row.flow.marked, redrives := row.flow.redrives + n), writes := row.writes + n)
  }

  lemma {:induction false} RedriveCounts(row: Row, cfg: Config, mint: RunId, id: RunId)
    requires InPipeline(row.status) && RedriveAllowed(row, cfg)
    ensures Step(row, cfg, Watchdog(mint)).row == Counted(row, 1)
  {
  }

  lemma {:induction false} StrandedStays(row: Row, env: Env, n: nat)
    requires Stranded(row, env)
    ensures Stranded(Counted(row, n), env) && RedriveIndex(Counted(row, n).flow) == RedriveIndex(row.flow)
  {
    assert Recomputes(Counted(row, n), env) <==> Recomputes(row, env);
  }

  lemma {:induction false} OnePass(h: History, cfg: Config, p: Pass)
    requires Stranded(h.row, p.env) && RedriveAllowed(h.row, cfg)
    ensures var driven := Extend(h, cfg, Watchdog(p.mint));
            Extend(driven, cfg, Deliver(p.env, RedriveIndex(h.row.flow), p.outcome, p.id)).row == Counted(h.row, 1)
  {
    RedriveIgnoredIff(h.row, cfg, p.env, p.outcome, p.mint);
    var driven := Extend(h, cfg, Watchdog(p.mint));
    RedriveCounts(h.row, cfg, p.mint, p.id);
    IgnoredIff(driven.row, cfg, p.env, RedriveIndex(h.row.flow), p.outcome, p.id);
    StrandedStays(h.row, p.env, 1);
  }

  /** However often a stranded row is re-driven and the event delivered, whatever the handlers
      would have done, nothing but the count of the re-drives changes: for ever without a cap. */
  lemma {:induction false} NoPassMovesIt(h: History, cfg: Config, passes: seq<Pass>)
    requires forall p :: p in passes ==> Stranded(h.row, p.env)
    requires cfg.redriveCap == 0 || h.row.flow.redrives + |passes| <= cfg.redriveCap
    ensures Run(h, cfg, Passed(RedriveIndex(h.row.flow), passes)).row == Counted(h.row, |passes|)
    decreases |passes|
  {
    if passes != [] {
      var p, i := passes[0], RedriveIndex(h.row.flow);
      var tr := Passed(i, passes);
      var driven := Extend(h, cfg, tr[0]);
      var next := Extend(driven, cfg, tr[1]);
      assert p in passes;
      OnePass(h, cfg, p);
      assert tr[1..][1..] == Passed(i, passes[1..]);
      forall q | q in passes[1..] ensures Stranded(next.row, q.env) {
        assert q in passes;
        StrandedStays(h.row, q.env, 1);
      }
      NoPassMovesIt(next, cfg, passes[1..]);
      assert Run(h, cfg, tr) == Run(driven, cfg, tr[1..]) == Run(next, cfg, tr[1..][1..]);
    }
  }

  /** With a cap it stays where it is until the cap is spent, and the next pass fails it. */
  lemma {:induction false} StrandedUntilTheCap(h: History, cfg: Config, passes: seq<Pass>, id: RunId)
    requires InPipeline(h.row.status) && forall p :: p in passes ==> Stranded(h.row, p.env)
    requires cfg.redriveCap > 0 && h.row.flow.redrives + |passes| == cfg.redriveCap
    ensures GivesUp(Step(Run(h, cfg, Passed(RedriveIndex(h.row.flow), passes)).row, cfg, Watchdog(id)))
  {
    NoPassMovesIt(h, cfg, passes);
    SpentRowFails(Counted(h.row, |passes|), cfg, id);
  }

  // ----- such a row

  const TWO_STAGES := ["convert", "merge"]

  const FIRST_STAGE := [CloseUpload(true), Start(7), Deliver(Plain(TWO_STAGES), 0, Done(NoCtx), 7)]

  const AFTER_THE_FIRST := Row(Queued, 0, Workflow(true, Cursor(["convert"], 0, NoCtx), Some(Place("convert", 0)), None, NO_CHECKS,
                                                   Some(RunTag(7, 1)), 0, Notes(None, None, None, None)), 4)

  lemma {:induction false} FirstStageRuns(cfg: Config)
    ensures Run(History(NEW_ROW, []), cfg, FIRST_STAGE).row == AFTER_THE_FIRST
  {
    var h := History(NEW_ROW, []);
    var h1 := Extend(h, cfg, FIRST_STAGE[0]);
    var h2 := Extend(h1, cfg, FIRST_STAGE[1]);
    assert FIRST_STAGE[1..][1..] == [FIRST_STAGE[2]] && FIRST_STAGE[2..][1..] == [];
    assert Run(h, cfg, FIRST_STAGE) == Run(h1, cfg, FIRST_STAGE[1..]) == Run(h2, cfg, [FIRST_STAGE[2]]);
    assert Run(h2, cfg, [FIRST_STAGE[2]]) == Extend(h2, cfg, FIRST_STAGE[2]) by { assert [FIRST_STAGE[2]][1..] == []; }
    assert Decide(h2.row, Plain(TWO_STAGES), 0, 7).Invoke?;
    assert Renewed(NO_CHECKS, "convert", None) == NO_CHECKS;
  }

  lemma {:induction false} AfterTheFirstIsStranded()
    ensures Stranded(AFTER_THE_FIRST, Plain(TWO_STAGES)) && Frontier(AFTER_THE_FIRST, Plain(TWO_STAGES)) == 1
  {
    assert !Settled(AFTER_THE_FIRST.flow, Plain(TWO_STAGES), "merge");
    assert Plain(TWO_STAGES).pipeline.names[1] == "merge";
  }

  /** From a new row: the first of two stages completes and the event for the second is lost. No
      number of passes within the cap runs the second stage, and the pass after them fails it. */
  lemma {:induction false} LostEventExample(cfg: Config, passes: seq<Pass>, id: RunId)
    requires forall p :: p in passes ==> p.env == Plain(TWO_STAGES)
    requires cfg.redriveCap == 0 || |passes| <= cfg.redriveCap
    ensures var lost := Run(History(NEW_ROW, []), cfg, FIRST_STAGE);
            var row := Run(lost, cfg, Passed(0, passes)).row;
            && row == Counted(AFTER_THE_FIRST, |passes|)
            && (|passes| == cfg.redriveCap > 0 ==> GivesUp(Step(row, cfg, Watchdog(id))))
  {
    FirstStageRuns(cfg);
    AfterTheFirstIsStranded();
    var lost := Run(History(NEW_ROW, []), cfg, FIRST_STAGE);
    NoPassMovesIt(lost, cfg, passes);
    if |passes| == cfg.redriveCap > 0 { StrandedUntilTheCap(lost, cfg, passes, id); }
  }
}
