/** An upload that finishes on a row which already has a run: what it does to the bill of that
    run, and exactly when it does it. */
module LateUploads {
  import opened Results
  import opened Recordings
  import opened Checkpoints
  import opened Pipeline
  import opened Completion
  import opened Progress
  import opened Ledger
  import opened RunIdentity

  // ----- what a run's announcements count

  function StandsFor(row: Row, id: RunId): nat {
    if row.status == Completed && row.flow.run.Some? && row.flow.run.value.id == id then 1 else 0
  }

  /** Does the action take a row completed under the run `id` out of `completed`? */
  function Departs(row: Row, a: Action, id: RunId): nat {
    if StandsFor(row, id) == 1 && Leaves(row, a, Finished) == 1 then 1 else 0
  }

  /** How often a run of the history left `completed` under the run `id`. */
  function Departures(h: History, cfg: Config, tr: seq<Action>, id: RunId): nat
    decreases |tr|
  {
    if tr == [] then 0
    else Departs(h.row, tr[0], id) + Departures(Extend(h, cfg, tr[0]), cfg, tr[1..], id)
  }

  ghost predicate Identified(row: Row) {
    (row.flow.run.Some? ==> row.flow.marked) && (row.status == Completed ==> row.flow.run.Some?)
  }

  lemma {:induction false} LawfulCounts(row: Row, next: Next, run: RunId, id: RunId)
    requires Identified(row) && Lawful(row, next, Tag(row.flow, run))
    ensures Identified(next.row)
    ensures Bills(next.events, id) + StandsFor(row, id) == StandsFor(next.row, id)
  {
    if next != Quiet(row) { BillsOfEvents(next, Tag(row.flow, run), id); }
  }

  lemma {:induction false} DueCountsNothing(events: seq<Event>, id: RunId)
    requires |events| <= 1 && (events != [] ==> events[0].StageDue?)
    ensures Bills(events, id) == 0
  {
    if events != [] { assert events[1..] == []; }
  }

  lemma {:induction false} ExplicitCounts(row: Row, cfg: Config, a: Action, id: RunId)
    requires Identified(row) && Explicit(a)
    ensures var next := Step(row, cfg, a);
            && Identified(next.row) && StandsFor(row, id) == StandsFor(next.row, id) + Departs(row, a, id)
            && Bills(next.events, id) == 0
  {
    DueCountsNothing(Step(row, cfg, a).events, id);
  }

  lemma {:induction false} StepCountsBills(row: Row, cfg: Config, a: Action, id: RunId)
    requires Identified(row)
    ensures var next := Step(row, cfg, a);
            && Identified(next.row)
            && Bills(next.events, id) + StandsFor(row, id) == StandsFor(next.row, id) + Departs(row, a, id)
  {
    if Explicit(a) {
      ExplicitCounts(row, cfg, a, id);
    } else {
      StepLawful(row, cfg, a);
      LawfulCounts(row, Step(row, cfg, a), MintOf(a), id);
    }
  }

  /** Along every run, whatever the ids: a run is announced as completed once for every time the
      row left `completed` under it, and once more while it stands there. */
  lemma {:induction false} BillsAreCounted(h: History, cfg: Config, tr: seq<Action>, id: RunId)
    requires Identified(h.row)
    ensures Identified(Run(h, cfg, tr).row)
    ensures Bills(Run(h, cfg, tr).log, id) + StandsFor(h.row, id)
         == Bills(h.log, id) + Departures(h, cfg, tr, id) + StandsFor(Run(h, cfg, tr).row, id)
    decreases |tr|
  {
    if tr != [] {
      StepCountsBills(h.row, cfg, tr[0], id);
      BillsConcat(h.log, Step(h.row, cfg, tr[0]).events, id);
      BillsAreCounted(Extend(h, cfg, tr[0]), cfg, tr[1..], id);
    }
  }

  // ----- a run that may be billed again

  /** Some run has been billed twice, or the current one has been billed and is under way again. */
  ghost predicate Exposed(h: History) {
    || (exists id :: Bills(h.log, id) >= 2)
    || (h.row.flow.run.Some? && h.row.flow.marked && Bills(h.log, h.row.flow.run.value.id) >= 1
        && h.row.status != Completed && h.row.status != Deleted)
  }

  /** A billed run under way stays the current one, and is billed again if the row completes. */
  lemma {:induction false} StepOfBilled(row: Row, cfg: Config, a: Action)
    requires row.flow.run.Some? && row.flow.marked && row.status != Completed && row.status != Deleted
    ensures var next := Step(row, cfg, a);
            && next.row.flow.run == row.flow.run && next.row.flow.marked && next.row.status != Deleted
            && (next.row.status == Completed ==> Bills(next.events, row.flow.run.value.id) >= 1)
  {
    if !Explicit(a) {
      StepLawful(row, cfg, a);
      var next := Step(row, cfg, a);
      if next != Quiet(row) { BillsOfEvents(next, Tag(row.flow, MintOf(a)), row.flow.run.value.id); }
    }
  }

  lemma {:induction false} StepIsExposed(h: History, cfg: Config, a: Action)
    requires Exposed(h)
    ensures Exposed(Extend(h, cfg, a))
  {
    var next := Step(h.row, cfg, a);
    if id :| Bills(h.log, id) >= 2 {
      BillsConcat(h.log, next.events, id);
    } else {
      var id := h.row.flow.run.value.id;
      BillsConcat(h.log, next.events, id);
      StepOfBilled(h.row, cfg, a);
    }
  }

  lemma {:induction false} RunIsExposed(h: History, cfg: Config, tr: seq<Action>)
    requires Exposed(h)
    ensures Exposed(Run(h, cfg, tr))
    decreases |tr|
  {
    if tr != [] {
      StepIsExposed(h, cfg, tr[0]);
      RunIsExposed(Extend(h, cfg, tr[0]), cfg, tr[1..]);
    }
  }

  lemma {:induction false} HitExposes(h: History, cfg: Config, tr: seq<Action>)
    requires RunIdentity.Billed(h) && FreshIds(h, cfg, tr) && !Spared(h, cfg, tr)
    ensures Exposed(Run(h, cfg, tr))
    decreases |tr|
  {
    var next := Extend(h, cfg, tr[0]);
    if HitsCompleted(h.row, tr[0]) {
      assert next.log == h.log;
      RunIsExposed(next, cfg, tr[1..]);
    } else {
      StepBilled(h, cfg, tr[0]);
      HitExposes(next, cfg, tr[1..]);
    }
  }

  // ----- billing it again

  function Above(log: seq<Event>): nat {
    if log == [] then 1 else Above(log[1..]) + if log[0].StageDue? then 0 else log[0].run.id
  }

  /** An id above every one the log or the row bears. */
  function NewId(h: History): nat {
    Above(h.log) + if h.row.flow.run.Some? then h.row.flow.run.value.id else 0
  }

  lemma {:induction false} AtLeastOne(log: seq<Event>)
    ensures Above(log) >= 1
  {
    if log != [] { AtLeastOne(log[1..]); }
  }

  lemma {:induction false} AboveAll(log: seq<Event>, t: RunTag)
    requires t in Tags(log)
    ensures t.id < Above(log)
  {
    if log[0].StageDue? || log[0].run != t {
      assert t in Tags(log[1..]);
      AboveAll(log[1..], t);
    } else if log[1..] != [] {
      AtLeastOne(log[1..]);
    }
  }

  lemma {:induction false} NewIdIsUnused(h: History)
    ensures Unused(h, NewId(h))
  {
    AtLeastOne(h.log);
    forall t | t in Tags(h.log) ensures t.id != NewId(h) { AboveAll(h.log, t); }
  }

  /** A row that is neither completed nor deleted is let in by one of the two. */
  const LET_IN := [Retry(true), Pay]

  function Finish(k: int, id: RunId): seq<Action> {
    [Deliver(Plain(["x"]), k, Done(NoCtx), id), Deliver(Plain(["x"]), 1, Done(NoCtx), id)]
  }

  lemma {:induction false} LetIn(h: History, cfg: Config)
    requires h.row.status != Completed && h.row.status != Deleted
    ensures var next := Run(h, cfg, LET_IN);
            && !Terminal(next.row.status) && next.row.flow.run == h.row.flow.run && next.row.flow.marked == h.row.flow.marked
            && Tags(next.log) == Tags(h.log) && (forall id :: Bills(next.log, id) == Bills(h.log, id))
    ensures FreshIds(h, cfg, LET_IN) && Spared(h, cfg, LET_IN)
  {
    var h1 := Extend(h, cfg, Retry(true));
    var h2 := Extend(h1, cfg, Pay);
    assert LET_IN[1..] == [Pay] && [Pay][1..] == [];
    assert Run(h, cfg, LET_IN) == Run(h1, cfg, [Pay]) == h2;
    UnnamedEvents(h.log, Step(h.row, cfg, Retry(true)).events);
    UnnamedEvents(h1.log, Step(h1.row, cfg, Pay).events);
    assert Spared(h1, cfg, [Pay]) && FreshIds(h1, cfg, [Pay]);
  }

  /** The first delivery finalises the one stage's run, or completes the stage for the second to. */
  lemma {:induction false} FirstOfTwo(row: Row, cfg: Config, id: RunId)
    requires !Terminal(row.status)
    ensures var next := RunStage(row, cfg, Plain(["x"]), row.flow.cursor.last + 1, Done(NoCtx), id).row;
            next.status == Completed
            || (!Terminal(next.status) && next.flow.cursor.last == 0 && Frontier(next, Plain(["x"])) == 1)
  {
    var env, k := Plain(["x"]), row.flow.cursor.last + 1;
    UndroppedDelivery(row, cfg, env, k, NoCtx, id);
    if Frontier(row, env) == 0 {
      FrontierGrows(row, cfg, env, k, Done(NoCtx), id);
    }
  }

  lemma {:induction false} SecondOfTwo(row: Row, cfg: Config, id: RunId)
    requires row.status == Completed || (!Terminal(row.status) && row.flow.cursor.last == 0 && Frontier(row, Plain(["x"])) == 1)
    ensures RunStage(row, cfg, Plain(["x"]), 1, Done(NoCtx), id).row.status == Completed
  {
    if row.status != Completed { UndroppedDelivery(row, cfg, Plain(["x"]), 1, NoCtx, id); }
  }

  lemma {:induction false} UnusedByDelivery(h: History, cfg: Config, env: Env, k: int, id: RunId)
    requires h.row.flow.run.Some? && h.row.flow.marked && Unused(h, id)
    ensures Unused(Extend(h, cfg, Deliver(env, k, Done(NoCtx), id)), id)
  {
    var a := Deliver(env, k, Done(NoCtx), id);
    StepLawful(h.row, cfg, a);
    RunIsKept(h.row, cfg, a);
    var next := Step(h.row, cfg, a);
    if next == Quiet(h.row) {
      assert h.log + [] == h.log;
    } else {
      TagsOfEvents(h.log, next, Tag(h.row.flow, id));
    }
  }

  lemma {:induction false} MarkStays(row: Row, cfg: Config, a: Action)
    requires row.flow.run.Some? && row.flow.marked && a.Deliver?
    ensures Step(row, cfg, a).row.flow.marked
  {
    StepLawful(row, cfg, a);
  }

  lemma {:induction false} TwoDeliveriesComplete(h: History, cfg: Config, id: RunId)
    requires !Terminal(h.row.status) && h.row.flow.run.Some? && h.row.flow.marked && Unused(h, id)
    ensures var more := Finish(h.row.flow.cursor.last + 1, id);
            Run(h, cfg, more).row.status == Completed && FreshIds(h, cfg, more) && Spared(h, cfg, more)
            && Run(h, cfg, more).row.flow.run == h.row.flow.run
  {
    var more := Finish(h.row.flow.cursor.last + 1, id);
    var h1 := Extend(h, cfg, more[0]);
    var h2 := Extend(h1, cfg, more[1]);
    FirstOfTwo(h.row, cfg, id);
    SecondOfTwo(h1.row, cfg, id);
    UnusedByDelivery(h, cfg, Plain(["x"]), h.row.flow.cursor.last + 1, id);
    RunIsKept(h.row, cfg, more[0]);
    MarkStays(h.row, cfg, more[0]);
    RunIsKept(h1.row, cfg, more[1]);
    assert more[1..] == [more[1]] && more[1..][1..] == [];
    assert Run(h, cfg, more) == Run(h1, cfg, more[1..]) == h2;
    assert FreshIds(h1, cfg, more[1..]) && Spared(h1, cfg, more[1..]);
  }

  lemma {:induction false} FreshCons(h: History, cfg: Config, a: Action, tr: seq<Action>)
    ensures FreshIds(h, cfg, [a] + tr) <==> (MintsRun(a) ==> Unused(h, MintOf(a))) && FreshIds(Extend(h, cfg, a), cfg, tr)
    ensures Spared(h, cfg, [a] + tr) <==> !HitsCompleted(h.row, a) && Spared(Extend(h, cfg, a), cfg, tr)
  {
    assert ([a] + tr)[1..] == tr;
  }

  lemma {:induction false} FreshAfterLetIn(h: History, cfg: Config, more: seq<Action>)
    requires FreshIds(Run(h, cfg, LET_IN), cfg, more) && Spared(Run(h, cfg, LET_IN), cfg, more)
    ensures FreshIds(h, cfg, LET_IN + more) && Spared(h, cfg, LET_IN + more)
  {
    var h1 := Extend(h, cfg, Retry(true));
    RunCons(h, cfg, Retry(true), [Pay]);
    RunCons(h1, cfg, Pay, []);
    FreshCons(h1, cfg, Pay, more);
    FreshCons(h, cfg, Retry(true), [Pay] + more);
    assert [Retry(true)] + ([Pay] + more) == LET_IN + more;
  }

  /** From there a run of the driver alone, a retry or a payment and two deliveries with fresh ids
      and no further upload, bills a run for the second time. */
  lemma {:induction false} ExposedIsBilledAgain(h: History, cfg: Config) returns (more: seq<Action>)
    requires Exposed(h) && Identified(h.row)
    ensures FreshIds(h, cfg, more) && Spared(h, cfg, more) && !BilledOnce(Run(h, cfg, more).log)
  {
    if id :| Bills(h.log, id) >= 2 {
      more := [];
    } else {
      var run := h.row.flow.run.value.id;
      var inside := Run(h, cfg, LET_IN);
      LetIn(h, cfg);
      NewIdIsUnused(inside);
      var finish := Finish(inside.row.flow.cursor.last + 1, NewId(inside));
      TwoDeliveriesComplete(inside, cfg, NewId(inside));
      BillsAreCounted(inside, cfg, finish, run);
      more := LET_IN + finish;
      FreshAfterLetIn(h, cfg, finish);
      RunConcat(h, cfg, LET_IN, finish);
    }
  }

  /** Which uploads cost a bill: every way a run may go on, with fresh ids and without an upload on
      a completed row, bills each run at most once, if and only if no upload has finished on a
      completed row so far. */
  lemma {:induction false} OneBillPerRunIff(row: Row, cfg: Config, tr: seq<Action>)
    requires !Terminal(row.status) && (row.flow.run.Some? ==> row.flow.marked)
    requires FreshIds(History(row, []), cfg, tr)
    ensures (forall more :: var h := Run(History(row, []), cfg, tr);
                            FreshIds(h, cfg, more) && Spared(h, cfg, more) ==> BilledOnce(Run(h, cfg, more).log))
            <==> Spared(History(row, []), cfg, tr)
  {
    var start := History(row, []);
    var h := Run(start, cfg, tr);
    if Spared(start, cfg, tr) {
      RunBilled(start, cfg, tr);
      forall more | FreshIds(h, cfg, more) && Spared(h, cfg, more) ensures BilledOnce(Run(h, cfg, more).log) {
        RunBilled(h, cfg, more);
      }
    } else {
      HitExposes(start, cfg, tr);
      BillsAreCounted(start, cfg, tr, 0);
      var more := ExposedIsBilledAgain(h, cfg);
    }
  }

  /** One stage whose input reads `fp`. */
  function Reading(fp: Print): Env {
    Env(Names(["x"]), (n: Name) => Known(None), (n: Name, c: Ctx) => Some(fp))
  }

  /** The row of the example: run 7, with the stage completed or not. */
  function ExampleRow(status: Status, done: bool, fp: Print, redrives: nat, writes: nat): Row {
    Row(status, 0, Workflow(true, if done then Cursor(["x"], 0, NoCtx) else START_CURSOR, if fp == 0 then None else Some(Place("x", 0)),
                            None, Checks(if fp == 0 then map[] else map["x" := fp], []), Some(RunTag(7, 1)), redrives,
                            Notes(None, None, None, None)), writes)
  }

  const FINISHED := ExampleRow(Completed, true, 1, 0, 5)

  lemma {:induction false} ExampleStarts(cfg: Config)
    ensures Step(NEW_ROW, cfg, CloseUpload(true)) == Quiet(NEW_ROW.(status := Queued, writes := 1))
    ensures Step(NEW_ROW.(status := Queued, writes := 1), cfg, Start(7)).row == ExampleRow(Queued, false, 0, 0, 2)
  {
  }

  /** The example's stage, about to run on an input that reads `fp`. */
  function ExampleBegun(fp: Print, redrives: nat, writes: nat, checks: Checks): Row {
    Row(Queued, 0, Workflow(true, START_CURSOR, Some(Place("x", 0)), None, checks, Some(RunTag(7, 1)), redrives,
                            Notes(None, None, None, None)), writes)
  }

  lemma {:induction false} ExampleBegins(fp: Print, redrives: nat, writes: nat, id: RunId)
    requires fp > 0
    ensures Decide(ExampleRow(Queued, false, 0, 0, writes), Reading(fp), 0, id)
         == Invoke(ExampleBegun(fp, 0, writes + 1, NO_CHECKS), "x", 0, Some(fp))
    ensures fp != 1 ==> Decide(ExampleRow(Queued, true, 1, redrives, writes), Reading(fp), 0, id)
                        == Invoke(ExampleBegun(fp, redrives, writes + 1, Checks(map["x" := 1], [])), "x", 0, Some(fp))
  {
    if fp != 1 {
      var row := ExampleRow(Queued, true, 1, redrives, writes);
      assert !Settled(row.flow, Reading(fp), "x");
      assert DropFrom(row.flow.cursor, ["x"], 0) == START_CURSOR;
    }
  }

  lemma {:induction false} ExampleSucceeds(fp: Print, redrives: nat, writes: nat, checks: Checks, id: RunId)
    requires fp > 0 && checks.invalidated == [] && (checks.prints == map[] || checks.prints == map["x" := 1])
    ensures Succeed(ExampleBegun(fp, redrives, writes, checks), "x", 0, Some(fp), NoCtx, id)
         == Next(ExampleRow(Queued, true, fp, 0, writes + 1), [StageCompleted("x", 0, RunTag(7, 1)), StageDue(1)])
  {
    assert map["x" := 1]["x" := fp] == map["x" := fp] && map[]["x" := fp] == map["x" := fp];
    assert Renewed(checks, "x", Some(fp)) == Checks(map["x" := fp], []);
  }

  /** The stage runs on an input that reads `fp`, at first or because it read 1 before. */
  lemma {:induction false} ExampleStageRuns(row: Row, cfg: Config, fp: Print, id: RunId)
    requires fp > 0 && row.status == Queued
    requires row == ExampleRow(Queued, false, 0, 0, row.writes) || (fp != 1 && row == ExampleRow(Queued, true, 1, row.flow.redrives, row.writes))
    ensures Step(row, cfg, Deliver(Reading(fp), 0, Done(NoCtx), id))
         == Next(ExampleRow(Queued, true, fp, 0, row.writes + 2), [StageCompleted("x", 0, RunTag(7, 1)), StageDue(1)])
  {
    ExampleBegins(fp, row.flow.redrives, row.writes, id);
    ExampleSucceeds(fp, 0, row.writes + 1, NO_CHECKS, id);
    ExampleSucceeds(fp, row.flow.redrives, row.writes + 1, Checks(map["x" := 1], []), id);
  }

  lemma {:induction false} ExampleFinishes(cfg: Config, fp: Print, writes: nat, id: RunId)
    requires fp > 0
    ensures Step(ExampleRow(Queued, true, fp, 0, writes), cfg, Deliver(Reading(fp), 1, Done(NoCtx), id))
         == Next(ExampleRow(Completed, true, fp, 0, writes + 1), [RunCompleted(RunTag(7, 1))])
  {
  }

  lemma {:induction false} Run4(h: History, cfg: Config, tr: seq<Action>)
    requires |tr| == 4
    ensures Run(h, cfg, tr) == Extend(Extend(Extend(Extend(h, cfg, tr[0]), cfg, tr[1]), cfg, tr[2]), cfg, tr[3])
  {
    var h1 := Extend(h, cfg, tr[0]);
    var h2 := Extend(h1, cfg, tr[1]);
    var h3 := Extend(h2, cfg, tr[2]);
    assert tr == [tr[0]] + ([tr[1]] + ([tr[2]] + ([tr[3]] + [])));
    RunCons(h, cfg, tr[0], [tr[1]] + ([tr[2]] + ([tr[3]] + [])));
    RunCons(h1, cfg, tr[1], [tr[2]] + ([tr[3]] + []));
    RunCons(h2, cfg, tr[2], [tr[3]] + []);
    RunCons(h3, cfg, tr[3], []);
  }

  /** An upload, a start, and two deliveries. */
  const FIRST_UPLOAD := [CloseUpload(true), Start(7), Deliver(Reading(1), 0, Done(NoCtx), 8), Deliver(Reading(1), 1, Done(NoCtx), 8)]
  /** An upload onto the completed row moves what the stage reads; the watchdog does the rest. */
  const SECOND_UPLOAD := [CloseUpload(true), Watchdog(8), Deliver(Reading(2), 0, Done(NoCtx), 8), Deliver(Reading(2), 1, Done(NoCtx), 8)]

  lemma {:induction false} FirstUploadCompletes(cfg: Config)
    ensures Run(History(NEW_ROW, []), cfg, FIRST_UPLOAD).row == FINISHED
  {
    Run4(History(NEW_ROW, []), cfg, FIRST_UPLOAD);
    ExampleStarts(cfg);
    ExampleStageRuns(ExampleRow(Queued, false, 0, 0, 2), cfg, 1, 8);
    ExampleFinishes(cfg, 1, 4, 8);
  }

  lemma {:induction false} ExampleRedrive(cfg: Config)
    ensures Step(FINISHED, cfg, CloseUpload(true)) == Quiet(ExampleRow(Queued, true, 1, 0, 6))
    ensures Step(ExampleRow(Queued, true, 1, 0, 6), cfg, Watchdog(8)) == Next(ExampleRow(Queued, true, 1, 1, 7), [StageDue(0)])
  {
  }

  lemma {:induction false} SecondUploadCompletes(cfg: Config, log: seq<Event>)
    ensures Run(History(FINISHED, log), cfg, SECOND_UPLOAD).row == ExampleRow(Completed, true, 2, 0, 10)
  {
    Run4(History(FINISHED, log), cfg, SECOND_UPLOAD);
    ExampleRedrive(cfg);
    ExampleStageRuns(ExampleRow(Queued, true, 1, 1, 7), cfg, 2, 8);
    ExampleFinishes(cfg, 2, 9, 8);
  }

  lemma {:induction false} UploadDeparts(cfg: Config, log: seq<Event>)
    ensures Departures(History(FINISHED, log), cfg, SECOND_UPLOAD, 7) >= 1
  {
    assert SECOND_UPLOAD[0] == CloseUpload(true) && Leaves(FINISHED, CloseUpload(true), Finished) == 1;
  }

  lemma {:induction false} SecondUploadBills(cfg: Config, log: seq<Event>)
    ensures Bills(Run(History(FINISHED, log), cfg, SECOND_UPLOAD).log, 7) >= Bills(log, 7) + 1
  {
    SecondUploadCompletes(cfg, log);
    BillsAreCounted(History(FINISHED, log), cfg, SECOND_UPLOAD, 7);
    UploadDeparts(cfg, log);
  }

  /** From a new row, with fresh ids: a second upload onto the completed recording, a re-drive and
      the deliveries that follow announce run 7 as completed twice. */
  lemma {:induction false} LateUploadExample(cfg: Config)
    ensures Bills(Run(History(NEW_ROW, []), cfg, FIRST_UPLOAD + SECOND_UPLOAD).log, 7) >= 2
  {
    var done := Run(History(NEW_ROW, []), cfg, FIRST_UPLOAD);
    FirstUploadCompletes(cfg);
    BillsAreCounted(History(NEW_ROW, []), cfg, FIRST_UPLOAD, 7);
    SecondUploadBills(cfg, done.log);
    RunConcat(History(NEW_ROW, []), cfg, FIRST_UPLOAD, SECOND_UPLOAD);
  }
}
