/** What a pass over the embedding index leaves for the next one to send: `vector/embedding.py`. */
module Resending {
  import opened Results
  import opened Embedding
  import opened EmbeddingUnits
  import opened EmbeddingIndex

  /** Some row that makes the unit known is the key of no unit the pass embeds. */
  ghost predicate Survives(rows: Rows, units: seq<Unit>, job: Job, model: string, u: Unit) {
    exists k :: Witness(rows, k, u, job) && forall v :: v in units && Due(rows, v, job) ==> k != KeyOf(v, model, job)
  }

  /** The pass stores the unit's hash on its segment, where the next pass will find it. */
  ghost predicate Restored(rows: Rows, units: seq<Unit>, job: Job, model: string, u: Unit) {
    Named(job, model) && exists v :: v in units && Due(rows, v, job) && v.seg == u.seg && job.hash(v.text) == job.hash(u.text)
  }

  lemma {:induction false} KnownWasForetold(rows: Rows, units: seq<Unit>, ask: (nat, seq<string>) -> Reply, job: Job, model: string, u: Unit)
    requires Went(rows, units, ask, job, model) && Known(Pass(rows, units, ask, job).0, u, job)
    ensures Survives(rows, units, job, model, u) || Restored(rows, units, job, model, u)
  {
    var now := Pass(rows, units, ask, job).0;
    var k :| Witness(now, k, u, job);
    if v :| v in units && Due(rows, v, job) && k == KeyOf(v, model, job) {
      PassCurrent(rows, units, ask, job, model, v);
    } else {
      PassKeeps(rows, units, ask, job, model, k);
      assert Witness(rows, k, u, job);
    }
  }

  /** Known after the pass, as it can be told before: in any scheme, forced or not. */
  lemma {:induction false} KnownAfterIff(rows: Rows, units: seq<Unit>, ask: (nat, seq<string>) -> Reply, job: Job, model: string, u: Unit)
    requires Went(rows, units, ask, job, model)
    ensures Known(Pass(rows, units, ask, job).0, u, job) <==> Survives(rows, units, job, model, u) || Restored(rows, units, job, model, u)
  {
    var now := Pass(rows, units, ask, job).0;
    if Known(now, u, job) { KnownWasForetold(rows, units, ask, job, model, u); }
    if k :| Witness(rows, k, u, job) && forall v :: v in units && Due(rows, v, job) ==> k != KeyOf(v, model, job) {
      PassKeeps(rows, units, ask, job, model, k);
      assert Witness(now, k, u, job);
    }
    if Restored(rows, units, job, model, u) {
      var v :| v in units && Due(rows, v, job) && v.seg == u.seg && job.hash(v.text) == job.hash(u.text);
      PassCurrent(rows, units, ask, job, model, v);
      assert Witness(now, KeyOf(v, model, job), u, job);
    }
  }

  lemma {:induction false} PendingStep(units: seq<Unit>, n: nat, rows: Rows, job: Job)
    requires 0 < n <= |units| && !job.force
    ensures Pending(units, n, rows, job) == [] <==> Pending(units, n - 1, rows, job) == [] && Known(rows, units[n - 1], job)
  {
    DueIff(rows, units[n - 1], job);
  }

  lemma {:induction false} NothingPendingIff(units: seq<Unit>, n: nat, rows: Rows, job: Job)
    requires n <= |units| && !job.force
    ensures Pending(units, n, rows, job) == [] <==> forall i :: 0 <= i < n ==> Known(rows, units[i], job)
  {
    if n > 0 {
      NothingPendingIff(units, n - 1, rows, job);
      PendingStep(units, n, rows, job);
    }
  }

  lemma {:induction false} ForceTellsNothing(rows: Rows, u: Unit, job: Job)
    ensures Known(rows, u, job) <==> Known(rows, u, job.(force := false))
  {
    var second := job.(force := false);
    if k :| Witness(rows, k, u, job) { assert Witness(rows, k, u, second); }
    if k :| Witness(rows, k, u, second) { assert Witness(rows, k, u, job); }
  }

  /** When is everything known: a second, unforced pass over the same units finds nothing to send
      if and only if each unit keeps a row that makes it known, or the pass stores its hash. */
  lemma {:induction false} SecondPassIff(rows: Rows, units: seq<Unit>, ask: (nat, seq<string>) -> Reply, job: Job, model: string)
    requires Went(rows, units, ask, job, model)
    ensures var now := Pass(rows, units, ask, job).0;
            Pending(units, |units|, now, job.(force := false)) == []
            <==> forall i :: 0 <= i < |units| ==> Survives(rows, units, job, model, units[i]) || Restored(rows, units, job, model, units[i])
  {
    var now, second := Pass(rows, units, ask, job).0, job.(force := false);
    NothingPendingIff(units, |units|, now, second);
    forall i | 0 <= i < |units|
      ensures Known(now, units[i], second)
          <==> Survives(rows, units, job, model, units[i]) || Restored(rows, units, job, model, units[i])
    {
      KnownAfterIff(rows, units, ask, job, model, units[i]);
      ForceTellsNothing(now, units[i], job);
    }
  }

  // ----- a model that answers under another name

  /** Then a pass makes nothing known, in any scheme: a unit is known after it exactly if it was
      before, so what was sent because it was unknown is sent again by every pass. */
  lemma {:induction false} RenamedModelTellsNothing(rows: Rows, units: seq<Unit>, ask: (nat, seq<string>) -> Reply, job: Job, model: string, u: Unit)
    requires Went(rows, units, ask, job, model) && !Named(job, model)
    ensures Known(Pass(rows, units, ask, job).0, u, job) <==> Known(rows, u, job)
  {
    KnownAfterIff(rows, units, ask, job, model, u);
    if k :| Witness(rows, k, u, job) {
      assert forall v :: v in units && Due(rows, v, job) ==> k != KeyOf(v, model, job);
    }
  }

  // ----- the segment scheme

  lemma {:induction false} SegmentKnownIff(rows: Rows, units: seq<Unit>, ask: (nat, seq<string>) -> Reply, job: Job, model: string, u: Unit)
    requires Went(rows, units, ask, job, model) && OneEach(units) && Single(rows, job.scheme) && u in units
    ensures Known(Pass(rows, units, ask, job).0, u, job) <==> Named(job, model) || Known(rows, u, job)
  {
    if !Named(job, model) {
      RenamedModelTellsNothing(rows, units, ask, job, model, u);
    } else {
      KnownAfterIff(rows, units, ask, job, model, u);
      if Due(rows, u, job) {
        assert Restored(rows, units, job, model, u);
      } else {
        DueIff(rows, u, job);
        var k :| Witness(rows, k, u, job);
        forall v | v in units && Due(rows, v, job) ensures k != KeyOf(v, model, job) { KeysDiffer(units, u, v, model, job); }
        assert Survives(rows, units, job, model, u);
      }
    }
  }

  /** Over unchanged segments a second, unforced pass has nothing to send if and only if the answers
      come under the name it looks for, or every segment was known before the first. */
  lemma {:induction false} SegmentSecondPassIff(rows: Rows, units: seq<Unit>, ask: (nat, seq<string>) -> Reply, job: Job, model: string)
    requires Went(rows, units, ask, job, model) && OneEach(units) && Single(rows, job.scheme)
    ensures var now := Pass(rows, units, ask, job).0;
            Pending(units, |units|, now, job.(force := false)) == []
            <==> Named(job, model) || forall i :: 0 <= i < |units| ==> Known(rows, units[i], job)
  {
    var now, second := Pass(rows, units, ask, job).0, job.(force := false);
    NothingPendingIff(units, |units|, now, second);
    forall i | 0 <= i < |units| ensures Known(now, units[i], second) <==> Named(job, model) || Known(rows, units[i], job) {
      SegmentKnownIff(rows, units, ask, job, model, units[i]);
      ForceTellsNothing(now, units[i], job);
    }
  }

  /** So where the answers come under that name, the second pass makes no call and leaves the rows alone. */
  lemma {:induction false} SecondPassAsksNothing(rows: Rows, units: seq<Unit>, ask: (nat, seq<string>) -> Reply, again: (nat, seq<string>) -> Reply,
                                                 job: Job, model: string)
    requires Went(rows, units, ask, job, model) && OneEach(units) && Single(rows, job.scheme) && Named(job, model)
    ensures var now := Pass(rows, units, ask, job).0;
            Pass(now, units, again, job.(force := false)) == (now, Ok(0))
  {
    SegmentSecondPassIff(rows, units, ask, job, model);
  }

  // ----- a fault

  /** The number of the first batch from `k` on that fails, or of none. */
  function FirstFault(batches: seq<seq<string>>, k: nat, ask: (nat, seq<string>) -> Reply, dim: int): (f: nat)
    requires k <= |batches|
    ensures k <= f <= |batches|
    ensures forall i :: k <= i < f ==> Judged(ask(i, batches[i]), |batches[i]|, dim).Ok?
    ensures f < |batches| ==> Judged(ask(f, batches[f]), |batches[f]|, dim).Err?
    decreases |batches| - k
  {
    if k < |batches| && Judged(ask(k, batches[k]), |batches[k]|, dim).Ok? then FirstFault(batches, k + 1, ask, dim) else k
  }

  lemma {:induction false} FaultIsFirst(batches: seq<seq<string>>, k: nat, ask: (nat, seq<string>) -> Reply, dim: int, model: string,
                                        vectors: seq<Vector>)
    requires k <= |batches|
    ensures Answered(batches, k, ask, dim, model, vectors).Err? <==> FirstFault(batches, k, ask, dim) < |batches|
    decreases |batches| - k
  {
    if k < |batches| && Judged(ask(k, batches[k]), |batches[k]|, dim).Ok? {
      var a := Judged(ask(k, batches[k]), |batches[k]|, dim).value;
      FaultIsFirst(batches, k + 1, ask, dim, if a.model != "" then a.model else model, vectors + a.vectors);
    }
  }

  lemma {:induction false} FlatPrefix(batches: seq<seq<string>>, f: nat)
    requires f <= |batches| && forall i :: 0 <= i < |batches| ==> batches[i] != []
    ensures Flat(batches[..f]) <= Flat(batches) && (Flat(batches[..f]) != [] <==> f > 0)
    decreases |batches|
  {
    if f == |batches| {
      assert batches[..f] == batches;
      if f > 0 { assert batches[f - 1] != []; }
    } else {
      FlatPrefix(batches[..|batches| - 1], f);
      assert batches[..|batches| - 1][..f] == batches[..f];
    }
  }

  /** The texts of a pass that a model answered before the first fault. */
  function AnsweredTexts(rows: Rows, units: seq<Unit>, ask: (nat, seq<string>) -> Reply, job: Job): seq<string> {
    var batches := Batches(Texts(Pending(units, |units|, rows, job)), job.cfg.batchSize, job.cfg.batchMaxChars);
    Flat(batches[..FirstFault(batches, 0, ask, job.cfg.dim)])
  }

  /** A fault stores nothing, not even what earlier batches answered: the next pass has the same
      texts to send, so it sends an answered one again if and only if the first batch was answered. */
  lemma {:induction false} FaultSendsEverythingAgain(rows: Rows, units: seq<Unit>, ask: (nat, seq<string>) -> Reply, job: Job)
    requires Pass(rows, units, ask, job).1.Err?
    ensures var left := Texts(Pending(units, |units|, Pass(rows, units, ask, job).0, job));
            var batches := Batches(left, job.cfg.batchSize, job.cfg.batchMaxChars);
            && FirstFault(batches, 0, ask, job.cfg.dim) < |batches|
            && AnsweredTexts(rows, units, ask, job) <= left
            && (AnsweredTexts(rows, units, ask, job) != [] <==> Judged(ask(0, batches[0]), |batches[0]|, job.cfg.dim).Ok?)
  {
    var left := Texts(Pending(units, |units|, rows, job));
    var batches := Batches(left, job.cfg.batchSize, job.cfg.batchMaxChars);
    FaultIsFirst(batches, 0, ask, job.cfg.dim, job.cfg.model, []);
    BatchesKeepTheTexts(left, job.cfg.batchSize, job.cfg.batchMaxChars);
    forall i | 0 <= i < |batches| ensures batches[i] != [] { assert Fits(batches[i], job.cfg.batchSize, job.cfg.batchMaxChars); }
    FlatPrefix(batches, FirstFault(batches, 0, ask, job.cfg.dim));
  }

  /** The first of two batches is answered, the second fails. */
  function OneAnswer(v: Vector): (nat, seq<string>) -> Reply {
    (k: nat, batch: seq<string>) => if k == 0 then Vectors("m", None, [v]) else CallFailed
  }

  lemma {:induction false} TwoBatches()
    ensures Batches(["a", "b"], 1, 0) == [["a"], ["b"]]
  {
    assert BatchesOf(["a", "b"], 1, 1, 0) == [["a"]];
    assert Full(["a"], "b", 1, 0);
  }

  /** Two texts in a batch each: the one that was answered is sent again. */
  lemma {:induction false} AnsweredBatchIsSentAgain(hash: string -> Hash, v: Vector)
    ensures var job := Job("segment", false, hash, Config("m", 1, 0, |v|));
            var units := [Unit(1, "a", 1, 0), Unit(2, "b", 1, 0)];
            && Judged(OneAnswer(v)(0, ["a"]), 1, |v|).Ok? && Batches(["a", "b"], 1, 0) == [["a"], ["b"]]
            && Pass(map[], units, OneAnswer(v), job) == (map[], Err(EmbedCallFailed))
            && Texts(Pending(units, 2, Pass(map[], units, OneAnswer(v), job).0, job)) == ["a", "b"]
  {
    var job := Job("segment", false, hash, Config("m", 1, 0, |v|));
    var units := [Unit(1, "a", 1, 0), Unit(2, "b", 1, 0)];
    DueIff(map[], units[0], job);
    DueIff(map[], units[1], job);
    assert Pending(units, 1, map[], job) == [units[0]];
    assert Pending(units, 2, map[], job) == units;
    assert Texts(units) == ["a", "b"];
    TwoBatches();
    assert Answered([["a"], ["b"]], 1, OneAnswer(v), |v|, "m", [v]) == Err(EmbedCallFailed);
  }

  // ----- windows that move along their anchor

  /** Two units on one segment. The first is known by the row of the second alone, the second is
      embedded, and no other unit embedded on the segment has the first one's hash: after the pass
      the first one's own row is stale, and its hash is nowhere. */
  lemma {:induction false} ShiftedWindowIsLost(rows: Rows, units: seq<Unit>, ask: (nat, seq<string>) -> Reply, job: Job, model: string, u: Unit, v: Unit)
    requires Went(rows, units, ask, job, model) && !job.force && u in units && v in units && u.seg == v.seg && u != v
    requires Witness(rows, KeyOf(v, model, job), u, job) && forall k :: Witness(rows, k, u, job) ==> k == KeyOf(v, model, job)
    requires Due(rows, v, job)
    requires forall x :: x in units && Due(rows, x, job) && x.seg == u.seg ==> job.hash(x.text) != job.hash(u.text)
    ensures var now := Pass(rows, units, ask, job).0;
            !Current(now, u, model, job) && !Known(now, u, job) && Due(now, u, job)
  {
    var now := Pass(rows, units, ask, job).0;
    KnownAfterIff(rows, units, ask, job, model, u);
    DueIff(now, u, job);
    assert Named(job, model);
    if Current(now, u, model, job) { assert Witness(now, KeyOf(u, model, job), u, job); }
  }
}
