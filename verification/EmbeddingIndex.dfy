/** The embedding index of one recording's segments, and the pass that brings it up to date:
    `vector/embedding.py`. */
module EmbeddingIndex {
  import opened Results
  import opened Embedding
  import opened EmbeddingUnits

  /** A content hash; hashes are only ever compared. */
  type Hash = int

  datatype Key = Key(seg: int, model: string, scheme: string, chunk: nat)
  datatype Row = Row(hash: Hash, vector: Vector, text: string, span: nat)
  type Rows = map<Key, Row>

  datatype Job = Job(scheme: string, force: bool, hash: string -> Hash, cfg: Config)

  // ----- what is known

  /** The models and hashes stored for a segment in a scheme, whatever their chunk. */
  function Entries(rows: Rows, scheme: string, seg: int): set<(string, Hash)> {
    set k | k in rows && k.scheme == scheme && k.seg == seg :: (k.model, rows[k].hash)
  }

  /** Is the hash stored, for the pinned model if one is? */
  predicate HashKnown(entries: set<(string, Hash)>, h: Hash, pinned: string) {
    exists e :: e in entries && e.1 == h && (pinned == "" || e.0 == pinned)
  }

  predicate Due(rows: Rows, u: Unit, job: Job) {
    job.force || !HashKnown(Entries(rows, job.scheme, u.seg), job.hash(u.text), job.cfg.model)
  }

  lemma {:induction false} KnownIff(rows: Rows, scheme: string, seg: int, h: Hash, pinned: string)
    ensures HashKnown(Entries(rows, scheme, seg), h, pinned)
        <==> exists k :: k in rows && k.scheme == scheme && k.seg == seg && rows[k].hash == h && (pinned == "" || k.model == pinned)
  {
    if k :| k in rows && k.scheme == scheme && k.seg == seg && rows[k].hash == h && (pinned == "" || k.model == pinned) {
      assert (k.model, rows[k].hash) in Entries(rows, scheme, seg);
    }
  }

  /** The units among the first `n` that are due. */
  function Pending(units: seq<Unit>, n: nat, rows: Rows, job: Job): seq<Unit>
    requires n <= |units|
  {
    if n == 0 then []
    else Pending(units, n - 1, rows, job) + if Due(rows, units[n - 1], job) then [units[n - 1]] else []
  }

  lemma {:induction false} PendingIff(units: seq<Unit>, n: nat, rows: Rows, job: Job)
    requires n <= |units|
    ensures forall u :: u in Pending(units, n, rows, job) <==> u in units[..n] && Due(rows, u, job)
  {
    if n == 0 {
      assert units[..n] == [];
    } else {
      PendingIff(units, n - 1, rows, job);
      forall u ensures u in Pending(units, n, rows, job) <==> u in units[..n] && Due(rows, u, job) {
        assert units[..n] == units[..n - 1] + [units[n - 1]];
        assert u in units[..n] <==> u in units[..n - 1] || u == units[n - 1];
      }
    }
  }

  lemma {:induction false} PendingIsDistinct(units: seq<Unit>, n: nat, rows: Rows, job: Job)
    requires n <= |units| && DistinctKeys(units)
    ensures DistinctKeys(Pending(units, n, rows, job))
  {
    if n > 0 {
      PendingIsDistinct(units, n - 1, rows, job);
      PendingIff(units, n - 1, rows, job);
      var due, last := Pending(units, n - 1, rows, job), units[n - 1];
      forall i | 0 <= i < |due| ensures due[i].seg != last.seg || due[i].chunk != last.chunk {
        assert due[i] in due;
        var j :| 0 <= j < n - 1 && units[j] == due[i];
      }
    }
  }

  // ----- a pass

  function Texts(units: seq<Unit>): (r: seq<string>)
    ensures |r| == |units|
  {
    seq(|units|, i requires 0 <= i < |units| => units[i].text)
  }

  function KeyOf(u: Unit, model: string, job: Job): Key {
    Key(u.seg, model, job.scheme, u.chunk)
  }

  /** A row of the segment scheme does not repeat its segment's text. */
  function RowOf(u: Unit, v: Vector, job: Job): Row {
    Row(job.hash(u.text), v, if job.scheme == "segment" then "" else u.text, u.span)
  }

  function Stored(rows: Rows, units: seq<Unit>, n: nat, a: Answer, job: Job): Rows
    requires n <= |units| == |a.vectors|
  {
    if n == 0 then rows
    else Stored(rows, units, n - 1, a, job)[KeyOf(units[n - 1], a.model, job) := RowOf(units[n - 1], a.vectors[n - 1], job)]
  }

  lemma {:induction false} StoredAt(rows: Rows, units: seq<Unit>, n: nat, a: Answer, job: Job)
    requires n <= |units| == |a.vectors| && DistinctKeys(units)
    ensures var now := Stored(rows, units, n, a, job);
            forall i :: 0 <= i < n ==>
              KeyOf(units[i], a.model, job) in now && now[KeyOf(units[i], a.model, job)] == RowOf(units[i], a.vectors[i], job)
  {
    if n > 0 { StoredAt(rows, units, n - 1, a, job); }
  }

  /** Has the row, if any, stayed as it was? */
  predicate Kept(rows: Rows, now: Rows, k: Key) {
    (k in now <==> k in rows) && (k in rows ==> now[k] == rows[k])
  }

  lemma {:induction false} StoredElsewhere(rows: Rows, units: seq<Unit>, n: nat, a: Answer, job: Job, k: Key)
    requires n <= |units| == |a.vectors| && forall u :: u in units ==> k != KeyOf(u, a.model, job)
    ensures Kept(rows, Stored(rows, units, n, a, job), k)
  {
    if n > 0 { StoredElsewhere(rows, units, n - 1, a, job, k); }
  }

  /** The rows after a pass over the units, and how many units it embedded. */
  function Pass(rows: Rows, units: seq<Unit>, ask: (nat, seq<string>) -> Reply, job: Job): (Rows, Result<nat, Fault>) {
    var due := Pending(units, |units|, rows, job);
    if due == [] then (rows, Ok(0))
    else match Embedded(Texts(due), ask, job.cfg)
      case Err(e) => (rows, Err(e))
      case Ok(a) =>
        OneVectorPerText(Texts(due), ask, job.cfg);
        (Stored(rows, due, |due|, a, job), Ok(|due|))
  }

  // ----- what a pass leaves behind

  /** The unit's own row, under the model, holds the hash of its text. */
  predicate Current(rows: Rows, u: Unit, model: string, job: Job) {
    KeyOf(u, model, job) in rows && rows[KeyOf(u, model, job)].hash == job.hash(u.text)
  }

  /** The pass goes through, and what it embeds it embeds with `model`. */
  ghost predicate Through(rows: Rows, units: seq<Unit>, ask: (nat, seq<string>) -> Reply, job: Job, model: string) {
    var due := Pending(units, |units|, rows, job);
    due != [] ==> Embedded(Texts(due), ask, job.cfg).Ok? && Embedded(Texts(due), ask, job.cfg).value.model == model
  }

  ghost predicate Went(rows: Rows, units: seq<Unit>, ask: (nat, seq<string>) -> Reply, job: Job, model: string) {
    DistinctKeys(units) && Through(rows, units, ask, job, model)
  }

  lemma {:induction false} PassCurrent(rows: Rows, units: seq<Unit>, ask: (nat, seq<string>) -> Reply, job: Job, model: string, u: Unit)
    requires Went(rows, units, ask, job, model) && u in units && Due(rows, u, job)
    ensures Current(Pass(rows, units, ask, job).0, u, model, job)
  {
    var due := Pending(units, |units|, rows, job);
    PendingIff(units, |units|, rows, job);
    assert units[..|units|] == units;
    var i :| 0 <= i < |due| && due[i] == u;
    OneVectorPerText(Texts(due), ask, job.cfg);
    PendingIsDistinct(units, |units|, rows, job);
    StoredAt(rows, due, |due|, Embedded(Texts(due), ask, job.cfg).value, job);
  }

  /** What a pass stores for a unit that was due: the hash of its text, how many utterances it spans,
      and its text, unless the segment itself holds that. */
  lemma {:induction false} PassStores(rows: Rows, units: seq<Unit>, ask: (nat, seq<string>) -> Reply, job: Job, model: string, u: Unit)
    requires Went(rows, units, ask, job, model) && u in units && Due(rows, u, job)
    ensures var now, k := Pass(rows, units, ask, job).0, Key(u.seg, model, job.scheme, u.chunk);
            k in now && now[k].hash == job.hash(u.text) && now[k].span == u.span
            && now[k].text == if job.scheme == "segment" then "" else u.text
  {
    var due := Pending(units, |units|, rows, job);
    PendingIff(units, |units|, rows, job);
    assert units[..|units|] == units;
    var i :| 0 <= i < |due| && due[i] == u;
    OneVectorPerText(Texts(due), ask, job.cfg);
    PendingIsDistinct(units, |units|, rows, job);
    StoredAt(rows, due, |due|, Embedded(Texts(due), ask, job.cfg).value, job);
  }

  lemma {:induction false} PassKeeps(rows: Rows, units: seq<Unit>, ask: (nat, seq<string>) -> Reply, job: Job, model: string, k: Key)
    requires Went(rows, units, ask, job, model)
    requires forall u :: u in units && Due(rows, u, job) ==> k != KeyOf(u, model, job)
    ensures Kept(rows, Pass(rows, units, ask, job).0, k)
  {
    var due := Pending(units, |units|, rows, job);
    PendingIff(units, |units|, rows, job);
    assert units[..|units|] == units;
    if due != [] {
      OneVectorPerText(Texts(due), ask, job.cfg);
      StoredElsewhere(rows, due, |due|, Embedded(Texts(due), ask, job.cfg).value, job, k);
    }
  }

  lemma {:induction false} KeysDiffer(units: seq<Unit>, u: Unit, v: Unit, model: string, job: Job)
    requires DistinctKeys(units) && u in units && v in units && u != v
    ensures KeyOf(u, model, job) != KeyOf(v, model, job)
  {
    var i :| 0 <= i < |units| && units[i] == u;
    var j :| 0 <= j < |units| && units[j] == v;
    assert i < j || j < i;
  }

  /** After a pass a unit's own row is current exactly if the unit was due, or its row was current
      before: a skipped unit is left as it was. */
  lemma {:induction false} CurrentIff(rows: Rows, units: seq<Unit>, ask: (nat, seq<string>) -> Reply, job: Job, model: string, u: Unit)
    requires Went(rows, units, ask, job, model) && u in units
    ensures Current(Pass(rows, units, ask, job).0, u, model, job) <==> Due(rows, u, job) || Current(rows, u, model, job)
  {
    if Due(rows, u, job) {
      PassCurrent(rows, units, ask, job, model, u);
    } else {
      forall v | v in units && Due(rows, v, job) ensures KeyOf(u, model, job) != KeyOf(v, model, job) {
        KeysDiffer(units, u, v, model, job);
      }
      PassKeeps(rows, units, ask, job, model, KeyOf(u, model, job));
    }
  }

  /** When does a pass leave every unit's row current under the model it embeds with? */
  lemma {:induction false} AgreesIff(rows: Rows, units: seq<Unit>, ask: (nat, seq<string>) -> Reply, job: Job, model: string)
    requires Went(rows, units, ask, job, model)
    ensures (forall u :: u in units ==> Current(Pass(rows, units, ask, job).0, u, model, job))
        <==> (forall u :: u in units && !Due(rows, u, job) ==> Current(rows, u, model, job))
  {
    forall u | u in units ensures Current(Pass(rows, units, ask, job).0, u, model, job) <==> Due(rows, u, job) || Current(rows, u, model, job) {
      CurrentIff(rows, units, ask, job, model, u);
    }
  }

  // ----- the segment scheme

  /** The scheme has one row a segment and model. */
  ghost predicate Single(rows: Rows, scheme: string) {
    forall k :: k in rows && k.scheme == scheme ==> k.chunk == 0
  }

  ghost predicate OneEach(units: seq<Unit>) {
    DistinctKeys(units) && forall u :: u in units ==> u.chunk == 0
  }

  /** The row makes the unit known. */
  predicate Witness(rows: Rows, k: Key, u: Unit, job: Job) {
    && k in rows && k.scheme == job.scheme && k.seg == u.seg && rows[k].hash == job.hash(u.text)
    && (job.cfg.model == "" || k.model == job.cfg.model)
  }

  /** The rows hold the unit's hash, for the pinned model if one is. */
  ghost predicate Known(rows: Rows, u: Unit, job: Job) {
    exists k :: Witness(rows, k, u, job)
  }

  /** The answers come under the name that the next pass will look for. */
  predicate Named(job: Job, model: string) {
    job.cfg.model == "" || job.cfg.model == model
  }

  lemma {:induction false} DueIff(rows: Rows, u: Unit, job: Job)
    ensures Due(rows, u, job) <==> job.force || !Known(rows, u, job)
  {
    KnownIff(rows, job.scheme, u.seg, job.hash(u.text), job.cfg.model);
    if k :| k in rows && k.scheme == job.scheme && k.seg == u.seg && rows[k].hash == job.hash(u.text)
            && (job.cfg.model == "" || k.model == job.cfg.model)
    {
      assert Witness(rows, k, u, job);
    }
  }

  /** With a pinned model that answers under its own name, a pass over segments leaves every
      segment's row current, whatever the rows were before. */
  lemma {:induction false} SegmentsAgree(rows: Rows, units: seq<Unit>, ask: (nat, seq<string>) -> Reply, job: Job)
    requires Went(rows, units, ask, job, job.cfg.model) && job.cfg.model != ""
    requires Single(rows, job.scheme) && OneEach(units)
    ensures forall u :: u in units ==> Current(Pass(rows, units, ask, job).0, u, job.cfg.model, job)
  {
    forall u | u in units && !Due(rows, u, job) ensures Current(rows, u, job.cfg.model, job) {
      DueIff(rows, u, job);
    }
    AgreesIff(rows, units, ask, job, job.cfg.model);
  }

  /** A pass adds rows of its own scheme and model only, on its units' keys, and removes none. */
  lemma {:induction false} WhatAPassAdds(rows: Rows, units: seq<Unit>, ask: (nat, seq<string>) -> Reply, job: Job, model: string, k: Key)
    requires Went(rows, units, ask, job, model)
    ensures var now := Pass(rows, units, ask, job).0;
            && (k in rows ==> k in now)
            && (!Kept(rows, now, k) ==> k.scheme == job.scheme && k.model == model && exists u :: u in units && Due(rows, u, job) && k == KeyOf(u, model, job))
  {
    if u :| u in units && Due(rows, u, job) && k == KeyOf(u, model, job) {
      PassCurrent(rows, units, ask, job, model, u);
    } else {
      PassKeeps(rows, units, ask, job, model, k);
    }
  }

  lemma {:induction false} PassKeepsSingle(rows: Rows, units: seq<Unit>, ask: (nat, seq<string>) -> Reply, job: Job, model: string)
    requires Went(rows, units, ask, job, model) && OneEach(units) && Single(rows, job.scheme)
    ensures Single(Pass(rows, units, ask, job).0, job.scheme)
  {
    forall k | k in Pass(rows, units, ask, job).0 && k.scheme == job.scheme ensures k.chunk == 0 {
      WhatAPassAdds(rows, units, ask, job, model, k);
    }
  }

  lemma {:induction false} NothingDue(units: seq<Unit>, n: nat, rows: Rows, job: Job)
    requires n <= |units| && !job.force && forall u :: u in units ==> Known(rows, u, job)
    ensures Pending(units, n, rows, job) == []
  {
    if n > 0 {
      NothingDue(units, n - 1, rows, job);
      DueIff(rows, units[n - 1], job);
    }
  }

  // ----- both schemes

  /** In any scheme: rows that are current for every unit leave an unforced pass nothing to do. */
  lemma {:induction false} CurrentAsksNothing(rows: Rows, units: seq<Unit>, ask: (nat, seq<string>) -> Reply, job: Job, model: string)
    requires !job.force && (job.cfg.model == "" || job.cfg.model == model)
    requires forall u :: u in units ==> Current(rows, u, model, job)
    ensures Pass(rows, units, ask, job) == (rows, Ok(0))
  {
    forall u | u in units ensures Known(rows, u, job) {
      assert Witness(rows, KeyOf(u, model, job), u, job);
    }
    NothingDue(units, |units|, rows, job);
  }

  /** A forced pass leaves every unit current, in any scheme. */
  lemma {:induction false} ForcedPassAgrees(rows: Rows, units: seq<Unit>, ask: (nat, seq<string>) -> Reply, job: Job, model: string)
    requires Went(rows, units, ask, job, model) && job.force
    ensures forall u :: u in units ==> Current(Pass(rows, units, ask, job).0, u, model, job)
  {
    AgreesIff(rows, units, ask, job, model);
  }

  // ----- vectors

  /** Every row under the model holds the encoding of a text with the row's hash. */
  ghost predicate Faithful(rows: Rows, model: string, enc: string -> Vector, hash: string -> Hash) {
    forall k :: k in rows && k.model == model ==> exists t :: rows[k].hash == hash(t) && rows[k].vector == enc(t)
  }

  lemma {:induction false} StoredIsFaithful(rows: Rows, units: seq<Unit>, n: nat, a: Answer, job: Job, model: string, enc: string -> Vector)
    requires n <= |units| == |a.vectors| && a.vectors == Encoded(Texts(units), enc) && Faithful(rows, model, enc, job.hash)
    ensures Faithful(Stored(rows, units, n, a, job), model, enc, job.hash)
  {
    if n > 0 {
      StoredIsFaithful(rows, units, n - 1, a, job, model, enc);
      assert RowOf(units[n - 1], a.vectors[n - 1], job).vector == enc(units[n - 1].text);
    }
  }

  lemma {:induction false} PassIsFaithful(rows: Rows, units: seq<Unit>, ask: (nat, seq<string>) -> Reply, job: Job, model: string, enc: string -> Vector)
    requires Computes(ask, enc) && Faithful(rows, model, enc, job.hash)
    ensures Faithful(Pass(rows, units, ask, job).0, model, enc, job.hash)
  {
    var due := Pending(units, |units|, rows, job);
    if due != [] && Embedded(Texts(due), ask, job.cfg).Ok? {
      EveryTextGetsItsVector(Texts(due), ask, job.cfg, enc);
      StoredIsFaithful(rows, due, |due|, Embedded(Texts(due), ask, job.cfg).value, job, model, enc);
    }
  }

  /** With a model that computes `enc` and texts that only share a hash when equal, a current row
      holds the encoding of its unit's text. */
  lemma {:induction false} CurrentRowsHoldTheEncoding(rows: Rows, u: Unit, model: string, enc: string -> Vector, job: Job)
    requires Faithful(rows, model, enc, job.hash) && Current(rows, u, model, job)
    requires forall t :: job.hash(t) == job.hash(u.text) ==> t == u.text
    ensures rows[KeyOf(u, model, job)].vector == enc(u.text)
  {
  }
}
