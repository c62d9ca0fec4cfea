/** The embedding index of a recording's summary, chunk by chunk: `vector/embedding.py`. */
module SummaryIndex {
  import opened Results
  import opened Embedding
  import opened EmbeddingIndex

  datatype Slot = Slot(chunk: nat, model: string)
  datatype Entry = Entry(hash: Hash, vector: Vector)
  type Slots = map<Slot, Entry>

  /** `(chunk_index, model, text_hash)` of every row. */
  function Hashes(slots: Slots): set<(nat, string, Hash)> {
    set s | s in slots :: (s.chunk, s.model, slots[s].hash)
  }

  predicate ChunkKnown(known: set<(nat, string, Hash)>, chunk: nat, h: Hash, pinned: string) {
    exists e :: e in known && e.0 == chunk && e.2 == h && (pinned == "" || e.1 == pinned)
  }

  predicate ChunkDue(slots: Slots, texts: seq<string>, i: nat, job: Job)
    requires i < |texts|
  {
    job.force || !ChunkKnown(Hashes(slots), i, job.hash(texts[i]), job.cfg.model)
  }

  /** The numbers of the chunks among the first `n` that are due. */
  function PendingChunks(texts: seq<string>, n: nat, slots: Slots, job: Job): (r: seq<nat>)
    requires n <= |texts|
    ensures forall j :: 0 <= j < |r| ==> r[j] < n
  {
    if n == 0 then []
    else PendingChunks(texts, n - 1, slots, job) + if ChunkDue(slots, texts, n - 1, job) then [n - 1] else []
  }

  lemma {:induction false} PendingChunksIff(texts: seq<string>, n: nat, slots: Slots, job: Job, i: nat)
    requires n <= |texts|
    ensures i in PendingChunks(texts, n, slots, job) <==> i < n && ChunkDue(slots, texts, i, job)
  {
    if n > 0 { PendingChunksIff(texts, n - 1, slots, job, i); }
  }

  /** No chunk is pending exactly if none is due. */
  lemma {:induction false} NoneIsPendingIff(texts: seq<string>, slots: Slots, job: Job)
    ensures PendingChunks(texts, |texts|, slots, job) == [] <==> forall i: nat :: i < |texts| ==> !ChunkDue(slots, texts, i, job)
  {
    var due := PendingChunks(texts, |texts|, slots, job);
    if due == [] {
      forall i: nat | i < |texts| ensures !ChunkDue(slots, texts, i, job) {
        PendingChunksIff(texts, |texts|, slots, job, i);
      }
    } else {
      PendingChunksIff(texts, |texts|, slots, job, due[0]);
    }
  }

  function At(texts: seq<string>, due: seq<nat>): (r: seq<string>)
    requires forall i :: 0 <= i < |due| ==> due[i] < |texts|
    ensures |r| == |due|
  {
    seq(|due|, i requires 0 <= i < |due| => texts[due[i]])
  }

  function StoredChunks(slots: Slots, texts: seq<string>, due: seq<nat>, n: nat, a: Answer, job: Job): Slots
    requires n <= |due| == |a.vectors| && forall i :: 0 <= i < |due| ==> due[i] < |texts|
  {
    if n == 0 then slots
    else StoredChunks(slots, texts, due, n - 1, a, job)[Slot(due[n - 1], a.model) := Entry(job.hash(texts[due[n - 1]]), a.vectors[n - 1])]
  }

  /** Without the model's chunks from number `keep` on. */
  function Pruned(slots: Slots, model: string, keep: nat): (r: Slots)
    ensures forall s :: s in r <==> s in slots && !(s.model == model && s.chunk >= keep)
    ensures forall s :: s in r ==> r[s] == slots[s]
  {
    map s | s in slots && !(s.model == model && s.chunk >= keep) :: slots[s]
  }

  /** The rows after a pass over the summary's chunks. */
  function ChunkPass(slots: Slots, texts: seq<string>, ask: (nat, seq<string>) -> Reply, job: Job): (Slots, Result<nat, Fault>) {
    var due := PendingChunks(texts, |texts|, slots, job);
    if due == [] then (slots, Ok(0))
    else match Embedded(At(texts, due), ask, job.cfg)
      case Err(e) => (slots, Err(e))
      case Ok(a) =>
        OneVectorPerText(At(texts, due), ask, job.cfg);
        (Pruned(StoredChunks(slots, texts, due, |due|, a, job), a.model, |texts|), Ok(|due|))
  }

  ghost predicate ChunksWent(slots: Slots, texts: seq<string>, ask: (nat, seq<string>) -> Reply, job: Job, model: string) {
    && ChunkPass(slots, texts, ask, job).1.Ok?
    && var due := PendingChunks(texts, |texts|, slots, job);
       (due != [] ==> Embedded(At(texts, due), ask, job.cfg).value.model == model)
  }

  predicate ChunkCurrent(slots: Slots, texts: seq<string>, i: nat, model: string, job: Job)
    requires i < |texts|
  {
    Slot(i, model) in slots && slots[Slot(i, model)].hash == job.hash(texts[i])
  }

  /** No chunk of the model past the summary's end. */
  ghost predicate NoTail(slots: Slots, model: string, n: nat) {
    forall s :: s in slots && s.model == model ==> s.chunk < n
  }

  lemma {:induction false} StoredChunksAt(slots: Slots, texts: seq<string>, due: seq<nat>, n: nat, a: Answer, job: Job, s: Slot)
    requires n <= |due| == |a.vectors| && forall i :: 0 <= i < |due| ==> due[i] < |texts|
    ensures var now := StoredChunks(slots, texts, due, n, a, job);
            && (s in slots ==> s in now)
            && (s.model == a.model && s.chunk in due[..n] ==> s in now && now[s].hash == job.hash(texts[s.chunk]))
            && (!(s.model == a.model && s.chunk in due[..n]) ==> (s in now <==> s in slots) && (s in slots ==> now[s] == slots[s]))
  {
    if n > 0 {
      StoredChunksAt(slots, texts, due, n - 1, a, job, s);
      assert due[..n] == due[..n - 1] + [due[n - 1]];
    }
  }

  lemma {:induction false} ChunkKnownIff(slots: Slots, chunk: nat, h: Hash, pinned: string)
    ensures ChunkKnown(Hashes(slots), chunk, h, pinned)
        <==> exists s :: s in slots && s.chunk == chunk && slots[s].hash == h && (pinned == "" || s.model == pinned)
  {
    if s :| s in slots && s.chunk == chunk && slots[s].hash == h && (pinned == "" || s.model == pinned) {
      assert (s.chunk, s.model, slots[s].hash) in Hashes(slots);
    }
  }

  /** What a pass that went through does to one row. */
  lemma {:induction false} ChunkPassAt(slots: Slots, texts: seq<string>, ask: (nat, seq<string>) -> Reply, job: Job, model: string, s: Slot)
    requires ChunksWent(slots, texts, ask, job, model)
    ensures var now, due := ChunkPass(slots, texts, ask, job).0, PendingChunks(texts, |texts|, slots, job);
            && (s.model == model && s.chunk in due ==> s in now && now[s].hash == job.hash(texts[s.chunk]))
            && (s.model == model && s.chunk >= |texts| && due != [] ==> s !in now)
            && (s.model != model || due == [] || (s.chunk !in due && s.chunk < |texts|)
                ==> (s in now <==> s in slots) && (s in slots ==> now[s] == slots[s]))
  {
    var due := PendingChunks(texts, |texts|, slots, job);
    if due != [] {
      OneVectorPerText(At(texts, due), ask, job.cfg);
      StoredChunksAt(slots, texts, due, |due|, Embedded(At(texts, due), ask, job.cfg).value, job, s);
      assert due[..|due|] == due;
    }
  }

  /** Every row under the model holds the encoding of a text with the row's hash. */
  ghost predicate ChunksFaithful(slots: Slots, model: string, enc: string -> Vector, hash: string -> Hash) {
    forall s :: s in slots && s.model == model ==> exists t :: slots[s].hash == hash(t) && slots[s].vector == enc(t)
  }

  lemma {:induction false} StoredChunksAreFaithful(slots: Slots, texts: seq<string>, due: seq<nat>, n: nat, a: Answer, job: Job, model: string,
                                                   enc: string -> Vector)
    requires n <= |due| == |a.vectors| && forall i :: 0 <= i < |due| ==> due[i] < |texts|
    requires a.vectors == Encoded(At(texts, due), enc) && ChunksFaithful(slots, model, enc, job.hash)
    ensures ChunksFaithful(StoredChunks(slots, texts, due, n, a, job), model, enc, job.hash)
  {
    if n > 0 {
      StoredChunksAreFaithful(slots, texts, due, n - 1, a, job, model, enc);
      assert a.vectors[n - 1] == enc(texts[due[n - 1]]);
    }
  }

  /** A model that computes `enc` leaves no row with another vector than its text's. */
  lemma {:induction false} ChunkPassIsFaithful(slots: Slots, texts: seq<string>, ask: (nat, seq<string>) -> Reply, job: Job, model: string,
                                               enc: string -> Vector)
    requires Computes(ask, enc) && ChunksFaithful(slots, model, enc, job.hash)
    ensures ChunksFaithful(ChunkPass(slots, texts, ask, job).0, model, enc, job.hash)
  {
    var due := PendingChunks(texts, |texts|, slots, job);
    if due != [] && Embedded(At(texts, due), ask, job.cfg).Ok? {
      EveryTextGetsItsVector(At(texts, due), ask, job.cfg, enc);
      StoredChunksAreFaithful(slots, texts, due, |due|, Embedded(At(texts, due), ask, job.cfg).value, job, model, enc);
    }
  }

  /** With a pinned model that answers under its own name, every chunk of the summary is current
      after a pass. */
  lemma {:induction false} ChunksAgree(slots: Slots, texts: seq<string>, ask: (nat, seq<string>) -> Reply, job: Job)
    requires ChunksWent(slots, texts, ask, job, job.cfg.model) && job.cfg.model != ""
    ensures forall i :: 0 <= i < |texts| ==> ChunkCurrent(ChunkPass(slots, texts, ask, job).0, texts, i, job.cfg.model, job)
  {
    forall i: nat | i < |texts| ensures ChunkCurrent(ChunkPass(slots, texts, ask, job).0, texts, i, job.cfg.model, job) {
      ChunkPassAt(slots, texts, ask, job, job.cfg.model, Slot(i, job.cfg.model));
      ChunkKnownIff(slots, i, job.hash(texts[i]), job.cfg.model);
      PendingChunksIff(texts, |texts|, slots, job, i);
    }
  }

  /** The rows of a longer summary are gone after a pass exactly if the pass embedded something, or
      there were none: a summary cut where its remaining chunks are all known keeps its old tail,
      and so does one that has become empty. */
  lemma {:induction false} TailIsGoneIff(slots: Slots, texts: seq<string>, ask: (nat, seq<string>) -> Reply, job: Job, model: string)
    requires ChunksWent(slots, texts, ask, job, model)
    ensures NoTail(ChunkPass(slots, texts, ask, job).0, model, |texts|)
        <==> (exists i: nat :: i < |texts| && ChunkDue(slots, texts, i, job)) || NoTail(slots, model, |texts|)
  {
    var now, due := ChunkPass(slots, texts, ask, job).0, PendingChunks(texts, |texts|, slots, job);
    NoneIsPendingIff(texts, slots, job);
    if due != [] {
      forall s | s in now && s.model == model ensures s.chunk < |texts| {
        ChunkPassAt(slots, texts, ask, job, model, s);
      }
    }
  }

  lemma {:induction false} StaysKnown(slots: Slots, texts: seq<string>, ask: (nat, seq<string>) -> Reply, job: Job, model: string, i: nat)
    requires ChunksWent(slots, texts, ask, job, model) && (job.cfg.model == "" || job.cfg.model == model) && i < |texts|
    ensures ChunkKnown(Hashes(ChunkPass(slots, texts, ask, job).0), i, job.hash(texts[i]), job.cfg.model)
  {
    var now, h := ChunkPass(slots, texts, ask, job).0, job.hash(texts[i]);
    ChunkKnownIff(now, i, h, job.cfg.model);
    PendingChunksIff(texts, |texts|, slots, job, i);
    if ChunkDue(slots, texts, i, job) {
      ChunkPassAt(slots, texts, ask, job, model, Slot(i, model));
    } else {
      ChunkKnownIff(slots, i, h, job.cfg.model);
      var s :| s in slots && s.chunk == i && slots[s].hash == h && (job.cfg.model == "" || s.model == job.cfg.model);
      ChunkPassAt(slots, texts, ask, job, model, s);
    }
  }

  /** A second pass over the same summary embeds nothing, whether the model is pinned (and answers
      under its own name) or not. */
  lemma {:induction false} SecondChunkPassAsksNothing(slots: Slots, texts: seq<string>, ask: (nat, seq<string>) -> Reply, again: (nat, seq<string>) -> Reply,
                                   job: Job, second: Job, model: string)
    requires ChunksWent(slots, texts, ask, job, model) && (job.cfg.model == "" || job.cfg.model == model)
    requires second == job.(force := false)
    ensures var now := ChunkPass(slots, texts, ask, job).0;
            ChunkPass(now, texts, again, second) == (now, Ok(0))
  {
    var now := ChunkPass(slots, texts, ask, job).0;
    forall i: nat | i < |texts| ensures !ChunkDue(now, texts, i, second) {
      StaysKnown(slots, texts, ask, job, model, i);
    }
    NoneIsPendingIff(texts, now, second);
  }

  /** A summary, and then its first `k` chunks: nothing is sent for those, and the rows of the cut
      chunks stay. */
  lemma {:induction false} CutSummaryKeepsItsTail(slots: Slots, texts: seq<string>, k: nat, ask: (nat, seq<string>) -> Reply,
                                                  again: (nat, seq<string>) -> Reply, job: Job)
    requires ChunksWent(slots, texts, ask, job, job.cfg.model) && job.cfg.model != "" && !job.force && k < |texts|
    ensures var now := ChunkPass(slots, texts, ask, job).0;
            ChunkPass(now, texts[..k], again, job) == (now, Ok(0)) && !NoTail(now, job.cfg.model, k)
  {
    var now := ChunkPass(slots, texts, ask, job).0;
    forall i: nat | i < k ensures !ChunkDue(now, texts[..k], i, job) {
      StaysKnown(slots, texts, ask, job, job.cfg.model, i);
    }
    NoneIsPendingIff(texts[..k], now, job);
    ChunksAgree(slots, texts, ask, job);
    assert ChunkCurrent(now, texts, k, job.cfg.model, job);
  }
}
