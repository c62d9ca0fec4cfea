/** The store of a recording's embeddings, and `embed_recording` over it: `vector/embedding.py`. */
module EmbeddingStore {
  import opened Results
  import opened Text
  import opened Windows
  import opened Embedding
  import opened EmbeddingUnits
  import opened EmbeddingIndex
  import opened SummaryIndex
  import opened Resending
  import opened Chunkers

  /** The texts of a recording, and how they are cut. */
  datatype Source = Source(segs: seq<Utterance>, summary: string, target: int, max: int, windowOverlap: int,
                           chunkChars: int, chunkOverlap: int)
  {
    function Units(scheme: string): seq<Unit> {
      EmbeddingUnits.Units(segs, scheme, Clamp(target, max, windowOverlap))
    }

    function SummaryChunks(): seq<string> {
      Chunks(summary, chunkChars, chunkOverlap)
    }
  }

  /** What a pass embedded. */
  datatype Counts = Counts(segments: nat, chunks: nat)

  class Store {
    var rows: Rows
    var slots: Slots

    method UpsertSegment(u: Unit, model: string, v: Vector, job: Job)
      modifies this`rows
      ensures rows == old(rows)[KeyOf(u, model, job) := RowOf(u, v, job)]
    {
      rows := rows[KeyOf(u, model, job) := RowOf(u, v, job)];
    }

    method UpsertSummaryChunk(chunk: nat, model: string, entry: Entry)
      modifies this`slots
      ensures slots == old(slots)[Slot(chunk, model) := entry]
    {
      slots := slots[Slot(chunk, model) := entry];
    }

    method PruneSummaryChunks(model: string, keep: nat)
      modifies this`slots
      ensures slots == Pruned(old(slots), model, keep)
    {
      slots := Pruned(slots, model, keep);
    }

    method DueUnits(units: seq<Unit>, job: Job) returns (due: seq<Unit>)
      ensures due == Pending(units, |units|, rows, job)
    {
      due := [];
      for i := 0 to |units|
        invariant due == Pending(units, i, rows, job)
      {
        if job.force || !HashKnown(Entries(rows, job.scheme, units[i].seg), job.hash(units[i].text), job.cfg.model) {
          due := due + [units[i]];
        }
      }
    }

    method StoreUnits(due: seq<Unit>, a: Answer, job: Job)
      requires |due| == |a.vectors|
      modifies this`rows
      ensures rows == Stored(old(rows), due, |due|, a, job)
    {
      for i := 0 to |due|
        invariant rows == Stored(old(rows), due, i, a, job)
      {
        UpsertSegment(due[i], a.model, a.vectors[i], job);
      }
    }

    method EmbedSegments(units: seq<Unit>, ask: (nat, seq<string>) -> Reply, job: Job) returns (done: Result<nat, Fault>, calls: nat)
      modifies this`rows
      ensures (rows, done) == Pass(old(rows), units, ask, job)
      ensures calls == 0 <==> done == Ok(0)
    {
      var due := DueUnits(units, job);
      if due == [] {
        return Ok(0), 0;
      }
      var answer;
      answer, calls := EmbedTexts(Texts(due), ask, job.cfg);
      if answer.Err? {
        return Err(answer.error), calls;
      }
      OneVectorPerText(Texts(due), ask, job.cfg);
      StoreUnits(due, answer.value, job);
      done := Ok(|due|);
    }

    method DueChunks(texts: seq<string>, job: Job) returns (due: seq<nat>)
      ensures due == PendingChunks(texts, |texts|, slots, job)
    {
      due := [];
      var known := Hashes(slots);
      for i := 0 to |texts|
        invariant due == PendingChunks(texts, i, slots, job)
      {
        if job.force || !ChunkKnown(known, i, job.hash(texts[i]), job.cfg.model) {
          due := due + [i];
        }
      }
    }

    method StoreChunks(texts: seq<string>, due: seq<nat>, a: Answer, job: Job)
      requires |due| == |a.vectors| && forall i :: 0 <= i < |due| ==> due[i] < |texts|
      modifies this`slots
      ensures slots == StoredChunks(old(slots), texts, due, |due|, a, job)
    {
      for i := 0 to |due|
        invariant slots == StoredChunks(old(slots), texts, due, i, a, job)
      {
        UpsertSummaryChunk(due[i], a.model, Entry(job.hash(texts[due[i]]), a.vectors[i]));
      }
    }

    method EmbedSummary(texts: seq<string>, ask: (nat, seq<string>) -> Reply, job: Job) returns (done: Result<nat, Fault>, calls: nat)
      modifies this`slots
      ensures (slots, done) == ChunkPass(old(slots), texts, ask, job)
      ensures calls == 0 <==> done == Ok(0)
    {
      var due := DueChunks(texts, job);
      if due == [] {
        return Ok(0), 0;
      }
      var answer;
      answer, calls := EmbedTexts(At(texts, due), ask, job.cfg);
      if answer.Err? {
        return Err(answer.error), calls;
      }
      OneVectorPerText(At(texts, due), ask, job.cfg);
      StoreChunks(texts, due, answer.value, job);
      PruneSummaryChunks(answer.value.model, |texts|);
      done := Ok(|due|);
    }

    /** `embed_recording`: the segments, then the summary. A fault in the segments leaves the store
        as it was; a fault in the summary keeps what the segments stored. */
    method EmbedRecording(source: Source, askSegments: (nat, seq<string>) -> Reply, askSummary: (nat, seq<string>) -> Reply, job: Job)
      returns (done: Result<Counts, Fault>, calls: nat)
      modifies this
      ensures var (now, segments) := Pass(old(rows), source.Units(job.scheme), askSegments, job);
              var (after, chunks) := ChunkPass(old(slots), source.SummaryChunks(), askSummary, job);
              && rows == now
              && slots == (if segments.Ok? then after else old(slots))
              && done == (match segments
                          case Err(e) => Err(e)
                          case Ok(n) => match chunks case Err(e) => Err(e) case Ok(c) => Ok(Counts(n, c)))
      ensures calls == 0 <==> done == Ok(Counts(0, 0))
    {
      var units := SegmentUnits(source.segs, job.scheme, source.target, source.max, source.windowOverlap);
      var segments;
      segments, calls := EmbedSegments(units, askSegments, job);
      if segments.Err? {
        return Err(segments.error), calls;
      }
      var texts := ChunkText(source.summary, source.chunkChars, source.chunkOverlap);
      var chunks, more := EmbedSummary(texts, askSummary, job);
      calls := calls + more;
      done := if chunks.Err? then Err(chunks.error) else Ok(Counts(segments.value, chunks.value));
    }
  }

  lemma {:induction false} SegmentUnitsAreOneEach(source: Source, scheme: string)
    requires DistinctIds(source.segs) && scheme != "window"
    ensures OneEach(source.Units(scheme))
    ensures forall s :: s in source.segs && s.text != "" ==> Unit(s.id, s.text, 1, 0) in source.Units(scheme)
  {
    UnitsAreDistinct(source.segs, scheme, Clamp(source.target, source.max, source.windowOverlap));
    var spoken := Spoken(source.segs);
    SpokenIff(source.segs);
    forall s | s in source.segs && s.text != "" ensures Unit(s.id, s.text, 1, 0) in source.Units(scheme) {
      var i :| 0 <= i < |spoken| && spoken[i] == s;
      assert source.Units(scheme)[i] == Unit(s.id, s.text, 1, 0);
    }
  }

  /** The index agrees with the transcript: after a pass over segments with a pinned model that
      answers under its name, every segment that has a text has a row with its text's hash. */
  lemma {:induction false} IndexAgreesWithTheTranscript(source: Source, rows: Rows, ask: (nat, seq<string>) -> Reply, job: Job)
    requires DistinctIds(source.segs) && job.scheme != "window" && Single(rows, job.scheme)
    requires job.cfg.model != "" && Through(rows, source.Units(job.scheme), ask, job, job.cfg.model)
    ensures var now := Pass(rows, source.Units(job.scheme), ask, job).0;
            forall s :: s in source.segs && s.text != "" ==>
              var k := Key(s.id, job.cfg.model, job.scheme, 0);
              k in now && now[k].hash == job.hash(s.text)
  {
    SegmentUnitsAreOneEach(source, job.scheme);
    var units, now := source.Units(job.scheme), Pass(rows, source.Units(job.scheme), ask, job).0;
    SegmentsAgree(rows, units, ask, job);
    forall s | s in source.segs && s.text != ""
      ensures var k := Key(s.id, job.cfg.model, job.scheme, 0); k in now && now[k].hash == job.hash(s.text)
    {
      assert Current(now, Unit(s.id, s.text, 1, 0), job.cfg.model, job);
    }
  }

  /** Redelivered over unchanged texts, an embedding of segments and summary finds nothing to do:
      no call, and the same rows. */
  lemma {:induction false} RedeliveryEmbedsNothing(source: Source, rows: Rows, slots: Slots, ask: (nat, seq<string>) -> Reply, askSummary: (nat, seq<string>) -> Reply,
                                again: (nat, seq<string>) -> Reply, job: Job, model: string)
    requires DistinctIds(source.segs) && job.scheme != "window" && Single(rows, job.scheme) && !job.force
    requires Through(rows, source.Units(job.scheme), ask, job, model) && ChunksWent(slots, source.SummaryChunks(), askSummary, job, model)
    requires Named(job, model)
    ensures var now := Pass(rows, source.Units(job.scheme), ask, job).0;
            Pass(now, source.Units(job.scheme), again, job) == (now, Ok(0)) && Single(now, job.scheme)
    ensures var after := ChunkPass(slots, source.SummaryChunks(), askSummary, job).0;
            ChunkPass(after, source.SummaryChunks(), again, job) == (after, Ok(0))
  {
    SegmentUnitsAreOneEach(source, job.scheme);
    SecondPassAsksNothing(rows, source.Units(job.scheme), ask, again, job, model);
    PassKeepsSingle(rows, source.Units(job.scheme), ask, job, model);
    SecondChunkPassAsksNothing(slots, source.SummaryChunks(), askSummary, again, job, job, model);
  }

  lemma {:induction false} ExampleChunks()
    ensures Chunks("ab", 1, 0) == ["a", "b"] && Chunks("a", 1, 0) == ["a"]
  {
    assert Strip("ab") == "ab" && Strip("a") == "a";
    assert "ab"[1..] == "b" && "ab"[0..1] == "a";
    assert ChunksFrom("ab", 1, 0, 1) == ["b"];
    assert ChunksFrom("ab", 1, 0, 0) == ["a"] + ["b"];
  }

  /** A summary of two chunks, then cut to the first: the second pass sends nothing, and the row of
      the chunk that is gone is still there. */
  lemma {:induction false} CutSummaryExample(ask: (nat, seq<string>) -> Reply, again: (nat, seq<string>) -> Reply, job: Job)
    requires job.cfg.model != "" && !job.force && ChunksWent(map[], Chunks("ab", 1, 0), ask, job, job.cfg.model)
    ensures Chunks("ab", 1, 0) == ["a", "b"] && Chunks("a", 1, 0) == ["a"]
    ensures var now := ChunkPass(map[], Chunks("ab", 1, 0), ask, job).0;
            ChunkPass(now, Chunks("a", 1, 0), again, job) == (now, Ok(0)) && Slot(1, job.cfg.model) in now
  {
    ExampleChunks();
    CutSummaryKeepsItsTail(map[], ["a", "b"], 1, ask, again, job);
    ChunksAgree(map[], ["a", "b"], ask, job);
    assert ["a", "b"][..1] == ["a"];
    assert ChunkCurrent(ChunkPass(map[], ["a", "b"], ask, job).0, ["a", "b"], 1, job.cfg.model, job);
  }
}
