/** The overlapping fixed-size pieces a summary is embedded in: `vector/embedding.py`. */
module Chunkers {
  import opened Text
  import opened Windows

  /** The overlap asked for, cut so that every chunk still advances. */
  function Overlap(size: int, overlap: int): (o: int)
    requires size > 0
    ensures 0 <= o < size
  {
    AtLeast(0, if overlap < size - 1 then overlap else size - 1)
  }

  /** The chunks of `text` from `start` on. */
  function ChunksFrom(text: string, size: int, overlap: int, start: nat): (r: seq<string>)
    requires 0 <= overlap < size
    ensures start < |text| <==> r != []
    decreases AtLeast(0, |text| - start)
  {
    if start >= |text| then []
    else if start + size >= |text| then [text[start..]]
    else [text[start..start + size]] + ChunksFrom(text, size, overlap, start + size - overlap)
  }

  function Chunks(text: string, size: int, overlap: int): seq<string> {
    var t := Strip(text);
    if t == "" then []
    else if size <= 0 || |t| <= size then [t]
    else ChunksFrom(t, size, Overlap(size, overlap), 0)
  }

  lemma {:induction false} NextChunk(text: string, size: int, overlap: nat, start: nat, chunks: seq<string>)
    requires overlap < size && start + size < |text|
    ensures chunks + ChunksFrom(text, size, overlap, start)
         == chunks + [text[start..start + size]] + ChunksFrom(text, size, overlap, start + size - overlap)
  {
    Reassociate(chunks, text[start..start + size], ChunksFrom(text, size, overlap, start + size - overlap));
  }

  lemma {:induction false} LastChunk(text: string, size: int, overlap: nat, start: nat, chunks: seq<string>)
    requires overlap < size && start < |text| <= start + size
    ensures chunks + ChunksFrom(text, size, overlap, start) == chunks + [text[start..]]
  {
  }

  method ChunkText(text: string, size: int, overlap: int) returns (chunks: seq<string>)
    ensures chunks == Chunks(text, size, overlap)
  {
    var t := Strip(text);
    if t == "" {
      return [];
    }
    if size <= 0 || |t| <= size {
      return [t];
    }
    var o := Overlap(size, overlap);
    chunks := [];
    var start: nat := 0;
    ghost var all := ChunksFrom(t, size, o, 0);
    while start < |t|
      invariant chunks + ChunksFrom(t, size, o, start) == all
      decreases |t| - start
    {
      if start + size >= |t| {
        LastChunk(t, size, o, start, chunks);
        chunks := chunks + [t[start..]];
        return;
      }
      NextChunk(t, size, o, start, chunks);
      chunks := chunks + [t[start..start + size]];
      start := start + size - o;
    }
  }

  function Tails(chunks: seq<string>, overlap: nat): string {
    if chunks == [] then ""
    else (if overlap <= |chunks[0]| then chunks[0][overlap..] else "") + Tails(chunks[1..], overlap)
  }

  /** The chunks one after the other, each but the first without its overlap. */
  function Unlapped(chunks: seq<string>, overlap: nat): string {
    if chunks == [] then ""
    else chunks[0] + Tails(chunks[1..], overlap)
  }

  /** A full chunk and the next one, which starts with exactly the overlap. */
  predicate Lapped(a: string, b: string, size: int, overlap: nat) {
    |a| == size && overlap <= |b| && overlap <= size && a[size - overlap..] == b[..overlap]
  }

  predicate Laps(chunks: seq<string>, size: int, overlap: nat) {
    forall i :: 0 < i < |chunks| ==> Lapped(chunks[i - 1], chunks[i], size, overlap)
  }

  lemma {:induction false} ChunkHead(text: string, size: int, overlap: nat, start: nat)
    requires overlap < size && start + size < |text|
    ensures var r := ChunksFrom(text, size, overlap, start);
            r[0] == text[start..start + size] && r[1..] == ChunksFrom(text, size, overlap, start + size - overlap)
  {
  }

  predicate Fit(chunks: seq<string>, size: int) {
    forall c :: c in chunks ==> 0 < |c| <= size
  }

  lemma {:induction false} FitCons(head: string, rest: seq<string>, size: int)
    requires 0 < |head| <= size && Fit(rest, size)
    ensures Fit([head] + rest, size)
  {
  }

  lemma {:induction false} ChunksFit(text: string, size: int, overlap: nat, start: nat)
    requires overlap < size
    ensures Fit(ChunksFrom(text, size, overlap, start), size)
    decreases AtLeast(0, |text| - start)
  {
    if start + size < |text| {
      ChunksFit(text, size, overlap, start + size - overlap);
      FitCons(text[start..start + size], ChunksFrom(text, size, overlap, start + size - overlap), size);
    } else if start < |text| {
      FitCons(text[start..], [], size);
    }
  }

  lemma {:induction false} Cut(text: string, start: nat, overlap: nat, size: nat)
    requires overlap <= size && start + size <= |text|
    ensures text[start..start + size][overlap..] + text[start + size..] == text[start + overlap..]
  {
  }

  lemma {:induction false} LastTail(text: string, start: nat, overlap: nat)
    requires start + overlap <= |text|
    ensures Tails([text[start..]], overlap) == text[start + overlap..]
  {
    assert [text[start..]][1..] == [];
    assert text[start..][overlap..] == text[start + overlap..];
  }

  lemma {:induction false} TailsGiveTheRest(text: string, size: int, overlap: nat, start: nat)
    requires overlap < size && start + overlap <= |text|
    ensures Tails(ChunksFrom(text, size, overlap, start), overlap) == text[start + overlap..]
    decreases |text| - start
  {
    if start + size < |text| {
      var r := ChunksFrom(text, size, overlap, start);
      ChunkHead(text, size, overlap, start);
      assert Tails(r, overlap) == text[start..start + size][overlap..] + Tails(r[1..], overlap);
      TailsGiveTheRest(text, size, overlap, start + size - overlap);
      Cut(text, start, overlap, size);
    } else if start < |text| {
      LastTail(text, start, overlap);
    }
  }

  lemma {:induction false} HeadAndRest(text: string, size: nat, overlap: nat, chunks: seq<string>, rest: seq<string>)
    requires size <= |text| && chunks != [] && chunks[0] == text[0..size] && chunks[1..] == rest
    requires Tails(rest, overlap) == text[size..]
    ensures Unlapped(chunks, overlap) == text
  {
    assert text[0..size] + text[size..] == text;
  }

  /** The first chunk followed by the others without their overlap is the whole text. */
  lemma {:induction false} ChunksLoseNothing(text: string, size: int, overlap: nat)
    requires overlap < size && size < |text|
    ensures Unlapped(ChunksFrom(text, size, overlap, 0), overlap) == text
  {
    var next: nat := size - overlap;
    var chunks, rest := ChunksFrom(text, size, overlap, 0), ChunksFrom(text, size, overlap, next);
    ChunkHead(text, size, overlap, 0);
    TailsGiveTheRest(text, size, overlap, next);
    HeadAndRest(text, size, overlap, chunks, rest);
  }

  lemma {:induction false} LapEdges(text: string, start: nat, size: nat, overlap: nat)
    requires overlap < size && start + size <= |text|
    ensures text[start..start + size][size - overlap..] == text[start + size - overlap..start + size]
    ensures text[start..start + size][..overlap] == text[start..start + overlap]
  {
  }

  lemma {:induction false} ChunksLap(text: string, size: int, overlap: nat, start: nat)
    requires overlap < size && start + overlap <= |text|
    ensures var r := ChunksFrom(text, size, overlap, start);
            Laps(r, size, overlap) && (r != [] ==> overlap <= |r[0]| && r[0][..overlap] == text[start..start + overlap])
    decreases |text| - start
  {
    if start + size < |text| {
      var next := start + size - overlap;
      var r, rest := ChunksFrom(text, size, overlap, start), ChunksFrom(text, size, overlap, next);
      ChunkHead(text, size, overlap, start);
      ChunksLap(text, size, overlap, next);
      LapEdges(text, start, size, overlap);
      forall i | 0 < i < |r| ensures Lapped(r[i - 1], r[i], size, overlap) {
        assert r[i] == rest[i - 1];
        if i > 1 { assert r[i - 1] == rest[i - 2]; }
      }
    }
  }

  /** Whatever is asked for: no text, no chunks; every chunk within a positive size; and, when the
      text is cut at all, nothing but the exact overlap is repeated and nothing is lost. */
  lemma {:induction false} ChunkTextIsLossless(text: string, size: int, overlap: int)
    ensures var chunks, t := Chunks(text, size, overlap), Strip(text);
            && (chunks == [] <==> t == "")
            && (size > 0 ==> forall c :: c in chunks ==> |c| <= size)
            && (size <= 0 && t != "" ==> chunks == [t])
            && (size > 0 ==> var o := if overlap < 0 then 0 else if overlap >= size then size - 1 else overlap;
                             Laps(chunks, size, o) && Unlapped(chunks, o) == t)
  {
    var t := Strip(text);
    if size > 0 && |t| > size {
      ChunksLoseNothing(t, size, Overlap(size, overlap));
      ChunksLap(t, size, Overlap(size, overlap), 0);
      ChunksFit(t, size, Overlap(size, overlap), 0);
    } else if t != "" {
      assert [t][1..] == [];
      assert Unlapped([t], 0) == t + "";
    }
  }
}
