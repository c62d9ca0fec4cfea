/** The overlapping chunks a transcript is summarized in: `transcript_schema.py`. */
module SummaryInput {
  import opened Windows
  import opened Overlaps

  datatype Segment = Segment(id: string, startMs: int, text: string)

  /** A chunk for the summarizer: a line per segment and where each segment id points. */
  datatype Chunk = Chunk(lines: seq<string>, anchors: map<string, int>)

  function Size(s: Segment): int {
    |s.text| + 30
  }

  function Chars(segs: seq<Segment>, lo: nat, hi: nat): int
    requires lo <= hi <= |segs|
    decreases hi
  {
    if lo == hi then 0 else Chars(segs, lo, hi - 1) + Size(segs[hi - 1])
  }

  /** Where Python's `buffer[-n:]` (the empty list for n = 0) starts in a buffer over `lo..hi`. */
  function KeepFrom(lo: nat, hi: nat, n: int): (r: nat)
    requires lo <= hi
    ensures lo <= r <= hi
  {
    if n == 0 then hi
    else if n > 0 then AtLeast(lo, hi - n)
    else if lo - n < hi then lo - n else hi
  }

  /** Does the chunk over `lo..hi` take no further segment? An empty one takes any. */
  predicate Full(segs: seq<Segment>, lo: nat, hi: nat, limit: int)
    requires lo <= hi < |segs|
  {
    lo < hi && Chars(segs, lo, hi) + Size(segs[hi]) > limit
  }

  /** Where the chunk that already holds `lo..from` ends. */
  function ChunkEnd(segs: seq<Segment>, lo: nat, limit: int, from: nat): (hi: nat)
    requires lo <= from <= |segs|
    ensures from <= hi <= |segs|
    ensures hi == |segs| || Full(segs, lo, hi, limit)
    ensures forall j :: from <= j < hi ==> !Full(segs, lo, j, limit)
    decreases |segs| - from
  {
    if from == |segs| || Full(segs, lo, from, limit) then from else ChunkEnd(segs, lo, limit, from + 1)
  }

  /** The chunks, as ranges of segments, when `lo..from` is already buffered: the segment that
      made a chunk full always goes to the next one, whatever the next one keeps. */
  function Ranges(segs: seq<Segment>, lo: nat, from: nat, limit: int, overlap: int): (r: seq<(nat, nat)>)
    requires lo < from <= |segs|
    ensures r != [] && forall i :: 0 <= i < |r| ==> r[i].0 < r[i].1 <= |segs|
    decreases |segs| - from
  {
    var hi := ChunkEnd(segs, lo, limit, from);
    if hi == |segs| then [(lo, hi)]
    else [(lo, hi)] + Ranges(segs, KeepFrom(lo, hi, overlap), hi + 1, limit, overlap)
  }

  function AllRanges(segs: seq<Segment>, limit: int, overlap: int): (r: seq<(nat, nat)>)
    ensures forall i :: 0 <= i < |r| ==> r[i].0 < r[i].1 <= |segs|
  {
    if segs == [] then [] else Ranges(segs, 0, 1, limit, overlap)
  }

  /** Chunks in a row: starts never go back, ends strictly advance, no gap. */
  predicate Advances(a: (nat, nat), b: (nat, nat)) {
    a.0 <= b.0 <= a.1 < b.1
  }

  /** Ranges in a row that start at `lo`, reach `from` at once, and end at `n`. */
  ghost predicate Cover(r: seq<(nat, nat)>, lo: nat, from: nat, n: nat) {
    && r != [] && r[0].0 == lo && from <= r[0].1 && r[|r| - 1].1 == n
    && forall i :: 0 < i < |r| ==> Advances(r[i - 1], r[i])
  }

  lemma {:induction false} CoverCons(first: (nat, nat), rest: seq<(nat, nat)>, start: nat, n: nat)
    requires Cover(rest, start, first.1 + 1, n) && first.0 <= start <= first.1
    ensures Cover([first] + rest, first.0, first.1, n)
  {
    var r := [first] + rest;
    forall i | 0 < i < |r| ensures Advances(r[i - 1], r[i]) {
      assert r[i] == rest[i - 1];
      if i > 1 { assert r[i - 1] == rest[i - 2]; }
    }
  }

  lemma {:induction false} RangesAdvance(segs: seq<Segment>, lo: nat, from: nat, limit: int, overlap: int)
    requires lo < from <= |segs|
    ensures Cover(Ranges(segs, lo, from, limit, overlap), lo, ChunkEnd(segs, lo, limit, from), |segs|)
    decreases |segs| - from
  {
    var hi := ChunkEnd(segs, lo, limit, from);
    if hi < |segs| {
      RangesAdvance(segs, KeepFrom(lo, hi, overlap), hi + 1, limit, overlap);
      CoverCons((lo, hi), Ranges(segs, KeepFrom(lo, hi, overlap), hi + 1, limit, overlap), KeepFrom(lo, hi, overlap), |segs|);
    }
  }

  // ----- what closes a chunk, and what it keeps

  /** The characters of segments `lo..hi` themselves. */
  function Spelled(segs: seq<Segment>, lo: nat, hi: nat): nat
    requires lo <= hi <= |segs|
    decreases hi - lo
  {
    if lo == hi then 0 else |segs[lo].text| + Spelled(segs, lo + 1, hi)
  }

  lemma {:induction false} SpelledStep(segs: seq<Segment>, lo: nat, hi: nat)
    requires lo < hi <= |segs|
    ensures Spelled(segs, lo, hi) == Spelled(segs, lo, hi - 1) + |segs[hi - 1].text|
    decreases hi - lo
  {
    if lo + 1 < hi { SpelledStep(segs, lo + 1, hi); }
  }

  /** A segment counts for its text and 30 characters of markup. */
  lemma {:induction false} CharsAre(segs: seq<Segment>, lo: nat, hi: nat)
    requires lo <= hi <= |segs|
    ensures Chars(segs, lo, hi) == Spelled(segs, lo, hi) + 30 * (hi - lo)
    decreases hi
  {
    if lo < hi {
      CharsAre(segs, lo, hi - 1);
      SpelledStep(segs, lo, hi);
    }
  }

  /** The chunk over `lo..hi`, of which it took `from..` after the one segment it takes in any
      case: within the limit if it took any, and closed only by a segment that does not fit. */
  predicate ChunkRule(segs: seq<Segment>, lo: nat, from: nat, hi: nat, limit: int)
    requires lo < hi <= |segs|
  {
    && (hi > from ==> Spelled(segs, lo, hi) + 30 * (hi - lo) <= limit)
    && (hi < |segs| ==> Spelled(segs, lo, hi + 1) + 30 * (hi + 1 - lo) > limit)
  }

  lemma {:induction false} ChunkKeepsRule(segs: seq<Segment>, lo: nat, from: nat, limit: int)
    requires lo < from <= |segs|
    ensures ChunkRule(segs, lo, from, ChunkEnd(segs, lo, limit, from), limit)
  {
    var hi := ChunkEnd(segs, lo, limit, from);
    CharsAre(segs, lo, hi);
    if hi < |segs| { CharsAre(segs, lo, hi + 1); }
    if hi > from { assert !Full(segs, lo, hi - 1, limit); }
  }

  /** The next chunk starts with the last `overlap` segments of the one before, or all of them. A
      negative overlap leaves out the first `-overlap` instead. */
  predicate Keeps(a: (nat, nat), b: (nat, nat), overlap: int) {
    if overlap >= 0 then b.0 == AtLeast(a.0, a.1 - overlap)
    else b.0 == if a.0 - overlap < a.1 then a.0 - overlap else a.1
  }

  /** Every chunk keeps the rule, counted from the segment after those of the chunk before, and
      every chunk but the first starts with the overlap asked for. */
  ghost predicate Rules(segs: seq<Segment>, r: seq<(nat, nat)>, from: nat, limit: int, overlap: int) {
    && (forall i :: 0 <= i < |r| ==> r[i].0 < r[i].1 <= |segs|)
    && (forall i, j :: 0 <= i && j == i + 1 < |r| ==> Keeps(r[i], r[j], overlap) && ChunkRule(segs, r[j].0, r[i].1 + 1, r[j].1, limit))
    && (r != [] ==> ChunkRule(segs, r[0].0, from, r[0].1, limit))
  }

  lemma {:induction false} RulesCons(segs: seq<Segment>, first: (nat, nat), rest: seq<(nat, nat)>, from: nat, limit: int, overlap: int)
    requires first.0 < first.1 <= |segs| && ChunkRule(segs, first.0, from, first.1, limit)
    requires Rules(segs, rest, first.1 + 1, limit, overlap) && (rest != [] ==> Keeps(first, rest[0], overlap))
    ensures Rules(segs, [first] + rest, from, limit, overlap)
  {
    var r := [first] + rest;
    forall i, j | 0 <= i && j == i + 1 < |r|
      ensures Keeps(r[i], r[j], overlap) && ChunkRule(segs, r[j].0, r[i].1 + 1, r[j].1, limit)
    {
      assert r[j] == rest[i];
      if i > 0 { assert r[i] == rest[i - 1]; }
    }
  }

  lemma {:induction false} KeepFromKeeps(lo: nat, hi: nat, overlap: int, end: nat)
    requires lo <= hi
    ensures Keeps((lo, hi), (KeepFrom(lo, hi, overlap), end), overlap)
  {
  }

  lemma {:induction false} RangesFrom(segs: seq<Segment>, lo: nat, from: nat, limit: int, overlap: int)
    requires lo < from <= |segs|
    ensures var hi, r := ChunkEnd(segs, lo, limit, from), Ranges(segs, lo, from, limit, overlap);
            && r[0] == (lo, hi)
            && r[1..] == if hi == |segs| then [] else Ranges(segs, KeepFrom(lo, hi, overlap), hi + 1, limit, overlap)
  {
  }

  lemma {:induction false} NextKeeps(segs: seq<Segment>, lo: nat, hi: nat, limit: int, overlap: int, from: nat, rest: seq<(nat, nat)>)
    requires lo < from <= hi < |segs| && ChunkRule(segs, lo, from, hi, limit)
    requires rest != [] && rest[0].0 == KeepFrom(lo, hi, overlap) && Rules(segs, rest, hi + 1, limit, overlap)
    ensures Rules(segs, [(lo, hi)] + rest, from, limit, overlap)
  {
    KeepFromKeeps(lo, hi, overlap, rest[0].1);
    RulesCons(segs, (lo, hi), rest, from, limit, overlap);
  }

  lemma {:induction false} RangesStart(segs: seq<Segment>, lo: nat, from: nat, limit: int, overlap: int)
    requires lo < from <= |segs|
    ensures Ranges(segs, lo, from, limit, overlap) != [] && Ranges(segs, lo, from, limit, overlap)[0].0 == lo
  {
    RangesFrom(segs, lo, from, limit, overlap);
  }

  lemma {:induction false} RangesCons(segs: seq<Segment>, lo: nat, from: nat, limit: int, overlap: int, hi: nat)
    returns (next: nat, rest: seq<(nat, nat)>)
    requires lo < from <= |segs| && hi == ChunkEnd(segs, lo, limit, from) < |segs|
    ensures next == KeepFrom(lo, hi, overlap) && rest == Ranges(segs, next, hi + 1, limit, overlap)
    ensures rest != [] && rest[0].0 == next && Ranges(segs, lo, from, limit, overlap) == [(lo, hi)] + rest
  {
    next := KeepFrom(lo, hi, overlap);
    rest := Ranges(segs, next, hi + 1, limit, overlap);
    var r := Ranges(segs, lo, from, limit, overlap);
    RangesFrom(segs, lo, from, limit, overlap);
    RangesStart(segs, next, hi + 1, limit, overlap);
    assert r == [r[0]] + r[1..];
  }

  lemma {:induction false} RangesEnd(segs: seq<Segment>, lo: nat, from: nat, limit: int, overlap: int)
    requires lo < from <= |segs| && ChunkEnd(segs, lo, limit, from) == |segs|
    ensures Rules(segs, Ranges(segs, lo, from, limit, overlap), from, limit, overlap)
  {
    ChunkKeepsRule(segs, lo, from, limit);
  }

  lemma {:induction false} RangesKeepRules(segs: seq<Segment>, lo: nat, from: nat, limit: int, overlap: int)
    requires lo < from <= |segs|
    ensures Rules(segs, Ranges(segs, lo, from, limit, overlap), from, limit, overlap)
    decreases |segs| - from
  {
    var hi := ChunkEnd(segs, lo, limit, from);
    if hi == |segs| {
      RangesEnd(segs, lo, from, limit, overlap);
    } else {
      var next, rest := RangesCons(segs, lo, from, limit, overlap, hi);
      RangesKeepRules(segs, next, hi + 1, limit, overlap);
      ChunkKeepsRule(segs, lo, from, limit);
      NextKeeps(segs, lo, hi, limit, overlap, from, rest);
    }
  }

  /** Over any transcript, limit and overlap: a chunk that took more than one segment of its own
      fits the limit, a chunk is closed only by a segment that does not fit it, and each starts
      with the overlap asked for. */
  lemma {:induction false} SummaryInputKeepsRules(segs: seq<Segment>, limit: int, overlap: int)
    ensures Rules(segs, AllRanges(segs, limit, overlap), 1, limit, overlap)
  {
    if segs != [] { RangesKeepRules(segs, 0, 1, limit, overlap); }
  }

  // ----- the chunks of a transcript

  function RenderedLines(segs: seq<Segment>, render: Segment -> string): (r: seq<string>)
    ensures |r| == |segs| && forall i :: 0 <= i < |r| ==> r[i] == render(segs[i])
  {
    if segs == [] then [] else RenderedLines(segs[..|segs| - 1], render) + [render(segs[|segs| - 1])]
  }

  /** Every id of the chunk points to the start of its last segment with that id. */
  function Anchors(segs: seq<Segment>): (r: map<string, int>)
    ensures forall id :: id in r <==> exists s :: s in segs && s.id == id
  {
    if segs == [] then map[]
    else
      var n := |segs| - 1;
      assert segs == segs[..n] + [segs[n]];
      Anchors(segs[..n])[segs[n].id := segs[n].startMs]
  }

  lemma {:induction false} AnchorsPointToTheLast(segs: seq<Segment>, i: nat)
    requires i < |segs| && forall j :: i < j < |segs| ==> segs[j].id != segs[i].id
    ensures segs[i].id in Anchors(segs) && Anchors(segs)[segs[i].id] == segs[i].startMs
    decreases |segs|
  {
    var n := |segs| - 1;
    if i < n {
      AnchorsPointToTheLast(segs[..n], i);
      assert segs[n].id != segs[i].id;
    }
  }

  function MakeChunk(segs: seq<Segment>, render: Segment -> string): Chunk {
    Chunk(RenderedLines(segs, render), Anchors(segs))
  }

  function ChunksOf(segs: seq<Segment>, ranges: seq<(nat, nat)>, render: Segment -> string): (r: seq<Chunk>)
    requires forall i :: 0 <= i < |ranges| ==> ranges[i].0 < ranges[i].1 <= |segs|
    ensures |r| == |ranges|
  {
    if ranges == [] then []
    else [MakeChunk(segs[ranges[0].0..ranges[0].1], render)] + ChunksOf(segs, ranges[1..], render)
  }

  lemma {:induction false} ChunkIs(segs: seq<Segment>, ranges: seq<(nat, nat)>, render: Segment -> string, i: nat)
    requires (forall k :: 0 <= k < |ranges| ==> ranges[k].0 < ranges[k].1 <= |segs|) && i < |ranges|
    ensures ChunksOf(segs, ranges, render)[i] == MakeChunk(segs[ranges[i].0..ranges[i].1], render)
    decreases i
  {
    if i > 0 { ChunkIs(segs, ranges[1..], render, i - 1); }
  }

  /** Chunk `i` has a line for each segment of its range, in order, and an anchor for each id. */
  lemma {:induction false} ChunkReads(segs: seq<Segment>, ranges: seq<(nat, nat)>, render: Segment -> string, i: nat)
    requires (forall k :: 0 <= k < |ranges| ==> ranges[k].0 < ranges[k].1 <= |segs|) && i < |ranges|
    ensures var chunk, lo, hi := ChunksOf(segs, ranges, render)[i], ranges[i].0, ranges[i].1;
            && |chunk.lines| == hi - lo && (forall k :: 0 <= k < hi - lo ==> chunk.lines[k] == render(segs[lo + k]))
            && chunk.anchors == Anchors(segs[lo..hi])
  {
    ChunkIs(segs, ranges, render, i);
  }

  method Flush(segs: seq<Segment>, render: Segment -> string) returns (chunk: Chunk)
    ensures chunk == MakeChunk(segs, render)
  {
    var lines, anchors := [], map[];
    for i := 0 to |segs|
      invariant lines == RenderedLines(segs[..i], render) && anchors == Anchors(segs[..i])
    {
      assert segs[..i + 1][..i] == segs[..i];
      lines := lines + [render(segs[i])];
      anchors := anchors[segs[i].id := segs[i].startMs];
    }
    assert segs[..|segs|] == segs;
    chunk := Chunk(lines, anchors);
  }

  lemma {:induction false} RangesLoseNothing(segs: seq<Segment>, lo: nat, from: nat, limit: int, overlap: int, seen: nat,
                                             r: seq<(nat, nat)>)
    requires lo <= seen < from <= |segs| && r == Ranges(segs, lo, from, limit, overlap)
    requires forall i :: 0 <= i < |r| ==> r[i].0 < r[i].1 <= |segs|
    ensures Added(segs, r, seen) == segs[seen..]
    decreases |segs| - from
  {
    var hi := ChunkEnd(segs, lo, limit, from);
    RangesFrom(segs, lo, from, limit, overlap);
    if hi < |segs| { RangesLoseNothing(segs, KeepFrom(lo, hi, overlap), hi + 1, limit, overlap, hi, r[1..]); }
    AddedStep(segs, r, seen);
  }

  /** Over any transcript, limit and overlap, negative ones included: the chunks are contiguous
      runs of segments, with no gap and ends that strictly advance to the last segment; removing
      what each shares with the one before gives back the segments, in order. */
  lemma {:induction false} SummaryInputIsLossless(segs: seq<Segment>, limit: int, overlap: int)
    requires segs != []
    ensures var r := AllRanges(segs, limit, overlap);
            && r != [] && r[0].0 == 0 && r[|r| - 1].1 == |segs|
            && (forall i :: 0 < i < |r| ==> Advances(r[i - 1], r[i]))
            && Added(segs, r, 0) == segs
  {
    RangesAdvance(segs, 0, 1, limit, overlap);
    RangesLoseNothing(segs, 0, 1, limit, overlap, 0, AllRanges(segs, limit, overlap));
  }

  // ----- the loop

  lemma {:induction false} ChunkEndIs(segs: seq<Segment>, lo: nat, limit: int, from: nat, hi: nat)
    requires lo <= from <= hi <= |segs| && (hi == |segs| || Full(segs, lo, hi, limit))
    requires forall j :: from <= j < hi ==> !Full(segs, lo, j, limit)
    ensures ChunkEnd(segs, lo, limit, from) == hi
  {
  }

  lemma {:induction false} CharsSplit(segs: seq<Segment>, lo: nat, mid: nat, hi: nat)
    requires lo <= mid <= hi <= |segs|
    ensures Chars(segs, lo, hi) == Chars(segs, lo, mid) + Chars(segs, mid, hi)
    decreases hi
  {
    if mid < hi { CharsSplit(segs, lo, mid, hi - 1); }
  }

  function Total(buffer: seq<Segment>): int {
    Chars(buffer, 0, |buffer|)
  }

  lemma {:induction false} CharsPrefix(s: seq<Segment>, n: nat)
    requires n <= |s|
    ensures Chars(s, 0, n) == Total(s[..n])
    decreases n
  {
    if n > 0 {
      CharsPrefix(s, n - 1);
      assert s[..n][..n - 1] == s[..n - 1];
      CharsPrefix(s[..n], n - 1);
    }
  }

  lemma {:induction false} TotalOfSlice(segs: seq<Segment>, lo: nat, hi: nat)
    requires lo <= hi <= |segs|
    ensures Total(segs[lo..hi]) == Chars(segs, lo, hi)
    decreases hi - lo
  {
    var s := segs[lo..hi];
    if lo < hi {
      TotalOfSlice(segs, lo, hi - 1);
      assert s[..hi - lo - 1] == segs[lo..hi - 1];
      CharsPrefix(s, hi - lo - 1);
    }
  }

  /** Python's `buffer[-n:]`, the empty list for n = 0. */
  method KeepLast(buffer: seq<Segment>, n: int) returns (kept: seq<Segment>)
    ensures kept == buffer[KeepFrom(0, |buffer|, n)..]
  {
    if n == 0 {
      kept := [];
    } else if n > 0 {
      kept := if n < |buffer| then buffer[|buffer| - n..] else buffer;
    } else {
      kept := if -n < |buffer| then buffer[-n..] else [];
    }
  }

  /** The open chunk holds segments `lo..i`, and was not full at any of them it could refuse. */
  ghost predicate Open(segs: seq<Segment>, lo: nat, from: nat, i: nat, limit: int, buffer: seq<Segment>, chars: int) {
    && lo < from <= i <= |segs| && buffer == segs[lo..i] && chars == Chars(segs, lo, i)
    && forall j :: from <= j < i ==> !Full(segs, lo, j, limit)
  }

  /** The open chunk, with room for anything: it is the next segment's turn whatever its size. */
  ghost predicate Ready(segs: seq<Segment>, lo: nat, from: nat, i: nat, buffer: seq<Segment>, chars: int) {
    && lo <= i < from <= i + 1 <= |segs| && buffer == segs[lo..i] && chars == Chars(segs, lo, i)
  }

  lemma {:induction false} TakenIsOpen(segs: seq<Segment>, lo: nat, from: nat, i: nat, limit: int, buffer: seq<Segment>, chars: int)
    requires i < |segs|
    requires || Ready(segs, lo, from, i, buffer, chars)
             || (Open(segs, lo, from, i, limit, buffer, chars) && !Full(segs, lo, i, limit))
    ensures Open(segs, lo, from, i + 1, limit, buffer + [segs[i]], chars + Size(segs[i]))
  {
    assert segs[lo..i] + [segs[i]] == segs[lo..i + 1];
  }

  /** The chunks made, and those still to come, are the whole answer. */
  ghost predicate StillToCome(segs: seq<Segment>, lo: nat, from: nat, limit: int, overlap: int, render: Segment -> string,
                          chunks: seq<Chunk>, goal: seq<Chunk>)
  {
    lo < from <= |segs| && chunks + ChunksFrom(segs, lo, from, limit, overlap, render) == goal
  }

  lemma {:induction false} NextChunk(segs: seq<Segment>, lo: nat, hi: nat, from: nat, limit: int, overlap: int, render: Segment -> string,
                  chunks: seq<Chunk>, goal: seq<Chunk>)
    requires StillToCome(segs, lo, from, limit, overlap, render, chunks, goal) && ChunkEnd(segs, lo, limit, from) == hi < |segs|
    ensures StillToCome(segs, KeepFrom(lo, hi, overlap), hi + 1, limit, overlap, render,
                    chunks + [MakeChunk(segs[lo..hi], render)], goal)
  {
    ChunksFromStep(segs, lo, hi, from, limit, overlap, render);
    Reassociate(chunks, MakeChunk(segs[lo..hi], render),
                ChunksFrom(segs, KeepFrom(lo, hi, overlap), hi + 1, limit, overlap, render));
  }

  lemma {:induction false} KeptSlice(segs: seq<Segment>, lo: nat, i: nat, overlap: int)
    requires lo <= i <= |segs|
    ensures segs[lo..i][KeepFrom(0, i - lo, overlap)..] == segs[KeepFrom(lo, i, overlap)..i]
  {
  }

  method TotalOf(buffer: seq<Segment>) returns (n: int)
    ensures n == Total(buffer)
  {
    n := 0;
    for i := 0 to |buffer|
      invariant n == Chars(buffer, 0, i)
    {
      n := n + Size(buffer[i]);
    }
  }

  method KeepOverlap(segs: seq<Segment>, ghost lo: nat, ghost i: nat, overlap: int, buffer: seq<Segment>)
    returns (kept: seq<Segment>, chars: int)
    requires lo < i < |segs| && buffer == segs[lo..i]
    ensures Ready(segs, KeepFrom(lo, i, overlap), i + 1, i, kept, chars)
  {
    kept := KeepLast(buffer, overlap);
    KeptSlice(segs, lo, i, overlap);
    chars := TotalOf(kept);
    TotalOfSlice(segs, KeepFrom(lo, i, overlap), i);
  }

  /** Close the full chunk and keep its overlap for the next. */
  method CloseChunk(segs: seq<Segment>, i: nat, limit: int, overlap: int, render: Segment -> string,
                    chunks: seq<Chunk>, buffer: seq<Segment>, ghost lo: nat, ghost from: nat, ghost goal: seq<Chunk>)
    returns (chunks': seq<Chunk>, buffer': seq<Segment>, chars': int)
    requires lo < from <= i < |segs| && buffer == segs[lo..i] && ChunkEnd(segs, lo, limit, from) == i
    requires StillToCome(segs, lo, from, limit, overlap, render, chunks, goal)
    ensures Ready(segs, KeepFrom(lo, i, overlap), i + 1, i, buffer', chars')
    ensures StillToCome(segs, KeepFrom(lo, i, overlap), i + 1, limit, overlap, render, chunks', goal)
  {
    NextChunk(segs, lo, i, from, limit, overlap, render, chunks, goal);
    var chunk := Flush(buffer, render);
    chunks' := chunks + [chunk];
    buffer', chars' := KeepOverlap(segs, lo, i, overlap, buffer);
  }

  /** Take the next segment into the open chunk, which is closed first if it is full. */
  method TakeSegment(segs: seq<Segment>, i: nat, limit: int, overlap: int, render: Segment -> string,
                     chunks: seq<Chunk>, buffer: seq<Segment>, chars: int, ghost lo: nat, ghost from: nat, ghost goal: seq<Chunk>)
    returns (chunks': seq<Chunk>, buffer': seq<Segment>, chars': int, ghost lo': nat, ghost from': nat)
    requires i < |segs| && Open(segs, lo, from, i, limit, buffer, chars)
    requires StillToCome(segs, lo, from, limit, overlap, render, chunks, goal)
    ensures Open(segs, lo', from', i + 1, limit, buffer', chars')
    ensures StillToCome(segs, lo', from', limit, overlap, render, chunks', goal)
  {
    chunks', buffer', chars', lo', from' := chunks, buffer, chars, lo, from;
    if chars + Size(segs[i]) > limit {
      ChunkEndIs(segs, lo, limit, from, i);
      chunks', buffer', chars' := CloseChunk(segs, i, limit, overlap, render, chunks, buffer, lo, from, goal);
      lo', from' := KeepFrom(lo, i, overlap), i + 1;
    }
    TakenIsOpen(segs, lo', from', i, limit, buffer', chars');
    buffer' := buffer' + [segs[i]];
    chars' := chars' + Size(segs[i]);
  }

  lemma {:induction false} ChunksFromStep(segs: seq<Segment>, lo: nat, hi: nat, from: nat, limit: int, overlap: int, render: Segment -> string)
    requires lo < from <= |segs| && hi == ChunkEnd(segs, lo, limit, from)
    ensures ChunksFrom(segs, lo, from, limit, overlap, render)
         == [MakeChunk(segs[lo..hi], render)]
            + if hi == |segs| then [] else ChunksFrom(segs, KeepFrom(lo, hi, overlap), hi + 1, limit, overlap, render)
  {
    RangesFrom(segs, lo, from, limit, overlap);
  }

  method BuildChunks(segs: seq<Segment>, limit: int, overlap: int, render: Segment -> string, ghost goal: seq<Chunk>) returns (chunks: seq<Chunk>)
    requires segs != [] && StillToCome(segs, 0, 1, limit, overlap, render, [], goal)
    ensures chunks == goal
  {
    chunks := [];
    var buffer, chars := [segs[0]], Size(segs[0]);
    assert Chars(segs, 0, 1) == Chars(segs, 0, 0) + Size(segs[0]);
    ghost var lo: nat, from: nat := 0, 1;
    for i := 1 to |segs|
      invariant Open(segs, lo, from, i, limit, buffer, chars)
      invariant StillToCome(segs, lo, from, limit, overlap, render, chunks, goal)
    {
      chunks, buffer, chars, lo, from := TakeSegment(segs, i, limit, overlap, render, chunks, buffer, chars, lo, from, goal);
    }
    ChunkEndIs(segs, lo, limit, from, |segs|);
    ChunksFromStep(segs, lo, |segs|, from, limit, overlap, render);
    var last := Flush(buffer, render);
    chunks := chunks + [last];
  }

  /** `build_summary_input`: close the chunk when the next segment would pass the limit, keep the
      overlap, and take the segment in any case. */
  method BuildSummaryInput(segs: seq<Segment>, tokensPerChunk: int, overlap: int, render: Segment -> string) returns (chunks: seq<Chunk>)
    ensures chunks == ChunksOf(segs, AllRanges(segs, tokensPerChunk * 4, overlap), render)
  {
    chunks := [];
    if segs == [] {
      return;
    }
    chunks := BuildChunks(segs, tokensPerChunk * 4, overlap, render, ChunksOf(segs, AllRanges(segs, tokensPerChunk * 4, overlap), render));
  }

  /** The chunks still to come when `lo..from` is already in the open one. */
  ghost function ChunksFrom(segs: seq<Segment>, lo: nat, from: nat, limit: int, overlap: int, render: Segment -> string): seq<Chunk>
    requires lo < from <= |segs|
  {
    ChunksOf(segs, Ranges(segs, lo, from, limit, overlap), render)
  }
}
