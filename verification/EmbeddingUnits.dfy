/** The texts of a recording that are embedded, and the key each is stored under:
    `segment_units` in `vector/embedding.py`. */
module EmbeddingUnits {
  import opened Windows
  import Packing
  import Passages

  /** What is embedded as one text: the segment it hangs on, and its number among those that do. */
  datatype Unit = Unit(seg: int, text: string, span: nat, chunk: nat)

  /** The segments that have a text. */
  function Spoken(segs: seq<Utterance>): seq<Utterance> {
    if segs == [] then []
    else
      var n := |segs| - 1;
      Spoken(segs[..n]) + if segs[n].text != "" then [segs[n]] else []
  }

  lemma {:induction false} SpokenIff(segs: seq<Utterance>)
    ensures forall s :: s in Spoken(segs) <==> s in segs && s.text != ""
  {
    if segs != [] {
      var n := |segs| - 1;
      SpokenIff(segs[..n]);
      assert segs == segs[..n] + [segs[n]];
    }
  }

  /** The units of the segment scheme: one a segment. */
  function TextUnits(spoken: seq<Utterance>): seq<Unit> {
    seq(|spoken|, i requires 0 <= i < |spoken| => Unit(spoken[i].id, spoken[i].text, 1, 0))
  }

  /** How many of the first `n` windows hang on `anchor`. */
  function Seen(windows: seq<Window>, n: nat, anchor: int): nat
    requires n <= |windows|
  {
    if n == 0 then 0 else Seen(windows, n - 1, anchor) + if windows[n - 1].anchor == anchor then 1 else 0
  }

  /** The units of the first `n` windows; a window on no known segment is passed over. */
  function WindowUnits(windows: seq<Window>, n: nat, ids: set<int>): seq<Unit>
    requires n <= |windows|
  {
    if n == 0 then []
    else
      var w := windows[n - 1];
      WindowUnits(windows, n - 1, ids)
      + if w.anchor in ids then [Unit(w.anchor, w.text, |w.covered|, Seen(windows, n - 1, w.anchor))] else []
  }

  /** No two units have one key. */
  ghost predicate DistinctKeys(units: seq<Unit>) {
    forall i, j :: 0 <= i < j < |units| ==> units[i].seg != units[j].seg || units[i].chunk != units[j].chunk
  }

  lemma {:induction false} SpokenIdsAreDistinct(segs: seq<Utterance>)
    requires DistinctIds(segs)
    ensures DistinctIds(Spoken(segs))
  {
    if segs != [] {
      var n := |segs| - 1;
      SpokenIdsAreDistinct(segs[..n]);
      SpokenIff(segs[..n]);
      forall s | s in Spoken(segs[..n]) ensures s.id != segs[n].id {
        assert s in segs[..n];
      }
    }
  }

  /** However often an anchor repeats, no window's unit overwrites another's: the units on one
      anchor are numbered in order. */
  lemma {:induction false} WindowUnitsAreDistinct(windows: seq<Window>, n: nat, ids: set<int>)
    requires n <= |windows|
    ensures DistinctKeys(WindowUnits(windows, n, ids))
    ensures forall u :: u in WindowUnits(windows, n, ids) ==> u.chunk < Seen(windows, n, u.seg)
  {
    if n > 0 { WindowUnitsAreDistinct(windows, n - 1, ids); }
  }

  method CountAnchors(windows: seq<Window>, ids: set<int>) returns (units: seq<Unit>)
    ensures units == WindowUnits(windows, |windows|, ids)
  {
    units := [];
    var seen: map<int, nat> := map[];
    for i := 0 to |windows|
      invariant units == WindowUnits(windows, i, ids)
      invariant forall a :: a in ids ==> (if a in seen then seen[a] else 0) == Seen(windows, i, a)
    {
      var w := windows[i];
      if w.anchor in ids {
        var index := if w.anchor in seen then seen[w.anchor] else 0;
        seen := seen[w.anchor := index + 1];
        units := units + [Unit(w.anchor, w.text, |w.covered|, index)];
      }
    }
  }

  lemma {:induction false} NoneIsPassedOver(windows: seq<Window>, n: nat, ids: set<int>)
    requires n <= |windows| && forall i :: 0 <= i < n ==> windows[i].anchor in ids
    ensures |WindowUnits(windows, n, ids)| == n
  {
    if n > 0 { NoneIsPassedOver(windows, n - 1, ids); }
  }

  /** The windows among the first `n` that hang on `anchor`. */
  function On(windows: seq<Window>, n: nat, anchor: int): set<nat>
    requires n <= |windows|
  {
    set i: nat | i < n && windows[i].anchor == anchor
  }

  lemma {:induction false} SeenIsCount(windows: seq<Window>, n: nat, anchor: int)
    requires n <= |windows|
    ensures Seen(windows, n, anchor) == |On(windows, n, anchor)|
  {
    if n > 0 {
      SeenIsCount(windows, n - 1, anchor);
      assert On(windows, n, anchor) == On(windows, n - 1, anchor) + if windows[n - 1].anchor == anchor then {n - 1} else {};
    }
  }

  /** Unit `i` is window `i`: its text, the utterances it covers, and as its number how many
      windows before it hang on the same segment. */
  lemma {:induction false} WindowUnitAt(windows: seq<Window>, n: nat, ids: set<int>, i: nat)
    requires i < n <= |windows| && forall k :: 0 <= k < n ==> windows[k].anchor in ids
    ensures var units := WindowUnits(windows, n, ids);
            |units| == n && units[i] == Unit(windows[i].anchor, windows[i].text, |windows[i].covered|, |On(windows, i, windows[i].anchor)|)
  {
    NoneIsPassedOver(windows, n - 1, ids);
    if i < n - 1 { WindowUnitAt(windows, n - 1, ids, i); } else { SeenIsCount(windows, i, windows[i].anchor); }
  }

  lemma {:induction false} SpokenSnoc(a: seq<Utterance>, s: Utterance)
    ensures Spoken(a + [s]) == Spoken(a) + if s.text != "" then [s] else []
  {
    assert (a + [s])[..|a|] == a;
  }

  predicate SpokenAdds(a: seq<Utterance>, b: seq<Utterance>) {
    Spoken(a + b) == Spoken(a) + Spoken(b)
  }

  lemma {:induction false} SpokenAddsOne(a: seq<Utterance>, b: seq<Utterance>, s: Utterance)
    requires SpokenAdds(a, b)
    ensures SpokenAdds(a, b + [s])
  {
    SpokenSnoc(b, s);
    SpokenSnoc(a + b, s);
    assert a + (b + [s]) == (a + b) + [s];
  }

  lemma {:induction false} SpokenConcat(a: seq<Utterance>, b: seq<Utterance>)
    ensures SpokenAdds(a, b)
    decreases |b|
  {
    if b == [] {
      assert a + b == a;
    } else {
      var n := |b| - 1;
      SpokenConcat(a, b[..n]);
      SpokenAddsOne(a, b[..n], b[n]);
      assert b[..n] + [b[n]] == b;
    }
  }

  /** The units of the segment scheme keep the order of the segments: wherever a transcript is cut,
      they are those of its front and then those of its rest; one segment is one unit, or none if
      it has no text. */
  lemma {:induction false} TextUnitsKeepOrder(a: seq<Utterance>, b: seq<Utterance>, s: Utterance)
    ensures TextUnits(Spoken(a + b)) == TextUnits(Spoken(a)) + TextUnits(Spoken(b))
    ensures TextUnits(Spoken([s])) == if s.text != "" then [Unit(s.id, s.text, 1, 0)] else []
  {
    SpokenConcat(a, b);
    SpokenSnoc([], s);
    assert [] + [s] == [s];
  }

  /** The windows `build_windows` makes of the segments. */
  function Windowed(segs: seq<Utterance>, lim: Limits): seq<Window>
    requires lim.Sound()
  {
    var lines := Passages.AllLines(Passages.Ordered(segs), lim.max);
    Passages.WindowsOf(lines, Packing.Spans(lines, 0, lim), 0)
  }

  function Ids(segs: seq<Utterance>): set<int> {
    set s | s in segs :: s.id
  }

  lemma {:induction false} LinesComeFromSegments(segs: seq<Utterance>, max: int)
    requires 1 <= max
    ensures forall l :: l in Passages.AllLines(segs, max) ==> l.who in segs
  {
    if segs != [] {
      LinesComeFromSegments(segs[1..], max);
      Passages.TaggedText(segs[0], Split(Render(segs[0]), max));
    }
  }

  lemma {:induction false} AnchorsAreSegments(segs: seq<Utterance>, lim: Limits)
    requires lim.Sound()
    ensures forall i :: 0 <= i < |Windowed(segs, lim)| ==> Windowed(segs, lim)[i].anchor in Ids(segs)
  {
    var ordered := Passages.Ordered(segs);
    var lines := Passages.AllLines(ordered, lim.max);
    var spans := Packing.Spans(lines, 0, lim);
    LinesComeFromSegments(ordered, lim.max);
    Passages.OrderedIsStable(segs);
    forall i | 0 <= i < |spans| ensures Windowed(segs, lim)[i].anchor in Ids(segs) {
      assert lines[spans[i].0] in lines;
      assert lines[spans[i].0].who in segs;
    }
  }

  /** `segment_units`: every scheme but `window` is one unit a segment. */
  function Units(segs: seq<Utterance>, scheme: string, lim: Limits): seq<Unit>
    requires lim.Sound()
  {
    var spoken := Spoken(segs);
    if scheme != "window" then TextUnits(spoken)
    else WindowUnits(Windowed(spoken, lim), |Windowed(spoken, lim)|, Ids(spoken))
  }

  method SegmentUnits(segs: seq<Utterance>, scheme: string, target: int, max: int, overlap: int) returns (units: seq<Unit>)
    ensures units == Units(segs, scheme, Clamp(target, max, overlap))
  {
    var spoken := Spoken(segs);
    if scheme != "window" {
      units := TextUnits(spoken);
    } else {
      var windows := Passages.BuildWindows(spoken, target, max, overlap);
      units := CountAnchors(windows, Ids(spoken));
    }
  }

  /** In either scheme no unit of a recording is stored over another, and nothing to embed is
      passed over: one unit a segment with a text, or one a window. */
  lemma {:induction false} UnitsAreDistinct(segs: seq<Utterance>, scheme: string, lim: Limits)
    requires DistinctIds(segs) && lim.Sound()
    ensures DistinctKeys(Units(segs, scheme, lim))
    ensures |Units(segs, scheme, lim)| == if scheme != "window" then |Spoken(segs)| else |Windowed(Spoken(segs), lim)|
  {
    var spoken := Spoken(segs);
    if scheme != "window" {
      SpokenIdsAreDistinct(segs);
    } else {
      var windows := Windowed(spoken, lim);
      WindowUnitsAreDistinct(windows, |windows|, Ids(spoken));
      AnchorsAreSegments(spoken, lim);
      NoneIsPassedOver(windows, |windows|, Ids(spoken));
    }
  }
}
