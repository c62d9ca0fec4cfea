/** Packing rendered lines into windows: the greedy rule as a function, what it guarantees, and
    the loop over a mutable buffer that computes it. */
module Packing {
  import opened Text
  import opened Windows
  import opened Overlaps

  /** The length lines `lo..hi` count for: each with its separator. */
  function Cost(lines: seq<Line>, lo: nat, hi: nat): nat
    requires lo <= hi <= |lines|
    decreases hi
  {
    if lo == hi then 0 else Cost(lines, lo, hi - 1) + |lines[hi - 1].text| + 1
  }

  lemma {:induction false} CostSplit(lines: seq<Line>, lo: nat, mid: nat, hi: nat)
    requires lo <= mid <= hi <= |lines|
    ensures Cost(lines, lo, hi) == Cost(lines, lo, mid) + Cost(lines, mid, hi)
    decreases hi
  {
    if mid < hi { CostSplit(lines, lo, mid, hi - 1); }
  }

  /** Does a window holding lines `lo..hi` take no further line? */
  predicate Closed(lines: seq<Line>, lo: nat, hi: nat, lim: Limits)
    requires lo <= hi <= |lines|
  {
    || hi == |lines|
    || Cost(lines, lo, hi) >= lim.target
    || Cost(lines, lo, hi) + |lines[hi].text| + 1 > lim.max
  }

  /** Where the window that starts at `lo` ends: it takes at least one line, then every line
      until it is closed. */
  function End(lines: seq<Line>, lo: nat, lim: Limits, from: nat := lo + 1): (hi: nat)
    requires lo < from <= |lines|
    ensures from <= hi <= |lines| && Closed(lines, lo, hi, lim)
    ensures forall j :: from <= j < hi ==> !Closed(lines, lo, j, lim)
    decreases |lines| - from
  {
    if Closed(lines, lo, from, lim) then from else End(lines, lo, lim, from + 1)
  }

  /** The longest tail of the window, the whole window excepted, that fits the overlap budget. */
  function Carry(lines: seq<Line>, lo: nat, hi: nat, lim: Limits, from: nat := hi): (c: nat)
    requires lo < from <= hi <= |lines|
    ensures lo < c <= from
    ensures Cost(lines, from, hi) <= lim.overlap ==> Cost(lines, c, hi) <= lim.overlap
    ensures c == lo + 1 || Cost(lines, c - 1, hi) > lim.overlap
    decreases from
  {
    if from == lo + 1 || Cost(lines, from - 1, hi) > lim.overlap then from else Carry(lines, lo, hi, lim, from - 1)
  }

  /** Where the window after `lo..hi` starts: at the carried tail, unless the window closed
      before its target because a line did not fit, and that line does not fit the tail either. */
  function NextStart(lines: seq<Line>, lo: nat, hi: nat, lim: Limits): (r: nat)
    requires lo < hi <= |lines|
    ensures lo < r <= hi
  {
    var c := Carry(lines, lo, hi, lim);
    if hi < |lines| && Cost(lines, lo, hi) < lim.target && c < hi && Cost(lines, c, hi) + |lines[hi].text| + 1 > lim.max
    then hi else c
  }

  /** Is `lo..hi` the last window? It ran out of lines and did not reach its target. */
  predicate Last(lines: seq<Line>, lo: nat, hi: nat, lim: Limits)
    requires lo <= hi <= |lines|
  {
    hi == |lines| && Cost(lines, lo, hi) < lim.target
  }

  /** The windows from line `lo` on, as ranges of lines. */
  function Spans(lines: seq<Line>, lo: nat, lim: Limits): (r: seq<(nat, nat)>)
    requires lo <= |lines|
    ensures r != [] <==> lo < |lines|
    ensures forall i :: 0 <= i < |r| ==> lo <= r[i].0 < r[i].1 <= |lines|
    decreases |lines| - lo
  {
    if lo == |lines| then []
    else
      var hi := End(lines, lo, lim);
      [(lo, hi)] + if Last(lines, lo, hi, lim) then [] else Spans(lines, NextStart(lines, lo, hi, lim), lim)
  }

  // ----- what a packing guarantees

  lemma {:induction false} CostGrows(lines: seq<Line>, a: nat, lo: nat, hi: nat, b: nat)
    requires a <= lo <= hi <= b <= |lines|
    ensures Cost(lines, lo, hi) <= Cost(lines, a, b)
  {
    CostSplit(lines, a, lo, b);
    CostSplit(lines, lo, hi, b);
  }

  /** The text of a window, and its length. */
  function Joined(lines: seq<Line>): string {
    if lines == [] then ""
    else if |lines| == 1 then lines[0].text
    else lines[0].text + "\n" + Joined(lines[1..])
  }

  lemma {:induction false} JoinedLength(lines: seq<Line>, lo: nat, hi: nat)
    requires lo < hi <= |lines|
    ensures |Joined(lines[lo..hi])| == Cost(lines, lo, hi) - 1
    decreases hi - lo
  {
    if hi == lo + 1 {
      assert lines[lo..hi] == [lines[lo]];
    } else {
      assert lines[lo..hi][1..] == lines[lo + 1..hi];
      JoinedLength(lines, lo + 1, hi);
      CostSplit(lines, lo, lo + 1, hi);
      assert Cost(lines, lo, lo + 1) == |lines[lo].text| + 1;
    }
  }

  /** What one window and the start of the next guarantee. */
  ghost predicate WindowRule(lines: seq<Line>, lo: nat, hi: nat, lim: Limits)
    requires lo < hi <= |lines|
  {
    && |Joined(lines[lo..hi])| <= lim.max
    && (hi == |lines| || Cost(lines, lo, hi) >= lim.target || Cost(lines, lo, hi) + |lines[hi].text| + 1 > lim.max)
    && (forall j :: lo < j < hi ==> Cost(lines, lo, j) < lim.target && Cost(lines, lo, j) + |lines[j].text| + 1 <= lim.max)
  }

  lemma {:induction false} WindowFits(lines: seq<Line>, lo: nat, lim: Limits)
    requires lo < |lines| && lim.Sound()
    requires forall l :: l in lines ==> |l.text| <= lim.max
    ensures |Joined(lines[lo..End(lines, lo, lim)])| <= lim.max
  {
    var hi := End(lines, lo, lim);
    JoinedLength(lines, lo, hi);
    if hi > lo + 1 {
      assert !Closed(lines, lo, hi - 1, lim);
    } else {
      assert Cost(lines, lo, hi) == Cost(lines, lo, lo) + |lines[lo].text| + 1;
      assert lines[lo] in lines;
    }
  }

  lemma {:induction false} WindowKeepsRule(lines: seq<Line>, lo: nat, lim: Limits)
    requires lo < |lines| && lim.Sound()
    requires forall l :: l in lines ==> |l.text| <= lim.max
    ensures WindowRule(lines, lo, End(lines, lo, lim), lim)
  {
    var hi := End(lines, lo, lim);
    forall j | lo < j < hi ensures Cost(lines, lo, j) < lim.target && Cost(lines, lo, j) + |lines[j].text| + 1 <= lim.max {
      assert !Closed(lines, lo, j, lim);
    }
    WindowFits(lines, lo, lim);
  }

  /** The window reached its target, or there is a line it could not take. */
  predicate Filled(lines: seq<Line>, lo: nat, hi: nat, lim: Limits)
    requires lo <= hi <= |lines|
  {
    Cost(lines, lo, hi) >= lim.target || (hi < |lines| && Cost(lines, lo, hi) + |lines[hi].text| + 1 > lim.max)
  }

  /** Two windows in a row: the second starts later and ends no earlier, they leave no gap, and
      they share at most the overlap budget, each line counted with its separator. */
  predicate Neighbours(lines: seq<Line>, a: (nat, nat), b: (nat, nat), lim: Limits) {
    a.0 < b.0 <= a.1 <= b.1 && a.1 <= |lines| && Cost(lines, b.0, a.1) <= lim.overlap
  }

  lemma {:induction false} SpansFrom(lines: seq<Line>, lo: nat, lim: Limits)
    requires lo < |lines|
    ensures Spans(lines, lo, lim)[0] == (lo, End(lines, lo, lim))
    ensures var hi := End(lines, lo, lim);
            Spans(lines, lo, lim)[1..] == if Last(lines, lo, hi, lim) then [] else Spans(lines, NextStart(lines, lo, hi, lim), lim)
  {
  }

  /** Over any lines none of which is longer than a window, every window keeps the window rule. */
  lemma {:induction false} WindowsKeepRule(lines: seq<Line>, lo: nat, lim: Limits)
    requires lo <= |lines| && lim.Sound()
    requires forall l :: l in lines ==> |l.text| <= lim.max
    ensures forall s :: s in Spans(lines, lo, lim) ==> WindowRule(lines, s.0, s.1, lim)
    decreases |lines| - lo
  {
    if lo < |lines| {
      var hi, r := End(lines, lo, lim), Spans(lines, lo, lim);
      SpansFrom(lines, lo, lim);
      WindowKeepsRule(lines, lo, lim);
      if !Last(lines, lo, hi, lim) { WindowsKeepRule(lines, NextStart(lines, lo, hi, lim), lim); }
      forall s | s in r ensures WindowRule(lines, s.0, s.1, lim) {
        assert s == r[0] || s in r[1..];
      }
    }
  }

  /** Every window but the last is filled, also where it ends with the last line and only carried
      lines are left for the window after it. */
  lemma {:induction false} WindowsAreFilled(lines: seq<Line>, lo: nat, lim: Limits, i: nat)
    requires lo <= |lines| && i + 1 < |Spans(lines, lo, lim)|
    ensures var s := Spans(lines, lo, lim)[i]; Filled(lines, s.0, s.1, lim)
    decreases i
  {
    SpansFrom(lines, lo, lim);
    var hi, r := End(lines, lo, lim), Spans(lines, lo, lim);
    if i > 0 {
      WindowsAreFilled(lines, NextStart(lines, lo, hi, lim), lim, i - 1);
      assert r[i] == r[1..][i - 1];
    }
  }

  /** Lines `c..hi` are the longest tail of the window within the overlap budget, the whole window
      excepted; none of it if not even the last line is. */
  predicate LongestTail(lines: seq<Line>, lo: nat, c: nat, hi: nat, lim: Limits)
    requires lo < hi <= |lines|
  {
    lo < c <= hi && Cost(lines, c, hi) <= lim.overlap && (c == lo + 1 || Cost(lines, c - 1, hi) > lim.overlap)
  }

  /** Was the window closed before its target, by a line that would not fit after `c..hi` either? */
  predicate ShutOut(lines: seq<Line>, lo: nat, c: nat, hi: nat, lim: Limits)
    requires lo < c <= hi <= |lines|
  {
    hi < |lines| && Cost(lines, lo, hi) < lim.target && Cost(lines, c, hi) + |lines[hi].text| + 1 > lim.max
  }

  /** The next window starts with the longest tail within the budget, or afresh exactly where that
      would shut out the line that closed this one. */
  ghost predicate Reopens(lines: seq<Line>, a: (nat, nat), b: (nat, nat), lim: Limits)
    requires a.0 < a.1 <= |lines|
  {
    exists c: nat :: LongestTail(lines, a.0, c, a.1, lim) && b.0 == if ShutOut(lines, a.0, c, a.1, lim) then a.1 else c
  }

  lemma {:induction false} NextStartReopens(lines: seq<Line>, lo: nat, hi: nat, lim: Limits, end: nat)
    requires lo < hi <= |lines| && lim.Sound()
    ensures Reopens(lines, (lo, hi), (NextStart(lines, lo, hi, lim), end), lim)
  {
    assert Cost(lines, hi, hi) == 0;
    assert LongestTail(lines, lo, Carry(lines, lo, hi, lim), hi, lim);
  }

  lemma {:induction false} NextSpanStarts(lines: seq<Line>, lo: nat, lim: Limits, r: seq<(nat, nat)>, i: nat, j: nat)
    requires lo <= |lines| && r == Spans(lines, lo, lim) && j == i + 1 < |r|
    ensures r[j].0 == NextStart(lines, r[i].0, r[i].1, lim)
    decreases i
  {
    SpansFrom(lines, lo, lim);
    var next := NextStart(lines, lo, End(lines, lo, lim), lim);
    if i > 0 { NextSpanStarts(lines, next, lim, r[1..], i - 1, i); } else { SpansFrom(lines, next, lim); }
  }

  /** So it is for every window and the one after it. */
  lemma {:induction false} WindowsReopen(lines: seq<Line>, lo: nat, lim: Limits, i: nat, j: nat)
    requires lo <= |lines| && lim.Sound() && j == i + 1 < |Spans(lines, lo, lim)|
    ensures Reopens(lines, Spans(lines, lo, lim)[i], Spans(lines, lo, lim)[j], lim)
  {
    var r := Spans(lines, lo, lim);
    NextSpanStarts(lines, lo, lim, r, i, j);
    NextStartReopens(lines, r[i].0, r[i].1, lim, r[j].1);
  }

  lemma {:induction false} EndsHereIff(lines: seq<Line>, lo: nat, hi: nat, lim: Limits)
    requires lo < hi <= |lines| && lim.Sound()
    ensures NextStart(lines, lo, hi, lim) == |lines| <==> hi == |lines| && LongestTail(lines, lo, hi, hi, lim)
  {
    assert Cost(lines, hi, hi) == 0;
    var c := Carry(lines, lo, hi, lim);
    if hi == |lines| && c < hi && hi > lo + 1 { CostGrows(lines, c, hi - 1, hi, hi); }
  }

  /** A window is the last one exactly if the lines end with it and it is below its target, or no
      tail of it fits the overlap budget: a window at its target is followed by what it carries. */
  lemma {:induction false} IsLastIff(lines: seq<Line>, lo: nat, lim: Limits, r: seq<(nat, nat)>, i: nat)
    requires lo <= |lines| && lim.Sound() && r == Spans(lines, lo, lim) && i < |r|
    ensures i + 1 == |r| <==> r[i].1 == |lines| && (Cost(lines, r[i].0, r[i].1) < lim.target || LongestTail(lines, r[i].0, r[i].1, r[i].1, lim))
    decreases i
  {
    SpansFrom(lines, lo, lim);
    var hi := End(lines, lo, lim);
    if i > 0 { IsLastIff(lines, NextStart(lines, lo, hi, lim), lim, r[1..], i - 1); } else { EndsHereIff(lines, lo, hi, lim); }
  }

  predicate Chained(lines: seq<Line>, spans: seq<(nat, nat)>, lim: Limits) {
    |spans| >= 2 ==> Neighbours(lines, spans[0], spans[1], lim) && Chained(lines, spans[1..], lim)
  }

  lemma {:induction false} ChainedAt(lines: seq<Line>, spans: seq<(nat, nat)>, lim: Limits, i: nat)
    requires Chained(lines, spans, lim) && 0 < i < |spans|
    ensures Neighbours(lines, spans[i - 1], spans[i], lim)
  {
    if i > 1 { ChainedAt(lines, spans[1..], lim, i - 1); }
  }

  /** The next window shares at most the budget with this one and ends no earlier. */
  lemma {:induction false} NextWindowReaches(lines: seq<Line>, lo: nat, lim: Limits)
    requires lo < |lines| && lim.Sound() && !Last(lines, lo, End(lines, lo, lim), lim)
    ensures var hi := End(lines, lo, lim); var next := NextStart(lines, lo, hi, lim);
            && Cost(lines, next, hi) <= lim.overlap
            && (next < |lines| ==> hi <= End(lines, next, lim))
            && (next == |lines| ==> hi == |lines|)
  {
    var hi := End(lines, lo, lim);
    var next := NextStart(lines, lo, hi, lim);
    assert Cost(lines, hi, hi) == 0;
    if next < |lines| && End(lines, next, lim) < hi {
      var e := End(lines, next, lim);
      CostGrows(lines, next, next, e, hi);
      CostGrows(lines, next, next, e + 1, hi);
    }
  }

  lemma {:induction false} NextIsNeighbour(lines: seq<Line>, lo: nat, lim: Limits)
    requires lo < |lines| && lim.Sound() && !Last(lines, lo, End(lines, lo, lim), lim)
    requires NextStart(lines, lo, End(lines, lo, lim), lim) < |lines|
    ensures var hi := End(lines, lo, lim); var next := NextStart(lines, lo, hi, lim);
            Neighbours(lines, (lo, hi), (next, End(lines, next, lim)), lim)
  {
    NextWindowReaches(lines, lo, lim);
  }

  /** Is this the last window, or is no line left for the next? */
  predicate Ends(lines: seq<Line>, lo: nat, lim: Limits)
    requires lo < |lines|
  {
    var hi := End(lines, lo, lim);
    Last(lines, lo, hi, lim) || NextStart(lines, lo, hi, lim) == |lines|
  }

  lemma {:induction false} SpansEnd(lines: seq<Line>, lo: nat, lim: Limits)
    requires lo < |lines| && lim.Sound() && Ends(lines, lo, lim)
    ensures Spans(lines, lo, lim) == [(lo, |lines|)]
  {
    SpansFrom(lines, lo, lim);
    if !Last(lines, lo, End(lines, lo, lim), lim) { NextWindowReaches(lines, lo, lim); }
  }

  lemma {:induction false} FirstIsNeighbour(lines: seq<Line>, lo: nat, lim: Limits, next: nat)
    requires lo < |lines| && lim.Sound() && !Last(lines, lo, End(lines, lo, lim), lim)
    requires next == NextStart(lines, lo, End(lines, lo, lim), lim) < |lines|
    ensures Spans(lines, next, lim) != [] && Neighbours(lines, (lo, End(lines, lo, lim)), Spans(lines, next, lim)[0], lim)
  {
    SpansFrom(lines, next, lim);
    NextIsNeighbour(lines, lo, lim);
  }

  lemma {:induction false} SpansCons(lines: seq<Line>, lo: nat, lim: Limits) returns (next: nat, rest: seq<(nat, nat)>)
    requires lo < |lines| && lim.Sound() && !Ends(lines, lo, lim)
    ensures lo < next < |lines| && rest == Spans(lines, next, lim) && rest != []
    ensures Spans(lines, lo, lim) == [(lo, End(lines, lo, lim))] + rest
    ensures Neighbours(lines, (lo, End(lines, lo, lim)), rest[0], lim)
  {
    next := NextStart(lines, lo, End(lines, lo, lim), lim);
    rest := Spans(lines, next, lim);
    var r := Spans(lines, lo, lim);
    SpansFrom(lines, lo, lim);
    assert r == [r[0]] + r[1..];
    FirstIsNeighbour(lines, lo, lim, next);
  }

  /** A chain of windows that ends with the last line. */
  predicate Covering(lines: seq<Line>, r: seq<(nat, nat)>, lim: Limits) {
    r != [] && Chained(lines, r, lim) && r[|r| - 1].1 == |lines|
  }

  lemma {:induction false} CoveringCons(lines: seq<Line>, first: (nat, nat), rest: seq<(nat, nat)>, lim: Limits)
    requires Covering(lines, rest, lim) && Neighbours(lines, first, rest[0], lim)
    ensures Covering(lines, [first] + rest, lim)
  {
    assert ([first] + rest)[1..] == rest;
    assert ([first] + rest)[|rest|] == rest[|rest| - 1];
  }

  lemma {:induction false} SpansAreCovering(lines: seq<Line>, lo: nat, lim: Limits)
    requires lo < |lines| && lim.Sound()
    ensures Covering(lines, Spans(lines, lo, lim), lim)
    decreases |lines| - lo
  {
    if Ends(lines, lo, lim) {
      SpansEnd(lines, lo, lim);
    } else {
      var next, rest := SpansCons(lines, lo, lim);
      SpansAreCovering(lines, next, lim);
      CoveringCons(lines, (lo, End(lines, lo, lim)), rest, lim);
    }
  }

  /** The windows are contiguous runs of lines with strictly increasing starts and ends that
      never decrease; they leave no gap and cover everything, and neighbours share at most the
      overlap budget. */
  lemma {:induction false} WindowsCover(lines: seq<Line>, lim: Limits)
    requires lines != [] && lim.Sound()
    ensures var r := Spans(lines, 0, lim);
            && r[0].0 == 0 && r[|r| - 1].1 == |lines|
            && forall i :: 0 < i < |r| ==> Neighbours(lines, r[i - 1], r[i], lim)
  {
    SpansFrom(lines, 0, lim);
    SpansAreCovering(lines, 0, lim);
    forall i | 0 < i < |Spans(lines, 0, lim)|
      ensures Neighbours(lines, Spans(lines, 0, lim)[i - 1], Spans(lines, 0, lim)[i], lim)
    {
      ChainedAt(lines, Spans(lines, 0, lim), lim, i);
    }
  }

  /** The windows from `lo` on start with one that reaches at least line `seen`. */
  predicate Reached(lines: seq<Line>, lo: nat, lim: Limits, seen: nat)
    requires lo <= |lines|
  {
    if lo < |lines| then seen <= End(lines, lo, lim) else seen == |lines|
  }

  lemma {:induction false} NextIsReached(lines: seq<Line>, lo: nat, lim: Limits)
    requires lo < |lines| && lim.Sound() && !Last(lines, lo, End(lines, lo, lim), lim)
    ensures var hi := End(lines, lo, lim); Reached(lines, NextStart(lines, lo, hi, lim), lim, hi)
  {
    NextWindowReaches(lines, lo, lim);
  }

  /** Dropping from every window what it shares with the one before gives back every line, once,
      in transcript order. */
  lemma {:induction false} NothingIsLost(lines: seq<Line>, lo: nat, lim: Limits, seen: nat)
    requires lo <= seen <= |lines| && lim.Sound() && Reached(lines, lo, lim, seen)
    ensures Added(lines, Spans(lines, lo, lim), seen) == lines[seen..]
    decreases |lines| - lo
  {
    if lo < |lines| {
      var hi, r := End(lines, lo, lim), Spans(lines, lo, lim);
      SpansFrom(lines, lo, lim);
      if !Last(lines, lo, hi, lim) {
        NextIsReached(lines, lo, lim);
        NothingIsLost(lines, NextStart(lines, lo, hi, lim), lim, hi);
      }
      AddedStep(lines, r, seen);
    }
  }
}
