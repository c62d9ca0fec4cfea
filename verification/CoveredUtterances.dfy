/** Which utterances a window says it covers. */
module CoveredUtterances {
  import opened Text
  import opened Windows
  import opened Packing
  import opened Passages
  import opened WholeUtterances

  // ----- the utterance each line belongs to

  /** `at[k]` is the position of line k's utterance: every utterance has its turn, in order. */
  ghost predicate Placed(us: seq<Utterance>, lines: seq<Line>, at: seq<nat>) {
    && |at| == |lines| && (us == [] <==> at == [])
    && (forall k :: 0 <= k < |at| ==> at[k] < |us| && lines[k].who == us[at[k]])
    && (forall k, m :: 0 <= k && m == k + 1 < |at| ==> at[k] <= at[m] <= at[k] + 1)
    && (at != [] ==> at[0] == 0 && at[|at| - 1] == |us| - 1)
  }

  /** `n` lines of a new first utterance, and the others one further. */
  function Before(n: nat, at: seq<nat>): (r: seq<nat>)
    ensures |r| == n + |at|
  {
    seq(n + |at|, k requires 0 <= k < n + |at| => if k < n then 0 else at[k - n] + 1)
  }

  function Places(us: seq<Utterance>, own: Utterance -> seq<Line>): seq<nat> {
    if us == [] then [] else Before(|own(us[0])|, Places(us[1..], own))
  }

  lemma {:induction false} PlacedBefore(u: Utterance, us: seq<Utterance>, own: seq<Line>, rest: seq<Line>, at: seq<nat>)
    requires own != [] && (forall l :: l in own ==> l.who == u) && Placed(us, rest, at)
    ensures Placed([u] + us, own + rest, Before(|own|, at))
  {
    var r := Before(|own|, at);
    forall k | 0 <= k < |r| ensures r[k] < |us| + 1 && (own + rest)[k].who == ([u] + us)[r[k]] {
      if k < |own| { assert own[k] in own; }
    }
    forall k, m | 0 <= k && m == k + 1 < |r| ensures r[k] <= r[m] <= r[k] + 1 {
      if k >= |own| { assert at[k - |own|] <= at[m - |own|] <= at[k - |own|] + 1; }
    }
  }

  lemma {:induction false} LinesArePlaced(us: seq<Utterance>, own: Utterance -> seq<Line>)
    requires Apiece(us, own)
    ensures Placed(us, Laid(us, own), Places(us, own))
  {
    if us != [] {
      LinesArePlaced(us[1..], own);
      PlacedBefore(us[0], us[1..], own(us[0]), Laid(us[1..], own), Places(us[1..], own));
      assert [us[0]] + us[1..] == us;
    }
  }

  lemma {:induction false} PlacesGrow(us: seq<Utterance>, lines: seq<Line>, at: seq<nat>, k: nat, m: nat)
    requires Placed(us, lines, at) && k <= m < |at|
    ensures at[k] <= at[m]
    decreases m
  {
    if k < m {
      PlacesGrow(us, lines, at, k, m - 1);
      assert at[m - 1] <= at[m];
    }
  }

  // ----- what a window covers

  function IdsOf(us: seq<Utterance>): (r: seq<int>)
    ensures |r| == |us|
  {
    seq(|us|, i requires 0 <= i < |us| => us[i].id)
  }

  /** The utterances the lines `a..b` belong to. */
  function RunOf(at: seq<nat>, a: nat, b: nat): (nat, nat)
    requires a < b <= |at|
  {
    (at[a], at[b - 1] + 1)
  }

  /** The ids of the lines `a..b`, consecutive repeats collapsed. */
  function CoveredBy(lines: seq<Line>, a: nat, b: nat): seq<int>
    requires a <= b <= |lines|
    decreases b
  {
    if a == b then []
    else if a < b - 1 && lines[b - 2].who.id == lines[b - 1].who.id then CoveredBy(lines, a, b - 1)
    else CoveredBy(lines, a, b - 1) + [lines[b - 1].who.id]
  }

  lemma {:induction false} CollapsedStep(ids: seq<int>, x: int, before: seq<int>, after: seq<int>)
    requires Collapse(ids) == before && after == if ids != [] && ids[|ids| - 1] == x then before else before + [x]
    ensures Collapse(ids + [x]) == after
  {
    assert (ids + [x])[..|ids|] == ids;
  }

  lemma {:induction false} IdsStep(lines: seq<Line>, a: nat, b: nat)
    requires a < b <= |lines|
    ensures Passages.Ids(lines[a..b]) == Passages.Ids(lines[a..b - 1]) + [lines[b - 1].who.id]
    ensures a < b - 1 ==> Passages.Ids(lines[a..b - 1])[b - 2 - a] == lines[b - 2].who.id
  {
  }

  lemma {:induction false} CoveredIsCollapsed(lines: seq<Line>, a: nat, b: nat)
    requires a <= b <= |lines|
    ensures CoveredBy(lines, a, b) == Collapse(Passages.Ids(lines[a..b]))
    decreases b
  {
    if a < b {
      CoveredIsCollapsed(lines, a, b - 1);
      IdsStep(lines, a, b);
      CollapsedStep(Passages.Ids(lines[a..b - 1]), lines[b - 1].who.id, CoveredBy(lines, a, b - 1), CoveredBy(lines, a, b));
    }
  }

  lemma {:induction false} OneMoreId(us: seq<Utterance>, i: nat, j: nat)
    requires i <= j < |us|
    ensures IdsOf(us[i..j + 1]) == IdsOf(us[i..j]) + [us[j].id]
  {
  }

  lemma {:induction false} OneId(us: seq<Utterance>, i: nat)
    requires i < |us|
    ensures IdsOf(us[i..i + 1]) == [us[i].id]
  {
  }

  lemma {:induction false} RunGrows(us: seq<Utterance>, i: nat, j: nat, next: nat)
    requires DistinctIds(us) && i <= j <= next <= j + 1 && next < |us|
    ensures IdsOf(us[i..next + 1]) == if us[j].id == us[next].id then IdsOf(us[i..j + 1]) else IdsOf(us[i..j + 1]) + [us[next].id]
  {
    if next > j { OneMoreId(us, i, next); }
  }

  lemma {:induction false} CoveredGrows(us: seq<Utterance>, lines: seq<Line>, a: nat, b: nat, i: nat, j: nat, next: nat)
    requires DistinctIds(us) && a < b - 1 && b <= |lines| && i <= j <= next <= j + 1 && next < |us|
    requires lines[b - 2].who == us[j] && lines[b - 1].who == us[next] && CoveredBy(lines, a, b - 1) == IdsOf(us[i..j + 1])
    ensures CoveredBy(lines, a, b) == IdsOf(us[i..next + 1])
  {
    RunGrows(us, i, j, next);
  }

  lemma {:induction false} PlacesStep(us: seq<Utterance>, lines: seq<Line>, at: seq<nat>, k: nat)
    requires Placed(us, lines, at) && 0 < k < |at|
    ensures at[k - 1] <= at[k] <= at[k - 1] + 1 && at[k] < |us|
    ensures lines[k - 1].who == us[at[k - 1]] && lines[k].who == us[at[k]]
  {
    assert at[k - 1] <= at[k];
  }

  lemma {:induction false} CoveredIs(us: seq<Utterance>, lines: seq<Line>, at: seq<nat>, a: nat, b: nat)
    requires Placed(us, lines, at) && DistinctIds(us) && a < b <= |at|
    ensures at[a] <= at[b - 1] < |us| && CoveredBy(lines, a, b) == IdsOf(us[at[a]..at[b - 1] + 1])
    decreases b
  {
    if a == b - 1 {
      OneId(us, at[a]);
      assert CoveredBy(lines, a, a) == [];
    } else {
      CoveredIs(us, lines, at, a, b - 1);
      PlacesStep(us, lines, at, b - 1);
      CoveredGrows(us, lines, a, b, at[a], at[b - 2], at[b - 1]);
    }
  }

  /** Runs in a row: neither end goes back, and there is no gap. */
  predicate Follows(a: (nat, nat), b: (nat, nat)) {
    a.0 <= b.0 <= a.1 <= b.1
  }

  lemma {:induction false} NeighboursFollow(us: seq<Utterance>, lines: seq<Line>, at: seq<nat>, lim: Limits, a: (nat, nat), b: (nat, nat))
    requires Placed(us, lines, at) && a.0 < a.1 && b.0 < b.1 <= |lines| && Neighbours(lines, a, b, lim)
    ensures Follows(RunOf(at, a.0, a.1), RunOf(at, b.0, b.1))
  {
    PlacesGrow(us, lines, at, a.0, b.0);
    PlacesGrow(us, lines, at, a.1 - 1, b.1 - 1);
    if b.0 < a.1 { PlacesGrow(us, lines, at, b.0, a.1 - 1); } else { PlacesStep(us, lines, at, b.0); }
  }

  /** A window covers exactly the utterances of a run, by id and in order. */
  predicate CoversRun(us: seq<Utterance>, covered: seq<int>, run: (nat, nat)) {
    run.0 < run.1 <= |us| && covered == IdsOf(us[run.0..run.1])
  }

  /** Each window covers the run of its lines. */
  ghost predicate CoversRuns(us: seq<Utterance>, windows: seq<Window>, spans: seq<(nat, nat)>, at: seq<nat>)
    requires |windows| == |spans| && forall i :: 0 <= i < |spans| ==> spans[i].0 < spans[i].1 <= |at|
  {
    forall i :: 0 <= i < |windows| ==> CoversRun(us, windows[i].covered, RunOf(at, spans[i].0, spans[i].1))
  }

  lemma {:induction false} CoveredByWindow(lines: seq<Line>, spans: seq<(nat, nat)>, i: nat)
    requires i < |spans| && forall i :: 0 <= i < |spans| ==> spans[i].0 < spans[i].1 <= |lines|
    ensures WindowsOf(lines, spans, 0)[i].covered == CoveredBy(lines, spans[i].0, spans[i].1)
  {
    CoveredIsCollapsed(lines, spans[i].0, spans[i].1);
  }

  lemma {:induction false} LinesCoverRun(us: seq<Utterance>, lines: seq<Line>, at: seq<nat>, a: nat, b: nat)
    requires Placed(us, lines, at) && DistinctIds(us) && a < b <= |at|
    ensures CoversRun(us, CoveredBy(lines, a, b), RunOf(at, a, b))
  {
    CoveredIs(us, lines, at, a, b);
  }

  lemma {:induction false} WindowsCoverRuns(us: seq<Utterance>, lines: seq<Line>, at: seq<nat>, spans: seq<(nat, nat)>)
    requires Placed(us, lines, at) && DistinctIds(us)
    requires forall i :: 0 <= i < |spans| ==> spans[i].0 < spans[i].1 <= |lines|
    ensures CoversRuns(us, WindowsOf(lines, spans, 0), spans, at)
  {
    var windows := WindowsOf(lines, spans, 0);
    forall i | 0 <= i < |windows| ensures CoversRun(us, windows[i].covered, RunOf(at, spans[i].0, spans[i].1)) {
      CoveredByWindow(lines, spans, i);
      LinesCoverRun(us, lines, at, spans[i].0, spans[i].1);
    }
  }

  /** The runs start with the first utterance, never go back, leave none out, and end with the last. */
  predicate InTranscriptOrder(spans: seq<(nat, nat)>, at: seq<nat>, n: nat)
    requires forall i :: 0 <= i < |spans| ==> spans[i].0 < spans[i].1 <= |at|
  {
    && spans != [] && RunOf(at, spans[0].0, spans[0].1).0 == 0 && RunOf(at, spans[|spans| - 1].0, spans[|spans| - 1].1).1 == n
    && forall i :: 0 < i < |spans| ==> Follows(RunOf(at, spans[i - 1].0, spans[i - 1].1), RunOf(at, spans[i].0, spans[i].1))
  }

  lemma {:induction false} SpansFollow(us: seq<Utterance>, lines: seq<Line>, at: seq<nat>, lim: Limits, spans: seq<(nat, nat)>, i: nat)
    requires lim.Sound() && Placed(us, lines, at) && lines != [] && spans == Spans(lines, 0, lim) && 0 < i < |spans|
    ensures Follows(RunOf(at, spans[i - 1].0, spans[i - 1].1), RunOf(at, spans[i].0, spans[i].1))
  {
    WindowsCover(lines, lim);
    NeighboursFollow(us, lines, at, lim, spans[i - 1], spans[i]);
  }

  lemma {:induction false} SpansReach(us: seq<Utterance>, lines: seq<Line>, at: seq<nat>, lim: Limits, spans: seq<(nat, nat)>)
    requires lim.Sound() && Placed(us, lines, at) && us != [] && spans == Spans(lines, 0, lim)
    ensures spans != [] && RunOf(at, spans[0].0, spans[0].1).0 == 0
    ensures RunOf(at, spans[|spans| - 1].0, spans[|spans| - 1].1).1 == |us|
  {
    WindowsCover(lines, lim);
  }

  lemma {:induction false} SpansInOrder(us: seq<Utterance>, lines: seq<Line>, at: seq<nat>, lim: Limits)
    requires lim.Sound() && Placed(us, lines, at) && us != []
    ensures InTranscriptOrder(Spans(lines, 0, lim), at, |us|)
  {
    var spans := Spans(lines, 0, lim);
    SpansReach(us, lines, at, lim, spans);
    forall i | 0 < i < |spans| ensures Follows(RunOf(at, spans[i - 1].0, spans[i - 1].1), RunOf(at, spans[i].0, spans[i].1)) {
      SpansFollow(us, lines, at, lim, spans, i);
    }
  }

  lemma {:induction false} AllLinesArePlaced(us: seq<Utterance>, max: int)
    requires 1 <= max
    ensures Placed(us, AllLines(us, max), Places(us, Rendering(max)))
  {
    RenderingIsApiece(us, max);
    LinesAreLaid(us, max);
    LinesArePlaced(us, Rendering(max));
  }

  /** Every utterance that says something is covered by some window, by its id, and first
      appearances come in transcript order. */
  lemma {:induction false} EveryUtteranceIsCovered(us: seq<Utterance>, lim: Limits)
    requires lim.Sound() && DistinctIds(us) && us != []
    ensures var lines, at := AllLines(us, lim.max), Places(us, Rendering(lim.max));
            && |at| == |lines| && InTranscriptOrder(Spans(lines, 0, lim), at, |us|)
            && CoversRuns(us, WindowsOf(lines, Spans(lines, 0, lim), 0), Spans(lines, 0, lim), at)
  {
    var lines, at := AllLines(us, lim.max), Places(us, Rendering(lim.max));
    AllLinesArePlaced(us, lim.max);
    SpansInOrder(us, lines, at, lim);
    WindowsCoverRuns(us, lines, at, Spans(lines, 0, lim));
  }
}
