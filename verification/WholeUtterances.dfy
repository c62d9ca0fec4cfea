/** Is the overlap of two windows made of whole utterances? */
module WholeUtterances {
  import opened Text
  import opened Windows
  import opened Packing
  import opened Passages
  import opened LongWords

  /** The lines before position `k` are those of the first utterances, and of all of them. */
  ghost predicate CutsAt(us: seq<Utterance>, max: int, k: nat)
    requires 1 <= max && k <= |AllLines(us, max)|
  {
    exists i: nat :: i <= |us| && AllLines(us, max)[..k] == AllLines(us[..i], max)
  }

  /** The lines `c..hi` are nothing, or all the lines of some utterances in a row. */
  ghost predicate Whole(us: seq<Utterance>, max: int, c: nat, hi: nat)
    requires 1 <= max && c <= hi <= |AllLines(us, max)|
  {
    c == hi || (CutsAt(us, max, c) && CutsAt(us, max, hi))
  }

  /** As the lines show it: an end, or a line of another utterance than the one before. */
  predicate Boundary(lines: seq<Line>, k: nat)
    requires k <= |lines|
  {
    k == 0 || k == |lines| || lines[k - 1].who.id != lines[k].who.id
  }

  function Own(u: Utterance, max: int): seq<Line>
    requires 1 <= max
  {
    Tagged(u, Split(Render(u), max))
  }

  /** The lines of one utterance: at least one, all its own. */
  lemma {:induction false} OwnLines(u: Utterance, max: int)
    requires 1 <= max
    ensures Own(u, max) != [] && forall l :: l in Own(u, max) ==> l.who == u
  {
    RenderKeepsTheWords(u);
    TaggedText(u, Split(Render(u), max));
  }

  // ----- lines, utterance by utterance

  /** The lines of the utterances, where `own` gives those of each. */
  function Laid(us: seq<Utterance>, own: Utterance -> seq<Line>): seq<Line> {
    if us == [] then [] else own(us[0]) + Laid(us[1..], own)
  }

  /** Every utterance has lines, all its own. */
  ghost predicate Apiece(us: seq<Utterance>, own: Utterance -> seq<Line>) {
    forall i :: 0 <= i < |us| ==> own(us[i]) != [] && forall l :: l in own(us[i]) ==> l.who == us[i]
  }

  ghost predicate CutsLaid(us: seq<Utterance>, own: Utterance -> seq<Line>, k: nat)
    requires k <= |Laid(us, own)|
  {
    exists i: nat :: i <= |us| && Laid(us, own)[..k] == Laid(us[..i], own)
  }

  lemma {:induction false} FirstLaid(us: seq<Utterance>, own: Utterance -> seq<Line>, i: nat)
    requires 0 < i <= |us|
    ensures Laid(us[..i], own) == own(us[0]) + Laid(us[1..][..i - 1], own)
  {
    assert us[..i][1..] == us[1..][..i - 1];
  }

  lemma {:induction false} LaidPrefix(us: seq<Utterance>, own: Utterance -> seq<Line>, i: nat)
    requires i <= |us|
    ensures Laid(us[..i], own) <= Laid(us, own)
    decreases i
  {
    if i == 0 {
      assert us[..i] == [];
    } else {
      LaidPrefix(us[1..], own, i - 1);
      FirstLaid(us, own, i);
    }
  }

  lemma {:induction false} SameTail(first: seq<Line>, rest: seq<Line>, k: nat, other: seq<Line>)
    requires |first| <= k <= |first| + |rest|
    ensures (first + rest)[..k] == first + other <==> rest[..k - |first|] == other
  {
    assert (first + rest)[..k] == first + rest[..k - |first|];
    if first + rest[..k - |first|] == first + other {
      assert (first + rest[..k - |first|])[|first|..] == rest[..k - |first|] && (first + other)[|first|..] == other;
    }
  }

  lemma {:induction false} CutsAfterFirst(us: seq<Utterance>, own: Utterance -> seq<Line>, k: nat)
    requires us != [] && own(us[0]) != [] && |own(us[0])| <= k <= |Laid(us, own)|
    ensures CutsLaid(us, own, k) <==> CutsLaid(us[1..], own, k - |own(us[0])|)
  {
    var first, rest := own(us[0]), Laid(us[1..], own);
    if i: nat :| i <= |us| && Laid(us, own)[..k] == Laid(us[..i], own) {
      assert i > 0 by { assert us[..0] == []; }
      FirstLaid(us, own, i);
      SameTail(first, rest, k, Laid(us[1..][..i - 1], own));
    }
    if i: nat :| i <= |us[1..]| && rest[..k - |first|] == Laid(us[1..][..i], own) {
      FirstLaid(us, own, i + 1);
      SameTail(first, rest, k, Laid(us[1..][..i], own));
    }
  }

  lemma {:induction false} NoCutInFirst(us: seq<Utterance>, own: Utterance -> seq<Line>, k: nat)
    requires us != [] && 0 < k < |own(us[0])| && k <= |Laid(us, own)|
    ensures !CutsLaid(us, own, k)
  {
    forall i: nat | i <= |us| ensures Laid(us, own)[..k] != Laid(us[..i], own) {
      if i > 0 { FirstLaid(us, own, i); } else { assert us[..0] == []; }
    }
  }

  lemma {:induction false} BoundaryShift(first: seq<Line>, rest: seq<Line>, k: nat)
    requires first != [] && |first| <= k <= |first| + |rest|
    requires rest != [] ==> first[|first| - 1].who.id != rest[0].who.id
    ensures Boundary(first + rest, k) <==> Boundary(rest, k - |first|)
  {
  }

  lemma {:induction false} NextSpeaks(us: seq<Utterance>, own: Utterance -> seq<Line>)
    requires Apiece(us, own) && DistinctIds(us) && us != [] && Laid(us[1..], own) != []
    ensures own(us[0])[|own(us[0])| - 1].who.id != Laid(us[1..], own)[0].who.id
  {
    assert own(us[0])[|own(us[0])| - 1] in own(us[0]);
    assert Laid(us[1..], own)[0] == own(us[1])[0] && own(us[1])[0] in own(us[1]);
  }

  lemma {:induction false} BoundaryAfterFirst(us: seq<Utterance>, own: Utterance -> seq<Line>, k: nat)
    requires Apiece(us, own) && DistinctIds(us) && us != [] && |own(us[0])| <= k <= |Laid(us, own)|
    ensures Boundary(Laid(us, own), k) <==> Boundary(Laid(us[1..], own), k - |own(us[0])|)
  {
    if Laid(us[1..], own) != [] { NextSpeaks(us, own); }
    BoundaryShift(own(us[0]), Laid(us[1..], own), k);
  }

  lemma {:induction false} NoBoundaryInFirst(us: seq<Utterance>, own: Utterance -> seq<Line>, k: nat)
    requires Apiece(us, own) && us != [] && 0 < k < |own(us[0])| && k <= |Laid(us, own)|
    ensures !Boundary(Laid(us, own), k)
  {
    var lines, first := Laid(us, own), own(us[0]);
    assert lines[k - 1] == first[k - 1] && lines[k] == first[k] && first[k - 1] in first && first[k] in first;
  }

  lemma {:induction false} CutIsBoundary(us: seq<Utterance>, own: Utterance -> seq<Line>, k: nat)
    requires Apiece(us, own) && DistinctIds(us) && k <= |Laid(us, own)|
    ensures CutsLaid(us, own, k) <==> Boundary(Laid(us, own), k)
    decreases |us|
  {
    if k == 0 {
      assert us[..0] == [] && Laid(us, own)[..0] == Laid(us[..0], own);
    } else if k < |own(us[0])| {
      NoCutInFirst(us, own, k);
      NoBoundaryInFirst(us, own, k);
    } else {
      CutsAfterFirst(us, own, k);
      BoundaryAfterFirst(us, own, k);
      CutIsBoundary(us[1..], own, k - |own(us[0])|);
    }
  }

  // ----- rendered lines

  function Rendering(max: int): Utterance -> seq<Line>
    requires 1 <= max
  {
    (u: Utterance) => Own(u, max)
  }

  lemma {:induction false} LinesAreLaid(us: seq<Utterance>, max: int)
    requires 1 <= max
    ensures AllLines(us, max) == Laid(us, Rendering(max))
  {
    if us != [] { LinesAreLaid(us[1..], max); }
  }

  lemma {:induction false} RenderingIsApiece(us: seq<Utterance>, max: int)
    requires 1 <= max
    ensures Apiece(us, Rendering(max))
  {
    forall i | 0 <= i < |us| ensures Rendering(max)(us[i]) != [] && forall l :: l in Rendering(max)(us[i]) ==> l.who == us[i] {
      OwnLines(us[i], max);
    }
  }

  lemma {:induction false} CutsAreLaid(us: seq<Utterance>, max: int, k: nat)
    requires 1 <= max && k <= |AllLines(us, max)| == |Laid(us, Rendering(max))|
    ensures CutsAt(us, max, k) <==> CutsLaid(us, Rendering(max), k)
  {
    LinesAreLaid(us, max);
    forall i: nat | i <= |us| ensures AllLines(us[..i], max) == Laid(us[..i], Rendering(max)) { LinesAreLaid(us[..i], max); }
  }

  /** With distinct ids the lines show where utterances start. */
  lemma {:induction false} BoundaryIff(us: seq<Utterance>, max: int, k: nat)
    requires 1 <= max && DistinctIds(us) && k <= |AllLines(us, max)|
    ensures CutsAt(us, max, k) <==> Boundary(AllLines(us, max), k)
  {
    LinesAreLaid(us, max);
    RenderingIsApiece(us, max);
    CutIsBoundary(us, Rendering(max), k);
    CutsAreLaid(us, max, k);
  }

  /** The tail a window hands on is made of whole utterances if and only if it is empty, or starts
      and ends between two utterances. */
  lemma {:induction false} TailIsWholeIff(us: seq<Utterance>, lim: Limits, lo: nat, hi: nat)
    requires lim.Sound() && DistinctIds(us) && lo < hi <= |AllLines(us, lim.max)|
    ensures var lines := AllLines(us, lim.max);
            var c := Carry(lines, lo, hi, lim);
            Whole(us, lim.max, c, hi) <==> c == hi || (Boundary(lines, c) && Boundary(lines, hi))
  {
    BoundaryIff(us, lim.max, Carry(AllLines(us, lim.max), lo, hi, lim));
    BoundaryIff(us, lim.max, hi);
  }

  lemma {:induction false} ShortOwn(u: Utterance, max: int)
    requires 1 <= max && |Render(u)| <= max
    ensures Own(u, max) == [Line(Render(u), u)]
  {
    assert Split(Render(u), max) == [Render(u)] && [Render(u)][1..] == [];
    assert Tagged(u, [Render(u)]) == [Line(Render(u), u)] + Tagged(u, []);
  }

  lemma {:induction false} ShortLines(us: seq<Utterance>, max: int)
    requires 1 <= max && forall u :: u in us ==> |Render(u)| <= max
    ensures |AllLines(us, max)| == |us|
  {
    if us != [] {
      assert us[0] in us;
      ShortOwn(us[0], max);
      ShortLines(us[1..], max);
    }
  }

  lemma {:induction false} ShortCuts(us: seq<Utterance>, max: int, k: nat)
    requires 1 <= max && (forall u :: u in us ==> |Render(u)| <= max) && k <= |us|
    ensures k <= |AllLines(us, max)| && CutsAt(us, max, k)
  {
    ShortLines(us, max);
    ShortLines(us[..k], max);
    LinesAreLaid(us, max);
    LinesAreLaid(us[..k], max);
    LaidPrefix(us, Rendering(max), k);
    assert AllLines(us, max)[..k] == AllLines(us[..k], max);
  }

  /** So it is whenever no rendered utterance is longer than a window. */
  lemma {:induction false} ShortUtterancesStayWhole(us: seq<Utterance>, lim: Limits, lo: nat, hi: nat)
    requires lim.Sound() && forall u :: u in us ==> |Render(u)| <= lim.max
    requires lo < hi <= |AllLines(us, lim.max)|
    ensures Whole(us, lim.max, Carry(AllLines(us, lim.max), lo, hi, lim), hi)
  {
    ShortLines(us, lim.max);
    ShortCuts(us, lim.max, Carry(AllLines(us, lim.max), lo, hi, lim));
    ShortCuts(us, lim.max, hi);
  }

  // ----- where it is not

  const EXAMPLE_LIMITS := Limits(20, 20, 10)

  lemma {:induction false} SwappedOrder(u: Utterance, v: Utterance)
    requires u.sequenceNum < v.sequenceNum && Strip(u.text) != "" && Strip(v.text) != ""
    ensures Ordered([v, u]) == [u, v]
  {
    assert [v, u][1..] == [u] && [u][1..] == [];
    assert Ordered([u]) == [u];
    assert InsertBySequence(v, [u]) == [u] + InsertBySequence(v, []);
  }

  lemma {:induction false} ExampleOrder(u: Utterance, v: Utterance, w: string)
    requires Solid(w) && |w| == 20 && u == Said(1, 1, "aaa") && v == Said(2, 2, w)
    ensures Ordered([v, u]) == [u, v]
    ensures AllLines([u, v], 20) == Own(u, 20) + Own(v, 20)
  {
    SolidSpeaks("aaa");
    SolidSpeaks(w);
    SwappedOrder(u, v);
    LinesOfTwo(u, v, 20);
  }

  lemma {:induction false} ExampleLines(u: Utterance, v: Utterance, w: string)
    requires Solid(w) && |w| == 20 && u == Said(1, 1, "aaa") && v == Said(2, 2, w)
    ensures Own(u, 20) + Own(v, 20) == [Line(HEAD + " " + "aaa", u)] + [Line(HEAD, v), Line(w, v)]
  {
    LinesOfShort(u, 20);
    LinesOfWord(v, w, 20);
  }

  lemma {:induction false} ExampleSpans(lines: seq<Line>)
    requires |lines| == 3 && |lines[0].text| == 11 && |lines[1].text| == 7 && |lines[2].text| == 20
    ensures Spans(lines, 0, EXAMPLE_LIMITS) == [(0, 2), (1, 2), (2, 3)]
    ensures Carry(lines, 0, 2, EXAMPLE_LIMITS) == 1
  {
    var lim := EXAMPLE_LIMITS;
    assert Cost(lines, 0, 1) == 12 && Cost(lines, 0, 2) == 20 && Cost(lines, 1, 2) == 8 && Cost(lines, 2, 3) == 21;
    assert End(lines, 0, lim) == 2 && End(lines, 1, lim) == 2 && End(lines, 2, lim) == 3;
    assert Carry(lines, 0, 2, lim) == 1 && Carry(lines, 1, 2, lim) == 2 && Carry(lines, 2, 3, lim) == 3;
    assert Spans(lines, 3, lim) == [];
    assert Spans(lines, 2, lim) == [(2, 3)];
    assert Spans(lines, 1, lim) == [(1, 2), (2, 3)];
  }

  lemma {:induction false} ExampleCut(us: seq<Utterance>, w: string)
    requires Solid(w) && |w| == 20 && us == [Said(1, 1, "aaa"), Said(2, 2, w)]
    ensures |AllLines(us, 20)| == 3 && |AllLines(us, 20)[0].text| == 11 && |AllLines(us, 20)[1].text| == 7
    ensures |AllLines(us, 20)[2].text| == 20 && !CutsAt(us, 20, 2)
  {
    ExampleOrder(us[0], us[1], w);
    ExampleLines(us[0], us[1], w);
    BoundaryIff(us, 20, 2);
  }

  /** A window that reaches its target with the first piece of a long utterance hands on that piece
      alone, and the next window consists of it: the overlap is part of an utterance. */
  lemma {:induction false} PartOfAnUtteranceExample(w: string)
    requires Solid(w) && |w| == 20
    ensures var us := Ordered([Said(2, 2, w), Said(1, 1, "aaa")]);
            && |AllLines(us, 20)| == 3 && Clamp(20, 20, 10) == EXAMPLE_LIMITS
            && Spans(AllLines(us, 20), 0, EXAMPLE_LIMITS) == [(0, 2), (1, 2), (2, 3)]
            && Carry(AllLines(us, 20), 0, 2, EXAMPLE_LIMITS) == 1 && !Whole(us, 20, 1, 2)
  {
    var us := [Said(1, 1, "aaa"), Said(2, 2, w)];
    ExampleOrder(us[0], us[1], w);
    ExampleCut(us, w);
    ExampleSpans(AllLines(us, 20));
  }
}
