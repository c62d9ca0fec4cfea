/** The windows as a reader sees them: which lines a text holds and where, what it shares with the
    one before, and that the texts together are the transcript. */
module PassageTexts {
  import opened Text
  import opened Windows
  import opened Overlaps
  import opened Packing
  import opened Passages

  // ----- one text

  /** Line `k` stands in the text where the lines before it end, after a newline. */
  predicate LineAt(text: string, lines: seq<Line>, k: nat)
    requires k < |lines|
  {
    var at := Cost(lines, 0, k);
    && 0 <= at && at + |lines[k].text| <= |text| && text[at..at + |lines[k].text|] == lines[k].text
    && (k > 0 ==> at > 0 && text[at - 1] == '\n')
  }

  /** The text is these lines in order, one newline apart, and nothing else. */
  predicate Reads(text: string, lines: seq<Line>) {
    |text| == Cost(lines, 0, |lines|) - 1 && forall k :: 0 <= k < |lines| ==> LineAt(text, lines, k)
  }

  lemma {:induction false} CostOfRest(first: Line, rest: seq<Line>, k: nat)
    requires k <= |rest|
    ensures Cost([first] + rest, 0, k + 1) == |first.text| + 1 + Cost(rest, 0, k)
    decreases k
  {
    var lines := [first] + rest;
    if k == 0 {
      assert Cost(lines, 0, 1) == Cost(lines, 0, 0) + |lines[0].text| + 1;
    } else {
      CostOfRest(first, rest, k - 1);
      assert lines[k] == rest[k - 1];
    }
  }

  lemma {:induction false} CostIsPositive(lines: seq<Line>, k: nat)
    requires k <= |lines|
    ensures Cost(lines, 0, k) >= k
    decreases k
  {
    if k > 0 { CostIsPositive(lines, k - 1); }
  }

  lemma {:induction false} LineMoves(first: Line, text: string, rest: seq<Line>, k: nat)
    requires k < |rest| && LineAt(text, rest, k)
    ensures LineAt(first.text + "\n" + text, [first] + rest, k + 1)
  {
    var n, at := |first.text| + 1, Cost(rest, 0, k);
    var whole := first.text + "\n" + text;
    CostOfRest(first, rest, k);
    assert ([first] + rest)[k + 1] == rest[k];
    assert whole[n + at..n + at + |rest[k].text|] == text[at..at + |rest[k].text|];
    if k == 0 { assert at == 0 && whole[n - 1] == '\n'; } else { assert whole[n + at - 1] == text[at - 1]; }
  }

  lemma {:induction false} ReadsCons(first: Line, text: string, rest: seq<Line>)
    requires Reads(text, rest) && rest != []
    ensures Reads(first.text + "\n" + text, [first] + rest)
  {
    var whole, lines := first.text + "\n" + text, [first] + rest;
    CostOfRest(first, rest, |rest|);
    forall k | 0 <= k < |lines| ensures LineAt(whole, lines, k) {
      if k == 0 { assert whole[0..|first.text|] == first.text; } else { LineMoves(first, text, rest, k - 1); }
    }
  }

  lemma {:induction false} ReadsOne(line: Line)
    ensures Reads(line.text, [line])
  {
    assert Cost([line], 0, 1) == Cost([line], 0, 0) + |line.text| + 1;
    assert line.text[0..|line.text|] == line.text;
  }

  lemma {:induction false} JoinedReads(lines: seq<Line>)
    requires lines != []
    ensures Reads(Joined(lines), lines)
  {
    assert [lines[0]] + lines[1..] == lines;
    if |lines| == 1 {
      ReadsOne(lines[0]);
    } else {
      JoinedReads(lines[1..]);
      ReadsCons(lines[0], Joined(lines[1..]), lines[1..]);
    }
  }

  lemma {:induction false} LatestEndIsLatest(lines: seq<Line>)
    requires lines != []
    ensures (forall l :: l in lines ==> l.who.endTime <= LatestEnd(lines)) && (exists l :: l in lines && l.who.endTime == LatestEnd(lines))
  {
    var n := |lines| - 1;
    if n > 0 {
      LatestEndIsLatest(lines[..n]);
      assert lines == lines[..n] + [lines[n]];
    }
    assert lines[n] in lines;
  }

  /** Every window holds its lines, in order and one newline apart, starts where its first line's
      utterance starts, and ends with the latest of them; windows are numbered from 0. */
  lemma {:induction false} WindowsRead(lines: seq<Line>, spans: seq<(nat, nat)>, i: nat)
    requires (forall k :: 0 <= k < |spans| ==> spans[k].0 < spans[k].1 <= |lines|) && i < |spans|
    ensures var w, own := WindowsOf(lines, spans, 0)[i], lines[spans[i].0..spans[i].1];
            && Reads(w.text, own)
            && w.index == i && w.anchor == own[0].who.id && w.startTime == own[0].who.startTime
            && (forall l :: l in own ==> l.who.endTime <= w.endTime) && (exists l :: l in own && l.who.endTime == w.endTime)
  {
    var own := lines[spans[i].0..spans[i].1];
    JoinedReads(own);
    LatestEndIsLatest(own);
  }

  // ----- neighbours

  lemma {:induction false} JoinedParts(a: seq<Line>, b: seq<Line>)
    requires a != [] && b != []
    ensures Joined(a + b) == Joined(a) + "\n" + Joined(b)
  {
    assert (a + b)[1..] == a[1..] + b;
    if |a| > 1 { JoinedParts(a[1..], b); }
  }

  lemma {:induction false} JoinedSqueeze(lines: seq<Line>)
    ensures Squeeze(Joined(lines)) == Squeeze(Texts(lines))
  {
    if lines != [] {
      var first, rest := lines[0].text, lines[1..];
      JoinedSqueeze(rest);
      SqueezeConcat(first, Texts(rest));
      if rest == [] {
        assert first + Texts(rest) == first;
      } else {
        SqueezeBlank("\n");
        SqueezeConcat(first, "\n");
        SqueezeConcat(first + "\n", Joined(rest));
      }
    }
  }

  /** How much of the text of window `lo..` repeats lines before `seen`. */
  function Repeated(lines: seq<Line>, lo: nat, seen: nat): (r: int)
    requires seen <= |lines|
  {
    if lo < seen then Cost(lines, lo, seen) - 1 else 0
  }

  /** A window's text is what it repeats, a newline, and what it adds; either may be missing. */
  lemma {:induction false} TextSplits(lines: seq<Line>, lo: nat, seen: nat, hi: nat)
    requires lo <= seen <= hi <= |lines| && lo < hi
    ensures var text, n := Joined(lines[lo..hi]), Repeated(lines, lo, seen);
            && 0 <= n <= |text| && text[..n] == Joined(lines[lo..seen])
            && text[n..] == (if lo < seen < hi then "\n" else "") + Joined(lines[seen..hi])
  {
    var text := Joined(lines[lo..hi]);
    if seen == lo {
      assert text[0..] == text && text[..0] == "";
    } else {
      JoinedLength(lines, lo, seen);
      if seen < hi {
        assert lines[lo..seen] + lines[seen..hi] == lines[lo..hi];
        JoinedParts(lines[lo..seen], lines[seen..hi]);
      }
    }
  }

  predicate EndsWith(text: string, tail: string) {
    |tail| <= |text| && text[|text| - |tail|..] == tail
  }

  /** What a window repeats is what the one before it ends with, and it is within the budget. */
  lemma {:induction false} NeighboursShare(lines: seq<Line>, a: (nat, nat), b: (nat, nat), lim: Limits)
    requires Neighbours(lines, a, b, lim) && b.0 < b.1 <= |lines| && lim.Sound()
    ensures var n := Repeated(lines, b.0, a.1);
            && 0 <= n <= |Joined(lines[b.0..b.1])| && n <= lim.overlap
            && EndsWith(Joined(lines[a.0..a.1]), Joined(lines[b.0..b.1])[..n])
  {
    TextSplits(lines, b.0, a.1, b.1);
    TextSplits(lines, a.0, b.0, a.1);
  }

  // ----- all texts

  /** The numbers say how much to drop of the start of each text. */
  predicate Drops(texts: seq<string>, repeats: seq<int>) {
    |texts| == |repeats| && forall i :: 0 <= i < |texts| ==> 0 <= repeats[i] <= |texts[i]|
  }

  /** The texts one after the other, each without so much of its start. */
  function Unrepeated(texts: seq<string>, repeats: seq<int>): string
    requires Drops(texts, repeats)
  {
    if texts == [] then "" else texts[0][repeats[0]..] + Unrepeated(texts[1..], repeats[1..])
  }

  /** What each window repeats of the one before; `seen` is where the one before the first ended. */
  function Repeats(lines: seq<Line>, spans: seq<(nat, nat)>, seen: nat): (r: seq<int>)
    requires seen <= |lines| && forall i :: 0 <= i < |spans| ==> spans[i].1 <= |lines|
    ensures |r| == |spans|
  {
    if spans == [] then [] else [Repeated(lines, spans[0].0, seen)] + Repeats(lines, spans[1..], spans[0].1)
  }

  lemma {:induction false} RepeatsAt(lines: seq<Line>, spans: seq<(nat, nat)>, seen: nat, i: nat)
    requires seen <= |lines| && (forall k :: 0 <= k < |spans| ==> spans[k].1 <= |lines|) && i < |spans|
    ensures Repeats(lines, spans, seen)[i] == Repeated(lines, spans[i].0, if i == 0 then seen else spans[i - 1].1)
    decreases i
  {
    if i > 0 { RepeatsAt(lines, spans[1..], spans[0].1, i - 1); }
  }

  function JoinedOf(lines: seq<Line>, spans: seq<(nat, nat)>): (r: seq<string>)
    requires forall i :: 0 <= i < |spans| ==> spans[i].0 < spans[i].1 <= |lines|
    ensures |r| == |spans| && forall i :: 0 <= i < |r| ==> r[i] == Joined(lines[spans[i].0..spans[i].1])
  {
    if spans == [] then [] else [Joined(lines[spans[0].0..spans[0].1])] + JoinedOf(lines, spans[1..])
  }

  /** Each range starts no later than the one before ended, and ends no earlier. */
  predicate Overlapping(lines: seq<Line>, spans: seq<(nat, nat)>, seen: nat) {
    spans != [] ==>
      && spans[0].0 <= seen <= spans[0].1 <= |lines| && spans[0].0 < spans[0].1
      && Overlapping(lines, spans[1..], spans[0].1)
  }

  lemma {:induction false} OverlappingAt(lines: seq<Line>, spans: seq<(nat, nat)>, seen: nat, i: nat)
    requires Overlapping(lines, spans, seen) && i < |spans|
    ensures spans[i].0 < spans[i].1 <= |lines|
    decreases i
  {
    if i > 0 { OverlappingAt(lines, spans[1..], spans[0].1, i - 1); }
  }

  lemma {:induction false} AreOverlapping(lines: seq<Line>, spans: seq<(nat, nat)>, seen: nat, lim: Limits)
    requires spans != [] ==> spans[0].0 <= seen <= spans[0].1
    requires forall i :: 0 <= i < |spans| ==> spans[i].0 < spans[i].1 <= |lines|
    requires forall i, j :: 0 <= i && j == i + 1 < |spans| ==> Neighbours(lines, spans[i], spans[j], lim)
    ensures Overlapping(lines, spans, seen)
  {
    if |spans| > 1 {
      assert Neighbours(lines, spans[0], spans[1], lim);
      forall i, j | 0 <= i && j == i + 1 < |spans[1..]| ensures Neighbours(lines, spans[1..][i], spans[1..][j], lim) {
        assert Neighbours(lines, spans[i + 1], spans[j + 1], lim);
      }
    }
    if spans != [] { AreOverlapping(lines, spans[1..], spans[0].1, lim); }
  }

  /** Apart from white space, a text without what it repeats is what its lines add. */
  lemma {:induction false} FreshSqueeze(lines: seq<Line>, span: (nat, nat), seen: nat)
    requires span.0 <= seen <= span.1 <= |lines| && span.0 < span.1
    ensures var text, n := Joined(lines[span.0..span.1]), Repeated(lines, span.0, seen);
            0 <= n <= |text| && Squeeze(text[n..]) == Squeeze(Texts(Fresh(lines, span, seen)))
  {
    TextSplits(lines, span.0, seen, span.1);
    JoinedSqueeze(lines[seen..span.1]);
    SqueezeBlank("\n");
    SqueezeConcat("\n", Joined(lines[seen..span.1]));
  }

  lemma {:induction false} DropsCons(text: string, n: int, texts: seq<string>, repeats: seq<int>)
    requires 0 <= n <= |text| && Drops(texts, repeats)
    ensures Drops([text] + texts, [n] + repeats)
    ensures Squeeze(Unrepeated([text] + texts, [n] + repeats)) == Squeeze(text[n..]) + Squeeze(Unrepeated(texts, repeats))
  {
    assert ([text] + texts)[1..] == texts && ([n] + repeats)[1..] == repeats;
    SqueezeConcat(text[n..], Unrepeated(texts, repeats));
  }

  lemma {:induction false} TextsAdd(lines: seq<Line>, spans: seq<(nat, nat)>, seen: nat)
    requires Overlapping(lines, spans, seen) && seen <= |lines|
    requires forall i :: 0 <= i < |spans| ==> spans[i].0 < spans[i].1 <= |lines|
    ensures Drops(JoinedOf(lines, spans), Repeats(lines, spans, seen))
    ensures Squeeze(Unrepeated(JoinedOf(lines, spans), Repeats(lines, spans, seen))) == Squeeze(Texts(Added(lines, spans, seen)))
  {
    if spans != [] {
      var s := spans[0];
      FreshSqueeze(lines, s, seen);
      TextsAdd(lines, spans[1..], s.1);
      var texts, repeats := JoinedOf(lines, spans[1..]), Repeats(lines, spans[1..], s.1);
      DropsCons(Joined(lines[s.0..s.1]), Repeated(lines, s.0, seen), texts, repeats);
      TextsConcat(Fresh(lines, s, seen), Added(lines, spans[1..], s.1));
      SqueezeConcat(Texts(Fresh(lines, s, seen)), Texts(Added(lines, spans[1..], s.1)));
    }
  }

  function TextsOf(windows: seq<Window>): (r: seq<string>)
    ensures |r| == |windows| && forall i :: 0 <= i < |r| ==> r[i] == windows[i].text
  {
    seq(|windows|, i requires 0 <= i < |windows| => windows[i].text)
  }

  lemma {:induction false} SpansOverlap(lines: seq<Line>, lim: Limits)
    requires lim.Sound()
    ensures Overlapping(lines, Spans(lines, 0, lim), 0)
  {
    var spans := Spans(lines, 0, lim);
    if lines != [] {
      WindowsCover(lines, lim);
      forall i, j | 0 <= i && j == i + 1 < |spans| ensures Neighbours(lines, spans[i], spans[j], lim) {
        assert Neighbours(lines, spans[j - 1], spans[j], lim);
      }
    }
    AreOverlapping(lines, spans, 0, lim);
  }

  /** The first `n` characters of `b` are the last of `a`, and no more than the budget. */
  predicate SharesStart(a: string, b: string, n: int, budget: int) {
    0 <= n <= |b| && n <= budget && EndsWith(a, b[..n])
  }

  /** Each text starts with so much of the end of the one before. */
  predicate StartsShared(texts: seq<string>, repeats: seq<int>, budget: int) {
    && Drops(texts, repeats) && (repeats != [] ==> repeats[0] == 0)
    && forall i, j :: 0 <= i && j == i + 1 < |texts| ==> SharesStart(texts[i], texts[j], repeats[j], budget)
  }

  lemma {:induction false} NeighboursStartShared(lines: seq<Line>, spans: seq<(nat, nat)>, lim: Limits, texts: seq<string>, repeats: seq<int>)
    requires lim.Sound() && (spans != [] ==> spans[0].0 == 0)
    requires forall i :: 0 <= i < |spans| ==> spans[i].0 < spans[i].1 <= |lines|
    requires forall i :: 0 < i < |spans| ==> Neighbours(lines, spans[i - 1], spans[i], lim)
    requires texts == JoinedOf(lines, spans) && repeats == Repeats(lines, spans, 0) && Drops(texts, repeats)
    ensures StartsShared(texts, repeats, lim.overlap)
  {
    if spans != [] { RepeatsAt(lines, spans, 0, 0); }
    forall i, j | 0 <= i && j == i + 1 < |texts| ensures SharesStart(texts[i], texts[j], repeats[j], lim.overlap) {
      assert Neighbours(lines, spans[j - 1], spans[j], lim);
      NeighboursShare(lines, spans[i], spans[j], lim);
      RepeatsAt(lines, spans, 0, j);
    }
  }

  lemma {:induction false} PackedTexts(lines: seq<Line>, lim: Limits) returns (texts: seq<string>, repeats: seq<int>)
    requires lim.Sound() && Added(lines, Spans(lines, 0, lim), 0) == lines
    ensures texts == TextsOf(WindowsOf(lines, Spans(lines, 0, lim), 0))
    ensures StartsShared(texts, repeats, lim.overlap) && Squeeze(Unrepeated(texts, repeats)) == Squeeze(Texts(lines))
  {
    var spans := Spans(lines, 0, lim);
    texts, repeats := JoinedOf(lines, spans), Repeats(lines, spans, 0);
    SpansOverlap(lines, lim);
    TextsAdd(lines, spans, 0);
    if lines != [] { WindowsCover(lines, lim); }
    NeighboursStartShared(lines, spans, lim, texts, repeats);
  }

  /** The texts of the windows, read one after the other, are the rendered utterances that say
      something, in transcript order, white space aside: once the start of each text that repeats
      the end of the one before, within the overlap budget, is left out. */
  lemma {:induction false} TextsAreTheTranscript(utterances: seq<Utterance>, target: int, max: int, overlap: int)
    returns (texts: seq<string>, repeats: seq<int>)
    ensures var lim := Clamp(target, max, overlap);
            var lines := AllLines(Ordered(utterances), lim.max);
            && texts == TextsOf(WindowsOf(lines, Spans(lines, 0, lim), 0)) && StartsShared(texts, repeats, lim.overlap)
            && Squeeze(Unrepeated(texts, repeats)) == Squeeze(Rendered(Ordered(utterances)))
  {
    var lim := Clamp(target, max, overlap);
    LinesKeepTheTranscript(Ordered(utterances), lim.max);
    PackedLinesFitAndStay(AllLines(Ordered(utterances), lim.max), lim);
    texts, repeats := PackedTexts(AllLines(Ordered(utterances), lim.max), lim);
  }
}
