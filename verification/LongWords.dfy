/** How an utterance is cut whose one word is as long as a window. */
module LongWords {
  import opened Text
  import opened Windows
  import opened Passages

  /** No white space anywhere. */
  ghost predicate Solid(w: string) {
    forall i :: 0 <= i < |w| ==> !IsSpace(w[i])
  }

  lemma {:induction false} FirstWordOfSolid(w: string)
    requires Solid(w)
    ensures FirstWord(w) == w
  {
    if w != "" { FirstWordOfSolid(w[1..]); }
  }

  lemma {:induction false} OneSpacedSolid(w: string)
    requires Solid(w) && w != ""
    ensures OneSpaced(w) == w
  {
    FirstWordOfSolid(w);
    assert LStrip(w) == w && w[|w|..] == "" && OneSpaced("") == "";
  }

  lemma {:induction false} StripAfterSpace(w: string)
    requires Trimmed(w)
    ensures Strip(" " + w) == w
  {
    assert (" " + w)[1..] == w && (" " + w)[0] == ' ';
    assert LStrip(" " + w) == LStrip(w);
    StripTrimmed(w);
  }

  const HEAD := "[00:00]"

  /** An utterance at the start of a recording, by nobody in particular. */
  function Said(id: int, sequenceNum: int, text: string): Utterance {
    Utterance(id, sequenceNum, 0.0, 0.0, text, "")
  }

  lemma {:induction false} HeadOfSaid(u: Utterance)
    requires u == Said(u.id, u.sequenceNum, u.text)
    ensures Head(u) == HEAD
  {
    assert Strip("") == "";
    assert 0.0.Floor == 0;
    assert TwoDigits(0) == "00";
    assert FormatTimestamp(0.0) == "00" + ":" + "00";
    assert "00" + ":" + "00" == "00:00";
  }

  lemma {:induction false} RenderSolid(u: Utterance)
    requires u == Said(u.id, u.sequenceNum, u.text) && Solid(u.text) && u.text != ""
    ensures Render(u) == HEAD + " " + u.text
  {
    HeadOfSaid(u);
    OneSpacedSolid(u.text);
    var s := HEAD + " " + u.text;
    assert s[0] == '[' && s[|s| - 1] == u.text[|u.text| - 1];
    StripTrimmed(s);
  }

  /** The head of a line is cut off from a word that does not fit behind it. */
  lemma {:induction false} HeadIsCutOff(w: string, max: int)
    requires Solid(w) && w != "" && 8 <= max < 8 + |w|
    ensures Pieces(HEAD + " " + w, max) == [HEAD] + Pieces(w, max)
  {
    var s := HEAD + " " + w;
    assert s[7] == ' ' && forall i :: 7 < i < max ==> s[i] != ' ' by {
      forall i | 7 < i < max ensures s[i] != ' ' { assert s[i] == w[i - 8]; }
    }
    assert LastSpace(s, max) == 7;
    assert s[..7] == HEAD && s[7..] == " " + w;
    StripTrimmed(HEAD);
    StripAfterSpace(w);
    assert Bite(s, max) == (HEAD, w);
  }

  /** A word one longer than a window loses its last letter to the next line. */
  lemma {:induction false} WordIsCut(w: string, c: char)
    requires Solid(w) && w != "" && !IsSpace(c)
    ensures Pieces(w + [c], |w|) == [w, [c]]
  {
    var s := w + [c];
    assert forall i :: 0 <= i < |w| ==> s[i] != ' ';
    assert LastSpace(s, |w|) == -1;
    assert s[..|w|] == w && s[|w|..] == [c];
    StripTrimmed(w);
    StripTrimmed([c]);
    assert Bite(s, |w|) == (w, [c]);
  }

  lemma {:induction false} TaggedTwo(u: Utterance, a: string, b: string)
    ensures Tagged(u, [a] + [b]) == Tagged(u, [a, b]) == [Line(a, u), Line(b, u)]
  {
    assert [a, b][1..] == [b] && [b][1..] == [] && [a] + [b] == [a, b];
    assert Tagged(u, [b]) == [Line(b, u)] + Tagged(u, []);
  }

  lemma {:induction false} SplitOfWord(u: Utterance, max: int)
    requires u == Said(u.id, u.sequenceNum, u.text) && Solid(u.text) && |u.text| >= max >= 8
    ensures Split(Render(u), max) == [HEAD] + Pieces(u.text, max)
  {
    RenderSolid(u);
    HeadIsCutOff(u.text, max);
  }

  /** The lines of a word that fills a window. */
  lemma {:induction false} LinesOfWord(u: Utterance, w: string, max: int)
    requires u == Said(u.id, u.sequenceNum, w) && Solid(w) && |w| == max >= 8
    ensures Tagged(u, Split(Render(u), max)) == [Line(HEAD, u), Line(w, u)]
  {
    SplitOfWord(u, max);
    assert Pieces(w, max) == [w];
    TaggedTwo(u, HEAD, w);
  }

  lemma {:induction false} SplitOfLonger(u: Utterance, w: string, max: int)
    requires u == Said(u.id, u.sequenceNum, w + "c") && Solid(w) && |w| == max >= 8
    ensures Split(Render(u), max) == [HEAD] + [w, "c"]
  {
    SplitOfWord(u, max);
    WordIsCut(w, 'c');
  }

  lemma {:induction false} TaggedThree(u: Utterance, a: string, b: string, c: string)
    ensures Tagged(u, [a] + [b, c]) == [Line(a, u), Line(b, u), Line(c, u)]
  {
    TaggedTwo(u, b, c);
    assert ([a] + [b, c])[1..] == [b, c];
  }

  /** And of one that is a letter longer. */
  lemma {:induction false} LinesOfLongerWord(u: Utterance, w: string, max: int)
    requires u == Said(u.id, u.sequenceNum, w + "c") && Solid(w) && |w| == max >= 8
    ensures Tagged(u, Split(Render(u), max)) == [Line(HEAD, u), Line(w, u), Line("c", u)]
  {
    SplitOfLonger(u, w, max);
    TaggedThree(u, HEAD, w, "c");
  }

  lemma {:induction false} LinesOfShort(u: Utterance, max: int)
    requires u == Said(u.id, u.sequenceNum, u.text) && Solid(u.text) && u.text != "" && 8 + |u.text| <= max
    ensures Tagged(u, Split(Render(u), max)) == [Line(HEAD + " " + u.text, u)]
  {
    RenderSolid(u);
    assert [Render(u)][1..] == [];
  }

  /** A short utterance before such a word. */
  lemma {:induction false} LinesOfTwo(u: Utterance, v: Utterance, max: int)
    requires 1 <= max && u.sequenceNum < v.sequenceNum
    requires Strip(u.text) != "" && Strip(v.text) != ""
    ensures Ordered([u, v]) == [u, v]
    ensures AllLines([u, v], max) == Tagged(u, Split(Render(u), max)) + Tagged(v, Split(Render(v), max))
  {
    assert [u, v][1..] == [v] && [v][1..] == [];
    assert Ordered([v]) == [v];
    assert AllLines([v], max) == Tagged(v, Split(Render(v), max));
  }

  lemma {:induction false} SolidSpeaks(w: string)
    requires Solid(w) && w != ""
    ensures Strip(w) != ""
  {
    StripTrimmed(w);
  }
}
