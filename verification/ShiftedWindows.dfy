/** Two versions of a transcript between which the windows of an utterance shift: the pass over the
    second one succeeds and loses a window's hash. */
module ShiftedWindows {
  import opened Text
  import opened Windows
  import opened Packing
  import opened Passages
  import opened LongWords
  import opened Embedding
  import opened EmbeddingUnits
  import opened EmbeddingIndex
  import opened Resending

  /** No overlap, and windows of twenty characters. */
  const LIMITS := Limits(20, 20, 0)

  /** At first: one utterance, a word as long as a window. */
  function Early(w: string): seq<Utterance> {
    [Said(2, 2, w)]
  }

  /** Later: an utterance was put in before it, and the word has one letter more. */
  function Late(w: string): seq<Utterance> {
    [Said(1, 1, "a"), Said(2, 2, w + "c")]
  }

  // ----- lines

  lemma {:induction false} EarlyLines(w: string)
    requires Solid(w) && |w| == 20
    ensures Spoken(Early(w)) == Early(w) && Ordered(Early(w)) == Early(w)
    ensures var u := Early(w)[0]; AllLines(Early(w), 20) == [Line(HEAD, u), Line(w, u)]
  {
    var u := Early(w)[0];
    SolidSpeaks(w);
    assert Early(w)[..0] == [] && Early(w)[1..] == [];
    LinesOfWord(u, w, 20);
    assert AllLines([], 20) == [];
  }

  lemma {:induction false} LongerWord(w: string)
    requires Solid(w) && |w| == 20
    ensures Solid(w + "c") && w + "c" != "" && w + "c" != w
  {
  }

  lemma {:induction false} LateOrder(w: string)
    requires Solid(w) && |w| == 20
    ensures Spoken(Late(w)) == Late(w) && Ordered(Late(w)) == Late(w)
  {
    LongerWord(w);
    SolidSpeaks("a");
    SolidSpeaks(w + "c");
    LinesOfTwo(Late(w)[0], Late(w)[1], 20);
    assert Late(w)[..1] == [Late(w)[0]] && Late(w)[..1][..0] == [];
    assert Spoken(Late(w)[..1]) == [Late(w)[0]];
  }

  lemma {:induction false} LateLines(w: string)
    requires Solid(w) && |w| == 20
    ensures var u, v := Late(w)[0], Late(w)[1];
            AllLines(Late(w), 20) == [Line(HEAD + " " + "a", u)] + [Line(HEAD, v), Line(w, v), Line("c", v)]
  {
    LongerWord(w);
    SolidSpeaks("a");
    SolidSpeaks(w + "c");
    LinesOfTwo(Late(w)[0], Late(w)[1], 20);
    LinesOfShort(Late(w)[0], 20);
    LinesOfLongerWord(Late(w)[1], w, 20);
  }

  // ----- windows

  lemma {:induction false} EarlySpans(lines: seq<Line>)
    requires |lines| == 2 && |lines[0].text| == 7 && |lines[1].text| == 20
    ensures Spans(lines, 0, LIMITS) == [(0, 1), (1, 2)]
  {
    assert Cost(lines, 0, 1) == 8 && Cost(lines, 1, 2) == 21;
    assert End(lines, 0, LIMITS) == 1 && End(lines, 1, LIMITS) == 2;
    assert Carry(lines, 0, 1, LIMITS) == 1 && Carry(lines, 1, 2, LIMITS) == 2;
    assert Spans(lines, 2, LIMITS) == [];
    assert Spans(lines, 1, LIMITS) == [(1, 2)];
  }

  lemma {:induction false} LateSpans(lines: seq<Line>)
    requires |lines| == 4 && |lines[0].text| == 9 && |lines[1].text| == 7 && |lines[2].text| == 20 && |lines[3].text| == 1
    ensures Spans(lines, 0, LIMITS) == [(0, 2), (2, 3), (3, 4)]
  {
    assert Cost(lines, 0, 1) == 10 && Cost(lines, 0, 2) == 18 && Cost(lines, 1, 2) == 8 && Cost(lines, 2, 3) == 21 && Cost(lines, 3, 4) == 2;
    assert End(lines, 0, LIMITS) == 2 && End(lines, 2, LIMITS) == 3 && End(lines, 3, LIMITS) == 4;
    assert Carry(lines, 0, 2, LIMITS) == 2 && Carry(lines, 2, 3, LIMITS) == 3;
    assert Last(lines, 3, 4, LIMITS);
    assert Spans(lines, 3, LIMITS) == [(3, 4)];
    assert Spans(lines, 2, LIMITS) == [(2, 3), (3, 4)];
  }

  /** A window of one line: its text, and the utterance it hangs on and covers. */
  lemma {:induction false} WindowOfOne(lines: seq<Line>, k: nat, index: nat)
    requires k < |lines|
    ensures var w := MakeWindow(lines[k..k + 1], index);
            w.anchor == lines[k].who.id && w.text == lines[k].text && |w.covered| == 1
  {
    var own := lines[k..k + 1];
    assert own == [lines[k]] && Passages.Ids(own) == [lines[k].who.id];
    assert Passages.Ids(own)[..0] == [] && Collapse([]) == [];
  }

  // ----- units

  lemma {:induction false} TwoUnits(windows: seq<Window>, ids: set<int>)
    requires |windows| == 2 && windows[0].anchor == windows[1].anchor && windows[1].anchor in ids
    ensures WindowUnits(windows, 2, ids) == [Unit(windows[0].anchor, windows[0].text, |windows[0].covered|, 0),
                                             Unit(windows[1].anchor, windows[1].text, |windows[1].covered|, 1)]
  {
    assert Seen(windows, 1, windows[0].anchor) == 1;
    assert WindowUnits(windows, 1, ids) == [Unit(windows[0].anchor, windows[0].text, |windows[0].covered|, 0)];
  }

  lemma {:induction false} EarlyWindows(lines: seq<Line>, windows: seq<Window>)
    requires |lines| == 2 && windows == WindowsOf(lines, [(0, 1), (1, 2)], 0)
    ensures |windows| == 2
    ensures windows[0].anchor == lines[0].who.id && windows[0].text == lines[0].text && |windows[0].covered| == 1
    ensures windows[1].anchor == lines[1].who.id && windows[1].text == lines[1].text && |windows[1].covered| == 1
  {
    WindowOfOne(lines, 0, 0);
    WindowOfOne(lines, 1, 1);
  }

  lemma {:induction false} EarlyUnits(w: string)
    requires Solid(w) && |w| == 20
    ensures Units(Early(w), "window", LIMITS) == [Unit(2, HEAD, 1, 0), Unit(2, w, 1, 1)]
  {
    var segs := Early(w);
    var lines := AllLines(segs, 20);
    EarlyLines(w);
    EarlySpans(lines);
    var windows := Windowed(segs, LIMITS);
    EarlyWindows(lines, windows);
    assert lines[0].who.id == 2 && lines[1].who.id == 2;
    assert 2 in EmbeddingUnits.Ids(segs) by { assert segs[0] in segs; }
    TwoUnits(windows, EmbeddingUnits.Ids(segs));
  }

  lemma {:induction false} ThreeUnits(windows: seq<Window>, ids: set<int>)
    requires |windows| == 3 && windows[0].anchor in ids && windows[1].anchor == windows[2].anchor && windows[1].anchor in ids
    requires windows[0].anchor != windows[1].anchor
    ensures WindowUnits(windows, 3, ids) == [Unit(windows[0].anchor, windows[0].text, |windows[0].covered|, 0),
                                             Unit(windows[1].anchor, windows[1].text, |windows[1].covered|, 0),
                                             Unit(windows[2].anchor, windows[2].text, |windows[2].covered|, 1)]
  {
    var s := windows[1].anchor;
    assert Seen(windows, 1, s) == 0 && Seen(windows, 2, s) == 1;
    assert WindowUnits(windows, 1, ids) == [Unit(windows[0].anchor, windows[0].text, |windows[0].covered|, 0)];
  }

  lemma {:induction false} LateWindows(lines: seq<Line>, windows: seq<Window>)
    requires |lines| == 4 && windows == WindowsOf(lines, [(0, 2), (2, 3), (3, 4)], 0)
    ensures |windows| == 3 && windows[0].anchor == lines[0].who.id
    ensures windows[1].anchor == lines[2].who.id && windows[1].text == lines[2].text && |windows[1].covered| == 1
    ensures windows[2].anchor == lines[3].who.id && windows[2].text == lines[3].text && |windows[2].covered| == 1
  {
    var spans := [(0, 2), (2, 3), (3, 4)];
    WindowOfOne(lines, 2, 1);
    WindowOfOne(lines, 3, 2);
  }

  /** The later units: the first window swallows the head of the second utterance, and the windows
      that hang on it move up by one. */
  lemma {:induction false} LateUnits(w: string)
    requires Solid(w) && |w| == 20
    ensures var units := Units(Late(w), "window", LIMITS);
            |units| == 3 && units[0].seg == 1 && units[1] == Unit(2, w, 1, 0) && units[2] == Unit(2, "c", 1, 1)
  {
    var segs := Late(w);
    var lines := AllLines(segs, 20);
    LateOrder(w);
    LateLines(w);
    LateSpans(lines);
    var windows := Windowed(segs, LIMITS);
    LateWindows(lines, windows);
    assert lines[0].who.id == 1 && lines[2].who.id == 2 && lines[3].who.id == 2;
    assert 1 in EmbeddingUnits.Ids(segs) && 2 in EmbeddingUnits.Ids(segs) by { assert segs[0] in segs && segs[1] in segs; }
    ThreeUnits(windows, EmbeddingUnits.Ids(segs));
  }

  // ----- the passes

  lemma {:induction false} EarlyRows(w: string, early: seq<Unit>, ask: (nat, seq<string>) -> Reply, job: Job)
    requires early == [Unit(2, HEAD, 1, 0), Unit(2, w, 1, 1)] && !job.force && job.cfg.model != ""
    requires Went(map[], early, ask, job, job.cfg.model)
    ensures var rows := Pass(map[], early, ask, job).0;
            && (forall u :: u in early ==> Current(rows, u, job.cfg.model, job))
            && (forall k :: k in rows ==> exists u :: u in early && k == KeyOf(u, job.cfg.model, job))
  {
    var rows := Pass(map[], early, ask, job).0;
    forall u | u in early ensures Current(rows, u, job.cfg.model, job) {
      DueIff(map[], u, job);
      PassCurrent(map[], early, ask, job, job.cfg.model, u);
    }
    forall k | k in rows ensures exists u :: u in early && k == KeyOf(u, job.cfg.model, job) {
      WhatAPassAdds(map[], early, ask, job, job.cfg.model, k);
    }
  }

  lemma {:induction false} LatePass(w: string, rows: Rows, late: seq<Unit>, again: (nat, seq<string>) -> Reply, job: Job)
    requires |late| == 3 && late[0].seg == 1 && late[1] == Unit(2, w, 1, 0) && late[2] == Unit(2, "c", 1, 1)
    requires !job.force && job.cfg.model != "" && job.hash(HEAD) != job.hash(w) && job.hash(w) != job.hash("c") && job.hash("c") != job.hash(HEAD)
    requires Current(rows, Unit(2, HEAD, 1, 0), job.cfg.model, job) && Current(rows, Unit(2, w, 1, 1), job.cfg.model, job)
    requires forall k :: k in rows ==> k == Key(2, job.cfg.model, job.scheme, 0) || k == Key(2, job.cfg.model, job.scheme, 1)
    requires Went(rows, late, again, job, job.cfg.model)
    ensures var now := Pass(rows, late, again, job).0;
            !Current(now, late[1], job.cfg.model, job) && Due(now, late[1], job)
  {
    var u, v := late[1], late[2];
    var k1 := KeyOf(v, job.cfg.model, job);
    assert KeyOf(Unit(2, w, 1, 1), job.cfg.model, job) == k1;
    assert Witness(rows, k1, u, job);
    DueIff(rows, u, job);
    DueIff(rows, v, job);
    forall x | x in late && Due(rows, x, job) && x.seg == u.seg ensures job.hash(x.text) != job.hash(u.text) {
      assert x == u || x == v;
    }
    assert KeyOf(Unit(2, HEAD, 1, 0), job.cfg.model, job) == Key(2, job.cfg.model, job.scheme, 0);
    ShiftedWindowIsLost(rows, late, again, job, job.cfg.model, u, v);
  }

  lemma {:induction false} BothPasses(w: string, early: seq<Unit>, late: seq<Unit>, ask: (nat, seq<string>) -> Reply,
                                      again: (nat, seq<string>) -> Reply, job: Job)
    requires early == [Unit(2, HEAD, 1, 0), Unit(2, w, 1, 1)]
    requires |late| == 3 && late[0].seg == 1 && late[1] == Unit(2, w, 1, 0) && late[2] == Unit(2, "c", 1, 1)
    requires !job.force && job.cfg.model != ""
    requires job.hash(HEAD) != job.hash(w) && job.hash(w) != job.hash("c") && job.hash("c") != job.hash(HEAD)
    requires Went(map[], early, ask, job, job.cfg.model) && Went(Pass(map[], early, ask, job).0, late, again, job, job.cfg.model)
    ensures var now := Pass(Pass(map[], early, ask, job).0, late, again, job).0;
            !Current(now, late[1], job.cfg.model, job) && Due(now, late[1], job)
  {
    var rows := Pass(map[], early, ask, job).0;
    EarlyRows(w, early, ask, job);
    assert early[0] in early && early[1] in early;
    forall k | k in rows ensures k == Key(2, job.cfg.model, job.scheme, 0) || k == Key(2, job.cfg.model, job.scheme, 1) {
      var u :| u in early && k == KeyOf(u, job.cfg.model, job);
    }
    LatePass(w, rows, late, again, job);
  }

  /** From an empty index: both passes succeed, under a pinned model that answers under its own
      name. After the second, the window that reads `w` has a stale row, and its hash is nowhere. */
  lemma {:induction false} ShiftedWindowExample(w: string, early: seq<Unit>, late: seq<Unit>, ask: (nat, seq<string>) -> Reply,
                                                again: (nat, seq<string>) -> Reply, job: Job)
    requires Solid(w) && |w| == 20 && early == Units(Early(w), "window", LIMITS) && late == Units(Late(w), "window", LIMITS)
    requires job.scheme == "window" && !job.force && job.cfg.model != ""
    requires job.hash(HEAD) != job.hash(w) && job.hash(w) != job.hash("c") && job.hash("c") != job.hash(HEAD)
    requires Went(map[], early, ask, job, job.cfg.model) && Went(Pass(map[], early, ask, job).0, late, again, job, job.cfg.model)
    ensures var now := Pass(Pass(map[], early, ask, job).0, late, again, job).0;
            var moved := Unit(2, w, 1, 0);
            moved in late && !Current(now, moved, job.cfg.model, job) && Due(now, moved, job)
  {
    EarlyUnits(w);
    LateUnits(w);
    BothPasses(w, early, late, ask, again, job);
  }
}
