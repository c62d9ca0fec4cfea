/** `build_windows` from end to end: from utterances in any order to the windows that are embedded. */
module Passages {
  import opened Text
  import opened Windows
  import opened Packing
  import opened Overlaps

  // ----- the transcript's order

  function InsertBySequence(u: Utterance, s: seq<Utterance>): seq<Utterance> {
    if s == [] || u.sequenceNum <= s[0].sequenceNum then [u] + s else [s[0]] + InsertBySequence(u, s[1..])
  }

  /** The utterances that say something, sorted by sequence number; ties keep their order. */
  function Ordered(us: seq<Utterance>): seq<Utterance> {
    if us == [] then []
    else if Strip(us[0].text) == "" then Ordered(us[1..])
    else InsertBySequence(us[0], Ordered(us[1..]))
  }

  predicate Ascending(s: seq<Utterance>) {
    forall i, j :: 0 <= i < j < |s| ==> s[i].sequenceNum <= s[j].sequenceNum
  }

  /** The utterances with sequence number `k` that say something, in order. */
  function Numbered(s: seq<Utterance>, k: int): seq<Utterance> {
    if s == [] then []
    else (if s[0].sequenceNum == k && !Blank(s[0].text) then [s[0]] else []) + Numbered(s[1..], k)
  }

  lemma {:induction false} InsertHolds(u: Utterance, s: seq<Utterance>)
    ensures |InsertBySequence(u, s)| == |s| + 1 && forall x :: x in InsertBySequence(u, s) <==> x == u || x in s
  {
    if s != [] && u.sequenceNum > s[0].sequenceNum {
      InsertHolds(u, s[1..]);
      assert s == [s[0]] + s[1..];
    }
  }

  lemma {:induction false} AscendingCons(u: Utterance, s: seq<Utterance>)
    requires Ascending(s) && forall x :: x in s ==> u.sequenceNum <= x.sequenceNum
    ensures Ascending([u] + s)
  {
    forall i, j | 0 <= i < j < |s| + 1 ensures ([u] + s)[i].sequenceNum <= ([u] + s)[j].sequenceNum {
      if i == 0 { assert s[j - 1] in s; }
    }
  }

  lemma {:induction false} InsertAscends(u: Utterance, s: seq<Utterance>)
    requires Ascending(s)
    ensures Ascending(InsertBySequence(u, s))
  {
    if s != [] && u.sequenceNum > s[0].sequenceNum {
      var rest := InsertBySequence(u, s[1..]);
      InsertAscends(u, s[1..]);
      InsertHolds(u, s[1..]);
      forall x | x in rest ensures s[0].sequenceNum <= x.sequenceNum { assert x == u || x in s[1..]; }
      AscendingCons(s[0], rest);
    } else {
      forall x | x in s ensures u.sequenceNum <= x.sequenceNum { assert s[0].sequenceNum <= x.sequenceNum; }
      AscendingCons(u, s);
    }
  }

  lemma {:induction false} NumberedCons(u: Utterance, s: seq<Utterance>, k: int)
    ensures Numbered([u] + s, k) == (if u.sequenceNum == k && !Blank(u.text) then [u] else []) + Numbered(s, k)
  {
    assert ([u] + s)[1..] == s;
  }

  lemma {:induction false} InsertNumbers(u: Utterance, s: seq<Utterance>, k: int)
    requires !Blank(u.text)
    ensures Numbered(InsertBySequence(u, s), k) == (if u.sequenceNum == k then [u] else []) + Numbered(s, k)
  {
    if s == [] || u.sequenceNum <= s[0].sequenceNum {
      NumberedCons(u, s, k);
    } else {
      InsertNumbers(u, s[1..], k);
      NumberedCons(s[0], InsertBySequence(u, s[1..]), k);
      NumberedCons(s[0], s[1..], k);
      assert [s[0]] + s[1..] == s;
    }
  }

  /** The transcript's order: ascending, nothing that speaks is lost or repeated, and utterances
      of one number stay in the order they came in. */
  lemma {:induction false} OrderedIsStable(us: seq<Utterance>)
    ensures Ascending(Ordered(us))
    ensures forall k :: Numbered(Ordered(us), k) == Numbered(us, k)
    ensures forall u :: u in Ordered(us) ==> u in us && !Blank(u.text)
  {
    if us != [] {
      OrderedIsStable(us[1..]);
      StripSqueeze(us[0].text);
      if !Blank(us[0].text) {
        InsertHolds(us[0], Ordered(us[1..]));
        InsertAscends(us[0], Ordered(us[1..]));
        forall k ensures Numbered(Ordered(us), k) == Numbered(us, k) { InsertNumbers(us[0], Ordered(us[1..]), k); }
      }
    }
  }

  // ----- lines

  function Tagged(u: Utterance, pieces: seq<string>): seq<Line> {
    if pieces == [] then [] else [Line(pieces[0], u)] + Tagged(u, pieces[1..])
  }

  /** The lines of a transcript: every utterance rendered and, where it is longer than a window, cut. */
  function AllLines(us: seq<Utterance>, max: int): seq<Line>
    requires 1 <= max
  {
    if us == [] then [] else Tagged(us[0], Split(Render(us[0]), max)) + AllLines(us[1..], max)
  }

  function Texts(lines: seq<Line>): string {
    if lines == [] then "" else lines[0].text + Texts(lines[1..])
  }

  function Rendered(us: seq<Utterance>): string {
    if us == [] then "" else Render(us[0]) + Rendered(us[1..])
  }

  lemma {:induction false} TextsConcat(a: seq<Line>, b: seq<Line>)
    ensures Texts(a + b) == Texts(a) + Texts(b)
  {
    if a == [] {
      assert a + b == b;
    } else {
      assert (a + b)[1..] == a[1..] + b;
      TextsConcat(a[1..], b);
    }
  }

  lemma {:induction false} TaggedText(u: Utterance, pieces: seq<string>)
    ensures Texts(Tagged(u, pieces)) == Flat(pieces)
    ensures forall l :: l in Tagged(u, pieces) ==> l.who == u && l.text in pieces
  {
    if pieces != [] { TaggedText(u, pieces[1..]); }
  }

  lemma {:induction false} SplitKeepsTheLine(line: string, max: int)
    requires 1 <= max && Trimmed(line)
    ensures Squeeze(Flat(Split(line, max))) == Squeeze(line)
    ensures forall p :: p in Split(line, max) ==> |p| <= max
    ensures line != "" ==> forall p :: p in Split(line, max) ==> p != ""
  {
    if |line| <= max {
      assert [line][1..] == [];
      assert Flat([line]) == line + Flat([line][1..]) == line;
    } else {
      PiecesKeepTheLine(line, max);
    }
  }

  /** No line is longer than a window, none is empty, and together they are the rendered
      utterances, in order, up to white space. */
  lemma {:induction false} LinesKeepTheTranscript(us: seq<Utterance>, max: int)
    requires 1 <= max
    ensures forall l :: l in AllLines(us, max) ==> 0 < |l.text| <= max && l.who in us
    ensures Squeeze(Texts(AllLines(us, max))) == Squeeze(Rendered(us))
  {
    if us != [] {
      var first, rest := Tagged(us[0], Split(Render(us[0]), max)), AllLines(us[1..], max);
      LinesKeepTheTranscript(us[1..], max);
      RenderKeepsTheWords(us[0]);
      SplitKeepsTheLine(Render(us[0]), max);
      TaggedText(us[0], Split(Render(us[0]), max));
      TextsConcat(first, rest);
      SqueezeConcat(Texts(first), Texts(rest));
      SqueezeConcat(Render(us[0]), Rendered(us[1..]));
    }
  }

  // ----- windows

  /** Consecutive repeats collapse: a long utterance contributes several lines, but it is one. */
  function Collapse(ids: seq<int>): (r: seq<int>)
    ensures r == [] <==> ids == []
    ensures r != [] ==> r[|r| - 1] == ids[|ids| - 1]
  {
    if ids == [] then []
    else
      var n := |ids| - 1;
      var c := Collapse(ids[..n]);
      if c == [] || c[|c| - 1] != ids[n] then c + [ids[n]] else c
  }

  /** No id is lost, and none is repeated in a row. */
  lemma {:induction false} CollapseKeepsIds(ids: seq<int>)
    ensures forall i :: 0 < i < |Collapse(ids)| ==> Collapse(ids)[i - 1] != Collapse(ids)[i]
    ensures forall x :: x in Collapse(ids) <==> x in ids
  {
    if ids != [] {
      var n := |ids| - 1;
      CollapseKeepsIds(ids[..n]);
      assert ids == ids[..n] + [ids[n]];
    }
  }

  function Ids(lines: seq<Line>): seq<int> {
    seq(|lines|, i requires 0 <= i < |lines| => lines[i].who.id)
  }

  function LatestEnd(lines: seq<Line>): real
    requires lines != []
  {
    var n := |lines| - 1;
    if n == 0 then lines[0].who.endTime
    else
      var e := LatestEnd(lines[..n]);
      if e < lines[n].who.endTime then lines[n].who.endTime else e
  }

  function MakeWindow(lines: seq<Line>, index: nat): Window
    requires lines != []
  {
    Window(lines[0].who.id, Collapse(Ids(lines)), Joined(lines), lines[0].who.startTime, LatestEnd(lines), index)
  }

  /** The windows over the given ranges of lines, numbered from `index`. */
  function WindowsOf(lines: seq<Line>, spans: seq<(nat, nat)>, index: nat): (r: seq<Window>)
    requires forall i :: 0 <= i < |spans| ==> spans[i].0 < spans[i].1 <= |lines|
    ensures |r| == |spans|
  {
    seq(|spans|, i requires 0 <= i < |spans| => MakeWindow(lines[spans[i].0..spans[i].1], index + i))
  }

  // ----- the loop

  lemma {:induction false} EndIs(lines: seq<Line>, lo: nat, hi: nat, lim: Limits)
    requires lo < hi <= |lines| && Closed(lines, lo, hi, lim)
    requires forall j :: lo < j < hi ==> !Closed(lines, lo, j, lim)
    ensures End(lines, lo, lim) == hi
  {
  }

  /** The window under construction, as buffered lines and their counted length. */
  datatype Buffer = Buffer(lines: seq<Line>, length: int)

  method Cover(lines: seq<Line>) returns (covered: seq<int>)
    ensures covered == Collapse(Ids(lines))
  {
    covered := [];
    for i := 0 to |lines|
      invariant covered == Collapse(Ids(lines)[..i])
    {
      assert Ids(lines)[..i + 1][..i] == Ids(lines)[..i];
      if covered == [] || covered[|covered| - 1] != lines[i].who.id {
        covered := covered + [lines[i].who.id];
      }
    }
    assert Ids(lines)[..|lines|] == Ids(lines);
  }

  method LatestEndOf(lines: seq<Line>) returns (e: real)
    requires lines != []
    ensures e == LatestEnd(lines)
  {
    e := lines[0].who.endTime;
    for i := 1 to |lines|
      invariant e == LatestEnd(lines[..i])
    {
      assert lines[..i + 1][..i] == lines[..i];
      if e < lines[i].who.endTime {
        e := lines[i].who.endTime;
      }
    }
    assert lines[..|lines|] == lines;
  }

  lemma {:induction false} CostStep(all: seq<Line>, lo: nat, hi: nat)
    requires lo < hi <= |all|
    ensures Cost(all, lo, hi) == |all[lo].text| + 1 + Cost(all, lo + 1, hi)
  {
    CostSplit(all, lo, lo + 1, hi);
    assert Cost(all, lo, lo + 1) == Cost(all, lo, lo) + |all[lo].text| + 1;
  }

  /** The tail a window hands on: whole lines from its end, never the first, within the budget. */
  method TakeTail(lines: seq<Line>, lim: Limits, ghost all: seq<Line>, ghost lo: nat, ghost hi: nat)
    returns (carried: seq<Line>, length: int)
    requires lo < hi <= |all| && lines == all[lo..hi] && lim.Sound()
    ensures var c := Carry(all, lo, hi, lim); carried == all[c..hi] && length == Cost(all, c, hi)
  {
    carried, length := [], 0;
    var i := |lines| - 1;
    while i > 0
      invariant 0 <= i < |lines|
      invariant carried == all[lo + i + 1..hi] && length == Cost(all, lo + i + 1, hi)
      invariant Carry(all, lo, hi, lim) == Carry(all, lo, hi, lim, lo + i + 1)
    {
      CostStep(all, lo + i, hi);
      if length + |lines[i].text| + 1 > lim.overlap {
        return;
      }
      carried := [lines[i]] + carried;
      length := length + |lines[i].text| + 1;
      i := i - 1;
    }
  }

  /** Close the buffered window, lines `lo..hi` of the transcript, and re-open with the tail that
      fits the overlap budget. */
  method Flush(windows: seq<Window>, buffer: Buffer, lim: Limits, ghost all: seq<Line>, ghost lo: nat, ghost hi: nat)
    returns (windows': seq<Window>, buffer': Buffer)
    requires lo < hi <= |all| && buffer.lines == all[lo..hi] && lim.Sound()
    ensures windows' == windows + [MakeWindow(all[lo..hi], |windows|)]
    ensures var c := Carry(all, lo, hi, lim); buffer' == Buffer(all[c..hi], Cost(all, c, hi))
  {
    var lines := buffer.lines;
    var covered := Cover(lines);
    var e := LatestEndOf(lines);
    windows' := windows + [Window(lines[0].who.id, covered, Joined(lines), lines[0].who.startTime, e, |windows|)];
    var carried, length := TakeTail(lines, lim, all, lo, hi);
    buffer' := Buffer(carried, length);
  }

  /** The state of the packer after `n` lines: the buffer holds the open window `lo..n`, and the
      windows made so far are those that come before `lo`. */
  ghost predicate InProgress(all: seq<Line>, n: nat, lo: nat, windows: seq<Window>, buffer: Buffer, lim: Limits) {
    && lo <= n <= |all|
    && buffer == Buffer(all[lo..n], Cost(all, lo, n)) && buffer.length < lim.target
    && (forall j :: lo < j < n ==> !Closed(all, lo, j, lim))
    && windows + WindowsOf(all, Spans(all, lo, lim), |windows|) == WindowsOf(all, Spans(all, 0, lim), 0)
  }

  lemma {:induction false} WindowsCons(all: seq<Line>, first: (nat, nat), rest: seq<(nat, nat)>, index: nat)
    requires first.0 < first.1 <= |all| && forall i :: 0 <= i < |rest| ==> rest[i].0 < rest[i].1 <= |all|
    ensures WindowsOf(all, [first] + rest, index) == [MakeWindow(all[first.0..first.1], index)] + WindowsOf(all, rest, index + 1)
  {
  }

  /** A window just made is the next one of the packing. */
  lemma {:induction false} MadeNext(all: seq<Line>, lo: nat, hi: nat, lim: Limits, windows: seq<Window>)
    requires lo < hi <= |all| && hi == End(all, lo, lim) && !Last(all, lo, hi, lim)
    ensures WindowsOf(all, Spans(all, lo, lim), |windows|)
         == [MakeWindow(all[lo..hi], |windows|)] + WindowsOf(all, Spans(all, NextStart(all, lo, hi, lim), lim), |windows| + 1)
  {
    var rest := if Last(all, lo, hi, lim) then [] else Spans(all, NextStart(all, lo, hi, lim), lim);
    assert Spans(all, lo, lim) == [(lo, hi)] + rest;
    WindowsCons(all, (lo, hi), rest, |windows|);
  }

  /** A carried tail, short as it is, closes nowhere. */
  lemma {:induction false} TailIsOpen(all: seq<Line>, c: nat, n: nat, lim: Limits)
    requires c <= n <= |all| && lim.Sound() && Cost(all, c, n) <= lim.overlap
    ensures Cost(all, c, n) < lim.target && forall j :: c < j < n ==> !Closed(all, c, j, lim)
  {
    forall j | c < j < n ensures !Closed(all, c, j, lim) {
      CostGrows(all, c, c, j, n);
      CostGrows(all, c, c, j + 1, n);
    }
  }

  /** Flushing a closed window leaves the packer at the start of the next one. */
  method CloseWindow(windows: seq<Window>, buffer: Buffer, lim: Limits, ghost all: seq<Line>, ghost lo: nat, ghost n: nat)
    returns (windows': seq<Window>, buffer': Buffer)
    requires lo < n <= |all| && buffer.lines == all[lo..n] && lim.Sound()
    requires Closed(all, lo, n, lim) && (forall j :: lo < j < n ==> !Closed(all, lo, j, lim)) && !Last(all, lo, n, lim)
    requires windows + WindowsOf(all, Spans(all, lo, lim), |windows|) == WindowsOf(all, Spans(all, 0, lim), 0)
    ensures var c := Carry(all, lo, n, lim);
            && buffer' == Buffer(all[c..n], Cost(all, c, n)) && buffer'.length < lim.target
            && (forall j :: c < j < n ==> !Closed(all, c, j, lim))
    ensures windows' + WindowsOf(all, Spans(all, NextStart(all, lo, n, lim), lim), |windows'|) == WindowsOf(all, Spans(all, 0, lim), 0)
  {
    windows', buffer' := Flush(windows, buffer, lim, all, lo, n);
    EndIs(all, lo, n, lim);
    MadeNext(all, lo, n, lim, windows);
    assert Cost(all, n, n) == 0;
    TailIsOpen(all, Carry(all, lo, n, lim), n, lim);
    Reassociate(windows, MakeWindow(all[lo..n], |windows|), WindowsOf(all, Spans(all, NextStart(all, lo, n, lim), lim), |windows| + 1));
  }

  /** Close the open window if the line does not fit it, and drop the carried tail too if the
      line does not fit that: the ceiling wins over the overlap. */
  method MakeRoom(line: Line, windows: seq<Window>, buffer: Buffer, lim: Limits, ghost all: seq<Line>, ghost lo: nat, ghost n: nat)
    returns (windows': seq<Window>, buffer': Buffer, ghost lo': nat)
    requires n < |all| && line == all[n] && lim.Sound() && InProgress(all, n, lo, windows, buffer, lim)
    ensures InProgress(all, n, lo', windows', buffer', lim)
    ensures buffer'.lines == [] || buffer'.length + |line.text| + 1 <= lim.max
  {
    windows', buffer', lo' := windows, buffer, lo;
    if buffer'.lines != [] && buffer'.length + |line.text| + 1 > lim.max {
      windows', buffer' := CloseWindow(windows', buffer', lim, all, lo, n);
      lo' := NextStart(all, lo, n, lim);
      if buffer'.lines != [] && buffer'.length + |line.text| + 1 > lim.max {
        buffer' := Buffer([], 0);
      }
    }
  }

  /** As `InProgress`, just after a line was taken: the window may have reached its target. */
  ghost predicate Grown(all: seq<Line>, n: nat, lo: nat, windows: seq<Window>, buffer: Buffer, lim: Limits) {
    && lo < n <= |all| && buffer == Buffer(all[lo..n], Cost(all, lo, n))
    && (forall j :: lo < j < n ==> !Closed(all, lo, j, lim))
    && windows + WindowsOf(all, Spans(all, lo, lim), |windows|) == WindowsOf(all, Spans(all, 0, lim), 0)
  }

  lemma {:induction false} StillShort(all: seq<Line>, n: nat, lo: nat, windows: seq<Window>, buffer: Buffer, lim: Limits)
    requires n < |all| && lim.Sound() && InProgress(all, n, lo, windows, buffer, lim)
    requires buffer.lines == [] || buffer.length + |all[n].text| + 1 <= lim.max
    ensures forall j :: lo < j < n + 1 ==> !Closed(all, lo, j, lim)
  {
    assert lo < n ==> buffer.lines != [] && !Closed(all, lo, n, lim);
  }

  lemma {:induction false} PushedBuffer(all: seq<Line>, n: nat, lo: nat, buffer: Buffer)
    requires lo <= n < |all| && buffer == Buffer(all[lo..n], Cost(all, lo, n))
    ensures Buffer(buffer.lines + [all[n]], buffer.length + |all[n].text| + 1) == Buffer(all[lo..n + 1], Cost(all, lo, n + 1))
  {
    assert all[lo..n] + [all[n]] == all[lo..n + 1];
  }

  lemma {:induction false} PushedLine(all: seq<Line>, n: nat, lo: nat, windows: seq<Window>, buffer: Buffer, lim: Limits)
    requires n < |all| && lim.Sound() && InProgress(all, n, lo, windows, buffer, lim)
    requires buffer.lines == [] || buffer.length + |all[n].text| + 1 <= lim.max
    ensures Grown(all, n + 1, lo, windows, Buffer(buffer.lines + [all[n]], buffer.length + |all[n].text| + 1), lim)
  {
    StillShort(all, n, lo, windows, buffer, lim);
    PushedBuffer(all, n, lo, buffer);
  }

  lemma {:induction false} StillOpen(all: seq<Line>, n: nat, lo: nat, windows: seq<Window>, buffer: Buffer, lim: Limits)
    requires Grown(all, n, lo, windows, buffer, lim) && buffer.length < lim.target
    ensures InProgress(all, n, lo, windows, buffer, lim)
  {
  }

  method CloseFull(windows: seq<Window>, buffer: Buffer, lim: Limits, ghost all: seq<Line>, ghost lo: nat, ghost n: nat)
    returns (windows': seq<Window>, buffer': Buffer, ghost lo': nat)
    requires lim.Sound() && Grown(all, n, lo, windows, buffer, lim) && buffer.length >= lim.target
    ensures InProgress(all, n, lo', windows', buffer', lim)
  {
    windows', buffer' := CloseWindow(windows, buffer, lim, all, lo, n);
    lo' := NextStart(all, lo, n, lim);
  }

  /** Take a line there is room for, and close the window once it reaches its target. */
  method Push(line: Line, windows: seq<Window>, buffer: Buffer, lim: Limits, ghost all: seq<Line>, ghost lo: nat, ghost n: nat)
    returns (windows': seq<Window>, buffer': Buffer, ghost lo': nat)
    requires n < |all| && line == all[n] && lim.Sound() && InProgress(all, n, lo, windows, buffer, lim)
    requires buffer.lines == [] || buffer.length + |line.text| + 1 <= lim.max
    ensures InProgress(all, n + 1, lo', windows', buffer', lim)
  {
    PushedLine(all, n, lo, windows, buffer, lim);
    windows', buffer', lo' := windows, Buffer(buffer.lines + [line], buffer.length + |line.text| + 1), lo;
    if buffer'.length >= lim.target {
      windows', buffer', lo' := CloseFull(windows, buffer', lim, all, lo, n + 1);
    } else {
      StillOpen(all, n + 1, lo, windows, buffer', lim);
    }
  }

  method TakeLine(line: Line, windows: seq<Window>, buffer: Buffer, lim: Limits, ghost all: seq<Line>, ghost lo: nat, ghost n: nat)
    returns (windows': seq<Window>, buffer': Buffer, ghost lo': nat)
    requires n < |all| && line == all[n] && lim.Sound() && InProgress(all, n, lo, windows, buffer, lim)
    ensures InProgress(all, n + 1, lo', windows', buffer', lim)
  {
    var roomy, open, start := MakeRoom(line, windows, buffer, lim, all, lo, n);
    windows', buffer', lo' := Push(line, roomy, open, lim, all, start, n);
  }

  lemma {:induction false} TaggedLength(u: Utterance, pieces: seq<string>)
    ensures |Tagged(u, pieces)| == |pieces|
  {
    if pieces != [] { TaggedLength(u, pieces[1..]); }
  }

  lemma {:induction false} TaggedAt(u: Utterance, pieces: seq<string>, i: nat)
    requires i < |pieces|
    ensures |Tagged(u, pieces)| == |pieces| && Tagged(u, pieces)[i] == Line(pieces[i], u)
    decreases |pieces|
  {
    if i > 0 { TaggedAt(u, pieces[1..], i - 1); } else { TaggedLength(u, pieces); }
  }

  lemma {:induction false} PiecesComeNext(all: seq<Line>, n: nat, u: Utterance, pieces: seq<string>, rest: seq<Line>)
    requires n <= |all| && all[n..] == Tagged(u, pieces) + rest
    ensures n + |pieces| <= |all| && forall j :: 0 <= j < |pieces| ==> all[n + j] == Line(pieces[j], u)
    ensures all[n + |pieces|..] == rest
  {
    TaggedLength(u, pieces);
    forall j | 0 <= j < |pieces| ensures all[n + j] == Line(pieces[j], u) {
      TaggedAt(u, pieces, j);
      assert all[n + j] == all[n..][j];
    }
    assert all[n + |pieces|..] == all[n..][|pieces|..];
  }

  /** All the pieces of one utterance. */
  method TakeAll(u: Utterance, pieces: seq<string>, windows: seq<Window>, buffer: Buffer, lim: Limits,
                 ghost all: seq<Line>, ghost lo: nat, ghost n: nat)
    returns (windows': seq<Window>, buffer': Buffer, ghost lo': nat, ghost n': nat)
    requires lim.Sound() && InProgress(all, n, lo, windows, buffer, lim)
    requires n + |pieces| <= |all| && forall j :: 0 <= j < |pieces| ==> all[n + j] == Line(pieces[j], u)
    ensures n' == n + |pieces| && InProgress(all, n', lo', windows', buffer', lim)
  {
    windows', buffer', lo', n' := windows, buffer, lo, n;
    for j := 0 to |pieces|
      invariant n' == n + j && InProgress(all, n', lo', windows', buffer', lim)
    {
      windows', buffer', lo' := TakeLine(Line(pieces[j], u), windows', buffer', lim, all, lo', n');
      n' := n' + 1;
    }
  }

  /** The rendered line of an utterance, cut where it is longer than a window. */
  method TakeRendered(u: Utterance, line: string, windows: seq<Window>, buffer: Buffer, lim: Limits,
                      ghost all: seq<Line>, ghost lo: nat, ghost n: nat, ghost rest: seq<Line>)
    returns (windows': seq<Window>, buffer': Buffer, ghost lo': nat, ghost n': nat)
    requires lim.Sound() && InProgress(all, n, lo, windows, buffer, lim)
    requires all[n..] == Tagged(u, Split(line, lim.max)) + rest
    ensures InProgress(all, n', lo', windows', buffer', lim) && all[n'..] == rest
  {
    PiecesComeNext(all, n, u, Split(line, lim.max), rest);
    var pieces := SplitOversized(line, lim.max);
    windows', buffer', lo', n' := TakeAll(u, pieces, windows, buffer, lim, all, lo, n);
  }

  method TakeUtterance(u: Utterance, windows: seq<Window>, buffer: Buffer, lim: Limits,
                       ghost all: seq<Line>, ghost lo: nat, ghost n: nat, ghost rest: seq<Line>)
    returns (windows': seq<Window>, buffer': Buffer, ghost lo': nat, ghost n': nat)
    requires lim.Sound() && InProgress(all, n, lo, windows, buffer, lim)
    requires all[n..] == Tagged(u, Split(Render(u), lim.max)) + rest
    ensures InProgress(all, n', lo', windows', buffer', lim) && all[n'..] == rest
  {
    windows', buffer', lo', n' := TakeRendered(u, Render(u), windows, buffer, lim, all, lo, n, rest);
  }

  /** What is left in the buffer when the lines run out is the last window. */
  lemma {:induction false} MadeLast(all: seq<Line>, lo: nat, n: nat, lim: Limits, index: nat)
    requires lo < n == |all| && End(all, lo, lim) == n && Last(all, lo, n, lim)
    ensures WindowsOf(all, Spans(all, lo, lim), index) == [MakeWindow(all[lo..n], index)]
  {
    assert Spans(all, lo, lim) == [(lo, n)] + [];
    WindowsCons(all, (lo, n), [], index);
  }

  method FlushLast(windows: seq<Window>, buffer: Buffer, lim: Limits, ghost all: seq<Line>, ghost lo: nat, ghost n: nat)
    returns (windows': seq<Window>)
    requires lim.Sound() && InProgress(all, n, lo, windows, buffer, lim) && n == |all|
    ensures windows' == WindowsOf(all, Spans(all, 0, lim), 0)
  {
    windows' := windows;
    if buffer.lines != [] {
      EndIs(all, lo, n, lim);
      MadeLast(all, lo, n, lim, |windows|);
      var last, _ := Flush(windows, buffer, lim, all, lo, n);
      windows' := last;
    }
  }

  /** The lines of every tail of the transcript. */
  ghost function Tails(ordered: seq<Utterance>, max: int): (r: seq<seq<Line>>)
    requires 1 <= max
    ensures |r| == |ordered| + 1 && r[0] == AllLines(ordered, max) && r[|ordered|] == []
    ensures forall i :: 0 <= i < |ordered| ==> r[i] == Tagged(ordered[i], Split(Render(ordered[i]), max)) + r[i + 1]
  {
    if ordered == [] then [[]] else [AllLines(ordered, max)] + Tails(ordered[1..], max)
  }

  lemma {:induction false} NothingYet(all: seq<Line>, lim: Limits)
    requires lim.Sound()
    ensures InProgress(all, 0, 0, [], Buffer([], 0), lim)
    ensures all[0..] == all
  {
    assert all[0..0] == [] && Cost(all, 0, 0) == 0;
    assert [] + WindowsOf(all, Spans(all, 0, lim), 0) == WindowsOf(all, Spans(all, 0, lim), 0);
  }

  method PackTails(ordered: seq<Utterance>, lim: Limits, ghost all: seq<Line>, ghost tails: seq<seq<Line>>) returns (windows: seq<Window>)
    requires lim.Sound() && |tails| == |ordered| + 1 && tails[0] == all && tails[|ordered|] == []
    requires forall i :: 0 <= i < |ordered| ==> tails[i] == Tagged(ordered[i], Split(Render(ordered[i]), lim.max)) + tails[i + 1]
    ensures windows == WindowsOf(all, Spans(all, 0, lim), 0)
  {
    var buffer := Buffer([], 0);
    windows := [];
    ghost var n: nat, lo: nat := 0, 0;
    NothingYet(all, lim);
    for i := 0 to |ordered|
      invariant n <= |all| && all[n..] == tails[i]
      invariant InProgress(all, n, lo, windows, buffer, lim)
    {
      windows, buffer, lo, n := TakeUtterance(ordered[i], windows, buffer, lim, all, lo, n, tails[i + 1]);
    }
    assert |all[n..]| == 0;
    windows := FlushLast(windows, buffer, lim, all, lo, n);
  }

  method Pack(ordered: seq<Utterance>, lim: Limits) returns (windows: seq<Window>)
    requires lim.Sound()
    ensures var lines := AllLines(ordered, lim.max); windows == WindowsOf(lines, Spans(lines, 0, lim), 0)
  {
    ghost var tails := Tails(ordered, lim.max);
    windows := PackTails(ordered, lim, tails[0], tails);
  }

  /** `build_windows`: the utterances that say something, in transcript order, rendered, cut
      where they are too long, and packed. */
  method BuildWindows(utterances: seq<Utterance>, target: int, max: int, overlap: int) returns (windows: seq<Window>)
    ensures var lim := Clamp(target, max, overlap);
            var lines := AllLines(Ordered(utterances), lim.max);
            windows == WindowsOf(lines, Spans(lines, 0, lim), 0)
  {
    windows := Pack(Ordered(utterances), Clamp(target, max, overlap));
  }

  lemma {:induction false} TextsFit(lines: seq<Line>, spans: seq<(nat, nat)>, lim: Limits)
    requires forall s :: s in spans ==> s.0 < s.1 <= |lines| && |Joined(lines[s.0..s.1])| <= lim.max
    requires forall i :: 0 <= i < |spans| ==> spans[i].0 < spans[i].1 <= |lines|
    ensures forall i :: 0 <= i < |spans| ==> |WindowsOf(lines, spans, 0)[i].text| <= lim.max
  {
    forall i | 0 <= i < |spans| ensures |WindowsOf(lines, spans, 0)[i].text| <= lim.max {
      assert spans[i] in spans;
    }
  }

  lemma {:induction false} PackedLinesFitAndStay(lines: seq<Line>, lim: Limits)
    requires lim.Sound() && forall l :: l in lines ==> |l.text| <= lim.max
    ensures var spans := Spans(lines, 0, lim);
            && (forall i :: 0 <= i < |spans| ==> |WindowsOf(lines, spans, 0)[i].text| <= lim.max)
            && Added(lines, spans, 0) == lines
  {
    WindowsKeepRule(lines, 0, lim);
    TextsFit(lines, Spans(lines, 0, lim), lim);
    NothingIsLost(lines, 0, lim, 0);
    assert lines[0..] == lines;
  }

  /** What the windows of any utterances under any limits guarantee: no text is longer than the
      ceiling, and the lines they add one after the other are, white space aside, every
      utterance that says something, rendered, in transcript order. */
  lemma {:induction false} PassagesKeepTheTranscript(utterances: seq<Utterance>, target: int, max: int, overlap: int)
    ensures var lim := Clamp(target, max, overlap);
            var ordered := Ordered(utterances);
            var lines := AllLines(ordered, lim.max);
            var spans := Spans(lines, 0, lim);
            && (forall i :: 0 <= i < |spans| ==> |WindowsOf(lines, spans, 0)[i].text| <= lim.max)
            && Squeeze(Texts(Added(lines, spans, 0))) == Squeeze(Rendered(ordered))
  {
    var lim := Clamp(target, max, overlap);
    var ordered := Ordered(utterances);
    LinesKeepTheTranscript(ordered, lim.max);
    PackedLinesFitAndStay(AllLines(ordered, lim.max), lim);
  }
}
