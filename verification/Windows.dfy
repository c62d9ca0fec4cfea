/** Grouping utterances into answer-sized passages (windows). The greedy packing is specified as a
    function of the rendered lines; the loop over mutable buffers is proved to compute it. */
module Windows {
  import opened Text

  /** A start or end time of 0.0 stands for a missing one. */
  datatype Utterance = Utterance(id: int, sequenceNum: int, startTime: real, endTime: real, text: string, speaker: string)

  /** A rendered line, or a piece of one, and the utterance it comes from. */
  datatype Line = Line(text: string, who: Utterance)

  datatype Window = Window(anchor: int, covered: seq<int>, text: string, startTime: real, endTime: real, index: nat)

  datatype Limits = Limits(target: int, max: int, overlap: int) {
    predicate Sound() {
      1 <= target <= max && 0 <= overlap <= target / 2
    }
  }

  function AtLeast(low: int, n: int): int {
    if n < low then low else n
  }

  /** The limits a caller asks for, brought into range. */
  function Clamp(target: int, max: int, overlap: int): (r: Limits)
    ensures r.Sound()
    ensures Limits(target, max, overlap).Sound() ==> r == Limits(target, max, overlap)
  {
    var t := AtLeast(1, target);
    Limits(t, AtLeast(t, max), AtLeast(0, if overlap < t / 2 then overlap else t / 2))
  }

  ghost predicate DistinctIds(us: seq<Utterance>) {
    forall i, j :: 0 <= i < j < |us| ==> us[i].id != us[j].id
  }

  // ----- rendering

  function Digit(n: nat): char
    requires n < 10
  {
    "0123456789"[n]
  }

  function Decimal(n: nat): (r: string)
    ensures r != ""
  {
    if n < 10 then [Digit(n)] else Decimal(n / 10) + [Digit(n % 10)]
  }

  function TwoDigits(n: nat): string
    requires n < 100
  {
    [Digit(n / 10), Digit(n % 10)]
  }

  function FormatTimestamp(seconds: real): string {
    var total := if seconds < 0.0 then 0 else seconds.Floor;
    var hours, minutes, secs := total / 3600, total % 3600 / 60, total % 3600 % 60;
    if hours > 0 then Decimal(hours) + ":" + TwoDigits(minutes) + ":" + TwoDigits(secs)
    else TwoDigits(minutes) + ":" + TwoDigits(secs)
  }

  /** What a clock shows: the seconds up to the last colon, and the number after it. */
  function Shown(s: string): (r: (int, int)) {
    if s == "" then (0, 0)
    else
      var (passed, field) := Shown(s[..|s| - 1]);
      var c := s[|s| - 1];
      if c == ':' then ((passed + field) * 60, 0) else (passed, field * 10 + (c as int - '0' as int))
  }

  lemma {:induction false} ShownDigit(s: string, n: nat)
    requires n < 10
    ensures Shown(s + [Digit(n)]) == (Shown(s).0, Shown(s).1 * 10 + n)
    ensures Digit(n) != ':'
  {
    assert (s + [Digit(n)])[..|s|] == s;
  }

  lemma {:induction false} ShownColon(s: string)
    ensures Shown(s + ":") == ((Shown(s).0 + Shown(s).1) * 60, 0)
  {
    assert (s + ":")[..|s|] == s;
  }

  lemma {:induction false} ShownTwoDigits(s: string, n: nat)
    requires n < 100 && Shown(s).1 == 0
    ensures Shown(s + TwoDigits(n)) == (Shown(s).0, n)
  {
    ShownDigit(s, n / 10);
    ShownDigit(s + [Digit(n / 10)], n % 10);
    assert s + TwoDigits(n) == s + [Digit(n / 10)] + [Digit(n % 10)];
  }

  lemma {:induction false} ShownDecimal(n: nat)
    ensures Shown(Decimal(n)) == (0, n)
  {
    if n < 10 {
      ShownDigit("", n);
      assert "" + [Digit(n)] == [Digit(n)];
    } else {
      ShownDecimal(n / 10);
      ShownDigit(Decimal(n / 10), n % 10);
    }
  }

  lemma {:induction false} ShownFields(front: string, minutes: nat, secs: nat, h: int)
    requires minutes < 60 && secs < 60 && Shown(front) == (h * 60, 0)
    ensures Shown(front + TwoDigits(minutes) + ":" + TwoDigits(secs)) == ((h * 60 + minutes) * 60, secs)
  {
    ShownTwoDigits(front, minutes);
    ShownColon(front + TwoDigits(minutes));
    ShownTwoDigits(front + TwoDigits(minutes) + ":", secs);
  }

  lemma {:induction false} Sexagesimal(total: nat)
    ensures (total / 3600 * 60 + total % 3600 / 60) * 60 + total % 3600 % 60 == total
  {
  }

  /** What stands before the minutes. */
  function Hours(hours: nat): string {
    if hours > 0 then Decimal(hours) + ":" else ""
  }

  lemma {:induction false} ShownHours(hours: nat)
    ensures Shown(Hours(hours)) == (hours * 60, 0)
  {
    if hours > 0 {
      ShownDecimal(hours);
      ShownColon(Decimal(hours));
    }
  }

  /** Read as hours, minutes and seconds, a timestamp is the whole seconds of the time, 0 for one
      before the start; below an hour it has no hours. */
  lemma {:induction false} TimestampTells(seconds: real)
    ensures var (passed, field) := Shown(FormatTimestamp(seconds));
            && passed + field == (if seconds < 0.0 then 0 else seconds.Floor)
            && 0 <= field < 60 && (seconds < 3600.0 ==> |FormatTimestamp(seconds)| == 5)
  {
    var total := if seconds < 0.0 then 0 else seconds.Floor;
    var hours, minutes, secs := total / 3600, total % 3600 / 60, total % 3600 % 60;
    ShownHours(hours);
    ShownFields(Hours(hours), minutes, secs, hours);
    Sexagesimal(total);
    var front := Hours(hours);
    assert front + TwoDigits(minutes) + ":" + TwoDigits(secs) == FormatTimestamp(seconds);
  }

  function Head(u: Utterance): (r: string)
    ensures r != "" && !IsSpace(r[0])
  {
    var speaker := Strip(u.speaker);
    if speaker != "" then "[" + (FormatTimestamp(u.startTime) + " " + speaker + "]")
    else "[" + (FormatTimestamp(u.startTime) + "]")
  }

  function Render(u: Utterance): (r: string)
    ensures Trimmed(r)
  {
    Strip(Head(u) + " " + OneSpaced(u.text))
  }

  lemma {:induction false} SqueezeOne(c: char)
    requires !IsSpace(c)
    ensures Squeeze([c]) == [c]
  {
    assert [c][1..] == "";
  }

  lemma {:induction false} HeadTells(u: Utterance)
    ensures Squeeze(Head(u)) == "[" + Squeeze(FormatTimestamp(u.startTime)) + Squeeze(u.speaker) + "]"
  {
    var stamp, speaker := FormatTimestamp(u.startTime), Strip(u.speaker);
    StripSqueeze(u.speaker);
    SqueezeOne('[');
    SqueezeOne(']');
    JoinedSqueeze(stamp, speaker);
    SqueezeConcat(stamp + " " + speaker, "]");
    SqueezeConcat("[", stamp + " " + speaker + "]");
    SqueezeConcat(stamp, "]");
    SqueezeConcat("[", stamp + "]");
  }

  /** A rendered line holds its head and the utterance's own words; nothing else, and never nothing. */
  lemma {:induction false} RenderKeepsTheWords(u: Utterance)
    ensures Squeeze(Render(u)) == Squeeze(Head(u)) + Squeeze(u.text)
    ensures Squeeze(Head(u)) == "[" + Squeeze(FormatTimestamp(u.startTime)) + Squeeze(u.speaker) + "]"
    ensures Render(u) != ""
  {
    HeadTells(u);
    StripSqueeze(Head(u) + " " + OneSpaced(u.text));
    JoinedSqueeze(Head(u), OneSpaced(u.text));
    OneSpacedSqueeze(u.text);
    assert Squeeze(Head(u)) != "";
  }

  lemma {:induction false} JoinedIsTrimmed(a: string, b: string)
    requires a != "" && !IsSpace(a[0]) && b != "" && Trimmed(b)
    ensures Strip(a + " " + b) == a + " " + b
  {
    StripTrimmed(a + " " + b);
  }

  lemma {:induction false} WordsAreSpoken(text: string)
    requires !Blank(text)
    ensures Spaced(Words(text)) != "" && Trimmed(Spaced(Words(text))) && OneSpaced(text) == Spaced(Words(text))
  {
    OneSpacedSqueeze(text);
    OneSpacedIsSpaced(text);
    SqueezeBlank(text);
    WordsSay(text);
    SpacedIsTrimmed(Words(text));
  }

  lemma {:induction false} HeadIs(u: Utterance)
    ensures var speaker := Strip(u.speaker);
            Head(u) + " " == "[" + FormatTimestamp(u.startTime) + (if speaker == "" then "" else " " + speaker) + "] "
  {
  }

  /** An utterance that says something is rendered as time and speaker in brackets, and its words,
      each one space from the one before. */
  lemma {:induction false} RenderReads(u: Utterance)
    requires !Blank(u.text)
    ensures var speaker := Strip(u.speaker);
            Render(u) == "[" + FormatTimestamp(u.startTime) + (if speaker == "" then "" else " " + speaker) + "] " + Spaced(Words(u.text))
  {
    var said := Spaced(Words(u.text));
    WordsAreSpoken(u.text);
    HeadIs(u);
    JoinedIsTrimmed(Head(u), said);
  }

  /** `s.rfind(" ", 0, n)`. */
  function LastSpace(s: string, n: nat): (r: int)
    requires n <= |s|
    ensures -1 <= r < n && (r >= 0 ==> s[r] == ' ')
    ensures forall i :: r < i < n ==> s[i] != ' '
  {
    if n == 0 then -1 else if s[n - 1] == ' ' then n - 1 else LastSpace(s, n - 1)
  }

  function CutAt(s: string, max: int): (r: int)
    requires 1 <= max < |s|
    ensures 1 <= r <= max
  {
    var c := LastSpace(s, max);
    if c <= 0 then max else c
  }

  /** A line is cut at the last space it can be cut at, and inside a word only where there is none. */
  lemma {:induction false} CutFallsOnSpace(s: string, max: int)
    requires 1 <= max < |s|
    ensures forall i :: 1 <= i < max && i != CutAt(s, max) && s[i] == ' ' ==> i < CutAt(s, max)
    ensures CutAt(s, max) == max || s[CutAt(s, max)] == ' '
    ensures CutAt(s, max) == max ==> forall i :: 1 <= i < max ==> s[i] != ' '
  {
  }

  /** One cut of a line longer than a window: the piece and what remains. */
  function Bite(s: string, max: int): (r: (string, string))
    requires 1 <= max < |s|
    ensures |r.0| <= max && |r.1| < |s| && Trimmed(r.1)
  {
    var cut := CutAt(s, max);
    (Strip(s[..cut]), Strip(s[cut..]))
  }

  /** The pieces of a line, cut on white space where there is some. */
  function Pieces(s: string, max: int): seq<string>
    requires 1 <= max
    decreases |s|
  {
    if |s| <= max then (if s == "" then [] else [s])
    else [Bite(s, max).0] + Pieces(Bite(s, max).1, max)
  }

  function Split(line: string, max: int): seq<string>
    requires 1 <= max
  {
    if |line| <= max then [line] else Pieces(line, max)
  }

  function Flat(parts: seq<string>): string {
    if parts == [] then "" else parts[0] + Flat(parts[1..])
  }

  lemma {:induction false} SqueezeSplit(s: string, cut: nat)
    requires cut <= |s|
    ensures Squeeze(s[..cut]) + Squeeze(s[cut..]) == Squeeze(s)
  {
    assert s == s[..cut] + s[cut..];
    SqueezeConcat(s[..cut], s[cut..]);
  }

  lemma {:induction false} StripFromSpeech(s: string)
    requires s != "" && !IsSpace(s[0])
    ensures Strip(s) != ""
  {
    StripSqueeze(s);
  }

  lemma {:induction false} BiteKeepsTheLine(s: string, max: int)
    requires 1 <= max < |s| && Trimmed(s)
    ensures Squeeze(Bite(s, max).0) + Squeeze(Bite(s, max).1) == Squeeze(s)
    ensures Bite(s, max).0 != ""
  {
    var cut := CutAt(s, max);
    var head, tail := s[..cut], s[cut..];
    SqueezeSplit(s, cut);
    StripSqueeze(tail);
    StripSqueeze(head);
    StripFromSpeech(head);
  }

  /** Cutting loses nothing but white space, and every piece fits and says something. */
  lemma {:induction false} PiecesKeepTheLine(s: string, max: int)
    requires 1 <= max && Trimmed(s)
    ensures Squeeze(Flat(Pieces(s, max))) == Squeeze(s)
    ensures forall p :: p in Pieces(s, max) ==> 0 < |p| <= max
    decreases |s|
  {
    if |s| <= max {
      if s != "" {
        assert Flat([s]) == s + Flat([s][1..]) == s;
        assert Pieces(s, max) == [s];
      }
    } else {
      var (head, tail) := Bite(s, max);
      BiteKeepsTheLine(s, max);
      PiecesKeepTheLine(tail, max);
      SqueezeConcat(head, Flat(Pieces(tail, max)));
      assert Pieces(s, max)[1..] == Pieces(tail, max);
    }
  }

  lemma {:induction false} Reassociate<T>(a: seq<T>, x: T, b: seq<T>)
    ensures (a + [x]) + b == a + ([x] + b)
  {
  }

  method SplitOversized(line: string, max: int) returns (parts: seq<string>)
    requires 1 <= max
    ensures parts == Split(line, max)
  {
    if |line| <= max {
      return [line];
    }
    parts := [];
    var remaining := line;
    while |remaining| > max
      invariant parts + Pieces(remaining, max) == Pieces(line, max)
      decreases |remaining|
    {
      var cut := LastSpace(remaining, max);
      if cut <= 0 {
        cut := max;
      }
      Reassociate(parts, Bite(remaining, max).0, Pieces(Bite(remaining, max).1, max));
      parts := parts + [Strip(remaining[..cut])];
      remaining := Strip(remaining[cut..]);
    }
    if remaining != "" {
      parts := parts + [remaining];
    }
  }
}
