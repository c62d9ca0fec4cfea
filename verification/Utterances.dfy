/** Grouping words into utterances when a transcript carries none. */
module Utterances {
  import opened Results
  import opened Text

  /** A missing start or end is 0.0, a missing text "". */
  datatype Word = Word(text: string, start: real, end: real, speaker: Option<string>)

  datatype Utterance = Utterance(text: string, start: real, end: real, speaker: Option<string>, indexes: seq<nat>)

  const GAP_SECONDS := 0.65
  const MAX_SECONDS := 30.0
  const MAX_CHARS := 500
  const MIN_SECONDS := 1.5
  const MIN_WORDS := 4
  const SENTENCE_ENDINGS: seq<char> := ['.', '?', '!', '\U{2026}', '\U{3002}', '\U{FF1F}', '\U{FF01}', '\U{FF0E}']

  predicate EndsSentence(text: string) {
    var t := RStrip(text);
    t != "" && t[|t| - 1] in SENTENCE_ENDINGS
  }

  lemma {:induction false} RStripRest(s: string)
    ensures Blank(s[|RStrip(s)|..])
  {
    if s != "" && IsSpace(s[|s| - 1]) {
      var n := |s| - 1;
      RStripRest(s[..n]);
      assert s[|RStrip(s)|..] == s[..n][|RStrip(s)|..] + [s[n]];
    }
  }

  /** The last character that is not white space ends a sentence. */
  lemma {:induction false} EndsSentenceIff(text: string)
    ensures EndsSentence(text)
        <==> exists k :: 0 <= k < |text| && text[k] in ".?!\U{2026}\U{3002}\U{FF1F}\U{FF01}\U{FF0E}" && !IsSpace(text[k]) && Blank(text[k + 1..])
  {
    var t := RStrip(text);
    RStripRest(text);
    forall k | 0 <= k < |t| - 1 ensures text[k] == t[k] && !Blank(text[k + 1..]) {
      assert text[k + 1..][|t| - 2 - k] == t[|t| - 1];
    }
    forall k | |t| <= k < |text| ensures IsSpace(text[k]) {
      assert text[|t|..][k - |t|] == text[k];
    }
  }

  /** The length words `a..b` count for: each with its separator. */
  function Chars(words: seq<Word>, a: nat, b: nat): nat
    requires a <= b <= |words|
    decreases b
  {
    if a == b then 0 else Chars(words, a, b - 1) + |words[b - 1].text| + 1
  }

  /** From the start of word `a` to the end of word `b - 1`. */
  function Span(words: seq<Word>, a: nat, b: nat): real
    requires a < b <= |words|
  {
    words[b - 1].end - words[a].start
  }

  /** Does word `i` open a new group after `a..i`? On a new speaker or a full group always; once
      the group is long enough, on a pause or after the end of a sentence. */
  predicate Cut(words: seq<Word>, a: nat, i: nat)
    requires a < i < |words|
  {
    || words[i].speaker != words[a].speaker
    || Span(words, a, i) >= MAX_SECONDS
    || Chars(words, a, i) >= MAX_CHARS
    || ((Span(words, a, i) >= MIN_SECONDS || i - a >= MIN_WORDS)
        && (words[i].start - words[i - 1].end >= GAP_SECONDS || EndsSentence(words[i - 1].text)))
  }

  /** Where the group that starts at word `a` ends. */
  function GroupEnd(words: seq<Word>, a: nat, from: nat := a + 1): (b: nat)
    requires a < from <= |words|
    ensures from <= b <= |words|
    ensures b == |words| || Cut(words, a, b)
    ensures forall i :: from <= i < b ==> !Cut(words, a, i)
    decreases |words| - from
  {
    if from == |words| || Cut(words, a, from) then from else GroupEnd(words, a, from + 1)
  }

  /** The groups from word `a` on. */
  function Groups(words: seq<Word>, a: nat): (r: seq<(nat, nat)>)
    requires a <= |words|
    ensures r != [] <==> a < |words|
    ensures forall g :: g in r ==> a <= g.0 < g.1 <= |words|
    decreases |words| - a
  {
    if a == |words| then [] else [(a, GroupEnd(words, a))] + Groups(words, GroupEnd(words, a))
  }

  function Spoken(words: seq<Word>, a: nat, b: nat): string
    requires a < b <= |words|
    decreases b
  {
    if b == a + 1 then words[a].text else Spoken(words, a, b - 1) + " " + words[b - 1].text
  }

  function Indexes(a: nat, b: nat): (r: seq<nat>)
    requires a <= b
    ensures |r| == b - a && forall i :: 0 <= i < b - a ==> r[i] == a + i
  {
    seq(b - a, i requires 0 <= i < b - a => a + i)
  }

  function MakeUtterance(words: seq<Word>, a: nat, b: nat): Utterance
    requires a < b <= |words|
  {
    Utterance(Strip(Spoken(words, a, b)), words[a].start, words[b - 1].end, words[a].speaker, Indexes(a, b))
  }

  /** The utterance made of words `a..b`, unless they are all blank. */
  function Made(words: seq<Word>, a: nat, b: nat): seq<Utterance>
    requires a < b <= |words|
  {
    if Strip(Spoken(words, a, b)) == "" then [] else [MakeUtterance(words, a, b)]
  }

  /** The groups that say something, as utterances. */
  function Kept(words: seq<Word>, a: nat): seq<Utterance>
    requires a <= |words|
    decreases |words| - a
  {
    if a == |words| then []
    else
      var b := GroupEnd(words, a);
      Made(words, a, b) + Kept(words, b)
  }

  // ----- what the groups guarantee

  /** Is there a break before word `i`: a pause, or the end of a sentence? */
  predicate Breaks(words: seq<Word>, i: nat)
    requires 0 < i < |words|
  {
    words[i].start - words[i - 1].end >= 0.65 || EndsSentence(words[i - 1].text)
  }

  /** Are words `a..i` enough to end at a break? */
  predicate LongEnough(words: seq<Word>, a: nat, i: nat)
    requires a < i <= |words|
  {
    words[i - 1].end - words[a].start >= 1.5 || i - a >= 4
  }

  /** 30 seconds, or 500 characters counting one after each word. */
  predicate AtCeiling(words: seq<Word>, a: nat, i: nat)
    requires a < i <= |words|
  {
    words[i - 1].end - words[a].start >= 30.0 || |Spoken(words, a, i)| + 1 >= 500
  }

  /** One speaker; until its last word arrives, a group stays under both ceilings and is not at a
      break it is long enough for; and it ends for one of these reasons only. */
  ghost predicate GroupRule(words: seq<Word>, a: nat, b: nat)
    requires a < b <= |words|
  {
    && (forall i :: a <= i < b ==> words[i].speaker == words[a].speaker)
    && (forall i :: a < i < b ==> !AtCeiling(words, a, i) && !(LongEnough(words, a, i) && Breaks(words, i)))
    && (b < |words| ==> || words[b].speaker != words[a].speaker || AtCeiling(words, a, b)
                        || (LongEnough(words, a, b) && Breaks(words, b)))
  }

  lemma {:induction false} SpokenLength(words: seq<Word>, a: nat, b: nat)
    requires a < b <= |words|
    ensures |Spoken(words, a, b)| + 1 == Chars(words, a, b)
    decreases b
  {
    if b > a + 1 { SpokenLength(words, a, b - 1); } else { assert Chars(words, a, b) == Chars(words, a, a) + |words[a].text| + 1; }
  }

  lemma {:induction false} CutIff(words: seq<Word>, a: nat, i: nat)
    requires a < i < |words|
    ensures Cut(words, a, i) <==> || words[i].speaker != words[a].speaker || AtCeiling(words, a, i)
                                  || (LongEnough(words, a, i) && Breaks(words, i))
  {
    SpokenLength(words, a, i);
  }

  lemma {:induction false} GroupsKeepRule(words: seq<Word>, a: nat)
    requires a < |words|
    ensures GroupRule(words, a, GroupEnd(words, a))
  {
    var b := GroupEnd(words, a);
    forall i | a < i < b
      ensures words[i].speaker == words[a].speaker && !AtCeiling(words, a, i) && !(LongEnough(words, a, i) && Breaks(words, i))
    {
      CutIff(words, a, i);
    }
    if b < |words| { CutIff(words, a, b); }
  }

  /** The groups are consecutive runs of words, in order, covering every word once. */
  lemma {:induction false} GroupsPartition(words: seq<Word>, a: nat)
    requires a <= |words|
    ensures var g := Groups(words, a);
            && (g != [] ==> g[0].0 == a && g[|g| - 1].1 == |words|)
            && (forall i :: 0 < i < |g| ==> g[i - 1].1 == g[i].0)
            && (forall i :: 0 <= i < |g| ==> GroupRule(words, g[i].0, g[i].1))
    decreases |words| - a
  {
    if a < |words| {
      var b, g := GroupEnd(words, a), Groups(words, a);
      GroupsKeepRule(words, a);
      GroupsPartition(words, b);
      var rest := Groups(words, b);
      assert g[1..] == rest && forall i :: 0 < i < |g| ==> g[i] == rest[i - 1];
      if rest != [] { assert g[|g| - 1] == rest[|rest| - 1]; }
    }
  }

  predicate AllBlank(words: seq<Word>, a: nat, b: nat)
    requires a <= b <= |words|
  {
    forall i :: a <= i < b ==> Blank(words[i].text)
  }

  lemma {:induction false} AllBlankStep(words: seq<Word>, a: nat, b: nat)
    requires a < b <= |words|
    ensures AllBlank(words, a, b) <==> AllBlank(words, a, b - 1) && Blank(words[b - 1].text)
  {
  }

  lemma {:induction false} SpokenIsBlank(words: seq<Word>, a: nat, b: nat)
    requires a < b <= |words|
    ensures Squeeze(Spoken(words, a, b)) == "" <==> AllBlank(words, a, b)
    decreases b
  {
    SqueezeBlank(words[b - 1].text);
    AllBlankStep(words, a, b);
    if b > a + 1 {
      SpokenIsBlank(words, a, b - 1);
      JoinedSqueeze(Spoken(words, a, b - 1), words[b - 1].text);
    }
  }

  /** A group is dropped exactly when every word of it is blank. */
  lemma {:induction false} DroppedIff(words: seq<Word>, a: nat, b: nat)
    requires a < b <= |words|
    ensures Strip(Spoken(words, a, b)) == "" <==> forall i :: a <= i < b ==> Blank(words[i].text)
  {
    SpokenIsBlank(words, a, b);
    StripSqueeze(Spoken(words, a, b));
    SqueezeBlank(Spoken(words, a, b));
  }

  /** Words `a..b` one after the other, without white space. */
  function Said(words: seq<Word>, a: nat, b: nat): string
    requires a <= b <= |words|
    decreases b - a
  {
    if a == b then "" else Squeeze(words[a].text) + Said(words, a + 1, b)
  }

  lemma {:induction false} SaidParts(words: seq<Word>, a: nat, m: nat, b: nat)
    requires a <= m <= b <= |words|
    ensures Said(words, a, b) == Said(words, a, m) + Said(words, m, b)
    decreases m - a
  {
    if a < m { SaidParts(words, a + 1, m, b); }
  }

  lemma {:induction false} SpokenSaid(words: seq<Word>, a: nat, b: nat)
    requires a < b <= |words|
    ensures Squeeze(Spoken(words, a, b)) == Said(words, a, b)
    decreases b
  {
    assert Said(words, b - 1, b) == Squeeze(words[b - 1].text) + Said(words, b, b);
    SaidParts(words, a, b - 1, b);
    if b > a + 1 {
      SpokenSaid(words, a, b - 1);
      JoinedSqueeze(Spoken(words, a, b - 1), words[b - 1].text);
    }
  }

  function TextsOf(us: seq<Utterance>): string {
    if us == [] then "" else us[0].text + TextsOf(us[1..])
  }

  lemma {:induction false} TextsOfCons(u: Utterance, us: seq<Utterance>)
    ensures TextsOf([u] + us) == u.text + TextsOf(us)
  {
    assert ([u] + us)[1..] == us;
  }

  lemma {:induction false} MadeSays(words: seq<Word>, a: nat, b: nat, rest: seq<Utterance>)
    requires a < b <= |words|
    ensures Squeeze(TextsOf(Made(words, a, b) + rest)) == Said(words, a, b) + Squeeze(TextsOf(rest))
  {
    var text := Strip(Spoken(words, a, b));
    StripSqueeze(Spoken(words, a, b));
    SpokenSaid(words, a, b);
    if text == "" {
      assert [] + rest == rest;
    } else {
      TextsOfCons(MakeUtterance(words, a, b), rest);
      SqueezeConcat(text, TextsOf(rest));
    }
  }

  /** The texts of the utterances are the texts of all words, in order, white space aside. */
  lemma {:induction false} UtterancesSayEveryWord(words: seq<Word>, a: nat)
    requires a <= |words|
    ensures Squeeze(TextsOf(Kept(words, a))) == Said(words, a, |words|)
    decreases |words| - a
  {
    if a < |words| {
      var b := GroupEnd(words, a);
      UtterancesSayEveryWord(words, b);
      MadeSays(words, a, b, Kept(words, b));
      SaidParts(words, a, b, |words|);
    }
  }

  /** Within an utterance the words are one space apart: word `i` stands where those before it end. */
  lemma {:induction false} WordStands(words: seq<Word>, a: nat, i: nat, b: nat)
    requires a <= i < b <= |words|
    ensures var text, at := Spoken(words, a, b), Chars(words, a, i);
            && at + |words[i].text| <= |text| && text[at..at + |words[i].text|] == words[i].text
            && (a < i ==> at > 0 && text[at - 1] == ' ')
    decreases b
  {
    SpokenLength(words, a, b);
    if i > a { SpokenLength(words, a, i); }
    if i < b - 1 { WordStands(words, a, i, b - 1); }
  }

  /** How many utterances hold word `i`. */
  function Holding(us: seq<Utterance>, i: nat): nat {
    if us == [] then 0 else (if i in us[0].indexes then 1 else 0) + Holding(us[1..], i)
  }

  lemma {:induction false} HoldingConcat(us: seq<Utterance>, vs: seq<Utterance>, i: nat)
    ensures Holding(us + vs, i) == Holding(us, i) + Holding(vs, i)
  {
    if us == [] {
      assert us + vs == vs;
    } else {
      assert (us + vs)[1..] == us[1..] + vs;
      HoldingConcat(us[1..], vs, i);
    }
  }

  /** Every word that says something is in exactly one utterance; no word is in two. */
  lemma {:induction false} EveryWordOnce(words: seq<Word>, a: nat, i: nat)
    requires a <= |words|
    ensures Holding(Kept(words, a), i) <= 1
    ensures i < a || i >= |words| ==> Holding(Kept(words, a), i) == 0
    ensures a <= i < |words| && !Blank(words[i].text) ==> Holding(Kept(words, a), i) == 1
    decreases |words| - a
  {
    if a < |words| {
      var b := GroupEnd(words, a);
      var first := Made(words, a, b);
      EveryWordOnce(words, b, i);
      DroppedIff(words, a, b);
      HoldingConcat(first, Kept(words, b), i);
      if first != [] {
        assert first[1..] == [];
        assert i in Indexes(a, b) <==> a <= i < b by { if a <= i < b { assert Indexes(a, b)[i - a] == i; } }
      }
    }
  }

  /** An utterance is a run of consecutive words of one speaker, from the first one's start to
      the last one's end, that kept the group rule and says something. */
  ghost predicate IsRun(words: seq<Word>, u: Utterance) {
    && u.indexes != [] && u.text != "" && u.indexes[0] + |u.indexes| <= |words|
    && var a, b := u.indexes[0], u.indexes[0] + |u.indexes|;
    && GroupRule(words, a, b)
    && (forall k :: 0 <= k < |u.indexes| ==> u.indexes[k] == a + k)
    && u.text == Strip(Spoken(words, a, b)) && u.start == words[a].start && u.end == words[b - 1].end && u.speaker == words[a].speaker
  }

  predicate Precedes(u: Utterance, v: Utterance) {
    u.indexes != [] && v.indexes != [] && u.indexes[|u.indexes| - 1] < v.indexes[0]
  }

  /** Runs in the order of their words, from word `a` on. */
  ghost predicate AreRuns(words: seq<Word>, us: seq<Utterance>, a: nat) {
    && (forall i :: 0 <= i < |us| ==> IsRun(words, us[i]) && a <= us[i].indexes[0])
    && (forall i :: 0 < i < |us| ==> Precedes(us[i - 1], us[i]))
  }

  lemma {:induction false} OneMoreRun(words: seq<Word>, u: Utterance, rest: seq<Utterance>, a: nat, b: nat)
    requires IsRun(words, u) && a <= u.indexes[0] && u.indexes[|u.indexes| - 1] < b && AreRuns(words, rest, b)
    ensures AreRuns(words, [u] + rest, a)
  {
    var us := [u] + rest;
    forall i | 0 < i < |us| ensures Precedes(us[i - 1], us[i]) {
      assert us[i] == rest[i - 1];
      if i > 1 { assert us[i - 1] == rest[i - 2]; }
    }
    forall i | 0 <= i < |us| ensures IsRun(words, us[i]) && a <= us[i].indexes[0] {
      if i > 0 { assert us[i] == rest[i - 1] && rest[i - 1].indexes[0] >= b; }
    }
  }

  lemma {:induction false} MadeIsRun(words: seq<Word>, a: nat)
    requires a < |words| && Strip(Spoken(words, a, GroupEnd(words, a))) != ""
    ensures var u := MakeUtterance(words, a, GroupEnd(words, a));
            IsRun(words, u) && u.indexes[0] == a && u.indexes[|u.indexes| - 1] < GroupEnd(words, a)
  {
    GroupsKeepRule(words, a);
  }

  /** The utterances are such runs, in the order of their words. */
  lemma {:induction false} UtterancesAreRuns(words: seq<Word>, a: nat)
    requires a <= |words|
    ensures AreRuns(words, Kept(words, a), a)
    decreases |words| - a
  {
    if a < |words| {
      var b := GroupEnd(words, a);
      UtterancesAreRuns(words, b);
      if Strip(Spoken(words, a, b)) != "" {
        MadeIsRun(words, a);
        OneMoreRun(words, MakeUtterance(words, a, b), Kept(words, b), a, b);
      }
    }
  }

  // ----- the loop

  lemma {:induction false} GroupEndIs(words: seq<Word>, a: nat, b: nat)
    requires a < b <= |words| && (b == |words| || Cut(words, a, b))
    requires forall i :: a < i < b ==> !Cut(words, a, i)
    ensures GroupEnd(words, a) == b
  {
  }

  /** The words gathered for the utterance under construction. */
  datatype Buffer = Buffer(text: string, count: nat, chars: nat, indexes: seq<nat>, start: real, end: real, speaker: Option<string>)

  ghost predicate Holds(words: seq<Word>, a: nat, b: nat, buf: Buffer) {
    && a < b <= |words|
    && buf == Buffer(Spoken(words, a, b), b - a, Chars(words, a, b), Indexes(a, b), words[a].start, words[b - 1].end, words[a].speaker)
  }

  method Flush(grouped: seq<Utterance>, buf: Buffer, ghost words: seq<Word>, ghost a: nat, ghost b: nat) returns (grouped': seq<Utterance>)
    requires Holds(words, a, b, buf) && b == GroupEnd(words, a)
    requires grouped + Kept(words, a) == Kept(words, 0)
    ensures grouped' + Kept(words, b) == Kept(words, 0)
  {
    var text := Strip(buf.text);
    if text == "" {
      return grouped;
    }
    grouped' := grouped + [Utterance(text, buf.start, buf.end, buf.speaker, buf.indexes)];
  }

  /** Does word `i` open a new group, as far as the buffer shows? */
  method Opens(words: seq<Word>, buf: Buffer, ghost a: nat, i: nat) returns (cut: bool)
    requires i < |words| && Holds(words, a, i, buf)
    ensures cut == Cut(words, a, i)
  {
    var span := buf.end - buf.start;
    cut := words[i].speaker != buf.speaker;
    if !cut && (span >= MAX_SECONDS || buf.chars >= MAX_CHARS) {
      cut := true;
    }
    if !cut && (span >= MIN_SECONDS || buf.count >= MIN_WORDS) {
      if words[i].start - words[i - 1].end >= GAP_SECONDS || EndsSentence(words[i - 1].text) {
        cut := true;
      }
    }
  }

  /** The first `i` words are taken: the groups before `a` are made, and the open one starts there. */
  ghost predicate Underway(words: seq<Word>, i: nat, grouped: seq<Utterance>, buf: Buffer, a: nat) {
    && Holds(words, a, i, buf) && grouped + Kept(words, a) == Kept(words, 0)
    && forall j :: a < j < i ==> !Cut(words, a, j)
  }

  method Open(words: seq<Word>, i: nat) returns (buf: Buffer)
    requires i < |words|
    ensures Holds(words, i, i + 1, buf)
  {
    var w := words[i];
    buf := Buffer(w.text, 1, |w.text| + 1, [i], w.start, w.end, w.speaker);
    assert Chars(words, i, i + 1) == Chars(words, i, i) + |w.text| + 1;
  }

  method NextGroup(words: seq<Word>, i: nat, grouped: seq<Utterance>, buf: Buffer, ghost a: nat)
    returns (grouped': seq<Utterance>, buf': Buffer)
    requires i < |words| && Underway(words, i, grouped, buf, a) && Cut(words, a, i)
    ensures Underway(words, i + 1, grouped', buf', i)
  {
    GroupEndIs(words, a, i);
    grouped' := Flush(grouped, buf, words, a, i);
    buf' := Open(words, i);
  }

  method Append(buf: Buffer, words: seq<Word>, ghost a: nat, i: nat) returns (buf': Buffer)
    requires i < |words| && Holds(words, a, i, buf)
    ensures Holds(words, a, i + 1, buf')
  {
    var w := words[i];
    buf' := buf.(text := buf.text + " " + w.text, count := buf.count + 1, chars := buf.chars + |w.text| + 1,
                 indexes := buf.indexes + [i], end := w.end);
    assert Indexes(a, i) + [i] == Indexes(a, i + 1);
  }

  method UtterancesFromWords(words: seq<Word>) returns (grouped: seq<Utterance>)
    ensures grouped == Kept(words, 0)
  {
    grouped := [];
    if words == [] {
      return;
    }
    var buf := Open(words, 0);
    ghost var a: nat := 0;
    for i := 1 to |words|
      invariant Underway(words, i, grouped, buf, a)
    {
      var cut := Opens(words, buf, a, i);
      if cut {
        grouped, buf := NextGroup(words, i, grouped, buf, a);
        a := i;
      } else {
        buf := Append(buf, words, a, i);
      }
    }
    GroupEndIs(words, a, |words|);
    grouped := Flush(grouped, buf, words, a, |words|);
    assert Kept(words, |words|) == [];
  }
}
