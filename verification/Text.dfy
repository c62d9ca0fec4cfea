/** White space as the packers see it. */
module Text {
  /** The characters `str.strip` and `str.split` take for white space. */
  predicate IsSpace(c: char) {
    var n := c as int;
    || 9 <= n <= 13 || 28 <= n <= 32 || n == 0x85 || n == 0xA0 || n == 0x1680
    || 0x2000 <= n <= 0x200A || n == 0x2028 || n == 0x2029 || n == 0x202F || n == 0x205F || n == 0x3000
  }

  function LStrip(s: string): (r: string)
    ensures |r| <= |s|
    ensures r != "" ==> !IsSpace(r[0])
  {
    if s != "" && IsSpace(s[0]) then LStrip(s[1..]) else s
  }

  function RStrip(s: string): (r: string)
    ensures r <= s
    ensures r != "" ==> !IsSpace(r[|r| - 1])
  {
    if s != "" && IsSpace(s[|s| - 1]) then RStrip(s[..|s| - 1]) else s
  }

  predicate Trimmed(s: string) {
    s != "" ==> !IsSpace(s[0]) && !IsSpace(s[|s| - 1])
  }

  /** `s.strip()`. */
  function Strip(s: string): (r: string)
    ensures |r| <= |s|
    ensures Trimmed(r)
  {
    RStrip(LStrip(s))
  }

  predicate Blank(s: string) {
    forall i :: 0 <= i < |s| ==> IsSpace(s[i])
  }

  /** The characters of `s` that are not white space, in order. */
  function Squeeze(s: string): string {
    if s == "" then "" else (if IsSpace(s[0]) then "" else [s[0]]) + Squeeze(s[1..])
  }

  lemma {:induction false} SqueezeConcat(s: string, t: string)
    ensures Squeeze(s + t) == Squeeze(s) + Squeeze(t)
  {
    if s == "" {
      assert s + t == t;
    } else {
      assert (s + t)[1..] == s[1..] + t;
      SqueezeConcat(s[1..], t);
    }
  }

  lemma {:induction false} SqueezeBlank(s: string)
    ensures Blank(s) <==> Squeeze(s) == ""
  {
    if s != "" {
      SqueezeBlank(s[1..]);
      assert Blank(s) <==> IsSpace(s[0]) && Blank(s[1..]) by {
        if IsSpace(s[0]) && Blank(s[1..]) {
          forall i | 0 <= i < |s| ensures IsSpace(s[i]) { if i > 0 { assert s[i] == s[1..][i - 1]; } }
        }
        if Blank(s) { forall i | 0 <= i < |s[1..]| ensures IsSpace(s[1..][i]) { assert s[1..][i] == s[i + 1]; } }
      }
    }
  }

  lemma {:induction false} LStripSqueeze(s: string)
    ensures Squeeze(LStrip(s)) == Squeeze(s)
  {
    if s != "" && IsSpace(s[0]) { LStripSqueeze(s[1..]); }
  }

  lemma {:induction false} RStripSqueeze(s: string)
    ensures Squeeze(RStrip(s)) == Squeeze(s)
  {
    if s != "" && IsSpace(s[|s| - 1]) {
      var n := |s| - 1;
      RStripSqueeze(s[..n]);
      assert s == s[..n] + [s[n]];
      SqueezeConcat(s[..n], [s[n]]);
    }
  }

  /** Stripping only ever removes white space. */
  lemma {:induction false} StripSqueeze(s: string)
    ensures Squeeze(Strip(s)) == Squeeze(s)
    ensures Strip(s) == "" <==> Blank(s)
  {
    LStripSqueeze(s);
    RStripSqueeze(LStrip(s));
    SqueezeBlank(s);
    SqueezeBlank(Strip(s));
  }

  lemma {:induction false} StripTrimmed(s: string)
    requires Trimmed(s)
    ensures Strip(s) == s
  {
  }

  /** `s` up to its first white space. */
  function FirstWord(s: string): (r: string)
    ensures r <= s && (s != "" && !IsSpace(s[0]) ==> r != "")
    ensures forall i :: 0 <= i < |r| ==> !IsSpace(r[i])
    ensures |r| < |s| ==> IsSpace(s[|r|])
  {
    if s == "" || IsSpace(s[0]) then "" else [s[0]] + FirstWord(s[1..])
  }

  /** `" ".join(s.split())`: the words of `s`, one space apart. */
  function OneSpaced(s: string): string
    decreases |s|
  {
    var t := LStrip(s);
    if t == "" then ""
    else
      var w := FirstWord(t);
      var rest := OneSpaced(t[|w|..]);
      if rest == "" then w else w + " " + rest
  }

  lemma {:induction false} SpaceLeavesNothing(w: string)
    ensures Squeeze(w + " ") == Squeeze(w)
  {
    SqueezeConcat(w, " ");
    SqueezeBlank(" ");
  }

  lemma {:induction false} JoinedSqueeze(w: string, rest: string)
    ensures Squeeze(w + " " + rest) == Squeeze(w) + Squeeze(rest)
  {
    SpaceLeavesNothing(w);
    SqueezeConcat(w + " ", rest);
  }

  lemma {:induction false} OneSpacedSqueeze(s: string)
    ensures Squeeze(OneSpaced(s)) == Squeeze(s)
    decreases |s|
  {
    LStripSqueeze(s);
    var t := LStrip(s);
    if t != "" {
      var w, tail := FirstWord(t), t[|FirstWord(t)|..];
      OneSpacedSqueeze(tail);
      assert t == w + tail;
      SqueezeConcat(w, tail);
      JoinedSqueeze(w, OneSpaced(tail));
      if OneSpaced(tail) == "" { assert Squeeze(tail) == ""; }
    }
  }

  /** The words of `s`: its stretches without white space. */
  function Words(s: string): seq<string>
    decreases |s|
  {
    var t := LStrip(s);
    if t == "" then [] else [FirstWord(t)] + Words(t[|FirstWord(t)|..])
  }

  /** Words one space apart, and nothing else. */
  function Spaced(words: seq<string>): string {
    if words == [] then "" else if |words| == 1 then words[0] else words[0] + " " + Spaced(words[1..])
  }

  lemma {:induction false} WordsSay(s: string)
    ensures forall w :: w in Words(s) ==> w != "" && forall i :: 0 <= i < |w| ==> !IsSpace(w[i])
    decreases |s|
  {
    var t := LStrip(s);
    if t != "" { WordsSay(t[|FirstWord(t)|..]); }
  }

  lemma {:induction false} SpacedSays(words: seq<string>)
    requires forall w :: w in words ==> w != ""
    ensures Spaced(words) == "" <==> words == []
  {
    if words != [] { assert words[0] in words; }
  }

  lemma {:induction false} SpacedIsTrimmed(words: seq<string>)
    requires forall w :: w in words ==> w != "" && forall i :: 0 <= i < |w| ==> !IsSpace(w[i])
    ensures Trimmed(Spaced(words)) && (words != [] ==> Spaced(words) != "")
  {
    if words != [] {
      assert words[0] in words;
      SpacedIsTrimmed(words[1..]);
    }
  }

  /** The text is the words of `s`, one space apart. */
  lemma {:induction false} OneSpacedIsSpaced(s: string)
    ensures OneSpaced(s) == Spaced(Words(s))
    decreases |s|
  {
    var t := LStrip(s);
    if t != "" {
      var rest := t[|FirstWord(t)|..];
      OneSpacedIsSpaced(rest);
      WordsSay(rest);
      SpacedSays(Words(rest));
      assert ([FirstWord(t)] + Words(rest))[1..] == Words(rest);
    }
  }
}
