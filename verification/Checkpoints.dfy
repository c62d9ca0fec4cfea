/** When the result a stage left behind may still be reused. */
module Checkpoints {
  import opened Results
  import opened Recordings

  /** Must the stage recompute, given the fingerprint of its input right now? An unknown
      fingerprint on either side never makes a result stale; a declaration always does. */
  predicate Stale(c: Checks, name: Name, current: Option<Print>) {
    name in c.invalidated || (name in c.prints && current.Some? && c.prints[name] != current.value)
  }

  function RecordPrint(c: Checks, name: Name, fp: Option<Print>): Checks {
    c.(prints := if fp.Some? then c.prints[name := fp.value] else c.prints - {name})
  }

  /** The names of `s` that are not in `gone`, in order. */
  function Without(s: seq<Name>, gone: seq<Name>): (r: seq<Name>)
    ensures forall n :: n in r <==> n in s && n !in gone
  {
    if s == [] then [] else (if s[0] in gone then [] else [s[0]]) + Without(s[1..], gone)
  }

  /** `listed` followed by the names of `more` it does not hold yet. */
  function ListedAfter(listed: seq<Name>, more: seq<Name>): (r: seq<Name>)
    ensures forall n :: n in r <==> n in listed || n in more
    ensures listed <= r
    decreases more
  {
    if more == [] then listed
    else ListedAfter(if more[0] in listed then listed else listed + [more[0]], more[1..])
  }

  lemma {:induction false} ListedStep(listed: seq<Name>, names: seq<Name>, i: nat)
    requires i < |names|
    ensures ListedAfter(listed, names[i..])
         == ListedAfter(if names[i] in listed then listed else listed + [names[i]], names[i + 1..])
  {
    assert names[i..][1..] == names[i + 1..];
  }

  function DeclareInvalid(c: Checks, names: seq<Name>): (r: Checks)
    ensures forall n, now :: Stale(r, n, now) <==> Stale(c, n, now) || n in names
  {
    c.(invalidated := ListedAfter(c.invalidated, names))
  }

  function ClearInvalidation(c: Checks, name: Name): (r: Checks)
    ensures forall n, now :: n != name ==> (Stale(r, n, now) <==> Stale(c, n, now))
  {
    c.(invalidated := Without(c.invalidated, [name]))
  }

  /** A completion: what produced the artifact is recorded and the declaration that asked for
      the re-run is dropped. */
  function Renewed(c: Checks, name: Name, fp: Option<Print>): Checks {
    ClearInvalidation(RecordPrint(c, name, fp), name)
  }

  /** A result recorded under the fingerprint read before the stage ran is fresh for exactly
      that fingerprint and for an unknown one, and no other stage's validity moves. */
  lemma {:induction false} RenewedIsFresh(c: Checks, name: Name, fp: Option<Print>)
    ensures forall now :: Stale(Renewed(c, name, fp), name, now) <==> fp.Some? && now.Some? && fp != now
    ensures forall n, now :: n != name ==> (Stale(Renewed(c, name, fp), n, now) <==> Stale(c, n, now))
  {
    assert name !in Renewed(c, name, fp).invalidated;
  }

  lemma {:induction false} WithoutNothing(s: seq<Name>, gone: seq<Name>)
    requires forall n :: n in s ==> n !in gone
    ensures Without(s, gone) == s
  {
    if s != [] { WithoutNothing(s[1..], gone); }
  }

  lemma {:induction false} WithoutEverything(s: seq<Name>, gone: seq<Name>)
    requires forall n :: n in s ==> n in gone
    ensures Without(s, gone) == []
  {
    if s != [] { WithoutEverything(s[1..], gone); }
  }

  lemma {:induction false} WithoutConcat(s: seq<Name>, t: seq<Name>, gone: seq<Name>)
    ensures Without(s + t, gone) == Without(s, gone) + Without(t, gone)
  {
    if s == [] {
      assert s + t == t;
    } else {
      assert (s + t)[1..] == s[1..] + t;
      WithoutConcat(s[1..], t, gone);
    }
  }
}
