/** Overlapping ranges of a list, and what is left of them once each range gives up what it
    shares with the one before. */
module Overlaps {
  /** The items a range adds to those before position `seen`. */
  function Fresh<T>(items: seq<T>, range: (nat, nat), seen: nat): seq<T>
    requires range.1 <= |items|
  {
    var lo := if range.0 < seen then seen else range.0;
    if lo < range.1 then items[lo..range.1] else []
  }

  /** All ranges in a row, each without what it shares with the one before. */
  function Added<T>(items: seq<T>, ranges: seq<(nat, nat)>, seen: nat): seq<T>
    requires forall i :: 0 <= i < |ranges| ==> ranges[i].1 <= |items|
  {
    if ranges == [] then [] else Fresh(items, ranges[0], seen) + Added(items, ranges[1..], ranges[0].1)
  }

  lemma {:induction false} FreshThenRest<T>(items: seq<T>, range: (nat, nat), seen: nat)
    requires range.0 <= seen <= range.1 <= |items|
    ensures Fresh(items, range, seen) + items[range.1..] == items[seen..]
  {
  }

  /** A range that starts no later than `seen`, before ranges that add all that comes after it. */
  lemma {:induction false} AddedStep<T>(items: seq<T>, ranges: seq<(nat, nat)>, seen: nat)
    requires ranges != [] && (forall i :: 0 <= i < |ranges| ==> ranges[i].1 <= |items|)
    requires ranges[0].0 <= seen <= ranges[0].1
    requires Added(items, ranges[1..], ranges[0].1) == items[ranges[0].1..]
    ensures Added(items, ranges, seen) == items[seen..]
  {
    FreshThenRest(items, ranges[0], seen);
  }
}
