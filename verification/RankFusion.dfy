/** Fusing the ranked lists of several search arms into one. Scores are reals; a key is the text
    form of an id, by which ties are broken. */
module RankFusion {
  type Key = string

  /** One arm's keys, best first; a key may come up more than once. */
  datatype Arm = Arm(name: string, keys: seq<Key>)

  // ----- the order of the result

  predicate LexLeq(a: Key, b: Key) {
    a == "" || (b != "" && (a[0] < b[0] || (a[0] == b[0] && LexLeq(a[1..], b[1..]))))
  }

  /** The order of texts: a prefix comes first, and otherwise the first difference decides. */
  lemma {:induction false} LexLeqIff(a: Key, b: Key)
    ensures LexLeq(a, b) <==> a <= b || exists i :: 0 <= i < |a| && i < |b| && a[..i] == b[..i] && a[i] < b[i]
  {
    if a != "" && b != "" && a[0] == b[0] {
      var s, t := a[1..], b[1..];
      LexLeqIff(s, t);
      assert a == [a[0]] + s && b == [b[0]] + t;
      if i :| 0 <= i < |s| && i < |t| && s[..i] == t[..i] && s[i] < t[i] {
        assert a[..i + 1] == [a[0]] + s[..i] && b[..i + 1] == [b[0]] + t[..i] && a[i + 1] < b[i + 1];
      }
      if i :| 0 <= i < |a| && i < |b| && a[..i] == b[..i] && a[i] < b[i] {
        assert i > 0 && s[..i - 1] == a[..i][1..] && t[..i - 1] == b[..i][1..] && s[i - 1] < t[i - 1];
      }
    } else if a != "" && b != "" && a[0] < b[0] {
      assert a[..0] == b[..0];
    }
  }

  lemma {:induction false} LexTotal(a: Key, b: Key)
    ensures LexLeq(a, b) || LexLeq(b, a)
  {
    if a != "" && b != "" && a[0] == b[0] { LexTotal(a[1..], b[1..]); }
  }

  lemma {:induction false} LexTransitive(a: Key, b: Key, c: Key)
    requires LexLeq(a, b) && LexLeq(b, c)
    ensures LexLeq(a, c)
  {
    if a != "" && a[0] == b[0] && b[0] == c[0] { LexTransitive(a[1..], b[1..], c[1..]); }
  }

  /** Higher scores first, equal scores by key. */
  predicate Before(p: (Key, real), q: (Key, real)) {
    p.1 > q.1 || (p.1 == q.1 && LexLeq(p.0, q.0))
  }

  predicate Sorted(s: seq<(Key, real)>) {
    forall i, j :: 0 <= i < j < |s| ==> Before(s[i], s[j])
  }

  function Insert(p: (Key, real), s: seq<(Key, real)>): seq<(Key, real)> {
    if s == [] || Before(p, s[0]) then [p] + s else [s[0]] + Insert(p, s[1..])
  }

  function SortItems(s: seq<(Key, real)>): seq<(Key, real)> {
    if s == [] then [] else Insert(s[0], SortItems(s[1..]))
  }

  lemma {:induction false} BeforeTransitive(p: (Key, real), q: (Key, real), r: (Key, real))
    requires Before(p, q) && Before(q, r)
    ensures Before(p, r)
  {
    if p.1 == q.1 == r.1 { LexTransitive(p.0, q.0, r.0); }
  }

  lemma {:induction false} SortedCons(p: (Key, real), s: seq<(Key, real)>)
    requires Sorted(s) && forall q :: q in s ==> Before(p, q)
    ensures Sorted([p] + s)
  {
    forall i, j | 0 <= i < j < |s| + 1 ensures Before(([p] + s)[i], ([p] + s)[j]) {
      if i == 0 { assert s[j - 1] in s; } else { assert Before(s[i - 1], s[j - 1]); }
    }
  }

  lemma {:induction false} InsertSorts(p: (Key, real), s: seq<(Key, real)>)
    requires Sorted(s)
    ensures Sorted(Insert(p, s)) && multiset(Insert(p, s)) == multiset{p} + multiset(s)
  {
    var r := Insert(p, s);
    if s != [] {
      assert s == [s[0]] + s[1..];
      if Before(p, s[0]) {
        forall q | q in s ensures Before(p, q) {
          if q != s[0] { BeforeTransitive(p, s[0], q); }
        }
        SortedCons(p, s);
      } else {
        LexTotal(p.0, s[0].0);
        var rest := Insert(p, s[1..]);
        InsertSorts(p, s[1..]);
        forall q | q in rest ensures Before(s[0], q) {
          assert q in multiset(rest);
          assert q == p || q in s[1..];
        }
        SortedCons(s[0], rest);
      }
    }
  }

  lemma {:induction false} SortItemsSorts(s: seq<(Key, real)>)
    ensures Sorted(SortItems(s)) && multiset(SortItems(s)) == multiset(s)
  {
    if s != [] {
      SortItemsSorts(s[1..]);
      InsertSorts(s[0], SortItems(s[1..]));
      assert s == [s[0]] + s[1..];
    }
  }

  // ----- the score

  /** The position of a key's first, and so best, appearance. */
  function First(keys: seq<Key>, key: Key): (i: nat)
    requires key in keys
    ensures i < |keys| && keys[i] == key && key !in keys[..i]
  {
    if keys[0] == key then 0 else 1 + First(keys[1..], key)
  }

  function Weight(weights: map<string, real>, arm: Arm): real {
    if arm.name in weights then weights[arm.name] else 1.0
  }

  predicate Ranks(arm: Arm, key: Key, weights: map<string, real>) {
    Weight(weights, arm) != 0.0 && key in arm.keys
  }

  /** What an arm gives a key it ranks: its weight over k plus the key's best 1-based rank. */
  function Share(arm: Arm, key: Key, k: nat, weights: map<string, real>): real {
    if Ranks(arm, key, weights) then Weight(weights, arm) / (k + First(arm.keys, key) + 1) as real else 0.0
  }

  function Score(arms: seq<Arm>, key: Key, k: nat, weights: map<string, real>): real {
    if arms == [] then 0.0
    else Score(arms[..|arms| - 1], key, k, weights) + Share(arms[|arms| - 1], key, k, weights)
  }

  predicate Ranked(arms: seq<Arm>, key: Key, weights: map<string, real>) {
    exists i :: 0 <= i < |arms| && Ranks(arms[i], key, weights)
  }

  /** Has the key come up in the arms before `a` or among the first `n` keys of arm `a`? */
  predicate Met(arms: seq<Arm>, a: nat, n: nat, weights: map<string, real>, key: Key)
    requires a < |arms| && n <= |arms[a].keys|
  {
    Ranked(arms[..a], key, weights) || (Weight(weights, arms[a]) != 0.0 && key in arms[a].keys[..n])
  }

  /** What it has scored so far. */
  function Tally(arms: seq<Arm>, a: nat, n: nat, k: nat, weights: map<string, real>, key: Key): real
    requires a < |arms| && n <= |arms[a].keys|
  {
    Score(arms[..a], key, k, weights) + if key in arms[a].keys[..n] then Share(arms[a], key, k, weights) else 0.0
  }

  predicate Distinct(s: seq<Key>) {
    forall i, j :: 0 <= i < j < |s| ==> s[i] != s[j]
  }

  ghost predicate Counted(arms: seq<Arm>, a: nat, n: nat, k: nat, weights: map<string, real>, scores: map<Key, real>, order: seq<Key>)
    requires a < |arms| && n <= |arms[a].keys|
  {
    && Distinct(order) && (forall key :: key in scores <==> key in order)
    && (forall key :: key in scores <==> Met(arms, a, n, weights, key))
    && (forall key :: key in scores ==> scores[key] == Tally(arms, a, n, k, weights, key))
  }

  /** The scores of the first `a` arms, with the keys in the order they first came up. */
  ghost predicate Fused(arms: seq<Arm>, a: nat, k: nat, weights: map<string, real>, scores: map<Key, real>, order: seq<Key>)
    requires a <= |arms|
  {
    && Distinct(order) && (forall key :: key in scores <==> key in order)
    && (forall key :: key in scores <==> Ranked(arms[..a], key, weights))
    && (forall key :: key in scores ==> scores[key] == Score(arms[..a], key, k, weights))
  }

  lemma {:induction false} RankedStep(arms: seq<Arm>, a: nat, key: Key, k: nat, weights: map<string, real>)
    requires a < |arms|
    ensures Ranked(arms[..a + 1], key, weights) <==> Ranked(arms[..a], key, weights) || Ranks(arms[a], key, weights)
    ensures Score(arms[..a + 1], key, k, weights) == Score(arms[..a], key, k, weights) + Share(arms[a], key, k, weights)
  {
    assert arms[..a + 1][..a] == arms[..a];
    if Ranked(arms[..a], key, weights) {
      var i :| 0 <= i < a && Ranks(arms[..a][i], key, weights);
      assert Ranks(arms[..a + 1][i], key, weights);
    }
    if Ranks(arms[a], key, weights) { assert arms[..a + 1][a] == arms[a]; }
  }

  lemma {:induction false} UnrankedScoresNothing(arms: seq<Arm>, key: Key, k: nat, weights: map<string, real>)
    requires !Ranked(arms, key, weights)
    ensures Score(arms, key, k, weights) == 0.0
  {
    if arms != [] {
      var n := |arms| - 1;
      assert arms[..n + 1] == arms;
      RankedStep(arms, n, key, k, weights);
      UnrankedScoresNothing(arms[..n], key, k, weights);
    }
  }

  lemma {:induction false} FirstIs(keys: seq<Key>, n: nat)
    requires n < |keys| && keys[n] !in keys[..n]
    ensures First(keys, keys[n]) == n
  {
    var f := First(keys, keys[n]);
    assert f <= n;
  }

  lemma {:induction false} PrefixStep(keys: seq<Key>, n: nat)
    requires n < |keys|
    ensures forall x :: x in keys[..n + 1] <==> x in keys[..n] || x == keys[n]
  {
    assert keys[..n + 1] == keys[..n] + [keys[n]];
  }

  /** A repeated key changes nothing. */
  lemma {:induction false} RepeatCounts(arms: seq<Arm>, a: nat, n: nat, k: nat, weights: map<string, real>, scores: map<Key, real>, order: seq<Key>)
    requires a < |arms| && n < |arms[a].keys| && Counted(arms, a, n, k, weights, scores, order)
    requires arms[a].keys[n] in arms[a].keys[..n]
    ensures Counted(arms, a, n + 1, k, weights, scores, order)
  {
    PrefixStep(arms[a].keys, n);
  }

  lemma {:induction false} Appended(order: seq<Key>, key: Key)
    requires Distinct(order) && key !in order
    ensures Distinct(order + [key]) && forall x :: x in order + [key] <==> x in order || x == key
  {
  }

  lemma {:induction false} OthersKeepTheirTally(arms: seq<Arm>, a: nat, n: nat, k: nat, weights: map<string, real>, x: Key)
    requires a < |arms| && n < |arms[a].keys| && x != arms[a].keys[n]
    ensures Met(arms, a, n + 1, weights, x) == Met(arms, a, n, weights, x)
    ensures Tally(arms, a, n + 1, k, weights, x) == Tally(arms, a, n, k, weights, x)
  {
    PrefixStep(arms[a].keys, n);
  }

  lemma {:induction false} NewShare(arms: seq<Arm>, a: nat, n: nat, k: nat, weights: map<string, real>, scores: map<Key, real>)
    requires a < |arms| && n < |arms[a].keys| && Weight(weights, arms[a]) != 0.0 && arms[a].keys[n] !in arms[a].keys[..n]
    requires var key := arms[a].keys[n];
             && (key in scores <==> Ranked(arms[..a], key, weights))
             && (key in scores ==> scores[key] == Score(arms[..a], key, k, weights))
    ensures var key := arms[a].keys[n];
            (if key in scores then scores[key] else 0.0) + Weight(weights, arms[a]) / (k + n + 1) as real
            == Score(arms[..a], key, k, weights) + Share(arms[a], key, k, weights)
  {
    FirstIs(arms[a].keys, n);
    if arms[a].keys[n] !in scores { UnrankedScoresNothing(arms[..a], arms[a].keys[n], k, weights); }
  }

  lemma {:induction false} NewTally(arms: seq<Arm>, a: nat, n: nat, k: nat, weights: map<string, real>)
    requires a < |arms| && n < |arms[a].keys| && Weight(weights, arms[a]) != 0.0
    ensures var key := arms[a].keys[n];
            && Met(arms, a, n + 1, weights, key)
            && Tally(arms, a, n + 1, k, weights, key) == Score(arms[..a], key, k, weights) + Share(arms[a], key, k, weights)
  {
    PrefixStep(arms[a].keys, n);
  }

  /** A key met for the first time in this arm takes the arm's share for its rank. */
  lemma {:induction false} NewKeyCounts(arms: seq<Arm>, a: nat, n: nat, k: nat, weights: map<string, real>, scores: map<Key, real>, order: seq<Key>,
                     scores': map<Key, real>, order': seq<Key>)
    requires a < |arms| && n < |arms[a].keys| && Counted(arms, a, n, k, weights, scores, order)
    requires Weight(weights, arms[a]) != 0.0 && arms[a].keys[n] !in arms[a].keys[..n]
    requires var key := arms[a].keys[n];
             && scores' == scores[key := Tally(arms, a, n + 1, k, weights, key)]
             && Met(arms, a, n + 1, weights, key)
             && order' == if key in scores then order else order + [key]
    ensures Counted(arms, a, n + 1, k, weights, scores', order')
  {
    var key := arms[a].keys[n];
    if key !in scores { Appended(order, key); }
    forall x ensures x in scores' <==> Met(arms, a, n + 1, weights, x)
             ensures x in scores' ==> scores'[x] == Tally(arms, a, n + 1, k, weights, x)
    {
      if x != key { OthersKeepTheirTally(arms, a, n, k, weights, x); }
    }
  }

  lemma {:induction false} ArmIsCounted(arms: seq<Arm>, a: nat, k: nat, weights: map<string, real>, scores: map<Key, real>, order: seq<Key>)
    requires a < |arms| && Weight(weights, arms[a]) != 0.0
    requires Counted(arms, a, |arms[a].keys|, k, weights, scores, order)
    ensures Fused(arms, a + 1, k, weights, scores, order)
  {
    assert arms[a].keys[..|arms[a].keys|] == arms[a].keys;
    forall key ensures Ranked(arms[..a + 1], key, weights) <==> Ranked(arms[..a], key, weights) || Ranks(arms[a], key, weights)
               ensures Score(arms[..a + 1], key, k, weights) == Score(arms[..a], key, k, weights) + Share(arms[a], key, k, weights)
    {
      RankedStep(arms, a, key, k, weights);
    }
  }

  lemma {:induction false} SilentArm(arms: seq<Arm>, a: nat, k: nat, weights: map<string, real>, scores: map<Key, real>, order: seq<Key>)
    requires a < |arms| && Weight(weights, arms[a]) == 0.0 && Fused(arms, a, k, weights, scores, order)
    ensures Fused(arms, a + 1, k, weights, scores, order)
  {
    forall key ensures Ranked(arms[..a + 1], key, weights) <==> Ranked(arms[..a], key, weights)
               ensures Score(arms[..a + 1], key, k, weights) == Score(arms[..a], key, k, weights)
    {
      RankedStep(arms, a, key, k, weights);
    }
  }

  // ----- the loop

  lemma {:induction false} NothingCounted(arms: seq<Arm>, a: nat, k: nat, weights: map<string, real>, scores: map<Key, real>, order: seq<Key>)
    requires a < |arms| && Weight(weights, arms[a]) != 0.0 && Fused(arms, a, k, weights, scores, order)
    ensures Counted(arms, a, 0, k, weights, scores, order)
  {
    assert arms[a].keys[..0] == [];
  }

  /** One key of an arm, unless the arm's list had it before. */
  method CountKey(arms: seq<Arm>, a: nat, n: nat, k: nat, weights: map<string, real>, scores: map<Key, real>, order: seq<Key>, seen: set<Key>)
    returns (scores': map<Key, real>, order': seq<Key>)
    requires a < |arms| && n < |arms[a].keys| && Weight(weights, arms[a]) != 0.0
    requires Counted(arms, a, n, k, weights, scores, order) && (forall key :: key in seen <==> key in arms[a].keys[..n])
    ensures Counted(arms, a, n + 1, k, weights, scores', order')
  {
    scores', order' := scores, order;
    var key := arms[a].keys[n];
    if key in seen {
      RepeatCounts(arms, a, n, k, weights, scores, order);
      return;
    }
    if key !in scores {
      order' := order + [key];
    }
    var before := if key in scores then scores[key] else 0.0;
    scores' := scores[key := before + Weight(weights, arms[a]) / (k + n + 1) as real];
    NewShare(arms, a, n, k, weights, scores);
    NewTally(arms, a, n, k, weights);
    NewKeyCounts(arms, a, n, k, weights, scores, order, scores', order');
  }

  method CountArm(arms: seq<Arm>, a: nat, k: nat, weights: map<string, real>, scores: map<Key, real>, order: seq<Key>)
    returns (scores': map<Key, real>, order': seq<Key>)
    requires a < |arms| && Weight(weights, arms[a]) != 0.0 && Fused(arms, a, k, weights, scores, order)
    ensures Fused(arms, a + 1, k, weights, scores', order')
  {
    NothingCounted(arms, a, k, weights, scores, order);
    scores', order' := scores, order;
    var seen: set<Key> := {};
    for n := 0 to |arms[a].keys|
      invariant Counted(arms, a, n, k, weights, scores', order')
      invariant forall key :: key in seen <==> key in arms[a].keys[..n]
    {
      scores', order' := CountKey(arms, a, n, k, weights, scores', order', seen);
      PrefixStep(arms[a].keys, n);
      seen := seen + {arms[a].keys[n]};
    }
    ArmIsCounted(arms, a, k, weights, scores', order');
  }

  function Items(scores: map<Key, real>, order: seq<Key>): (r: seq<(Key, real)>)
    requires forall key :: key in order ==> key in scores
    ensures |r| == |order| && forall i :: 0 <= i < |r| ==> r[i] == (order[i], scores[order[i]])
  {
    seq(|order|, i requires 0 <= i < |order| => (order[i], scores[order[i]]))
  }

  lemma {:induction false} OnceInDistinct(s: seq<(Key, real)>, i: nat)
    requires i < |s| && forall x, y :: 0 <= x < y < |s| ==> s[x].0 != s[y].0
    ensures multiset(s)[s[i]] == 1
  {
    assert s == [s[0]] + s[1..];
    if i > 0 {
      OnceInDistinct(s[1..], i - 1);
    } else {
      assert s[0] !in s[1..];
    }
  }

  lemma {:induction false} ItemsOnce(arms: seq<Arm>, k: nat, weights: map<string, real>, scores: map<Key, real>, order: seq<Key>)
    requires arms[..|arms|] == arms && Fused(arms, |arms|, k, weights, scores, order)
    ensures forall p :: p in Items(scores, order) ==> Ranked(arms, p.0, weights) && p.1 == Score(arms, p.0, k, weights)
    ensures forall key :: Ranked(arms, key, weights) ==> multiset(Items(scores, order))[(key, Score(arms, key, k, weights))] == 1
  {
    var items := Items(scores, order);
    forall key | Ranked(arms, key, weights) ensures multiset(items)[(key, Score(arms, key, k, weights))] == 1 {
      var i :| 0 <= i < |order| && order[i] == key;
      OnceInDistinct(items, i);
      assert items[i] == (key, Score(arms, key, k, weights));
    }
  }

  /** Reciprocal rank fusion: every key that an arm of non-zero weight ranks comes up exactly
      once, with the sum of the arms' shares for its best rank in each, best score first. */
  method ReciprocalRankFusion(arms: seq<Arm>, k: nat, weights: map<string, real>) returns (fused: seq<(Key, real)>)
    ensures forall i, j :: 0 <= i < j < |fused| ==>
              fused[i].1 > fused[j].1 || (fused[i].1 == fused[j].1 && LexLeq(fused[i].0, fused[j].0))
    ensures forall key :: Ranked(arms, key, weights) ==> multiset(fused)[(key, Score(arms, key, k, weights))] == 1
    ensures forall p :: p in fused ==> Ranked(arms, p.0, weights) && p.1 == Score(arms, p.0, k, weights)
  {
    var scores: map<Key, real>, order: seq<Key> := map[], [];
    for a := 0 to |arms|
      invariant Fused(arms, a, k, weights, scores, order)
    {
      if Weight(weights, arms[a]) == 0.0 {
        SilentArm(arms, a, k, weights, scores, order);
        continue;
      }
      scores, order := CountArm(arms, a, k, weights, scores, order);
    }
    assert arms[..|arms|] == arms;
    fused := SortItems(Items(scores, order));
    ItemsOnce(arms, k, weights, scores, order);
    SortItemsSorts(Items(scores, order));
    forall p | p in fused ensures Ranked(arms, p.0, weights) && p.1 == Score(arms, p.0, k, weights) {
      assert p in multiset(fused);
      assert p in Items(scores, order);
    }
  }

  // ----- what the score means

  /** An arm whose weight is set to 0 ranks nothing; one whose weight is not set weighs 1. */
  lemma {:induction false} ShareOfRank(arm: Arm, key: Key, k: nat, weights: map<string, real>, i: nat)
    requires i < |arm.keys| && arm.keys[i] == key && key !in arm.keys[..i]
    ensures Ranks(arm, key, weights) <==> !(arm.name in weights && weights[arm.name] == 0.0)
    ensures var w := if arm.name in weights then weights[arm.name] else 1.0;
            Share(arm, key, k, weights) == w / (k + i + 1) as real
  {
    FirstIs(arm.keys, i);
  }

  lemma {:induction false} NotNegative(w: real, a: int)
    requires w >= 0.0 && a > 0
    ensures w / a as real >= 0.0
  {
  }

  lemma {:induction false} SmallerDenominator(w: real, a: int, b: int)
    requires w >= 0.0 && 0 < a <= b
    ensures w / a as real >= w / b as real
  {
    var x, y := w / a as real, w / b as real;
    assert x * a as real == w && y * b as real == w;
    NotNegative(w, b);
    assert (x - y) * a as real == y * (b - a) as real;
  }

  lemma {:induction false} BetterShare(arm: Arm, k: nat, weights: map<string, real>, better: Key, worse: Key)
    requires Weight(weights, arm) >= 0.0
    requires Ranks(arm, worse, weights) ==> better in arm.keys && First(arm.keys, better) <= First(arm.keys, worse)
    ensures Share(arm, better, k, weights) >= Share(arm, worse, k, weights)
  {
    var w := Weight(weights, arm);
    if Ranks(arm, worse, weights) {
      SmallerDenominator(w, k + First(arm.keys, better) + 1, k + First(arm.keys, worse) + 1);
    } else if Ranks(arm, better, weights) {
      NotNegative(w, k + First(arm.keys, better) + 1);
    }
  }

  /** With weights that are not negative, a key ranked at least as well as another in every arm
      that ranks the other never scores less. */
  lemma {:induction false} BetterRanksNeverScoreLess(arms: seq<Arm>, k: nat, weights: map<string, real>, better: Key, worse: Key)
    requires forall i :: 0 <= i < |arms| ==> Weight(weights, arms[i]) >= 0.0
    requires forall i :: 0 <= i < |arms| && Ranks(arms[i], worse, weights) ==>
               better in arms[i].keys && First(arms[i].keys, better) <= First(arms[i].keys, worse)
    ensures Score(arms, better, k, weights) >= Score(arms, worse, k, weights)
  {
    if arms != [] {
      var n := |arms| - 1;
      BetterRanksNeverScoreLess(arms[..n], k, weights, better, worse);
      BetterShare(arms[n], k, weights, better, worse);
    }
  }
}
