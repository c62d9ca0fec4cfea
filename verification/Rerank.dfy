/** Re-ordering search hits by a reranker's reply, which may be anything. */
module Rerank {
  import opened Results

  datatype Hit = Hit(segment: int, recording: int, score: real, snippet: string, reranked: bool)

  datatype ReplyEntry = Malformed | Scored(index: int, score: real)

  /** `Refused` is a failed call or a failure envelope, `NoList` an envelope without a result list. */
  datatype Reply = Refused | NoList | Listed(entries: seq<ReplyEntry>)

  datatype Settings = Settings(enabled: bool, topK: int, failOpen: bool)
  datatype Unusable = BadReply
  datatype Unavailable = SearchUnavailable

  // ----- which replies are usable

  /** Every entry is well formed, in range, and names a document of its own. */
  predicate Usable(reply: Reply, docs: nat) {
    && reply.Listed?
    && (forall i :: 0 <= i < |reply.entries| ==> reply.entries[i].Scored? && 0 <= reply.entries[i].index < docs)
    && (forall i, j :: 0 <= i < j < |reply.entries| ==> reply.entries[i].index != reply.entries[j].index)
  }

  method RerankOrder(reply: Reply, docs: nat) returns (r: Result<seq<(nat, real)>, Unusable>)
    ensures r.Ok? <==> Usable(reply, docs)
    ensures r.Ok? <==> && reply.Listed? && (forall e :: e in reply.entries ==> e.Scored? && 0 <= e.index < docs)
                       && forall i, j :: 0 <= i < j < |reply.entries| ==> reply.entries[i].index != reply.entries[j].index
    ensures r.Ok? ==> |r.value| == |reply.entries|
                      && forall i :: 0 <= i < |r.value| ==> r.value[i] == (reply.entries[i].index, reply.entries[i].score)
  {
    if !reply.Listed? {
      return Err(BadReply);
    }
    var order: seq<(nat, real)>, seen: set<int> := [], {};
    for n := 0 to |reply.entries|
      invariant |order| == n
      invariant forall i :: 0 <= i < n ==> reply.entries[i].Scored? && 0 <= reply.entries[i].index < docs
      invariant forall i :: 0 <= i < n ==> order[i] == (reply.entries[i].index, reply.entries[i].score)
      invariant forall i, j :: 0 <= i < j < n ==> reply.entries[i].index != reply.entries[j].index
      invariant forall i :: 0 <= i < n ==> reply.entries[i].index in seen
      invariant forall x :: x in seen ==> exists i :: 0 <= i < n && reply.entries[i].index == x
    {
      var entry := reply.entries[n];
      if entry.Malformed? || !(0 <= entry.index < docs) || entry.index in seen {
        return Err(BadReply);
      }
      seen := seen + {entry.index};
      order := order + [(entry.index, entry.score)];
    }
    return Ok(order);
  }

  // ----- the new order

  predicate Picks(order: seq<(nat, real)>, docs: nat) {
    && (forall i :: 0 <= i < |order| ==> order[i].0 < docs)
    && (forall i, j :: 0 <= i < j < |order| ==> order[i].0 != order[j].0)
  }

  function Chosen(order: seq<(nat, real)>): set<nat> {
    set i | 0 <= i < |order| :: order[i].0
  }

  /** The hits the reply scored, in its order, with its scores. */
  function Rescored(head: seq<Hit>, order: seq<(nat, real)>): (r: seq<Hit>)
    requires Picks(order, |head|)
    ensures |r| == |order|
    ensures forall i :: 0 <= i < |r| ==> r[i] == head[order[i].0].(score := order[i].1, reranked := true)
  {
    seq(|order|, i requires 0 <= i < |order| => head[order[i].0].(score := order[i].1, reranked := true))
  }

  /** The hits it did not score, in their old order. */
  function Unscored(head: seq<Hit>, chosen: set<nat>): seq<Hit> {
    if head == [] then []
    else
      var n := |head| - 1;
      Unscored(head[..n], chosen) + if n in chosen then [] else [head[n]]
  }

  function Reordered(hits: seq<Hit>, top: nat, order: seq<(nat, real)>): seq<Hit>
    requires top <= |hits| && Picks(order, top)
  {
    Rescored(hits[..top], order) + Unscored(hits[..top], Chosen(order)) + hits[top..]
  }

  /** How many of the hits are re-ordered. */
  function Top(hits: seq<Hit>, cfg: Settings): (n: nat)
    ensures n <= |hits| && (hits != [] ==> n >= 1)
    ensures 1 <= cfg.topK <= |hits| ==> n == cfg.topK
    ensures cfg.topK > |hits| ==> n == |hits|
    ensures cfg.topK < 1 ==> n <= 1
  {
    var k := if cfg.topK < 1 then 1 else cfg.topK;
    if k < |hits| then k else |hits|
  }

  function OrderOf(reply: Reply, docs: nat): (r: seq<(nat, real)>)
    requires Usable(reply, docs)
    ensures |r| == |reply.entries| && forall i :: 0 <= i < |r| ==> r[i] == (reply.entries[i].index, reply.entries[i].score)
    ensures Picks(r, docs)
  {
    seq(|reply.entries|, i requires 0 <= i < |reply.entries| => (reply.entries[i].index, reply.entries[i].score))
  }

  /** With reranking off, or nothing to rank, the hits stay as they are; a usable reply re-orders
      their head; an unusable one leaves them as they are or fails the search. */
  method ApplyRerank(hits: seq<Hit>, cfg: Settings, reply: Reply) returns (r: Result<seq<Hit>, Unavailable>)
    ensures !cfg.enabled || hits == [] ==> r == Ok(hits)
    ensures cfg.enabled && hits != [] && Usable(reply, Top(hits, cfg)) ==>
              r == Ok(Reordered(hits, Top(hits, cfg), OrderOf(reply, Top(hits, cfg))))
    ensures cfg.enabled && hits != [] && !Usable(reply, Top(hits, cfg)) ==>
              r == if cfg.failOpen then Ok(hits) else Err(SearchUnavailable)
  {
    if !cfg.enabled || hits == [] {
      return Ok(hits);
    }
    var top := Top(hits, cfg);
    var head, tail := hits[..top], hits[top..];
    var order := RerankOrder(reply, top);
    if order.Err? {
      return if cfg.failOpen then Ok(hits) else Err(SearchUnavailable);
    }
    assert order.value == OrderOf(reply, top);
    var unscored := [];
    var chosen := Chosen(order.value);
    for i := 0 to top
      invariant unscored == Unscored(head[..i], chosen)
    {
      assert head[..i + 1][..i] == head[..i];
      if i !in chosen {
        unscored := unscored + [head[i]];
      }
    }
    assert head[..top] == head;
    return Ok(Rescored(head, order.value) + unscored + tail);
  }

  // ----- the places

  /** What is not scored keeps its order: `places` are the ascending positions of those hits. */
  lemma {:induction false} UnscoredKeepOrder(head: seq<Hit>, chosen: set<nat>) returns (places: seq<nat>)
    ensures |Unscored(head, chosen)| == |places|
    ensures forall i :: 0 <= i < |places| ==> places[i] < |head| && places[i] !in chosen && Unscored(head, chosen)[i] == head[places[i]]
    ensures forall i, j :: 0 <= i < j < |places| ==> places[i] < places[j]
    ensures forall p: nat :: p < |head| && p !in chosen ==> p in places
  {
    if head == [] {
      places := [];
    } else {
      var n := |head| - 1;
      places := UnscoredKeepOrder(head[..n], chosen);
      if n !in chosen { places := places + [n]; }
    }
  }

  /** First the hits the reply scored, in its order and with its scores, then the other ones of
      the head as they were, in their old order, then the tail. */
  lemma {:induction false} RerankPlaces(hits: seq<Hit>, top: nat, order: seq<(nat, real)>) returns (places: seq<nat>)
    requires top <= |hits| && Picks(order, top)
    ensures var r := Reordered(hits, top, order);
            && |order| + |places| <= |r| && r[|order| + |places|..] == hits[top..]
            && (forall i :: 0 <= i < |order| ==> r[i] == hits[order[i].0].(score := order[i].1, reranked := true))
            && (forall i :: 0 <= i < |places| ==> places[i] < top && r[|order| + i] == hits[places[i]])
    ensures forall i, j :: 0 <= i < j < |places| ==> places[i] < places[j]
    ensures forall p: nat :: p < top ==> (p in places <==> forall i :: 0 <= i < |order| ==> order[i].0 != p)
  {
    places := UnscoredKeepOrder(hits[..top], Chosen(order));
    forall p: nat | p < top && p in places ensures forall i :: 0 <= i < |order| ==> order[i].0 != p {
      assert p !in Chosen(order);
    }
  }

  // ----- nothing is gained or lost

  /** A hit apart from what reranking may change. */
  function Plain(h: Hit): Hit {
    h.(score := 0.0, reranked := false)
  }

  function Is(h: Hit, p: Hit): nat {
    if Plain(h) == Plain(p) then 1 else 0
  }

  /** How often a hit occurs, whatever its score. */
  function Copies(hits: seq<Hit>, p: Hit): nat {
    if hits == [] then 0 else Copies(hits[..|hits| - 1], p) + Is(hits[|hits| - 1], p)
  }

  lemma {:induction false} CopiesConcat(a: seq<Hit>, b: seq<Hit>, p: Hit)
    ensures Copies(a + b, p) == Copies(a, p) + Copies(b, p)
    decreases |b|
  {
    if b == [] {
      assert a + b == a;
    } else {
      var n := |b| - 1;
      assert (a + b)[..|a + b| - 1] == a + b[..n];
      CopiesConcat(a, b[..n], p);
    }
  }

  lemma {:induction false} UnscoredStep(head: seq<Hit>, chosen: set<nat>, p: Hit)
    requires head != []
    ensures var n := |head| - 1;
            Copies(Unscored(head, chosen), p) == Copies(Unscored(head[..n], chosen), p) + if n in chosen then 0 else Is(head[n], p)
  {
    var n := |head| - 1;
    if n !in chosen {
      CopiesConcat(Unscored(head[..n], chosen), [head[n]], p);
      assert [head[n]][..0] == [];
    } else {
      assert Unscored(head[..n], chosen) + [] == Unscored(head[..n], chosen);
    }
  }

  lemma {:induction false} SameBelow(head: seq<Hit>, a: set<nat>, b: set<nat>)
    requires forall i: nat :: i < |head| ==> (i in a <==> i in b)
    ensures Unscored(head, a) == Unscored(head, b)
  {
    if head != [] { SameBelow(head[..|head| - 1], a, b); }
  }

  lemma {:induction false} OneMoreChosen(head: seq<Hit>, chosen: set<nat>, more: set<nat>, x: nat, p: Hit)
    requires x < |head| && x !in chosen && forall i :: i in more <==> i in chosen || i == x
    ensures Copies(Unscored(head, chosen), p) == Copies(Unscored(head, more), p) + Is(head[x], p)
  {
    var n := |head| - 1;
    UnscoredStep(head, chosen, p);
    UnscoredStep(head, more, p);
    if x == n {
      SameBelow(head[..n], chosen, more);
    } else {
      OneMoreChosen(head[..n], chosen, more, x, p);
    }
  }

  lemma {:induction false} NothingChosen(head: seq<Hit>)
    ensures Unscored(head, {}) == head
  {
    if head != [] {
      NothingChosen(head[..|head| - 1]);
      assert head == head[..|head| - 1] + [head[|head| - 1]];
    }
  }

  lemma {:induction false} ChosenStep(order: seq<(nat, real)>)
    requires order != []
    ensures forall x :: x in Chosen(order) <==> x in Chosen(order[..|order| - 1]) || x == order[|order| - 1].0
  {
    var n := |order| - 1;
    forall x | x in Chosen(order) ensures x in Chosen(order[..n]) || x == order[n].0 {
      var i :| 0 <= i < |order| && order[i].0 == x;
      if i < n { assert order[..n][i].0 == x; }
    }
    forall x | x in Chosen(order[..n]) ensures x in Chosen(order) {
      var i :| 0 <= i < n && order[..n][i].0 == x;
      assert order[i].0 == x;
    }
  }

  lemma {:induction false} RescoredStep(head: seq<Hit>, order: seq<(nat, real)>, p: Hit)
    requires order != [] && Picks(order, |head|)
    ensures var n := |order| - 1;
            Copies(Rescored(head, order), p) == Copies(Rescored(head, order[..n]), p) + Is(head[order[n].0], p)
  {
    var n := |order| - 1;
    assert Rescored(head, order)[..n] == Rescored(head, order[..n]);
  }

  lemma {:induction false} NotYetChosen(order: seq<(nat, real)>)
    requires order != [] && forall i, j :: 0 <= i < j < |order| ==> order[i].0 != order[j].0
    ensures order[|order| - 1].0 !in Chosen(order[..|order| - 1])
  {
  }

  lemma {:induction false} ScoredAndUnscored(head: seq<Hit>, order: seq<(nat, real)>, p: Hit)
    requires Picks(order, |head|)
    ensures Copies(Rescored(head, order), p) + Copies(Unscored(head, Chosen(order)), p) == Copies(head, p)
    decreases |order|
  {
    if order == [] {
      NothingChosen(head);
      assert Chosen(order) == {};
    } else {
      var n := |order| - 1;
      ScoredAndUnscored(head, order[..n], p);
      ChosenStep(order);
      NotYetChosen(order);
      RescoredStep(head, order, p);
      OneMoreChosen(head, Chosen(order[..n]), Chosen(order), order[n].0, p);
    }
  }

  /** Whatever a usable reply says, the result holds the same hits, each exactly as often, apart
      from the scores it sets. */
  lemma {:induction false} RerankPermutes(hits: seq<Hit>, top: nat, order: seq<(nat, real)>, p: Hit)
    requires top <= |hits| && Picks(order, top)
    ensures Copies(Reordered(hits, top, order), p) == Copies(hits, p)
  {
    var head, tail := hits[..top], hits[top..];
    var scored, unscored := Rescored(head, order), Unscored(head, Chosen(order));
    ScoredAndUnscored(head, order, p);
    CopiesConcat(scored, unscored, p);
    CopiesConcat(scored + unscored, tail, p);
    CopiesConcat(head, tail, p);
    assert hits == head + tail;
  }
}
