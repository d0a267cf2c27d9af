/** Reciprocal rank fusion of agents/rag_retrieval.py: several ranked result lists become one.

    Scores are exact reals.  Python's floats are binary fractions, so there two scores that
    are equal here can differ in the last place. */
module RankFusion {
  import opened Prelude

  /** A search result.  The same object may stand in several places. */
  class Poi {
    const id: string
    var rrfScore: real

    constructor (id: string)
      ensures this.id == id
    {
      this.id := id;
    }
  }

  const RRF_K: nat := 60

  /** What a place in a list is worth; ranks start at 1. */
  function Weight(rank: nat): (r: real)
  {
    1.0 / (RRF_K + rank) as real
  }

  // ----- what the lists say about an id -----

  function ListScore(list: seq<Poi>, id: string): (r: real)
  {
    if list == [] then 0.0
    else
      var n := |list|;
      ListScore(list[..n - 1], id) + if list[n - 1].id == id then Weight(n) else 0.0
  }

  function Score(lists: seq<seq<Poi>>, id: string): (r: real)
  {
    if lists == [] then 0.0
    else Score(lists[..|lists| - 1], id) + ListScore(lists[|lists| - 1], id)
  }

  /** `order` extended by the ids of `list` that it lacks, in the order of their first mention. */
  function SeenIn(order: seq<string>, list: seq<Poi>): (r: seq<string>)
  {
    if list == [] then order
    else
      var before, id := SeenIn(order, list[..|list| - 1]), list[|list| - 1].id;
      if id in before then before else before + [id]
  }

  function Seen(lists: seq<seq<Poi>>): (r: seq<string>)
  {
    if lists == [] then [] else SeenIn(Seen(lists[..|lists| - 1]), lists[|lists| - 1])
  }

  function LastIn(earlier: Option<Poi>, list: seq<Poi>, id: string): (r: Option<Poi>)
  {
    if list == [] then earlier
    else if list[|list| - 1].id == id then Some(list[|list| - 1])
    else LastIn(earlier, list[..|list| - 1], id)
  }

  /** The last mention of the id. */
  function Last(lists: seq<seq<Poi>>, id: string): (r: Option<Poi>)
  {
    if lists == [] then None else LastIn(Last(lists[..|lists| - 1], id), lists[|lists| - 1], id)
  }

  predicate Mentions(list: seq<Poi>, id: string)
  {
    exists p :: 0 <= p < |list| && list[p].id == id
  }

  lemma {:induction false} SeenInIs(order: seq<string>, list: seq<Poi>, id: string)
    ensures id in SeenIn(order, list) <==> id in order || Mentions(list, id)
    ensures Distinct(order) ==> Distinct(SeenIn(order, list))
  {
    if list != [] {
      var init := list[..|list| - 1];
      SeenInIs(order, init, id);
      assert Mentions(list, id) <==> Mentions(init, id) || list[|list| - 1].id == id by {
        if Mentions(init, id) {
          var p :| 0 <= p < |init| && init[p].id == id;
          assert list[p].id == id;
        }
      }
    }
  }

  /** An id is seen exactly if some list mentions it, and it is seen once. */
  lemma {:induction false} SeenIs(lists: seq<seq<Poi>>, id: string)
    ensures id in Seen(lists) <==> exists i :: 0 <= i < |lists| && Mentions(lists[i], id)
    ensures Distinct(Seen(lists))
  {
    if lists != [] {
      var init, last := lists[..|lists| - 1], lists[|lists| - 1];
      SeenIs(init, id);
      SeenInIs(Seen(init), last, id);
      if i :| 0 <= i < |init| && Mentions(init[i], id) {
        assert Mentions(lists[i], id);
      }
    }
  }

  // ----- the stable sort -----

  predicate Distinct(s: seq<string>)
  {
    forall i, j :: 0 <= i < j < |s| ==> s[i] != s[j]
  }

  function Place(s: seq<string>, x: string): (i: nat)
    ensures i <= |s| && (i < |s| <==> x in s)
    ensures i < |s| ==> s[i] == x
    ensures forall k :: 0 <= k < i ==> s[k] != x
  {
    if s == [] || s[0] == x then 0 else 1 + Place(s[1..], x)
  }

  /** `a` goes before `b`: a higher score, or the same score and an earlier place in `ids`. */
  predicate Precedes(ids: seq<string>, key: map<string, real>, a: string, b: string)
    requires a in key && b in key
  {
    key[a] > key[b] || (key[a] == key[b] && Place(ids, a) < Place(ids, b))
  }

  predicate Keyed(s: seq<string>, key: map<string, real>)
  {
    forall x :: x in s ==> x in key
  }

  predicate InOrder(s: seq<string>, ids: seq<string>, key: map<string, real>)
    requires Keyed(s, key)
  {
    forall i, j :: 0 <= i < j < |s| ==> Precedes(ids, key, s[i], s[j])
  }

  /** `x` goes behind everything that scores at least as much. */
  function Insert(s: seq<string>, key: map<string, real>, x: string): (r: seq<string>)
    requires Keyed(s, key) && x in key
    ensures Keyed(r, key) && multiset(r) == multiset(s) + multiset{x}
  {
    if s == [] || key[s[|s| - 1]] >= key[x] then s + [x]
    else
      assert s == s[..|s| - 1] + [s[|s| - 1]];
      Insert(s[..|s| - 1], key, x) + [s[|s| - 1]]
  }

  /** Python's sorted(..., reverse=True): descending, equal keys left in their given order. */
  function SortDescending(ids: seq<string>, key: map<string, real>): (r: seq<string>)
    requires Keyed(ids, key)
    ensures Keyed(r, key) && multiset(r) == multiset(ids)
  {
    if ids == [] then []
    else
      assert ids == ids[..|ids| - 1] + [ids[|ids| - 1]];
      Insert(SortDescending(ids[..|ids| - 1], key), key, ids[|ids| - 1])
  }

  /** An arrangement stays in order when something goes behind all of it. */
  lemma AppendInOrder(s: seq<string>, ids: seq<string>, key: map<string, real>, x: string)
    requires Keyed(s, key) && x in key && InOrder(s, ids, key)
    requires forall y :: y in s ==> Precedes(ids, key, y, x)
    ensures InOrder(s + [x], ids, key)
  {
  }

  lemma {:induction false} InsertInOrder(s: seq<string>, ids: seq<string>, key: map<string, real>, x: string)
    requires Keyed(s, key) && x in key && InOrder(s, ids, key)
    requires forall y :: y in s ==> Place(ids, y) < Place(ids, x)
    ensures InOrder(Insert(s, key, x), ids, key)
  {
    if s == [] {
    } else if key[s[|s| - 1]] < key[x] {
      var init, last := s[..|s| - 1], s[|s| - 1];
      InsertInOrder(init, ids, key, x);
      var r := Insert(init, key, x);
      forall y | y in r ensures Precedes(ids, key, y, last) {
        assert y in multiset(r);
        if y != x {
          assert y in multiset(init);
        }
      }
      AppendInOrder(r, ids, key, last);
    } else {
      forall y | y in s ensures Precedes(ids, key, y, x) {
        var i := Place(s, y);
        assert i < |s| - 1 ==> Precedes(ids, key, s[i], s[|s| - 1]);
      }
      AppendInOrder(s, ids, key, x);
    }
  }

  lemma {:induction false} PlaceInPrefix(s: seq<string>, n: nat, x: string)
    requires n <= |s| && x in s[..n]
    ensures Place(s, x) == Place(s[..n], x)
  {
    var i := Place(s[..n], x);
    assert s[i] == x;
    assert forall k :: 0 <= k < i ==> s[k] == s[..n][k];
  }

  lemma {:induction false} SortKeeps(ids: seq<string>, key: map<string, real>, x: string)
    requires Keyed(ids, key)
    ensures x in SortDescending(ids, key) <==> x in ids
  {
    assert x in SortDescending(ids, key) <==> x in multiset(SortDescending(ids, key));
    assert x in ids <==> x in multiset(ids);
  }

  lemma {:induction false} SortInOrder(ids: seq<string>, n: nat, key: map<string, real>)
    requires n <= |ids| && Distinct(ids) && Keyed(ids, key)
    ensures InOrder(SortDescending(ids[..n], key), ids, key)
  {
    if n > 0 {
      SortInOrder(ids, n - 1, key);
      assert ids[..n][..n - 1] == ids[..n - 1];
      var s, x := SortDescending(ids[..n - 1], key), ids[n - 1];
      forall y | y in s ensures Place(ids, y) < Place(ids, x) {
        SortKeeps(ids[..n - 1], key, y);
        PlaceInPrefix(ids, n - 1, y);
      }
      InsertInOrder(s, ids, key, x);
    }
  }

  /** The order leaves no choice: two arrangements of the same ids that keep it are the same. */
  lemma {:induction false} OrderDetermines(r: seq<string>, s: seq<string>, ids: seq<string>, key: map<string, real>)
    requires Keyed(r, key) && Keyed(s, key) && InOrder(r, ids, key) && InOrder(s, ids, key)
    requires forall x :: x in r <==> x in s
    ensures r == s
  {
    assert r != [] ==> r[0] in s;
    assert s != [] ==> s[0] in r;
    if r != [] {
      assert r[0] in s && s[0] in r;
      var k, m := Place(s, r[0]), Place(r, s[0]);
      if k > 0 {
        assert false;
      }
      forall x ensures x in r[1..] <==> x in s[1..] {
        if x in r[1..] {
          assert x != r[0] && x in s;
        }
        if x in s[1..] {
          assert x != s[0] && x in r;
        }
      }
      OrderDetermines(r[1..], s[1..], ids, key);
    }
  }

  // ----- the fusion -----

  function Scores(lists: seq<seq<Poi>>): (r: map<string, real>)
  {
    map id | id in Seen(lists) :: Score(lists, id)
  }

  /** The ids in the order in which the fused list holds them. */
  function Fused(lists: seq<seq<Poi>>): (r: seq<string>)
  {
    SortDescending(Seen(lists), Scores(lists))
  }

  /** The dicts after all of `lists` and the first n entries of `results`. */
  ghost predicate Counted(lists: seq<seq<Poi>>, part: seq<Poi>, order: seq<string>,
                          scores: map<string, real>, sources: map<string, Poi>)
  {
    && order == SeenIn(Seen(lists), part)
    && (forall id :: id in order <==> id in scores)
    && (forall id :: id in scores ==> id in sources)
    && (forall id :: id in scores ==> scores[id] == Score(lists, id) + ListScore(part, id))
    && (forall id :: id in scores ==> Some(sources[id]) == LastIn(Last(lists, id), part, id))
  }

  lemma {:induction false} NotSeen(lists: seq<seq<Poi>>, part: seq<Poi>, id: string)
    requires id !in SeenIn(Seen(lists), part)
    ensures Score(lists, id) == 0.0 && ListScore(part, id) == 0.0
  {
    NotInList(Seen(lists), part, id);
    NotInLists(lists, id);
  }

  lemma {:induction false} NotInList(order: seq<string>, part: seq<Poi>, id: string)
    requires id !in SeenIn(order, part)
    ensures ListScore(part, id) == 0.0 && id !in order
  {
    if part != [] {
      NotInList(order, part[..|part| - 1], id);
    }
  }

  lemma {:induction false} NotInLists(lists: seq<seq<Poi>>, id: string)
    requires id !in Seen(lists)
    ensures Score(lists, id) == 0.0
  {
    if lists != [] {
      NotInList(Seen(lists[..|lists| - 1]), lists[|lists| - 1], id);
      NotInLists(lists[..|lists| - 1], id);
    }
  }

  /** One pass of the inner loop. */
  lemma CountOne(lists: seq<seq<Poi>>, part: seq<Poi>, order: seq<string>,
                 scores: map<string, real>, sources: map<string, Poi>, poi: Poi)
    requires Counted(lists, part, order, scores, sources)
    ensures Counted(lists, part + [poi], if poi.id in scores then order else order + [poi.id],
      scores[poi.id := (if poi.id in scores then scores[poi.id] else 0.0) + Weight(|part| + 1)],
      sources[poi.id := poi])
  {
    AddOne(lists, part, poi, poi.id);
    if poi.id !in scores {
      NotSeen(lists, part, poi.id);
    }
    forall id | id in order
      ensures ListScore(part + [poi], id) == ListScore(part, id) + if id == poi.id then Weight(|part| + 1) else 0.0
      ensures id != poi.id ==> LastIn(Last(lists, id), part + [poi], id) == LastIn(Last(lists, id), part, id)
    {
      AddOne(lists, part, poi, id);
    }
  }

  lemma {:induction false} AddOne(lists: seq<seq<Poi>>, part: seq<Poi>, poi: Poi, id: string)
    ensures ListScore(part + [poi], id) == ListScore(part, id) + (if id == poi.id then Weight(|part| + 1) else 0.0)
    ensures LastIn(Last(lists, id), part + [poi], id) ==
      if id == poi.id then Some(poi) else LastIn(Last(lists, id), part, id)
    ensures SeenIn(Seen(lists), part + [poi]) ==
      var before := SeenIn(Seen(lists), part); if poi.id in before then before else before + [poi.id]
  {
    assert (part + [poi])[..|part|] == part;
  }

  lemma {:induction false} LastInIs(earlier: Option<Poi>, list: seq<Poi>, id: string)
    requires earlier.Some? ==> earlier.value.id == id
    ensures LastIn(earlier, list, id).Some? ==> LastIn(earlier, list, id).value.id == id
  {
    if list != [] {
      LastInIs(earlier, list[..|list| - 1], id);
    }
  }

  /** The objects that the lists hold. */
  ghost function Objects(lists: seq<seq<Poi>>): (r: set<Poi>)
  {
    set i, j | 0 <= i < |lists| && 0 <= j < |lists[i]| :: lists[i][j]
  }

  lemma {:induction false} LastIs(lists: seq<seq<Poi>>, id: string)
    ensures Last(lists, id).Some? ==> Last(lists, id).value.id == id
  {
    if lists != [] {
      LastIs(lists[..|lists| - 1], id);
      LastInIs(Last(lists[..|lists| - 1], id), lists[|lists| - 1], id);
    }
  }

  lemma CountList(lists: seq<seq<Poi>>, i: nat, order: seq<string>, scores: map<string, real>,
                  sources: map<string, Poi>)
    requires i < |lists| && Counted(lists[..i], lists[i], order, scores, sources)
    ensures Counted(lists[..i + 1], [], order, scores, sources)
  {
    assert lists[..i + 1][..i] == lists[..i];
  }

  lemma {:induction false} CountAll(lists: seq<seq<Poi>>, order: seq<string>, scores: map<string, real>,
                                    sources: map<string, Poi>)
    requires Counted(lists, [], order, scores, sources)
    ensures order == Seen(lists) && scores == Scores(lists) && Keyed(order, scores)
    ensures forall id :: id in order ==> id in scores && id in sources
    ensures forall id :: id in order ==> Last(lists, id) == Some(sources[id]) && sources[id].id == id
    ensures forall id :: id in order ==> scores[id] == Score(lists, id)
  {
    forall id | id in order ensures sources[id].id == id {
      LastIs(lists, id);
    }
  }

  /** The inner loop: one result list goes into the dicts. */
  method CountResults(lists: seq<seq<Poi>>, i: nat, order0: seq<string>, scores0: map<string, real>,
                      sources0: map<string, Poi>)
    returns (order: seq<string>, scores: map<string, real>, sources: map<string, Poi>)
    requires i < |lists| && Counted(lists[..i], [], order0, scores0, sources0)
    ensures Counted(lists[..i + 1], [], order, scores, sources)
  {
    order, scores, sources := order0, scores0, sources0;
    var results := lists[i];
    for j := 0 to |results|
      invariant Counted(lists[..i], results[..j], order, scores, sources)
    {
      var poi := results[j];
      CountOne(lists[..i], results[..j], order, scores, sources, poi);
      assert results[..j] + [poi] == results[..j + 1];
      order, sources, scores := if poi.id in scores then order else order + [poi.id], sources[poi.id := poi],
        scores[poi.id := (if poi.id in scores then scores[poi.id] else 0.0) + Weight(j + 1)];
    }
    assert results[..|results|] == results;
    CountList(lists, i, order, scores, sources);
  }

  method Count(lists: seq<seq<Poi>>)
    returns (order: seq<string>, scores: map<string, real>, sources: map<string, Poi>)
    ensures order == Seen(lists) && scores == Scores(lists) && Keyed(order, scores)
    ensures forall id :: id in order ==> id in sources
    ensures forall id :: id in order ==> Last(lists, id) == Some(sources[id]) && sources[id].id == id
  {
    order, scores, sources := [], map[], map[];
    for i := 0 to |lists|
      invariant Counted(lists[..i], [], order, scores, sources)
    {
      order, scores, sources := CountResults(lists, i, order, scores, sources);
    }
    assert lists[..|lists|] == lists;
    CountAll(lists, order, scores, sources);
  }

  lemma {:induction false} LastInIsThere(earlier: Option<Poi>, list: seq<Poi>, id: string)
    ensures LastIn(earlier, list, id) == earlier ||
      exists j :: 0 <= j < |list| && Some(list[j]) == LastIn(earlier, list, id)
  {
    if list != [] && list[|list| - 1].id != id {
      var init := list[..|list| - 1];
      LastInIsThere(earlier, init, id);
      if LastIn(earlier, init, id) != earlier {
        var j :| 0 <= j < |init| && Some(init[j]) == LastIn(earlier, init, id);
        assert Some(list[j]) == LastIn(earlier, list, id);
      }
    } else if list != [] {
      assert Some(list[|list| - 1]) == LastIn(earlier, list, id);
    }
  }

  lemma {:induction false} LastIsThere(lists: seq<seq<Poi>>, id: string)
    ensures Last(lists, id).Some? ==> Last(lists, id).value in Objects(lists)
  {
    if lists != [] {
      var init, last := lists[..|lists| - 1], lists[|lists| - 1];
      LastIsThere(init, id);
      LastInIsThere(Last(init, id), last, id);
      assert Objects(init) <= Objects(lists);
      if Last(lists, id).Some? && Last(lists, id) != Last(init, id) {
        var j :| 0 <= j < |last| && Some(last[j]) == Last(lists, id);
        assert lists[|lists| - 1][j] in Objects(lists);
      }
    }
  }

  /** _rrf_fusion: the last object of each id gets the score, in place; no other changes. */
  method Fuse(lists: seq<seq<Poi>>) returns (merged: seq<Poi>)
    modifies Objects(lists)
    ensures |merged| == |Fused(lists)|
    ensures forall i :: 0 <= i < |merged| ==> merged[i].id == Fused(lists)[i]
    ensures forall i :: 0 <= i < |merged| ==> Last(lists, Fused(lists)[i]) == Some(merged[i])
    ensures forall i :: 0 <= i < |merged| ==> merged[i].rrfScore == Score(lists, Fused(lists)[i])
    ensures forall p :: p in Objects(lists) && p !in merged ==> p.rrfScore == old(p.rrfScore)
  {
    var order, scores, sources := Count(lists);
    var ranked := SortDescending(order, scores);
    FusedIs(lists, "");
    merged := [];
    for i := 0 to |ranked|
      invariant |merged| == i
      invariant forall k :: 0 <= k < i ==> merged[k].id == ranked[k]
      invariant forall k :: 0 <= k < i ==> merged[k].rrfScore == Score(lists, ranked[k])
      invariant forall k :: 0 <= k < i ==> Last(lists, ranked[k]) == Some(merged[k])
      invariant forall p :: p in Objects(lists) && p !in merged ==> p.rrfScore == old(p.rrfScore)
    {
      var id := ranked[i];
      SortKeeps(order, scores, id);
      LastIsThere(lists, id);
      var poi := sources[id];
      poi.rrfScore := scores[id];
      merged := merged + [poi];
    }
  }

  /** Each id that some list mentions comes out exactly once; scores never rise along the
      result, and equal scores keep the order of first mention. */
  lemma {:induction false} FusedIs(lists: seq<seq<Poi>>, id: string)
    ensures id in Fused(lists) <==> exists i :: 0 <= i < |lists| && Mentions(lists[i], id)
    ensures Distinct(Fused(lists)) && Keyed(Fused(lists), Scores(lists))
    ensures InOrder(Fused(lists), Seen(lists), Scores(lists))
  {
    var ids, key := Seen(lists), Scores(lists);
    SeenIs(lists, id);
    SortKeeps(ids, key, id);
    assert ids[..|ids|] == ids;
    SortInOrder(ids, |ids|, key);
  }

  lemma {:induction false} PlacesFollowOrder(r: seq<string>, ids: seq<string>, key: map<string, real>, a: string,
                                             b: string)
    requires Keyed(r, key) && InOrder(r, ids, key) && a in r && b in r && Precedes(ids, key, a, b)
    ensures Place(r, a) < Place(r, b)
  {
    var i, j := Place(r, a), Place(r, b);
    if j < i {
      assert false;
    }
  }

  /** Who precedes whom by score and first mention stands earlier in the result. */
  lemma {:induction false} FusedFollowsOrder(lists: seq<seq<Poi>>, a: string, b: string)
    requires a in Scores(lists) && b in Scores(lists) && Precedes(Seen(lists), Scores(lists), a, b)
    ensures a in Fused(lists) && b in Fused(lists) && Place(Fused(lists), a) < Place(Fused(lists), b)
  {
    FusedIs(lists, a);
    SortKeeps(Seen(lists), Scores(lists), a);
    SortKeeps(Seen(lists), Scores(lists), b);
    PlacesFollowOrder(Fused(lists), Seen(lists), Scores(lists), a, b);
  }

  /** A strictly higher score comes out strictly earlier. */
  lemma {:induction false} HigherComesFirst(lists: seq<seq<Poi>>, a: string, b: string)
    requires a in Seen(lists) && b in Seen(lists) && Score(lists, a) > Score(lists, b)
    ensures a in Fused(lists) && b in Fused(lists) && Place(Fused(lists), a) < Place(Fused(lists), b)
  {
    FusedFollowsOrder(lists, a, b);
  }

  // ----- what decides the order -----

  predicate NoRepeats(list: seq<Poi>)
  {
    forall i, j :: 0 <= i < j < |list| ==> list[i].id != list[j].id
  }

  lemma WeightFalls(r: nat, s: nat)
    requires r < s
    ensures 0.0 < Weight(s) < Weight(r) <= 1.0 / 60.0
  {
    var x, y := (RRF_K + r) as real, (RRF_K + s) as real;
    assert x < y;
    assert 1.0 / y < 1.0 / x;
  }

  lemma {:induction false} NotListed(list: seq<Poi>, id: string)
    requires !Mentions(list, id)
    ensures ListScore(list, id) == 0.0
  {
    if list != [] {
      assert list[|list| - 1].id != id;
      assert forall p :: 0 <= p < |list| - 1 ==> list[..|list| - 1][p] == list[p];
      NotListed(list[..|list| - 1], id);
    }
  }

  /** Without repeats an id scores what its one place is worth. */
  lemma {:induction false} OnePlace(list: seq<Poi>, p: nat)
    requires NoRepeats(list) && p < |list|
    ensures ListScore(list, list[p].id) == Weight(p + 1)
  {
    var init := list[..|list| - 1];
    if p == |list| - 1 {
      NotListed(init, list[p].id);
    } else {
      OnePlace(init, p);
    }
  }

  /** `a` stands ahead of `b` in every list that has `b`. */
  predicate Ahead(list: seq<Poi>, a: string, b: string)
  {
    forall q :: 0 <= q < |list| && list[q].id == b ==> Mentions(list[..q], a)
  }

  lemma {:induction false} AheadInList(list: seq<Poi>, a: string, b: string)
    requires NoRepeats(list) && Ahead(list, a, b)
    ensures ListScore(list, a) >= ListScore(list, b)
    ensures Mentions(list, b) ==> ListScore(list, a) > ListScore(list, b) && Mentions(list, a)
  {
    if Mentions(list, b) {
      var q :| 0 <= q < |list| && list[q].id == b;
      var p :| 0 <= p < q && list[..q][p].id == a;
      TwoPlaces(list, p, q);
    } else {
      NotListed(list, b);
      ScoreIsPositive(list, a);
    }
  }

  lemma {:induction false} TwoPlaces(list: seq<Poi>, p: nat, q: nat)
    requires NoRepeats(list) && p < q < |list|
    ensures ListScore(list, list[p].id) > ListScore(list, list[q].id) && Mentions(list, list[p].id)
  {
    OnePlace(list, p);
    OnePlace(list, q);
    WeightFalls(p + 1, q + 1);
  }

  lemma {:induction false} ScoreIsPositive(list: seq<Poi>, id: string)
    ensures ListScore(list, id) >= 0.0
  {
    if list != [] {
      ScoreIsPositive(list[..|list| - 1], id);
    }
  }

  lemma {:induction false} AheadInScore(lists: seq<seq<Poi>>, a: string, b: string)
    requires forall i :: 0 <= i < |lists| ==> NoRepeats(lists[i]) && Ahead(lists[i], a, b)
    ensures Score(lists, a) >= Score(lists, b)
    ensures b in Seen(lists) ==> Score(lists, a) > Score(lists, b) && a in Seen(lists)
  {
    if lists != [] {
      var init, last := lists[..|lists| - 1], lists[|lists| - 1];
      AheadInScore(init, a, b);
      AheadInList(last, a, b);
      SeenInIs(Seen(init), last, a);
      SeenInIs(Seen(init), last, b);
    }
  }

  /** Dominance: an id ranked ahead of another in every list that has the other comes out
      strictly before it. */
  lemma {:induction false} Dominance(lists: seq<seq<Poi>>, a: string, b: string)
    requires forall i :: 0 <= i < |lists| ==> NoRepeats(lists[i]) && Ahead(lists[i], a, b)
    requires b in Seen(lists)
    ensures b in Fused(lists) && Place(Fused(lists), a) < Place(Fused(lists), b)
  {
    AheadInScore(lists, a, b);
    HigherComesFirst(lists, a, b);
  }

  /** The number of lists that mention the id. */
  function Votes(lists: seq<seq<Poi>>, id: string): (r: nat)
  {
    if lists == [] then 0
    else Votes(lists[..|lists| - 1], id) + if Mentions(lists[|lists| - 1], id) then 1 else 0
  }

  lemma {:induction false} ListVote(list: seq<Poi>, id: string)
    requires NoRepeats(list) && |list| <= 61
    ensures !Mentions(list, id) ==> ListScore(list, id) == 0.0
    ensures Mentions(list, id) ==> 1.0 / 121.0 <= ListScore(list, id) <= 1.0 / 61.0
  {
    if Mentions(list, id) {
      var p :| 0 <= p < |list| && list[p].id == id;
      OnePlace(list, p);
      if p > 0 {
        WeightFalls(1, p + 1);
      }
      if p < 60 {
        WeightFalls(p + 1, 61);
      }
    } else {
      NotListed(list, id);
    }
  }

  lemma {:induction false} VotesBoundScore(lists: seq<seq<Poi>>, id: string)
    requires forall i :: 0 <= i < |lists| ==> NoRepeats(lists[i]) && |lists[i]| <= 61
    ensures Votes(lists, id) as real / 121.0 <= Score(lists, id) <= Votes(lists, id) as real / 61.0
    ensures Votes(lists, id) > 0 ==> id in Seen(lists)
  {
    if lists != [] {
      var init, last := lists[..|lists| - 1], lists[|lists| - 1];
      VotesBoundScore(init, id);
      ListVote(last, id);
      SeenInIs(Seen(init), last, id);
    }
  }

  /** With lists of at most 61 places (the three searches ask for 50) an id found by twice as
      many lists as another comes out before it, wherever they stand: two mentions always
      beat one first place. */
  lemma {:induction false} AgreementWins(lists: seq<seq<Poi>>, a: string, b: string)
    requires forall i :: 0 <= i < |lists| ==> NoRepeats(lists[i]) && |lists[i]| <= 61
    requires Votes(lists, a) >= 2 * Votes(lists, b) > 0
    ensures b in Fused(lists) && Place(Fused(lists), a) < Place(Fused(lists), b)
  {
    VotesBoundScore(lists, a);
    VotesBoundScore(lists, b);
    HigherComesFirst(lists, a, b);
  }

  lemma {:induction false} SeenExtends(order: seq<string>, list: seq<Poi>)
    ensures |SeenIn(order, list)| >= |order| && SeenIn(order, list)[..|order|] == order
    ensures order == [] && list != [] ==> SeenIn(order, list) != [] && SeenIn(order, list)[0] == list[0].id
  {
    if list != [] {
      SeenExtends(order, list[..|list| - 1]);
    }
  }

  /** 61 places is the limit: standing 62nd in both of two lists only ties with standing first
      in one, and the tie goes to the id that was seen first. */
  lemma {:induction false} AgreementCanLose(one: seq<Poi>, two: seq<Poi>, a: string, b: string)
    requires NoRepeats(one) && NoRepeats(two) && |one| >= 62 && |two| >= 62
    requires one[61].id == a && two[61].id == a && one[0].id == b && !Mentions(two, b)
    ensures Votes([one, two], a) == 2 && Votes([one, two], b) == 1
    ensures a in Fused([one, two]) && Place(Fused([one, two]), b) < Place(Fused([one, two]), a)
  {
    var lists := [one, two];
    TwoLists(one, two, a);
    TwoLists(one, two, b);
    OnePlace(one, 61);
    OnePlace(two, 61);
    OnePlace(one, 0);
    NotListed(two, b);
    assert Mentions(one, a) && Mentions(two, a) && Mentions(one, b);
    TieBreak(lists, b, a);
  }

  lemma {:induction false} TwoLists(one: seq<Poi>, two: seq<Poi>, id: string)
    ensures Score([one, two], id) == ListScore(one, id) + ListScore(two, id)
    ensures Votes([one, two], id) == (if Mentions(one, id) then 1 else 0) + if Mentions(two, id) then 1 else 0
    ensures one != [] ==> Seen([one, two]) != [] && Seen([one, two])[0] == one[0].id
    ensures Mentions(one, id) ==> id in Seen([one, two])
  {
    assert [one, two][..1] == [one] && [one][..0] == [];
    assert Seen([one]) == SeenIn([], one);
    assert Seen([one, two]) == SeenIn(Seen([one]), two);
    assert Score([one], id) == ListScore(one, id);
    assert Votes([one], id) == if Mentions(one, id) then 1 else 0;
    SeenExtends([], one);
    SeenExtends(Seen([one]), two);
    SeenInIs([], one, id);
    SeenInIs(Seen([one]), two, id);
  }

  lemma {:induction false} TieBreak(lists: seq<seq<Poi>>, a: string, b: string)
    requires a in Seen(lists) && b in Seen(lists) && Score(lists, a) == Score(lists, b)
    requires Place(Seen(lists), a) < Place(Seen(lists), b)
    ensures b in Fused(lists) && Place(Fused(lists), a) < Place(Fused(lists), b)
  {
    FusedFollowsOrder(lists, a, b);
  }
}
