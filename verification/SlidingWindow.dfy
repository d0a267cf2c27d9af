/** The sliding-window limiter: the Lua script of core/redis_client.py, one atomic step a
    request, and the sorted set it prunes, against the whole history of admissions.
    Scores are the clock readings of the requests. */
module SlidingWindow {
  import opened Prelude

  type Member = nat

  datatype Entry = Entry(score: real, member: Member)

  /** The sorted set in order of insertion, and the instant its key expires. */
  datatype Store = Store(entries: seq<Entry>, expireAt: Option<real>)

  /** What Redis still holds at a given time. */
  function Visible(s: Store, clock: real): (es: seq<Entry>)
  {
    if s.expireAt.Some? && s.expireAt.value <= clock then [] else s.entries
  }

  /** ZREMRANGEBYSCORE key 0 top. */
  function RemoveUpTo(es: seq<Entry>, top: real): (r: seq<Entry>)
  {
    if es == [] then []
    else
      var e := es[|es| - 1];
      var rest := RemoveUpTo(es[..|es| - 1], top);
      if 0.0 <= e.score <= top then rest else rest + [e]
  }

  /** ZADD key score member: a member already there only changes its score. */
  function Put(es: seq<Entry>, score: real, member: Member): (r: seq<Entry>)
  {
    if es == [] then [Entry(score, member)]
    else if es[0].member == member then [Entry(score, member)] + es[1..]
    else [es[0]] + Put(es[1..], score, member)
  }

  /** The script. */
  function Admit(s: Store, score: real, member: Member, window: int, limit: int): (r: (Store, bool))
  {
    var kept := RemoveUpTo(Visible(s, score), score - window as real);
    if |kept| < limit then (Store(Put(kept, score, member), Some(score + window as real)), true)
    else (Store(kept, if kept == [] then None else s.expireAt), false)
  }

  // ---------------------------------------------------------------- the history

  /** The admissions with lo < score <= hi. */
  function Between(h: seq<Entry>, lo: real, hi: real): (r: seq<Entry>)
  {
    if h == [] then []
    else
      var e := h[|h| - 1];
      var rest := Between(h[..|h| - 1], lo, hi);
      if lo < e.score <= hi then rest + [e] else rest
  }

  /** The admissions in the window (t - window, t]. */
  function Recent(h: seq<Entry>, t: real, window: int): (r: seq<Entry>)
  {
    Between(h, t - window as real, t)
  }

  /** Scores are clock readings, none later than `last`; no member was used twice. */
  ghost predicate Chronicle(h: seq<Entry>, last: real)
  {
    && (forall i :: 0 <= i < |h| ==> 0.0 <= h[i].score <= last)
    && (forall i, j :: 0 <= i < j < |h| ==> h[i].member != h[j].member)
  }

  /** The pruned set is as good as the history for every request from `last` on. */
  ghost predicate Refines(s: Store, h: seq<Entry>, window: int, last: real)
  {
    forall t: real :: last <= t ==> RemoveUpTo(Visible(s, t), t - window as real) == Recent(h, t, window)
  }

  /** No interval (t - window, t] holds more than `limit` admissions. */
  ghost predicate WithinLimit(h: seq<Entry>, window: int, limit: int)
  {
    forall t: real :: |Recent(h, t, window)| <= if limit < 0 then 0 else limit
  }

  lemma {:induction false} BetweenShrinks(h: seq<Entry>, lo: real, hi: real, lo': real, hi': real)
    requires lo <= lo' && forall i :: 0 <= i < |h| ==> h[i].score <= hi
    ensures |Between(h, lo', hi')| <= |Between(h, lo, hi)|
  {
    if h != [] {
      BetweenShrinks(h[..|h| - 1], lo, hi, lo', hi');
    }
  }

  lemma {:induction false} BetweenAppend(h: seq<Entry>, e: Entry, lo: real, hi: real)
    ensures Between(h + [e], lo, hi) == if lo < e.score <= hi then Between(h, lo, hi) + [e] else Between(h, lo, hi)
  {
    assert (h + [e])[..|h|] == h;
  }

  lemma {:induction false} RemoveAppend(es: seq<Entry>, e: Entry, top: real)
    ensures RemoveUpTo(es + [e], top)
            == if 0.0 <= e.score <= top then RemoveUpTo(es, top) else RemoveUpTo(es, top) + [e]
  {
    assert (es + [e])[..|es|] == es;
  }

  /** Pruning once more, later, is pruning the history. */
  lemma {:induction false} RemoveFromBetween(h: seq<Entry>, lo: real, hi: real, t: real, lo': real)
    requires lo <= lo' && hi <= t && Chronicle(h, hi)
    ensures RemoveUpTo(Between(h, lo, hi), lo') == Between(h, lo', t)
  {
    if h != [] {
      var e := h[|h| - 1];
      RemoveFromBetween(h[..|h| - 1], lo, hi, t, lo');
      RemoveAppend(Between(h[..|h| - 1], lo, hi), e, lo');
    }
  }

  lemma {:induction false} BetweenMembers(h: seq<Entry>, lo: real, hi: real, member: Member)
    requires forall i :: 0 <= i < |h| ==> h[i].member != member
    ensures forall i :: 0 <= i < |Between(h, lo, hi)| ==> Between(h, lo, hi)[i].member != member
  {
    if h != [] {
      BetweenMembers(h[..|h| - 1], lo, hi, member);
    }
  }

  lemma {:induction false} BetweenNone(h: seq<Entry>, lo: real, hi: real)
    requires forall i :: 0 <= i < |h| ==> h[i].score <= lo
    ensures Between(h, lo, hi) == []
  {
    if h != [] {
      BetweenNone(h[..|h| - 1], lo, hi);
    }
  }

  /** A new member goes to the end. */
  lemma {:induction false} PutFresh(es: seq<Entry>, score: real, member: Member)
    requires forall i :: 0 <= i < |es| ==> es[i].member != member
    ensures Put(es, score, member) == es + [Entry(score, member)]
  {
    if es != [] {
      PutFresh(es[1..], score, member);
    }
  }

  /** The limiter decides by the true window: it admits exactly when fewer than `limit`
      admissions of the whole history lie in (score - window, score]. */
  lemma AdmitDecidesByHistory(s: Store, h: seq<Entry>, window: int, limit: int, last: real, score: real, member: Member)
    requires Refines(s, h, window, last) && last <= score
    ensures Admit(s, score, member, window, limit).1 <==> |Recent(h, score, window)| < limit
  {
  }

  lemma {:induction false} PrunedLater(h: seq<Entry>, window: int, last: real, score: real, t: real)
    requires Chronicle(h, last) && last <= score <= t
    ensures RemoveUpTo(Recent(h, score, window), t - window as real) == Recent(h, t, window)
  {
    RemoveFromBetween(h, score - window as real, score, t, t - window as real);
  }

  lemma {:induction false} RefusedAt(s: Store, h: seq<Entry>, window: int, last: real, score: real, t: real)
    requires Refines(s, h, window, last) && Chronicle(h, last) && last <= score <= t
    ensures var kept := RemoveUpTo(Visible(s, score), score - window as real);
            var r := Store(kept, if kept == [] then None else s.expireAt);
            RemoveUpTo(Visible(r, t), t - window as real) == Recent(h, t, window)
  {
    PrunedLater(h, window, last, score, t);
    assert RemoveUpTo(Visible(s, t), t - window as real) == Recent(h, t, window);
  }

  lemma {:induction false} AdmittedAt(h: seq<Entry>, window: int, last: real, score: real, e: Entry, t: real)
    requires Chronicle(h, last) && last <= score <= t && e.score == score && 0.0 <= score
    ensures var r := Store(Recent(h, score, window) + [e], Some(score + window as real));
            RemoveUpTo(Visible(r, t), t - window as real) == Recent(h + [e], t, window)
  {
    BetweenAppend(h, e, t - window as real, t);
    if score + window as real <= t {
      BetweenNone(h, t - window as real, t);
    } else {
      PrunedLater(h, window, last, score, t);
      RemoveAppend(Recent(h, score, window), e, t - window as real);
    }
  }

  /** ... and goes on doing so after every request, admitted or refused, the expiry of the
      key included. */
  lemma AdmitKeepsRefinement(s: Store, h: seq<Entry>, window: int, limit: int, last: real, score: real, member: Member)
    requires Refines(s, h, window, last) && Chronicle(h, last) && last <= score && 0.0 <= score
    requires forall i :: 0 <= i < |h| ==> h[i].member != member
    ensures var (r, ok) := Admit(s, score, member, window, limit);
            var h' := if ok then h + [Entry(score, member)] else h;
            Refines(r, h', window, score) && Chronicle(h', score)
  {
    var e := Entry(score, member);
    if |Recent(h, score, window)| < limit {
      BetweenMembers(h, score - window as real, score, member);
      PutFresh(Recent(h, score, window), score, member);
      forall t: real | score <= t
        ensures RemoveUpTo(Visible(Admit(s, score, member, window, limit).0, t), t - window as real)
                == Recent(h + [e], t, window)
      {
        AdmittedAt(h, window, last, score, e, t);
      }
    } else {
      forall t: real | score <= t
        ensures RemoveUpTo(Visible(Admit(s, score, member, window, limit).0, t), t - window as real)
                == Recent(h, t, window)
      {
        RefusedAt(s, h, window, last, score, t);
      }
    }
  }

  /** One more admission cannot overfill any interval, past or future. */
  lemma AdmissionWithinLimit(h: seq<Entry>, window: int, limit: int, last: real, e: Entry)
    requires WithinLimit(h, window, limit) && Chronicle(h, last) && last <= e.score
    requires |Recent(h, e.score, window)| < limit
    ensures WithinLimit(h + [e], window, limit)
  {
    forall t: real
      ensures |Recent(h + [e], t, window)| <= if limit < 0 then 0 else limit
    {
      BetweenAppend(h, e, t - window as real, t);
      assert |Recent(h, t, window)| <= if limit < 0 then 0 else limit;
      if e.score <= t {
        BetweenShrinks(h, e.score - window as real, e.score, t - window as real, t);
      }
    }
  }

  // ---------------------------------------------------------------- outside the callers' discipline

  /** Some interval (t - window, t] that contains `score` holds `limit` admissions already. */
  ghost predicate FullAround(h: seq<Entry>, score: real, window: int, limit: int)
  {
    exists t: real :: score <= t < score + window as real && |Recent(h, t, window)| >= limit
  }

  /** An admission overfills an interval exactly if one around its score is full. */
  lemma RequestOverfillsIff(s: Store, h: seq<Entry>, window: int, limit: int, score: real, member: Member)
    requires WithinLimit(h, window, limit)
    ensures var ok := Admit(s, score, member, window, limit).1;
            var h' := if ok then h + [Entry(score, member)] else h;
            !WithinLimit(h', window, limit) <==> ok && FullAround(h, score, window, limit)
  {
    var e := Entry(score, member);
    var h' := h + [e];
    forall t: real
      ensures |Recent(h', t, window)| == |Recent(h, t, window)| + if score <= t < score + window as real then 1 else 0
    {
      BetweenAppend(h, e, t - window as real, t);
    }
    if !WithinLimit(h', window, limit) {
      var t: real :| |Recent(h', t, window)| > if limit < 0 then 0 else limit;
      assert |Recent(h, t, window)| <= if limit < 0 then 0 else limit;
    }
    if FullAround(h, score, window, limit) {
      var t: real :| score <= t < score + window as real && |Recent(h, t, window)| >= limit;
      assert |Recent(h', t, window)| > if limit < 0 then 0 else limit;
    }
  }

  /** A request in clock order never does. */
  lemma InOrderIsNeverFull(s: Store, h: seq<Entry>, window: int, limit: int, last: real, score: real, member: Member)
    requires Refines(s, h, window, last) && Chronicle(h, last) && WithinLimit(h, window, limit) && last <= score
    requires Admit(s, score, member, window, limit).1
    ensures !FullAround(h, score, window, limit)
  {
    AdmitDecidesByHistory(s, h, window, limit, last, score, member);
    AdmissionWithinLimit(h, window, limit, last, Entry(score, member));
    RequestOverfillsIff(s, h, window, limit, score, member);
  }

  /** ZADD on a member that is there: its entry gets the new score. */
  lemma {:induction false} PutReplaces(es: seq<Entry>, p: nat, e: Entry)
    requires p < |es| && es[p].member == e.member && forall k :: 0 <= k < p ==> es[k].member != e.member
    ensures Put(es, e.score, e.member) == es[p := e]
  {
    if p > 0 {
      PutReplaces(es[1..], p - 1, e);
      assert es[p := e] == [es[0]] + es[1..][p - 1 := e];
    }
  }

  predicate Removed(e: Entry, top: real)
  {
    0.0 <= e.score <= top
  }

  lemma {:induction false} RemoveReplaced(es: seq<Entry>, p: nat, e: Entry, top: real)
    requires p < |es|
    ensures |RemoveUpTo(es[p := e], top)| ==
            |RemoveUpTo(es, top)| - (if Removed(es[p], top) then 0 else 1) + (if Removed(e, top) then 0 else 1)
  {
    var init := es[..|es| - 1];
    if p == |es| - 1 {
      assert es[p := e][..p] == init;
    } else {
      assert es[p := e][..|es| - 1] == init[p := e];
      RemoveReplaced(init, p, e, top);
    }
  }

  /** The one entry of a member in an interval of the history. */
  lemma {:induction false} MemberBetween(h: seq<Entry>, i: nat, lo: real, hi: real) returns (p: nat)
    requires i < |h| && lo < h[i].score <= hi && forall j, k :: 0 <= j < k < |h| ==> h[j].member != h[k].member
    ensures p < |Between(h, lo, hi)| && Between(h, lo, hi)[p] == h[i]
    ensures forall k :: 0 <= k < |Between(h, lo, hi)| && k != p ==> Between(h, lo, hi)[k].member != h[i].member
  {
    var n := |h| - 1;
    if i == n {
      p := |Between(h[..n], lo, hi)|;
      BetweenMembers(h[..n], lo, hi, h[i].member);
    } else {
      p := MemberBetween(h[..n], i, lo, hi);
    }
  }

  lemma {:induction false} NotBetween(h: seq<Entry>, i: nat, lo: real, hi: real)
    requires i < |h| && !(lo < h[i].score <= hi)
    requires forall j, k :: 0 <= j < k < |h| ==> h[j].member != h[k].member
    ensures forall k :: 0 <= k < |Between(h, lo, hi)| ==> Between(h, lo, hi)[k].member != h[i].member
  {
    var n := |h| - 1;
    if i == n {
      BetweenMembers(h[..n], lo, hi, h[i].member);
    } else {
      NotBetween(h[..n], i, lo, hi);
    }
  }

  /** What the set holds at time t after `e` has replaced the entry o of its member. */
  lemma {:induction false} ReplacedAt(h: seq<Entry>, i: nat, window: int, last: real, e: Entry, t: real)
    requires Chronicle(h, last) && i < |h| && e.member == h[i].member && 0.0 <= e.score && last <= e.score <= t
    ensures var r := Store(Put(Recent(h, e.score, window), e.score, e.member), Some(e.score + window as real));
            |RemoveUpTo(Visible(r, t), t - window as real)| ==
            |Recent(h + [e], t, window)| - if t - window as real < h[i].score then 1 else 0
  {
    var kept, top := Recent(h, e.score, window), t - window as real;
    if e.score - window as real < h[i].score {
      var p := MemberBetween(h, i, e.score - window as real, e.score);
      PutReplaces(kept, p, e);
      BetweenAppend(h, e, top, t);
      if e.score + window as real <= t {
        BetweenNone(h, top, t);
      } else {
        PrunedLater(h, window, last, e.score, t);
        RemoveReplaced(kept, p, e, top);
      }
    } else {
      NotBetween(h, i, e.score - window as real, e.score);
      PutFresh(kept, e.score, e.member);
      AdmittedAt(h, window, last, e.score, e, t);
    }
  }

  /** A member used again, in clock order.  From then on a request at time t is decided as if
      there had been one admission less, exactly as long as the earlier use is in its window;
      so it is let in beside `limit` admissions exactly then. */
  lemma ReusedMemberUndercounts(s: Store, h: seq<Entry>, window: int, limit: int, last: real, i: nat, score: real,
                                t: real, next: Member)
    requires Refines(s, h, window, last) && Chronicle(h, last) && i < |h| && last <= score <= t && 0.0 <= score
    requires Admit(s, score, h[i].member, window, limit).1
    ensures var r := Admit(s, score, h[i].member, window, limit).0;
            var inWindow := |Recent(h + [Entry(score, h[i].member)], t, window)|;
            Admit(r, t, next, window, limit).1 <==>
            inWindow - (if t - window as real < h[i].score then 1 else 0) < limit
  {
    ReplacedAt(h, i, window, last, Entry(score, h[i].member), t);
  }

  /** For instance, with limit 2 and window 10: a late request at 7 is admitted because 20 has
      already pushed 5 and 6 out, and makes three admissions in (-3, 7]. */
  lemma LateScoresOverfill()
    ensures var s1 := Admit(Store([], None), 5.0, 1, 10, 2);
            var s2 := Admit(s1.0, 6.0, 2, 10, 2);
            var s3 := Admit(s2.0, 20.0, 3, 10, 2);
            var s4 := Admit(s3.0, 7.0, 4, 10, 2);
            && s1.1 && s2.1 && s3.1 && s4.1
            && Recent([Entry(5.0, 1), Entry(6.0, 2), Entry(20.0, 3), Entry(7.0, 4)], 7.0, 10)
               == [Entry(5.0, 1), Entry(6.0, 2), Entry(7.0, 4)]
  {
    LateScoresAdmitted();
    LateScoresCounted();
  }

  lemma LateScoresAdmitted()
    ensures Admit(Store([], None), 5.0, 1, 10, 2) == (Store([Entry(5.0, 1)], Some(15.0)), true)
    ensures Admit(Store([Entry(5.0, 1)], Some(15.0)), 6.0, 2, 10, 2)
            == (Store([Entry(5.0, 1), Entry(6.0, 2)], Some(16.0)), true)
    ensures Admit(Store([Entry(5.0, 1), Entry(6.0, 2)], Some(16.0)), 20.0, 3, 10, 2)
            == (Store([Entry(20.0, 3)], Some(30.0)), true)
    ensures Admit(Store([Entry(20.0, 3)], Some(30.0)), 7.0, 4, 10, 2).1
  {
    assert RemoveUpTo([Entry(5.0, 1)], -4.0) == [Entry(5.0, 1)];
    assert Put([Entry(5.0, 1)], 6.0, 2) == [Entry(5.0, 1), Entry(6.0, 2)];
    assert RemoveUpTo([Entry(20.0, 3)], -3.0) == [Entry(20.0, 3)];
  }

  lemma LateScoresCounted()
    ensures Between([Entry(5.0, 1), Entry(6.0, 2), Entry(20.0, 3), Entry(7.0, 4)], -3.0, 7.0)
            == [Entry(5.0, 1), Entry(6.0, 2), Entry(7.0, 4)]
  {
    var a, b, c, d := Entry(5.0, 1), Entry(6.0, 2), Entry(20.0, 3), Entry(7.0, 4);
    BetweenAppend([], a, -3.0, 7.0);
    assert [] + [a] == [a];
    BetweenAppend([a], b, -3.0, 7.0);
    assert [a] + [b] == [a, b];
    BetweenAppend([a, b], c, -3.0, 7.0);
    assert [a, b] + [c] == [a, b, c];
    BetweenAppend([a, b, c], d, -3.0, 7.0);
    assert [a, b, c] + [d] == [a, b, c, d];
  }

  /** For instance: limit 2 admits three uses of one member in one window. */
  lemma ReusedMemberOverfills()
    ensures var s1 := Admit(Store([], None), 1.0, 1, 10, 2);
            var s2 := Admit(s1.0, 2.0, 1, 10, 2);
            s1.1 && s2.1 && Admit(s2.0, 3.0, 1, 10, 2).1
  {
    assert Admit(Store([], None), 1.0, 1, 10, 2) == (Store([Entry(1.0, 1)], Some(11.0)), true);
    Reused(1.0);
    Reused(2.0);
  }

  lemma Reused(t: real)
    requires t > 0.0 && t <= 2.0
    ensures Admit(Store([Entry(t, 1)], Some(t + 10.0)), t + 1.0, 1, 10, 2)
            == (Store([Entry(t + 1.0, 1)], Some(t + 11.0)), true)
  {
    assert RemoveUpTo([Entry(t, 1)], t - 9.0) == [Entry(t, 1)];
    assert Put([Entry(t, 1)], t + 1.0, 1) == [Entry(t + 1.0, 1)];
  }

  // ---------------------------------------------------------------- the key and its script

  /** Everything the limiter promises: the set answers as the history would, and the history
      respects the limit in every interval. */
  ghost predicate Kept(s: Store, h: seq<Entry>, window: int, limit: int, last: real)
  {
    Refines(s, h, window, last) && Chronicle(h, last) && WithinLimit(h, window, limit)
  }

  /** One request keeps it. */
  lemma AdmitStep(s: Store, h: seq<Entry>, window: int, limit: int, last: real, score: real, member: Member)
    requires Kept(s, h, window, limit, last)
    requires last <= score && 0.0 <= score && forall i :: 0 <= i < |h| ==> h[i].member != member
    ensures var (r, ok) := Admit(s, score, member, window, limit);
            Kept(r, if ok then h + [Entry(score, member)] else h, window, limit, score)
    ensures !Admit(s, score, member, window, limit).1 <==>
            |Recent(h, score, window)| == if limit < 0 then 0 else limit
  {
    AdmitDecidesByHistory(s, h, window, limit, last, score, member);
    AdmitKeepsRefinement(s, h, window, limit, last, score, member);
    assert |Recent(h, score, window)| <= if limit < 0 then 0 else limit;
    if |Recent(h, score, window)| < limit {
      AdmissionWithinLimit(h, window, limit, last, Entry(score, member));
    }
  }

  /** Requests in clock order, no member used twice. */
  ghost predicate Arrivals(requests: seq<Entry>)
  {
    && (forall i :: 0 <= i < |requests| ==> 0.0 <= requests[i].score)
    && (forall i, j :: 0 <= i < j < |requests| ==>
          requests[i].score <= requests[j].score && requests[i].member != requests[j].member)
  }

  /** The next request comes no earlier than all before, under a member of its own. */
  lemma ArrivalsGrow(requests: seq<Entry>, e: Entry)
    ensures Arrivals([])
    ensures Arrivals(requests + [e]) <==>
      && Arrivals(requests) && 0.0 <= e.score
      && forall i :: 0 <= i < |requests| ==> requests[i].score <= e.score && requests[i].member != e.member
  {
    var n, longer := |requests|, requests + [e];
    assert forall i :: 0 <= i < n ==> longer[i] == requests[i];
    assert longer[n] == e;
  }

  /** The key and its admissions after a run of requests on an empty key. */
  function Serve(requests: seq<Entry>, window: int, limit: int): (r: (Store, seq<Entry>))
  {
    if requests == [] then (Store([], None), [])
    else
      var (s, h) := Serve(requests[..|requests| - 1], window, limit);
      var e := requests[|requests| - 1];
      var (s', ok) := Admit(s, e.score, e.member, window, limit);
      (s', if ok then h + [e] else h)
  }

  /** Whether the last of the requests is admitted. */
  function Answer(requests: seq<Entry>, window: int, limit: int): (r: bool)
    requires requests != []
  {
    var e := requests[|requests| - 1];
    Admit(Serve(requests[..|requests| - 1], window, limit).0, e.score, e.member, window, limit).1
  }

  function LastScore(requests: seq<Entry>): (t: real)
  {
    if requests == [] then 0.0 else requests[|requests| - 1].score
  }

  lemma {:induction false} ServeStep(requests: seq<Entry>, window: int, limit: int)
    requires requests != []
    ensures var before := Serve(requests[..|requests| - 1], window, limit); var e := requests[|requests| - 1];
            var r := Admit(before.0, e.score, e.member, window, limit);
            && Serve(requests, window, limit) == (r.0, if r.1 then before.1 + [e] else before.1)
            && e == Entry(e.score, e.member) && Answer(requests, window, limit) == r.1
  {
  }

  ghost predicate Lacks(h: seq<Entry>, m: Member)
  {
    forall i :: 0 <= i < |h| ==> h[i].member != m
  }

  /** Only members that have asked are in the history. */
  lemma {:induction false} ServedHaveAsked(requests: seq<Entry>, window: int, limit: int, m: Member)
    requires Lacks(requests, m)
    ensures Lacks(Serve(requests, window, limit).1, m)
  {
    if requests != [] {
      ServeStep(requests, window, limit);
      ServedHaveAsked(requests[..|requests| - 1], window, limit, m);
    }
  }

  /** After any run no interval holds more than `limit` admissions, and a request is refused
      exactly when `limit` admissions lie in its own window. */
  lemma {:induction false} RunWithinLimit(requests: seq<Entry>, window: int, limit: int)
    requires Arrivals(requests)
    ensures Kept(Serve(requests, window, limit).0, Serve(requests, window, limit).1, window, limit, LastScore(requests))
    ensures requests != [] ==>
              (!Answer(requests, window, limit) <==>
               |Recent(Serve(requests[..|requests| - 1], window, limit).1, LastScore(requests), window)|
               == if limit < 0 then 0 else limit)
  {
    if requests != [] {
      var init, e := requests[..|requests| - 1], requests[|requests| - 1];
      var before := Serve(init, window, limit);
      RunWithinLimit(init, window, limit);
      ServedHaveAsked(init, window, limit, e.member);
      ServeStep(requests, window, limit);
      AdmitStep(before.0, before.1, window, limit, LastScore(init), e.score, e.member);
    }
  }

  // ---------------------------------------------------------------- a late request

  /** The set holds just the admissions in the window of the last request, and outlives it. */
  ghost predicate Fits(s: Store, h: seq<Entry>, window: int, last: real)
  {
    && s.entries == Recent(h, last, window)
    && (s.entries != [] ==> s.expireAt.Some? && last < s.expireAt.value)
  }

  /** Every request in clock order with a fresh member leaves the set like that. */
  lemma FitsStep(s: Store, h: seq<Entry>, window: int, limit: int, last: real, score: real, member: Member)
    requires Refines(s, h, window, last) && Chronicle(h, last) && Fits(s, h, window, last)
    requires window > 0 && last <= score && forall i :: 0 <= i < |h| ==> h[i].member != member
    ensures var (r, ok) := Admit(s, score, member, window, limit);
            Fits(r, if ok then h + [Entry(score, member)] else h, window, score)
  {
    if |Recent(h, score, window)| < limit {
      BetweenMembers(h, score - window as real, score, member);
      PutFresh(Recent(h, score, window), score, member);
      BetweenAppend(h, Entry(score, member), score - window as real, score);
    }
  }

  lemma {:induction false} ServeFits(requests: seq<Entry>, window: int, limit: int)
    requires Arrivals(requests) && window > 0
    ensures Fits(Serve(requests, window, limit).0, Serve(requests, window, limit).1, window, LastScore(requests))
  {
    if requests != [] {
      var init, e := requests[..|requests| - 1], requests[|requests| - 1];
      var before := Serve(init, window, limit);
      RunWithinLimit(init, window, limit);
      ServedHaveAsked(init, window, limit, e.member);
      ServeFits(init, window, limit);
      ServeStep(requests, window, limit);
      FitsStep(before.0, before.1, window, limit, LastScore(init), e.score, e.member);
    }
  }

  /** None of the admissions in a window is old enough to be removed by an earlier score. */
  lemma {:induction false} NothingRemoved(h: seq<Entry>, lo: real, hi: real, top: real)
    requires top <= lo
    ensures RemoveUpTo(Between(h, lo, hi), top) == Between(h, lo, hi)
  {
    if h != [] {
      var e, rest := h[|h| - 1], Between(h[..|h| - 1], lo, hi);
      NothingRemoved(h[..|h| - 1], lo, hi, top);
      if lo < e.score <= hi {
        RemoveAppend(rest, e, top);
      }
    }
  }

  /** A late request is decided by the window of the last request, not by its own. */
  lemma LateRequestAdmittedIff(s: Store, h: seq<Entry>, window: int, limit: int, last: real,
                               score: real, member: Member)
    requires Fits(s, h, window, last) && score <= last
    ensures Admit(s, score, member, window, limit).1 <==> |Recent(h, last, window)| < limit
  {
    assert Visible(s, score) == Recent(h, last, window);
    NothingRemoved(h, last - window as real, last, score - window as real);
  }

  /** After any run in clock order, a late request overfills an interval exactly if the window
      of the last request has room while an interval around the late score has none. */
  lemma {:induction false} LateRequestOverfillsIff(requests: seq<Entry>, window: int, limit: int, score: real,
                                                   member: Member)
    requires Arrivals(requests) && score <= LastScore(requests)
    ensures var (s, h) := Serve(requests, window, limit); var last := LastScore(requests);
            var ok := Admit(s, score, member, window, limit).1;
            !WithinLimit(if ok then h + [Entry(score, member)] else h, window, limit) <==>
            |Recent(h, last, window)| < limit && FullAround(h, score, window, limit)
  {
    var (s, h) := Serve(requests, window, limit);
    RunWithinLimit(requests, window, limit);
    RequestOverfillsIff(s, h, window, limit, score, member);
    if window > 0 {
      ServeFits(requests, window, limit);
      LateRequestAdmittedIff(s, h, window, limit, LastScore(requests), score, member);
    }
  }

  /** One limiter key with the window and limit its callers pass. */
  class Limiter {
    const window: int
    const limit: int
    var zset: seq<Entry>
    var expireAt: Option<real>
    ghost var admitted: seq<Entry>
    ghost var clock: real

    /** The history rule: admissions so far respect the limit in every interval, and the
        pruned set answers as the history would. */
    ghost predicate Valid()
      reads this
    {
      Kept(Store(zset, expireAt), admitted, window, limit, clock)
    }

    constructor (window: int, limit: int)
      ensures Valid() && admitted == [] && clock == 0.0
      ensures this.window == window && this.limit == limit
    {
      this.window, this.limit := window, limit;
      zset, expireAt, admitted, clock := [], None, [], 0.0;
    }

    /** The Lua script, command by command. */
    method Script(score: real, member: Member) returns (ok: bool)
      modifies this`zset, this`expireAt
      ensures (Store(zset, expireAt), ok) == Admit(old(Store(zset, expireAt)), score, member, window, limit)
    {
      if expireAt.Some? && expireAt.value <= score {
        zset := [];
      }
      zset := RemoveUpTo(zset, score - window as real);
      var count := |zset|;
      if count < limit {
        zset := Put(zset, score, member);
        expireAt := Some(score + window as real);
        ok := true;
      } else {
        expireAt := if zset == [] then None else expireAt;
        ok := false;
      }
    }

    /** sliding_window_add at time `score`: refuses exactly when `limit` admissions lie in
        the request's own window. */
    method Add(score: real, member: Member) returns (ok: bool)
      requires Valid() && clock <= score && 0.0 <= score
      requires forall i :: 0 <= i < |admitted| ==> admitted[i].member != member
      modifies this
      ensures Valid() && clock == score
      ensures admitted == if ok then old(admitted) + [Entry(score, member)] else old(admitted)
      ensures !ok <==> |Recent(old(admitted), score, window)| == (if limit < 0 then 0 else limit)
    {
      AdmitStep(Store(zset, expireAt), admitted, window, limit, clock, score, member);
      ok := Script(score, member);
      admitted := if ok then admitted + [Entry(score, member)] else admitted;
      clock := score;
    }
  }
}
