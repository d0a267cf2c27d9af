/** Small shared vocabulary: optional values and the two facts about finite sets of
    node indices on which every quorum argument rests. */
module Prelude {

  datatype Option<+T> = None | Some(value: T)

  /** The indices 0, 1, ..., n-1. */
  function Below(n: nat): (r: set<nat>)
    ensures forall k: nat :: k in r <==> k < n
  {
    if n == 0 then {} else Below(n - 1) + {n - 1}
  }

  lemma {:induction false} BelowSize(n: nat)
    ensures |Below(n)| == n
  {
    if n > 0 {
      BelowSize(n - 1);
    }
  }

  lemma {:induction false} SubsetSize<T>(a: set<T>, b: set<T>)
    requires a <= b
    ensures |a| <= |b|
  {
    if a != {} {
      var x :| x in a;
      SubsetSize(a - {x}, b - {x});
    }
  }

  /** All of S lies below n. */
  ghost predicate Within(S: set<nat>, n: nat)
  {
    forall k :: k in S ==> k < n
  }

  /** Two majorities of the same n nodes share a node. */
  lemma QuorumsMeet(n: nat, a: set<nat>, b: set<nat>)
    requires Within(a, n) && Within(b, n)
    requires |a| >= n / 2 + 1 && |b| >= n / 2 + 1
    ensures a * b != {}
  {
    BelowSize(n);
    SubsetSize(a + b, Below(n));
    assert |a + b| + |a * b| == |a| + |b|;
  }
}
