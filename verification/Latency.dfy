/** The 99th percentile that monitoring/congestion_detector.py reads out of a Prometheus
    histogram: merge the children's buckets, cumulate, find the bucket, interpolate.

    Bucket counts are naturals and the arithmetic is exact.  An upper bound may be +Inf,
    which prometheus_client puts at the end of every list of bounds and nowhere else. */
module Latency {
  import opened Prelude

  datatype Bound = Finite(x: real) | PlusInf

  /** Bounds go up strictly, and only the last may be +Inf. */
  predicate Rising(bounds: seq<Bound>)
  {
    forall i, j :: 0 <= i < j < |bounds| ==>
      bounds[i].Finite? && (bounds[j].Finite? ==> bounds[i].x < bounds[j].x)
  }

  /** A list of bounds goes on with a higher one, unless it has come to +Inf. */
  lemma RisingGrows(bounds: seq<Bound>, b: Bound)
    ensures Rising([b])
    ensures bounds != [] ==>
      var last := bounds[|bounds| - 1];
      (Rising(bounds + [b]) <==> Rising(bounds) && last.Finite? && (b.Finite? ==> last.x < b.x))
  {
    if bounds != [] {
      var n, longer := |bounds|, bounds + [b];
      assert forall i :: 0 <= i < n ==> longer[i] == bounds[i];
      assert longer[n] == b;
      if Rising(longer) {
        assert longer[n - 1].Finite?;
        assert forall i, j :: 0 <= i < j < n ==> longer[i].Finite? && (longer[j].Finite? ==> longer[i].x < longer[j].x);
      }
    }
  }

  function Sum(s: seq<nat>): (r: nat)
  {
    if s == [] then 0 else Sum(s[..|s| - 1]) + s[|s| - 1]
  }

  lemma {:induction false} SumPrefix(s: seq<nat>, i: nat, j: nat)
    requires i <= j <= |s|
    ensures Sum(s[..i]) <= Sum(s[..j])
  {
    if i < j {
      assert s[..j][..j - 1] == s[..j - 1];
      SumPrefix(s, i, j - 1);
    }
  }

  // ----- merging -----

  /** What the children together hold at place i. */
  function Column(children: seq<seq<nat>>, i: nat): (r: nat)
  {
    if children == [] then 0
    else
      var last := children[|children| - 1];
      Column(children[..|children| - 1], i) + if i < |last| then last[i] else 0
  }

  /** The first child decides how many buckets there are. */
  function Merged(children: seq<seq<nat>>): (r: seq<nat>)
    ensures |r| == if children == [] then 0 else |children[0]|
  {
    seq(if children == [] then 0 else |children[0]|, i requires 0 <= i => Column(children, i))
  }

  // ----- the bucket and the estimate -----

  /** Bucket i is the first whose cumulative count reaches 99 percent of the total. */
  predicate Reaches(counts: seq<nat>, i: nat)
  {
    && i < |counts|
    && 100 * Sum(counts[..i + 1]) >= 99 * Sum(counts)
    && (i == 0 || 100 * Sum(counts[..i]) < 99 * Sum(counts))
  }

  lemma ReachesOnce(counts: seq<nat>, i: nat, j: nat)
    requires Reaches(counts, i) && Reaches(counts, j)
    ensures i == j
  {
    if i < j {
      SumPrefix(counts, i + 1, j);
    } else if j < i {
      SumPrefix(counts, j + 1, i);
    }
  }

  /** That bucket, looked for from bucket n downwards. */
  function BucketFrom(counts: seq<nat>, n: nat): (i: nat)
    requires n < |counts| && 100 * Sum(counts[..n + 1]) >= 99 * Sum(counts)
    ensures Reaches(counts, i)
  {
    if n == 0 || 100 * Sum(counts[..n]) < 99 * Sum(counts) then n else BucketFrom(counts, n - 1)
  }

  /** Where there is an observation there is one such bucket. */
  function Bucket(counts: seq<nat>): (i: nat)
    requires Sum(counts) > 0
    ensures Reaches(counts, i) && forall k :: Reaches(counts, k) ==> k == i
  {
    assert counts[..|counts| - 1 + 1] == counts;
    var i := BucketFrom(counts, |counts| - 1);
    OnlyBucket(counts, i);
    i
  }

  lemma OnlyBucket(counts: seq<nat>, i: nat)
    requires Reaches(counts, i)
    ensures forall k :: Reaches(counts, k) ==> k == i
  {
    forall k | Reaches(counts, k) ensures k == i {
      ReachesOnce(counts, i, k);
    }
  }

  function Interpolate(lower: real, upper: real, total: nat, before: nat, count: nat): (x: real)
    requires count > 0
  {
    lower + (upper - lower) * ((0.99 * total as real - before as real) / count as real)
  }

  /** The value given for bucket i: its upper bound for the first bucket, a point between its
      bounds otherwise, and 0 when there are fewer bounds than buckets. */
  function Estimate(bounds: seq<Bound>, counts: seq<nat>, i: nat): (r: Bound)
    requires Rising(bounds) && Reaches(counts, i)
  {
    if i >= |bounds| then Finite(0.0)
    else if i == 0 || bounds[i].PlusInf? then bounds[i]
    else
      SumStep(counts, i);
      Finite(Interpolate(bounds[i - 1].x, bounds[i].x, Sum(counts), Sum(counts[..i]), counts[i]))
  }

  lemma SumStep(counts: seq<nat>, i: nat)
    requires i < |counts|
    ensures Sum(counts[..i + 1]) == Sum(counts[..i]) + counts[i]
  {
    assert counts[..i + 1][..i] == counts[..i];
  }

  lemma Compare(count: nat, total: nat)
    ensures count as real >= 0.99 * total as real <==> 100 * count >= 99 * total
  {
    assert 100.0 * (0.99 * total as real) == 99.0 * total as real;
    assert 100.0 * count as real == (100 * count) as real && 99.0 * total as real == (99 * total) as real;
  }

  /** The merge loops: `merged` holds the sums of the first children. */
  method Merge(children: seq<seq<nat>>) returns (merged: array<nat>)
    requires children != []
    ensures fresh(merged) && merged[..] == Merged(children)
  {
    var first := children[0];
    merged := new nat[|first|](i requires 0 <= i < |first| => first[i]);
    assert children[..1][..0] == [];
    for c := 1 to |children|
      invariant forall i :: 0 <= i < merged.Length ==> merged[i] == Column(children[..c], i)
    {
      assert children[..c + 1][..c] == children[..c];
      var child := children[c];
      for i := 0 to |child|
        invariant forall k :: 0 <= k < merged.Length ==>
          merged[k] == Column(children[..c], k) + if k < i then child[k] else 0
      {
        if i < merged.Length {
          merged[i] := merged[i] + child[i];
        }
      }
    }
    assert children[..|children|] == children;
  }

  method Cumulate(a: array<nat>)
    modifies a
    ensures forall i :: 0 <= i < a.Length ==> a[i] == Sum(old(a[..])[..i + 1])
  {
    if a.Length == 0 {
      return;
    }
    ghost var counts := a[..];
    SumStep(counts, 0);
    for i := 1 to a.Length
      invariant forall k :: 0 <= k < i ==> a[k] == Sum(counts[..k + 1])
      invariant forall k :: i <= k < a.Length ==> a[k] == counts[k]
    {
      SumStep(counts, i);
      a[i] := a[i] + a[i - 1];
    }
  }

  lemma InterpolateIs(lower: real, upper: real, total: nat, before: nat, count: nat, target: real, fraction: real)
    requires count > 0 && target == 0.99 * total as real && fraction == (target - before as real) / count as real
    ensures Interpolate(lower, upper, total, before, count) == lower + (upper - lower) * fraction
  {
  }

  /** The scan: it returns inside the loop for every positive total. */
  method Scan(bounds: seq<Bound>, merged: array<nat>, ghost counts: seq<nat>) returns (r: Bound)
    requires Rising(bounds) && |counts| == merged.Length > 0 && Sum(counts) > 0
    requires forall i :: 0 <= i < merged.Length ==> merged[i] == Sum(counts[..i + 1])
    ensures r == Estimate(bounds, counts, Bucket(counts))
  {
    assert counts[..|counts| - 1 + 1] == counts;
    var total := merged[merged.Length - 1];
    var target := 0.99 * total as real;
    for i := 0 to merged.Length
      invariant i == 0 || 100 * Sum(counts[..i]) < 99 * total
    {
      var count := merged[i];
      Compare(count, total);
      if count as real >= target {
        assert Reaches(counts, i);
        if i >= |bounds| {
          return Finite(0.0);
        }
        var upper := bounds[i];
        if i == 0 {
          return upper;
        }
        SumStep(counts, i);
        var before := merged[i - 1];
        assert before == Sum(counts[..i]);
        Compare(before, total);
        if before as real >= target {
          return upper;
        }
        if upper.PlusInf? {
          return PlusInf;
        }
        var lower := bounds[i - 1].x;
        var fraction := (target - before as real) / (count - before) as real;
        assert count - before == counts[i] && total == Sum(counts);
        InterpolateIs(lower, upper.x, total, before, count - before, target, fraction);
        return Finite(lower + (upper.x - lower) * fraction);
      }
    }
    assert false;
  }

  /** p99_latency.  0 stands for "nothing observed" and for every swallowed exception. */
  method P99(bounds: seq<Bound>, children: seq<seq<nat>>) returns (r: Bound)
    requires Rising(bounds)
    ensures bounds == [] || Sum(Merged(children)) == 0 ==> r == Finite(0.0)
    ensures bounds != [] && Sum(Merged(children)) > 0 ==>
      r == Estimate(bounds, Merged(children), Bucket(Merged(children)))
  {
    if children == [] || bounds == [] {
      return Finite(0.0);
    }
    var merged := Merge(children);
    ghost var counts := Merged(children);
    Cumulate(merged);
    if merged.Length == 0 {
      return Finite(0.0);
    }
    assert counts[..|counts| - 1 + 1] == counts;
    if merged[merged.Length - 1] == 0 {
      return Finite(0.0);
    }
    r := Scan(bounds, merged, counts);
  }

  // ----- the sample behind the counts -----

  predicate AtMostBound(x: real, b: Bound)
  {
    b.PlusInf? || x <= b.x
  }

  function CountAtMost(xs: seq<real>, b: Bound): (n: nat)
    ensures n <= |xs|
  {
    if xs == [] then 0
    else CountAtMost(xs[..|xs| - 1], b) + if AtMostBound(xs[|xs| - 1], b) then 1 else 0
  }

  function CountBelow(xs: seq<real>, y: real): (n: nat)
    ensures n <= |xs|
  {
    if xs == [] then 0
    else CountBelow(xs[..|xs| - 1], y) + if xs[|xs| - 1] < y then 1 else 0
  }

  /** Observation x falls into bucket i. */
  predicate InBucket(bounds: seq<Bound>, i: nat, x: real)
    requires i < |bounds|
  {
    AtMostBound(x, bounds[i]) && (i > 0 ==> !AtMostBound(x, bounds[i - 1]))
  }

  function CountIn(xs: seq<real>, bounds: seq<Bound>, i: nat): (r: nat)
    requires i < |bounds|
  {
    if xs == [] then 0
    else CountIn(xs[..|xs| - 1], bounds, i) + if InBucket(bounds, i, xs[|xs| - 1]) then 1 else 0
  }

  /** A histogram with these bounds that has observed xs holds these counts. */
  predicate Observed(xs: seq<real>, bounds: seq<Bound>, counts: seq<nat>)
  {
    |counts| == |bounds| && forall i :: 0 <= i < |counts| ==> counts[i] == CountIn(xs, bounds, i)
  }

  /** p is the exact 99th percentile: the smallest observation with 99 percent at or below it. */
  predicate IsPercentile(xs: seq<real>, p: real)
  {
    p in xs && 100 * CountAtMost(xs, Finite(p)) >= 99 * |xs| && 100 * CountBelow(xs, p) < 99 * |xs|
  }

  lemma {:induction false} BucketStep(xs: seq<real>, bounds: seq<Bound>, i: nat)
    requires Rising(bounds) && i < |bounds|
    ensures CountAtMost(xs, bounds[i]) == CountIn(xs, bounds, i) + if i == 0 then 0 else CountAtMost(xs, bounds[i - 1])
  {
    if xs != [] {
      BucketStep(xs[..|xs| - 1], bounds, i);
    }
  }

  /** A cumulative count is the number of observations up to the bound. */
  lemma {:induction false} CumulativeIs(xs: seq<real>, bounds: seq<Bound>, counts: seq<nat>, i: nat)
    requires Rising(bounds) && Observed(xs, bounds, counts) && i < |counts|
    ensures Sum(counts[..i + 1]) == CountAtMost(xs, bounds[i])
  {
    BucketStep(xs, bounds, i);
    SumStep(counts, i);
    if i > 0 {
      CumulativeIs(xs, bounds, counts, i - 1);
    } else {
      assert counts[..0] == [];
    }
  }

  lemma {:induction false} AllAtMostInf(xs: seq<real>)
    ensures CountAtMost(xs, PlusInf) == |xs|
  {
    if xs != [] {
      AllAtMostInf(xs[..|xs| - 1]);
    }
  }

  lemma {:induction false} TotalIs(xs: seq<real>, bounds: seq<Bound>, counts: seq<nat>)
    requires Rising(bounds) && Observed(xs, bounds, counts)
    requires bounds != [] && bounds[|bounds| - 1].PlusInf?
    ensures Sum(counts) == |xs|
  {
    CumulativeIs(xs, bounds, counts, |counts| - 1);
    assert counts[..|counts| - 1 + 1] == counts;
    AllAtMostInf(xs);
  }

  lemma {:induction false} CountsGrow(xs: seq<real>, b: Bound, p: real)
    ensures AtMostBound(p, b) ==> CountAtMost(xs, Finite(p)) <= CountAtMost(xs, b)
    ensures !AtMostBound(p, b) ==> CountAtMost(xs, b) <= CountBelow(xs, p)
  {
    if xs != [] {
      CountsGrow(xs[..|xs| - 1], b, p);
    }
  }

  /** The exact percentile of the sample lies in the bucket that the scan stops at. */
  lemma PercentileInBucket(xs: seq<real>, bounds: seq<Bound>, counts: seq<nat>, i: nat, p: real)
    requires Rising(bounds) && bounds != [] && bounds[|bounds| - 1].PlusInf?
    requires Observed(xs, bounds, counts) && Reaches(counts, i) && IsPercentile(xs, p)
    ensures InBucket(bounds, i, p)
  {
    TotalIs(xs, bounds, counts);
    CumulativeIs(xs, bounds, counts, i);
    CountsGrow(xs, bounds[i], p);
    if i > 0 {
      CumulativeIs(xs, bounds, counts, i - 1);
      CountsGrow(xs, bounds[i - 1], p);
    }
  }

  /** A finite estimate lies in the same bucket, and the estimate is +Inf exactly when the
      percentile lies above every finite bound. */
  lemma EstimateInBucket(xs: seq<real>, bounds: seq<Bound>, counts: seq<nat>, i: nat, p: real)
    requires Rising(bounds) && bounds != [] && bounds[|bounds| - 1].PlusInf?
    requires Observed(xs, bounds, counts) && Reaches(counts, i) && IsPercentile(xs, p)
    ensures Estimate(bounds, counts, i).Finite? ==> InBucket(bounds, i, Estimate(bounds, counts, i).x)
    ensures Estimate(bounds, counts, i).PlusInf? <==> forall k :: 0 <= k < |bounds| - 1 ==> p > bounds[k].x
  {
    PercentileInBucket(xs, bounds, counts, i, p);
    if bounds[i].Finite? {
      assert i < |bounds| - 1 && p <= bounds[i].x;
      if i > 0 {
        Inside(bounds, counts, i);
      }
    }
  }

  /** Where an estimate is no interpolation. */
  lemma EstimateAtEnds(bounds: seq<Bound>, counts: seq<nat>, i: nat)
    requires Rising(bounds) && Reaches(counts, i)
    ensures i >= |bounds| ==> Estimate(bounds, counts, i) == Finite(0.0)
    ensures i == 0 < |bounds| ==> Estimate(bounds, counts, i) == bounds[0]
    ensures i < |bounds| && bounds[i].PlusInf? ==> Estimate(bounds, counts, i) == PlusInf
  {
  }

  /** x divides the interval in the ratio in which 99 percent of the total divides the count. */
  predicate Divides(x: real, lower: real, upper: real, total: nat, before: nat, count: nat)
  {
    100.0 * ((x - lower) * count as real) == (upper - lower) * (99 * total - 100 * before) as real
  }

  /** Inside a finite bucket the estimate divides it so. */
  lemma {:induction false} EstimateDivides(bounds: seq<Bound>, counts: seq<nat>, i: nat)
    requires Rising(bounds) && Reaches(counts, i) && 0 < i < |bounds| && bounds[i].Finite?
    ensures Estimate(bounds, counts, i).Finite?
    ensures Divides(Estimate(bounds, counts, i).x, bounds[i - 1].x, bounds[i].x, Sum(counts), Sum(counts[..i]),
                    counts[i])
  {
    SumStep(counts, i);
    var lower, upper, before, total := bounds[i - 1].x, bounds[i].x, Sum(counts[..i]), Sum(counts);
    Divided(lower, upper, total, before, counts[i]);
  }

  lemma Divided(lower: real, upper: real, total: nat, before: nat, count: nat)
    requires count > 0
    ensures Divides(Interpolate(lower, upper, total, before, count), lower, upper, total, before, count)
  {
    var part, width := 0.99 * total as real - before as real, upper - lower;
    Whole(width, part, count as real);
    assert 100.0 * part == (99 * total - 100 * before) as real;
    assert 100.0 * (width * part) == width * (100.0 * part);
  }

  lemma Whole(width: real, part: real, whole: real)
    requires whole > 0.0
    ensures width * (part / whole) * whole == width * part
  {
    var f := part / whole;
    assert f * whole == part;
    assert width * f * whole == width * (f * whole);
  }

  lemma Inside(bounds: seq<Bound>, counts: seq<nat>, i: nat)
    requires Rising(bounds) && Reaches(counts, i) && 0 < i < |bounds| && bounds[i].Finite?
    ensures Estimate(bounds, counts, i).Finite?
    ensures bounds[i - 1].x < Estimate(bounds, counts, i).x <= bounds[i].x
  {
    SumStep(counts, i);
    var before, after, total := Sum(counts[..i]), Sum(counts[..i + 1]), Sum(counts);
    Compare(before, total);
    Compare(after, total);
    Interpolated(bounds[i - 1].x, bounds[i].x, 0.99 * total as real - before as real, counts[i] as real);
  }

  lemma Interpolated(lower: real, upper: real, part: real, whole: real)
    requires lower < upper && 0.0 < part <= whole
    ensures lower < lower + (upper - lower) * (part / whole) <= upper
  {
    var f := part / whole;
    assert 0.0 < f <= 1.0;
    assert 0.0 < (upper - lower) * f;
    assert (upper - lower) * f <= (upper - lower) * 1.0;
  }

  // ----- merging children is observing everything -----

  lemma {:induction false} CountInAppend(xs: seq<real>, ys: seq<real>, bounds: seq<Bound>, i: nat)
    requires i < |bounds|
    ensures CountIn(xs + ys, bounds, i) == CountIn(xs, bounds, i) + CountIn(ys, bounds, i)
  {
    if ys == [] {
      assert xs + ys == xs;
    } else {
      assert (xs + ys)[..|xs + ys| - 1] == xs + ys[..|ys| - 1];
      CountInAppend(xs, ys[..|ys| - 1], bounds, i);
    }
  }

  function Flatten(samples: seq<seq<real>>): (r: seq<real>)
  {
    if samples == [] then [] else Flatten(samples[..|samples| - 1]) + samples[|samples| - 1]
  }

  lemma {:induction false} ColumnIs(samples: seq<seq<real>>, bounds: seq<Bound>, children: seq<seq<nat>>, i: nat)
    requires |samples| == |children| && i < |bounds|
    requires forall c :: 0 <= c < |children| ==> Observed(samples[c], bounds, children[c])
    ensures Column(children, i) == CountIn(Flatten(samples), bounds, i)
  {
    if children != [] {
      var n := |children| - 1;
      ColumnIs(samples[..n], bounds, children[..n], i);
      CountInAppend(Flatten(samples[..n]), samples[n], bounds, i);
    }
  }

  /** The merged counts are those of one histogram that has seen what all the children saw. */
  lemma {:induction false} MergedIsObserved(samples: seq<seq<real>>, bounds: seq<Bound>, children: seq<seq<nat>>)
    requires |samples| == |children| > 0
    requires forall c :: 0 <= c < |children| ==> Observed(samples[c], bounds, children[c])
    ensures Observed(Flatten(samples), bounds, Merged(children))
  {
    assert Observed(samples[0], bounds, children[0]);
    forall i | 0 <= i < |bounds| ensures Merged(children)[i] == CountIn(Flatten(samples), bounds, i) {
      ColumnIs(samples, bounds, children, i);
    }
  }

  /** What P99 answers about everything that the children have observed: the bucket it stops
      at holds the exact percentile, and so does a finite answer's bucket. */
  lemma {:induction false} AnswerIsInPercentileBucket(samples: seq<seq<real>>, bounds: seq<Bound>,
                                                      children: seq<seq<nat>>, p: real)
    requires Rising(bounds) && bounds != [] && bounds[|bounds| - 1].PlusInf?
    requires |samples| == |children| > 0
    requires forall c :: 0 <= c < |children| ==> Observed(samples[c], bounds, children[c])
    requires Sum(Merged(children)) > 0 && IsPercentile(Flatten(samples), p)
    ensures var i := Bucket(Merged(children)); var r := Estimate(bounds, Merged(children), i);
      && i < |bounds| && InBucket(bounds, i, p)
      && (r.Finite? ==> InBucket(bounds, i, r.x))
      && (r.PlusInf? <==> forall k :: 0 <= k < |bounds| - 1 ==> p > bounds[k].x)
  {
    var i := Bucket(Merged(children));
    MergedIsObserved(samples, bounds, children);
    PercentileInBucket(Flatten(samples), bounds, Merged(children), i, p);
    EstimateInBucket(Flatten(samples), bounds, Merged(children), i, p);
  }

  // ----- the percentile exists and is one -----

  lemma PercentileOnce(xs: seq<real>, p: real, q: real)
    requires IsPercentile(xs, p) && IsPercentile(xs, q)
    ensures p == q
  {
    CountsGrow(xs, Finite(p), q);
    CountsGrow(xs, Finite(q), p);
  }

  /** No observation lies strictly between q and y. */
  predicate NoneBetween(xs: seq<real>, q: real, y: real)
  {
    forall k :: 0 <= k < |xs| && xs[k] < y ==> xs[k] <= q
  }

  /** The largest observation below y. */
  lemma {:induction false} LargestBelow(xs: seq<real>, y: real) returns (q: real)
    requires CountBelow(xs, y) > 0
    ensures q in xs && q < y && NoneBetween(xs, q, y)
    ensures CountAtMost(xs, Finite(q)) == CountBelow(xs, y)
  {
    var init, last := xs[..|xs| - 1], xs[|xs| - 1];
    if CountBelow(init, y) == 0 {
      q := last;
      NoneBelow(init, y);
    } else {
      q := LargestBelow(init, y);
      if q < last < y {
        q := last;
      }
    }
    forall k | 0 <= k < |xs| && xs[k] < y ensures xs[k] <= q {
      if k < |init| {
        assert init[k] <= q;
      }
    }
    BelowIsAtMost(xs, q, y);
  }

  lemma {:induction false} NoneBelow(xs: seq<real>, y: real)
    requires CountBelow(xs, y) == 0
    ensures forall k :: 0 <= k < |xs| ==> xs[k] >= y
  {
    if xs != [] {
      NoneBelow(xs[..|xs| - 1], y);
    }
  }

  lemma {:induction false} BelowIsAtMost(xs: seq<real>, q: real, y: real)
    requires q < y && NoneBetween(xs, q, y)
    ensures CountAtMost(xs, Finite(q)) == CountBelow(xs, y)
  {
    if xs != [] {
      BelowIsAtMost(xs[..|xs| - 1], q, y);
    }
  }

  /** Going down from an observation with enough at or below it leads to the percentile. */
  lemma {:induction false} PercentileFrom(xs: seq<real>, x: real) returns (p: real)
    requires x in xs && 100 * CountAtMost(xs, Finite(x)) >= 99 * |xs|
    ensures IsPercentile(xs, p)
    decreases CountBelow(xs, x)
  {
    if 100 * CountBelow(xs, x) < 99 * |xs| {
      p := x;
    } else {
      var q := LargestBelow(xs, x);
      Smaller(xs, q, x);
      p := PercentileFrom(xs, q);
    }
  }

  lemma {:induction false} Smaller(xs: seq<real>, q: real, y: real)
    requires q < y
    ensures CountBelow(xs, q) <= CountBelow(xs, y)
    ensures q in xs ==> CountBelow(xs, q) < CountBelow(xs, y)
  {
    if xs != [] {
      Smaller(xs[..|xs| - 1], q, y);
    }
  }

  lemma {:induction false} Largest(xs: seq<real>) returns (m: real)
    requires xs != []
    ensures m in xs && CountAtMost(xs, Finite(m)) == |xs|
  {
    var init, last := xs[..|xs| - 1], xs[|xs| - 1];
    if init == [] {
      m := last;
    } else {
      m := Largest(init);
      if m < last {
        CountsGrow(init, Finite(last), m);
        m := last;
      }
    }
  }

  /** Every sample has exactly one 99th percentile. */
  lemma PercentileExists(xs: seq<real>) returns (p: real)
    requires xs != []
    ensures IsPercentile(xs, p)
  {
    var m := Largest(xs);
    p := PercentileFrom(xs, m);
  }
}
