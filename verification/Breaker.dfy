/** The sliding-window circuit breaker of core/circuit_breaker.py against the full history
    of what it recorded.

    record_success and record_failure read the clock twice: once themselves, and once
    more inside the call of is_open.  Both readings are parameters. */
module Breaker {
  import opened Prelude

  /** The events later than `cutoff`. */
  function Later(ts: seq<real>, cutoff: real): (r: seq<real>)
  {
    if ts == [] then []
    else
      var rest := Later(ts[..|ts| - 1], cutoff);
      var t := ts[|ts| - 1];
      if t > cutoff then rest + [t] else rest
  }

  lemma {:induction false} LaterAppend(ts: seq<real>, t: real, cutoff: real)
    ensures Later(ts + [t], cutoff) == if t > cutoff then Later(ts, cutoff) + [t] else Later(ts, cutoff)
  {
    assert (ts + [t])[..|ts|] == ts;
  }

  /** Pruning twice is pruning once, at the later cutoff. */
  lemma {:induction false} LaterTwice(ts: seq<real>, c: real, d: real)
    requires c <= d
    ensures Later(Later(ts, c), d) == Later(ts, d)
  {
    if ts != [] {
      var init := ts[..|ts| - 1];
      LaterTwice(init, c, d);
      LaterAppend(Later(init, c), ts[|ts| - 1], d);
    }
  }

  lemma {:induction false} LaterNone(ts: seq<real>, c: real)
    requires forall i :: 0 <= i < |ts| ==> ts[i] <= c
    ensures Later(ts, c) == []
  {
    if ts != [] {
      LaterNone(ts[..|ts| - 1], c);
    }
  }

  lemma {:induction false} LaterAll(ts: seq<real>, c: real)
    requires forall i :: 0 <= i < |ts| ==> ts[i] > c
    ensures Later(ts, c) == ts
  {
    if ts != [] {
      LaterAll(ts[..|ts| - 1], c);
    }
  }

  lemma {:induction false} LaterShrinks(ts: seq<real>, c: real)
    ensures |Later(ts, c)| <= |ts|
  {
    if ts != [] {
      LaterShrinks(ts[..|ts| - 1], c);
    }
  }

  ghost predicate UpTo(ts: seq<real>, t: real)
  {
    forall i :: 0 <= i < |ts| ==> ts[i] <= t
  }

  lemma UpToAppend(ts: seq<real>, t: real)
    requires UpTo(ts, t)
    ensures UpTo(ts + [t], t)
  {
  }

  /** The pruned list and the history agree on everything after the cutoff c; nothing in
      the history is later than `clock`. */
  ghost predicate Tracks(pruned: seq<real>, all: seq<real>, clock: real, c: real)
  {
    UpTo(all, clock) && Later(pruned, c) == Later(all, c)
  }

  lemma {:induction false} PruneTracks(pruned: seq<real>, all: seq<real>, clock: real, c: real, now: real, d: real)
    requires Tracks(pruned, all, clock, c) && clock <= now && c <= d
    ensures Later(pruned, d) == Later(all, d) && Tracks(Later(pruned, d), all, now, d)
    ensures |Later(pruned, d)| <= |pruned|
  {
    LaterTwice(pruned, c, d);
    LaterTwice(all, c, d);
    LaterTwice(pruned, d, d);
    LaterShrinks(pruned, d);
  }

  lemma {:induction false} AppendTracks(pruned: seq<real>, all: seq<real>, clock: real, c: real, t: real)
    requires Tracks(pruned, all, clock, c) && t <= clock
    ensures Tracks(pruned + [t], all + [t], clock, c)
    ensures pruned == Later(all, c) ==> (pruned + [t] == Later(all + [t], c) <==> c < t)
  {
    LaterAppend(pruned, t, c);
    LaterAppend(all, t, c);
  }

  /** The opening rule, on the events of a window. */
  predicate Trips(failures: seq<real>, successes: seq<real>, minFailures: int, threshold: real)
  {
    && |failures| >= minFailures && |failures| + |successes| > 0
    && |failures| as real / (|failures| + |successes|) as real >= threshold
  }

  /** The opening rule without a division. */
  lemma TripsIff(failures: seq<real>, successes: seq<real>, minFailures: int, threshold: real)
    ensures var f, s := |failures|, |successes|;
            Trips(failures, successes, minFailures, threshold) <==>
            f >= minFailures && f + s > 0 && f as real >= threshold * (f + s) as real
  {
    var f, n := |failures| as real, (|failures| + |successes|) as real;
    if n > 0.0 {
      assert f == f / n * n;
      if f / n >= threshold {
        assert f / n * n >= threshold * n;
      } else {
        assert f / n * n < threshold * n;
      }
    }
  }

  /** A further success never makes the breaker open, a further failure never keeps it closed. */
  lemma TripsIsMonotone(failures: seq<real>, successes: seq<real>, minFailures: int, threshold: real, t: real)
    requires 0.0 <= threshold <= 1.0 && failures != []
    ensures Trips(failures, successes + [t], minFailures, threshold) ==>
              Trips(failures, successes, minFailures, threshold)
    ensures Trips(failures, successes, minFailures, threshold) ==>
              Trips(failures + [t], successes, minFailures, threshold)
  {
    TripsIff(failures, successes, minFailures, threshold);
    TripsIff(failures, successes + [t], minFailures, threshold);
    TripsIff(failures + [t], successes, minFailures, threshold);
    var n := |failures| + |successes|;
    Scaled(threshold, n);
    assert |failures| + |successes + [t]| == n + 1 && |failures + [t]| + |successes| == n + 1;
  }

  lemma Scaled(threshold: real, n: nat)
    ensures threshold * (n + 1) as real == threshold * n as real + threshold
  {
    assert (n + 1) as real == n as real + 1.0;
  }

  class CircuitBreaker {
    const threshold: real
    const minFailures: int
    const recovery: real
    const window: real
    var successes: seq<real>
    var failures: seq<real>
    var openedAt: Option<real>
    /** Everything ever recorded, and the latest clock reading. */
    ghost var allSuccesses: seq<real>
    ghost var allFailures: seq<real>
    ghost var clock: real
    /** The failures recorded since the breaker last closed. */
    ghost var newFailures: nat

    ghost predicate Valid()
      reads this
    {
      && window >= 0.0
      && Tracks(successes, allSuccesses, clock, clock - window) && Tracks(failures, allFailures, clock, clock - window)
      && (openedAt.Some? ==> openedAt.value <= clock
                             && UpTo(allSuccesses, openedAt.value) && UpTo(allFailures, openedAt.value))
      && (window <= recovery && openedAt.None? ==> |failures| <= newFailures)
    }

    /** The lists are exactly the window filter of the history at time t. */
    ghost predicate Exact(t: real)
      reads this
    {
      successes == Later(allSuccesses, t - window) && failures == Later(allFailures, t - window)
    }

    constructor (threshold: real, minFailures: int, recovery: real, window: real, now: real)
      requires window >= 0.0
      ensures Valid() && allSuccesses == [] && allFailures == [] && openedAt.None? && clock == now
      ensures this.threshold == threshold && this.minFailures == minFailures
      ensures this.recovery == recovery && this.window == window && newFailures == 0
    {
      this.threshold, this.minFailures, this.recovery, this.window := threshold, minFailures, recovery, window;
      successes, failures, openedAt := [], [], None;
      allSuccesses, allFailures, clock, newFailures := [], [], now, 0;
    }

    /** _trim. */
    method Trim(now: real)
      requires Valid() && clock <= now
      modifies this`successes, this`failures, this`clock
      ensures Valid() && clock == now && Exact(now)
    {
      PruneTracks(successes, allSuccesses, clock, clock - window, now, now - window);
      PruneTracks(failures, allFailures, clock, clock - window, now, now - window);
      successes := Later(successes, now - window);
      failures := Later(failures, now - window);
      clock := now;
    }

    /** is_open.  With a recovery time at least as long as the window, nothing of the time
        before the opening is left when the breaker closes again. */
    method IsOpen(now: real) returns (open: bool)
      requires Valid() && clock <= now
      modifies this`successes, this`failures, this`clock, this`openedAt, this`newFailures
      ensures Valid() && clock == now && Exact(now)
      ensures open <==> old(openedAt).Some? && now - old(openedAt).value < recovery
      ensures openedAt == if open then old(openedAt) else None
      ensures old(openedAt).Some? && !open && window <= recovery ==> successes == [] && failures == []
      ensures newFailures == if old(openedAt).Some? && !open then 0 else old(newFailures)
    {
      Trim(now);
      if openedAt.Some? {
        if now - openedAt.value < recovery {
          return true;
        }
        Close();
      }
      return false;
    }

    /** The recovery time is over: the next caller is let through. */
    method Close()
      requires Valid() && Exact(clock) && openedAt.Some? && clock - openedAt.value >= recovery
      modifies this`openedAt, this`newFailures
      ensures Valid() && openedAt.None? && newFailures == 0
      ensures window <= recovery ==> successes == [] && failures == []
    {
      if window <= recovery {
        LaterNone(allSuccesses, clock - window);
        LaterNone(allFailures, clock - window);
      }
      openedAt, newFailures := None, 0;
    }

    /** record_success. */
    method RecordSuccess(now: real, later: real)
      requires Valid() && clock <= now <= later
      modifies this
      ensures Valid() && clock == later
      ensures allFailures == old(allFailures)
      ensures var open := old(openedAt).Some? && later - old(openedAt).value < recovery;
              && openedAt == (if open then old(openedAt) else None)
              && allSuccesses == if open then old(allSuccesses) else old(allSuccesses) + [now]
      ensures later - now < window || allSuccesses == old(allSuccesses) ==> Exact(later)
    {
      Trim(now);
      var open := IsOpen(later);
      if open {
        return;
      }
      AppendSuccess(now);
    }

    /** Appending the earlier reading to the list pruned at the later one. */
    method AppendSuccess(t: real)
      requires Valid() && t <= clock && Exact(clock) && openedAt.None?
      modifies this`successes, this`allSuccesses
      ensures Valid() && successes == old(successes) + [t] && allSuccesses == old(allSuccesses) + [t]
      ensures Exact(clock) <==> clock - t < window
    {
      AppendTracks(successes, allSuccesses, clock, clock - window, t);
      successes := successes + [t];
      allSuccesses := allSuccesses + [t];
    }

    method AppendFailure(t: real)
      requires Valid() && t <= clock && Exact(clock) && openedAt.None?
      modifies this`failures, this`allFailures, this`newFailures
      ensures Valid() && failures == old(failures) + [t] && allFailures == old(allFailures) + [t]
      ensures newFailures == old(newFailures) + 1
      ensures Exact(clock) <==> clock - t < window
      ensures window <= recovery ==> |failures| <= newFailures
    {
      AppendTracks(failures, allFailures, clock, clock - window, t);
      failures := failures + [t];
      allFailures := allFailures + [t];
      newFailures := newFailures + 1;
    }

    /** record_failure.  When recovery is at least the window, or one failure is enough, every
        opening has seen minFailures failures since the breaker last closed.  The breaker opens
        exactly when it was not open and the window of the whole history, this failure included,
        trips.  The window filter and the lists agree if and only if less than a window passed
        between the two readings. */
    method RecordFailure(now: real, later: real)
      requires Valid() && clock <= now <= later
      modifies this
      ensures Valid() && clock == later
      ensures allSuccesses == old(allSuccesses)
      ensures var wasOpen := old(openedAt).Some? && later - old(openedAt).value < recovery;
              && allFailures == (if wasOpen then old(allFailures) else old(allFailures) + [now])
              && (wasOpen ==> openedAt == old(openedAt) && Exact(later))
              && (!wasOpen ==> (Exact(later) <==> later - now < window))
              && (!wasOpen && later - now < window ==>
                    openedAt == if Trips(Later(allFailures, later - window), Later(allSuccesses, later - window),
                                         minFailures, threshold) then Some(now) else None)
              && (!wasOpen && openedAt.Some? && (window <= recovery || minFailures <= 1) ==> newFailures >= minFailures)
      ensures newFailures == if old(openedAt).None? then old(newFailures) + 1
                             else if later - old(openedAt).value < recovery then old(newFailures) else 1
    {
      Trim(now);
      var open := IsOpen(later);
      if open {
        return;
      }
      CountFailure(now);
    }

    /** The last lines of record_failure, with the breaker closed. */
    method CountFailure(t: real)
      requires Valid() && t <= clock && Exact(clock) && openedAt.None?
      requires UpTo(allSuccesses, t) && UpTo(allFailures, t)
      modifies this`failures, this`allFailures, this`newFailures, this`openedAt
      ensures Valid() && allFailures == old(allFailures) + [t] && newFailures == old(newFailures) + 1
      ensures Exact(clock) <==> clock - t < window
      ensures openedAt == if Trips(failures, successes, minFailures, threshold) then Some(t) else None
      ensures openedAt.Some? && (window <= recovery || minFailures <= 1) ==> newFailures >= minFailures
    {
      UpToAppend(allFailures, t);
      AppendFailure(t);
      var trips := ShouldOpen();
      if trips {
        Open(t);
      }
    }

    method Open(t: real)
      requires Valid() && openedAt.None? && t <= clock && UpTo(allSuccesses, t) && UpTo(allFailures, t)
      modifies this`openedAt
      ensures Valid() && openedAt == Some(t)
    {
      openedAt := Some(t);
    }

    /** _should_open. */
    method ShouldOpen() returns (open: bool)
      ensures open == Trips(failures, successes, minFailures, threshold)
      ensures open ==> |failures| >= minFailures
    {
      var total := |failures| + |successes|;
      if |failures| < minFailures || total == 0 {
        return false;
      }
      open := |failures| as real / total as real >= threshold;
    }
  }

  lemma OnlyFailures(failures: seq<real>, minFailures: nat, threshold: real)
    requires failures != [] && threshold <= 1.0
    ensures Trips(failures, [], minFailures, threshold) <==> |failures| >= minFailures
  {
    var n := |failures| as real;
    assert n / n == 1.0;
  }

  /** A failure while all the earlier ones are still in the window, no success ever. */
  method FailOnce(b: CircuitBreaker, t: real)
    requires b.Valid() && b.clock <= t && b.allSuccesses == []
    requires b.threshold <= 1.0 && b.minFailures >= 0 && b.window > 0.0
    requires b.openedAt.Some? ==> b.recovery <= t - b.openedAt.value
    requires forall i :: 0 <= i < |b.allFailures| ==> t - b.window < b.allFailures[i]
    modifies b
    ensures b.Valid() && b.clock == t && b.allSuccesses == []
    ensures b.allFailures == old(b.allFailures) + [t]
    ensures b.newFailures == if old(b.openedAt).None? then old(b.newFailures) + 1 else 1
    ensures b.openedAt == if |b.allFailures| >= b.minFailures then Some(t) else None
  {
    ghost var all, cutoff := b.allFailures + [t], t - b.window;
    LaterAll(all, cutoff);
    OnlyFailures(all, b.minFailures, b.threshold);
    assert Later([], cutoff) == [];
    b.RecordFailure(t, t);
  }

  /** The other half: for every recovery time shorter than the window, old failures count
      again, and a breaker that asks for any number of failures reopens on a single new one.
      So each reopening has minFailures new failures behind it exactly for the settings with
      window <= recovery or minFailures <= 1. */
  method ReopensOnOneFailure(threshold: real, minFailures: nat, recovery: real, window: real)
    returns (b: CircuitBreaker)
    requires threshold <= 1.0 && minFailures >= 1 && 0.0 <= recovery < window
    ensures fresh(b) && b.Valid() && b.threshold == threshold && b.minFailures == minFailures
    ensures b.recovery == recovery && b.window == window
    ensures b.openedAt == Some(recovery) && b.newFailures == 1
    ensures minFailures >= 2 ==> b.newFailures < b.minFailures
    ensures |b.allFailures| == minFailures + 1 && b.allFailures[minFailures] == recovery
  {
    b := new CircuitBreaker(threshold, minFailures, recovery, window, 0.0);
    for i := 0 to minFailures
      invariant fresh(b) && b.Valid() && b.allSuccesses == [] && b.clock == 0.0
      invariant |b.allFailures| == i && forall k :: 0 <= k < i ==> b.allFailures[k] == 0.0
      invariant b.openedAt == if i > 0 && i == minFailures then Some(0.0) else None
    {
      FailOnce(b, 0.0);
    }
    FailOnce(b, recovery);
  }
}
