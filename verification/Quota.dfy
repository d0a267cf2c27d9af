/** The optimistic daily quotas: core/token_quota.py and check_external_api_quota of
    monitoring/rate_limit_controller.py.  Both add to a shared counter, look at the total
    the addition returned, and take the addition back when it is over the limit.  One key
    (user and day), any number of concurrent callers, any interleaving; Redis may fail
    under any command. */
module Quota {
  import opened Prelude

  /** One call.  `seen` is the total its INCRBY returned.  Broken: a Redis error ended the
      call; `passed` is what the caller was let through with (the amount when the error is
      swallowed, 0 when it is raised) and `counted` what the counter keeps of it. */
  datatype Call =
    | Pending(amount: nat, seen: int)
    | Admitted(amount: nat)
    | RollingBack(amount: nat)
    | Refused
    | Broken(passed: nat, counted: nat)

  datatype State = State(limit: int, counter: int, calls: seq<Call>)

  datatype Action =
    | Increment(amount: nat)
    | Decide(call: nat)
    | Decrement(call: nat)
    | IncrementFails(amount: nat, applied: bool, swallowed: bool)
    | ExpireFails(call: nat, swallowed: bool)
    | DecrementFails(call: nat, applied: bool, swallowed: bool)

  function Apply(s: State, a: Action): (r: State)
  {
    match a
    case Increment(amount) =>
      s.(counter := s.counter + amount, calls := s.calls + [Pending(amount, s.counter + amount)])
    case Decide(i) =>
      if i < |s.calls| && s.calls[i].Pending? then
        var c := s.calls[i];
        s.(calls := s.calls[i := if c.seen > s.limit then RollingBack(c.amount) else Admitted(c.amount)])
      else s
    case Decrement(i) =>
      if i < |s.calls| && s.calls[i].RollingBack? then
        s.(counter := s.counter - s.calls[i].amount, calls := s.calls[i := Refused])
      else s
    case IncrementFails(amount, applied, swallowed) =>
      var counted := if applied then amount else 0;
      s.(counter := s.counter + counted, calls := s.calls + [Broken(if swallowed then amount else 0, counted)])
    case ExpireFails(i, swallowed) =>
      // EXPIRE is only sent by the call that created the key
      if i < |s.calls| && s.calls[i].Pending? && s.calls[i].seen == s.calls[i].amount then
        var c := s.calls[i];
        s.(calls := s.calls[i := Broken(if swallowed then c.amount else 0, c.amount)])
      else s
    case DecrementFails(i, applied, swallowed) =>
      if i < |s.calls| && s.calls[i].RollingBack? then
        var c := s.calls[i];
        s.(counter := if applied then s.counter - c.amount else s.counter,
           calls := s.calls[i := Broken(if swallowed then c.amount else 0, if applied then 0 else c.amount)])
      else s
  }

  function Run(s: State, as_: seq<Action>): (r: State)
    decreases |as_|
  {
    if as_ == [] then s else Run(Apply(s, as_[0]), as_[1..])
  }

  function Init(limit: int): (s: State)
  {
    State(limit, 0, [])
  }

  // ---------------------------------------------------------------- accounts

  datatype Account = Granted | InFlight | Leaked | LetThrough

  /** What a call puts on an account: granted within the limit (decided or only still to
      be told), still to be rolled back, left in the counter by an error, let through by
      an error. */
  function Entry(c: Call, limit: int, acc: Account): (n: nat)
  {
    match c
    case Pending(amount, seen) =>
      if (acc.Granted? && seen <= limit) || (acc.InFlight? && seen > limit) then amount else 0
    case Admitted(amount) => if acc.Granted? then amount else 0
    case RollingBack(amount) => if acc.InFlight? then amount else 0
    case Refused => 0
    case Broken(passed, counted) => if acc.Leaked? then counted else if acc.LetThrough? then passed else 0
  }

  function Total(cs: seq<Call>, limit: int, acc: Account): (n: nat)
  {
    if cs == [] then 0 else Entry(cs[0], limit, acc) + Total(cs[1..], limit, acc)
  }

  lemma {:induction false} TotalAppend(cs: seq<Call>, c: Call, limit: int, acc: Account)
    ensures Total(cs + [c], limit, acc) == Total(cs, limit, acc) + Entry(c, limit, acc)
  {
    if cs == [] {
      assert cs + [c] == [c];
    } else {
      assert (cs + [c])[1..] == cs[1..] + [c];
      TotalAppend(cs[1..], c, limit, acc);
    }
  }

  lemma {:induction false} TotalUpdate(cs: seq<Call>, i: nat, c: Call, limit: int, acc: Account)
    requires i < |cs|
    ensures Total(cs[i := c], limit, acc) == Total(cs, limit, acc) - Entry(cs[i], limit, acc) + Entry(c, limit, acc)
  {
    if i > 0 {
      assert cs[i := c][1..] == cs[1..][i - 1 := c];
      TotalUpdate(cs[1..], i - 1, c, limit, acc);
    } else {
      assert cs[i := c][1..] == cs[1..];
    }
  }

  /** The books balance and the grants respect the limit. */
  ghost predicate Balanced(s: State)
  {
    && s.counter == Total(s.calls, s.limit, Granted) + Total(s.calls, s.limit, InFlight)
                    + Total(s.calls, s.limit, Leaked)
    && Total(s.calls, s.limit, Granted) <= if s.limit < 0 then 0 else s.limit
  }

  lemma AppendBalanced(s: State, c: Call, counter: int)
    requires Balanced(s)
    requires counter == s.counter + Entry(c, s.limit, Granted) + Entry(c, s.limit, InFlight) + Entry(c, s.limit, Leaked)
    requires Entry(c, s.limit, Granted) == 0 || counter <= s.limit
    ensures Balanced(State(s.limit, counter, s.calls + [c]))
  {
    TotalAppend(s.calls, c, s.limit, Granted);
    TotalAppend(s.calls, c, s.limit, InFlight);
    TotalAppend(s.calls, c, s.limit, Leaked);
  }

  lemma UpdateBalanced(s: State, i: nat, c: Call, counter: int)
    requires Balanced(s) && i < |s.calls|
    requires Entry(c, s.limit, Granted) <= Entry(s.calls[i], s.limit, Granted)
    requires var b := s.calls[i];
             counter - Entry(c, s.limit, Granted) - Entry(c, s.limit, InFlight) - Entry(c, s.limit, Leaked)
             == s.counter - Entry(b, s.limit, Granted) - Entry(b, s.limit, InFlight) - Entry(b, s.limit, Leaked)
    ensures Balanced(State(s.limit, counter, s.calls[i := c]))
  {
    TotalUpdate(s.calls, i, c, s.limit, Granted);
    TotalUpdate(s.calls, i, c, s.limit, InFlight);
    TotalUpdate(s.calls, i, c, s.limit, Leaked);
  }

  /** Every step of every caller keeps the books. */
  lemma StepBalanced(s: State, a: Action)
    requires Balanced(s)
    ensures Balanced(Apply(s, a)) && Apply(s, a).limit == s.limit
  {
    match a {
      case Increment(amount) => AppendBalanced(s, Pending(amount, s.counter + amount), s.counter + amount);
      case IncrementFails(amount, applied, swallowed) =>
        var counted := if applied then amount else 0;
        AppendBalanced(s, Broken(if swallowed then amount else 0, counted), s.counter + counted);
      case _ =>
        var r := Apply(s, a);
        if r != s {
          UpdateBalanced(s, a.call, r.calls[a.call], r.counter);
        }
    }
  }

  /** Safety over all runs: the counter is what was granted plus what is still to be
      rolled back plus what errors left behind, and the grants never exceed the limit. */
  lemma {:induction false} RunBalanced(s: State, as_: seq<Action>)
    requires Balanced(s)
    ensures Balanced(Run(s, as_)) && Run(s, as_).limit == s.limit
    decreases |as_|
  {
    if as_ != [] {
      StepBalanced(s, as_[0]);
      RunBalanced(Apply(s, as_[0]), as_[1..]);
    }
  }

  predicate Faultless(a: Action)
  {
    a.Increment? || a.Decide? || a.Decrement?
  }

  predicate Quiet(s: State)
  {
    forall i :: 0 <= i < |s.calls| ==> !s.calls[i].Pending? && !s.calls[i].RollingBack?
  }

  lemma {:induction false} QuietTotals(cs: seq<Call>, limit: int)
    requires forall i :: 0 <= i < |cs| ==> !cs[i].Pending? && !cs[i].RollingBack?
    ensures Total(cs, limit, InFlight) == 0
  {
    if cs != [] {
      QuietTotals(cs[1..], limit);
    }
  }

  lemma {:induction false} UnbrokenTotals(cs: seq<Call>, limit: int)
    requires forall i :: 0 <= i < |cs| ==> !cs[i].Broken?
    ensures Total(cs, limit, Leaked) == 0 && Total(cs, limit, LetThrough) == 0
  {
    if cs != [] {
      UnbrokenTotals(cs[1..], limit);
    }
  }

  lemma {:induction false} FaultlessUnbroken(s: State, as_: seq<Action>)
    requires forall i :: 0 <= i < |s.calls| ==> !s.calls[i].Broken?
    requires forall i :: 0 <= i < |as_| ==> Faultless(as_[i])
    ensures forall i :: 0 <= i < |Run(s, as_).calls| ==> !Run(s, as_).calls[i].Broken?
    decreases |as_|
  {
    if as_ != [] {
      assert Faultless(as_[0]);
      FaultlessUnbroken(Apply(s, as_[0]), as_[1..]);
    }
  }

  /** With Redis healthy: at every moment the counter is granted plus to be rolled back,
      and once all calls are over it is exactly what was granted. */
  lemma {:induction false} QuietCounterIsGranted(limit: int, as_: seq<Action>)
    requires forall i :: 0 <= i < |as_| ==> Faultless(as_[i])
    ensures var s := Run(Init(limit), as_);
            && s.counter == Total(s.calls, limit, Granted) + Total(s.calls, limit, InFlight)
            && Total(s.calls, limit, Granted) <= (if limit < 0 then 0 else limit)
            && (Quiet(s) ==> s.counter == Total(s.calls, limit, Granted))
  {
    var s := Run(Init(limit), as_);
    RunBalanced(Init(limit), as_);
    FaultlessUnbroken(Init(limit), as_);
    UnbrokenTotals(s.calls, limit);
    if Quiet(s) {
      QuietTotals(s.calls, limit);
    }
  }

  /** What callers got through with in all. */
  function Used(s: State): (n: nat)
  {
    Total(s.calls, s.limit, Granted) + Total(s.calls, s.limit, LetThrough)
  }

  /** The commands that may fail under a call. */
  datatype Fault = OnIncrement | OnExpire | OnDecrement

  /** The code swallows the faults in `swallowed` and raises on the others. */
  predicate Handles(a: Action, swallowed: set<Fault>)
  {
    match a
    case IncrementFails(_, _, sw) => sw <==> OnIncrement in swallowed
    case ExpireFails(_, sw) => sw <==> OnExpire in swallowed
    case DecrementFails(_, _, sw) => sw <==> OnDecrement in swallowed
    case _ => true
  }

  ghost predicate AllHandled(as_: seq<Action>, swallowed: set<Fault>)
  {
    forall i :: 0 <= i < |as_| ==> Handles(as_[i], swallowed)
  }

  /** No interleaving of any callers under any faults uses more than the limit. */
  ghost predicate KeepsLimit(limit: nat, swallowed: set<Fault>)
  {
    forall as_ :: AllHandled(as_, swallowed) ==> Used(Run(Init(limit), as_)) <= limit
  }

  predicate NoneLetThrough(cs: seq<Call>)
  {
    forall i :: 0 <= i < |cs| ==> cs[i].Broken? ==> cs[i].passed == 0
  }

  lemma {:induction false} NothingLetThrough(s: State, as_: seq<Action>)
    requires AllHandled(as_, {}) && NoneLetThrough(s.calls)
    ensures NoneLetThrough(Run(s, as_).calls)
    decreases |as_|
  {
    if as_ != [] {
      assert Handles(as_[0], {});
      assert forall i :: 0 <= i < |as_| - 1 ==> as_[1..][i] == as_[i + 1];
      NothingLetThrough(Apply(s, as_[0]), as_[1..]);
    }
  }

  lemma {:induction false} NoneIsZero(cs: seq<Call>, limit: int)
    requires NoneLetThrough(cs)
    ensures Total(cs, limit, LetThrough) == 0
  {
    if cs != [] {
      NoneIsZero(cs[1..], limit);
    }
  }

  lemma {:induction false} RunTwo(s: State, a: Action, b: Action)
    ensures Run(s, [a, b]) == Apply(Apply(s, a), b)
  {
    assert [a, b][1..] == [b] && [b][1..] == [];
    assert Run(s, [a, b]) == Run(Apply(s, a), [b]) == Run(Apply(Apply(s, a), b), []);
  }

  /** Used by a single call that an error let through. */
  lemma OneBroken(s: State, c: Call)
    requires s.calls == [c] && c.Broken?
    ensures Used(s) == c.passed
  {
    assert [c][1..] == [];
    assert Total([c], s.limit, Granted) == Entry(c, s.limit, Granted) + Total([], s.limit, Granted);
    assert Total([c], s.limit, LetThrough) == Entry(c, s.limit, LetThrough) + Total([], s.limit, LetThrough);
  }

  /** A run that overspends, for each kind of fault that is swallowed: one call for more than
      the whole day, and the fault. */
  function Overspend(limit: nat, f: Fault): (as_: seq<Action>)
  {
    match f
    case OnIncrement => [IncrementFails(limit + 1, false, true)]
    case OnExpire => [Increment(limit + 1), ExpireFails(0, true)]
    case OnDecrement => [Increment(limit + 1), Decide(0), DecrementFails(0, false, true)]
  }

  lemma SwallowedFaultOverspends(limit: nat, f: Fault)
    ensures Used(Run(Init(limit), Overspend(limit, f))) == limit + 1
  {
    var s, as_, n := Init(limit), Overspend(limit, f), limit + 1;
    match f {
      case OnIncrement =>
        var t := Apply(s, as_[0]);
        assert as_[1..] == [] && Run(s, as_) == Run(t, []) == t;
        OneBroken(t, Broken(n, 0));
      case OnExpire =>
        RunTwo(s, as_[0], as_[1]);
        var t := Apply(s, as_[0]);
        assert t.calls == [Pending(n, n)];
        assert Apply(t, as_[1]).calls == [Broken(n, n)];
        OneBroken(Apply(t, as_[1]), Broken(n, n));
      case OnDecrement =>
        var t := Apply(s, as_[0]);
        assert t.calls == [Pending(n, n)];
        var u := Apply(t, as_[1]);
        assert u.calls == [RollingBack(n)];
        var v := Apply(u, as_[2]);
        assert v.calls == [Broken(n, n)];
        assert as_[1..] == [as_[1], as_[2]] && Run(s, as_) == Run(t, as_[1..]);
        RunTwo(t, as_[1], as_[2]);
        OneBroken(v, Broken(n, n));
    }
  }

  /** The quota is a quota exactly for code that swallows no fault: check_and_record_tokens,
      which raises on all of them, keeps the limit in every run; check_external_api_quota and
      check_token_quota, its caller, which swallow them, do not, whichever command fails. */
  lemma KeepsLimitIff(limit: nat, swallowed: set<Fault>)
    ensures KeepsLimit(limit, swallowed) <==> swallowed == {}
  {
    if swallowed == {} {
      forall as_ | AllHandled(as_, swallowed) ensures Used(Run(Init(limit), as_)) <= limit {
        RunBalanced(Init(limit), as_);
        NothingLetThrough(Init(limit), as_);
        NoneIsZero(Run(Init(limit), as_).calls, limit);
      }
    } else {
      var f :| f in swallowed;
      SwallowedFaultOverspends(limit, f);
      assert AllHandled(Overspend(limit, f), swallowed);
    }
  }

  /** A refusal is exact but for the calls in flight: a call is granted if and only if the
      granted, in-flight and leaked amounts leave room for it. */
  lemma GrantedWhenRoom(s: State, amount: nat)
    requires Balanced(s)
    ensures var c := Apply(s, Increment(amount)).calls[|s.calls|];
            c.Pending? && (c.seen <= s.limit <==>
                             amount + Total(s.calls, s.limit, Granted) + Total(s.calls, s.limit, InFlight)
                             + Total(s.calls, s.limit, Leaked) <= s.limit)
  {
    assert (s.calls + [Pending(amount, s.counter + amount)])[|s.calls|] == Pending(amount, s.counter + amount);
  }

  // ---------------------------------------------------------------- the checking code

  ghost predicate Leaves(as_: seq<Action>, call: nat)
  {
    forall i :: 0 <= i < |as_| ==>
      as_[i].Increment? || as_[i].IncrementFails? || as_[i].call != call
  }

  /** Other callers never touch this call's place. */
  lemma {:induction false} OthersLeaveCall(s: State, as_: seq<Action>, i: nat)
    requires i < |s.calls| && Leaves(as_, i)
    ensures i < |Run(s, as_).calls| && Run(s, as_).calls[i] == s.calls[i]
    decreases |as_|
  {
    if as_ != [] {
      assert forall k :: 0 <= k < |as_| - 1 ==> as_[1..][k] == as_[k + 1];
      OthersLeaveCall(Apply(s, as_[0]), as_[1..], i);
    }
  }

  class Key {
    var st: State

    constructor (limit: int)
      ensures st == Init(limit) && Balanced(st)
    {
      st := Init(limit);
    }

    /** check_and_record_tokens and check_external_api_quota, with Redis healthy.  `others`
        is what the concurrent callers do before the addition, before the decision and
        before the roll-back.  The answer depends on the counter at the addition alone; a call
        that is refused takes its amount back. */
    method CheckAndRecord(amount: int, others: seq<seq<Action>>) returns (allowed: bool)
      requires Balanced(st) && |others| == 3
      requires var call := |Run(st, others[0]).calls|; Leaves(others[1], call) && Leaves(others[2], call)
      modifies this
      ensures Balanced(st)
      ensures amount <= 0 ==> allowed && st == old(st)
      ensures amount > 0 ==>
                var before := Run(old(st), others[0]);
                allowed <==> before.counter + amount <= st.limit
      ensures amount > 0 ==>
                var call := |Run(old(st), others[0]).calls|;
                call < |st.calls| && st.calls[call] == if allowed then Admitted(amount) else Refused
      ensures amount > 0 ==>
                var before := Run(old(st), others[0]);
                var counted := Apply(before, Increment(amount));
                var decided := Apply(Run(counted, others[1]), Decide(|before.calls|));
                st == if allowed then decided else Apply(Run(decided, others[2]), Decrement(|before.calls|))
    {
      if amount <= 0 {
        return true;
      }
      RunBalanced(st, others[0]);
      st := Run(st, others[0]);
      var call := |st.calls|;
      StepBalanced(st, Increment(amount));
      st := Apply(st, Increment(amount));
      var newTotal := st.counter;
      RunBalanced(st, others[1]);
      OthersLeaveCall(st, others[1], call);
      st := Run(st, others[1]);
      StepBalanced(st, Decide(call));
      st := Apply(st, Decide(call));
      if newTotal > st.limit {
        RunBalanced(st, others[2]);
        OthersLeaveCall(st, others[2], call);
        st := Run(st, others[2]);
        StepBalanced(st, Decrement(call));
        st := Apply(st, Decrement(call));
        return false;
      }
      return true;
    }
  }
}
