/** The quorum lock of core/redlock.py: n Redis masters, one clock, and any number of
    clients whose commands to single nodes interleave freely.

    A client is known by the token it drew.  Every command to one node (SET NX EX, GET,
    EXPIRE, the compare-and-delete script) is one atomic step, and each may lose its
    request or its reply.  `Apply` executes one step, `Run` a whole schedule; the class
    at the end is the loop code of the source, with other clients' steps let in before
    each command. */
module Redlock {
  import opened Prelude

  type Token = nat

  datatype Entry = Entry(token: Token, expiresAt: int)

  /** What the network does to one command. */
  datatype Reply = Answered | RequestLost | ReplyLost

  /** Where a client stands.  `granted`, `support` and `confirmed` are the nodes behind
      the counters of the source: the ones that accepted SET NX in the current round,
      the ones that carry the lock, the ones whose EXPIRE met the client's own key. */
  datatype Phase =
    | Acquiring(start: int, next: nat, acquired: nat, granted: set<nat>)
    | Waiting
    | GaveUp
    | Held(since: int, support: set<nat>)
    | Extending(since: int, support: set<nat>,
                start: int, next: nat, saw: bool, extended: nat, confirmed: set<nat>)
    | Releasing(next: nat)

  datatype State = State(ttl: int, now: int, nodes: seq<Option<Entry>>, clients: map<Token, Phase>)
  {
    function Quorum(): (q: nat) { |nodes| / 2 + 1 }

    /** The token a GET on node k would return. */
    function Get(k: nat): (r: Option<Token>)
      requires k < |nodes|
    {
      if nodes[k].Some? && now < nodes[k].value.expiresAt then Some(nodes[k].value.token) else None
    }
  }

  datatype Action =
    | Tick(elapsed: nat)
    | Begin(tok: Token)
    | TrySet(tok: Token, reply: Reply)
    | EndRound(tok: Token, retry: bool)
    | Retry(tok: Token)
    | BeginExtend(tok: Token)
    | ExtendGet(tok: Token, reply: Reply)
    | ExtendExpire(tok: Token, reply: Reply)
    | EndExtend(tok: Token)
    | BeginRelease(tok: Token)
    | ReleaseNode(tok: Token, reply: Reply)

  function Init(n: nat, ttl: int, now: int): (s: State)
  {
    State(ttl, now, seq(n, _ => None), map[])
  }

  /** SET resource tok NX EX ttl on node k. */
  function SetNx(s: State, k: nat, tok: Token): (nodes: seq<Option<Entry>>)
    requires k < |s.nodes|
  {
    if s.Get(k).None? then s.nodes[k := Some(Entry(tok, s.now + s.ttl))] else s.nodes
  }

  /** EXPIRE resource ttl on node k, whoever owns the key. */
  function Expire(s: State, k: nat): (nodes: seq<Option<Entry>>)
    requires k < |s.nodes|
  {
    if s.Get(k).Some? then s.nodes[k := Some(s.nodes[k].value.(expiresAt := s.now + s.ttl))] else s.nodes
  }

  /** The release script on node k. */
  function CompareAndDelete(s: State, k: nat, tok: Token): (nodes: seq<Option<Entry>>)
    requires k < |s.nodes|
  {
    if s.Get(k) == Some(tok) then s.nodes[k := None] else s.nodes
  }

  function SetPhase(s: State, tok: Token, p: Phase): (r: State)
  {
    s.(clients := s.clients[tok := p])
  }

  /** One step.  A step whose client is not at that point of its code does nothing. */
  function Apply(s: State, a: Action): (r: State)
  {
    if a.Tick? then s.(now := s.now + a.elapsed)
    else if a.Begin? then
      if a.tok in s.clients then s else SetPhase(s, a.tok, Acquiring(s.now, 0, 0, {}))
    else if a.tok !in s.clients then s
    else
      var p := s.clients[a.tok];
      match a
      case TrySet(tok, reply) =>
        if p.Acquiring? && p.next < |s.nodes| then
          var ok := reply.Answered? && s.Get(p.next).None?;
          SetPhase(s.(nodes := if reply.RequestLost? then s.nodes else SetNx(s, p.next, tok)), tok,
                   Acquiring(p.start, p.next + 1,
                             if ok then p.acquired + 1 else p.acquired,
                             if ok then p.granted + {p.next} else p.granted))
        else s
      case EndRound(tok, retry) =>
        if p.Acquiring? && p.next == |s.nodes| then
          SetPhase(s, tok, if p.acquired >= s.Quorum() then Held(p.start, p.granted)
                           else if retry then Waiting else GaveUp)
        else s
      case Retry(tok) =>
        if p.Waiting? then SetPhase(s, tok, Acquiring(s.now, 0, 0, {})) else s
      case BeginExtend(tok) =>
        if p.Held? then SetPhase(s, tok, Extending(p.since, p.support, s.now, 0, false, 0, {})) else s
      case ExtendGet(tok, reply) =>
        if p.Extending? && p.next < |s.nodes| && !p.saw then
          SetPhase(s, tok, if reply.Answered? && s.Get(p.next) == Some(tok) then p.(saw := true)
                           else p.(next := p.next + 1))
        else s
      case ExtendExpire(tok, reply) =>
        if p.Extending? && p.next < |s.nodes| && p.saw then
          SetPhase(s.(nodes := if reply.RequestLost? then s.nodes else Expire(s, p.next)), tok,
                   p.(next := p.next + 1, saw := false,
                      extended := if reply.Answered? then p.extended + 1 else p.extended,
                      confirmed := if reply.Answered? && s.Get(p.next) == Some(tok)
                                   then p.confirmed + {p.next} else p.confirmed))
        else s
      case EndExtend(tok) =>
        if p.Extending? && p.next == |s.nodes| then
          SetPhase(s, tok, if |p.confirmed| >= s.Quorum() then Held(p.start, p.confirmed)
                           else Held(p.since, p.support))
        else s
      case BeginRelease(tok) =>
        if p.Held? || p.Extending? then SetPhase(s, tok, Releasing(0)) else s
      case ReleaseNode(tok, reply) =>
        if p.Releasing? && p.next < |s.nodes| then
          SetPhase(s.(nodes := if reply.RequestLost? then s.nodes else CompareAndDelete(s, p.next, tok)), tok,
                   Releasing(p.next + 1))
        else s
  }

  function Run(s: State, schedule: seq<Action>): (r: State)
    decreases |schedule|
  {
    if schedule == [] then s else Run(Apply(s, schedule[0]), schedule[1..])
  }

  // ---------------------------------------------------------------- invariant

  /** While the window opened at `since` lasts, each node in S holds tok to its end. */
  ghost predicate Backed(s: State, tok: Token, since: int, S: set<nat>)
  {
    && Within(S, |s.nodes|)
    && (s.now < since + s.ttl ==>
          forall k :: k in S ==> s.nodes[k].Some? && s.nodes[k].value.token == tok
                                 && since + s.ttl <= s.nodes[k].value.expiresAt)
  }

  ghost predicate ClientOk(s: State, tok: Token, p: Phase)
  {
    match p
    case Acquiring(start, next, acquired, granted) =>
      && start <= s.now && next <= |s.nodes| && Within(granted, next)
      && acquired == |granted| && Backed(s, tok, start, granted)
    case Held(since, support) =>
      since <= s.now && Backed(s, tok, since, support) && |support| >= s.Quorum()
    case Extending(since, support, start, next, saw, extended, confirmed) =>
      && Backed(s, tok, since, support) && |support| >= s.Quorum()
      && since <= start <= s.now && next <= |s.nodes| && Within(confirmed, next)
      && |confirmed| <= extended && Backed(s, tok, start, confirmed)
    case _ => true
  }

  ghost predicate ExpiriesBounded(s: State)
  {
    forall k :: 0 <= k < |s.nodes| && s.nodes[k].Some? ==> s.nodes[k].value.expiresAt <= s.now + s.ttl
  }

  ghost predicate Inv(s: State)
  {
    && ExpiriesBounded(s)
    && (forall tok :: tok in s.clients ==> ClientOk(s, tok, s.clients[tok]))
  }

  lemma InitInv(n: nat, ttl: int, now: int)
    ensures Inv(Init(n, ttl, now))
  {
  }

  /** Writing node k disturbs no open window but one of tok's, if k was free or tok's. */
  lemma BackedKept(s: State, r: State, u: Token, since: int, S: set<nat>)
    requires Backed(s, u, since, S) && r.ttl == s.ttl && s.now <= r.now && |r.nodes| == |s.nodes|
    requires forall k :: 0 <= k < |s.nodes| && s.Get(k) == Some(u) ==>
               r.nodes[k].Some? && r.nodes[k].value.token == u
               && s.nodes[k].value.expiresAt <= r.nodes[k].value.expiresAt
    ensures Backed(r, u, since, S)
  {
    if r.now < since + r.ttl {
      forall k | k in S
        ensures r.nodes[k].Some? && r.nodes[k].value.token == u && since + r.ttl <= r.nodes[k].value.expiresAt
      {
        assert s.Get(k) == Some(u);
      }
    }
  }

  /** What one step may do to a live key: nothing but lengthen it, unless its owner
      deletes it or its time runs out. */
  lemma LiveKeyStays(s: State, a: Action, k: nat)
    requires Inv(s) && k < |s.nodes| && s.Get(k).Some?
    ensures var r := Apply(s, a); var u := s.Get(k).value;
            && (!(a.ReleaseNode? && a.tok == u) ==>
                  && r.nodes[k].Some? && r.nodes[k].value.token == u
                  && s.nodes[k].value.expiresAt <= r.nodes[k].value.expiresAt)
            && (r.nodes[k].None? ==> a.ReleaseNode? && a.tok == u)
  {
  }

  /** A client other than the one that acts stays as it was, and so does what it counts on. */
  lemma OthersKept(s: State, a: Action, u: Token)
    requires Inv(s) && u in s.clients && (a.Tick? || a.tok != u)
    ensures var r := Apply(s, a); u in r.clients && r.clients[u] == s.clients[u] && ClientOk(r, u, r.clients[u])
  {
    var r := Apply(s, a);
    forall k | 0 <= k < |s.nodes| && s.Get(k) == Some(u)
      ensures r.nodes[k].Some? && r.nodes[k].value.token == u
              && s.nodes[k].value.expiresAt <= r.nodes[k].value.expiresAt
    {
      LiveKeyStays(s, a, k);
    }
    match s.clients[u] {
      case Acquiring(start, _, _, granted) => BackedKept(s, r, u, start, granted);
      case Held(since, support) => BackedKept(s, r, u, since, support);
      case Extending(since, support, start, _, _, _, confirmed) =>
        BackedKept(s, r, u, since, support);
        BackedKept(s, r, u, start, confirmed);
      case _ =>
    }
  }

  /** The acting client's keys survive its own step, a delete aside. */
  lemma OwnKeysKept(s: State, a: Action)
    requires Inv(s) && !a.Tick? && !a.ReleaseNode?
    ensures var r := Apply(s, a);
            forall k :: 0 <= k < |s.nodes| && s.Get(k) == Some(a.tok) ==>
              r.nodes[k].Some? && r.nodes[k].value.token == a.tok
              && s.nodes[k].value.expiresAt <= r.nodes[k].value.expiresAt
  {
    forall k | 0 <= k < |s.nodes| && s.Get(k) == Some(a.tok)
      ensures var r := Apply(s, a);
              r.nodes[k].Some? && r.nodes[k].value.token == a.tok
              && s.nodes[k].value.expiresAt <= r.nodes[k].value.expiresAt
    {
      LiveKeyStays(s, a, k);
    }
  }

  lemma TrySetOk(s: State, tok: Token, reply: Reply)
    requires Inv(s) && tok in s.clients && s.clients[tok].Acquiring? && s.clients[tok].next < |s.nodes|
    ensures var r := Apply(s, TrySet(tok, reply)); tok in r.clients && ClientOk(r, tok, r.clients[tok])
  {
    var r := Apply(s, TrySet(tok, reply));
    var p := s.clients[tok];
    OwnKeysKept(s, TrySet(tok, reply));
    BackedKept(s, r, tok, p.start, p.granted);
    assert p.next !in p.granted;
  }

  lemma ExtendExpireOk(s: State, tok: Token, reply: Reply)
    requires Inv(s) && tok in s.clients && s.clients[tok].Extending?
    requires s.clients[tok].next < |s.nodes| && s.clients[tok].saw
    ensures var r := Apply(s, ExtendExpire(tok, reply)); tok in r.clients && ClientOk(r, tok, r.clients[tok])
  {
    var r := Apply(s, ExtendExpire(tok, reply));
    var p := s.clients[tok];
    OwnKeysKept(s, ExtendExpire(tok, reply));
    BackedKept(s, r, tok, p.since, p.support);
    BackedKept(s, r, tok, p.start, p.confirmed);
    assert p.next !in p.confirmed;
  }

  /** The acting client's own claim is sound after its step. */
  lemma ActorOk(s: State, a: Action)
    requires Inv(s) && !a.Tick?
    ensures var r := Apply(s, a); a.tok in r.clients ==> ClientOk(r, a.tok, r.clients[a.tok])
  {
    if a.tok in s.clients {
      match a {
        case TrySet(tok, reply) =>
          if s.clients[tok].Acquiring? && s.clients[tok].next < |s.nodes| { TrySetOk(s, tok, reply); }
        case ExtendExpire(tok, reply) =>
          var p := s.clients[tok];
          if p.Extending? && p.next < |s.nodes| && p.saw { ExtendExpireOk(s, tok, reply); }
        case ReleaseNode(tok, reply) =>
          if s.clients[tok].Releasing? && s.clients[tok].next < |s.nodes| {
            assert Apply(s, a).clients[tok].Releasing?;
          }
        case _ =>
      }
    }
  }

  lemma BoundKept(s: State, a: Action)
    requires ExpiriesBounded(s)
    ensures ExpiriesBounded(Apply(s, a))
  {
  }

  /** Every step keeps the invariant. */
  lemma StepInv(s: State, a: Action)
    requires Inv(s)
    ensures Inv(Apply(s, a))
  {
    var r := Apply(s, a);
    BoundKept(s, a);
    forall u | u in r.clients
      ensures ClientOk(r, u, r.clients[u])
    {
      if a.Tick? || a.tok != u {
        assert u in s.clients;
        OthersKept(s, a, u);
      } else {
        ActorOk(s, a);
      }
    }
  }

  lemma {:induction false} RunInv(s: State, schedule: seq<Action>)
    requires Inv(s)
    ensures Inv(Run(s, schedule))
    decreases |schedule|
  {
    if schedule != [] {
      StepInv(s, schedule[0]);
      RunInv(Apply(s, schedule[0]), schedule[1..]);
    }
  }

  // ---------------------------------------------------------------- mutual exclusion

  /** tok was handed to its caller, its release has not begun, and its window is open. */
  ghost predicate Valid(s: State, tok: Token)
  {
    && tok in s.clients && (s.clients[tok].Held? || s.clients[tok].Extending?)
    && s.now < s.clients[tok].since + s.ttl
  }

  /** The nodes on which tok's key is live. */
  ghost function LiveOn(s: State, tok: Token): (r: set<nat>)
  {
    set k: nat | k < |s.nodes| && s.Get(k) == Some(tok)
  }

  /** A valid lock really is on a quorum of nodes. */
  lemma ValidIsOnQuorum(s: State, tok: Token)
    requires Inv(s) && Valid(s, tok)
    ensures |LiveOn(s, tok)| >= s.Quorum()
  {
    var support := s.clients[tok].support;
    assert support <= LiveOn(s, tok);
    SubsetSize(support, LiveOn(s, tok));
  }

  /** At most one token is live on a quorum, in any state whatever. */
  lemma OneQuorum(s: State, a: Token, b: Token)
    requires |LiveOn(s, a)| >= s.Quorum() && |LiveOn(s, b)| >= s.Quorum()
    ensures a == b
  {
    QuorumsMeet(|s.nodes|, LiveOn(s, a), LiveOn(s, b));
    var k :| k in LiveOn(s, a) * LiveOn(s, b);
  }

  /** Safety over all runs: two locks are never valid together. */
  lemma {:induction false} MutualExclusion(n: nat, ttl: int, now: int, schedule: seq<Action>, a: Token, b: Token)
    requires var s := Run(Init(n, ttl, now), schedule); Valid(s, a) && Valid(s, b)
    ensures a == b
  {
    var s := Run(Init(n, ttl, now), schedule);
    RunInv(Init(n, ttl, now), schedule);
    ValidIsOnQuorum(s, a);
    ValidIsOnQuorum(s, b);
    OneQuorum(s, a, b);
  }

  /** tok has been handed out for the window that opened at `since`: its lock is valid, hence
      live on a quorum and the only valid one, exactly while that window lasts. */
  ghost predicate HeldSince(s: State, tok: Token, since: int)
  {
    && tok in s.clients && s.clients[tok].Held? && s.clients[tok].since == since
    && (Valid(s, tok) <==> s.now < since + s.ttl)
    && (s.now < since + s.ttl ==> |LiveOn(s, tok)| >= s.Quorum() && forall u :: Valid(s, u) ==> u == tok)
  }

  lemma HeldIsWorth(s: State, tok: Token)
    requires Inv(s) && tok in s.clients && s.clients[tok].Held?
    ensures HeldSince(s, tok, s.clients[tok].since)
  {
    if Valid(s, tok) {
      ValidIsOnQuorum(s, tok);
      forall u | Valid(s, u) ensures u == tok {
        ValidIsOnQuorum(s, u);
        OneQuorum(s, u, tok);
      }
    }
  }

  ghost predicate Releases(schedule: seq<Action>, tok: Token)
  {
    exists i :: 0 <= i < |schedule| && schedule[i] == BeginRelease(tok)
  }

  /** Once handed out, a lock stays handed out, its window never shrinking, until its
      release begins. */
  lemma {:induction false} KeptUntilRelease(s: State, schedule: seq<Action>, a: Token)
    requires Inv(s) && a in s.clients && (s.clients[a].Held? || s.clients[a].Extending?)
    requires !Releases(schedule, a)
    ensures var r := Run(s, schedule);
            && a in r.clients && (r.clients[a].Held? || r.clients[a].Extending?)
            && s.clients[a].since <= r.clients[a].since && r.ttl == s.ttl && s.now <= r.now
    decreases |schedule|
  {
    if schedule != [] {
      var s' := Apply(s, schedule[0]);
      assert schedule[0] != BeginRelease(a);
      StepInv(s, schedule[0]);
      assert forall i :: 0 <= i < |schedule| - 1 ==> schedule[1..][i] == schedule[i + 1];
      KeptUntilRelease(s', schedule[1..], a);
    }
  }

  /** Exclusive windows.  Client a's round began at t0 and its token was out by the time
      t1 < t0 + ttl of state s.  If another token is out and inside its own window at any
      later moment before t0 + ttl, then a's release has begun in between.  So the
      windows [t1, t0 + ttl) of two successful acquires never overlap, whatever failed
      rounds, lost replies, expiries and extends the schedule holds. */
  lemma {:induction false} WindowsDisjoint(n: nat, ttl: int, now: int, before: seq<Action>, between: seq<Action>,
                                           a: Token, b: Token)
    requires var s := Run(Init(n, ttl, now), before); var r := Run(s, between);
             Valid(s, a) && Valid(r, b) && a != b && r.now < s.clients[a].since + ttl
    ensures Releases(between, a)
  {
    var s := Run(Init(n, ttl, now), before);
    RunInv(Init(n, ttl, now), before);
    RunInv(s, between);
    RunKeepsTtl(Init(n, ttl, now), before);
    if !Releases(between, a) {
      KeptUntilRelease(s, between, a);
      var r := Run(s, between);
      ValidIsOnQuorum(r, a);
      ValidIsOnQuorum(r, b);
      OneQuorum(r, a, b);
    }
  }

  lemma {:induction false} RunKeepsTtl(s: State, schedule: seq<Action>)
    ensures Run(s, schedule).ttl == s.ttl && |Run(s, schedule).nodes| == |s.nodes|
    decreases |schedule|
  {
    if schedule != [] {
      RunKeepsTtl(Apply(s, schedule[0]), schedule[1..]);
    }
  }

  // ---------------------------------------------------------------- release, extend, progress

  /** release(tok) deletes tok's keys and no others. */
  lemma {:induction false} ReleaseSparesOthers(s: State, tok: Token, replies: seq<Reply>, k: nat)
    requires k < |s.nodes|
    ensures var r := Run(s, seq(|replies|, i requires 0 <= i < |replies| => ReleaseNode(tok, replies[i])));
            |r.nodes| == |s.nodes| && r.now == s.now &&
            (r.nodes[k] == s.nodes[k] || (s.Get(k) == Some(tok) && r.nodes[k].None?))
    decreases |replies|
  {
    if replies != [] {
      var sched := seq(|replies|, i requires 0 <= i < |replies| => ReleaseNode(tok, replies[i]));
      assert sched[1..] == seq(|replies| - 1, i requires 0 <= i < |replies| - 1 => ReleaseNode(tok, replies[1..][i]));
      ReleaseSparesOthers(Apply(s, sched[0]), tok, replies[1..], k);
    }
  }

  predicate Sees(s: State, tok: Token)
  {
    tok in s.clients && s.clients[tok].Extending? && s.clients[tok].saw
  }

  /** When the key that tok's GET has shown runs out: this step's, if it is such a GET. */
  function ShownUntil(s: State, a: Action, tok: Token, until: int): (r: int)
  {
    if a == ExtendGet(tok, Answered) && tok in s.clients && s.clients[tok].Extending? &&
       s.clients[tok].next < |s.nodes| && s.Get(s.clients[tok].next) == Some(tok)
    then s.nodes[s.clients[tok].next].value.expiresAt
    else until
  }

  /** The EXPIREs of tok that are counted although the key that their GET has shown had run out
      when they arrived; `until` is when the key shown last does. */
  ghost function Late(s: State, m: seq<Action>, tok: Token, until: int): (n: nat)
    decreases |m|
  {
    if m == [] then 0
    else
      (if IsLate(s, m[0], tok, until) then 1 else 0) +
      Late(Apply(s, m[0]), m[1..], tok, ShownUntil(s, m[0], tok, until))
  }

  predicate IsLate(s: State, a: Action, tok: Token, until: int)
  {
    a == ExtendExpire(tok, Answered) && Sees(s, tok) && until <= s.now
  }

  /** tok's own steps are the GETs and EXPIREs of an extend. */
  ghost predicate OnlyExtends(m: seq<Action>, tok: Token)
  {
    forall i :: 0 <= i < |m| ==> m[i].Tick? || m[i].tok != tok || m[i].ExtendGet? || m[i].ExtendExpire?
  }

  /** No other client sends an EXPIRE, which could lengthen a key of tok's. */
  ghost predicate OwnExpires(m: seq<Action>, tok: Token)
  {
    forall i :: 0 <= i < |m| ==> m[i].ExtendExpire? ==> m[i].tok == tok
  }

  /** The key shown is there until it runs out. */
  ghost predicate Shown(s: State, tok: Token, until: int)
  {
    Sees(s, tok) ==>
      var k := s.clients[tok].next;
      k < |s.nodes| && (s.now < until ==>
        s.nodes[k].Some? && s.nodes[k].value.token == tok && until <= s.nodes[k].value.expiresAt)
  }

  /** ... and no longer. */
  ghost predicate ShownOnly(s: State, tok: Token, until: int)
  {
    Sees(s, tok) ==>
      var k := s.clients[tok].next;
      k < |s.nodes| && (s.nodes[k].Some? && s.nodes[k].value.token == tok ==> s.nodes[k].value.expiresAt <= until)
  }

  function Gap(p: Phase): (r: int)
    requires p.Extending?
  {
    p.extended - |p.confirmed|
  }

  predicate Missed(s: State, a: Action, tok: Token)
  {
    a == ExtendExpire(tok, Answered) && Sees(s, tok) && s.clients[tok].next < |s.nodes| &&
    s.Get(s.clients[tok].next) != Some(tok)
  }

  /** The extend of tok goes on: same window, same start. */
  predicate GoesOn(s: State, r: State, tok: Token)
    requires tok in s.clients && s.clients[tok].Extending?
  {
    && tok in r.clients && r.clients[tok].Extending?
    && r.clients[tok].start == s.clients[tok].start && r.clients[tok].since == s.clients[tok].since
  }

  lemma OthersExtendStep(s: State, a: Action, tok: Token, until: int)
    requires Inv(s) && tok in s.clients && s.clients[tok].Extending? && Shown(s, tok, until)
    requires a.Tick? || a.tok != tok
    ensures var r := Apply(s, a);
            GoesOn(s, r, tok) && Shown(r, tok, until) && Gap(r.clients[tok]) == Gap(s.clients[tok])
  {
    var p := s.clients[tok];
    if p.saw && s.Get(p.next).Some? {
      LiveKeyStays(s, a, p.next);
    }
  }

  lemma ExtendStep(s: State, a: Action, tok: Token, until: int)
    requires Inv(s) && tok in s.clients && s.clients[tok].Extending? && Shown(s, tok, until)
    requires a.Tick? || a.tok != tok || a.ExtendGet? || a.ExtendExpire?
    ensures var r := Apply(s, a);
            && GoesOn(s, r, tok) && Shown(r, tok, ShownUntil(s, a, tok, until))
            && Gap(r.clients[tok]) == Gap(s.clients[tok]) + if Missed(s, a, tok) then 1 else 0
  {
    if a.Tick? || a.tok != tok {
      OthersExtendStep(s, a, tok, until);
    } else if a.ExtendExpire? && s.clients[tok].saw {
      assert s.clients[tok].next !in s.clients[tok].confirmed;
    }
  }

  lemma ExtendStepOnly(s: State, a: Action, tok: Token, until: int)
    requires tok in s.clients && s.clients[tok].Extending? && ShownOnly(s, tok, until)
    requires a.Tick? || a.tok != tok || a.ExtendGet? || a.ExtendExpire?
    requires a.ExtendExpire? ==> a.tok == tok
    ensures ShownOnly(Apply(s, a), tok, ShownUntil(s, a, tok, until))
  {
  }

  /** An EXPIRE that has not met the client's key was late; and if nobody else's EXPIRE can
      lengthen that key, a late one has not met it. */
  lemma MissedIsLate(s: State, a: Action, tok: Token, until: int)
    requires tok in s.clients && s.clients[tok].Extending? && Shown(s, tok, until)
    ensures Missed(s, a, tok) ==> IsLate(s, a, tok, until)
    ensures ShownOnly(s, tok, until) && IsLate(s, a, tok, until) ==> Missed(s, a, tok)
  {
  }

  /** In every interleaving: the count of an extend exceeds the number of EXPIREs that met the
      client's own key by at most the number of late ones, and by exactly that number if nobody
      else's EXPIRE lengthens the key. */
  lemma {:induction false} ExtendCounts(s: State, m: seq<Action>, tok: Token, until: int)
    requires Inv(s) && tok in s.clients && s.clients[tok].Extending? && OnlyExtends(m, tok)
    requires Shown(s, tok, until)
    ensures var r := Run(s, m);
            && Inv(r) && GoesOn(s, r, tok)
            && Gap(r.clients[tok]) <= Gap(s.clients[tok]) + Late(s, m, tok, until)
            && (OwnExpires(m, tok) && ShownOnly(s, tok, until) ==>
                  Gap(r.clients[tok]) == Gap(s.clients[tok]) + Late(s, m, tok, until))
    decreases |m|
  {
    if m != [] {
      var a, s' := m[0], Apply(s, m[0]);
      ExtendStep(s, a, tok, until);
      MissedIsLate(s, a, tok, until);
      StepInv(s, a);
      assert m == [a] + m[1..];
      assert OnlyExtends(m[1..], tok) && (OwnExpires(m, tok) ==> OwnExpires(m[1..], tok));
      if ShownOnly(s, tok, until) && OwnExpires(m, tok) {
        ExtendStepOnly(s, a, tok, until);
      }
      ExtendCounts(s', m[1..], tok, ShownUntil(s, a, tok, until));
    }
  }

  /** What the count of an extend is worth, whatever the others do meanwhile.  If a quorum of the
      EXPIREs counted were not late, the lock holds from the start of the extend; and if nobody
      else's EXPIRE lengthens the client's key, only then: a True answer is right exactly if it
      stays True without the late ones.  After a False one the window stands where it was. */
  lemma {:induction false} ExtendIsRight(s: State, m: seq<Action>, tok: Token)
    requires Inv(s) && tok in s.clients && s.clients[tok].Held? && OnlyExtends(m, tok)
    requires var q := Run(Apply(s, BeginExtend(tok)), m);
             tok in q.clients && q.clients[tok].Extending? && q.clients[tok].next == |q.nodes|
    ensures var t := Apply(s, BeginExtend(tok)); var q := Run(t, m); var r := Apply(q, EndExtend(tok));
            var onTime := q.clients[tok].extended - Late(t, m, tok, 0);
            && (onTime >= q.Quorum() ==> HeldSince(r, tok, s.now))
            && (q.clients[tok].extended < q.Quorum() ==> HeldSince(r, tok, s.clients[tok].since))
            && (OwnExpires(m, tok) && onTime < q.Quorum() ==> HeldSince(r, tok, s.clients[tok].since))
            && (OwnExpires(m, tok) && s.clients[tok].since < s.now ==>
                  (HeldSince(r, tok, s.now) <==> onTime >= q.Quorum()))
  {
    var t := Apply(s, BeginExtend(tok));
    StepInv(s, BeginExtend(tok));
    ExtendCounts(t, m, tok, 0);
    var q := Run(t, m);
    StepInv(q, EndExtend(tok));
    HeldIsWorth(Apply(q, EndExtend(tok)), tok);
  }

  /** The answer of extend can be wrong.  One node, ttl 10: client 0 reads its own key at
      time 9, the key runs out, client 1 takes the lock at time 10, and only then does
      client 0's EXPIRE arrive.  It lengthens client 1's key and is counted, a quorum of
      one, so extend answers True to a client that holds nothing. */
  lemma ExtendCanMislead()
    ensures Run(Init(1, 10, 0), MisleadingExtend()) == Misled()
    ensures var s := Misled();
            && s.clients[0].next == |s.nodes| && s.clients[0].extended >= s.Quorum()
            && LiveOn(s, 0) == {} && !Valid(s, 0) && Valid(s, 1)
  {
    MisleadingRun();
    assert forall k :: k !in LiveOn(Misled(), 0);
  }

  function Misled(): (s: State)
  {
    State(10, 10, [Some(Entry(1, 20))], map[0 := Extending(0, {0}, 9, 1, false, 1, {}), 1 := Held(10, {0})])
  }

  lemma MisleadingRun()
    ensures Run(Init(1, 10, 0), MisleadingExtend()) == Misled()
  {
    var m := MisleadingExtend();
    assert Init(1, 10, 0) == State(10, 0, [None], map[]);
    MisleadingStart();
    MisleadingMiddle();
    MisleadingEnd();
    assert m == m[..3] + (m[3..6] + m[6..]);
    RunSplit(Init(1, 10, 0), m[..3], m[3..6] + m[6..]);
    RunSplit(Run(Init(1, 10, 0), m[..3]), m[3..6], m[6..]);
  }

  lemma MisleadingStart()
    ensures Run(State(10, 0, [None], map[]), MisleadingExtend()[..3])
            == State(10, 0, [Some(Entry(0, 10))], map[0 := Held(0, {0})])
  {
    assert MisleadingExtend()[..3] == [Begin(0), TrySet(0, Answered), EndRound(0, false)];
    var s0 := State(10, 0, [None], map[]);
    var s1 := State(10, 0, [None], map[0 := Acquiring(0, 0, 0, {})]);
    var s2 := State(10, 0, [Some(Entry(0, 10))], map[0 := Acquiring(0, 1, 1, {0})]);
    RunThree(s0, Begin(0), TrySet(0, Answered), EndRound(0, false));
    assert Apply(s0, Begin(0)) == s1;
    SoloStep(s1, 0, s1.clients[0]);
    assert {} + {0} == {0} && SetNx(s1, 0, 0) == s2.nodes;
  }

  lemma MisleadingMiddle()
    ensures Run(State(10, 0, [Some(Entry(0, 10))], map[0 := Held(0, {0})]), MisleadingExtend()[3..6])
            == State(10, 9, [Some(Entry(0, 10))], map[0 := Extending(0, {0}, 9, 0, true, 0, {})])
  {
    assert MisleadingExtend()[3..6] == [Tick(9), BeginExtend(0), ExtendGet(0, Answered)];
    var s0 := State(10, 0, [Some(Entry(0, 10))], map[0 := Held(0, {0})]);
    var s1 := s0.(now := 9);
    var s2 := State(10, 9, [Some(Entry(0, 10))], map[0 := Extending(0, {0}, 9, 0, false, 0, {})]);
    RunThree(s0, Tick(9), BeginExtend(0), ExtendGet(0, Answered));
    assert Apply(s1, BeginExtend(0)) == s2;
  }

  lemma MisleadingTake(e: Phase)
    ensures Run(State(10, 9, [Some(Entry(0, 10))], map[0 := e]), [Tick(1), Begin(1), TrySet(1, Answered)])
            == State(10, 10, [Some(Entry(1, 20))], map[0 := e, 1 := Acquiring(10, 1, 1, {0})])
  {
    var s0 := State(10, 9, [Some(Entry(0, 10))], map[0 := e]);
    var s1 := s0.(now := 10);
    var s2 := s1.(clients := map[0 := e, 1 := Acquiring(10, 0, 0, {})]);
    RunThree(s0, Tick(1), Begin(1), TrySet(1, Answered));
    assert Apply(s1, Begin(1)) == s2;
    SoloStep(s2, 1, s2.clients[1]);
    assert {} + {0} == {0} && SetNx(s2, 0, 1) == [Some(Entry(1, 20))];
  }

  lemma MisleadingEnd()
    ensures Run(State(10, 9, [Some(Entry(0, 10))], map[0 := Extending(0, {0}, 9, 0, true, 0, {})]),
                MisleadingExtend()[6..]) == Misled()
  {
    var e := Extending(0, {0}, 9, 0, true, 0, {});
    var s0 := State(10, 9, [Some(Entry(0, 10))], map[0 := e]);
    var s3 := State(10, 10, [Some(Entry(1, 20))], map[0 := e, 1 := Acquiring(10, 1, 1, {0})]);
    var s4 := s3.(clients := map[0 := e, 1 := Held(10, {0})]);
    MisleadingTake(e);
    assert MisleadingExtend()[6..] == [Tick(1), Begin(1), TrySet(1, Answered)]
                                      + [EndRound(1, false), ExtendExpire(0, Answered)];
    RunSplit(s0, [Tick(1), Begin(1), TrySet(1, Answered)], [EndRound(1, false), ExtendExpire(0, Answered)]);
    RunUnfold(s3, [EndRound(1, false), ExtendExpire(0, Answered)]);
    assert Apply(s3, EndRound(1, false)).clients == s4.clients;
    RunUnfold(s4, [ExtendExpire(0, Answered)]);
    var s5 := Apply(s4, ExtendExpire(0, Answered));
    assert s5.nodes == Misled().nodes && s5.clients == Misled().clients;
  }

  lemma {:induction false} RunThree(s: State, a: Action, b: Action, c: Action)
    ensures Run(s, [a, b, c]) == Apply(Apply(Apply(s, a), b), c)
  {
    RunUnfold(s, [a, b, c]);
    assert [a, b, c][1..] == [b, c] && [b, c][1..] == [c] && [c][1..] == [];
    RunUnfold(Apply(s, a), [b, c]);
    RunUnfold(Apply(Apply(s, a), b), [c]);
  }

  lemma {:induction false} RunSplit(s: State, m: seq<Action>, m': seq<Action>)
    ensures Run(s, m + m') == Run(Run(s, m), m')
    decreases |m|
  {
    if m == [] {
      assert m + m' == m';
    } else {
      assert (m + m')[1..] == m[1..] + m';
      RunSplit(Apply(s, m[0]), m[1..], m');
    }
  }

  function MisleadingExtend(): (m: seq<Action>)
  {
    [Begin(0), TrySet(0, Answered), EndRound(0, false), Tick(9), BeginExtend(0), ExtendGet(0, Answered),
     Tick(1), Begin(1), TrySet(1, Answered), EndRound(1, false), ExtendExpire(0, Answered)]
  }

  lemma {:induction false} RunUnfold(s: State, m: seq<Action>)
    requires m != []
    ensures Run(s, m) == Run(Apply(s, m[0]), m[1..])
  {
  }

  function Tries(tok: Token, nodes: nat): (m: seq<Action>)
  {
    if nodes == 0 then [] else [TrySet(tok, Answered)] + Tries(tok, nodes - 1)
  }

  function SoloRound(tok: Token, nodes: nat): (m: seq<Action>)
  {
    Tries(tok, nodes) + [EndRound(tok, false)]
  }

  /** The free nodes. */
  ghost function Free(s: State): (r: set<nat>)
  {
    set k: nat | k < |s.nodes| && s.Get(k).None?
  }

  /** got is what the client will have: the nodes granted so far and the free ones from j on. */
  ghost predicate Total(s: State, granted: set<nat>, j: nat, got: set<nat>)
  {
    forall k :: k in got <==> k in granted || (j <= k < |s.nodes| && s.Get(k).None?)
  }

  /** nodes is the node array after the undisturbed client tok has tried every node from j on. */
  ghost predicate Taken(s: State, j: nat, tok: Token, nodes: seq<Option<Entry>>)
  {
    && |nodes| == |s.nodes|
    && forall k :: 0 <= k < |nodes| ==>
         nodes[k] == if j <= k && s.Get(k).None? then Some(Entry(tok, s.now + s.ttl)) else s.nodes[k]
  }

  lemma SoloStep(s: State, tok: Token, p: Phase)
    requires tok in s.clients && s.clients[tok] == p && p.Acquiring? && p.next < |s.nodes|
    ensures var free := s.Get(p.next).None?;
            Apply(s, TrySet(tok, Answered))
            == State(s.ttl, s.now, SetNx(s, p.next, tok),
                     s.clients[tok := Acquiring(p.start, p.next + 1,
                                                if free then p.acquired + 1 else p.acquired,
                                                if free then p.granted + {p.next} else p.granted)])
  {
  }

  lemma SoloStepFree(s: State, tok: Token, p: Phase, p': Phase, clients: map<Token, Phase>,
                     got: set<nat>, taken: seq<Option<Entry>>)
    requires p.Acquiring? && p.next < |s.nodes| && Total(s, p.granted, p.next, got) && Taken(s, p.next, tok, taken)
    requires p'.Acquiring? && p'.granted == if s.Get(p.next).None? then p.granted + {p.next} else p.granted
    ensures var r := State(s.ttl, s.now, SetNx(s, p.next, tok), clients);
            Total(r, p'.granted, p.next + 1, got) && Taken(r, p.next + 1, tok, taken)
  {
    var r := State(s.ttl, s.now, SetNx(s, p.next, tok), clients);
    assert forall k :: p.next < k < |s.nodes| ==> r.nodes[k] == s.nodes[k];
  }

  lemma SoloAdvance(s: State, tok: Token, p: Phase, got: set<nat>, taken: seq<Option<Entry>>)
    returns (r: State, p': Phase)
    requires tok in s.clients && s.clients[tok] == p && p.Acquiring? && p.next < |s.nodes|
    requires p.acquired == |p.granted| && Within(p.granted, p.next)
    requires Total(s, p.granted, p.next, got) && Taken(s, p.next, tok, taken)
    ensures r == Apply(s, TrySet(tok, Answered)) && r.now == s.now && r.ttl == s.ttl && |r.nodes| == |s.nodes|
    ensures tok in r.clients && r.clients[tok] == p' && p'.Acquiring? && p'.next == p.next + 1 && p'.start == p.start
    ensures p'.acquired == |p'.granted| && Within(p'.granted, p'.next)
    ensures Total(r, p'.granted, p'.next, got) && Taken(r, p'.next, tok, taken)
  {
    SoloStep(s, tok, p);
    r := Apply(s, TrySet(tok, Answered));
    p' := r.clients[tok];
    SoloStepFree(s, tok, p, p', r.clients, got, taken);
  }

  lemma NothingLeft(s: State, tok: Token, p: Phase, got: set<nat>, taken: seq<Option<Entry>>)
    requires p.Acquiring? && p.next == |s.nodes|
    requires Total(s, p.granted, p.next, got) && Taken(s, p.next, tok, taken)
    ensures got == p.granted && taken == s.nodes
  {
  }

  /** Nobody disturbs: from any node on, the tries take exactly the free nodes. */
  lemma {:induction false} SoloTriesFrom(s: State, tok: Token, p: Phase, rest: nat,
                                         got: set<nat>, taken: seq<Option<Entry>>)
    requires tok in s.clients && s.clients[tok] == p && p.Acquiring? && p.next + rest == |s.nodes|
    requires p.acquired == |p.granted| && Within(p.granted, p.next)
    requires Total(s, p.granted, p.next, got) && Taken(s, p.next, tok, taken)
    ensures var r := Run(s, Tries(tok, rest));
            && r.now == s.now && r.ttl == s.ttl && r.nodes == taken && tok in r.clients
            && r.clients[tok] == Acquiring(p.start, |s.nodes|, |got|, got)
    decreases rest
  {
    if rest == 0 {
      NothingLeft(s, tok, p, got, taken);
    } else {
      var m := Tries(tok, rest);
      RunUnfold(s, m);
      assert m[1..] == Tries(tok, rest - 1);
      var r, p' := SoloAdvance(s, tok, p, got, taken);
      SoloTriesFrom(r, tok, p', rest - 1, got, taken);
    }
  }

  /** A round nobody disturbs, from any node on: it wins exactly with a quorum of free nodes. */
  lemma {:induction false} SoloRoundFrom(s: State, tok: Token, p: Phase, rest: nat, got: set<nat>,
                                         taken: seq<Option<Entry>>)
    requires tok in s.clients && s.clients[tok] == p && p.Acquiring? && p.next + rest == |s.nodes|
    requires p.acquired == |p.granted| && Within(p.granted, p.next)
    requires Total(s, p.granted, p.next, got) && Taken(s, p.next, tok, taken)
    ensures var r := Run(s, SoloRound(tok, rest));
            && r.now == s.now && r.ttl == s.ttl && r.nodes == taken && tok in r.clients
            && r.clients[tok] == if |got| >= s.Quorum() then Held(p.start, got) else GaveUp
  {
    SoloTriesFrom(s, tok, p, rest, got, taken);
    RunSplit(s, Tries(tok, rest), [EndRound(tok, false)]);
    RunUnfold(Run(s, Tries(tok, rest)), [EndRound(tok, false)]);
  }

  /** An undisturbed acquire takes every free node and succeeds exactly when these are a
      quorum. */
  lemma {:induction false} SoloAcquire(s: State, tok: Token)
    requires tok !in s.clients
    ensures var r := Run(s, [Begin(tok)] + SoloRound(tok, |s.nodes|));
            && r.now == s.now && r.ttl == s.ttl && Taken(s, 0, tok, r.nodes) && tok in r.clients
            && r.clients[tok] == if |Free(s)| >= s.Quorum() then Held(s.now, Free(s)) else GaveUp
  {
    var m := [Begin(tok)] + SoloRound(tok, |s.nodes|);
    RunUnfold(s, m);
    assert m[1..] == SoloRound(tok, |s.nodes|);
    var s' := SetPhase(s, tok, Acquiring(s.now, 0, 0, {}));
    assert Apply(s, Begin(tok)) == s';
    FreeIsTotal(s, s', tok);
    SoloRoundFrom(s', tok, Acquiring(s.now, 0, 0, {}), |s.nodes|, Free(s), Grabbed(s, tok));
  }

  /** The nodes once tok has taken all the free ones. */
  ghost function Grabbed(s: State, tok: Token): (r: seq<Option<Entry>>)
    ensures |r| == |s.nodes| && Taken(s, 0, tok, r)
  {
    seq(|s.nodes|, k requires 0 <= k < |s.nodes| =>
      if s.Get(k).None? then Some(Entry(tok, s.now + s.ttl)) else s.nodes[k])
  }

  lemma FreeIsTotal(s: State, s': State, tok: Token)
    requires s'.nodes == s.nodes && s'.now == s.now && s'.ttl == s.ttl
    ensures Total(s', {}, 0, Free(s)) && Taken(s', 0, tok, Grabbed(s, tok))
  {
    assert forall k :: 0 <= k < |s.nodes| ==> s'.Get(k) == s.Get(k);
  }

  // ---------------------------------------------------------------- the round that takes too long

  /** The schedule ends with the return of a token, `elapsed` after its last round began. */
  ghost predicate ReturnsAfter(n: nat, ttl: int, schedule: seq<Action>, tok: Token, elapsed: nat)
  {
    && schedule != [] && schedule[|schedule| - 1] == EndRound(tok, false)
    && var s := Run(Init(n, ttl, 0), schedule);
       tok in s.clients && s.clients[tok].Held? && s.now == s.clients[tok].since + elapsed
  }

  /** Whoever gets a token that late is on a quorum, and nobody else's lock is valid. */
  ghost predicate ReturnIsWorth(n: nat, ttl: int, elapsed: nat)
  {
    forall schedule, tok :: ReturnsAfter(n, ttl, schedule, tok, elapsed) ==>
      var s := Run(Init(n, ttl, 0), schedule);
      |LiveOn(s, tok)| >= s.Quorum() && forall u :: Valid(s, u) ==> u == tok
  }

  /** acquire does not look at the time its round took.  What it returns is worth something
      exactly if the return comes before the round's start plus ttl: at any later moment some
      run has the token of one client handed out while only another's lock is valid. */
  lemma ReturnIsWorthIff(n: nat, ttl: nat, elapsed: nat)
    requires n > 0 && ttl > 0
    ensures ReturnIsWorth(n, ttl, elapsed) <==> elapsed < ttl
  {
    if elapsed < ttl {
      forall schedule, tok | ReturnsAfter(n, ttl, schedule, tok, elapsed)
        ensures var s := Run(Init(n, ttl, 0), schedule);
                |LiveOn(s, tok)| >= s.Quorum() && forall u :: Valid(s, u) ==> u == tok
      {
        RunKeepsTtl(Init(n, ttl, 0), schedule);
        RunInv(Init(n, ttl, 0), schedule);
        HeldIsWorth(Run(Init(n, ttl, 0), schedule), tok);
      }
    } else {
      SlowRound(n, ttl, elapsed);
      assert ReturnsAfter(n, ttl, Slow(n, elapsed), 0, elapsed);
    }
  }

  /** Client 0 takes all the nodes and is slow to look at its count; meanwhile its keys run out
      and client 1 acquires. */
  function Slow(n: nat, elapsed: nat): (m: seq<Action>)
  {
    [Begin(0)] + Tries(0, n) + [Tick(elapsed), Begin(1)] + SoloRound(1, n) + [EndRound(0, false)]
  }

  lemma AllFree(s: State, tok: Token)
    requires forall k :: 0 <= k < |s.nodes| ==> s.Get(k).None?
    ensures Total(s, {}, 0, Below(|s.nodes|))
    ensures Taken(s, 0, tok, seq(|s.nodes|, _ => Some(Entry(tok, s.now + s.ttl))))
  {
  }

  /** All nodes free: an undisturbed client takes them all. */
  lemma {:induction false} TakesAll(s: State, tok: Token)
    requires tok in s.clients && s.clients[tok] == Acquiring(s.now, 0, 0, {})
    requires forall k :: 0 <= k < |s.nodes| ==> s.Get(k).None?
    ensures var r := Run(s, Tries(tok, |s.nodes|));
            && r.now == s.now && r.ttl == s.ttl && r.nodes == seq(|s.nodes|, _ => Some(Entry(tok, s.now + s.ttl)))
            && tok in r.clients && r.clients[tok] == Acquiring(s.now, |s.nodes|, |s.nodes|, Below(|s.nodes|))
  {
    BelowSize(|s.nodes|);
    AllFree(s, tok);
    SoloTriesFrom(s, tok, s.clients[tok], |s.nodes|, Below(|s.nodes|),
                  seq(|s.nodes|, _ => Some(Entry(tok, s.now + s.ttl))));
  }

  /** ... from the call on, leaving the other clients as they are. */
  lemma {:induction false} BeginsAndTakesAll(s: State, tok: Token)
    requires tok !in s.clients && forall k :: 0 <= k < |s.nodes| ==> s.Get(k).None?
    ensures var r := Run(s, [Begin(tok)] + Tries(tok, |s.nodes|));
            && r.now == s.now && r.ttl == s.ttl && r.nodes == seq(|s.nodes|, _ => Some(Entry(tok, s.now + s.ttl)))
            && tok in r.clients && r.clients[tok] == Acquiring(s.now, |s.nodes|, |s.nodes|, Below(|s.nodes|))
            && (forall u :: u in s.clients ==> u in r.clients && r.clients[u] == s.clients[u])
            && (forall u :: u in r.clients ==> u in s.clients || u == tok)
  {
    var m := [Begin(tok)] + Tries(tok, |s.nodes|);
    RunUnfold(s, m);
    assert m[1..] == Tries(tok, |s.nodes|);
    var s' := SetPhase(s, tok, Acquiring(s.now, 0, 0, {}));
    assert Apply(s, Begin(tok)) == s';
    assert forall k :: 0 <= k < |s.nodes| ==> s'.Get(k) == s.Get(k);
    TakesAll(s', tok);
    TriesKeepOthers(s', tok, |s.nodes|);
  }

  lemma {:induction false} TriesKeepOthers(s: State, tok: Token, nodes: nat)
    ensures var r := Run(s, Tries(tok, nodes));
            r.clients.Keys == s.clients.Keys && forall u :: u in s.clients && u != tok ==> r.clients[u] == s.clients[u]
    decreases nodes
  {
    if nodes > 0 {
      var m := Tries(tok, nodes);
      RunUnfold(s, m);
      assert m[1..] == Tries(tok, nodes - 1);
      TriesKeepOthers(Apply(s, TrySet(tok, Answered)), tok, nodes - 1);
    }
  }

  /** Client 0 holds every node but its keys have run out. */
  ghost predicate Lapsed(s: State, n: nat, ttl: nat, elapsed: nat)
  {
    && s.now == elapsed && s.ttl == ttl && |s.nodes| == n && (forall k :: 0 <= k < n ==> s.Get(k).None?)
    && 0 in s.clients && s.clients[0] == Acquiring(0, n, n, Below(n)) && 1 !in s.clients
  }

  lemma {:induction false} SlowStart(n: nat, ttl: nat, elapsed: nat)
    requires elapsed >= ttl > 0
    ensures Lapsed(Apply(Run(Init(n, ttl, 0), [Begin(0)] + Tries(0, n)), Tick(elapsed)), n, ttl, elapsed)
  {
    BeginsAndTakesAll(Init(n, ttl, 0), 0);
  }

  lemma {:induction false} SlowEnd(s: State, n: nat, ttl: nat, elapsed: nat)
    requires n > 0 && elapsed >= ttl > 0 && Lapsed(s, n, ttl, elapsed)
    ensures var r := Run(s, ([Begin(1)] + Tries(1, n)) + [EndRound(1, false), EndRound(0, false)]);
            && r.now == elapsed && 0 in r.clients && r.clients[0] == Held(0, Below(n))
            && LiveOn(r, 0) == {} && !Valid(r, 0) && Valid(r, 1)
  {
    BeginsAndTakesAll(s, 1);
    var second := [Begin(1)] + Tries(1, n);
    RunSplit(s, second, [EndRound(1, false), EndRound(0, false)]);
    BelowSize(n);
    SlowEnds(Run(s, second), n, ttl, elapsed);
  }

  lemma SlowRound(n: nat, ttl: nat, elapsed: nat)
    requires n > 0 && elapsed >= ttl > 0
    ensures ReturnsAfter(n, ttl, Slow(n, elapsed), 0, elapsed)
    ensures var s := Run(Init(n, ttl, 0), Slow(n, elapsed)); LiveOn(s, 0) == {} && !Valid(s, 0) && Valid(s, 1)
  {
    var s0 := Init(n, ttl, 0);
    var first, tick := [Begin(0)] + Tries(0, n), [Tick(elapsed)];
    var rest := ([Begin(1)] + Tries(1, n)) + [EndRound(1, false), EndRound(0, false)];
    SlowStart(n, ttl, elapsed);
    SlowEnd(Apply(Run(s0, first), Tick(elapsed)), n, ttl, elapsed);
    SlowIs(n, elapsed);
    RunSplit(s0, first, tick + rest);
    RunUnfold(Run(s0, first), tick + rest);
    assert (tick + rest)[1..] == rest;
  }

  lemma {:induction false} SlowIs(n: nat, elapsed: nat)
    ensures Slow(n, elapsed) ==
            ([Begin(0)] + Tries(0, n)) +
            ([Tick(elapsed)] + (([Begin(1)] + Tries(1, n)) + [EndRound(1, false), EndRound(0, false)]))
  {
  }

  lemma {:induction false} SlowEnds(s: State, n: nat, ttl: nat, elapsed: nat)
    requires n > 0 && elapsed >= ttl > 0 && s.now == elapsed && s.ttl == ttl && |s.nodes| == n
    requires s.nodes == seq(n, _ => Some(Entry(1, elapsed + ttl)))
    requires 0 in s.clients && s.clients[0] == Acquiring(0, n, n, Below(n))
    requires 1 in s.clients && s.clients[1] == Acquiring(elapsed, n, n, Below(n))
    ensures var r := Run(s, [EndRound(1, false), EndRound(0, false)]);
            && r.now == elapsed && 0 in r.clients && r.clients[0] == Held(0, Below(n))
            && LiveOn(r, 0) == {} && !Valid(r, 0) && Valid(r, 1)
  {
    var a, b := EndRound(1, false), EndRound(0, false);
    RunUnfold(s, [a, b]);
    assert [a, b][1..] == [b];
    RunUnfold(Apply(s, a), [b]);
    var r := Run(s, [a, b]);
    assert r == Apply(Apply(s, a), b);
    assert forall k :: k !in LiveOn(r, 0);
  }

  /** Nothing blocks for ever: one quiet ttl after any reachable state, the leftovers of
      failed rounds included, an undisturbed acquire succeeds. */
  lemma {:induction false} QuietTtlFreesLock(n: nat, ttl: nat, now: int, schedule: seq<Action>, tok: Token)
    requires n > 0 && ttl > 0
    requires tok !in Run(Init(n, ttl, now), schedule).clients
    ensures var s := Apply(Run(Init(n, ttl, now), schedule), Tick(ttl));
            Valid(Run(s, [Begin(tok)] + SoloRound(tok, n)), tok)
  {
    var s0 := Run(Init(n, ttl, now), schedule);
    var s := Apply(s0, Tick(ttl));
    RunInv(Init(n, ttl, now), schedule);
    RunKeepsTtl(Init(n, ttl, now), schedule);
    BelowSize(n);
    assert Free(s) == Below(n);
    SoloAcquire(s, tok);
  }

  /** A live key stays where it is until its time runs out or its owner deletes it. */
  lemma {:induction false} KeyStays(s: State, schedule: seq<Action>, tok: Token, k: nat)
    requires Inv(s) && k < |s.nodes| && s.Get(k) == Some(tok)
    requires forall i :: 0 <= i < |schedule| ==> !(schedule[i].ReleaseNode? && schedule[i].tok == tok)
    ensures var r := Run(s, schedule);
            |r.nodes| == |s.nodes| && s.now <= r.now
            && (r.now < s.nodes[k].value.expiresAt ==> r.Get(k) == Some(tok))
    decreases |schedule|
  {
    if schedule != [] {
      var s' := Apply(s, schedule[0]);
      LiveKeyStays(s, schedule[0], k);
      StepInv(s, schedule[0]);
      RunMovesOn(s', schedule[1..]);
      if s'.now < s'.nodes[k].value.expiresAt {
        KeyStays(s', schedule[1..], tok, k);
      }
    }
  }

  lemma {:induction false} RunMovesOn(s: State, schedule: seq<Action>)
    ensures |Run(s, schedule).nodes| == |s.nodes| && s.now <= Run(s, schedule).now
    decreases |schedule|
  {
    if schedule != [] {
      RunMovesOn(Apply(s, schedule[0]), schedule[1..]);
    }
  }

  /** A failed round is not rolled back, and so it works against its own caller.  The nodes
      it took are free for nobody, neither for the next round under the same token, where the
      caller waits to retry, nor for the next attempt under a fresh one, where it gives up, for
      a whole ttl, whatever happens in the meantime: a retry before then can win only on a
      quorum of the nodes that the first attempt did not get. */
  lemma {:induction false} LeftoversBlockRetries(s: State, tok: Token, retry: bool, later: seq<Action>)
    requires Inv(s) && s.ttl > 0 && tok !in s.clients && |Free(s)| < s.Quorum()
    requires forall i :: 0 <= i < |later| ==> !(later[i].ReleaseNode? && later[i].tok == tok)
    ensures var r := Run(s, [Begin(tok)] + (Tries(tok, |s.nodes|) + [EndRound(tok, retry)]));
            var q := Run(r, later);
            && tok in r.clients && r.clients[tok] == (if retry then Waiting else GaveUp)
            && (q.now < s.now + s.ttl ==> Free(q) * Free(s) == {})
  {
    var round := Tries(tok, |s.nodes|) + [EndRound(tok, retry)];
    var r := Run(s, [Begin(tok)] + round);
    FailedRound(s, tok, retry);
    RunInv(s, [Begin(tok)] + round);
    forall k | k in Free(s) && Run(r, later).now < s.now + s.ttl
      ensures k !in Free(Run(r, later))
    {
      KeyStays(r, later, tok, k);
    }
  }

  lemma {:induction false} FailedRound(s: State, tok: Token, retry: bool)
    requires tok !in s.clients && |Free(s)| < s.Quorum()
    ensures var r := Run(s, [Begin(tok)] + (Tries(tok, |s.nodes|) + [EndRound(tok, retry)]));
            && r.now == s.now && r.ttl == s.ttl && Taken(s, 0, tok, r.nodes)
            && tok in r.clients && r.clients[tok] == if retry then Waiting else GaveUp
  {
    var tries := Tries(tok, |s.nodes|);
    var s' := SetPhase(s, tok, Acquiring(s.now, 0, 0, {}));
    RunUnfold(s, [Begin(tok)] + (tries + [EndRound(tok, retry)]));
    assert ([Begin(tok)] + (tries + [EndRound(tok, retry)]))[1..] == tries + [EndRound(tok, retry)];
    assert Apply(s, Begin(tok)) == s';
    FreeIsTotal(s, s', tok);
    SoloTriesFrom(s', tok, Acquiring(s.now, 0, 0, {}), |s.nodes|, Free(s), Grabbed(s, tok));
    RunSplit(s', tries, [EndRound(tok, retry)]);
    RunUnfold(Run(s', tries), [EndRound(tok, retry)]);
  }

  // ---------------------------------------------------------------- the loops of the source

  /** No step of the schedule is tok's. */
  ghost predicate NotBy(schedule: seq<Action>, tok: Token)
  {
    forall i :: 0 <= i < |schedule| ==> schedule[i].Tick? || schedule[i].tok != tok
  }

  lemma {:induction false} OthersRun(s: State, schedule: seq<Action>, tok: Token)
    requires NotBy(schedule, tok)
    ensures var r := Run(s, schedule);
            && (tok in r.clients <==> tok in s.clients)
            && (tok in s.clients ==> r.clients[tok] == s.clients[tok])
            && |r.nodes| == |s.nodes| && r.ttl == s.ttl && s.now <= r.now
    decreases |schedule|
  {
    if schedule != [] {
      assert forall i :: 0 <= i < |schedule| - 1 ==> schedule[1..][i] == schedule[i + 1];
      OthersRun(Apply(s, schedule[0]), schedule[1..], tok);
    }
  }

  /** Nobody but tok's client puts tok's key on a node, nor brings it back to life. */
  lemma OthersNeverGrant(s: State, a: Action, tok: Token, k: nat)
    requires (a.Tick? || a.tok != tok || a.ReleaseNode?) && k < |s.nodes| && s.Get(k) != Some(tok)
    ensures Apply(s, a).Get(k) != Some(tok)
  {
  }

  lemma {:induction false} OthersRunNeverGrants(s: State, schedule: seq<Action>, tok: Token, k: nat)
    requires NotBy(schedule, tok) && k < |s.nodes| && s.Get(k) != Some(tok)
    ensures |Run(s, schedule).nodes| == |s.nodes| && Run(s, schedule).Get(k) != Some(tok)
    decreases |schedule|
  {
    if schedule != [] {
      assert forall i :: 0 <= i < |schedule| - 1 ==> schedule[1..][i] == schedule[i + 1];
      OthersNeverGrant(s, schedule[0], tok, k);
      OthersRunNeverGrants(Apply(s, schedule[0]), schedule[1..], tok, k);
    }
  }

  /** No client goes by u, and u is not tok. */
  predicate Unknown(s: State, u: Token, tok: Token)
  {
    u !in s.clients && u != tok
  }

  /** Where the request to one of the first k nodes arrived, tok's key is gone. */
  ghost predicate GoneOn(s: State, k: nat, tok: Token, reply: nat -> Reply)
  {
    forall j :: 0 <= j < k && j < |s.nodes| && !reply(j).RequestLost? ==> s.Get(j) != Some(tok)
  }

  /** tok's key comes up on no node where it was not. */
  ghost predicate StaysGone(s: State, r: State, tok: Token)
  {
    |r.nodes| == |s.nodes| && forall k :: 0 <= k < |s.nodes| && s.Get(k) != Some(tok) ==> r.Get(k) != Some(tok)
  }

  lemma GoneStep(s: State, r: State, k: nat, tok: Token, reply: nat -> Reply)
    requires GoneOn(s, k, tok, reply) && StaysGone(s, r, tok) && k < |r.nodes|
    requires !reply(k).RequestLost? ==> r.Get(k) != Some(tok)
    ensures GoneOn(r, k + 1, tok, reply)
  {
  }

  const RETRY_DELAY_MS := 50

  /** The lock object of one process.  `world` is what the Redis masters and the other
      clients hold.  Each method is handed what the others do before each of its own
      commands and what the network does to it; its ghost result is the schedule that
      came about. */
  class Redlock {
    var world: State

    constructor (n: nat, ttl: int, now: int)
      ensures world == Init(n, ttl, now) && Inv(world)
    {
      world := Init(n, ttl, now);
    }

    /** Lets others act, then takes one step of tok's. */
    method Interleave(tok: Token, others: seq<Action>, mine: Action, ghost trace: seq<Action>, ghost start: State)
      returns (ghost longer: seq<Action>)
      requires Inv(world) && world == Run(start, trace) && NotBy(others, tok) && (mine.Tick? || mine.tok == tok)
      modifies this
      ensures Inv(world) && world == Run(start, longer)
      ensures longer == trace + others + [mine]
      ensures world == Apply(Run(old(world), others), mine)
      ensures var w := Run(old(world), others);
              && (tok in w.clients <==> tok in old(world.clients))
              && (tok in w.clients ==> w.clients[tok] == old(world.clients)[tok])
              && |w.nodes| == |old(world.nodes)| && w.ttl == old(world.ttl) && old(world.now) <= w.now
      ensures forall u :: Unknown(old(world), u, tok) && NotBy(others, u) ==> Unknown(world, u, tok)
    {
      forall u | Unknown(world, u, tok) && NotBy(others, u)
        ensures Unknown(Apply(Run(world, others), mine), u, tok)
      {
        OthersRun(world, others, u);
      }
      OthersRun(world, others, tok);
      RunInv(world, others);
      RunSplit(start, trace, others);
      world := Run(world, others);
      RunSplit(start, trace + others, [mine]);
      RunUnfold(world, [mine]);
      StepInv(world, mine);
      world := Apply(world, mine);
      longer := trace + others + [mine];
    }

    /** One SET NX EX, and whether the client heard that it succeeded.  A free node takes the key
        for a ttl whenever the request arrives, heard of or not. */
    method SetOn(tok: Token, others: seq<Action>, reply: Reply, ghost trace: seq<Action>, ghost start: State)
      returns (ok: bool, ghost longer: seq<Action>)
      requires Inv(world) && world == Run(start, trace) && NotBy(others, tok) && tok in world.clients
      requires world.clients[tok].Acquiring? && world.clients[tok].next < |world.nodes|
      modifies this
      ensures Inv(world) && world == Run(start, longer) && tok in world.clients && world.clients[tok].Acquiring?
      ensures var p := old(world.clients[tok]); var q := world.clients[tok];
              && q.start == p.start && q.next == p.next + 1
              && q.acquired == p.acquired + (if ok then 1 else 0)
              && var w := Run(old(world), others);
                 && |w.nodes| == |old(world.nodes)| && (ok <==> reply.Answered? && w.Get(p.next).None?)
                 && world.nodes == if reply.RequestLost? || w.Get(p.next).Some? then w.nodes
                                   else w.nodes[p.next := Some(Entry(tok, world.now + world.ttl))]
      ensures |world.nodes| == |old(world.nodes)| && old(world.now) <= world.now
      ensures forall u :: Unknown(old(world), u, tok) && NotBy(others, u) ==> Unknown(world, u, tok)
    {
      var p := world.clients[tok];
      longer := Interleave(tok, others, TrySet(tok, reply), trace, start);
      ok := p.acquired < world.clients[tok].acquired;
    }

    /** The EXPIRE after a GET that showed tok. */
    method ExpireOn(tok: Token, between: seq<Action>, reply: Reply, ghost trace: seq<Action>, ghost start: State)
      returns (ghost longer: seq<Action>)
      requires Inv(world) && world == Run(start, trace) && NotBy(between, tok) && tok in world.clients
      requires world.clients[tok].Extending? && world.clients[tok].saw && world.clients[tok].next < |world.nodes|
      modifies this
      ensures Inv(world) && world == Run(start, longer) && longer == trace + between + [ExtendExpire(tok, reply)]
      ensures tok in world.clients && world.clients[tok].Extending? && |world.nodes| == |old(world.nodes)|
      ensures var p := old(world.clients[tok]); var q := world.clients[tok];
              && q.since == p.since && q.start == p.start && q.next == p.next + 1 && !q.saw
              && q.extended == p.extended + (if reply.Answered? then 1 else 0)
      ensures var k := old(world.clients[tok]).next; var w := Run(old(world), between);
              && |w.nodes| == |old(world.nodes)|
              && world.nodes == if reply.RequestLost? || w.Get(k).None? then w.nodes
                                else w.nodes[k := Some(w.nodes[k].value.(expiresAt := world.now + world.ttl))]
    {
      longer := Interleave(tok, between, ExtendExpire(tok, reply), trace, start);
    }

    /** One GET and, if it showed tok, one EXPIRE; whether the node was counted. */
    method ExtendOn(tok: Token, others: seq<Action>, between: seq<Action>, getReply: Reply, expireReply: Reply,
                    ghost trace: seq<Action>, ghost start: State)
      returns (counted: bool, ghost longer: seq<Action>)
      requires Inv(world) && world == Run(start, trace) && NotBy(others, tok) && NotBy(between, tok)
      requires tok in world.clients && world.clients[tok].Extending? && !world.clients[tok].saw
      requires world.clients[tok].next < |world.nodes| && OnlyExtends(trace, tok)
      modifies this
      ensures Inv(world) && world == Run(start, longer) && OnlyExtends(longer, tok)
      ensures tok in world.clients && world.clients[tok].Extending? && |world.nodes| == |old(world.nodes)|
      ensures var p := old(world.clients[tok]); var q := world.clients[tok]; var w := Run(old(world), others);
              && q.since == p.since && q.start == p.start && q.next == p.next + 1 && !q.saw
              && q.extended == p.extended + (if counted then 1 else 0) && |w.nodes| == |old(world.nodes)|
              && (counted <==> getReply.Answered? && w.Get(p.next) == Some(tok) && expireReply.Answered?)
    {
      longer := Interleave(tok, others, ExtendGet(tok, getReply), trace, start);
      counted := false;
      if world.clients[tok].saw {
        longer := ExpireOn(tok, between, expireReply, longer, start);
        counted := expireReply.Answered?;
      }
    }

    /** One run of the release script. */
    method ReleaseOn(tok: Token, others: seq<Action>, reply: Reply, ghost trace: seq<Action>, ghost start: State)
      returns (ghost longer: seq<Action>)
      requires Inv(world) && world == Run(start, trace) && NotBy(others, tok) && tok in world.clients
      requires world.clients[tok].Releasing? && world.clients[tok].next < |world.nodes|
      modifies this
      ensures Inv(world) && world == Run(start, longer) && tok in world.clients
      ensures world.clients[tok] == Releasing(old(world.clients[tok]).next + 1)
      ensures |world.nodes| == |old(world.nodes)|
      ensures !reply.RequestLost? ==> world.Get(old(world.clients[tok]).next) != Some(tok)
      ensures var k := old(world.clients[tok]).next; var w := Run(old(world), others);
              && |w.nodes| == |old(world.nodes)|
              && world.nodes == if reply.RequestLost? || w.Get(k) != Some(tok) then w.nodes else w.nodes[k := None]
      ensures StaysGone(old(world), world, tok)
    {
      ghost var w := Run(world, others);
      forall k | 0 <= k < |world.nodes| && world.Get(k) != Some(tok)
        ensures |w.nodes| == |world.nodes| && w.Get(k) != Some(tok)
      {
        OthersRunNeverGrants(world, others, tok, k);
      }
      longer := Interleave(tok, others, ReleaseNode(tok, reply), trace, start);
      forall k | 0 <= k < |w.nodes| && w.Get(k) != Some(tok)
        ensures world.Get(k) != Some(tok)
      {
        OthersNeverGrant(w, ReleaseNode(tok, reply), tok, k);
      }
    }

    /** Redlock.acquire: rounds of SET NX over all nodes until one round wins a quorum,
        the caller did not want to wait, or the deadline has passed.  `began` is the start of
        the last round: the first moment of the call or, for a caller that waits, a moment less
        than one pause after the deadline. */
    method Acquire(tok: Token, blocking: bool, timeout: nat, others: nat -> seq<Action>, reply: nat -> Reply,
                   ghost spare: iset<Token> := iset{})
      returns (token: Option<Token>, ghost trace: seq<Action>, ghost began: int)
      requires Inv(world) && tok !in world.clients && forall i :: NotBy(others(i), tok)
      requires forall u :: u in spare ==> Unknown(world, u, tok) && forall i :: NotBy(others(i), u)
      modifies this
      ensures Inv(world) && world == Run(old(world), trace) && tok in world.clients
      ensures token.Some? ==> token.value == tok && HeldSince(world, tok, began)
                              && old(world.now) <= began <= world.now
      ensures token.None? ==> world.clients[tok].GaveUp?
                              && (blocking ==> old(world.now) + timeout <= world.now)
      ensures began == old(world.now) || (blocking && began < old(world.now) + timeout + 50)
      ensures old(world.now) <= world.now && forall u :: u in spare ==> Unknown(world, u, tok)
    {
      ghost var start := world;
      trace := [];
      var tick := 0;
      var deadline := world.now + timeout;
      trace := Interleave(tok, [], Begin(tok), trace, start);
      while true
        invariant Inv(world) && world == Run(start, trace)
        invariant tok in world.clients && world.clients[tok] == Acquiring(world.now, 0, 0, {})
        invariant start.now <= world.now && forall u :: u in spare ==> Unknown(world, u, tok)
        invariant world.now == start.now || (blocking && world.now < deadline + RETRY_DELAY_MS)
        decreases deadline - world.now
      {
        began := world.now;
        var acquired;
        acquired, tick, trace := TryAll(tok, tick, others, reply, trace, start, spare);
        var won := acquired >= |world.nodes| / 2 + 1;
        var giveUp := won || !blocking || world.now >= deadline;
        trace := Interleave(tok, [], EndRound(tok, !giveUp), trace, start);
        if giveUp {
          if won {
            HeldIsWorth(world, tok);
          }
          return if won then Some(tok) else None, trace, began;
        }
        trace := Pause(tok, trace, start, spare);
      }
    }

    /** The sleep between two rounds, and the start of the next. */
    method Pause(tok: Token, ghost soFar: seq<Action>, ghost start: State, ghost spare: iset<Token>)
      returns (ghost trace: seq<Action>)
      requires Inv(world) && world == Run(start, soFar) && tok in world.clients && world.clients[tok].Waiting?
      requires forall u :: u in spare ==> Unknown(world, u, tok)
      modifies this
      ensures Inv(world) && world == Run(start, trace) && world.now == old(world.now) + 50
      ensures tok in world.clients && world.clients[tok] == Acquiring(world.now, 0, 0, {})
      ensures forall u :: u in spare ==> Unknown(world, u, tok)
    {
      trace := Interleave(tok, [], Tick(RETRY_DELAY_MS), soFar, start);
      trace := Interleave(tok, [], Retry(tok), trace, start);
    }

    /** One round over the nodes. */
    method TryAll(tok: Token, tick0: nat, others: nat -> seq<Action>, reply: nat -> Reply,
                  ghost soFar: seq<Action>, ghost start: State, ghost spare: iset<Token>)
      returns (acquired: nat, tick: nat, ghost trace: seq<Action>)
      requires Inv(world) && world == Run(start, soFar) && forall i :: NotBy(others(i), tok)
      requires tok in world.clients && world.clients[tok] == Acquiring(world.now, 0, 0, {})
      requires forall u :: u in spare ==> Unknown(world, u, tok) && forall i :: NotBy(others(i), u)
      modifies this
      ensures Inv(world) && world == Run(start, trace) && |world.nodes| == |old(world.nodes)|
      ensures tok in world.clients && world.clients[tok].Acquiring? && world.clients[tok].next == |world.nodes|
      ensures world.clients[tok].acquired == acquired && world.clients[tok].start == old(world.now) <= world.now
      ensures forall u :: u in spare ==> Unknown(world, u, tok)
    {
      acquired, tick, trace := 0, tick0, soFar;
      var n := |world.nodes|;
      for k := 0 to n
        invariant Inv(world) && world == Run(start, trace) && |world.nodes| == n && old(world.now) <= world.now
        invariant tok in world.clients && world.clients[tok].Acquiring? && world.clients[tok].next == k
        invariant world.clients[tok].start == old(world.now) && world.clients[tok].acquired == acquired
        invariant forall u :: u in spare ==> Unknown(world, u, tok)
      {
        var ok;
        ok, trace := SetOn(tok, others(tick), reply(tick), trace, start);
        acquired := if ok then acquired + 1 else acquired;
        tick := tick + 1;
      }
    }

    /** MemoryManager.acquire_lock up to the point where it yields: attempts that do not wait,
        each under a token of its own, until one wins or the deadline has passed.  The last one
        begins at once or, for a caller that waits, less than one pause after the deadline.  Those
        that failed have given up, their grants stay behind. */
    method AcquireLock(draw: nat -> Token, blocking: bool, timeout: nat,
                       others: (nat, nat) -> seq<Action>, reply: (nat, nat) -> Reply)
      returns (held: Option<Token>, ghost attempts: nat, ghost began: int)
      requires Inv(world) && forall i: nat, j: nat :: i != j ==> draw(i) != draw(j)
      requires forall i: nat :: draw(i) !in world.clients
      requires forall i: nat, k: nat, j: nat :: NotBy(others(i, k), draw(j))
      modifies this
      ensures Inv(world)
      ensures held.Some? ==> held.value == draw(attempts) && HeldSince(world, held.value, began)
                             && old(world.now) <= began <= world.now
      ensures held.None? ==> (blocking ==> old(world.now) + timeout <= world.now)
      ensures began == old(world.now) || (blocking && began < old(world.now) + timeout + 50)
      ensures !blocking ==> attempts == 0
    {
      ghost var start := world.now;
      var deadline := world.now + timeout;
      var i := 0;
      while true
        invariant Inv(world) && start <= world.now && forall j: nat :: i <= j ==> draw(j) !in world.clients
        invariant i == 0 ==> world.now == start
        invariant i > 0 ==> blocking && world.now < deadline + RETRY_DELAY_MS
        decreases deadline - world.now
      {
        ghost var spare := iset j: nat | i < j :: draw(j);
        ghost var trace;
        held, trace, began := Acquire(draw(i), false, 0, (k: nat) => others(i, k), (k: nat) => reply(i, k), spare);
        assert forall j: nat :: i < j ==> draw(j) in spare;
        attempts := i;
        if held.Some? || !blocking || world.now >= deadline {
          return;
        }
        StepInv(world, Tick(RETRY_DELAY_MS));
        world := Apply(world, Tick(RETRY_DELAY_MS));
        i := i + 1;
      }
    }

    /** Redlock.release: the compare-and-delete script on every node.  Where the request
        arrived the key is gone for good, whatever the others do meanwhile. */
    method Release(tok: Token, others: nat -> seq<Action>, reply: nat -> Reply) returns (ghost trace: seq<Action>)
      requires Inv(world) && forall i :: NotBy(others(i), tok)
      requires tok in world.clients && (world.clients[tok].Held? || world.clients[tok].Extending?)
      modifies this
      ensures Inv(world) && world == Run(old(world), trace) && !Valid(world, tok)
      ensures tok in world.clients && world.clients[tok] == Releasing(|world.nodes|)
      ensures forall k :: 0 <= k < |world.nodes| && !reply(k).RequestLost? ==> world.Get(k) != Some(tok)
    {
      ghost var start := world;
      trace := Interleave(tok, [], BeginRelease(tok), [], start);
      trace := ReleaseAll(tok, others, reply, trace, start);
    }

    method ReleaseAll(tok: Token, others: nat -> seq<Action>, reply: nat -> Reply,
                      ghost soFar: seq<Action>, ghost start: State)
      returns (ghost trace: seq<Action>)
      requires Inv(world) && world == Run(start, soFar) && forall i :: NotBy(others(i), tok)
      requires tok in world.clients && world.clients[tok] == Releasing(0)
      modifies this
      ensures Inv(world) && world == Run(start, trace)
      ensures tok in world.clients && world.clients[tok] == Releasing(|world.nodes|)
      ensures GoneOn(world, |world.nodes|, tok, reply)
    {
      trace := soFar;
      var n := |world.nodes|;
      for k := 0 to n
        invariant Inv(world) && world == Run(start, trace) && |world.nodes| == n
        invariant tok in world.clients && world.clients[tok] == Releasing(k)
        invariant GoneOn(world, k, tok, reply)
      {
        ghost var before := world;
        trace := ReleaseOn(tok, others(k), reply(k), trace, start);
        GoneStep(before, world, k, tok, reply);
      }
    }

    /** Redlock.extend: GET, then EXPIRE where the GET saw the token, on every node.
        `between` acts inside that gap.  `trace` is everything that happened between the first
        and the last moment of the call, `extended` the count; what the answer is worth depends
        on the late EXPIREs of the trace. */
    method Extend(tok: Token, others: nat -> seq<Action>, between: nat -> seq<Action>,
                  getReply: nat -> Reply, expireReply: nat -> Reply)
      returns (ok: bool, ghost trace: seq<Action>, ghost extended: nat)
      requires Inv(world) && tok in world.clients && world.clients[tok].Held?
      requires forall i :: NotBy(others(i), tok) && NotBy(between(i), tok)
      modifies this
      ensures Inv(world) && OnlyExtends(trace, tok)
      ensures world == Apply(Run(Apply(old(world), BeginExtend(tok)), trace), EndExtend(tok))
      ensures var q := Run(Apply(old(world), BeginExtend(tok)), trace);
              tok in q.clients && q.clients[tok].Extending? && q.clients[tok].extended == extended
      ensures ok <==> extended >= world.Quorum()
      ensures extended - Late(Apply(old(world), BeginExtend(tok)), trace, tok, 0) >= world.Quorum() ==>
                HeldSince(world, tok, old(world.now))
      ensures OwnExpires(trace, tok) && old(world.clients[tok]).since < old(world.now) ==>
                (HeldSince(world, tok, old(world.now)) <==>
                 extended - Late(Apply(old(world), BeginExtend(tok)), trace, tok, 0) >= world.Quorum())
      ensures !ok ==> HeldSince(world, tok, old(world.clients[tok]).since)
    {
      StepInv(world, BeginExtend(tok));
      world := Apply(world, BeginExtend(tok));
      var counted;
      counted, trace := ExtendAll(tok, others, between, getReply, expireReply);
      ok := counted >= |world.nodes| / 2 + 1;
      extended := counted;
      ExtendIsRight(old(world), trace, tok);
      StepInv(world, EndExtend(tok));
      world := Apply(world, EndExtend(tok));
    }

    /** The loop over the nodes. */
    method ExtendAll(tok: Token, others: nat -> seq<Action>, between: nat -> seq<Action>,
                     getReply: nat -> Reply, expireReply: nat -> Reply)
      returns (extended: nat, ghost trace: seq<Action>)
      requires Inv(world) && forall i :: NotBy(others(i), tok) && NotBy(between(i), tok)
      requires tok in world.clients && world.clients[tok].Extending? && !world.clients[tok].saw
      requires world.clients[tok].next == 0 == world.clients[tok].extended
      modifies this
      ensures Inv(world) && world == Run(old(world), trace) && OnlyExtends(trace, tok)
      ensures |world.nodes| == |old(world.nodes)| && tok in world.clients && world.clients[tok].Extending?
      ensures world.clients[tok].next == |world.nodes| >= extended == world.clients[tok].extended
    {
      ghost var start := world;
      trace := [];
      extended := 0;
      var n := |world.nodes|;
      for k := 0 to n
        invariant Inv(world) && world == Run(start, trace) && |world.nodes| == n && OnlyExtends(trace, tok)
        invariant tok in world.clients && world.clients[tok].Extending? && !world.clients[tok].saw
        invariant world.clients[tok].next == k && world.clients[tok].extended == extended <= k
      {
        var counted;
        counted, trace := ExtendOn(tok, others(k), between(k), getReply(k), expireReply(k), trace, start);
        extended := if counted then extended + 1 else extended;
      }
    }
  }
}
