/** push_job_status of api/chat_runtime.py: two concurrent tasks drain one event log over
    one shared cursor, `last_event_id`, and a last drain precedes the `done` message.

    Every await is a point where the other task, the worker or nobody may run.  A drain
    reads the cursor, queries the log, and then for each row sets the cursor and hands the
    row to send_json in one step. */
module Delivery {
  import opened Prelude

  type EventId = nat

  /** `visible` counts the events the query could see. */
  datatype Task =
    | Idle
    | Reading(after: EventId)
    | Sending(batch: seq<EventId>, pos: nat, visible: nat)

  /** Where the function stands: the first drains, the two tasks, the last drain, after
      `done`. */
  datatype Phase = Early | Tasks | Final | Done

  datatype State = State(
    log: seq<EventId>, from: EventId, cursor: EventId, sent: seq<EventId>, tasks: seq<Task>,
    phase: Phase, finished: bool, crashed: bool)

  /** A transaction of the worker or of an endpoint may add an event, write the status, or
      both; `Some(true)` is a status that counts as done. */
  datatype Action =
    | Commit(id: EventId, status: Option<bool>)
    | SetStatus(finished: bool)
    | ReadCursor(task: nat)
    | Query(task: nat)
    | Send(task: nat)
    | EarlyCheck
    | CheckDone(task: nat)
    | Crash(task: nat)
    | FinishFinal

  /** SELECT ... WHERE id > after ORDER BY id, on a log in id order. */
  function After(log: seq<EventId>, after: EventId): (r: seq<EventId>)
  {
    if log == [] then [] else if log[0] > after then log else After(log[1..], after)
  }

  /** Where a committed row appears in id order. */
  function Insert(log: seq<EventId>, id: EventId): (r: seq<EventId>)
  {
    if log == [] then [id] else if id < log[0] then [id] + log else [log[0]] + Insert(log[1..], id)
  }

  function Init(log: seq<EventId>, from: EventId, finished: bool): (s: State)
  {
    State(log, from, from, [], [Idle, Idle], Early, finished, false)
  }

  /** task i may run in this phase: one drain at a time but for the two tasks. */
  predicate MayRun(s: State, i: nat)
  {
    i < |s.tasks| && (s.phase.Tasks? || (i == 0 && (s.phase.Early? || s.phase.Final?)))
  }

  predicate Drained(t: Task)
  {
    t.Sending? && t.pos == |t.batch|
  }

  /** Task i starts a drain: at its beginning, and in the first loop after a drain that sent
      something. */
  predicate MayRead(s: State, i: nat)
  {
    MayRun(s, i) && (s.tasks[i].Idle? || (s.phase.Early? && Drained(s.tasks[i]) && s.tasks[i].batch != []))
  }

  predicate MaySend(s: State, i: nat)
  {
    MayRun(s, i) && s.tasks[i].Sending? && s.tasks[i].pos < |s.tasks[i].batch|
  }

  function Apply(s: State, a: Action): (r: State)
  {
    match a
    case Commit(id, status) =>
      if id in s.log then s
      else s.(log := Insert(s.log, id), finished := if status.Some? then status.value else s.finished)
    case SetStatus(finished) => s.(finished := finished)
    case ReadCursor(i) =>
      if MayRead(s, i) then s.(tasks := s.tasks[i := Reading(s.cursor)]) else s
    case Query(i) =>
      if MayRun(s, i) && s.tasks[i].Reading? then
        s.(tasks := s.tasks[i := Sending(After(s.log, s.tasks[i].after), 0, |After(s.log, s.from)|)])
      else s
    case Send(i) =>
      if MaySend(s, i) then
        var t := s.tasks[i];
        s.(cursor := t.batch[t.pos], sent := s.sent + [t.batch[t.pos]], tasks := s.tasks[i := t.(pos := t.pos + 1)])
      else s
    case EarlyCheck =>
      if s.phase.Early? && MayRun(s, 0) && Drained(s.tasks[0]) && s.tasks[0].batch == [] then
        if s.finished then s.(phase := Done) else s.(phase := Tasks, tasks := [Idle, Idle])
      else s
    case CheckDone(i) =>
      if s.phase.Tasks? && i < |s.tasks| && Drained(s.tasks[i]) then
        if s.finished then s.(phase := Final, tasks := [Idle, Idle]) else s.(tasks := s.tasks[i := Idle])
      else s
    case Crash(i) =>
      if s.phase.Tasks? && i < |s.tasks| then s.(phase := Final, tasks := [Idle, Idle], crashed := true)
      else s
    case FinishFinal =>
      if s.phase.Final? && MayRun(s, 0) && Drained(s.tasks[0]) then s.(phase := Done) else s
  }

  function Run(s: State, as_: seq<Action>): (r: State)
    decreases |as_|
  {
    if as_ == [] then s else Run(Apply(s, as_[0]), as_[1..])
  }

  // ---------------------------------------------------------------- invariant

  /** The events a client hears of, each at its first delivery. */
  function Fresh(sent: seq<EventId>): (r: seq<EventId>)
  {
    if sent == [] then []
    else
      var init := sent[..|sent| - 1];
      var x := sent[|sent| - 1];
      if x in init then Fresh(init) else Fresh(init) + [x]
  }

  function Owed(s: State): (r: seq<EventId>)
  {
    After(s.log, s.from)
  }

  ghost predicate Sorted(log: seq<EventId>)
  {
    forall i, j :: 0 <= i < j < |log| ==> log[i] < log[j]
  }

  /** Nothing owed up to a is undelivered, n events having been delivered. */
  ghost predicate Covered(owed: seq<EventId>, from: EventId, n: nat, a: EventId)
  {
    a == from || exists j :: 0 <= j < n && j < |owed| && owed[j] == a
  }

  ghost predicate TaskOk(owed: seq<EventId>, from: EventId, n: nat, t: Task)
  {
    match t
    case Idle => true
    case Reading(after) => Covered(owed, from, n, after)
    case Sending(batch, pos, visible) =>
      && pos <= |batch| <= visible <= |owed| && batch == owed[visible - |batch|..visible]
      && visible - |batch| + pos <= n
  }

  /** What the client has heard of is a prefix of what it is owed, and cursor and tasks fit it. */
  ghost predicate Core(owed: seq<EventId>, from: EventId, sent: seq<EventId>, cursor: EventId, tasks: seq<Task>)
  {
    var n := |Fresh(sent)|;
    && |tasks| == 2 && n <= |owed| && Fresh(sent) == owed[..n]
    && Covered(owed, from, n, cursor)
    && TaskOk(owed, from, n, tasks[0]) && TaskOk(owed, from, n, tasks[1])
  }

  ghost predicate Inv(s: State)
  {
    && Sorted(s.log) && Core(Owed(s), s.from, s.sent, s.cursor, s.tasks)
    && Alone(s.phase, s.tasks, |Fresh(s.sent)|)
  }

  /** Outside the two tasks one drain runs at a time, and only what it saw has been sent. */
  predicate Alone(phase: Phase, tasks: seq<Task>, n: nat)
    requires |tasks| == 2
  {
    && (!phase.Tasks? ==> tasks[1].Idle? && (tasks[0].Sending? ==> n <= tasks[0].visible))
    && (phase.Done? ==> Drained(tasks[0]))
  }

  lemma {:induction false} AfterIsSuffix(log: seq<EventId>, a: EventId)
    requires Sorted(log)
    ensures Sorted(After(log, a)) && forall x :: x in After(log, a) <==> x in log && x > a
  {
    if log != [] && log[0] <= a {
      assert log == [log[0]] + log[1..];
      AfterIsSuffix(log[1..], a);
    }
  }

  /** What follows the j-th owed event. */
  lemma {:induction false} AfterOwed(log: seq<EventId>, from: EventId, j: nat)
    requires Sorted(log) && j < |After(log, from)|
    ensures After(log, After(log, from)[j]) == After(log, from)[j + 1..]
  {
    if log[0] > from {
      SkipTo(log, j);
    } else {
      AfterIsSuffix(log[1..], from);
      assert After(log[1..], from)[j] in log[1..];
      AfterOwed(log[1..], from, j);
    }
  }

  lemma {:induction false} SkipTo(log: seq<EventId>, j: nat)
    requires Sorted(log) && j < |log|
    ensures After(log, log[j]) == log[j + 1..]
  {
    if j == 0 {
      assert log[1..] == [] || log[1..][0] > log[0];
    } else {
      SkipTo(log[1..], j - 1);
      assert log[1..][j..] == log[j + 1..];
    }
  }

  /** In id order: a newly visible event has the highest id so far. */
  predicate InOrder(s: State, a: Action)
  {
    a.Commit? ==> forall i :: 0 <= i < |s.log| ==> s.log[i] < a.id
  }

  lemma {:induction false} InsertLast(log: seq<EventId>, id: EventId)
    requires forall i :: 0 <= i < |log| ==> log[i] < id
    ensures Insert(log, id) == log + [id]
  {
    if log != [] {
      InsertLast(log[1..], id);
    }
  }

  lemma {:induction false} AfterAppend(log: seq<EventId>, id: EventId, a: EventId)
    requires forall i :: 0 <= i < |log| ==> log[i] < id
    ensures After(log + [id], a) == After(log, a) + (if id > a then [id] else [])
  {
    if log == [] {
      assert log + [id] == [id];
    } else if log[0] <= a {
      assert (log + [id])[1..] == log[1..] + [id];
      AfterAppend(log[1..], id, a);
    }
  }

  lemma {:induction false} FreshMembers(sent: seq<EventId>)
    ensures forall x :: x in Fresh(sent) <==> x in sent
  {
    if sent != [] {
      var init := sent[..|sent| - 1];
      FreshMembers(init);
      assert sent == init + [sent[|sent| - 1]];
    }
  }

  /** Handing over owed event number m <= n: either a repetition, or exactly the next. */
  lemma {:induction false} FreshSend(sent: seq<EventId>, owed: seq<EventId>, m: nat)
    requires Sorted(owed) && |Fresh(sent)| <= |owed| && Fresh(sent) == owed[..|Fresh(sent)|]
    requires m <= |Fresh(sent)| && m < |owed|
    ensures var n := |Fresh(sent)|; var n' := |Fresh(sent + [owed[m]])|;
            n' == (if m == n then n + 1 else n) && n' <= |owed| && Fresh(sent + [owed[m]]) == owed[..n']
  {
    FreshMembers(sent);
    assert (sent + [owed[m]])[..|sent|] == sent;
    var n := |Fresh(sent)|;
    if m < n {
      assert owed[..n][m] == owed[m];
    } else {
      assert owed[m] !in owed[..n];
      assert owed[..n + 1] == owed[..n] + [owed[n]];
    }
  }

  lemma CoveredKept(owed: seq<EventId>, owed': seq<EventId>, from: EventId, n: nat, a: EventId)
    requires owed <= owed' && Covered(owed, from, n, a)
    ensures Covered(owed', from, n, a)
  {
  }

  lemma TaskKept(owed: seq<EventId>, owed': seq<EventId>, from: EventId, n: nat, t: Task)
    requires owed <= owed' && TaskOk(owed, from, n, t)
    ensures TaskOk(owed', from, n, t)
  {
  }

  lemma CoreKept(owed: seq<EventId>, owed': seq<EventId>, from: EventId, sent: seq<EventId>, cursor: EventId,
                 tasks: seq<Task>)
    requires owed <= owed' && Core(owed, from, sent, cursor, tasks)
    ensures Core(owed', from, sent, cursor, tasks)
  {
    var n := |Fresh(sent)|;
    CoveredKept(owed, owed', from, n, cursor);
    TaskKept(owed, owed', from, n, tasks[0]);
    TaskKept(owed, owed', from, n, tasks[1]);
  }

  lemma CommitInv(s: State, a: Action)
    requires Inv(s) && a.Commit? && InOrder(s, a)
    ensures Inv(Apply(s, a))
  {
    var r := Apply(s, a);
    if r != s {
      InsertLast(s.log, a.id);
      AfterAppend(s.log, a.id, s.from);
      CoreKept(Owed(s), Owed(r), s.from, s.sent, s.cursor, s.tasks);
    }
  }

  /** A query answers with the owed events that follow a covered cursor value. */
  lemma {:induction false} QueryBatch(log: seq<EventId>, from: EventId, n: nat, after: EventId)
    requires Sorted(log) && Covered(After(log, from), from, n, after) && n <= |After(log, from)|
    ensures var batch := After(log, after); var owed := After(log, from);
            |batch| <= |owed| && batch == owed[|owed| - |batch|..] && |owed| - |batch| <= n
  {
    if after != from {
      var j :| 0 <= j < n && j < |After(log, from)| && After(log, from)[j] == after;
      AfterOwed(log, from, j);
    }
  }

  lemma QueryInv(s: State, i: nat)
    requires Inv(s)
    ensures Inv(Apply(s, Query(i)))
  {
    if MayRun(s, i) && s.tasks[i].Reading? {
      QueryBatch(s.log, s.from, |Fresh(s.sent)|, s.tasks[i].after);
      var owed, batch := Owed(s), After(s.log, s.tasks[i].after);
      assert TaskOk(owed, s.from, |Fresh(s.sent)|, Sending(batch, 0, |owed|));
      assert Owed(Apply(s, Query(i))) == owed;
    }
  }

  lemma AloneSends(phase: Phase, tasks: seq<Task>, n: nat, n': nat, i: nat)
    requires |tasks| == 2 && Alone(phase, tasks, n) && i < 2 && !phase.Done? && (phase.Tasks? || i == 0)
    requires tasks[i].Sending? && (n' == n || n' <= tasks[i].visible)
    ensures Alone(phase, tasks[i := tasks[i].(pos := tasks[i].pos + 1)], n')
  {
  }

  /** Handing over owed event number m of the batch of task i. */
  lemma {:induction false} SendFacts(owed: seq<EventId>, from: EventId, sent: seq<EventId>, tasks: seq<Task>, i: nat,
                                     m: nat)
    requires Sorted(owed) && |tasks| == 2 && i < 2 && tasks[i].Sending? && tasks[i].pos < |tasks[i].batch|
    requires TaskOk(owed, from, |Fresh(sent)|, tasks[0]) && TaskOk(owed, from, |Fresh(sent)|, tasks[1])
    requires |Fresh(sent)| <= |owed| && Fresh(sent) == owed[..|Fresh(sent)|]
    requires m == tasks[i].visible - |tasks[i].batch| + tasks[i].pos && m <= |Fresh(sent)| && m < |owed|
    ensures Core(owed, from, sent + [owed[m]], owed[m], tasks[i := tasks[i].(pos := tasks[i].pos + 1)])
    ensures |Fresh(sent + [owed[m]])| == if m == |Fresh(sent)| then m + 1 else |Fresh(sent)|
  {
    FreshSend(sent, owed, m);
    SendCore(owed, from, |Fresh(sent)|, sent + [owed[m]], tasks, i, m);
  }

  lemma SendInv(s: State, i: nat)
    requires Inv(s)
    ensures Inv(Apply(s, Send(i)))
  {
    if MaySend(s, i) {
      AfterIsSuffix(s.log, s.from);
      var t := s.tasks[i];
      var m := t.visible - |t.batch| + t.pos;
      NextOwed(Owed(s), s.from, |Fresh(s.sent)|, t);
      SendFacts(Owed(s), s.from, s.sent, s.tasks, i, m);
      AloneSends(s.phase, s.tasks, |Fresh(s.sent)|, |Fresh(s.sent + [Owed(s)[m]])|, i);
      assert Owed(Apply(s, Send(i))) == Owed(s);
    }
  }

  /** The next row of a batch is an owed event, the client's next one at the latest. */
  lemma NextOwed(owed: seq<EventId>, from: EventId, n: nat, t: Task)
    requires TaskOk(owed, from, n, t) && t.Sending? && t.pos < |t.batch|
    ensures var m := t.visible - |t.batch| + t.pos;
            && 0 <= m < t.visible <= |owed| && m <= n && t.batch[t.pos] == owed[m]
            && TaskOk(owed, from, if m == n then n + 1 else n, t.(pos := t.pos + 1))
  {
  }

  lemma {:induction false} SendCore(owed: seq<EventId>, from: EventId, n: nat, sent: seq<EventId>, tasks: seq<Task>,
                                    i: nat, m: nat)
    requires |tasks| == 2 && i < 2 && tasks[i].Sending? && tasks[i].pos < |tasks[i].batch|
    requires TaskOk(owed, from, n, tasks[0]) && TaskOk(owed, from, n, tasks[1])
    requires m == tasks[i].visible - |tasks[i].batch| + tasks[i].pos && m <= n <= |owed| && m < |owed|
    requires var n' := if m == n then n + 1 else n; |Fresh(sent)| == n' && Fresh(sent) == owed[..n']
    ensures Core(owed, from, sent, owed[m], tasks[i := tasks[i].(pos := tasks[i].pos + 1)])
  {
    var n' := |Fresh(sent)|;
    NextOwed(owed, from, n, tasks[i]);
    CoveredMore(owed, from, m, n', owed[m]);
    TaskMore(owed, from, n, n', tasks[0]);
    TaskMore(owed, from, n, n', tasks[1]);
  }

  lemma CoveredMore(owed: seq<EventId>, from: EventId, m: nat, n: nat, a: EventId)
    requires m < n && m < |owed| && owed[m] == a
    ensures Covered(owed, from, n, a)
  {
  }

  lemma TaskMore(owed: seq<EventId>, from: EventId, n: nat, n': nat, t: Task)
    requires n <= n' && TaskOk(owed, from, n, t)
    ensures TaskOk(owed, from, n', t)
  {
  }

  lemma StepInv(s: State, a: Action)
    requires Inv(s) && InOrder(s, a)
    ensures Inv(Apply(s, a))
  {
    match a {
      case Commit(_, _) => CommitInv(s, a);
      case Query(i) => QueryInv(s, i);
      case Send(i) => SendInv(s, i);
      case _ =>
    }
  }

  /** Every commit of the schedule is the newest event when it becomes visible. */
  ghost predicate Ordered(s: State, as_: seq<Action>)
    decreases |as_|
  {
    as_ == [] || (InOrder(s, as_[0]) && Ordered(Apply(s, as_[0]), as_[1..]))
  }

  lemma {:induction false} RunInv(s: State, as_: seq<Action>)
    requires Inv(s) && Ordered(s, as_)
    ensures Inv(Run(s, as_))
    decreases |as_|
  {
    if as_ != [] {
      StepInv(s, as_[0]);
      RunInv(Apply(s, as_[0]), as_[1..]);
    }
  }

  lemma InitInv(log: seq<EventId>, from: EventId, finished: bool)
    requires Sorted(log)
    ensures Inv(Init(log, from, finished))
  {
  }

  /** In every interleaving of the two drains with each other and with commits in id
      order: what the client has heard of, repetitions aside, is a prefix of the job's
      log after from_event_id, in log order. */
  lemma {:induction false} HeardIsPrefix(log: seq<EventId>, from: EventId, finished: bool, as_: seq<Action>)
    requires Sorted(log) && Ordered(Init(log, from, finished), as_)
    ensures var s := Run(Init(log, from, finished), as_);
            |Fresh(s.sent)| <= |Owed(s)| && Fresh(s.sent) == Owed(s)[..|Fresh(s.sent)|]
  {
    RunInv(Init(log, from, finished), as_);
  }

  /** Every drain that has run to its end has delivered all its query could see. */
  lemma DrainDelivers(s: State, i: nat)
    requires Inv(s) && i < 2 && Drained(s.tasks[i])
    ensures s.tasks[i].visible <= |Fresh(s.sent)|
  {
  }

  // ---------------------------------------------------------------- done

  /** In every run, the early exit and the death of a task included: `done` comes after
      exactly the events that the last query could see. */
  lemma {:induction false} DoneAfterAllSeen(log: seq<EventId>, from: EventId, finished: bool, as_: seq<Action>)
    requires Sorted(log) && Ordered(Init(log, from, finished), as_)
    requires Run(Init(log, from, finished), as_).phase.Done?
    ensures var s := Run(Init(log, from, finished), as_);
            && s.tasks != [] && s.tasks[0].Sending? && s.tasks[0].visible <= |Owed(s)|
            && Fresh(s.sent) == Owed(s)[..s.tasks[0].visible]
  {
    RunInv(Init(log, from, finished), as_);
  }

  /** No transaction of the schedule adds an event that this client is owed. */
  predicate NothingOwed(as_: seq<Action>, from: EventId)
  {
    forall i :: 0 <= i < |as_| ==> as_[i].Commit? ==> as_[i].id <= from
  }

  /** Without a further query of task 0 only a drain that has already queried leads to `done`. */
  lemma {:induction false} NoQueryNoDone(s: State, as_: seq<Action>)
    requires |s.tasks| == 2 && !s.tasks[0].Sending? && !s.phase.Done? && Query(0) !in as_
    ensures !Run(s, as_).phase.Done?
    decreases |as_|
  {
    if as_ != [] {
      assert as_[0] != Query(0);
      NoQueryNoDone(Apply(s, as_[0]), as_[1..]);
    }
  }

  /** What one step does to the size of the log that the client is owed. */
  lemma OwedStep(s: State, a: Action)
    requires Sorted(s.log) && InOrder(s, a)
    ensures |Owed(Apply(s, a))| == |Owed(s)| + (if a.Commit? && a.id > s.from then 1 else 0)
    ensures Apply(s, a).from == s.from
  {
    if a.Commit? {
      InsertLast(s.log, a.id);
      AfterAppend(s.log, a.id, s.from);
    }
  }

  lemma NothingOwedStep(as_: seq<Action>, from: EventId)
    requires as_ != []
    ensures NothingOwed(as_, from) <==> (as_[0].Commit? ==> as_[0].id <= from) && NothingOwed(as_[1..], from)
  {
    assert as_ == [as_[0]] + as_[1..];
    assert forall i :: 0 <= i < |as_| - 1 ==> as_[1..][i] == as_[i + 1];
  }

  /** A step that is not a query of task 0 and does not throw its batch away keeps it. */
  lemma BatchStays(s: State, a: Action)
    requires |s.tasks| == 2 && s.tasks[0].Sending? && a != Query(0)
    ensures |Apply(s, a).tasks| == 2
    ensures var t := Apply(s, a);
            if t.tasks[0].Sending? then t.tasks[0].visible == s.tasks[0].visible else !t.phase.Done?
  {
  }

  lemma {:induction false} SinceQuery(s: State, as_: seq<Action>)
    requires Inv(s) && Ordered(s, as_) && s.tasks[0].Sending? && Query(0) !in as_
    requires Run(s, as_).phase.Done?
    ensures var r := Run(s, as_);
            && Inv(r) && r.from == s.from && r.tasks[0].Sending? && r.tasks[0].visible == s.tasks[0].visible
            && |Owed(r)| >= |Owed(s)| && (|Owed(r)| == |Owed(s)| <==> NothingOwed(as_, s.from))
    decreases |as_|
  {
    if as_ != [] {
      var s' := Apply(s, as_[0]);
      assert as_[0] != Query(0);
      StepInv(s, as_[0]);
      OwedStep(s, as_[0]);
      BatchStays(s, as_[0]);
      NothingOwedStep(as_, s.from);
      if !s'.tasks[0].Sending? {
        NoQueryNoDone(s', as_[1..]);
        assert false;
      }
      SinceQuery(s', as_[1..]);
    }
  }

  /** `done` comes after the whole log exactly if no transaction adds an event between the
      last query and the end.  `after` is what happens from that query on: the query of the
      last drain, or of the empty drain before an early exit. */
  lemma {:induction false} DoneIsCompleteIff(log: seq<EventId>, from: EventId, finished: bool, before: seq<Action>,
                                             after: seq<Action>)
    requires Sorted(log) && Ordered(Init(log, from, finished), before + [Query(0)] + after)
    requires var s := Run(Init(log, from, finished), before); MayRun(s, 0) && s.tasks[0].Reading?
    requires Query(0) !in after && Run(Init(log, from, finished), before + [Query(0)] + after).phase.Done?
    ensures var r := Run(Init(log, from, finished), before + [Query(0)] + after);
            Fresh(r.sent) == Owed(r) <==> NothingOwed(after, from)
  {
    var s0 := Init(log, from, finished);
    var s := Run(s0, before);
    assert before + [Query(0)] + after == before + ([Query(0)] + after);
    Split(s0, before, [Query(0)] + after);
    RunInv(s0, before);
    assert ([Query(0)] + after)[1..] == after;
    StepInv(s, Query(0));
    RunKeepsFrom(s0, before);
    SinceQuery(Apply(s, Query(0)), after);
  }

  lemma {:induction false} RunKeepsFrom(s: State, as_: seq<Action>)
    ensures Run(s, as_).from == s.from
    decreases |as_|
  {
    if as_ != [] {
      RunKeepsFrom(Apply(s, as_[0]), as_[1..]);
    }
  }

  lemma {:induction false} Split(s: State, as_: seq<Action>, bs: seq<Action>)
    ensures Run(s, as_ + bs) == Run(Run(s, as_), bs)
    ensures Ordered(s, as_ + bs) <==> Ordered(s, as_) && Ordered(Run(s, as_), bs)
    decreases |as_|
  {
    if as_ == [] {
      assert as_ + bs == bs;
    } else {
      assert (as_ + bs)[1..] == as_[1..] + bs;
      Split(Apply(s, as_[0]), as_[1..], bs);
    }
  }

  /** The early exit comes after the whole log exactly if no transaction adds an event between
      the empty query and the look at the status. */
  lemma {:induction false} EarlyExitCompleteIff(s: State, gap: seq<Action>)
    requires Inv(s) && s.phase.Early? && s.tasks[0].Reading? && After(s.log, s.tasks[0].after) == []
    requires Ordered(Apply(s, Query(0)), gap) && Query(0) !in gap
    requires Apply(Run(Apply(s, Query(0)), gap), EarlyCheck).phase.Done?
    ensures var r := Apply(Run(Apply(s, Query(0)), gap), EarlyCheck);
            Fresh(r.sent) == Owed(r) <==> NothingOwed(gap, s.from)
  {
    var t := Apply(s, Query(0));
    StepInv(s, Query(0));
    Split(t, gap, [EarlyCheck]);
    assert Run(t, gap + [EarlyCheck]) == Apply(Run(t, gap), EarlyCheck);
    SinceQuery(t, gap + [EarlyCheck]);
    assert NothingOwed(gap + [EarlyCheck], s.from) <==> NothingOwed(gap, s.from) by {
      assert forall i :: 0 <= i < |gap| ==> (gap + [EarlyCheck])[i] == gap[i];
    }
  }

  /** The early exit misses whatever is committed between its last, empty, query and the look
      at the status: an event that finishes the job in the same transaction, for one. */
  lemma EarlyExitMisses(s: State, id: EventId)
    requires Inv(s) && s.phase.Early? && Drained(s.tasks[0]) && s.tasks[0].batch == []
    requires id > s.from && forall i :: 0 <= i < |s.log| ==> s.log[i] < id
    ensures var r := Apply(Apply(s, Commit(id, Some(true))), EarlyCheck);
            r.phase.Done? && id in Owed(r) && id !in r.sent
  {
    InsertLast(s.log, id);
    AfterAppend(s.log, id, s.from);
    NewIsUnsent(s, id);
    assert (Owed(s) + [id])[|Owed(s)|] == id;
  }

  lemma NewIsUnsent(s: State, id: EventId)
    requires Inv(s) && id !in s.log
    ensures id !in s.sent
  {
    FreshMembers(s.sent);
    AfterIsSuffix(s.log, s.from);
  }

  /** The job has not finished in any state of the run. */
  ghost predicate NeverFinished(s: State, as_: seq<Action>)
    decreases |as_|
  {
    !s.finished && (as_ == [] || NeverFinished(Apply(s, as_[0]), as_[1..]))
  }

  /** `done` goes out for a job that never finished only if a task has died of an error. */
  lemma {:induction false} DoneWithoutFinish(s: State, as_: seq<Action>)
    requires !s.phase.Done? && (s.phase.Final? ==> s.crashed)
    requires NeverFinished(s, as_) && Run(s, as_).phase.Done?
    ensures Run(s, as_).crashed
    decreases |as_|
  {
    if as_ != [] {
      var s' := Apply(s, as_[0]);
      if s'.phase.Done? {
        DoneStays(s', as_[1..]);
      } else {
        DoneWithoutFinish(s', as_[1..]);
      }
    }
  }

  lemma {:induction false} DoneStays(s: State, as_: seq<Action>)
    requires s.phase.Done?
    ensures Run(s, as_).phase.Done? && Run(s, as_).crashed == s.crashed
    decreases |as_|
  {
    if as_ != [] {
      DoneStays(Apply(s, as_[0]), as_[1..]);
    }
  }

  function Sends(i: nat, k: nat): (as_: seq<Action>)
  {
    seq(k, _ => Send(i))
  }

  /** k rows handed over without interruption. */
  lemma {:induction false} RunSends(s: State, i: nat, k: nat)
    requires MayRun(s, i) && s.tasks[i].Sending? && s.tasks[i].pos + k <= |s.tasks[i].batch|
    ensures var r := Run(s, Sends(i, k)); var t := s.tasks[i];
            && r.phase == s.phase && r.log == s.log && r.from == s.from && r.finished == s.finished
            && |r.tasks| == |s.tasks| && r.tasks[i] == t.(pos := t.pos + k)
            && (forall m :: t.pos <= m < t.pos + k ==> t.batch[m] in r.sent)
            && (forall x :: x in s.sent ==> x in r.sent)
            && r.cursor == if k == 0 then s.cursor else t.batch[t.pos + k - 1]
    decreases k
  {
    if k > 0 {
      var s' := Apply(s, Send(i));
      assert Sends(i, k)[0] == Send(i) && Sends(i, k)[1..] == Sends(i, k - 1);
      assert s.tasks[i].batch[s.tasks[i].pos] in s'.sent;
      RunSends(s', i, k - 1);
    }
  }

  /** ... and it does then: whatever the state of the job, once the two tasks run the death
      of one of them is followed by a last drain and by `done`, with no look at the status. */
  lemma CrashSendsDone(s: State, i: nat) returns (as_: seq<Action>)
    requires s.phase.Tasks? && |s.tasks| == 2 && i < 2
    ensures as_ != [] && as_[0] == Crash(i) && forall k :: 0 <= k < |as_| ==> !as_[k].Commit? && !as_[k].SetStatus?
    ensures Run(s, as_).phase.Done? && Run(s, as_).finished == s.finished
  {
    var s3 := Apply(Apply(Apply(s, Crash(i)), ReadCursor(0)), Query(0));
    assert s3.phase.Final? && s3.finished == s.finished && s3.tasks[0].Sending? && s3.tasks[0].pos == 0;
    var rest := LastDrainEnds(s3);
    as_ := [Crash(i), ReadCursor(0), Query(0)] + rest;
    RunThenSends(s, Crash(i), ReadCursor(0), Query(0), rest);
  }

  lemma LastDrainEnds(s: State) returns (as_: seq<Action>)
    requires s.phase.Final? && |s.tasks| == 2 && s.tasks[0].Sending? && s.tasks[0].pos == 0
    ensures forall k :: 0 <= k < |as_| ==> !as_[k].Commit? && !as_[k].SetStatus?
    ensures Run(s, as_).phase.Done? && Run(s, as_).finished == s.finished
  {
    var n := |s.tasks[0].batch|;
    RunSends(s, 0, n);
    Split(s, Sends(0, n), [FinishFinal]);
    as_ := Sends(0, n) + [FinishFinal];
    assert [FinishFinal][1..] == [];
  }

  lemma {:induction false} RunThenSends(s: State, a: Action, b: Action, c: Action, rest: seq<Action>)
    ensures Run(s, [a, b, c] + rest) == Run(Apply(Apply(Apply(s, a), b), c), rest)
  {
    assert ([a, b, c] + rest)[1..] == [b, c] + rest;
    assert ([b, c] + rest)[1..] == [c] + rest;
    assert ([c] + rest)[1..] == rest;
    var s1 := Apply(s, a);
    var s2 := Apply(s1, b);
    assert Run(s, [a, b, c] + rest) == Run(s1, [b, c] + rest) == Run(s2, [c] + rest) == Run(Apply(s2, c), rest);
  }

  // ---------------------------------------------------------------- events out of id order

  /** No value from which the log may yet be read lies below x: not the cursor, not what a
      task has read of it, not what a batch in progress will still set it to. */
  predicate Passed(s: State, x: EventId)
  {
    && x !in s.sent && x <= s.cursor
    && forall i :: 0 <= i < |s.tasks| ==> TaskPassed(s.tasks[i], x)
  }

  predicate TaskPassed(t: Task, x: EventId)
  {
    match t
    case Idle => true
    case Reading(after) => x <= after
    case Sending(batch, pos, _) => forall k :: pos <= k < |batch| ==> x < batch[k]
  }

  lemma {:induction false} InsertSorted(log: seq<EventId>, id: EventId)
    requires Sorted(log) && id !in log
    ensures Sorted(Insert(log, id)) && forall x :: x in Insert(log, id) <==> x in log || x == id
  {
    if log != [] {
      assert log == [log[0]] + log[1..];
      if id > log[0] {
        var rest := Insert(log[1..], id);
        InsertSorted(log[1..], id);
        forall k | 0 <= k < |rest| ensures log[0] < rest[k] {
          assert rest[k] in rest;
        }
      }
    }
  }

  lemma PassedStep(s: State, x: EventId, a: Action)
    requires Sorted(s.log) && Passed(s, x)
    ensures Sorted(Apply(s, a).log) && Passed(Apply(s, a), x)
  {
    match a {
      case Commit(id, _) =>
        if id !in s.log {
          InsertSorted(s.log, id);
        }
      case Query(i) =>
        if MayRun(s, i) && s.tasks[i].Reading? {
          AfterIsSuffix(s.log, s.tasks[i].after);
          forall k | 0 <= k < |After(s.log, s.tasks[i].after)| ensures x < After(s.log, s.tasks[i].after)[k] {
            assert After(s.log, s.tasks[i].after)[k] in After(s.log, s.tasks[i].after);
          }
        }
      case Send(i) =>
        if MaySend(s, i) {
          assert TaskPassed(s.tasks[i], x);
        }
      case _ =>
    }
  }

  /** A drain that queries from below x, with x in the log, can hand it over. */
  lemma ReadBelow(s: State, i: nat, x: EventId) returns (as_: seq<Action>)
    requires Sorted(s.log) && x in s.log && MayRun(s, i) && s.tasks[i].Reading? && s.tasks[i].after < x
    ensures x in Run(s, as_).sent
  {
    var s' := Apply(s, Query(i));
    AfterIsSuffix(s.log, s.tasks[i].after);
    var m :| 0 <= m < |s'.tasks[i].batch| && s'.tasks[i].batch[m] == x;
    RunSends(s', i, m + 1);
    as_ := [Query(i)] + Sends(i, m + 1);
    assert as_[1..] == Sends(i, m + 1);
  }

  lemma CursorBelow(s: State, x: EventId) returns (as_: seq<Action>)
    requires Sorted(s.log) && x in s.log && s.phase.Tasks? && |s.tasks| == 2 && s.cursor < x
    ensures x in Run(s, as_).sent
  {
    var s1 := Apply(s, Crash(0));
    var s2 := Apply(s1, ReadCursor(0));
    var rest := ReadBelow(s2, 0, x);
    as_ := [Crash(0)] + ([ReadCursor(0)] + rest);
    assert as_[1..] == [ReadCursor(0)] + rest && ([ReadCursor(0)] + rest)[1..] == rest;
    assert Run(s, as_) == Run(s1, as_[1..]) == Run(s2, rest);
  }

  lemma BatchBelow(s: State, i: nat, k: nat, x: EventId) returns (as_: seq<Action>)
    requires Sorted(s.log) && x in s.log && s.phase.Tasks? && |s.tasks| == 2 && i < 2 && s.tasks[i].Sending?
    requires s.tasks[i].pos <= k < |s.tasks[i].batch| && s.tasks[i].batch[k] <= x
    ensures x in Run(s, as_).sent
  {
    var n := k - s.tasks[i].pos + 1;
    RunSends(s, i, n);
    as_ := Sends(i, n);
    if s.tasks[i].batch[k] < x {
      var rest := CursorBelow(Run(s, as_), x);
      Split(s, as_, rest);
      as_ := as_ + rest;
    }
  }

  lemma StillComes(s: State, x: EventId) returns (as_: seq<Action>)
    requires Sorted(s.log) && x in s.log && s.phase.Tasks? && |s.tasks| == 2 && !Passed(s, x)
    ensures x in Run(s, as_).sent
  {
    if x in s.sent {
      as_ := [];
    } else if s.cursor < x {
      as_ := CursorBelow(s, x);
    } else {
      var i :| 0 <= i < |s.tasks| && !TaskPassed(s.tasks[i], x);
      if s.tasks[i].Reading? {
        as_ := ReadBelow(s, i, x);
      } else {
        var k :| s.tasks[i].pos <= k < |s.tasks[i].batch| && s.tasks[i].batch[k] <= x;
        as_ := BatchBelow(s, i, k, x);
      }
    }
  }

  // ----- the first drains and the last one -----

  /** Outside the two tasks one drain runs at a time, from the cursor as it stands. */
  predicate Coupled(s: State)
  {
    && |s.tasks| == 2
    && (!s.phase.Tasks? ==> s.tasks[1].Idle? && (s.tasks[0].Reading? ==> s.tasks[0].after == s.cursor))
  }

  lemma {:induction false} RunCoupled(s: State, as_: seq<Action>)
    requires Coupled(s)
    ensures Coupled(Run(s, as_))
    decreases |as_|
  {
    if as_ != [] {
      RunCoupled(Apply(s, as_[0]), as_[1..]);
    }
  }

  /** Where the cursor stands when the batch in progress has been sent. */
  function CursorAfter(cursor: EventId, t: Task): (r: EventId)
    requires t.Sending?
  {
    if t.pos < |t.batch| then t.batch[|t.batch| - 1] else cursor
  }

  /** A single drain that has not x in what it has still to send, and whose next look at the
      log, if there is one, begins at x or above. */
  predicate AlonePassed(s: State, x: EventId)
    requires |s.tasks| == 2
  {
    && x !in s.sent
    && (s.phase.Done? ||
        match s.tasks[0]
        case Idle => x <= s.cursor
        case Reading(after) => x <= after
        case Sending(batch, pos, _) =>
          && (forall k :: pos <= k < |batch| ==> batch[k] != x)
          && (s.phase.Early? ==> x <= CursorAfter(s.cursor, s.tasks[0])))
  }

  /** The log will not be read from below x again, and x is not on its way. */
  predicate Gone(s: State, x: EventId)
    requires |s.tasks| == 2
  {
    if s.phase.Tasks? then Passed(s, x) else AlonePassed(s, x)
  }

  lemma AloneStep(s: State, x: EventId, a: Action)
    requires Sorted(s.log) && Coupled(s) && !s.phase.Tasks? && AlonePassed(s, x)
    ensures |Apply(s, a).tasks| == 2 && Gone(Apply(s, a), x)
  {
    if a == Query(0) && MayRun(s, 0) && s.tasks[0].Reading? {
      var batch := After(s.log, s.tasks[0].after);
      AfterIsSuffix(s.log, s.tasks[0].after);
      forall k | 0 <= k < |batch| ensures x < batch[k] {
        assert batch[k] in batch;
      }
    }
  }

  lemma CommitSorted(s: State, a: Action)
    requires Sorted(s.log)
    ensures Sorted(Apply(s, a).log)
  {
    if a.Commit? && a.id !in s.log {
      InsertSorted(s.log, a.id);
    }
  }

  lemma GoneStep(s: State, x: EventId, a: Action)
    requires Sorted(s.log) && Coupled(s) && Gone(s, x)
    ensures |Apply(s, a).tasks| == 2 && Gone(Apply(s, a), x)
  {
    if s.phase.Tasks? {
      PassedStep(s, x, a);
    } else {
      AloneStep(s, x, a);
    }
  }

  /** An id that is gone is never sent, in whatever order events appear. */
  lemma {:induction false} GoneForEver(s: State, x: EventId, as_: seq<Action>)
    requires Sorted(s.log) && Coupled(s) && Gone(s, x)
    ensures x !in Run(s, as_).sent
    decreases |as_|
  {
    if as_ != [] {
      GoneStep(s, x, as_[0]);
      CommitSorted(s, as_[0]);
      RunCoupled(s, [as_[0]]);
      assert Run(s, [as_[0]]) == Apply(s, as_[0]);
      GoneForEver(Apply(s, as_[0]), x, as_[1..]);
    }
  }

  lemma IdleBelow(s: State, x: EventId) returns (as_: seq<Action>)
    requires Sorted(s.log) && x in s.log && MayRead(s, 0) && s.cursor < x
    ensures x in Run(s, as_).sent
  {
    var rest := ReadBelow(Apply(s, ReadCursor(0)), 0, x);
    as_ := [ReadCursor(0)] + rest;
    assert as_[1..] == rest;
  }

  /** The first loop goes on, to another drain or, after an empty one, to the two tasks. */
  lemma EarlyBelow(s: State, x: EventId) returns (as_: seq<Action>)
    requires Sorted(s.log) && x in s.log && s.phase.Early? && |s.tasks| == 2 && Drained(s.tasks[0]) && s.cursor < x
    ensures x in Run(s, as_).sent
  {
    if s.tasks[0].batch != [] {
      as_ := IdleBelow(s, x);
    } else {
      var s1 := Apply(s, SetStatus(false));
      var s2 := Apply(s1, EarlyCheck);
      var rest := CursorBelow(s2, x);
      as_ := [SetStatus(false)] + ([EarlyCheck] + rest);
      assert as_[1..] == [EarlyCheck] + rest && ([EarlyCheck] + rest)[1..] == rest;
      assert Run(s, as_) == Run(s1, as_[1..]) == Run(s2, rest);
    }
  }

  lemma AloneStillComes(s: State, x: EventId) returns (as_: seq<Action>)
    requires Sorted(s.log) && x in s.log && |s.tasks| == 2 && !s.phase.Tasks? && !AlonePassed(s, x)
    requires PositionsOk(s)
    ensures x in Run(s, as_).sent
  {
    if x in s.sent {
      as_ := [];
    } else if s.tasks[0].Idle? {
      as_ := IdleBelow(s, x);
    } else if s.tasks[0].Reading? {
      as_ := ReadBelow(s, 0, x);
    } else {
      var t := s.tasks[0];
      if k :| t.pos <= k < |t.batch| && t.batch[k] == x {
        as_ := Sends(0, k - t.pos + 1);
        RunSends(s, 0, k - t.pos + 1);
      } else {
        var n := |t.batch| - t.pos;
        RunSends(s, 0, n);
        var rest := EarlyBelow(Run(s, Sends(0, n)), x);
        Split(s, Sends(0, n), rest);
        as_ := Sends(0, n) + rest;
      }
    }
  }

  /** In every reachable state: an event that becomes visible late is lost for good, whatever
      happens after, exactly if its id is gone.  While the two tasks run that means that the
      cursor, every task's reading of it and every batch in progress have passed the id; before
      and after, that the single drain has not the id to send and will not look below it. */
  lemma {:induction false} LateEventLostIff(log: seq<EventId>, from: EventId, finished: bool, before: seq<Action>,
                         x: EventId, status: Option<bool>)
    requires Sorted(log) && x !in Run(Init(log, from, finished), before).log
    ensures var s := Run(Init(log, from, finished), before);
            && |s.tasks| == 2
            && (Gone(s, x) <==> forall as_ :: x !in Run(Apply(s, Commit(x, status)), as_).sent)
  {
    var s := Run(Init(log, from, finished), before);
    var c := Commit(x, status);
    var t := Apply(s, c);
    RunCoupled(Init(log, from, finished), before);
    RunSorted(Init(log, from, finished), before);
    InsertSorted(s.log, x);
    if Gone(s, x) {
      GoneStep(s, x, c);
      forall as_ ensures x !in Run(t, as_).sent {
        GoneForEver(t, x, as_);
      }
    } else if s.phase.Tasks? {
      var as_ := StillComes(t, x);
    } else {
      var as_ := AloneStillComes(t, x);
    }
  }

  lemma PositionsStep(s: State, a: Action)
    requires PositionsOk(s)
    ensures PositionsOk(Apply(s, a))
  {
  }

  lemma {:induction false} RunSorted(s: State, as_: seq<Action>)
    requires Sorted(s.log) && PositionsOk(s)
    ensures Sorted(Run(s, as_).log) && PositionsOk(Run(s, as_))
    decreases |as_|
  {
    if as_ != [] {
      CommitSorted(s, as_[0]);
      PositionsStep(s, as_[0]);
      RunSorted(Apply(s, as_[0]), as_[1..]);
    }
  }

  predicate PositionsOk(s: State)
  {
    forall i :: 0 <= i < |s.tasks| ==> s.tasks[i].Sending? ==> s.tasks[i].pos <= |s.tasks[i].batch|
  }

  // ---------------------------------------------------------------- done does come

  /** No task dies and no transaction commits. */
  predicate Calm(as_: seq<Action>)
  {
    forall k :: 0 <= k < |as_| ==> !as_[k].Crash? && !as_[k].Commit? && !as_[k].SetStatus?
  }

  lemma {:induction false} RunTwo(s: State, a: Action, b: Action)
    ensures Run(s, [a, b]) == Apply(Apply(s, a), b)
  {
    assert [a, b][1..] == [b];
    var t := Apply(s, a);
    assert Run(s, [a, b]) == Run(t, [b]) == Run(Apply(t, b), []);
  }

  /** Until the last drain, calm steps cannot lead to `done` while the job is not finished. */
  lemma {:induction false} CalmStays(s: State, as_: seq<Action>)
    requires (s.phase.Early? || s.phase.Tasks?) && !s.finished && Calm(as_)
    ensures !Run(s, as_).phase.Done?
    decreases |as_|
  {
    if as_ != [] {
      assert forall k :: 0 <= k < |as_| - 1 ==> as_[1..][k] == as_[k + 1];
      CalmStays(Apply(s, as_[0]), as_[1..]);
    }
  }

  /** The steps of task i alone. */
  predicate ByTask(as_: seq<Action>, i: nat)
  {
    forall k :: 0 <= k < |as_| ==>
      as_[k] == ReadCursor(i) || as_[k] == Query(i) || as_[k] == Send(i) || as_[k] == CheckDone(i)
  }

  /** What a drain of task i leaves as it was. */
  predicate SameJob(s: State, r: State)
  {
    r.phase == s.phase && r.log == s.log && r.finished == s.finished && |r.tasks| == |s.tasks|
  }

  /** The rest of a drain that has queried. */
  lemma SendRest(s: State, i: nat) returns (as_: seq<Action>)
    requires MayRun(s, i) && s.tasks[i].Sending? && s.tasks[i].pos <= |s.tasks[i].batch|
    ensures Calm(as_) && ByTask(as_, i) && SameJob(s, Run(s, as_)) && Drained(Run(s, as_).tasks[i])
    ensures Run(s, as_).tasks[i].batch == s.tasks[i].batch
    ensures Run(s, as_).tasks[i].visible == s.tasks[i].visible
    ensures Run(s, as_).cursor == CursorAfter(s.cursor, s.tasks[i])
  {
    var n := |s.tasks[i].batch| - s.tasks[i].pos;
    RunSends(s, i, n);
    as_ := Sends(i, n);
  }

  /** A whole drain, from the cursor as it stands. */
  lemma WholeDrain(s: State, i: nat) returns (as_: seq<Action>)
    requires MayRead(s, i)
    ensures Calm(as_) && ByTask(as_, i) && SameJob(s, Run(s, as_)) && Drained(Run(s, as_).tasks[i])
    ensures Run(s, as_).tasks[i].batch == After(s.log, s.cursor)
    ensures Run(s, as_).cursor ==
      if After(s.log, s.cursor) == [] then s.cursor else After(s.log, s.cursor)[|After(s.log, s.cursor)| - 1]
  {
    RunTwo(s, ReadCursor(i), Query(i));
    var t := Run(s, [ReadCursor(i), Query(i)]);
    var rest := SendRest(t, i);
    Split(s, [ReadCursor(i), Query(i)], rest);
    as_ := [ReadCursor(i), Query(i)] + rest;
  }

  /** Whatever task i is about, it can come to the end of a drain by itself. */
  lemma OwnDrain(s: State, i: nat) returns (as_: seq<Action>)
    requires MayRun(s, i) && PositionsOk(s)
    ensures Calm(as_) && ByTask(as_, i) && SameJob(s, Run(s, as_)) && Drained(Run(s, as_).tasks[i])
    ensures Drained(s.tasks[i]) ==> as_ == []
  {
    if Drained(s.tasks[i]) {
      as_ := [];
    } else if s.tasks[i].Idle? {
      as_ := WholeDrain(s, i);
    } else if s.tasks[i].Reading? {
      var rest := SendRest(Apply(s, Query(i)), i);
      as_ := [Query(i)] + rest;
      assert as_[1..] == rest;
    } else {
      as_ := SendRest(s, i);
    }
  }

  /** A task that has finished a drain of a finished job and looks at the status starts the end,
      whichever of the two it is and whatever the other one is about. */
  lemma LookSendsDone(s: State, i: nat) returns (as_: seq<Action>)
    requires s.phase.Tasks? && |s.tasks| == 2 && i < 2 && s.finished && Drained(s.tasks[i])
    ensures Calm(as_) && as_ != [] && as_[0] == CheckDone(i) && Run(s, as_).phase.Done?
  {
    var t := Apply(s, CheckDone(i));
    var drain := WholeDrain(t, 0);
    Split(t, drain, [FinishFinal]);
    as_ := [CheckDone(i)] + (drain + [FinishFinal]);
    assert as_[1..] == drain + [FinishFinal];
    assert [FinishFinal][1..] == [];
  }

  /** While the two tasks run, either of them can bring a finished job to its `done` alone. */
  lemma TaskSendsDone(s: State, i: nat) returns (as_: seq<Action>)
    requires s.phase.Tasks? && |s.tasks| == 2 && i < 2 && s.finished && PositionsOk(s)
    ensures Calm(as_) && Run(s, as_).phase.Done?
    ensures Drained(s.tasks[i]) ==> as_ != [] && as_[0] == CheckDone(i)
  {
    var drain := OwnDrain(s, i);
    var rest := LookSendsDone(Run(s, drain), i);
    Split(s, drain, rest);
    as_ := drain + rest;
  }

  /** A query from the last event of the log finds nothing. */
  lemma {:induction false} NothingAfterLast(log: seq<EventId>, a: EventId)
    requires Sorted(log) && After(log, a) != []
    ensures After(log, After(log, a)[|After(log, a)| - 1]) == []
  {
    var batch := After(log, a);
    AfterIsSuffix(log, a);
    AfterOwed(log, a, |batch| - 1);
  }

  lemma {:induction false} EmptyDrainEnds(s: State)
    requires s.phase.Early? && s.finished && MayRun(s, 0) && Drained(s.tasks[0]) && s.tasks[0].batch == []
    ensures Run(s, [EarlyCheck]).phase.Done?
  {
    assert [EarlyCheck][1..] == [];
  }

  /** The first loop reads again; a second drain of an unchanged log is empty. */
  lemma ReadSendsDone(s: State) returns (as_: seq<Action>)
    requires s.phase.Early? && s.finished && MayRead(s, 0) && Sorted(s.log)
    ensures Calm(as_) && Run(s, as_).phase.Done?
  {
    as_ := WholeDrain(s, 0);
    var t := Run(s, as_);
    if t.tasks[0].batch != [] {
      NothingAfterLast(s.log, s.cursor);
      var second := WholeDrain(t, 0);
      Split(s, as_, second);
      as_ := as_ + second;
    }
    EmptyDrainEnds(Run(s, as_));
    Split(s, as_, [EarlyCheck]);
    as_ := as_ + [EarlyCheck];
  }

  lemma EarlySendsDone(s: State) returns (as_: seq<Action>)
    requires s.phase.Early? && s.finished && |s.tasks| == 2 && Sorted(s.log) && PositionsOk(s)
    ensures Calm(as_) && Run(s, as_).phase.Done?
  {
    as_ := OwnDrain(s, 0);
    var t := Run(s, as_);
    if t.tasks[0].batch == [] {
      EmptyDrainEnds(t);
      Split(s, as_, [EarlyCheck]);
      as_ := as_ + [EarlyCheck];
    } else {
      var rest := ReadSendsDone(t);
      Split(s, as_, rest);
      as_ := as_ + rest;
    }
  }

  /** In every reachable state before the last drain: without a crash, a commit or a write of
      the status the function can still send `done` exactly if the job has finished. */
  lemma {:induction false} DoneComesIff(log: seq<EventId>, from: EventId, finished: bool, before: seq<Action>)
    requires Sorted(log)
    requires var s := Run(Init(log, from, finished), before); s.phase.Early? || s.phase.Tasks?
    ensures var s := Run(Init(log, from, finished), before);
            s.finished <==> exists as_ :: Calm(as_) && Run(s, as_).phase.Done?
  {
    var s := Run(Init(log, from, finished), before);
    RunCoupled(Init(log, from, finished), before);
    RunSorted(Init(log, from, finished), before);
    if !s.finished {
      forall as_ | Calm(as_) ensures !Run(s, as_).phase.Done? {
        CalmStays(s, as_);
      }
    } else if s.phase.Early? {
      var as_ := EarlySendsDone(s);
    } else {
      var as_ := TaskSendsDone(s, 0);
    }
  }

  /** In the last drain a query has not run yet or has seen at least n owed events. */
  ghost predicate LastSees(s: State, n: nat)
  {
    && Inv(s) && (s.phase.Final? || s.phase.Done?) && n <= |Owed(s)|
    && (s.tasks[0].Sending? ==> n <= s.tasks[0].visible)
  }

  lemma LastSeesStep(s: State, a: Action, n: nat)
    requires LastSees(s, n) && InOrder(s, a)
    ensures LastSees(Apply(s, a), n)
  {
    StepInv(s, a);
    OwedGrows(s, a);
  }

  lemma {:induction false} LastSeesRun(s: State, as_: seq<Action>, n: nat)
    requires LastSees(s, n) && Ordered(s, as_)
    ensures LastSees(Run(s, as_), n) && Owed(Run(s, as_))[..n] == Owed(s)[..n]
    decreases |as_|
  {
    if as_ != [] {
      var s' := Apply(s, as_[0]);
      LastSeesStep(s, as_[0], n);
      OwedGrows(s, as_[0]);
      assert Owed(s')[..n] == Owed(s')[..|Owed(s)|][..n];
      LastSeesRun(s', as_[1..], n);
    }
  }

  lemma StaysOwed(s: State, a: Action)
    requires InOrder(s, a)
    ensures forall x :: x in Owed(s) ==> x in Owed(Apply(s, a))
  {
    OwedGrows(s, a);
    forall x | x in Owed(s) ensures x in Owed(Apply(s, a)) {
      var k :| 0 <= k < |Owed(s)| && Owed(s)[k] == x;
      assert Owed(Apply(s, a))[..|Owed(s)|][k] == Owed(Apply(s, a))[k];
    }
  }

  /** However the two tasks end, by a look at the status or by a crash, the last drain comes after:
      `done` follows every event that was visible while they still ran. */
  lemma {:induction false} LastDrainDelivers(s: State, as_: seq<Action>)
    requires Inv(s) && s.phase.Tasks? && Ordered(s, as_) && Run(s, as_).phase.Done?
    ensures forall x :: x in Owed(s) ==> x in Run(s, as_).sent
    decreases |as_|
  {
    if as_ != [] {
      var s' := Apply(s, as_[0]);
      StepInv(s, as_[0]);
      StaysOwed(s, as_[0]);
      if s'.phase.Tasks? {
        LastDrainDelivers(s', as_[1..]);
      } else {
        LastSeesRun(s', as_[1..], |Owed(s')|);
        AllHeard(s', Run(s', as_[1..]));
      }
    }
  }

  lemma AllHeard(s: State, r: State)
    requires LastSees(r, |Owed(s)|) && r.phase.Done? && Owed(r)[..|Owed(s)|] == Owed(s)
    ensures forall x :: x in Owed(s) ==> x in r.sent
  {
    DrainDelivers(r, 0);
    FreshMembers(r.sent);
    forall x | x in Owed(s) ensures x in r.sent {
      var k :| 0 <= k < |Owed(s)| && Owed(s)[k] == x;
      assert Owed(r)[..|Owed(s)|][k] == Owed(r)[k] == Fresh(r.sent)[k];
    }
  }

  /** After the tasks have started, neither ends the wait by its look before a drain of its own. */
  lemma {:induction false} NoQueryNoEnd(s: State, as_: seq<Action>)
    requires s.phase.Tasks? && |s.tasks| == 2 && !s.tasks[0].Sending? && !s.tasks[1].Sending?
    requires forall k :: 0 <= k < |as_| ==> !as_[k].Query? && !as_[k].Crash?
    ensures Run(s, as_).phase.Tasks?
    decreases |as_|
  {
    if as_ != [] {
      assert forall k :: 0 <= k < |as_| - 1 ==> as_[1..][k] == as_[k + 1];
      NoQueryNoEnd(Apply(s, as_[0]), as_[1..]);
    }
  }

  /** Of a job that is not finished the empty first drain starts the tasks, which drain first. */
  lemma {:induction false} TasksDrainFirst(s: State, as_: seq<Action>)
    requires s.phase.Early? && MayRun(s, 0) && Drained(s.tasks[0]) && s.tasks[0].batch == [] && !s.finished
    requires forall k :: 0 <= k < |as_| ==> !as_[k].Query? && !as_[k].Crash?
    ensures Run(Apply(s, EarlyCheck), as_).phase.Tasks?
  {
    NoQueryNoEnd(Apply(s, EarlyCheck), as_);
  }

  /** An event delivered by the query that comes next. */
  lemma QueryDelivers(s: State, i: nat, x: EventId) returns (as_: seq<Action>)
    requires Inv(s) && i < 2 && MayRun(s, i) && s.tasks[i].Reading? && x in Owed(s)
    ensures Calm(as_) && ByTask(as_, i) && x in Run(s, as_).sent
  {
    StepInv(s, Query(i));
    QuerySees(s, i);
    var rest := BatchDelivers(Apply(s, Query(i)), i, x);
    Split(s, [Query(i)], rest);
    assert [Query(i)][1..] == [];
    as_ := [Query(i)] + rest;
  }

  lemma QuerySees(s: State, i: nat)
    requires MayRun(s, i) && s.tasks[i].Reading?
    ensures var t := Apply(s, Query(i));
      MayRun(t, i) && Owed(t) == Owed(s) && t.tasks[i].Sending? && t.tasks[i].visible == |Owed(t)|
  {
  }

  lemma BatchDelivers(s: State, i: nat, x: EventId) returns (as_: seq<Action>)
    requires Inv(s) && i < 2 && MayRun(s, i) && s.tasks[i].Sending? && s.tasks[i].visible == |Owed(s)| && x in Owed(s)
    ensures Calm(as_) && ByTask(as_, i) && x in Run(s, as_).sent
  {
    as_ := SendRest(s, i);
    SomeoneHeard(s, i, as_, x);
  }

  /** Once a drain is over, what its query saw has been sent. */
  lemma {:induction false} SomeoneHeard(s: State, i: nat, as_: seq<Action>, x: EventId)
    requires Inv(s) && i < 2 && s.tasks[i].Sending? && s.tasks[i].visible == |Owed(s)| && x in Owed(s)
    requires Calm(as_) && SameJob(s, Run(s, as_)) && Drained(Run(s, as_).tasks[i])
    requires Run(s, as_).tasks[i].visible == s.tasks[i].visible
    ensures x in Run(s, as_).sent
  {
    CalmIsOrdered(s, as_);
    RunInv(s, as_);
    RunKeepsFrom(s, as_);
    var r := Run(s, as_);
    DrainDelivers(r, i);
    FreshMembers(r.sent);
    var k :| 0 <= k < |Owed(s)| && Owed(s)[k] == x;
    assert Owed(r) == Owed(s) && Fresh(r.sent)[k] == x;
  }

  lemma {:induction false} CalmIsOrdered(s: State, as_: seq<Action>)
    requires Calm(as_)
    ensures Ordered(s, as_)
    decreases |as_|
  {
    if as_ != [] {
      assert forall k :: 0 <= k < |as_| - 1 ==> as_[1..][k] == as_[k + 1];
      CalmIsOrdered(Apply(s, as_[0]), as_[1..]);
    }
  }

  /** A task that has drained and finds the job unfinished goes on to the next drain. */
  lemma LookGoesOn(s: State, i: nat, x: EventId) returns (as_: seq<Action>)
    requires Inv(s) && s.phase.Tasks? && i < 2 && !s.finished && Drained(s.tasks[i]) && x in Owed(s)
    ensures Calm(as_) && ByTask(as_, i) && x in Run(s, as_).sent
  {
    var t := Apply(s, CheckDone(i));
    StepInv(s, CheckDone(i));
    StepInv(t, ReadCursor(i));
    RunTwo(s, CheckDone(i), ReadCursor(i));
    var rest := QueryDelivers(Apply(t, ReadCursor(i)), i, x);
    Split(s, [CheckDone(i), ReadCursor(i)], rest);
    as_ := [CheckDone(i), ReadCursor(i)] + rest;
  }

  /** No event is left behind while the two tasks run: as long as the job is not finished, each of
      them alone, whatever both are about, can still deliver every event that is visible. */
  lemma EachTaskDelivers(s: State, i: nat, x: EventId) returns (as_: seq<Action>)
    requires Inv(s) && s.phase.Tasks? && i < 2 && !s.finished && x in Owed(s)
    ensures Calm(as_) && ByTask(as_, i) && x in Run(s, as_).sent
  {
    as_ := OwnDrain(s, i);
    CalmIsOrdered(s, as_);
    RunInv(s, as_);
    RunKeepsFrom(s, as_);
    var rest := LookGoesOn(Run(s, as_), i, x);
    Split(s, as_, rest);
    as_ := as_ + rest;
  }

  /** Nothing but a commit changes the log ... */
  lemma {:induction false} LogIsTheirs(s: State, as_: seq<Action>)
    requires forall k :: 0 <= k < |as_| ==> !as_[k].Commit?
    ensures Run(s, as_).log == s.log
    decreases |as_|
  {
    if as_ != [] {
      assert forall k :: 0 <= k < |as_| - 1 ==> as_[1..][k] == as_[k + 1];
      LogIsTheirs(Apply(s, as_[0]), as_[1..]);
    }
  }

  predicate WritesStatus(a: Action)
  {
    a.SetStatus? || (a.Commit? && a.status.Some?)
  }

  /** ... and nothing but a transaction that writes it changes the status of the job. */
  lemma {:induction false} StatusIsTheirs(s: State, as_: seq<Action>)
    requires forall k :: 0 <= k < |as_| ==> !WritesStatus(as_[k])
    ensures Run(s, as_).finished == s.finished
    decreases |as_|
  {
    if as_ != [] {
      assert forall k :: 0 <= k < |as_| - 1 ==> as_[1..][k] == as_[k + 1];
      StatusIsTheirs(Apply(s, as_[0]), as_[1..]);
    }
  }

  /** The death of a task is on record exactly if one has died while the two ran. */
  lemma {:induction false} CrashedIff(s: State, as_: seq<Action>)
    requires |s.tasks| == 2
    ensures |Run(s, as_).tasks| == 2
    ensures Run(s, as_).crashed <==> s.crashed || Dies(s, as_)
    decreases |as_|
  {
    if as_ != [] {
      CrashedIff(Apply(s, as_[0]), as_[1..]);
    }
  }

  /** In some state of the run the two tasks run and the next step is the death of one of them. */
  ghost predicate Dies(s: State, as_: seq<Action>)
    decreases |as_|
  {
    as_ != [] &&
    ((s.phase.Tasks? && as_[0].Crash? && as_[0].task < 2) || Dies(Apply(s, as_[0]), as_[1..]))
  }

  /** There are two tasks: a step of any other does nothing. */
  lemma NoOtherTask(s: State, i: nat)
    requires i >= |s.tasks|
    ensures Apply(s, ReadCursor(i)) == Apply(s, Query(i)) == Apply(s, Send(i)) == s
    ensures Apply(s, CheckDone(i)) == Apply(s, Crash(i)) == s
  {
  }

  // ---------------------------------------------------------------- the drain of the source

  /** No step of the schedule is task i's, none ends the phase, commits come in order. */
  ghost predicate Leaves(s: State, as_: seq<Action>, i: nat)
    decreases |as_|
  {
    as_ == [] ||
    (&& InOrder(s, as_[0])
     && (|| as_[0].Commit? || as_[0].SetStatus?
         || ((as_[0].ReadCursor? || as_[0].Query? || as_[0].Send?) && as_[0].task != i))
     && Leaves(Apply(s, as_[0]), as_[1..], i))
  }

  lemma {:induction false} OthersLeaveTask(s: State, as_: seq<Action>, i: nat)
    requires Inv(s) && i < 2 && Leaves(s, as_, i)
    ensures var r := Run(s, as_);
            && Inv(r) && r.tasks[i] == s.tasks[i] && r.phase == s.phase && r.from == s.from
            && |Owed(s)| <= |Owed(r)| && Owed(r)[..|Owed(s)|] == Owed(s)
    decreases |as_|
  {
    if as_ != [] {
      var s' := Apply(s, as_[0]);
      StepInv(s, as_[0]);
      OwedGrows(s, as_[0]);
      OthersLeaveTask(s', as_[1..], i);
      assert Owed(Run(s, as_))[..|Owed(s)|] == Owed(s')[..|Owed(s)|];
    }
  }

  lemma OwedGrows(s: State, a: Action)
    requires InOrder(s, a)
    ensures |Owed(s)| <= |Owed(Apply(s, a))| && Owed(Apply(s, a))[..|Owed(s)|] == Owed(s)
  {
    if a.Commit? {
      InsertLast(s.log, a.id);
      AfterAppend(s.log, a.id, s.from);
    }
  }

  /** One push_job_status in progress. */
  class Pusher {
    var st: State

    constructor (log: seq<EventId>, from: EventId, finished: bool)
      requires Sorted(log)
      ensures Inv(st) && st == State(log, from, from, [], [Idle, Idle], Early, finished, false)
    {
      st := Init(log, from, finished);
    }

    /** The others run until this task's next await is over, then it takes its step. */
    method Await(i: nat, others: seq<Action>, mine: Action)
      requires Inv(st) && i < 2 && MayRun(st, i) && Leaves(st, others, i)
      requires mine == ReadCursor(i) || mine == Query(i) || mine == Send(i)
      modifies this
      ensures Inv(st) && st == Apply(Run(old(st), others), mine) && st.phase == old(st).phase
      ensures Run(old(st), others).tasks[i] == old(st).tasks[i]
      ensures |Owed(old(st))| <= |Owed(st)| && Owed(st)[..|Owed(old(st))|] == Owed(old(st))
    {
      OthersLeaveTask(st, others, i);
      st := Run(st, others);
      StepInv(st, mine);
      OwedGrows(st, mine);
      st := Apply(st, mine);
    }

    /** _drain of task i.  `others` is a run of everybody else at each await.  True means
        that something was sent; either way every event owed when the drain began has
        been heard of when it ends. */
    method Drain(i: nat, others: (State, nat) -> seq<Action>) returns (any: bool)
      requires Inv(st) && i < 2 && MayRead(st, i)
      requires forall s, k :: Inv(s) ==> Leaves(s, others(s, k), i)
      modifies this
      ensures Inv(st) && st.phase == old(st).phase && Drained(st.tasks[i])
      ensures any <==> |st.tasks[i].batch| > 0
      ensures |Owed(old(st))| <= |Fresh(st.sent)|
      ensures |Owed(old(st))| <= |Owed(st)| && Owed(st)[..|Owed(old(st))|] == Owed(old(st))
    {
      ghost var owed := Owed(st);
      Fetch(i, others);
      var n := |st.tasks[i].batch|;
      ghost var visible := st.tasks[i].visible;
      for k := 0 to n
        invariant Inv(st) && st.phase == old(st).phase && MayRun(st, i)
        invariant st.tasks[i].Sending? && st.tasks[i].pos == k && |st.tasks[i].batch| == n
        invariant st.tasks[i].visible == visible >= |owed|
        invariant |owed| <= |Owed(st)| && Owed(st)[..|owed|] == owed
      {
        SendNext(i, others(st, k + 1));
      }
      any := n > 0;
    }

    /** The cursor read and the query. */
    method Fetch(i: nat, others: (State, nat) -> seq<Action>)
      requires Inv(st) && i < 2 && MayRead(st, i)
      requires forall s, k :: Inv(s) ==> Leaves(s, others(s, k), i)
      modifies this
      ensures Inv(st) && st.phase == old(st).phase && MayRun(st, i)
      ensures st.tasks[i].Sending? && st.tasks[i].pos == 0 && |Owed(old(st))| <= st.tasks[i].visible
      ensures |Owed(old(st))| <= |Owed(st)| && Owed(st)[..|Owed(old(st))|] == Owed(old(st))
    {
      Await(i, [], ReadCursor(i));
      assert st.tasks[i].Reading?;
      ghost var owed := Owed(st);
      Await(i, others(st, 0), Query(i));
      assert st.tasks[i].visible == |Owed(st)|;
    }

    /** One row: the cursor and the hand-over. */
    method SendNext(i: nat, others: seq<Action>)
      requires Inv(st) && i < 2 && MayRun(st, i) && Leaves(st, others, i)
      requires st.tasks[i].Sending? && st.tasks[i].pos < |st.tasks[i].batch|
      modifies this
      ensures Inv(st) && st.phase == old(st).phase && MayRun(st, i)
      ensures st.tasks[i] == old(st).tasks[i].(pos := old(st).tasks[i].pos + 1)
      ensures st.cursor == st.tasks[i].batch[old(st).tasks[i].pos] && st.cursor in st.sent
      ensures |Owed(old(st))| <= |Owed(st)| && Owed(st)[..|Owed(old(st))|] == Owed(old(st))
    {
      Await(i, others, Send(i));
    }
  }
}
