/** The planning-job lease of repositories/planning_job.py.

    Each SQL statement of the repository is one atomic guarded update of a row; `Step`
    is that update, `Run` a whole history of a row.  The class `Repository` is the
    object of the source, every method tied to the history it makes. */
module PlanningJobs {
  import opened Prelude

  type JobId = nat
  type WorkerId = nat

  /** The status column.  Stage stands for every text but the eight named ones. */
  datatype Status =
    | Pending | Running | Retrying | Completed | Failed | Cancelling | Cancelled | ForceCancelled
    | Stage(name: string)

  datatype Job = Job(
    status: Status,
    lockedBy: Option<WorkerId>,
    expires: Option<int>,
    heartbeatAt: Option<int>,
    attempts: nat,
    maxAttempts: nat,
    createdAt: int,
    completedAt: Option<int>,
    lastError: Option<string>)

  datatype Action =
    | Claim(worker: WorkerId, lease: nat)
    | Heartbeat(worker: WorkerId, lease: nat)
    | Release(worker: WorkerId, final: Status, error: Option<string>)
    | ConfirmCancel(worker: WorkerId)
    | UpdateStage(stage: Status, owner: Option<WorkerId>)
    | MarkRetrying(reason: string)
    | RequestCancel
    | ForceCancel
    | UpdateStatus(status: Status)

  datatype Event = Event(at: int, act: Action)

  function NewJob(createdAt: int, maxAttempts: nat): (j: Job)
  {
    Job(Pending, None, None, None, 0, maxAttempts, createdAt, None, None)
  }

  /** The WHERE clause of both claim statements; a NULL expiry compares false. */
  predicate Claimable(j: Job, now: int)
  {
    && (j.status.Pending? || j.status.Retrying?
        || (j.status.Running? && j.expires.Some? && j.expires.value < now))
    && j.attempts < j.maxAttempts
  }

  /** The WHERE clause of each statement: whether it touches the row. */
  predicate Hits(j: Job, e: Event)
  {
    match e.act
    case Claim(_, _) => Claimable(j, e.at)
    case Heartbeat(w, _) => j.lockedBy == Some(w)
    case Release(w, _, _) => j.lockedBy == Some(w)
    case ConfirmCancel(w) => j.lockedBy == Some(w)
    case UpdateStage(_, owner) => owner.Some? ==> j.lockedBy == owner
    case ForceCancel => j.status.Cancelling?
    case _ => true
  }

  /** The SET clause of each statement, on a row its WHERE clause selects. */
  function Write(j: Job, e: Event): (r: Job)
  {
    match e.act
    case Claim(w, lease) =>
      j.(status := Running, lockedBy := Some(w), expires := Some(e.at + lease),
         heartbeatAt := Some(e.at), attempts := j.attempts + 1)
    case Heartbeat(w, lease) =>
      j.(heartbeatAt := Some(e.at), expires := Some(e.at + lease))
    case Release(w, final, error) =>
      j.(status := final, lockedBy := None, expires := None,
         lastError := if error.Some? && error.value != "" then error else j.lastError,
         completedAt := if final.Completed? || final.Failed? || final.Cancelled? then Some(e.at) else j.completedAt)
    case ConfirmCancel(w) =>
      j.(status := Cancelled, lockedBy := None, expires := None)
    case UpdateStage(stage, _) =>
      j.(status := stage)
    case MarkRetrying(reason) =>
      j.(status := Retrying, lockedBy := None, expires := None, lastError := Some(reason))
    case RequestCancel =>
      j.(status := Cancelling)
    case ForceCancel =>
      j.(status := ForceCancelled, lockedBy := None, expires := None, completedAt := Some(e.at))
    case UpdateStatus(status) =>
      j.(status := status)
  }

  function Step(j: Job, e: Event): (r: Job)
  {
    if Hits(j, e) then Write(j, e) else j
  }

  function Run(j: Job, es: seq<Event>): (r: Job)
  {
    if es == [] then j else Step(Run(j, es[..|es| - 1]), es[|es| - 1])
  }

  // ---------------------------------------------------------------- fencing

  ghost predicate HitAt(j: Job, es: seq<Event>, i: nat)
    requires i < |es|
  {
    Hits(Run(j, es[..i]), es[i])
  }

  ghost predicate ClaimedAt(j: Job, es: seq<Event>, i: nat)
    requires i < |es|
  {
    es[i].act.Claim? && HitAt(j, es, i)
  }

  predicate Clears(a: Action)
  {
    a.Release? || a.ConfirmCancel? || a.MarkRetrying? || a.ForceCancel?
  }

  ghost predicate ClearedAt(j: Job, es: seq<Event>, i: nat)
    requires i < |es|
  {
    Clears(es[i].act) && HitAt(j, es, i)
  }

  /** Read off the history alone: w made the claim at i, and since then nobody has
      claimed the job and nothing has cleared its lock. */
  ghost predicate LastClaim(j: Job, es: seq<Event>, i: nat, w: WorkerId)
    requires i < |es|
  {
    && ClaimedAt(j, es, i) && es[i].act.worker == w
    && forall k :: i < k < |es| ==> !ClaimedAt(j, es, k) && !ClearedAt(j, es, k)
  }

  ghost predicate Owns(j: Job, es: seq<Event>, w: WorkerId)
  {
    exists i :: 0 <= i < |es| && LastClaim(j, es, i, w)
  }

  /** Facts about a history carry over to the history one event longer. */
  lemma Longer(j: Job, es: seq<Event>, i: nat)
    requires i < |es| - 1
    ensures var h := es[..|es| - 1];
            ClaimedAt(j, es, i) == ClaimedAt(j, h, i) && ClearedAt(j, es, i) == ClearedAt(j, h, i)
  {
    assert es[..|es| - 1][..i] == es[..i];
  }

  /** Fencing over all runs: the lock column names w exactly when w made the latest
      successful claim and nothing has cleared the lock since. */
  lemma {:induction false} LockedByIsLastClaim(j: Job, es: seq<Event>, w: WorkerId)
    requires j.lockedBy.None?
    ensures Run(j, es).lockedBy == Some(w) <==> Owns(j, es, w)
  {
    if es != [] {
      var n := |es| - 1;
      var h := es[..n];
      LockedByIsLastClaim(j, h, w);
      forall i | 0 <= i < n
        ensures ClaimedAt(j, es, i) == ClaimedAt(j, h, i) && ClearedAt(j, es, i) == ClearedAt(j, h, i)
      {
        Longer(j, es, i);
      }
      assert HitAt(j, es, n) == Hits(Run(j, h), es[n]);
      if ClaimedAt(j, es, n) {
        if es[n].act.worker == w {
          assert LastClaim(j, es, n, w);
        }
      } else if !ClearedAt(j, es, n) {
        assert Run(j, es).lockedBy == Run(j, h).lockedBy;
        if Owns(j, h, w) {
          var i :| 0 <= i < |h| && LastClaim(j, h, i, w);
          assert LastClaim(j, es, i, w);
        }
        if Owns(j, es, w) {
          var i :| 0 <= i < |es| && LastClaim(j, es, i, w);
          assert LastClaim(j, h, i, w);
        }
      }
    }
  }

  /** The statements a worker issues under its own name. */
  predicate FencedBy(a: Action, w: WorkerId)
  {
    match a
    case Heartbeat(v, _) => v == w
    case Release(v, _, _) => v == w
    case ConfirmCancel(v) => v == w
    case UpdateStage(_, owner) => owner == Some(w)
    case _ => false
  }

  /** A worker that has been superseded, by a later claim or a cleared lock at k, and has
      not claimed since cannot touch the row through any fenced statement. */
  lemma {:induction false} StaleWorkerIsHarmless(j: Job, es: seq<Event>, k: nat, w: WorkerId, e: Event)
    requires j.lockedBy.None? && k < |es|
    requires ClearedAt(j, es, k) || (ClaimedAt(j, es, k) && es[k].act.worker != w)
    requires forall i :: k < i < |es| && ClaimedAt(j, es, i) ==> es[i].act.worker != w
    requires FencedBy(e.act, w)
    ensures Step(Run(j, es), e) == Run(j, es)
  {
    LockedByIsLastClaim(j, es, w);
  }

  // ---------------------------------------------------------------- lease exclusivity

  predicate LeaseLive(j: Job, now: int)
  {
    j.expires.Some? && now <= j.expires.value
  }

  /** The status writes that respect the lock: only mark_retrying and release, which drop
      the lease in the same statement, put a job back in the queue. */
  predicate Disciplined(a: Action)
  {
    match a
    case UpdateStatus(s) => !s.Pending? && !s.Retrying?
    case UpdateStage(s, _) => !s.Pending? && !s.Retrying?
    case _ => true
  }

  /** A queued row carries no lease; a lease and an owner come and go together. */
  predicate LeaseOk(j: Job)
  {
    && (j.lockedBy.Some? <==> j.expires.Some?)
    && (j.status.Pending? || j.status.Retrying? ==> j.lockedBy.None?)
  }

  /** The statement queues a job that is still locked. */
  predicate QueuesLocked(j: Job, e: Event)
  {
    Hits(j, e) && !Disciplined(e.act) && j.lockedBy.Some?
  }

  /** One statement breaks the lease invariant if and only if it queues a job that is still
      locked. */
  lemma DisciplineIsExact(j: Job, e: Event)
    requires LeaseOk(j)
    ensures LeaseOk(Step(j, e)) <==> !QueuesLocked(j, e)
  {
  }

  lemma {:induction false} DisciplinedRun(j: Job, es: seq<Event>)
    requires LeaseOk(j) && forall k :: 0 <= k < |es| ==> !QueuesLocked(Run(j, es[..k]), es[k])
    ensures LeaseOk(Run(j, es))
  {
    if es != [] {
      var h := es[..|es| - 1];
      assert forall k :: 0 <= k < |h| ==> h[..k] == es[..k];
      DisciplinedRun(j, h);
      DisciplineIsExact(Run(j, h), es[|es| - 1]);
    }
  }

  ghost predicate TakesLiveLease(j: Job, es: seq<Event>, i: nat)
    requires i < |es|
  {
    ClaimedAt(j, es, i) && LeaseLive(Run(j, es[..i]), es[i].at)
  }

  /** Lease exclusivity: as long as nothing queues a locked job, no claim takes a job whose
      lease has not run out. */
  lemma {:induction false} NoClaimOfLiveLease(j: Job, es: seq<Event>, i: nat)
    requires LeaseOk(j) && i < |es|
    requires forall k :: 0 <= k < i ==> !QueuesLocked(Run(j, es[..k]), es[k])
    ensures !TakesLiveLease(j, es, i)
  {
    assert forall k :: 0 <= k < i ==> es[..i][..k] == es[..k];
    DisciplinedRun(j, es[..i]);
  }

  predicate Queued(s: Status)
  {
    s.Pending? || s.Retrying?
  }

  /** Event k has queued the locked job, and since then nothing has moved the status on or
      dropped the lock. */
  ghost predicate QueueStands(j: Job, es: seq<Event>, k: nat)
    requires k < |es|
  {
    && QueuesLocked(Run(j, es[..k]), es[k])
    && forall m :: k < m < |es| && HitAt(j, es, m) ==> es[m].act.Heartbeat? || !Disciplined(es[m].act)
  }

  lemma {:induction false} QueuedLockedIff(j: Job, es: seq<Event>)
    requires LeaseOk(j)
    ensures var r := Run(j, es);
            && (r.lockedBy.Some? <==> r.expires.Some?)
            && (r.lockedBy.Some? && Queued(r.status) <==> exists k :: 0 <= k < |es| && QueueStands(j, es, k))
  {
    if es != [] {
      var n := |es| - 1;
      var h := es[..n];
      QueuedLockedIff(j, h);
      forall k | 0 <= k < n ensures QueueStands(j, es, k) <==>
        QueueStands(j, h, k) && (HitAt(j, es, n) ==> es[n].act.Heartbeat? || !Disciplined(es[n].act))
      {
        StandsLonger(j, es, k);
      }
      var s := Run(j, h);
      assert QueueStands(j, es, n) <==> QueuesLocked(s, es[n]);
      if s.lockedBy.Some? && Queued(s.status) {
        var k :| 0 <= k < |h| && QueueStands(j, h, k);
        assert (HitAt(j, es, n) ==> es[n].act.Heartbeat? || !Disciplined(es[n].act)) ==> QueueStands(j, es, k);
      }
    }
  }

  lemma StandsLonger(j: Job, es: seq<Event>, k: nat)
    requires k < |es| - 1
    ensures var n := |es| - 1;
            QueueStands(j, es, k) <==>
            QueueStands(j, es[..n], k) && (HitAt(j, es, n) ==> es[n].act.Heartbeat? || !Disciplined(es[n].act))
  {
    var n := |es| - 1;
    var h := es[..n];
    assert forall m :: k <= m < n ==> h[..m] == es[..m];
    assert forall m :: k < m < n ==> HitAt(j, h, m) == HitAt(j, es, m);
  }

  /** When a live lease is taken: exactly by a claim with attempts left that comes, before the
      lease runs out, while the effect of a statement that queued the locked job still stands. */
  lemma {:induction false} LeaseTakenIff(j: Job, es: seq<Event>, i: nat)
    requires LeaseOk(j) && i < |es|
    ensures var r := Run(j, es[..i]);
            TakesLiveLease(j, es, i) <==>
            && es[i].act.Claim? && r.attempts < r.maxAttempts && LeaseLive(r, es[i].at)
            && exists k :: 0 <= k < i && QueueStands(j, es[..i], k)
  {
    QueuedLockedIff(j, es[..i]);
  }

  /** For instance: worker 1 holds the job until
      time 60, the status endpoint writes 'pending' at time 5, worker 2 claims at time 6. */
  lemma QueueingALockedJobLosesTheLease()
    ensures var es := [Event(0, Claim(1, 60)), Event(5, UpdateStatus(Pending)), Event(6, Claim(2, 60))];
            var j := NewJob(0, 3);
            ClaimedAt(j, es, 2) && LeaseLive(Run(j, es[..2]), 6) && Run(j, es).lockedBy == Some(2)
  {
    var es := [Event(0, Claim(1, 60)), Event(5, UpdateStatus(Pending)), Event(6, Claim(2, 60))];
    var j := NewJob(0, 3);
    assert es[..2][..1] == es[..1] && es[..1][..0] == [];
    assert Run(j, es[..1]) == Step(j, es[0]);
    assert Run(j, es[..2]) == Step(Step(j, es[0]), es[1]);
  }

  // ---------------------------------------------------------------- keeping a job

  /** When w last renewed its lease: its latest heartbeat, or the claim at `since`. */
  function LastRenewal(es: seq<Event>, since: int, w: WorkerId): (t: int)
  {
    if es == [] then since
    else
      var e := es[|es| - 1];
      if e.act.Heartbeat? && e.act.worker == w then e.at else LastRenewal(es[..|es| - 1], since, w)
  }

  /** Every event comes before w's lease, as last renewed, has run out; w always renews
      for the same number of seconds. */
  ghost predicate Timely(es: seq<Event>, since: int, w: WorkerId, lease: nat)
  {
    forall k :: 0 <= k < |es| ==>
      && es[k].at <= LastRenewal(es[..k], since, w) + lease
      && (es[k].act.Heartbeat? && es[k].act.worker == w ==> es[k].act.lease == lease)
  }

  /** The statements that take a job from its owner w. */
  predicate Ends(a: Action, w: WorkerId)
  {
    || a.MarkRetrying? || a.ForceCancel?
    || (a.Release? && a.worker == w) || (a.ConfirmCancel? && a.worker == w)
  }

  /** A worker whose heartbeats all land in time keeps its job, whatever the others do, until
      it releases or confirms a cancel itself, or the job is marked retrying or force-cancelled,
      or a claim comes while somebody's status write has the locked job queued. */
  lemma {:induction false} TimelyWorkerKeepsJob(j: Job, es: seq<Event>, since: int, w: WorkerId, lease: nat)
    requires j.lockedBy == Some(w) && j.expires == Some(since + lease)
    requires forall k :: 0 <= k < |es| ==> !Ends(es[k].act, w)
    requires forall k :: 0 <= k < |es| && es[k].act.Claim? ==> !Queued(Run(j, es[..k]).status)
    requires Timely(es, since, w, lease)
    ensures var r := Run(j, es);
            r.lockedBy == Some(w) && r.expires == Some(LastRenewal(es, since, w) + lease) && r.attempts == j.attempts
  {
    if es != [] {
      var n := |es| - 1;
      var h := es[..n];
      assert forall k :: 0 <= k < n ==> h[..k] == es[..k];
      TimelyWorkerKeepsJob(j, h, since, w, lease);
    }
  }

  /** The margin is exact: a claim of a running job with attempts left leaves it to its owner if
      and only if it comes no later than the end of the lease. */
  lemma {:induction false} TimelyIsTight(j: Job, since: int, w: WorkerId, lease: nat, claim: Event)
    requires j.status.Running? && j.lockedBy == Some(w) && j.expires == Some(since + lease)
    requires j.attempts < j.maxAttempts && claim.act.Claim? && claim.act.worker != w
    ensures Timely([claim], since, w, lease) <==> Run(j, [claim]).lockedBy == Some(w)
  {
    assert [claim][..0] == [];
    assert Run(j, [claim]) == Step(j, claim);
  }

  // ---------------------------------------------------------------- bounded claims

  ghost function Claims(j: Job, es: seq<Event>): (n: nat)
  {
    if es == [] then 0
    else
      var n := |es| - 1;
      Claims(j, es[..n]) + (if es[n].act.Claim? && Hits(Run(j, es[..n]), es[n]) then 1 else 0)
  }

  /** attempt_count counts the successful claims and never passes max_attempts. */
  lemma {:induction false} AttemptsCountClaims(j: Job, es: seq<Event>)
    requires j.attempts <= j.maxAttempts
    ensures var r := Run(j, es);
            r.attempts == j.attempts + Claims(j, es) && r.attempts <= r.maxAttempts == j.maxAttempts
  {
    if es != [] {
      AttemptsCountClaims(j, es[..|es| - 1]);
    }
  }

  // ---------------------------------------------------------------- what no statement writes

  /** The statement sets when a worker last reported. */
  predicate Reports(a: Action)
  {
    a.Claim? || a.Heartbeat?
  }

  /** The statement sets the time of completion. */
  predicate Closes(a: Action)
  {
    a.ForceCancel? || (a.Release? && (a.final.Completed? || a.final.Failed? || a.final.Cancelled?))
  }

  /** The statement records an error. */
  predicate Blames(a: Action)
  {
    a.MarkRetrying? || (a.Release? && a.error.Some? && a.error.value != "")
  }

  predicate Moves(a: Action)
  {
    !a.Heartbeat?
  }

  /** No statement of this kind has hit the row. */
  ghost predicate HitByNo(j: Job, es: seq<Event>, kind: Action -> bool)
  {
    forall i :: 0 <= i < |es| && HitAt(j, es, i) ==> !kind(es[i].act)
  }

  lemma {:induction false} HitByNoStep(j: Job, es: seq<Event>, kind: Action -> bool)
    requires es != []
    ensures var n := |es| - 1;
            HitByNo(j, es, kind) <==>
            HitByNo(j, es[..n], kind) && (Hits(Run(j, es[..n]), es[n]) ==> !kind(es[n].act))
  {
    var n := |es| - 1;
    assert forall i :: 0 <= i < n ==> es[..n][..i] == es[..i];
    assert forall i :: 0 <= i < n ==> HitAt(j, es[..n], i) == HitAt(j, es, i);
    assert HitAt(j, es, n) == Hits(Run(j, es[..n]), es[n]);
  }

  lemma StepColumns(j: Job, e: Event)
    ensures var r := Step(j, e);
            && r.createdAt == j.createdAt && r.maxAttempts == j.maxAttempts
            && ((Hits(j, e) && Reports(e.act)) || r.heartbeatAt == j.heartbeatAt)
            && ((Hits(j, e) && Closes(e.act)) || r.completedAt == j.completedAt)
            && ((Hits(j, e) && Blames(e.act)) || r.lastError == j.lastError)
            && ((Hits(j, e) && Moves(e.act)) || r.status == j.status)
  {
  }

  /** A row keeps its creation time and its attempt limit for ever, the report time until a
      worker reports, the completion time until something closes it, the error until something
      blames it and the status while it only hears heartbeats. */
  lemma {:induction false} ColumnsStay(j: Job, es: seq<Event>)
    ensures var r := Run(j, es);
            && r.createdAt == j.createdAt && r.maxAttempts == j.maxAttempts
            && (HitByNo(j, es, Reports) ==> r.heartbeatAt == j.heartbeatAt)
            && (HitByNo(j, es, Closes) ==> r.completedAt == j.completedAt)
            && (HitByNo(j, es, Blames) ==> r.lastError == j.lastError)
            && (HitByNo(j, es, Moves) ==> r.status == j.status)
  {
    if es != [] {
      var n := |es| - 1;
      ColumnsStay(j, es[..n]);
      HitByNoStep(j, es, Reports);
      HitByNoStep(j, es, Closes);
      HitByNoStep(j, es, Blames);
      HitByNoStep(j, es, Moves);
      StepColumns(Run(j, es[..n]), es[n]);
    }
  }

  // ---------------------------------------------------------------- terminal states

  predicate Terminal(s: Status)
  {
    s.Completed? || s.Failed? || s.Cancelled? || s.ForceCancelled?
  }

  predicate Finished(j: Job)
  {
    Terminal(j.status) && j.lockedBy.None?
  }

  /** The statements without an owner check. */
  predicate Unfenced(a: Action)
  {
    a.MarkRetrying? || a.RequestCancel? || a.UpdateStatus? || (a.UpdateStage? && a.owner.None?)
  }

  /** A finished job is touched by the statements without an owner check and by no others. */
  lemma FinishedJobIsHitBy(j: Job, e: Event)
    requires Finished(j)
    ensures Hits(j, e) <==> Unfenced(e.act)
  {
  }

  /** What finishes a locked job: a release with one of these four statuses, a confirmed cancel or
      a forced one. */
  lemma FinishedBy(j: Job, e: Event)
    requires j.lockedBy.Some? && Hits(j, e)
    ensures Finished(Step(j, e)) <==>
              || (e.act.Release? && e.act.final in {Completed, Failed, Cancelled, ForceCancelled})
              || e.act.ConfirmCancel? || e.act.ForceCancel?
  {
  }

  /** Claims, fenced statements and force_cancel never change a finished job again. */
  lemma {:induction false} FinishedStaysFinished(j: Job, es: seq<Event>)
    requires Finished(j) && forall i :: 0 <= i < |es| ==> !Unfenced(es[i].act)
    ensures Run(j, es) == j
  {
    if es != [] {
      FinishedStaysFinished(j, es[..|es| - 1]);
    }
  }

  /** request_cancel has no status guard: a late cancel turns a completed job into a
      force-cancelled one, with a new completion time. */
  lemma LateCancelUndoesCompletion(j: Job, t: int)
    requires j.status.Completed? && j.lockedBy.None?
    ensures var r := Run(j, [Event(t, RequestCancel), Event(t + 30, ForceCancel)]);
            r.status.ForceCancelled? && r.completedAt == Some(t + 30)
  {
    var es := [Event(t, RequestCancel), Event(t + 30, ForceCancel)];
    assert es[..1] == [es[0]] && es[..1][..0] == [];
    assert Run(j, es[..1]) == Step(j, es[0]);
  }

  // ---------------------------------------------------------------- reclaiming

  /** Only a job that still reads 'running' can be reclaimed.  Once its worker has moved
      it to a stage of its own and died, no claim, no other worker and no force_cancel
      ever touches it again, however long its lease has been over. */
  lemma {:induction false} StagedJobIsStuck(j: Job, es: seq<Event>, w: WorkerId)
    requires j.lockedBy == Some(w)
    requires !j.status.Pending? && !j.status.Retrying? && !j.status.Running? && !j.status.Cancelling?
    requires forall i :: 0 <= i < |es| ==> !Unfenced(es[i].act) && !FencedBy(es[i].act, w)
    ensures Run(j, es) == j
  {
    if es != [] {
      StagedJobIsStuck(j, es[..|es| - 1], w);
    }
  }

  /** Exactly when an unfinished job in good order can be claimed at time `now`. */
  lemma ClaimableExactly(j: Job, now: int)
    requires LeaseOk(j)
    ensures Claimable(j, now) <==>
              && j.attempts < j.maxAttempts
              && (j.lockedBy.None? ==> j.status.Pending? || j.status.Retrying?)
              && (j.lockedBy.Some? ==> j.status.Running? && !LeaseLive(j, now))
  {
  }

  // ---------------------------------------------------------------- the repository object

  lemma {:induction false} RunAppend(j: Job, es: seq<Event>, e: Event)
    ensures Run(j, es + [e]) == Step(Run(j, es), e)
  {
    assert (es + [e])[..|es|] == es;
  }

  /** A non-empty set of jobs has an oldest one. */
  lemma {:induction false} OldestExists(jobs: map<JobId, Job>, ids: set<JobId>) returns (id: JobId)
    requires ids != {} && ids <= jobs.Keys
    ensures id in ids && forall k :: k in ids ==> jobs[id].createdAt <= jobs[k].createdAt
    decreases |ids|
  {
    id :| id in ids;
    if ids != {id} {
      var rest := OldestExists(jobs, ids - {id});
      if jobs[rest].createdAt < jobs[id].createdAt {
        id := rest;
      }
    }
  }

  class Repository {
    var jobs: map<JobId, Job>
    ghost var created: map<JobId, Job>
    ghost var history: map<JobId, seq<Event>>

    /** Every row is what its history made of the row first inserted. */
    ghost predicate Valid()
      reads this
    {
      && created.Keys == jobs.Keys && history.Keys == jobs.Keys
      && forall id :: id in jobs ==>
           created[id].lockedBy.None? && created[id].attempts == 0 && jobs[id] == Run(created[id], history[id])
    }

    constructor ()
      ensures Valid() && jobs == map[]
    {
      jobs, created, history := map[], map[], map[];
    }

    method Create(id: JobId, now: int, maxAttempts: nat)
      requires Valid() && id !in jobs
      modifies this
      ensures Valid() && jobs == old(jobs)[id := Job(Pending, None, None, None, 0, maxAttempts, now, None, None)]
      ensures created == old(created)[id := jobs[id]] && history == old(history)[id := []]
    {
      jobs := jobs[id := NewJob(now, maxAttempts)];
      created := created[id := NewJob(now, maxAttempts)];
      history := history[id := []];
    }

    /** One guarded UPDATE on the row id; whether a row was hit. */
    method Update(id: JobId, e: Event) returns (ok: bool)
      requires Valid()
      modifies this
      ensures Valid() && created == old(created)
      ensures ok <==> id in old(jobs) && Hits(old(jobs)[id], e)
      ensures jobs == if ok then old(jobs)[id := Write(old(jobs)[id], e)] else old(jobs)
      ensures history == if id in old(jobs) then old(history)[id := old(history)[id] + [e]] else old(history)
    {
      ok := false;
      if id in jobs {
        RunAppend(created[id], history[id], e);
        history := history[id := history[id] + [e]];
        if Hits(jobs[id], e) {
          jobs := jobs[id := Write(jobs[id], e)];
          ok := true;
        }
      }
    }

    /** One UPDATE fenced by a worker's name. */
    method UpdateFenced(id: JobId, worker: WorkerId, e: Event) returns (ok: bool)
      requires Valid() && FencedBy(e.act, worker)
      modifies this
      ensures Valid() && created == old(created)
      ensures ok <==> id in old(jobs) && Owns(created[id], old(history)[id], worker)
      ensures jobs == if ok then old(jobs)[id := Write(old(jobs)[id], e)] else old(jobs)
    {
      if id in jobs {
        LockedByIsLastClaim(created[id], history[id], worker);
      }
      ok := Update(id, e);
    }

    /** heartbeat answers True exactly to the worker that made the latest successful
        claim of a job whose lock nothing has cleared since. */
    method Heartbeat(id: JobId, worker: WorkerId, now: int, lease: nat) returns (ok: bool)
      requires Valid()
      modifies this
      ensures Valid() && created == old(created)
      ensures ok <==> id in old(jobs) && Owns(created[id], old(history)[id], worker)
      ensures !ok ==> jobs == old(jobs)
      ensures ok ==> jobs == old(jobs)[id := old(jobs)[id].(heartbeatAt := Some(now), expires := Some(now + lease))]
    {
      ok := UpdateFenced(id, worker, Event(now, Action.Heartbeat(worker, lease)));
    }

    method Release(id: JobId, worker: WorkerId, final: Status, error: Option<string>, now: int) returns (ok: bool)
      requires Valid()
      modifies this
      ensures Valid() && created == old(created)
      ensures ok <==> id in old(jobs) && Owns(created[id], old(history)[id], worker)
      ensures !ok ==> jobs == old(jobs)
      ensures ok ==>
                jobs == old(jobs)[id := old(jobs)[id].(
                  status := final, lockedBy := None, expires := None,
                  lastError := if error.Some? && error.value != "" then error else old(jobs)[id].lastError,
                  completedAt := if final.Completed? || final.Failed? || final.Cancelled? then Some(now)
                                 else old(jobs)[id].completedAt)]
    {
      ok := UpdateFenced(id, worker, Event(now, Action.Release(worker, final, error)));
    }

    /** acquire_job_by_id. */
    method AcquireById(id: JobId, worker: WorkerId, now: int, lease: nat) returns (job: Option<Job>)
      requires Valid()
      modifies this
      ensures Valid() && created == old(created)
      ensures job.Some? <==> id in old(jobs) && Claimable(old(jobs)[id], now)
      ensures job.None? ==> jobs == old(jobs)
      ensures job.Some? ==> jobs == old(jobs)[id := job.value]
                            && job.value == old(jobs)[id].(
                                 status := Running, lockedBy := Some(worker), expires := Some(now + lease),
                                 heartbeatAt := Some(now), attempts := old(jobs)[id].attempts + 1)
                            && Owns(created[id], history[id], worker)
                            && job.value.attempts <= job.value.maxAttempts
    {
      var ok := Update(id, Event(now, Claim(worker, lease)));
      if ok {
        LockedByIsLastClaim(created[id], history[id], worker);
        return Some(jobs[id]);
      }
      return None;
    }

    /** acquire_job: claims a claimable row that no other transaction has locked, created first
        among these, and answers None exactly when there is none. */
    method Acquire(worker: WorkerId, locked: set<JobId>, now: int, lease: nat) returns (claimed: Option<JobId>)
      requires Valid()
      modifies this
      ensures Valid() && created == old(created)
      ensures claimed.None? <==> forall k :: k in old(jobs) && k !in locked ==> !Claimable(old(jobs)[k], now)
      ensures claimed.None? ==> jobs == old(jobs)
      ensures claimed.Some? ==>
                && claimed.value in old(jobs) && claimed.value !in locked && Claimable(old(jobs)[claimed.value], now)
                && (forall k :: k in old(jobs) && k !in locked && Claimable(old(jobs)[k], now) ==>
                      created[claimed.value].createdAt <= created[k].createdAt)
                && jobs == old(jobs)[claimed.value := old(jobs)[claimed.value].(
                     status := Running, lockedBy := Some(worker), expires := Some(now + lease),
                     heartbeatAt := Some(now), attempts := old(jobs)[claimed.value].attempts + 1)]
                && Owns(created[claimed.value], history[claimed.value], worker)
    {
      var eligible := set k | k in jobs && k !in locked && Claimable(jobs[k], now);
      if eligible == {} {
        assert forall k :: k in jobs && k !in locked && Claimable(jobs[k], now) ==> k in eligible;
        return None;
      }
      forall k | k in jobs ensures jobs[k].createdAt == created[k].createdAt {
        ColumnsStay(created[k], history[k]);
      }
      ghost var oldest := OldestExists(jobs, eligible);
      assert oldest in eligible;
      var id :| id in eligible && forall k :: k in eligible ==> jobs[id].createdAt <= jobs[k].createdAt;
      var job := AcquireById(id, worker, now, lease);
      return Some(id);
    }

    method ConfirmCancel(id: JobId, worker: WorkerId, now: int) returns (ok: bool)
      requires Valid()
      modifies this
      ensures Valid() && created == old(created)
      ensures ok <==> id in old(jobs) && Owns(created[id], old(history)[id], worker)
      ensures !ok ==> jobs == old(jobs)
      ensures ok ==> jobs == old(jobs)[id := old(jobs)[id].(status := Cancelled, lockedBy := None, expires := None)]
    {
      ok := UpdateFenced(id, worker, Event(now, Action.ConfirmCancel(worker)));
    }

    /** mark_retrying and request_cancel ask for no owner: they hit any row there is. */
    method MarkRetrying(id: JobId, error: string, now: int) returns (ok: bool)
      requires Valid()
      modifies this
      ensures Valid() && created == old(created)
      ensures ok <==> id in old(jobs)
      ensures jobs == if ok then old(jobs)[id := old(jobs)[id].(
                        status := Retrying, lockedBy := None, expires := None, lastError := Some(error))]
                      else old(jobs)
    {
      ok := Update(id, Event(now, Action.MarkRetrying(error)));
    }

    method RequestCancel(id: JobId, now: int) returns (ok: bool)
      requires Valid()
      modifies this
      ensures Valid() && created == old(created)
      ensures ok <==> id in old(jobs)
      ensures jobs == if ok then old(jobs)[id := old(jobs)[id].(status := Cancelling)] else old(jobs)
    {
      ok := Update(id, Event(now, Action.RequestCancel));
    }

    method ForceCancel(id: JobId, now: int) returns (ok: bool)
      requires Valid()
      modifies this
      ensures Valid() && created == old(created)
      ensures ok <==> id in old(jobs) && old(jobs)[id].status.Cancelling?
      ensures !ok ==> jobs == old(jobs)
      ensures ok ==> jobs == old(jobs)[id := old(jobs)[id].(
                       status := ForceCancelled, lockedBy := None, expires := None, completedAt := Some(now))]
    {
      ok := Update(id, Event(now, Action.ForceCancel));
    }

    /** update_status: the number of rows it has written; without a status it writes none. */
    method UpdateStatus(id: JobId, status: Option<Status>, now: int) returns (rows: nat)
      requires Valid()
      modifies this
      ensures Valid() && created == old(created)
      ensures rows == if id in old(jobs) && status.Some? then 1 else 0
      ensures jobs == if rows == 1 then old(jobs)[id := old(jobs)[id].(status := status.value)] else old(jobs)
    {
      rows := 0;
      if status.Some? {
        var ok := Update(id, Event(now, Action.UpdateStatus(status.value)));
        rows := if ok then 1 else 0;
      }
    }

    /** update_stage: without a worker it writes whatever row it is given. */
    method UpdateStage(id: JobId, stage: Status, worker: Option<WorkerId>, now: int) returns (ok: bool)
      requires Valid()
      modifies this
      ensures Valid() && created == old(created)
      ensures ok <==> id in old(jobs) && (worker.Some? ==> Owns(created[id], old(history)[id], worker.value))
      ensures jobs == if ok then old(jobs)[id := old(jobs)[id].(status := stage)] else old(jobs)
    {
      if worker.Some? {
        ok := UpdateFenced(id, worker.value, Event(now, Action.UpdateStage(stage, worker)));
      } else {
        ok := Update(id, Event(now, Action.UpdateStage(stage, None)));
      }
    }
  }
}
