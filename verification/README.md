# Verification of the travel planner's coordination code

This project models the parts of the travel planner in which something is shared, counted,
leased, cached or retried, and proves what those parts keep over whole runs:

| module | what it models |
|---|---|
| `Redlock` | the quorum lock over n Redis masters, every SET, GET, EXPIRE and script on one node being a step of its own, with lost requests, lost replies and a clock |
| `PlanningJobs` | the planning-job row: claims, heartbeats, releases, stages, retries and cancels as guarded updates, histories of a row, and the repository class |
| `GraphFlow` | the LangGraph node graph with its routers, its error degradation and the `stage` / `next_action` results of its nodes |
| `SlidingWindow`, `Quota`, `Breaker` | the Lua rate limiter, the add-then-take-back daily quotas under concurrency, and the circuit breaker, each against its full history |
| `Delivery` | `push_job_status`: two concurrent drains that share one cursor, and the order in which `done` is sent |
| `Memory`, `LocalCache` | the hot / warm / cold session tiers and the in-process TTL cache |
| `Profiles`, `Gathering` | profile patches, their merge, the turns that gather the required slots, and the round trip of API requirements |
| `RankFusion`, `Latency` | reciprocal rank fusion, and the 99th percentile read out of a histogram |

Common ground.  Each Redis command, Lua script and SQL statement is one atomic step; all
nodes, workers and tasks read one clock that never goes back (`LocalCache` does not even ask
for that).  Python floats that measure or score are reals.  Random tokens and generated ids
are distinct.  State machines are total functions over a state and an action; what the source
does imperatively is a class or method whose postcondition is tied to that function, with the
steps of everybody else as an argument wherever the source awaits.  `Prelude` holds shared
vocabulary.  `dafny verify dfyconfig.toml` checks everything.

## What the code does not keep

The proofs turned up behaviour that its comments or neighbours do not announce.  Each item is
proved, with its exact condition where there is one.

- `acquire` does not look at the time its round took.  A token that is returned a ttl or more
  after the start of its round may belong to a lock that somebody else validly holds
  (`Redlock.ReturnIsWorthIff`).
- `extend` may answer True although the lock has passed to somebody else, because GET and
  EXPIRE are two commands (`Redlock.ExtendCanMislead`); as long as nobody else's EXPIRE
  lengthens the caller's key, True is right exactly if a quorum is left without the EXPIREs that
  arrived after the key their GET had shown ran out (`Redlock.ExtendIsRight`).
- A failed round of `acquire` keeps its partial grants, and they stand in the way of the same
  caller's retries for a whole ttl (`Redlock.LeftoversBlockRetries`); the session lock waits
  at most two seconds with a ttl of ten.
- The generic status update can queue a job that is still locked, and then a live lease can be
  taken (`PlanningJobs.QueueingALockedJobLosesTheLease`), and only then
  (`PlanningJobs.LeaseTakenIff`).  A late `request_cancel` turns a completed job into a
  force-cancelled one (`PlanningJobs.LateCancelUndoesCompletion`).  A job whose worker dies
  after `update_stage` is never reclaimed (`PlanningJobs.StagedJobIsStuck`).
- An exception in the output node after a draft sends the unconfirmed draft on to booking
  (`GraphFlow.DraftIsShown`), and the enrichment branch of the plan node needs three earlier
  failures in the same turn (`GraphFlow.EnrichmentNeedsThreeFailures`).
- The sliding window relies on requests in clock order and on fresh members.  A late request is
  decided by the window of the last one, not by its own, and so may be admitted into a full
  interval (`SlidingWindow.LateRequestOverfillsIff`); a member used again hides its earlier use
  (`SlidingWindow.ReusedMemberUndercounts`).
- A quota that swallows Redis errors is none: each swallowed fault lets a caller past it
  (`Quota.KeepsLimitIff`).  `check_external_api_quota` does so itself, and `check_token_quota`
  does around `check_and_record_tokens`, which alone would keep its limit.
- A breaker that asks for two failures or more reopens on one if its recovery time is shorter
  than its window (`Breaker.ReopensOnOneFailure`; the default settings, 30 and 10 seconds, are
  safe); and since two clock readings are taken while recording, its lists equal the window
  filter exactly if less than a window passes between them
  (`Breaker.CircuitBreaker.RecordFailure`).
- `push_job_status` sends `done` before the last event if that event is committed after its last
  query (`Delivery.DoneIsCompleteIff`): the status of a job can be set to a final one while its
  worker still writes, and a dead task ends the wait whatever the status is
  (`Delivery.CrashSendsDone`; without a crash, exactly if the job has finished,
  `Delivery.DoneComesIff`).  An event whose lower id becomes visible late can be lost for
  good (`Delivery.LateEventLostIff`).
- The comment in `archive_to_cold` says that future archives update the same row.  A hot write
  of a state without a conversation id, such as those of the chat runtime, forgets the row, and
  the next archive adds another (`Memory.WriteForgetsRow`, `Memory.RowsAreCounted`).
- Rewriting a key in the TTL cache does not renew its place in the queue for eviction
  (`LocalCache.RewriteDoesNotRenew`), and a cache without room raises on every `set`
  (`LocalCache.SetEffect`).
- A profile with a personal dict but no trip dict may lose filled slots in its first merge
  (`Gathering.NeverGrowsIff`); requirements that are unknown, null, empty or of the wrong type
  are dropped on the way back (`Gathering.RoundTripIff`).
- When the percentile lies above every finite bound the answer is +Inf
  (`Latency.EstimateInBucket`).

## Model

| member | source | states |
|---|---|---|
| Prelude.QuorumsMeet | backend/src/core/redlock.py:55 | two sets of n//2+1 out of n nodes share a node |
| Redlock.StepInv | backend/src/core/redlock.py:16-99 | every command of every client, its loss, the loss of its reply and the passing of time keep the lock invariant |
| Redlock.RunInv | backend/src/core/redlock.py:16-99 | the invariant holds after every interleaving |
| Redlock.LiveKeyStays | backend/src/core/redlock.py:16-22 | one step may only lengthen a live key, unless its owner deletes it or its time runs out |
| Redlock.OneQuorum | backend/src/core/redlock.py:55-69 | in any state at most one token is live on a quorum of nodes |
| Redlock.ValidIsOnQuorum | backend/src/core/redlock.py:58-69 | a lock inside its own validity window is live on a quorum, leftovers of failed rounds and lost replies notwithstanding |
| Redlock.MutualExclusion | backend/src/core/redlock.py:54-75 | in every run two locks are never valid at once |
| Redlock.WindowsDisjoint | backend/src/core/redlock.py:54-75 | if a token came out before t0 + ttl, no other token is out inside its own window before t0 + ttl, unless the first was released |
| Redlock.KeptUntilRelease | backend/src/core/redlock.py:68-99 | a lock once handed out keeps its window, which only grows, until its release begins |
| Redlock.ReleaseSparesOthers | backend/src/core/redlock.py:16-22 | release removes the token's own keys and nobody else's |
| Redlock.ExtendIsRight | backend/src/core/redlock.py:86-99 | in every interleaving: the lock holds from the start of the extend if a quorum of the EXPIREs counted arrived before the key their GET had shown ran out, and if nobody else's EXPIRE lengthens that key, only then; after a False answer the window stands where it was |
| Redlock.ExtendCounts | backend/src/core/redlock.py:91-98 | the count exceeds the number of EXPIREs that met the own key by at most the number of late ones, and by exactly that number if nobody else's EXPIRE lengthens the key |
| Redlock.ExtendCanMislead | backend/src/core/redlock.py:91-99 | a run in which extend answers True while another client validly holds the lock |
| Redlock.SoloRoundFrom | backend/src/core/redlock.py:59-69 | an undisturbed round takes exactly the free nodes |
| Redlock.SoloAcquire | backend/src/core/redlock.py:58-69 | an undisturbed acquire succeeds exactly when the free nodes are a quorum |
| Redlock.ReturnIsWorthIff | backend/src/core/redlock.py:58-69 | a returned token is live on a quorum and the only valid one in every run exactly if the return comes less than a ttl after the start of its round; for every later moment a run hands out a token while only another client's lock is valid |
| Redlock.QuietTtlFreesLock | backend/src/core/redlock.py:58-75 | one quiet ttl after any reachable state, unreleased partial grants included, an undisturbed acquire succeeds |
| Redlock.LeftoversBlockRetries | backend/src/core/redlock.py:58-75 | the nodes of a failed round are free for nobody, the next round under the same token and the next attempt under a fresh one included, for a whole ttl, whatever happens in the meantime |
| Redlock.OthersRunNeverGrants | backend/src/core/redlock.py:16-22 | no run of other clients puts a token's key on a node or brings it back |
| Redlock.Redlock.SetOn | backend/src/core/redlock.py:60-66 | one SET NX EX under interference: what it did to the nodes, heard of or not, and whether the client heard of it |
| Redlock.Redlock.Acquire | backend/src/core/redlock.py:44-75 | the retry loop: the returned token is valid, hence live on a quorum and the only valid one, exactly while the clock has not reached the start of its last round plus ttl; None comes only after a single try or at the deadline; its last round begins at once or, for a caller that waits, less than one retry delay after the deadline |
| Redlock.Redlock.AcquireLock | backend/src/core/memory.py:280-289 | the session lock's loop of single attempts, each under a fresh token: the same about the token it yields; it gives up only at the deadline, makes one attempt if it is not to wait, and begins none a retry delay or more after the deadline |
| Redlock.Redlock.ReleaseOn | backend/src/core/redlock.py:80-84 | one run of the compare-and-delete script: what it did to the nodes |
| Redlock.Redlock.Release | backend/src/core/redlock.py:77-84 | where the request arrived the key is gone for good, whatever the others do meanwhile |
| Redlock.Redlock.ExtendOn | backend/src/core/redlock.py:91-98 | one GET and, if it showed the token, one EXPIRE; which nodes are counted |
| Redlock.Redlock.Extend | backend/src/core/redlock.py:86-99 | the answer by the count, and what it is worth by the late EXPIREs of everything that happened during the call: right exactly if the count less the late ones is still a quorum |
| PlanningJobs.LockedByIsLastClaim | backend/src/repositories/planning_job.py:215-381 | in any history `locked_by` names w if and only if w made the latest successful claim and nothing has cleared the lock since |
| PlanningJobs.StaleWorkerIsHarmless | backend/src/repositories/planning_job.py:300-381 | heartbeat, release, confirm_cancel and fenced update_stage of a superseded worker touch nothing |
| PlanningJobs.NoClaimOfLiveLease | backend/src/repositories/planning_job.py:187-283 | as long as no statement queues a job that is still locked, no claim takes a job whose lease is unexpired |
| PlanningJobs.DisciplineIsExact | backend/src/repositories/planning_job.py:145-200 | one statement breaks the lease invariant if and only if it queues a job that is still locked |
| PlanningJobs.LeaseTakenIff | backend/src/repositories/planning_job.py:145-283 | in any history a claim takes a live lease exactly if it has attempts left and comes while an earlier statement that queued the locked job still stands, nothing having moved the status on or dropped the lock since |
| PlanningJobs.QueueingALockedJobLosesTheLease | backend/src/repositories/planning_job.py:145-168 | a run in which a live lease is taken after such an update |
| PlanningJobs.TimelyWorkerKeepsJob | backend/src/repositories/planning_job.py:300-318 | a worker whose heartbeats land before expiry keeps the job through any statements of others that do not clear the lock, unless a claim comes while the job is queued |
| PlanningJobs.TimelyIsTight | backend/src/repositories/planning_job.py:226-244 | a claim of a running job leaves it to its owner if and only if it comes no later than the end of the lease |
| PlanningJobs.AttemptsCountClaims | backend/src/repositories/planning_job.py:226-283 | attempt_count is the number of successful claims and never passes max_attempts |
| PlanningJobs.ColumnsStay | backend/src/repositories/planning_job.py:145-465 | over any history a row keeps its creation time and attempt limit, the report time until a claim or heartbeat hits it, the completion time until a final release or force_cancel does, the error until a statement that records one does, and its status while only heartbeats do |
| PlanningJobs.FinishedJobIsHitBy | backend/src/repositories/planning_job.py:145-461 | which statements can touch a finished, unlocked job |
| PlanningJobs.FinishedBy | backend/src/repositories/planning_job.py:320-419 | what finishes a locked job: a release with one of four statuses, a confirmed cancel, a forced one |
| PlanningJobs.FinishedStaysFinished | backend/src/repositories/planning_job.py:215-415 | claims, fenced statements and force_cancel never change a finished job |
| PlanningJobs.LateCancelUndoesCompletion | backend/src/repositories/planning_job.py:353-415 | request_cancel then force_cancel rewrite a completed job |
| PlanningJobs.StagedJobIsStuck | backend/src/repositories/planning_job.py:421-461 | a job left in a stage of its own can be neither claimed nor force-cancelled |
| PlanningJobs.ClaimableExactly | backend/src/repositories/planning_job.py:232-243 | when exactly an unfinished job can be claimed |
| PlanningJobs.Repository.Create | backend/src/repositories/planning_job.py:26-51 | a new row is pending, unlocked and without attempts |
| PlanningJobs.Repository.Acquire | backend/src/repositories/planning_job.py:215-257 | claims a claimable row not skipped as locked that was inserted before or with every other such row, and nothing exactly if there is none; the whole new row is given |
| PlanningJobs.Repository.AcquireById | backend/src/repositories/planning_job.py:259-298 | claims the row if and only if it is claimable; the whole new row is given, and the claimer owns it by its history |
| PlanningJobs.Repository.Heartbeat | backend/src/repositories/planning_job.py:300-318 | True exactly to the owner by history; only the two lease times change |
| PlanningJobs.Repository.Release | backend/src/repositories/planning_job.py:320-347 | True exactly to the owner by history; the whole new row |
| PlanningJobs.Repository.ConfirmCancel | backend/src/repositories/planning_job.py:362-381 | True exactly to the owner by history; the row becomes cancelled and unlocked |
| PlanningJobs.Repository.MarkRetrying | backend/src/repositories/planning_job.py:187-200 | hits any existing row, clears its lock and queues it |
| PlanningJobs.Repository.RequestCancel | backend/src/repositories/planning_job.py:353-360 | hits any existing row and changes only its status |
| PlanningJobs.Repository.ForceCancel | backend/src/repositories/planning_job.py:399-415 | hits exactly a cancelling row |
| PlanningJobs.Repository.UpdateStage | backend/src/repositories/planning_job.py:421-461 | with a worker it is fenced, without one it hits any row |
| PlanningJobs.Repository.UpdateStatus | backend/src/repositories/planning_job.py:145-168 | writes the status of any existing row and nothing else; without a status it writes no row |
| GraphFlow.StateGraph.Build | backend/src/graph/graph.py:50-143 | the builder calls produce the transition table |
| GraphFlow.RoutersMatchTable | backend/src/graph/routers.py:11-94 | no router returns a label that its node has no edge for |
| GraphFlow.RankFalls | backend/src/graph/graph.py:67-139 | each node execution lowers a measure on node, stage and next_action, a failing one once its failure has been paid for |
| GraphFlow.WorkIsBounded | backend/src/graph/graph.py:67-139 | over any run executions and remaining rank are paid by the starting rank and nine per failure |
| GraphFlow.TurnTerminates | backend/src/graph/graph.py:67-139 | from any state a turn with f node failures ends within 6 + ceil(9f/2) executions, whether or not the routers' writes are kept |
| GraphFlow.BoundIsReached | backend/src/graph/exceptions.py:99-117 | for every f and every start state some turn with f failures executes exactly that many nodes |
| GraphFlow.FailureFreeTurn | backend/src/graph/node_impl.py:740-803 | a turn without failures takes one of three paths, chosen by the gathering node; the stage each node leaves and the whole final state: waiting for an answer, noted, or waiting for booking exactly if the plan has an itinerary, blocked if the text is not safe |
| GraphFlow.CheckedPath | backend/src/graph/routers.py:60-94 | a check that finds nothing leads through the hallucination check and output to booking, with these stages and this final state |
| GraphFlow.ReplanPath | backend/src/graph/routers.py:60-70 | a conflict with replans left sends the turn back to plan, which shows a new draft |
| GraphFlow.ConflictPath | backend/src/graph/routers.py:60-70 | a conflict without replans left goes out and is booked |
| GraphFlow.EnrichmentPath | backend/src/graph/nodes.py:43-71 | a confirmed plan is enriched and the tools are called, and the turn goes on from the check |
| GraphFlow.FailureLeads | backend/src/graph/exceptions.py:80-117 | a node that raises leaves the stage alone, sets next_action by the level, and leads to this node |
| GraphFlow.LevelIs | backend/src/graph/exceptions.py:62-77 | the level of an unclassified error by the words that occur in its message |
| GraphFlow.ChangePath | backend/src/graph/nodes.py:353-378 | a change to an itinerary is checked, shown and booked |
| GraphFlow.ReplanLocalPath | backend/src/graph/nodes.py:381-385 | local replanning plans twice and shows the second draft |
| GraphFlow.DraftIsShown | backend/src/graph/routers.py:80-89 | after a draft the turn ends, unless output raises below the escalation level: then the unconfirmed draft is booked |
| GraphFlow.FallbacksCountFailures | backend/src/graph/exceptions.py:99-104 | fallback_used grows by one for each failure, and by nothing else |
| GraphFlow.ConfirmedStaysPaidFor | backend/src/graph/nodes.py:43-71 | wherever the stage is still "confirmed", the failures before that node have been recorded |
| GraphFlow.EnrichmentNeedsThreeFailures | backend/src/graph/nodes.py:43-71 | plan sees the stage "confirmed" only after three failures in the same turn |
| GraphFlow.ReplanBudget | backend/src/graph/routers.py:60-70 | with the routers' writes kept loop_count counts the replans and stops them at MAX_LOOPS |
| GraphFlow.RouterWrites | backend/src/graph/routers.py:60-70 | routers write nothing but the loop count, and that only where a check sends the turn back to plan |
| SlidingWindow.AdmitDecidesByHistory | backend/src/core/redis_client.py:177-193 | the script admits exactly when fewer than limit admissions of the whole history lie in the request's window |
| SlidingWindow.AdmitKeepsRefinement | backend/src/core/redis_client.py:177-193 | pruning and key expiry never change any later answer |
| SlidingWindow.AdmissionWithinLimit | backend/src/core/redis_client.py:186-189 | one more admission overfills no interval, past or future |
| SlidingWindow.RunWithinLimit | backend/src/core/redis_client.py:168-195 | over any run in clock order with fresh members no interval (t - window, t] holds more than limit admissions, and a refusal means exactly limit of them in its own window |
| SlidingWindow.LateRequestOverfillsIff | backend/src/core/redis_client.py:177-193 | after any run in clock order, a late request overfills an interval exactly if the window of the last request has room while an interval around the late score has none |
| SlidingWindow.LateRequestAdmittedIff | backend/src/core/redis_client.py:183-189 | a late request is admitted exactly if fewer than limit admissions lie in the window of the last request, whatever lies in its own |
| SlidingWindow.ServeFits | backend/src/core/redis_client.py:177-193 | after any run in clock order the set holds just the admissions in the window of the last request, and outlives it |
| SlidingWindow.InOrderIsNeverFull | backend/src/core/redis_client.py:177-193 | a request in clock order that is admitted has no full interval around its score |
| SlidingWindow.ReusedMemberUndercounts | backend/src/core/redis_client.py:186-189 | after a member is used again every request is decided as if there had been one admission less, exactly as long as the earlier use is in the request's window |
| SlidingWindow.Limiter.Script | backend/src/core/redis_client.py:177-193 | the commands of the script, one after the other, compute the script function |
| SlidingWindow.Limiter.Add | backend/src/core/redis_client.py:168-195 | one call on a key: its answer by the history, and the history after it |
| Quota.StepBalanced | backend/src/core/token_quota.py:17-31 | every step of every caller keeps counter = granted + in flight + left behind by errors, and granted within the limit |
| Quota.RunBalanced | backend/src/monitoring/rate_limit_controller.py:147-156 | the same after every interleaving |
| Quota.QuietCounterIsGranted | backend/src/core/token_quota.py:23-31 | with Redis healthy the counter is granted plus in flight, and exactly granted once all calls are over |
| Quota.KeepsLimitIff | backend/src/monitoring/rate_limit_controller.py:119-160 | all runs of all callers under all faults stay within the limit exactly for code that swallows no fault, which holds of check_and_record_tokens but neither of its caller check_token_quota nor of check_external_api_quota |
| Quota.SwallowedFaultOverspends | backend/src/monitoring/rate_limit_controller.py:148-160 | for every limit and each command whose fault is swallowed, a run that exceeds the limit |
| Quota.GrantedWhenRoom | backend/src/core/token_quota.py:23-31 | a call is granted if and only if granted, in-flight and leaked amounts leave room for it |
| Quota.Key.CheckAndRecord | backend/src/core/token_quota.py:17-31 | one call among concurrent ones: granted or refused and taken back, the whole new state, the books balanced |
| Breaker.PruneTracks | backend/src/core/circuit_breaker.py:57-60 | a pruned list stays as good as the full history for every later window |
| Breaker.LaterTwice | backend/src/core/circuit_breaker.py:57-60 | pruning twice is pruning once at the later cutoff |
| Breaker.CircuitBreaker.IsOpen | backend/src/core/circuit_breaker.py:28-39 | open exactly within recovery of the opening; with recovery >= window both lists are empty when it closes |
| Breaker.CircuitBreaker.RecordSuccess | backend/src/core/circuit_breaker.py:41-46 | a success is recorded exactly while closed, and the lists track the history |
| Breaker.TripsIff | backend/src/core/circuit_breaker.py:62-70 | the opening rule without a division: enough failures, and at least the threshold times all events |
| Breaker.TripsIsMonotone | backend/src/core/circuit_breaker.py:62-70 | with a threshold from 0 to 1 a further success never opens the breaker and a further failure never keeps it closed |
| Breaker.CircuitBreaker.RecordFailure | backend/src/core/circuit_breaker.py:48-70 | opens exactly when the window filter of the full history trips; every opening has min_failures new failures if recovery >= window or one failure is enough; when the lists are exact |
| Breaker.ReopensOnOneFailure | backend/src/core/circuit_breaker.py:28-70 | for every recovery < window, threshold and number of failures asked for, a breaker that reopens on a single new failure, which is too few from two on |
| Delivery.RunInv | backend/src/api/chat_runtime.py:486-606 | every interleaving of two drains, events committed in id order and status changes, with or without an event, keeps the delivery invariant |
| Delivery.HeardIsPrefix | backend/src/api/chat_runtime.py:495-525 | what was handed over, repetitions aside, is always a prefix of the job's events after from_event_id |
| Delivery.DrainDelivers | backend/src/api/chat_runtime.py:495-525 | a finished drain has delivered all that its query could see |
| Delivery.DoneAfterAllSeen | backend/src/api/chat_runtime.py:585-606 | in every run, early exits and dead tasks included, `done` comes after exactly the events that the last query could see |
| Delivery.DoneIsCompleteIff | backend/src/api/chat_runtime.py:527-606 | `done` comes after the whole log exactly if no transaction adds an event between the last query and the end |
| Delivery.EarlyExitCompleteIff | backend/src/api/chat_runtime.py:527-532 | the early exit is complete exactly if no transaction adds an event between the empty query and the look at the status |
| Delivery.EarlyExitMisses | backend/src/api/chat_runtime.py:527-532 | whatever is committed in that gap is missed, from every state in which the exit can happen |
| Delivery.DoneWithoutFinish | backend/src/api/chat_runtime.py:534-598 | `done` goes out for a job that has finished in no state of the run only if a task has died of an error |
| Delivery.DoneComesIff | backend/src/api/chat_runtime.py:527-606 | in every reachable state before the last drain, `done` can still come without a crash, a commit or a status write exactly if the job has finished |
| Delivery.LookSendsDone | backend/src/api/chat_runtime.py:557-606 | either task, after a drain, starts the end by its look at the status of a finished job, whatever the other is about |
| Delivery.TaskSendsDone | backend/src/api/chat_runtime.py:557-606 | while the two tasks run, either of them can bring a finished job to its `done` alone |
| Delivery.LastDrainDelivers | backend/src/api/chat_runtime.py:569-606 | `done` follows every event that was visible while the two tasks still ran, however they end |
| Delivery.EachTaskDelivers | backend/src/api/chat_runtime.py:534-598 | while the two tasks run on an unfinished job, each of them alone can still deliver every visible event |
| Delivery.TasksDrainFirst | backend/src/api/chat_runtime.py:563-583 | neither task ends the wait by its look at the status before a drain of its own |
| Delivery.CrashedIff | backend/src/api/chat_runtime.py:563-583 | a task counts as dead exactly if one died while the two ran |
| Delivery.StatusIsTheirs | backend/src/api/chat_runtime.py:486-606 | nothing but a transaction that writes it changes the status of the job |
| Delivery.CrashSendsDone | backend/src/api/chat_runtime.py:563-606 | once the two tasks run, the death of either is followed by `done` whatever the status of the job |
| Delivery.LateEventLostIff | backend/src/api/chat_runtime.py:495-598 | in every reachable state, an event that becomes visible late is never delivered in any continuation exactly if it is on no drain's way and the log will not be read from below its id again |
| Delivery.GoneForEver | backend/src/api/chat_runtime.py:495-598 | such an id is never sent, in whatever order events appear |
| Delivery.Pusher.Drain | backend/src/api/chat_runtime.py:495-525 | one drain with others acting at each await: what was owed when it began has been handed over when it ends |
| Delivery.Pusher.SendNext | backend/src/api/chat_runtime.py:499-514 | one row: the cursor and the hand-over |
| Memory.RunInv | backend/src/core/memory.py:66-243 | the tiers follow the history of writes and archives through any sequence of calls and expiries |
| Memory.LoadsLastWrite | backend/src/core/memory.py:208-223 | while a Redis copy lives load_state returns the last written state, up to its stamps |
| Memory.WriteLastsADay | backend/src/core/memory.py:77-101 | a write stays loadable for a day unless the warm copy is deleted |
| Memory.WrittenIsLoaded | backend/src/core/memory.py:77-243 | for a day after a write every load gives it, whatever loads, promotions, archives of a user and losses of the hot copy come in between |
| Memory.HotAnswers | backend/src/core/memory.py:77-105 | until the lifetime of the hot copy has elapsed every load gives exactly what was written, through anything but another write or its own deletion |
| Memory.Lifetimes | backend/src/core/memory.py:77-101 | how long each copy lives, to the second |
| Memory.ArchiveLastsNinetyDays | backend/src/core/memory.py:165-232 | otherwise load_state returns the last archived state for 90 days |
| Memory.FallsBackOn | backend/src/core/memory.py:208-243 | without a copy in Redis: the archived row while its key lives, else the row that the session id names, else a fresh state |
| Memory.ArchiveIsDurable | backend/src/core/memory.py:111-172 | an archived session survives the loss of both Redis copies |
| Memory.RowReusedIff | backend/src/core/memory.py:137-161 | an archive updates a row exactly when the warm snapshot names one; no other row changes |
| Memory.ArchiveAgainReusesRow | backend/src/core/memory.py:156-159 | archiving the same warm copy again updates the same row |
| Memory.WriteForgetsRow | backend/src/core/memory.py:77-105 | after a write without a conversation id the next archive adds a row |
| Memory.RowsAreCounted | backend/src/core/memory.py:77-163 | in any run of ticks, writes without a conversation id, deletions, archives, unpromoted loads and other people's rows, the table grows by one row for each archive that follows a write |
| Memory.AllRowsAreCounted | backend/src/core/memory.py:77-243 | in any run whatever, the table grows by one row for each archive of a session whose last write, or last archive since, names no existing row |
| Memory.GuestStartsOver | backend/src/core/memory.py:122-125 | a guest's session is lost once the hot copy runs out after an archive |
| Memory.MemoryManager.HotSet | backend/src/core/memory.py:77-82 | writes both tiers, or neither where Redis refuses the lifetime |
| Memory.MemoryManager.WarmSet | backend/src/core/memory.py:96-101 | the compacted snapshot with a fresh lifetime |
| Memory.MemoryManager.ArchiveToCold | backend/src/core/memory.py:111-172 | the new state of all tiers and the answer in every case |
| Memory.MemoryManager.LoadState | backend/src/core/memory.py:208-243 | the state found and the promotion to the hot tier |
| LocalCache.RunInv | backend/src/core/local_cache.py:23-49 | after any history at most maxsize entries, each the latest write of its key |
| LocalCache.HitIsLatestWrite | backend/src/core/local_cache.py:23-33 | a hit is the value of the latest `set` with no later delete or clear, and is younger than the ttl |
| LocalCache.SetEffect | backend/src/core/local_cache.py:35-41 | `set` raises exactly if maxsize is not positive; otherwise it stores the value within the limit |
| LocalCache.OrderIsAge | backend/src/core/local_cache.py:38-40 | the entry evicted is the one that has been in the cache longest |
| LocalCache.Survives | backend/src/core/local_cache.py:35-41 | a key stays until it is ended or maxsize other keys are written after its arrival |
| LocalCache.EndsIsGone | backend/src/core/local_cache.py:23-49 | what ends a key leaves it out of the cache |
| LocalCache.SurvivorAnswers | backend/src/core/local_cache.py:23-41 | until then the cache answers like one without a limit |
| LocalCache.RewriteDoesNotRenew | backend/src/core/local_cache.py:38-41 | in any full cache, rewriting the key that has been there longest does not save it from the next newcomer |
| LocalCache.LocalTTLCache.Get | backend/src/core/local_cache.py:23-33 | the answer by the history, and what is removed |
| LocalCache.LocalTTLCache.Set | backend/src/core/local_cache.py:35-41 | eviction, insertion and the error case |
| LocalCache.LocalTTLCache.Delete | backend/src/core/local_cache.py:43-45 | the key is gone and the history has the deletion |
| LocalCache.LocalTTLCache.Clear | backend/src/core/local_cache.py:47-49 | the store is empty and the history has the clear |
| Profiles.StripTwice | backend/src/core/conversation_state.py:204 | stripping is idempotent |
| Profiles.StripSplits | backend/src/core/conversation_state.py:204 | what stripping takes off is white space, and what it leaves has none at either end |
| Profiles.DedupeKeepOrder | backend/src/core/conversation_state.py:200-208 | the loop computes the deduplication function |
| Profiles.DedupeIsClean | backend/src/core/conversation_state.py:200-208 | its result is stripped, without empty strings and without duplicates |
| Profiles.DedupeIsFirstOccurrences | backend/src/core/conversation_state.py:200-208 | exactly the non-empty stripped items come out, in the order of first occurrence |
| Profiles.AddedIsClean | backend/src/core/conversation_state.py:177-188 | after an addition the field is clean and holds every added value that is not also removed |
| Profiles.RemovedIsGone | backend/src/core/conversation_state.py:183-188 | no item equals a stripped removed value |
| Profiles.ScalarOutcome | backend/src/core/conversation_state.py:170-195 | a scalar field after a patch: null if cleared, else what is set, else what it was |
| Profiles.ListOutcome | backend/src/core/conversation_state.py:170-195 | exactly which items a list field holds after a patch that sets, adds, removes and clears |
| Profiles.Homes | backend/src/core/conversation_state.py:162-168 | which dict each field lives in |
| Profiles.MigratesPersonal | backend/src/core/conversation_state.py:139-147 | what a flat profile brings into a missing personal dict, key by key |
| Profiles.MigratesTrip | backend/src/core/conversation_state.py:148-160 | what a flat profile brings into a missing trip dict, key by key |
| Profiles.MergeFrame | backend/src/core/conversation_state.py:162-195 | a merge changes no field that the patch does not name, no unknown key, and no field in the dict it does not belong to |
| Profiles.MergeTwice | backend/src/core/conversation_state.py:126-197 | on any profile, if a merge does not raise, merging the same patch again does not raise and changes nothing |
| Profiles.MergeKeepsTypes | backend/src/core/conversation_state.py:126-197 | on a profile whose list fields hold lists no patch raises, and such it remains |
| Profiles.MergeProfile | backend/src/core/conversation_state.py:126-197 | migration and the four loops compute the merge function, and raise exactly if an addition or a removal meets something that is not a list |
| Gathering.MissingFromProfile | backend/src/agents/demand_parser.py:293-303 | the loop computes the required slots that are absent or empty |
| Gathering.MissingIs | backend/src/agents/demand_parser.py:346-350 | a slot is reported exactly if it is required and empty |
| Gathering.MissingKeys | backend/src/agents/demand_parser.py:94-115 | for each slot, which profile field decides that it is missing, and when |
| Gathering.MissingInOrder | backend/src/agents/demand_parser.py:94-103 | missing slots come in the order of the questions, each once |
| Gathering.SlotsToPatch | backend/src/core/conversation_turn.py:58-103 | the loops compute the patch function |
| Gathering.SetKeys | backend/src/core/conversation_turn.py:60-89 | for each profile field, which slot it is set from, and when; no slot sets any other field |
| Gathering.AddKeys | backend/src/core/conversation_turn.py:70-103 | for each list field, which slots are added to it, in which order; nothing is removed or cleared |
| Gathering.PatchFills | backend/src/core/conversation_turn.py:77-89 | a message changes the field of a required slot exactly if it gives it a value |
| Gathering.PatchRefusals | backend/src/core/conversation_turn.py:70-94 | food taboos and places not to visit are added to `avoid`, in this order |
| Gathering.PatchRequests | backend/src/core/conversation_turn.py:96-101 | must-visit places become marked special requests |
| Gathering.TurnMissing | backend/src/core/conversation_turn.py:272-280 | a required slot is missing after a turn exactly if the base of the profile lacks it and the message does not fill it; the base is the flattened profile, or the top level if only the personal dict is there |
| Gathering.TurnsMissing | backend/src/core/conversation_turn.py:272-280 | the same over any positive number of turns, on any profile |
| Gathering.WellFormedTurnsMissing | backend/src/core/conversation_turn.py:272-280 | on a profile with a trip dict, or with neither dict, what is missing after any turns is what was missing at first and no message filled |
| Gathering.CompleteWhenFilled | backend/src/agents/demand_parser.py:305-308 | on any profile gathering is complete exactly when each required slot that the base lacks has been filled by some message |
| Gathering.CompleteStays | backend/src/agents/demand_parser.py:305-308 | once complete it stays complete, whatever messages follow |
| Gathering.NeverGrowsIff | backend/src/core/conversation_state.py:139-160 | the missing set never grows exactly for profiles that the migration does not hide |
| Gathering.RoundTripIff | backend/src/core/conversation_turn.py:163-192 | requirements come back, with the default pace, exactly if each is known, not null, not empty and a list where a list belongs |
| RankFusion.Count | backend/src/agents/rag_retrieval.py:225-232 | the nested loops compute the exact sums of 1/(60+rank), the last source of each id and the order of first mention |
| RankFusion.Fuse | backend/src/agents/rag_retrieval.py:222-241 | the result holds the last object of each id in the fused order; these objects get their score in place and no other object changes |
| RankFusion.FusedIs | backend/src/agents/rag_retrieval.py:234-235 | each distinct id exactly once, scores never rising, ties in the order of first mention |
| RankFusion.OrderDetermines | backend/src/agents/rag_retrieval.py:235 | no other arrangement of the same ids keeps that order |
| RankFusion.HigherComesFirst | backend/src/agents/rag_retrieval.py:235 | a higher score comes out strictly earlier |
| RankFusion.Dominance | backend/src/agents/rag_retrieval.py:228-235 | an id ahead of another in every list that has the other comes out strictly before it |
| RankFusion.AgreementWins | backend/src/agents/rag_retrieval.py:30-32 | with at most 61 places per list an id in twice as many lists comes out first, wherever it stands |
| RankFusion.AgreementCanLose | backend/src/agents/rag_retrieval.py:30-32 | at 62 places two mentions only tie with one first place |
| Latency.Merge | backend/src/monitoring/congestion_detector.py:143-150 | the merged buckets are the column sums over the children, as many as the first child has |
| Latency.Cumulate | backend/src/monitoring/congestion_detector.py:157-158 | in place, every bucket becomes the sum up to it |
| Latency.Scan | backend/src/monitoring/congestion_detector.py:164-175 | for a positive total the scan returns inside its loop, without dividing by zero, with the estimate of the one bucket that first reaches the target |
| Latency.Bucket | backend/src/monitoring/congestion_detector.py:164-166 | there is such a bucket, and only one |
| Latency.P99 | backend/src/monitoring/congestion_detector.py:120-177 | 0 without observations, otherwise the estimate of that bucket |
| Latency.PercentileInBucket | backend/src/monitoring/congestion_detector.py:164-173 | that bucket holds the exact 99th percentile of every sample with those counts |
| Latency.EstimateInBucket | backend/src/monitoring/congestion_detector.py:167-173 | a finite answer lies in the same bucket, and +Inf is answered exactly if the percentile is above every finite bound |
| Latency.EstimateDivides | backend/src/monitoring/congestion_detector.py:167-173 | inside a finite bucket the answer divides it in the ratio in which 99 percent of the total divides its count |
| Latency.MergedIsObserved | backend/src/monitoring/congestion_detector.py:140-150 | merged children are one histogram of everything observed |
| Latency.AnswerIsInPercentileBucket | backend/src/monitoring/congestion_detector.py:140-175 | both together, for all that the children observed |
| Latency.PercentileExists | backend/src/monitoring/congestion_detector.py:120-124 | every sample has a 99th percentile |
| Latency.PercentileOnce | backend/src/monitoring/congestion_detector.py:120-124 | and only one |

## Left out

- Redis reconnects, event-loop binding, pub/sub transport, SSE queues and cancellation in the middle of a WebSocket send: delivery is the hand-over to `send_json`.
- Clock drift between Redis nodes, and nodes that lose their data: one clock, durable keys.
- `MemoryManager.acquire_lock` after its retry loop: the background task that extends and the release on exit are calls of `Redlock` that other steps already stand for.
- LangGraph's own limit of 25 steps a turn, which no call changes: it would cut off turns with five failures or more that `GraphFlow.BoundIsReached` runs to their end.
- LLM calls, prompts, slot extraction, the VRP solver, tools and Celery tasks: graph nodes appear by the `stage`, `next_action` and itinerary they return.
- `NodeException.state_patch`: no code passes one, so the error handler's merge of it is not modelled.
- `stage_timings`, payload columns and the SELECT before the UPDATE in `update_stage`: the statement is one step on the lease columns.
- The status column as text: the eight statuses the lease code compares with are named, `Stage` stands for every other text.
- Races between an archive and a concurrent hot write, and between the two SETs of `hot_set`: in `Memory` every call is one step.
- The compression of archived rows after 90 days, and other sessions writing the same row.
- Expiry of a quota key: its lifetime of 25 hours outlasts the day it counts, so it never runs out in use.
- Delivery.HeardIsPrefix: for events that become visible in id order, what happens otherwise being `Delivery.LateEventLostIff`; and it takes the move of the cursor and the hand-over to `send_json` as one step, because a send that fails half-way is transport.
- Profiles.MergeProfile: the `personal` and `trip` entries of a profile, where present, are dicts, and lists hold strings.
- RankFusion.Fuse: an object keeps its id; the other fields of a search result are not modelled.
- Breaker.ReopensOnOneFailure: recovery times are not negative, at least one failure is asked for and the threshold is at most 1, as in the settings.
- Gathering.TurnMissing: scalar slots hold no lists; the slot model that says so, models/travel_slots.py, is not part of this model.
- Latency.P99: takes the bounds in strictly rising order with +Inf at most at the end, as prometheus_client makes them.
- Encryption, tokens, content filters, city data, migrations, the frontend, metrics, price tables, the Bloom filter, dead letters and retry delays: library wrappers, data or one-branch logic.
