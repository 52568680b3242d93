# Bounded state machines of the Markeitech runtime, in Dafny

The runtime keeps its actors thin: what they decide is decided by bounded state machines that do no
input or output of their own. This project models those machines and proves what they promise over
whole runs. `dafny verify dfyconfig.toml` checks everything.

* **Calendar delivery.** A producer numbers revisions of calendar states, publishes transitions and
  answers snapshot requests; a consumer buffers transitions that arrive out of order, installs
  snapshots as watermarks, and retries within budgets. `SessionStateDelivery` is the consumer,
  `CalendarProducer` the producer, `SessionProjection` the timeline it samples. `DeliveryProtocol`
  joins them by a network that loses, repeats and reorders; `NoFalseConflicts`, `RetryAdmission` and
  `GapResync` build on it. `ConsumerAnswers`, `RetryTiming`, `CycleControl` and `ProducerAnswers` write out
  what each call answers, in terms of the messages and the clock.
* **Historical execution.** A bounded queue and in-flight set with priorities, sharing, timeouts and
  retries, around a port that may refuse any submission. `ExecutionHistory` and `ExecutionAnswers` account
  for whole runs, `ExecutionTiming`, `ExecutionAdmission` and `ExecutionEvents` for single calls.
* **Live demand.** Many expiring demands merged into one subscription per stream, over a port that
  may fail on any call.
* **Entities.** A book under three overlapping capacity limits with greedy eviction, oldest first, and the
  search for cyclic definitions.
* **Persistence and health.** A worker queue with a critical reserve, a recovery protocol that waits
  for a stored record, a shutdown that settles every record, and the health gates that listen to it.
* **Historical planning.** Window arithmetic, the request compiler and batch validation.

Code that changes things step by step is a class or a method with the program's loops, proved equal to
a specification function; the promises are then proved of those functions, one call at a time and over
whole runs. Identifiers are integers: the program only compares and sorts them. Identifiers that are
built from parts are datatypes, so that different parts give different identifiers, as the program's
formats and digests are meant to. A raising call is a result value next to the state it leaves behind.
A port, a clock or a timer is a parameter of the call: it may behave in any way.

## What the proofs found

* `_dispatch` keeps only the events of a request whose last submission the port refuses, so none of
  its dependencies ever gets a readiness result (`RefusedOutrightIsNotAnswered`). Every other way for
  a request to end gives one result for each entry of its dependency list
  (`EveryRequestIsAnsweredInFull`).
* Neither the request nor the compiler refuses a dependency that is listed twice, and a fresh request
  is queued as it is, so that dependency is answered twice (`RepeatedDependencyIsAnsweredTwice`). Each
  distinct dependency is answered exactly once if and only if its request was queued with distinct
  dependencies or was shared later, which removes repeats (`EveryDependencyIsAnsweredOnce`).
* `fail` removes the request before it checks the reason text, so a blank reason forgets the request:
  it is neither live nor terminal, and may start over (`OnlyBlankFailuresForget`,
  `ForgettingStartsOver`). The bound on submissions therefore counts forgotten requests.
* An enqueue that raises part-way keeps what it already queued but reports no event of it
  (`RaisingIsSilent`). Only over runs in which no call raises do the events tell where every request is
  (`EventsTellWhere`). Whether it raises does not depend on the order of its requests
  (`OrderDoesNotDecide`).
* A transition that reaches a consumer before its first cycle puts it in CONFLICT for good
  (`EarlyDeliveryConflicts`). With matching definitions, where the consumer expects every calendar
  the producer has, and each request handled at most once, this is the only false conflict
  (`NoConflictIffNeverEarly`).
* A snapshot that disputes a buffered transition installs its watermarks before the conflict is
  noticed, and leaves that transition buffered at its watermark (`PositionCanBeLost`). This is the only
  way in which a buffered revision comes not to lie above its watermark (`PositionIsLostIff`).
* The first request after a gap can be refused by the producer, because a resynchronizing consumer
  opens a new cycle while the old one is still remembered (`RestartRefusedIff`; `RestartIsRefused` is
  such a run).
* A projection's state is constant over its stretch except when the definition becomes effective
  inside it (`EvaluationIsPiecewiseConstant`, `StateChangesInsideItsStretch`).
* A batch that covers its range and also holds a bar off the interval grid is not rejected but makes
  the result constructor raise; the reason INTERVAL_MISMATCH is never given
  (`ConstructorRefusesOnlyOffGrid`, `OffGridBatchIsRefused`).
* A phase slice is not confined to its session: offsets beyond the session's end are taken as they are,
  while opening range and power hour are clipped (`CurrentWindowsCoverTheirShape`).
* A window of a single nanosecond is refused by the constructor of the bounds, not by the resolver
  (`RecentSpansItsIntervals`).

## Model

| member | source | states |
|---|---|---|
| `BufferReconciliation.WalkCalendar` | src/markeitech/intelligence/session_state_delivery.py:721-757 | the inner loop: applies contiguous transitions of one calendar, keeps those beyond a gap, stops on a dispute |
| `BufferReconciliation.ReconcileBuffer` | src/markeitech/intelligence/session_state_delivery.py:712-773 | the outer loop over the expected calendars computes the reconciliation that the next rows describe |
| `BufferReconciliation.WalkReachesRunEnd` | src/markeitech/intelligence/session_state_delivery.py:726-752 | walking one calendar in revision order ends at the last revision of the contiguous run and retains exactly what lies beyond it |
| `BufferReconciliation.ReconcileReachesRunEnds` | src/markeitech/intelligence/session_state_delivery.py:712-773 | conflict exactly on a disputed watermark; otherwise every watermark moves to the end of the longest contiguous run, exactly the events beyond stay, and the result is DEGRADED exactly when a calendar with a watermark still has a waiting event |
| `BufferReconciliation.ReconcileIgnoresOrder` | src/markeitech/intelligence/session_state_delivery.py:712-773 | reconciliation does not depend on the order of the buffer |
| `BufferReconciliation.WaitingBuffersWhatIsAhead` | src/markeitech/intelligence/session_state_delivery.py:425-443 | while a snapshot is awaited the buffer holds exactly the delivered transitions ahead of the watermarks, each once |
| `DeliveryOrder.WaitsOnIff` | src/markeitech/intelligence/session_state_delivery.py:384-443 | a waiting consumer goes on waiting through a delivery exactly when the set of transitions fits: all expected and in agreement with the watermarks, none disputed, and room for every new one |
| `DeliveryOrder.DeliveryOrderIsIrrelevant` | src/markeitech/intelligence/session_state_delivery.py:354-553 | however the same transitions are ordered or repeated during WAITING: either the consumer goes on waiting in both cases and the snapshot leaves the same watermarks, phase and disposition, or it stops waiting in both |
| `DeliveryInvariant.ConsumeKeepsInv` | src/markeitech/intelligence/session_state_delivery.py:213-709 | every call keeps the bounds and uniqueness of buffered revisions, their position above the watermarks except in CONFLICT, the coverage of the watermarks and both budgets |
| `DeliveryInvariant.ReachableStatesKeepInv` | src/markeitech/intelligence/session_state_delivery.py:213-709 | so does every run of calls, on any inputs, with the same exception |
| `ConsumerAnswers.SnapshotIsJudged` | src/markeitech/intelligence/session_state_delivery.py:480-512 | which snapshot is taken: one that is not a repeat, answers the outstanding request, comes by its deadline on both clocks, repeats what was asked and shows only expected definitions; and for every other one whether it is a duplicate, stale or which conflict it is |
| `ConsumerAnswers.FullSnapshotInstalls` | src/markeitech/intelligence/session_state_delivery.py:536-553 | what a full snapshot that is taken reports and leaves: in agreement, every expected calendar is installed, LIVE and ACCEPTED; at a gap exactly those that moved past their shown state; in a dispute none |
| `ConsumerAnswers.FailuresAreNamed` | src/markeitech/intelligence/session_state_delivery.py:514-535 | a snapshot with failures installs nothing and names exactly the failed calendars: CONFLICT exactly when one of them is CONFLICTING, otherwise DEGRADED under the code of the first |
| `ConsumerAnswers.UntakenInstallsNothing` | src/markeitech/intelligence/session_state_delivery.py:480-512 | a snapshot that is not taken installs nothing, and changes nothing unless it makes a conflict |
| `ConsumerAnswers.TransitionIsJudged` | src/markeitech/intelligence/session_state_delivery.py:384-423 | which transition is refused and under which code, which is stale or a duplicate, and which finds room |
| `ConsumerAnswers.TransitionIsAnswered` | src/markeitech/intelligence/session_state_delivery.py:384-452 | the state, disposition and installed calendars after every transition, in every phase |
| `ConsumerAnswers.LiveAppliesTheNext` | src/markeitech/intelligence/session_state_delivery.py:443-452 | a live consumer applies exactly the very next revision of a calendar; any later one opens a gap and installs nothing |
| `CycleControl.StartingOpens` | src/markeitech/intelligence/session_state_delivery.py:213-273 | what a started cycle asks for, by when, and what it keeps of earlier ones; and when it is not started |
| `CycleControl.ResynchronizingOpens` | src/markeitech/intelligence/session_state_delivery.py:314-351 | exactly after a gap or an overflow a fresh cycle is opened for the same calendars |
| `CycleControl.RequestIdsAreUnique` | src/markeitech/intelligence/session_state_delivery.py:213-351 | over any run, by any clock, no two requests of one consumer have the same id |
| `CycleControl.StoppingIsForGood` | src/markeitech/intelligence/session_state_delivery.py:689-709 | nothing that follows a stop changes anything; the consumer keeps nothing of what it was told |
| `BufferPosition.PositionIsLostIff` | src/markeitech/intelligence/session_state_delivery.py:536-553 | a call leaves some buffered revision at or below its watermark exactly when it takes a full snapshot that disputes a buffered transition; the consumer is then in CONFLICT |
| `BufferPosition.PositionOverRuns` | src/markeitech/intelligence/session_state_delivery.py:354-773 | a run ends with all buffered revisions above the watermarks exactly when it took no such snapshot or the consumer was stopped |
| `BufferPosition.PositionCanBeLost` | src/markeitech/intelligence/session_state_delivery.py:726-732 | a run from IDLE that loses the position: revision 1 is buffered while waiting and the snapshot shows revision 1 with other content |
| `DeliveryInvariant.RetryDeadlineBound` | src/markeitech/intelligence/session_state_delivery.py:602-686 | the deadline of a retry exceeds the cycle budget by at most the lateness of the retry, and the attempt count stays within the limit; when the retry is due is the next rows' matter |
| `RetryTiming.RetryIsScheduledWhenDue` | src/markeitech/intelligence/session_state_delivery.py:586-636 | the retry is set for the least instant that is both the backoff after now and no earlier than the time the answer names, or else the caller; it is set exactly when an attempt and the budget are left, given up exactly when not, and ignored exactly when there is nothing to retry |
| `RetryTiming.EarliestIsLeast` | src/markeitech/intelligence/session_state_delivery.py:586-601 | the retry time of an answer is the earliest that any of its failures names |
| `RetryTiming.RetryBeginsWhenDue` | src/markeitech/intelligence/session_state_delivery.py:639-686 | a scheduled retry begins exactly from its instant on, with the next attempt of the same cycle as of now |
| `RetryTiming.NoAttemptIsEarly` | src/markeitech/intelligence/session_state_delivery.py:556-686 | over any run of a cycle no attempt is requested before the retry time named by the answer it follows, nor before the backoff after the previous request |
| `CalendarProducer.SessionStateActor.UpdateCalendarState` | src/markeitech/intelligence/actors.py:268-331 | evaluates one calendar; publishes and numbers a transition when the facts changed, else only refreshes the snapshot |
| `CalendarProducer.SessionStateActor.EvaluateSnapshotRequest` | src/markeitech/intelligence/actors.py:564-680 | the loop over the requested calendars collects states and failures, publishing on the way |
| `CalendarProducer.SessionStateActor.AdmitSnapshotRequest` | src/markeitech/intelligence/actors.py:471-527 | admission by requester, cached attempt, cycle, attempt order, budgets, source and population, with the cycle table it leaves |
| `CalendarProducer.SessionStateActor.CacheSnapshotResponse` | src/markeitech/intelligence/actors.py:741-767 | remembers an answered attempt of the current cycle and marks the last one terminal |
| `CalendarProducer.SessionStateActor.PublishCurrentState` | src/markeitech/intelligence/actors.py:421-469 | answers one request from the cache, with a rejection, or from a fresh evaluation; what the answer says is told by the next rows |
| `ProducerAnswers.RequestIsAnswered` | src/markeitech/intelligence/actors.py:421-640 | the answer to every request, written out: replayed, turned away with its reason, or by the deadline, the readiness and each calendar on its own |
| `ProducerAnswers.AdmittedIsAnswered` | src/markeitech/intelligence/actors.py:437-469 | an admitted request: too late, the deadline rejection; not ready, one NOT_READY failure per calendar with the retry time clock plus backoff, or the deadline rejection when that or the publication comes too late; ready, a state or the failure that configuration and evaluation give |
| `ProducerAnswers.UnreadyAsksToRetry` | src/markeitech/intelligence/actors.py:529-562 | the answer of a producer that is not ready |
| `ProducerAnswers.SweepIsPointwise` | src/markeitech/intelligence/actors.py:564-640 | although calendars are evaluated one after the other on one state, each comes out as if asked for alone, states and failures in request order |
| `ProducerAnswers.HistoryIsStocked` | src/markeitech/intelligence/actors.py:268-331 | the hypotheses of these rows hold after any history published by then |
| `SnapshotAdmission.AdmissionIff` | src/markeitech/intelligence/actors.py:471-527 | exactly when a request is processed, replayed or turned away, and for which reason |
| `SnapshotAdmission.CacheStaysBounded` | src/markeitech/intelligence/actors.py:471-767 | whatever requests arrive, the producer remembers per requester one cycle of consecutive attempts, within the attempt and elapsed budgets, and finished once full |
| `ProducerHistory.UpdateKeepsNumbering` | src/markeitech/intelligence/actors.py:268-331 | published revisions of each calendar stay exactly 1, 2, 3, ... with one transition each, whose last one is current |
| `ProducerHistory.EventIdsAreUnique` | src/markeitech/intelligence/actors.py:283-305 | two published transitions with one event id are one transition |
| `TransitionChain.TransitionsFormChains` | src/markeitech/intelligence/actors.py:268-331 | whatever a producer samples and answers, each published transition names the facts it replaced, those of the one numbered just before it, and differs from them |
| `CalendarMessages.MatchingIsShowing` | src/markeitech/intelligence/session_state_delivery.py:776-845 | a transition matches a state exactly when the state is the one shown for it at some evaluation |
| `ProducerHistory.SweepAllKeepsInv` | src/markeitech/intelligence/actors.py:564-640 | while a request is evaluated the history stays numbered and every state collected is that of a published transition, no older than at the request |
| `ProducerHistory.HandlingKeepsHistory` | src/markeitech/intelligence/actors.py:421-469 | whatever is answered is a cached answer or carries only published states at least as recent as when the request arrived |
| `ProducerHistory.HandlingCachesItsAnswer` | src/markeitech/intelligence/actors.py:741-767 | only answers that were sent are ever cached |
| `DeliveryProtocol.NextKeepsInv` | src/markeitech/intelligence/session_state_delivery.py:443-553 | one step of producer, consumer or lossy, duplicating, reordering network keeps the joint safety invariant |
| `DeliveryProtocol.InstallingDoesNotRetreat` | src/markeitech/intelligence/session_state_delivery.py:536-553 | installing a snapshot moves no watermark back although revisions are never compared; which calendars it reports as installed is told by ConsumerAnswers |
| `DeliveryProtocol.NewAnswerIsRecent` | src/markeitech/intelligence/actors.py:604-640 | an answer to the outstanding request is at least as recent as every watermark of its consumer |
| `DeliveryProtocol.WatermarksAreTrue` | src/markeitech/intelligence/session_state_delivery.py:443-553 | in every run each watermark carries exactly the revision fields of the one transition published under its calendar and revision |
| `DeliveryProtocol.WatermarksNeverRetreat` | src/markeitech/intelligence/session_state_delivery.py:536-553 | in every run without a stop no watermark is lost or moves back |
| `NoFalseConflicts.TransitionIsNotRefused` | src/markeitech/intelligence/session_state_delivery.py:384-423 | a published transition is never refused by a consumer in a cycle, with matching definitions |
| `NoFalseConflicts.SnapshotIsNotRefused` | src/markeitech/intelligence/session_state_delivery.py:483-512 | an honest answer is never refused |
| `NoFalseConflicts.EarlyDeliveryConflicts` | src/markeitech/intelligence/session_state_delivery.py:384-396 | a transition handed to a consumer before its first cycle always makes it conflict |
| `NoFalseConflicts.ConflictIffEarly` | src/markeitech/intelligence/session_state_delivery.py:354-553 | one step leaves a conflict-free system in CONFLICT exactly when it delivers a transition before the first cycle |
| `NoFalseConflicts.NoConflictIffNeverEarly` | src/markeitech/intelligence/session_state_delivery.py:354-553 | a run, whatever is lost, repeated or reordered, is free of conflicts exactly when it contains no such early delivery |
| `RetryAdmission.BeginningKeepsInv` | src/markeitech/intelligence/session_state_delivery.py:213-273 | a started cycle with only expired leftovers at the producer satisfies the admission invariant |
| `RetryAdmission.StepKeepsInv` | src/markeitech/intelligence/session_state_delivery.py:556-686 | elapsing time, losses, serving, answers, timeouts, alerts and transitions keep it |
| `RetryAdmission.NoAttemptIsRefused` | src/markeitech/intelligence/actors.py:478-518 | whatever requests and answers are lost or delayed, no attempt of the cycle is refused as an identity conflict |
| `RetryAdmission.FirstAttemptRefusedIff` | src/markeitech/intelligence/actors.py:488-506 | without that proviso the first attempt of a new cycle is refused exactly when the producer still holds an unexpired, unfinished cycle |
| `StartupRetry.UnreadyProducerIsAskedAgain` | src/markeitech/intelligence/actors.py:529-562 | producer and consumer together: asking a producer that is not ready in time leaves a consumer with budget in BACKOFF until the later of the named time and its own backoff |
| `GapResync.RestartRefusedIff` | src/markeitech/intelligence/session_state_delivery.py:314-351 | after any run of a cycle that a gap or an overflow ended, the consumer can open a fresh cycle at any time, and its first request is refused as an identity conflict exactly when the producer still holds an unexpired, unfinished cycle of that consumer |
| `GapResync.RestartIsRefused` | src/markeitech/intelligence/actors.py:488-506 | such a run: the first attempt is served and taken, one transition is lost, the next reveals the gap, and the fresh request sent before the first deadline is refused |
| `DeliveryProtocol.InitialInv` | src/markeitech/intelligence/session_state_delivery.py:138-196 | an idle consumer, an unready producer and an empty network satisfy the safety invariant |
| `NoFalseConflicts.InitialIsHonest` | src/markeitech/intelligence/session_state_delivery.py:138-196 | and the conflict-freedom invariant |
| `SessionProjection.EvaluationBrackets` | src/markeitech/intelligence/session.py:278-332 | an evaluated state is effective no later than its instant, changes only after it, and no boundary lies in between |
| `SessionProjection.EvaluationIsPiecewiseConstant` | src/markeitech/intelligence/session.py:256-333 | the state is identical over its whole stretch exactly when the definition does not become effective inside it; always so once it is effective |
| `SessionProjection.StateChangesInsideItsStretch` | src/markeitech/intelligence/session.py:278-332 | one open segment from 0 to 10 under a definition effective from 5: the state announced at 0 as unchanged until 10 is a different one at 5 |
| `SessionProjection.NextStretchStartsOnTime` | src/markeitech/intelligence/session.py:278-332 | the state at the announced transition is effective from exactly that instant |
| `SessionProjection.RevisionsFollowTheTimeline` | src/markeitech/intelligence/actors.py:275-318 | sampling again before the next transition adds no revision; sampling at or after it publishes exactly the next one |
| `ProjectionFacts.FactsAreTold` | src/markeitech/intelligence/session.py:270-332 | what an instant is told to be: market state, phases, bounds and trade date by the segments and windows that contain it, or the next one ahead |
| `ProjectionFacts.EvaluatedIff` | src/markeitech/intelligence/session.py:256-290 | an instant is evaluated exactly when it is covered and something is known to have begun by then |
| `HistoricalExecution.MergeRequests` | src/markeitech/acquisition/historical_execution.py:585-606 | a shared request keeps its identity, takes the higher priority and every dependency of both once, in consumer order; other identities are refused |
| `HistoricalExecution.DispatchingShrinks` | src/markeitech/acquisition/historical_execution.py:420-458 | one dispatch round removes exactly the chosen request from the eligible ones, so dispatch ends |
| `HistoricalExecutionCoordinator.Coordinator.Enqueue` | src/markeitech/acquisition/historical_execution.py:250-292 | queues or shares each request, raises part-way on a terminal, conflicting or excess one, then dispatches |
| `HistoricalExecutionCoordinator.Coordinator.Advance` | src/markeitech/acquisition/historical_execution.py:294-314 | withdraws and retries or expires the overdue requests, by id, then dispatches; which they are is told by the ExecutionTiming rows |
| `HistoricalExecutionCoordinator.Coordinator.Complete` | src/markeitech/acquisition/historical_execution.py:316-360 | finishes an in-flight request with its batch and readiness results, then dispatches |
| `HistoricalExecutionCoordinator.Coordinator.Fail` | src/markeitech/acquisition/historical_execution.py:362-391 | retries or ends a failed request; a blank reason raises after the request was dropped |
| `HistoricalExecutionCoordinator.Coordinator.Cancel` | src/markeitech/acquisition/historical_execution.py:393-416 | ends a queued or in-flight request; an unknown one changes nothing |
| `HistoricalExecutionCoordinator.Coordinator.Dispatch` | src/markeitech/acquisition/historical_execution.py:418-459 | the submission loop |
| `HistoricalExecutionCoordinator.Coordinator.RetryOrFinish` | src/markeitech/acquisition/historical_execution.py:461-494 | schedules the next attempt after the backoff, or ends the request |
| `HistoricalExecutionCoordinator.Coordinator.FinishFailure` | src/markeitech/acquisition/historical_execution.py:496-527 | ends a request with one result per dependency |
| `ExecutionHistory.PerformKeeps` | src/markeitech/acquisition/historical_execution.py:250-416 | every call keeps queue, in-flight set and terminal set apart and within bounds, answers exactly what it closes, and loses no dependency |
| `ExecutionHistory.EveryRequestIsAnsweredInFull` | src/markeitech/acquisition/historical_execution.py:250-527 | over any run: bounds and disjointness; each terminal request answered once for every entry of its dependency list, in order, except exactly those whose last attempt the port refused; submissions within the attempt limit, once more for each time the request was forgotten |
| `ExecutionAnswers.EveryDependencyIsAnsweredOnce` | src/markeitech/acquisition/historical_execution.py:250-360 | over any run each terminal request gets exactly one result per distinct dependency, if and only if it was queued with distinct dependencies or shared since; a request whose last attempt the port refused, and one that is not terminal, gets none |
| `ExecutionAnswers.DistinctRunsRepeatNothing` | src/markeitech/acquisition/historical_execution.py:258-291 | when every request is handed over with distinct dependencies, none ever repeats one, so the previous row answers each dependency once |
| `ExecutionAnswers.RepeatedDependencyIsAnsweredTwice` | src/markeitech/acquisition/historical_execution.py:336-360 | a request queued with a dependency listed twice, and completed, answers it twice |
| `ExecutionHistory.NothingIsLost` | src/markeitech/acquisition/historical_execution.py:250-494 | terminal requests never come back, and an attached dependency stays attached until its request is closed with it or forgotten |
| `ExecutionDispatch.DispatchExhausts` | src/markeitech/acquisition/historical_execution.py:420-427 | dispatch ends with the in-flight set full or nothing eligible |
| `ExecutionDispatch.DispatchSubmitsTheTop` | src/markeitech/acquisition/historical_execution.py:420-458 | with a port that takes everything, exactly the first eligible requests by priority and id are submitted, as many as fit, and nothing else changes |
| `ExecutionDispatch.AdvanceLeavesNothingOverdue` | src/markeitech/acquisition/historical_execution.py:294-314 | after an advance every request in flight was submitted less than the timeout ago |
| `ExecutionTiming.AdvanceWithdrawsTheTimedOut` | src/markeitech/acquisition/historical_execution.py:294-314 | the withdrawals are exactly of the requests submitted the timeout ago or earlier, by id; each waits for its next attempt at now plus backoff or has ended with its last; nothing else in flight is touched |
| `ExecutionTiming.AdvanceTellsTheOverdue` | src/markeitech/acquisition/historical_execution.py:294-314 | the results are exactly EXPIRED, for every dependency of the requests whose last attempt timed out, by id |
| `ExecutionTiming.FailureIsRetriedOrTold` | src/markeitech/acquisition/historical_execution.py:362-391 | a failure with an attempt left waits for its next one and tells nobody; otherwise every dependency is told FAILED |
| `ExecutionEvents.CallsTellWhere` | src/markeitech/acquisition/historical_execution.py:250-527 | the events of a call that does not raise tell where every request is afterwards, with attempt and time |
| `ExecutionEvents.EventsTellWhere` | src/markeitech/acquisition/historical_execution.py:250-527 | so whoever has seen all events of a run in which no call raised knows where every request is |
| `ExecutionEvents.RaisingIsSilent` | src/markeitech/acquisition/historical_execution.py:258-291 | a raising enqueue tells nothing of what it queued before |
| `ExecutionAdmission.EnqueueSucceedsIff` | src/markeitech/acquisition/historical_execution.py:250-292 | an enqueue succeeds exactly when none of its requests is terminal, keys go with ids, and live and new requests together fit the queue |
| `ExecutionAdmission.OrderDoesNotDecide` | src/markeitech/acquisition/historical_execution.py:258-291 | so whether it succeeds does not depend on the order of the requests |
| `ExecutionAdmission.EnqueueTellsEach` | src/markeitech/acquisition/historical_execution.py:258-291 | a successful enqueue tells of its requests in turn: QUEUED when not live yet, SHARED exactly when its dependency list has changed |
| `ExecutionDispatch.EnqueueServesAll` | src/markeitech/acquisition/historical_execution.py:258-291 | a successful enqueue leaves every given request live with all its dependencies and at least its priority |
| `ExecutionDispatch.CompletionTellsReadiness` | src/markeitech/acquisition/historical_execution.py:336-360 | each dependency is READY exactly when enough was observed for it, and the batch carries the request |
| `ExecutionDispatch.CancelingTellsAll` | src/markeitech/acquisition/historical_execution.py:393-416 | cancelling answers every dependency of the request, and no other |
| `ExecutionDispatch.OnlyBlankFailuresForget` | src/markeitech/acquisition/historical_execution.py:371-374 | a request leaves the in-flight set without becoming terminal exactly when its failure is reported with a blank reason |
| `ExecutionDispatch.RefusedOutrightIsNotAnswered` | src/markeitech/acquisition/historical_execution.py:435-445 | a request whose only attempt the port refuses ends with no readiness result at all |
| `ExecutionDispatch.ForgettingStartsOver` | src/markeitech/acquisition/historical_execution.py:371-374 | a forgotten request can be queued again and submitted beyond its attempt limit |
| `EntityState.EntityStateBook.EnforceLimits` | src/markeitech/intelligence/entities.py:849-874 | the eviction loop over a copy of the book; whom it takes is told by the EvictionOrder rows |
| `EntityState.EntityStateBook.AdmitRevision` | src/markeitech/intelligence/entities.py:819-846 | stale, duplicate, conflicting, gapped or next revision of a known entity |
| `EntityState.EntityStateBook.Admit` | src/markeitech/intelligence/entities.py:704-724 | admits a revision or leaves the book as it was |
| `EntityState.EntityStateBook.PruneTerminal` | src/markeitech/intelligence/entities.py:797-817 | removes the pruned entities and returns them |
| `EntityCapacity.EnforceIsComplete` | src/markeitech/intelligence/entities.py:849-901 | eviction succeeds exactly when some set of terminal evictions would restore all limits, and then restores them |
| `EntityCapacity.AtMostTwoVictims` | src/markeitech/intelligence/entities.py:849-901 | at most two entities are evicted, two only across types of one overfull instrument |
| `EvictionOrder.EnforcingTakesTheOldest` | src/markeitech/intelligence/entities.py:849-905 | every entity evicted is terminal, under the first limit broken then, and no younger by publication and id than any other such entity; eviction stops as soon as the limits hold |
| `EvictionOrder.NewcomersEvictTheOldest` | src/markeitech/intelligence/entities.py:704-724 | admitting a newcomer evicts nobody exactly when the limits hold with it; a second one goes only while its type is over its limit, the oldest of that type left |
| `EntityHistory.AdmissionKeepsLimits` | src/markeitech/intelligence/entities.py:704-724 | all three limits kept; the book unchanged unless added or updated; rejected for capacity exactly when no evictions could make room; at most two terminal entities evicted, never the newcomer |
| `EntityHistory.PruningTakesTheOldest` | src/markeitech/intelligence/entities.py:797-817 | exactly the oldest prunable entities go, as many as allowed |
| `EntityHistory.PruningSparesTheRest` | src/markeitech/intelligence/entities.py:797-817 | only terminal entities published before the cutoff are pruned, and all of them unless the maximum is reached |
| `EntityHistory.RevisionIsTakenIff` | src/markeitech/intelligence/entities.py:819-846 | exactly when a further revision of a known entity updates it, and which rejection it meets otherwise |
| `EntityHistory.FirstRevisionIsTakenIff` | src/markeitech/intelligence/entities.py:704-724 | exactly when a first revision counts as a gap |
| `EntityHistory.RunsKeepLimits` | src/markeitech/intelligence/entities.py:704-846 | over any run of admissions and prunings the limits hold and a retained entity only moves forward |
| `EntityCycles.Search.Visit` | src/markeitech/intelligence/entities.py:912-921 | the recursive visit over the two working sets |
| `EntityCycles.OrderExcludesCycles` | src/markeitech/intelligence/entities.py:908-924 | definitions that can be listed dependencies first have no cycle |
| `EntityCycles.RejectEntityCycles` | src/markeitech/intelligence/entities.py:908-924 | raises exactly when the definitions have a directed cycle; otherwise they can be listed dependencies first |
| `Demand.AddKeepsCompatible` | src/markeitech/acquisition/demand.py:291-303 | a demand is added exactly when it is unexpired, new and compatible; a refused one changes nothing |
| `Demand.DesiredIsTheirAggregate` | src/markeitech/acquisition/demand.py:318-340 | a stream is wanted exactly while an unexpired demand asks for it; its provider demand has their requirement, all of them, the highest priority and the last expiry |
| `Demand.WantedUntilItExpires` | src/markeitech/acquisition/demand.py:263-340 | left alone, a wanted stream stays wanted exactly until its aggregated expiry |
| `DemandReconciliation.DemandReconciler.Add` | src/markeitech/acquisition/demand.py:291-303 | adds a demand to the dictionary or refuses it |
| `DemandReconciliation.DemandReconciler.Remove` | src/markeitech/acquisition/demand.py:305-306 | removes one demand and tells whether it was there |
| `DemandReconciliation.DemandReconciler.RejectStreamConflict` | src/markeitech/acquisition/demand.py:342-349 | the scan for another requirement on the same stream |
| `DemandReconciliation.DemandReconciler.Expire` | src/markeitech/acquisition/demand.py:308-316 | removes exactly the expired demands and returns their ids in order |
| `DemandReconciliation.DemandReconciler.ProviderDemands` | src/markeitech/acquisition/demand.py:318-340 | groups the unexpired demands and merges each group, by stream; never raises on compatible demands |
| `AcquisitionCoordination.AcquisitionCoordinator.Reconcile` | src/markeitech/acquisition/coordinator.py:140-194 | the two loops that stop stale subscriptions and start wanted ones |
| `AcquisitionCoordination.AcquisitionCoordinator.Request` | src/markeitech/acquisition/coordinator.py:57-84 | adds a demand and reconciles; a refused demand changes nothing |
| `AcquisitionCoordination.AcquisitionCoordinator.Cancel` | src/markeitech/acquisition/coordinator.py:86-111 | removes a demand and reconciles; an unknown one does nothing |
| `AcquisitionCoordination.AcquisitionCoordinator.Expire` | src/markeitech/acquisition/coordinator.py:113-126 | drops expired demands and reconciles |
| `AcquisitionCoordination.AcquisitionCoordinator.Observe` | src/markeitech/acquisition/coordinator.py:128-138 | the first observation of a subscribed stream is reported once |
| `AcquisitionSafety.ReconcileSettles` | src/markeitech/acquisition/coordinator.py:140-194 | each stream is settled on its own, from what was held, what is wanted and which of its commands fail |
| `AcquisitionSafety.CleanReconcileReachesDesired` | src/markeitech/acquisition/coordinator.py:140-194 | a reconcile in which nothing fails leaves exactly the desired demands subscribed |
| `AcquisitionSafety.SecondReconcileIsIdle` | src/markeitech/acquisition/coordinator.py:140-194 | reconciling again issues no command and no event and changes nothing |
| `AcquisitionSafety.RunsKeepSound` | src/markeitech/acquisition/coordinator.py:57-194 | over any run and any port failures: the provider holds what the coordinator believes, subscribe and unsubscribe alternate per stream, observed streams are subscribed, requirements never clash |
| `AcquisitionSafety.CleanCallIsInStep` | src/markeitech/acquisition/coordinator.py:57-126 | every reconciling call with a faultless port ends in step with the demands |
| `AcquisitionSafety.EmptyIsSound` | src/markeitech/acquisition/coordinator.py:39-43 | a new coordinator agrees with a provider that holds nothing |
| `AcquisitionEvents.CallsTellTheirCommands` | src/markeitech/acquisition/coordinator.py:57-194 | every reconciling call tells what became of the demands and then, in order, each command it gave the port and how it came out |
| `AcquisitionEvents.OthersGiveNoCommand` | src/markeitech/acquisition/coordinator.py:86-138 | any other call gives no command and tells only of a first observation |
| `PersistenceWorker.RunKeepsSound` | src/markeitech/system/persistence.py:612-706 | over every interleaving accepted records come out in order and once each; when the thread has gone every accepted record has its result |
| `PersistenceWorker.RefusalsAreEarned` | src/markeitech/system/persistence.py:612-625 | an open worker refuses a critical record only while a reserve of critical records is queued, an ordinary one only when nothing but the reserve is free |
| `PersistenceWorker.GatheringFillsTheBatch` | src/markeitech/system/persistence.py:649-673 | left alone the writer fills its batch with the queued records, in order, until it is full or none is left, and takes the stop mark exactly when that comes next |
| `PersistenceWorker.WriteWithRetries` | src/markeitech/system/persistence.py:675-706 | the retry loop reports the whole batch with the first successful attempt, or as lost after the last |
| `PersistenceWorker.RetriesAreSteps` | src/markeitech/system/persistence.py:675-706 | the loop does what the single attempts of the step model do |
| `PersistenceRecovery.NextKeepsSound` | src/markeitech/system/persistence.py:849-1050 | one actor or worker step keeps losses, incidents, numbering and pending recoveries in agreement with what happened |
| `PersistenceRecovery.RecoveriesAreTrue` | src/markeitech/system/persistence.py:924-1015 | in every run a published recovery comes straight after its own record was stored, closes the open incident, and names exactly the records lost so far; readiness is announced only with no incident open |
| `RecoveryEvidence.RecoveriesAreWritten` | src/markeitech/system/persistence.py:924-1015 | in every run each published recovery waited for a recovery record of its own, that record was accepted by the worker, and a result already read reports it stored |
| `RecoveryProgress.IncidentsAreWorkedOn` | src/markeitech/system/persistence.py:972-1021 | after any run a due drain of an active actor leaves every open WRITE_FAILED or ADMISSION_REJECTED incident with its record pending, the only one for it, unless the worker refused a record in that drain |
| `RecoveryProgress.StoredRecoveryCloses` | src/markeitech/system/persistence.py:938-964 | a recovery record reported stored with nothing lost since closes its incident, and the last one announces readiness if it never was |
| `PersistenceAccounting.EveryRecordIsAccountedFor` | src/markeitech/system/persistence.py:849-1021 | over any run each number given to a record is with the worker or has met its fate, never both; no fate is told twice and none of a number without a record |
| `PersistenceAccounting.FinishedIsSettled` | src/markeitech/system/persistence.py:924-964 | once the writer has gone and every result was read, every record has met its fate |
| `PersistenceShutdown.ClosedWorkerGoes` | src/markeitech/system/persistence.py:627-706 | left to itself a closed worker gets through everything it has accepted and goes, whichever writes succeed |
| `PersistenceShutdown.StoppingSettlesEverything` | src/markeitech/system/persistence.py:905-964 | after any run a stopped actor whose worker finishes, once it has read the results, has told the fate of every record it numbered |
| `OperationalPersistence.OperationalPersistenceActor.ObserveFact` | src/markeitech/system/persistence.py:849-884 | numbers and submits a fact, or counts it lost and reports the failure |
| `OperationalPersistence.OperationalPersistenceActor.DrainResults` | src/markeitech/system/persistence.py:924-964 | the loop over the write results, then the queueing of recovery records |
| `OperationalPersistence.OperationalPersistenceActor.QueueRecoveryRecords` | src/markeitech/system/persistence.py:972-1021 | writes a recovery record for each open incident not already waiting for one |
| `OperationalPersistence.OperationalPersistenceActor.ReportFailure` | src/markeitech/system/persistence.py:1023-1050 | opens one incident per failure code |
| `OperationalPersistence.OperationalPersistenceActor.PublishReady` | src/markeitech/system/persistence.py:886-899 | readiness only while active with no incident open |
| `SystemHealth.HandleKeepsGates` | src/markeitech/system/actor.py:141-356 | every handler keeps READY equivalent to open gates, and only a fault after STOPPING asks for a transition that is not allowed |
| `SystemHealth.HandleKeepsPath` | src/markeitech/system/control.py:34-95 | the published states follow the allowed transitions |
| `SystemHealth.ReadyIffGatesOpen` | src/markeitech/system/actor.py:341-356 | in every reachable state that has not ended the system is READY exactly while evaluation has started, persistence and monitor are ready, resources are not critical and no failure is active |
| `SystemReactions.FailureFollowsItsRule` | src/markeitech/system/actor.py:201-237 | a heeded failure is held against the system and takes it where its component's rule says: the running rule once READY was ever told, the startup rule before |
| `SystemReactions.RecoveryClearsItsFailure` | src/markeitech/system/actor.py:167-200 | a heeded recovery clears exactly its failure, of persistence only for its incident, and the system becomes READY when that was the last gate |
| `SystemReactions.ResourcesAreTaken` | src/markeitech/system/actor.py:239-310 | a heeded monitor report becomes the state of the resources: critical ones degrade the system, or fail it when never sampled in time |
| `SystemReactions.PersistenceReleasesTheStart` | src/markeitech/system/actor.py:148-166 | persistence of this run opens its gate and releases the start |
| `SystemReactions.EvaluationStartsOnce` | src/markeitech/system/actor.py:329-339 | the first evaluation is told as STARTING and, with all gates open, as READY; later ones do nothing |
| `SystemReactions.StopAndFault` | src/markeitech/system/actor.py:122-327 | stopping always succeeds; a fault fails the system unless it is stopping |
| `SystemReactions.ReadyMeansReady` | src/markeitech/system/actor.py:341-356 | the READY equivalence after any signals, with the gates written out |
| `SystemReactions.ToldHealthFollowsTheTable` | src/markeitech/system/control.py:34-95 | what is told of health takes only allowed steps, never begins with READY and ends with the current health |
| `SystemHealth.InitialGates` | src/markeitech/system/actor.py:89-107 | a new actor has honest gates |
| `PersistenceWorker.InitialIsSound` | src/markeitech/system/persistence.py:577-607 | a new worker has accepted and reported nothing |
| `SystemHealth.EndedIsForever` | src/markeitech/system/control.py:34-59 | FAILED can only stop, and STOPPING stays |
| `SystemControl.SystemHealthStateMachine.Transition` | src/markeitech/system/control.py:70-95 | suppresses a repeated target, raises on one that is not allowed, else moves |
| `SystemControl.SystemControlActor.OnInput` | src/markeitech/system/actor.py:141-356 | the dispatch of any input to its handler, with honest gates before and after |
| `SystemControl.SystemControlActor.OnFailure` | src/markeitech/system/actor.py:201-237 | registers a component failure and moves to its target |
| `SystemControl.SystemControlActor.OnRecovery` | src/markeitech/system/actor.py:167-200 | clears the matching failure and becomes READY when it was the last gate |
| `SystemControl.SystemControlActor.OnMonitorReady` | src/markeitech/system/actor.py:239-267 | the first resource acknowledgement |
| `SystemControl.SystemControlActor.OnResourceHealth` | src/markeitech/system/actor.py:269-310 | a confirmed resource state |
| `SystemControl.SystemControlActor.OnBeginEvaluation` | src/markeitech/system/actor.py:329-339 | the initial evaluation |
| `RecoveryGate.ReadyMeansNoOpenIncident` | src/markeitech/system/actor.py:167-237 | control holds exactly the persistence incidents open in what arrived, and is READY only when there is none |
| `BatchValidation.ValidateBatch` | src/markeitech/intelligence/historical_bar_validation.py:501-639 | the validation loop and the verdict |
| `BatchTiling.AbsorbAllKeepsTally` | src/markeitech/intelligence/historical_bar_validation.py:514-544 | every observation is kept, a duplicate or a conflict, and kept ones have distinct intervals |
| `BatchVerdict.VerdictIsExplained` | src/markeitech/intelligence/historical_bar_validation.py:514-583 | each reason is given exactly when the observations call for it: some is strange, revised, outside, out of order, in disagreement with another of its interval, partial on first arrival, or missing; hard reasons reject, any reason prevents COMPLETE |
| `BatchVerdict.VerdictCarriesItsEvidence` | src/markeitech/intelligence/historical_bar_validation.py:534-639 | one observation is kept per interval, in agreement with the first report, and lineage and references are exactly those of the reports that agree with it |
| `BatchVerdict.VerdictIsRated` | src/markeitech/intelligence/historical_bar_validation.py:601-616 | health and fidelity follow from the disposition and what was kept |
| `BatchTiling.ConstructorRefusesOnlyOffGrid` | src/markeitech/intelligence/historical_bar_validation.py:345-471 | counts always reconcile, and a fitting batch is refused by the result constructor exactly when it is otherwise complete but holds an observation off the interval grid |
| `BatchTiling.OffGridBatchIsRefused` | src/markeitech/intelligence/historical_bar_validation.py:345-471 | such a batch: two intervals of two units from 1 on, observed at 1, 2 and 3, has nothing wrong or missing and gets no result |
| `BatchTiling.CompleteResultsTile` | src/markeitech/intelligence/historical_bar_validation.py:546-639 | the observations of a COMPLETE result tile the requested range exactly, in order |
| `HistoricalWindows.ResolvedWindowsDoNotLookAhead` | src/markeitech/acquisition/historical_windows.py:104-119 | every resolved window satisfies 0 <= start < end < completed boundary <= as_of |
| `HistoricalWindows.RecentSpansItsIntervals` | src/markeitech/acquisition/historical_windows.py:108-119 | the n most recent observations are exactly the last n whole intervals, resolved exactly when that many have passed and they are more than one instant |
| `HistoricalWindows.RetryTimeIsExact` | src/markeitech/acquisition/historical_windows.py:242-243 | a start lies before the completed boundary exactly from the named retry time on |
| `HistoricalWindows.UnavailableMeansAhead` | src/markeitech/acquisition/historical_windows.py:186-190 | an unavailable window starts at or after the completed boundary and its retry time lies ahead |
| `HistoricalWindows.PreviousIsTheLastCompleted` | src/markeitech/acquisition/historical_windows.py:147-152 | the previous-session windows are whole completed sessions, and no later one had completed |
| `WindowShapes.CurrentWindowsCoverTheirShape` | src/markeitech/acquisition/historical_windows.py:173-281 | opening range, power hour, phase slice and whole-session kinds cover exactly that part of the current session, up to the completed boundary |
| `WindowShapes.CurrentOutcome` | src/markeitech/acquisition/historical_windows.py:173-197 | for these kinds: unavailable exactly when all of that part lies at or after the completed boundary, until its first instant is completed; resolved exactly when two of its instants lie before the boundary and none before the epoch; refused otherwise |
| `WindowShapes.FallenBackCovers` | src/markeitech/acquisition/historical_windows.py:284-297 | the power hour that falls back is that of the session whose power hour began last |
| `WindowShapes.AnchoredCovers` | src/markeitech/acquisition/historical_windows.py:121-137 | anchored and synchronized windows cover exactly the given span, up to the completed boundary |
| `WindowShapes.RecentCovers` | src/markeitech/acquisition/historical_windows.py:108-119 | recent windows cover exactly the last observations or minutes before the completed boundary |
| `WindowShapes.PreviousSessionsRunThrough` | src/markeitech/acquisition/historical_windows.py:153-164 | previous sessions run from the start of the first of the last n completed sessions to the end of the last |
| `DependencyCompiler.CompileRequests` | src/markeitech/acquisition/historical.py:136-201 | the nested loops over bindings and requirements, the budget checks and the final order |
| `CompilerGuarantees.EveryNeedIsPlacedOnce` | src/markeitech/acquisition/historical.py:145-158 | each requirement of each binding is placed exactly once, in the request of its key; no two requests have one key; and requests come out by priority and id |
| `CompilerGuarantees.RequestIdsAreDistinct` | src/markeitech/acquisition/historical.py:172-201 | with a digest that tells keys apart, no two requests share an id and their order by priority and id is strict |
| `CompilerGuarantees.PlansAreWithinBudget` | src/markeitech/acquisition/historical.py:160-170 | all three budgets hold and each request has the highest contributing priority |
| `PlanContents.PlanIff` | src/markeitech/acquisition/historical.py:136-170 | exactly when there is a plan, and which of the three budgets refuses it otherwise, by the distinct needs |
| `PlanContents.PlansFollowTheNeeds` | src/markeitech/acquisition/historical.py:203-252 | each request asks for the instrument, kind, selector, resolved span, limit and parameters of the requirements it serves, and lists exactly their dependencies; every requirement is served |
| `PlanContents.DependenciesAreInOrder` | src/markeitech/acquisition/historical.py:172-201 | the dependencies of each request are listed by consumer, capability, version and index |
| `CompilerGuarantees.OrderOfBindingsIsIrrelevant` | src/markeitech/acquisition/historical.py:145-153 | bindings with distinct sort keys compile to the same plan or refusal in any order |

## Left out

- Nautilus actors, clocks, caches and the message bus, provider ports, PostgreSQL, Discord, subprocesses and publishing: foreign calls. Timers are steps, ports are arbitrary outcomes.
- `CanonicalCalendar.projection`, `_apply_corrections`, `_normalize_break` and configuration loading: they depend on market-calendar data, time zones and TOML. Any projection is taken instead.
- Message codecs and field-by-field type checks of constructors: only the ordering and accounting rules the proofs need are kept.
- `evidence.py`: floating-point recency statistics.
- `calendar_delivery.py`, `metric_value_admission.py`, `metric_producer_manifest.py` and the retry book of `historical_planner.py`: smaller machines of the same kind.
- Thread scheduling below one queue operation or one write attempt, real waiting, logging and counters used only for logs.
- Detail and reason texts of events, except whether a failure reason is blank.
- The watermark tuple, sorted by calendar, is a map; affected and installed calendars are sets.
- `EntityRegistry.validate_revision`, entity snapshots and their filters: a revision reaches the model already validated. Two different identities with one digest are excluded by the precondition of the entity results.
- PersistenceWorker.RunKeepsSound: the worker is a state machine over queue operations rather than a thread; the two-part test and put of a submission is one step, which only its own thread could split.
- RetryAdmission.NoAttemptIsRefused: other requesters and the producer's own timer are one step that leaves this requester's cycle alone; clocks of both sides are one clock, requests arrive in order and alerts fire on time.
- HistoricalExecution.MergeRequests: dependencies that differ only in minimum or purpose have no defined order in the program; here it is fixed by their positions.
- BatchValidation.ValidateBatch: prices, volume and constituents are one opaque content value; lengths of reference texts are not checked.
- CompilerGuarantees.OrderOfBindingsIsIrrelevant: bindings that share a sort key keep their given order in the program too, so for them the order of equal dependencies may follow the input.
- Late readiness after `on_stop`, startup failures of the persistence store and the not-started worker: a run begins with a started actor.
