/** The wire values of calendar current-state delivery. */
module CalendarMessages {
  import opened Prelude

  /** Identity of one calendar definition. */
  datatype Definition = Definition(version: int, digest: Id, effectiveFrom: int)

  datatype Expectation = Expectation(calendarId: Id, definition: Definition)

  datatype MarketState = OPEN | BREAK | CLOSED

  /** What one evaluation of a calendar says; two evaluations with equal facts are one revision. */
  datatype Facts = Facts(
    tradeDate: Option<Id>,
    phases: seq<Id>,
    market: MarketState,
    segmentOpen: Option<int>,
    segmentClose: Option<int>,
    nextTransition: Option<int>,
    effectiveFrom: int)

  /** Event ids spell out source epoch, calendar and revision. */
  datatype EventId = EventId(epoch: Id, calendarId: Id, revision: int)

  /** A published transition. `previous` holds the facts it replaced. */
  datatype Transition = Transition(
    eventId: EventId,
    source: Id,
    epoch: Id,
    calendarId: Id,
    scheduleVersion: Id,
    definition: Definition,
    facts: Facts,
    previous: Option<Facts>,
    evaluatedAsOf: int,
    publishedAt: int,
    revision: int,
    previousRevision: Option<int>)
  {
    /** The ordering rules its constructor enforces. */
    predicate Valid() {
      && 1 <= revision
      && previousRevision == (if revision == 1 then None else Some(revision - 1))
      && 0 <= definition.effectiveFrom <= facts.effectiveFrom <= evaluatedAsOf <= publishedAt
      && (facts.nextTransition.Some? ==> evaluatedAsOf < facts.nextTransition.value)
    }
  }

  /** One calendar's state inside a snapshot, and the consumer's watermark for that calendar. */
  datatype CurrentState = CurrentState(
    calendarId: Id,
    scheduleVersion: Id,
    definition: Definition,
    facts: Facts,
    revision: int,
    previousRevision: Option<int>,
    lastEventId: EventId,
    source: Id,
    epoch: Id,
    revisionEvaluatedAsOf: int,
    evaluatedAsOf: int,
    revisionPublishedAt: int)
  {
    predicate Valid() {
      && 1 <= revision
      && previousRevision == (if revision == 1 then None else Some(revision - 1))
      && 0 <= definition.effectiveFrom <= facts.effectiveFrom <= revisionEvaluatedAsOf <= revisionPublishedAt
      && revisionEvaluatedAsOf <= evaluatedAsOf
      && (facts.nextTransition.Some? ==> evaluatedAsOf < facts.nextTransition.value)
    }
  }

  /** Cycle ids spell out requester, generation and start; request ids add the attempt. */
  datatype CycleId = CycleId(requester: Id, generation: int, startedAt: int)

  datatype RequestId = RequestId(cycle: CycleId, attempt: int)

  datatype Request = Request(
    cycleId: CycleId,
    requestId: RequestId,
    attempt: int,
    requester: Id,
    expectedSource: Id,
    expectedEpoch: Id,
    expectations: seq<Expectation>,
    requestedAsOf: int,
    requestedAt: int,
    deadline: int,
    policyVersion: int)

  datatype FailureOutcome = NOT_READY | UNAVAILABLE | CONFLICTING | REJECTED | EVALUATION_FAILED

  datatype Code =
    | RevisionGap
    | BufferOverflow
    | ResponseTimeout
    | AttemptsExhausted
    | ElapsedBudgetExhausted
    | UnexpectedCalendar
    | SourceIdentityConflict
    | DefinitionIdentityConflict
    | EventIdentityConflict
    | RevisionIdentityConflict
    | ResponseIdentityConflict
    | ResponseCorrelationConflict
    | SnapshotConflict
    | SourceNotReady
    | UnknownCalendarId
    | StateEffectiveBoundaryUnavailable
    | CurrentStateEvaluationFailed
    | RequesterNotAllowed
    | RequestPopulationExceeded
    | RequestDeadlineExpired
    | RequestIdentityConflict
    | OtherCode(text: Id)

  /** A calendar that could not be supplied; it is retryable exactly when it names a retry time. */
  datatype Failure = Failure(calendarId: Id, outcome: FailureOutcome, code: Code, retryAt: Option<int>)
  {
    predicate Retryable() { retryAt.Some? }
  }

  datatype Response = Response(
    cycleId: CycleId,
    requestId: RequestId,
    attempt: int,
    requester: Id,
    source: Id,
    epoch: Id,
    requested: seq<Id>,
    states: seq<CurrentState>,
    failures: seq<Failure>,
    requestedAsOf: int,
    requestedAt: int,
    deadline: int,
    receivedAt: int,
    evaluatedAsOf: int,
    generatedAt: int,
    publishedAt: int,
    policyVersion: int,
    retryAt: Option<int>)
  {
    /** Every requested calendar is accounted for exactly once, as a state or as a failure. */
    predicate Accounts() {
      && requested != [] && Distinct(requested)
      && Distinct(StateIds(states)) && Distinct(FailureIds(failures))
      && (forall id :: id in StateIds(states) ==> id !in FailureIds(failures) && id in requested)
      && (forall id :: id in FailureIds(failures) ==> id in requested)
      && (forall id :: id in requested ==> id in StateIds(states) || id in FailureIds(failures))
    }

    predicate Expired() {
      failures != [] && forall f :: f in failures ==> f.outcome == REJECTED && f.code == RequestDeadlineExpired
    }

    predicate Ordered() {
      && 0 <= requestedAsOf <= requestedAt <= receivedAt <= evaluatedAsOf <= generatedAt <= publishedAt
      && (publishedAt <= deadline || (Expired() && requestedAt < deadline))
    }

    predicate RetryTimesInWindow() {
      && retryAt == EarliestRetry(failures)
      && forall f :: f in failures && f.Retryable() ==> generatedAt < f.retryAt.value <= deadline
    }

    /** The rules its constructor enforces. */
    predicate Valid() {
      && Accounts() && Ordered() && RetryTimesInWindow()
      && forall s :: s in states ==>
        && s.Valid() && s.evaluatedAsOf == evaluatedAsOf && s.source == source && s.epoch == epoch
        && s.revisionPublishedAt <= publishedAt
    }
  }

  function ExpectationIds(s: seq<Expectation>): (ids: seq<Id>)
    ensures |ids| == |s| && forall i :: 0 <= i < |s| ==> ids[i] == s[i].calendarId
  {
    seq(|s|, i requires 0 <= i < |s| => s[i].calendarId)
  }

  function StateIds(s: seq<CurrentState>): (ids: seq<Id>)
    ensures |ids| == |s| && forall i :: 0 <= i < |s| ==> ids[i] == s[i].calendarId
  {
    seq(|s|, i requires 0 <= i < |s| => s[i].calendarId)
  }

  function FailureIds(s: seq<Failure>): (ids: seq<Id>)
    ensures |ids| == |s| && forall i :: 0 <= i < |s| ==> ids[i] == s[i].calendarId
  {
    seq(|s|, i requires 0 <= i < |s| => s[i].calendarId)
  }

  /** The earliest retry time any failure names. */
  function EarliestRetry(failures: seq<Failure>): Option<int> {
    if failures == [] then None
    else
      var rest := EarliestRetry(failures[1..]);
      if !failures[0].Retryable() then rest
      else if rest.None? then failures[0].retryAt
      else Some(Min(failures[0].retryAt.value, rest.value))
  }

  /** The state a consumer installs for a transition it applies. */
  function StateFromTransition(event: Transition): CurrentState {
    CurrentState(
      event.calendarId, event.scheduleVersion, event.definition, event.facts, event.revision,
      event.previousRevision, event.eventId, event.source, event.epoch, event.evaluatedAsOf,
      event.evaluatedAsOf, event.publishedAt)
  }

  /** The state a producer puts in a snapshot cut at `evaluatedAsOf`. */
  function CalendarCurrentState(event: Transition, evaluatedAsOf: int): CurrentState {
    CurrentState(
      event.calendarId, event.scheduleVersion, event.definition, event.facts, event.revision,
      event.previousRevision, event.eventId, event.source, event.epoch, event.evaluatedAsOf,
      evaluatedAsOf, event.publishedAt)
  }

  /** The state carries exactly the transition's revision fields. */
  predicate TransitionMatchesState(event: Transition, state: CurrentState) {
    && event.calendarId == state.calendarId
    && event.scheduleVersion == state.scheduleVersion
    && event.definition == state.definition
    && event.facts == state.facts
    && event.revision == state.revision
    && event.previousRevision == state.previousRevision
    && event.eventId == state.lastEventId
    && event.source == state.source
    && event.epoch == state.epoch
    && event.evaluatedAsOf == state.revisionEvaluatedAsOf
    && event.publishedAt == state.revisionPublishedAt
  }

  /** A transition matches a state exactly when the state is the one shown for it at some evaluation. */
  lemma MatchingIsShowing(event: Transition, state: CurrentState)
    ensures TransitionMatchesState(event, state) <==> state == CalendarCurrentState(event, state.evaluatedAsOf)
    ensures StateFromTransition(event) == CalendarCurrentState(event, event.evaluatedAsOf)
  {
  }
}
