/** When a retry is due, when there is none, and that no attempt comes before its time. */
module RetryTiming {
  import opened Prelude
  import opened CalendarMessages
  import opened SessionStateDelivery
  import opened BufferReconciliation
  import opened DeliveryInvariant
  import opened ConsumerEffects
  import opened RetryAdmission
  import P = CalendarProducer

  // One decision

  predicate Failed(s: State) { s.accepted.Some? && s.accepted.value.failures != [] }

  /** Some calendar failed for good. */
  predicate FailedForGood(s: State) {
    s.accepted.Some? && exists f :: f in s.accepted.value.failures && f.retryAt.None?
  }

  /** The retry time the source named: the answer's, or else the caller's. */
  function Named(s: State, retryAt: Option<int>): Option<int> {
    if Failed(s) then s.accepted.value.retryAt else retryAt
  }

  predicate LateEnough(s: State, now: int, policy: Policy, retryAt: Option<int>, t: int) {
    now + policy.retryBackoff <= t && (Named(s, retryAt).Some? ==> Named(s, retryAt).value <= t)
  }

  /** `t` is the first instant after the backoff at which the source may be asked again. */
  ghost predicate Due(s: State, now: int, policy: Policy, retryAt: Option<int>, t: int) {
    && LateEnough(s, now, policy, retryAt, t)
    && forall other :: LateEnough(s, now, policy, retryAt, other) ==> t <= other
  }

  predicate TooEarly(s: State, now: int, code: Code) {
    code == ResponseTimeout && s.alertAt.Some? && now < s.alertAt.value
  }

  /** A retry is out of the question: no attempt is under way or failed, the timeout has not come, or
      a calendar failed for good. */
  predicate NothingToRetry(s: State, now: int, code: Code) {
    s.phase !in {WAITING, DEGRADED} || TooEarly(s, now, code) || FailedForGood(s)
  }

  /** An answer within the elapsed budget of the cycle can still be awaited by then. */
  predicate InBudget(s: State, policy: Policy, t: int) {
    s.startedAt.Some? && t + policy.responseTimeout <= s.startedAt.value + policy.maximumElapsed
  }

  lemma OneIsDue(s: State, now: int, policy: Policy, retryAt: Option<int>) returns (t: int)
    requires 0 <= now
    ensures Due(s, now, policy, retryAt, t)
    ensures t == Max(now + policy.retryBackoff, if Named(s, retryAt).Some? then Named(s, retryAt).value else 0)
  {
    t := Max(now + policy.retryBackoff, if Named(s, retryAt).Some? then Named(s, retryAt).value else 0);
    assert LateEnough(s, now, policy, retryAt, t);
    assert forall other :: LateEnough(s, now, policy, retryAt, other) ==> t <= other;
  }

  /** What a decision about a retry says, `due` being the instant at which one is due. */
  ghost predicate Decided(s: State, now: int, policy: Policy, code: Code, due: int, u: Update) {
    && u.installed == {}
    && (u.disposition == HALTED <==> s.phase == STOPPED)
    && (u.disposition == IGNORED <==> s.phase != STOPPED && NothingToRetry(s, now, code))
    && (u.disposition == RETRY_SCHEDULED <==>
          !NothingToRetry(s, now, code) && s.attempt < policy.maximumAttempts && InBudget(s, policy, due))
    && (u.disposition == EXHAUSTED <==>
          !NothingToRetry(s, now, code) && (s.attempt >= policy.maximumAttempts || !InBudget(s, policy, due)))
    && (u.disposition in {HALTED, IGNORED} ==> u.state == s)
    && (u.disposition == RETRY_SCHEDULED ==> u.state == s.(
          phase := BACKOFF, requestId := None, deadline := None, alertAt := Some(due), terminalCode := Some(code)))
    && (u.disposition == EXHAUSTED ==> u.state == s.(
          phase := DEGRADED, requestId := None, deadline := None, alertAt := None,
          terminalCode := Some(if s.attempt >= policy.maximumAttempts then AttemptsExhausted else ElapsedBudgetExhausted)))
  }

  lemma RetryableOrForGood(s: State)
    requires s.accepted.Some?
    ensures FailedForGood(s) <==> !(forall f :: f in s.accepted.value.failures ==> f.Retryable())
  {
  }

  lemma NothingIsScheduled(s: State, now: int, policy: Policy, retryAt: Option<int>, code: Code)
    requires 0 <= now && s.policyVersion == policy.version
    requires s.phase == STOPPED || NothingToRetry(s, now, code)
    ensures ScheduleRetry(s, now, policy, retryAt, code).Returned?
    ensures forall due :: Decided(s, now, policy, code, due, ScheduleRetry(s, now, policy, retryAt, code).value)
  {
    if s.accepted.Some? { RetryableOrForGood(s); }
    hide FailedForGood;
  }

  lemma SomethingIsScheduled(s: State, now: int, policy: Policy, retryAt: Option<int>, code: Code)
    requires 0 <= now && s.policyVersion == policy.version && s.startedAt.Some?
    requires s.phase != STOPPED && !NothingToRetry(s, now, code)
    ensures ScheduleRetry(s, now, policy, retryAt, code).Returned?
    ensures Decided(s, now, policy, code,
                    Max(now + policy.retryBackoff, if Named(s, retryAt).Some? then Named(s, retryAt).value else 0),
                    ScheduleRetry(s, now, policy, retryAt, code).value)
  {
    if s.accepted.Some? { RetryableOrForGood(s); }
    hide FailedForGood;
  }

  lemma DecisionAt(s: State, now: int, policy: Policy, retryAt: Option<int>, code: Code)
    requires 0 <= now && s.policyVersion == policy.version && (s.phase in {WAITING, DEGRADED} ==> s.startedAt.Some?)
    ensures ScheduleRetry(s, now, policy, retryAt, code).Returned?
    ensures Decided(s, now, policy, code,
                    Max(now + policy.retryBackoff, if Named(s, retryAt).Some? then Named(s, retryAt).value else 0),
                    ScheduleRetry(s, now, policy, retryAt, code).value)
  {
    hide Decided, ScheduleRetry, TooEarly, FailedForGood;
    if s.phase == STOPPED || NothingToRetry(s, now, code) {
      NothingIsScheduled(s, now, policy, retryAt, code);
    } else {
      SomethingIsScheduled(s, now, policy, retryAt, code);
    }
  }

  lemma OneInstantIsDue(s: State, now: int, policy: Policy, retryAt: Option<int>, a: int, b: int)
    requires Due(s, now, policy, retryAt, a) && Due(s, now, policy, retryAt, b)
    ensures a == b
  {
    assert LateEnough(s, now, policy, retryAt, a) && LateEnough(s, now, policy, retryAt, b);
  }

  /** With an attempt and the budget left the consumer waits for exactly the instant at which a retry is
      due; without, it gives up; and when there is nothing to retry nothing happens. */
  lemma RetryIsScheduledWhenDue(
      s: State, now: int, policy: Policy, retryAt: Option<int>, code: Code, expected: seq<Expectation>, due: int)
    requires DeliveryInv(s, expected, policy) && 0 <= now && Due(s, now, policy, retryAt, due)
    ensures ScheduleRetry(s, now, policy, retryAt, code).Returned?
    ensures Decided(s, now, policy, code, due, ScheduleRetry(s, now, policy, retryAt, code).value)
  {
    hide Decided, ScheduleRetry;
    Startable(s, expected, policy);
    DecisionAt(s, now, policy, retryAt, code);
    var t := OneIsDue(s, now, policy, retryAt);
    OneInstantIsDue(s, now, policy, retryAt, t, due);
  }

  lemma Startable(s: State, expected: seq<Expectation>, policy: Policy)
    requires DeliveryInv(s, expected, policy)
    ensures s.policyVersion == policy.version && (s.phase in {WAITING, DEGRADED} ==> s.startedAt.Some?)
  {
  }

  /** The retry time of an answer is the earliest that any of its failures names. */
  lemma {:induction false} EarliestIsLeast(failures: seq<Failure>)
    ensures EarliestRetry(failures).None? <==> forall f :: f in failures ==> f.retryAt.None?
    ensures EarliestRetry(failures).Some? ==>
      && (exists f :: f in failures && f.retryAt == EarliestRetry(failures))
      && forall f :: f in failures && f.retryAt.Some? ==> EarliestRetry(failures).value <= f.retryAt.value
  {
    if failures != [] {
      EarliestIsLeast(failures[1..]);
      assert forall f :: f in failures <==> f == failures[0] || f in failures[1..];
    }
  }

  /** A scheduled retry begins once its instant has come and not before: the next attempt of the same
      cycle, as of now and with the full response time. */
  lemma RetryBeginsWhenDue(s: State, now: int, expected: seq<Expectation>, policy: Policy)
    requires DeliveryInv(s, expected, policy) && s.phase == BACKOFF && 0 <= now
    ensures BeginRetry(s, now, policy).Returned?
    ensures var u := BeginRetry(s, now, policy).value;
      if now < s.alertAt.value then u == Unchanged(s, IGNORED)
      else
        && u.disposition == RETRY_STARTED && u.installed == {} && u.state.phase == WAITING
        && u.state.watermarks == s.watermarks && u.state.buffer == s.buffer && u.state.accepted.None?
        && u.state.alertAt == Some(now + policy.responseTimeout)
        && CurrentRequest(u.state) == Returned(Request(
             s.cycleId.value, RequestId(s.cycleId.value, s.attempt + 1), s.attempt + 1, s.requester, s.expectedSource,
             s.expectedEpoch, s.expectations, now, now, now + policy.responseTimeout, s.policyVersion))
  {
  }

  // Runs

  /** A consumer in backoff waits at least until the retry time of the answer it got, and at least the
      backoff after its last request. */
  ghost predicate Patient(s: State, policy: Policy) {
    s.phase == BACKOFF ==>
      && s.alertAt.Some? && s.requestedAt.Some?
      && s.requestedAt.value + policy.retryBackoff <= s.alertAt.value
      && (Failed(s) && s.accepted.value.retryAt.Some? ==> s.accepted.value.retryAt.value <= s.alertAt.value)
  }

  lemma SchedulingIsPatient(s: State, now: int, policy: Policy, code: Code)
    requires 0 <= now && s.policyVersion == policy.version && s.startedAt.Some?
    requires s.phase in {WAITING, DEGRADED} && s.requestedAt.Some? && s.requestedAt.value <= now
    ensures Patient(StateAfter(s, ScheduleRetry(s, now, policy, None, code)), policy)
  {
    hide ScheduleRetry, FailedForGood;
    DecisionAt(s, now, policy, None, code);
  }

  lemma AnsweringIsPatient(s: State, response: Response, now: int, policy: Policy)
    requires response.Valid() && Patient(s, policy) && 0 <= now && s.policyVersion == policy.version
    requires s.startedAt.Some? && s.requestedAt.Some? && s.requestedAt.value <= now
    ensures Patient(AfterResponse(s, response, now, policy), policy)
  {
    hide ScheduleRetry, AcceptSnapshot, Patient;
    var t := StateAfter(s, ObserveSnapshot(s, response, now));
    AcceptKeepsCycle(s, response);
    if t.phase == DEGRADED {
      SchedulingIsPatient(t, now, policy, if t.terminalCode.Some? then t.terminalCode.value else SnapshotConflict);
    } else {
      SettledIsPatient(s, t, policy);
    }
  }

  lemma SettledIsPatient(s: State, t: State, policy: Policy)
    requires Patient(s, policy) && (t == s || t.phase != BACKOFF)
    ensures Patient(t, policy)
  {
  }

  lemma HearingIsPatient(s: State, event: Transition, policy: Policy)
    requires ObserveTransition(s, event, policy).Returned? && s.phase != IDLE && Patient(s, policy)
    ensures Patient(ObserveTransition(s, event, policy).value.state, policy)
  {
    hide ObserveTransition;
    HearKeepsCycle(s, event, policy);
  }

  lemma LinkKnows(config: P.Config, policy: Policy, link: Link, cycle: CycleId, begun: int)
    requires LinkInv(config, policy, link, cycle, begun)
    ensures var s := link.consumer;
      && s.policyVersion == policy.version && s.startedAt.Some? && s.requestedAt.Some? && s.phase != IDLE
      && s.requestedAt.value <= link.now && 0 <= link.now && link.producer.Paired()
  {
  }

  lemma StepStaysPatient(config: P.Config, policy: Policy, link: Link, move: Move, cycle: CycleId, begun: int)
    requires LinkInv(config, policy, link, cycle, begun) && Patient(link.consumer, policy)
    ensures link.producer.Paired() && Patient(Step(config, policy, link, move).consumer, policy)
  {
    LinkKnows(config, policy, link, cycle, begun);
    hide LinkInv, Patient, AfterResponse, ScheduleRetry, ObserveTransition, P.HandleRequest;
    var s := link.consumer;
    if !link.over {
      match move
      case Receive(response) => if response.Valid() { AnsweringIsPatient(s, response, link.now, policy); }
      case Timeout => if s.phase == WAITING { SchedulingIsPatient(s, link.now, policy, ResponseTimeout); }
      case Hear(event) => if ObserveTransition(s, event, policy).Returned? { HearingIsPatient(s, event, policy); }
      case Alert => BeginningIsPatient(s, link.now, policy);
      case _ =>
    }
  }

  lemma BeginningIsPatient(s: State, now: int, policy: Policy)
    requires Patient(s, policy)
    ensures Patient(StateAfter(s, BeginRetry(s, now, policy)), policy)
  {
  }

  /** Whatever the move newly requests comes no earlier than the answer before it, if there was one,
      asked for, and no earlier than the backoff after the request before it. */
  ghost predicate InGoodTime(policy: Policy, link: Link, next: Link) {
    var s := link.consumer;
    forall q :: q in next.queue && q !in link.queue ==>
      && q.requestedAt == link.now && q.attempt == s.attempt + 1
      && (Failed(s) && s.accepted.value.retryAt.Some? ==> s.accepted.value.retryAt.value <= q.requestedAt)
      && s.requestedAt.Some? && s.requestedAt.value + policy.retryBackoff <= q.requestedAt
  }

  lemma StepIsInGoodTime(config: P.Config, policy: Policy, link: Link, move: Move)
    requires link.producer.Paired() && Patient(link.consumer, policy)
    ensures InGoodTime(policy, link, Step(config, policy, link, move))
  {
    hide AfterResponse, ScheduleRetry, ObserveTransition, P.HandleRequest;
  }

  ghost predicate AllInGoodTime(config: P.Config, policy: Policy, link: Link, moves: seq<Move>)
    requires link.producer.Paired()
    decreases |moves|
  {
    moves != [] ==>
      && InGoodTime(policy, link, Step(config, policy, link, moves[0]))
      && AllInGoodTime(config, policy, Step(config, policy, link, moves[0]), moves[1..])
  }

  /** In every run of a cycle no attempt is requested before the retry time that the answer it follows
      has named, nor before the backoff after the previous request has passed. */
  lemma {:induction false} NoAttemptIsEarly(
      config: P.Config, policy: Policy, link: Link, moves: seq<Move>, cycle: CycleId, begun: int)
    requires LinkInv(config, policy, link, cycle, begun) && Patient(link.consumer, policy) && link.producer.Paired()
    ensures AllInGoodTime(config, policy, link, moves)
    decreases |moves|
  {
    hide LinkInv, Patient, InGoodTime, Step;
    if moves != [] {
      StepIsInGoodTime(config, policy, link, moves[0]);
      StepStaysPatient(config, policy, link, moves[0], cycle, begun);
      StepKeepsInv(config, policy, link, moves[0], cycle, begun);
      NoAttemptIsEarly(config, policy, Step(config, policy, link, moves[0]), moves[1..], cycle, begun);
    }
  }
}
