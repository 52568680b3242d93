/** Producer and consumer together: asking a producer that is not ready yet leads to a retry at the time
    the producer named, not to the end of the cycle. */
module StartupRetry {
  import opened Prelude
  import opened CalendarMessages
  import opened SessionStateDelivery
  import opened BufferReconciliation
  import opened DeliveryInvariant
  import opened ConsumerAnswers
  import opened RetryAdmission
  import opened RetryTiming
  import A = ProducerAnswers
  import H = ProducerHistory
  import P = CalendarProducer

  /** The producer is not ready, and both its retry time and its answer come before the deadline. */
  predicate UnreadyInTime(config: P.Config, p: P.State, q: Request, clock: P.Clock) {
    var due := clock.floor + config.retryBackoff;
    && !p.ready && clock.received <= q.deadline && due <= q.deadline
    && A.PublishedAt(clock, clock.floor) <= q.deadline && A.GeneratedAt(clock, clock.floor) < due
  }

  lemma UnreadyIsAnswered(config: P.Config, p: P.State, q: Request, clock: P.Clock)
    requires p.Paired() && A.WellFormed(q) && A.Ticks(q, clock) && 0 < config.retryBackoff
    requires P.AdmitRequest(config, p, q, clock.received).1 == P.Process && UnreadyInTime(config, p, q, clock)
    ensures var r := P.HandleRequest(config, p, q, clock).response;
      && r.Some? && H.Echoes(config, r.value, q)
      && A.AllFail(q, r.value, NOT_READY, SourceNotReady, Some(clock.floor + config.retryBackoff))
  {
    hide P.NotReady, P.Rejection;
    A.UnreadyAsksToRetry(config, q, clock);
    H.NotReadyAnswers(config, p, {}, q, clock);
  }

  /** The request of a waiting consumer. */
  ghost predicate Asks(s: State, q: Request) {
    s.phase == WAITING && CurrentRequest(s) == Returned(q)
  }

  lemma EchoIsTaken(config: P.Config, policy: Policy, s: State, q: Request, response: Response, now: int)
    requires Asks(s, q) && SamePolicy(config, policy, s) && s.accepted.None?
    requires H.Echoes(config, response, q) && response.states == []
    requires now <= q.deadline && response.publishedAt <= q.deadline
    ensures Taken(s, response, now)
  {
  }

  lemma RefusedForNow(
      policy: Policy, expected: seq<Expectation>, s: State, q: Request, response: Response, now: int, due: int)
    requires DeliveryInv(s, expected, policy) && Distinct(ExpectationIds(expected)) && s.phase == WAITING && 0 <= now
    requires response.Valid() && Taken(s, response, now) && q.expectations != []
    requires A.AllFail(q, response, NOT_READY, SourceNotReady, Some(due))
    ensures var t := StateAfter(s, ObserveSnapshot(s, response, now));
      && SameOtherwise(s, t) && t.phase == DEGRADED && t.terminalCode == Some(SourceNotReady)
      && Failed(t) && !FailedForGood(t) && t.accepted == Some(response) && t.alertAt.None?
      && Named(t, None) == Some(due)
  {
    hide DeliveryInv, Taken, ObserveSnapshot;
    FailuresAreNamed(s, response, now, expected, policy);
    assert forall f :: f in response.failures ==> f.outcome == NOT_READY && f.retryAt == Some(due);
  }

  /** A consumer with an attempt and the budget left that asks too early is answered, and asks again at
      the later of the time the producer named and its own backoff. */
  lemma UnreadyProducerIsAskedAgain(
      config: P.Config, policy: Policy, expected: seq<Expectation>, s: State, p: P.State, q: Request, clock: P.Clock,
      now: int)
    requires DeliveryInv(s, expected, policy) && Distinct(ExpectationIds(expected))
    requires Asks(s, q) && SamePolicy(config, policy, s) && s.accepted.None? && 0 < config.retryBackoff
    requires p.Paired() && A.WellFormed(q) && A.Ticks(q, clock)
    requires P.AdmitRequest(config, p, q, clock.received).1 == P.Process && UnreadyInTime(config, p, q, clock)
    requires 0 <= now <= q.deadline
    requires var alert := Max(now + policy.retryBackoff, clock.floor + config.retryBackoff);
      s.attempt < policy.maximumAttempts && InBudget(s, policy, alert)
    ensures var r := P.HandleRequest(config, p, q, clock).response;
      && r.Some? && r.value.Valid()
      && var t := AfterResponse(s, r.value, now, policy);
         && t.phase == BACKOFF && t.cycleId == s.cycleId && t.attempt == s.attempt
         && t.alertAt == Some(Max(now + policy.retryBackoff, clock.floor + config.retryBackoff))
  {
    hide DeliveryInv, P.HandleRequest, P.AdmitRequest, ObserveSnapshot, ScheduleRetry, Taken, A.AllFail, FailedForGood;
    UnreadyIsAnswered(config, p, q, clock);
    var response := P.HandleRequest(config, p, q, clock).response.value;
    NoStates(q, response, Some(clock.floor + config.retryBackoff));
    EchoIsInTime(config, q, response);
    EchoIsTaken(config, policy, s, q, response, now);
    RefusedForNow(policy, expected, s, q, response, now, clock.floor + config.retryBackoff);
    var t := StateAfter(s, ObserveSnapshot(s, response, now));
    Startable(s, expected, policy);
    DecisionAt(t, now, policy, None, SourceNotReady);
  }

  lemma NoStates(q: Request, response: Response, retryAt: Option<int>)
    requires A.AllFail(q, response, NOT_READY, SourceNotReady, retryAt) && q.expectations != []
    ensures response.states == [] && response.failures != [] && response.failures[0].outcome == NOT_READY
  {
  }

  lemma EchoIsInTime(config: P.Config, q: Request, response: Response)
    requires H.Echoes(config, response, q) && response.failures != [] && response.failures[0].outcome == NOT_READY
    ensures response.publishedAt <= q.deadline
  {
    assert response.failures[0] in response.failures;
  }
}
