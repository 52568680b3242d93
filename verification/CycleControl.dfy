/** How cycles begin, resume and end, and that no request id is ever used twice. */
module CycleControl {
  import opened Prelude
  import opened CalendarMessages
  import opened SessionStateDelivery
  import opened BufferReconciliation
  import opened DeliveryInvariant
  import opened ConsumerEffects

  /** `t` has opened a fresh cycle at `now`: its first request asks for `expected` as of now, the watermarks
      are kept, everything else of earlier cycles is gone, and a timeout is set at the deadline. */
  ghost predicate OpenedAt(s: State, t: State, now: int, expected: seq<Expectation>, policy: Policy) {
    var cycle := CycleId(s.requester, s.generation + 1, now);
    && CurrentRequest(t) == Returned(Request(
         cycle, RequestId(cycle, 1), 1, s.requester, s.expectedSource, s.expectedEpoch, expected, now, now,
         now + policy.responseTimeout, s.policyVersion))
    && t.generation == s.generation + 1 && t.startedAt == Some(now) && t.alertAt == t.deadline
    && t.watermarks == s.watermarks && t.buffer == [] && t.affected == {} && t.terminalCode.None? && t.accepted.None?
  }

  /** A cycle can be started from IDLE and from LIVE only; there it starts afresh, unless the policy is
      another one, the clock is before the epoch, or what is expected is empty or lists a calendar twice. */
  lemma StartingOpens(s: State, expected: seq<Expectation>, now: int, policy: Policy)
    ensures var r := StartCycle(s, expected, now, policy);
      if s.phase !in {IDLE, LIVE} then r == Returned(s)
      else if s.policyVersion == policy.version && 0 <= now && expected != [] && Distinct(ExpectationIds(expected)) then
        r.Returned? && OpenedAt(s, r.value, now, expected, policy)
      else r.Raised?
  {
  }

  /** Only a gap or an overflow is followed by a fresh cycle for the same calendars; in any other state
      resynchronizing does nothing. */
  lemma ResynchronizingOpens(s: State, now: int, expected: seq<Expectation>, policy: Policy)
    requires DeliveryInv(s, expected, policy) && expected != [] && Distinct(ExpectationIds(expected)) && 0 <= now
    ensures Resynchronize(s, now, policy).Returned?
    ensures var t := Resynchronize(s, now, policy).value;
      if s.phase == DEGRADED && s.terminalCode in {Some(RevisionGap), Some(BufferOverflow)}
      then OpenedAt(s, t, now, expected, policy) else t == s
  {
    StartingOpens(s.(phase := LIVE, accepted := None), s.expectations, now, policy);
    hide StartCycle;
  }

  // Stopping

  lemma StoppedIgnores(s: State, input: Input, expected: seq<Expectation>, policy: Policy)
    ensures Consume(Stop(s), input, expected, policy) == Stop(s)
  {
  }

  lemma {:induction false} StoppedIgnoresAll(s: State, inputs: seq<Input>, expected: seq<Expectation>, policy: Policy)
    ensures ConsumeAll(Stop(s), inputs, expected, policy) == Stop(s)
    decreases |inputs|
  {
    if inputs != [] {
      StoppedIgnores(s, inputs[0], expected, policy);
      StoppedIgnoresAll(s, inputs[1..], expected, policy);
    }
  }

  /** Whatever follows a stop, the consumer keeps nothing of what it was told, waits for nothing and
      reports HALTED. */
  lemma StoppingIsForGood(
      s: State, inputs: seq<Input>, expected: seq<Expectation>, policy: Policy, event: Transition, response: Response,
      now: int)
    requires response.Valid() && 0 <= now
    ensures var t := ConsumeAll(Consume(s, Halt, expected, policy), inputs, expected, policy);
      && t.phase == STOPPED && t.watermarks == map[] && t.buffer == [] && t.affected == {} && t.accepted.None?
      && t.requestId.None? && t.deadline.None? && t.alertAt.None?
      && ObserveTransition(t, event, policy) == Returned(Unchanged(t, HALTED))
      && ObserveSnapshot(t, response, now) == Returned(Unchanged(t, HALTED))
  {
    StoppedIgnoresAll(s, inputs, expected, policy);
  }

  // Request ids

  /** The ids of the requests that a run opens, in order. */
  function Opened(s: State, inputs: seq<Input>, expected: seq<Expectation>, policy: Policy): seq<RequestId>
    decreases |inputs|
  {
    if inputs == [] then []
    else
      var t := Consume(s, inputs[0], expected, policy);
      (if t.phase == WAITING && s.phase != WAITING && t.requestId.Some? then [t.requestId.value] else [])
      + Opened(t, inputs[1..], expected, policy)
  }

  lemma StepOpensAfresh(s: State, input: Input, expected: seq<Expectation>, policy: Policy)
    requires DeliveryInv(s, expected, policy) && Distinct(ExpectationIds(expected)) && CycleKnown(s)
    ensures var t := Consume(s, input, expected, policy);
      && CycleKnown(t) && (forall id :: Issued(s, id) ==> Issued(t, id))
      && (t.phase == WAITING && s.phase != WAITING ==>
            t.requestId.Some? && !Issued(s, t.requestId.value) && Issued(t, t.requestId.value))
  {
    hide DeliveryInv, Consume, Issued;
    match input
    case Observe(event) =>
      ObserveEffect(s, event, expected, policy);
      SameCycleSameIds(s, Consume(s, input, expected, policy));
    case Snapshot(response, now) =>
      TakingKeepsCycle(s, response, now, expected, policy);
      SameCycleSameIds(s, Consume(s, input, expected, policy));
    case Halt =>
      HaltEffect(s, expected, policy);
      SameCycleSameIds(s, Consume(s, input, expected, policy));
    case _ =>
      CycleEffect(s, input, expected, policy);
  }

  lemma TakingKeepsCycle(s: State, response: Response, now: int, expected: seq<Expectation>, policy: Policy)
    requires DeliveryInv(s, expected, policy) && Distinct(ExpectationIds(expected))
    ensures var t := Consume(s, Snapshot(response, now), expected, policy);
      SameCycle(s, t) && (t.phase == WAITING ==> s.phase == WAITING)
  {
    hide DeliveryInv, ObserveSnapshot;
    if response.Valid() { SnapshotEffect(s, response, now, expected, policy); }
  }

  lemma SameCycleSameIds(s: State, t: State)
    requires SameCycle(s, t) && CycleKnown(s)
    ensures CycleKnown(t) && forall id :: Issued(s, id) ==> Issued(t, id)
  {
  }

  lemma {:induction false} OpenedAreFresh(s: State, inputs: seq<Input>, expected: seq<Expectation>, policy: Policy)
    requires DeliveryInv(s, expected, policy) && Distinct(ExpectationIds(expected)) && CycleKnown(s)
    ensures var ids := Opened(s, inputs, expected, policy);
      Distinct(ids) && forall id :: id in ids ==> !Issued(s, id)
    decreases |inputs|
  {
    if inputs != [] {
      var t := Consume(s, inputs[0], expected, policy);
      ConsumeKeepsInv(s, inputs[0], expected, policy);
      StepOpensAfresh(s, inputs[0], expected, policy);
      hide DeliveryInv, Consume, Issued, CycleKnown;
      OpenedAreFresh(t, inputs[1..], expected, policy);
      var rest := Opened(t, inputs[1..], expected, policy);
      assert forall i :: 0 <= i < |rest| ==> rest[i] in rest;
    }
  }

  /** In every run, on any inputs and by any clock, no two requests of one consumer have the same id. */
  lemma RequestIdsAreUnique(
      requester: Id, source: Id, epoch: Id, inputs: seq<Input>, expected: seq<Expectation>, policy: Policy)
    requires Distinct(ExpectationIds(expected))
    ensures Distinct(Opened(Idle(requester, source, epoch, policy.version), inputs, expected, policy))
  {
    IdleKeepsInv(requester, source, epoch, expected, policy);
    OpenedAreFresh(Idle(requester, source, epoch, policy.version), inputs, expected, policy);
  }
}
