/** What one consumer call does to watermarks, buffer and request identity. */
module ConsumerEffects {
  import opened Prelude
  import opened CalendarMessages
  import opened SessionStateDelivery
  import opened BufferReconciliation
  import opened DeliveryInvariant

  /** No watermark of `before` is lost or moves back in `after`. */
  ghost predicate NoneRetreats(before: map<Id, CurrentState>, after: map<Id, CurrentState>) {
    forall c :: c in before ==> c in after && before[c].revision <= after[c].revision
  }

  /** Each watermark was there before, or is the state of one of `events`. */
  ghost predicate ComesFrom(before: map<Id, CurrentState>, events: seq<Transition>, after: map<Id, CurrentState>) {
    forall c :: c in after ==>
      (c in before && after[c] == before[c]) || exists e :: e in events && after[c] == StateFromTransition(e)
  }

  ghost predicate Within(small: seq<Transition>, large: seq<Transition>) {
    forall e :: e in small ==> e in large
  }

  lemma ReconcileEffect(s: State)
    requires Reconcilable(s)
    ensures var t := Reconcile(s).state;
      && NoneRetreats(s.watermarks, t.watermarks) && t.watermarks.Keys == s.watermarks.Keys
      && ComesFrom(s.watermarks, s.buffer, t.watermarks) && Within(t.buffer, s.buffer)
      && t.phase != WAITING
      && t.cycleId == s.cycleId && t.generation == s.generation && t.attempt == s.attempt && t.accepted == s.accepted
      && t.requester == s.requester && t.expectedSource == s.expectedSource && t.expectedEpoch == s.expectedEpoch
  {
    ReconcileReachesRunEnds(s);
  }

  /** The fields that identify a consumer's cycle and attempt. */
  ghost predicate SameCycle(s: State, t: State) {
    && t.cycleId == s.cycleId && t.generation == s.generation && t.attempt == s.attempt
    && t.requester == s.requester && t.expectedSource == s.expectedSource && t.expectedEpoch == s.expectedEpoch
  }

  lemma ObserveEffect(s: State, event: Transition, expected: seq<Expectation>, policy: Policy)
    requires DeliveryInv(s, expected, policy) && Distinct(ExpectationIds(expected))
    ensures var t := Consume(s, Observe(event), expected, policy);
      && NoneRetreats(s.watermarks, t.watermarks)
      && ComesFrom(s.watermarks, s.buffer + [event], t.watermarks) && Within(t.buffer, s.buffer + [event])
      && SameCycle(s, t) && t.accepted == s.accepted
      && (t.phase == WAITING ==> s.phase == WAITING && t == s.(buffer := t.buffer))
  {
    if s.phase != STOPPED && s.phase != CONFLICT && JudgeTransition(s, event, policy) == Admit {
      AppendKeepsBounds(s, event, policy);
      var buffered := s.(buffer := s.buffer + [event]);
      assert event.calendarId in IdSet(s.expectations);
      if event.calendarId in s.watermarks && s.phase != WAITING && s.phase != BACKOFF {
        ReconcileEffect(buffered);
      }
    }
  }

  /** The watermarks of an accepted snapshot start from its states. */
  ghost predicate StartsFrom(states: seq<CurrentState>, events: seq<Transition>, after: map<Id, CurrentState>) {
    forall c :: c in after ==> exists base ::
      && base in states && base.calendarId == c && base.revision <= after[c].revision
      && (after[c] == base || exists e :: e in events && after[c] == StateFromTransition(e))
  }

  ghost predicate SnapshotInstalled(s: State, response: Response, t: State) {
    && s.Awaits(response) && response.failures == [] && t.accepted == Some(response)
    && t.watermarks.Keys == IdSet(s.expectations)
    && StartsFrom(response.states, s.buffer, t.watermarks) && Within(t.buffer, s.buffer)
    && t.phase != WAITING && SameCycle(s, t)
  }

  lemma InstalledStartsFrom(
      states: seq<CurrentState>, events: seq<Transition>, installed: map<Id, CurrentState>, after: map<Id, CurrentState>)
    requires forall c :: c in installed ==> installed[c] in states && installed[c].calendarId == c
    requires installed.Keys == after.Keys && NoneRetreats(installed, after) && ComesFrom(installed, events, after)
    ensures StartsFrom(states, events, after)
  {
    forall c | c in after ensures exists base ::
      && base in states && base.calendarId == c && base.revision <= after[c].revision
      && (after[c] == base || exists e :: e in events && after[c] == StateFromTransition(e))
    {
      assert installed[c] in states;
    }
  }

  lemma AcceptIsReconcile(s: State, response: Response)
    requires response.Valid() && response.failures == []
    ensures AcceptSnapshot(s, response).state == Reconcile(Accepted(s, response)).state
  {
  }

  /** The consumer once a full snapshot is installed, before reconciliation. */
  function Accepted(s: State, response: Response): State
    requires response.Valid()
  {
    Install(s.(accepted := Some(response), alertAt := None, requestId := None, deadline := None), response.states)
  }

  lemma AcceptEffect(s: State, response: Response, expected: seq<Expectation>, policy: Policy)
    requires DeliveryInv(s, expected, policy) && Distinct(ExpectationIds(expected)) && response.Valid()
    requires s.Awaits(response) && response.requested == ExpectationIds(s.expectations)
    requires response.failures == []
    ensures SnapshotInstalled(s, response, AcceptSnapshot(s, response).state)
  {
    var installed := Accepted(s, response);
    SnapshotCovers(s, response);
    ReconcileEffect(installed);
    AcceptIsReconcile(s, response);
    InstalledStartsFrom(response.states, s.buffer, installed.watermarks, Reconcile(installed).state.watermarks);
  }

  lemma SnapshotEffect(s: State, response: Response, now: int, expected: seq<Expectation>, policy: Policy)
    requires DeliveryInv(s, expected, policy) && Distinct(ExpectationIds(expected)) && response.Valid()
    ensures var t := Consume(s, Snapshot(response, now), expected, policy);
      || (SameCycle(s, t) && t.watermarks == s.watermarks && t.buffer == s.buffer
          && (t.accepted == s.accepted || t.accepted == Some(response)) && (t.phase == WAITING ==> t == s))
      || SnapshotInstalled(s, response, t)
  {
    var judged := JudgeSnapshot(s, response, now);
    if judged.Returned? && (judged.value.Admit? || judged.value.Overflow?) {
      AcceptedIsAwaited(s, response, now, expected, policy);
      if response.failures == [] {
        AcceptEffect(s, response, expected, policy);
      }
    }
  }

  lemma AcceptedIsAwaited(s: State, response: Response, now: int, expected: seq<Expectation>, policy: Policy)
    requires DeliveryInv(s, expected, policy)
    requires var judged := JudgeSnapshot(s, response, now);
      judged.Returned? && (judged.value.Admit? || judged.value.Overflow?)
    ensures s.Awaits(response) && response.requested == ExpectationIds(s.expectations)
  {
  }

  lemma HaltEffect(s: State, expected: seq<Expectation>, policy: Policy)
    ensures var t := Consume(s, Halt, expected, policy);
      SameCycle(s, t) && t.phase == STOPPED && t.watermarks == map[] && t.buffer == [] && t.accepted.None?
  {
  }

  // Request identity

  /** The consumer has already used this request id. */
  ghost predicate Issued(s: State, id: RequestId) {
    id.cycle.generation < s.generation || (s.cycleId == Some(id.cycle) && id.attempt <= s.attempt)
  }

  ghost predicate CycleKnown(s: State) {
    s.cycleId.Some? ==> s.cycleId.value.generation == s.generation && s.cycleId.value.requester == s.requester
  }

  /** Opening an attempt uses an id never used before and leaves the watermarks alone. */
  ghost predicate OpensAfresh(s: State, t: State, policy: Policy) {
    t.phase == WAITING ==>
      && t.requestId.Some? && t.watermarks == s.watermarks
      && !Issued(s, t.requestId.value) && Issued(t, t.requestId.value)
      && t.requestId.value.cycle.requester == s.requester && t.accepted.None?
  }

  ghost predicate KeepsIds(s: State, t: State) {
    && CycleKnown(t)
    && t.requester == s.requester && t.expectedSource == s.expectedSource && t.expectedEpoch == s.expectedEpoch
    && forall id :: Issued(s, id) ==> Issued(t, id)
  }

  lemma StartEffect(s: State, now: int, expected: seq<Expectation>, policy: Policy)
    requires CycleKnown(s) && s.phase in {IDLE, LIVE} && StartCycle(s, expected, now, policy).Returned?
    ensures var t := StartCycle(s, expected, now, policy).value;
      OpensAfresh(s, t, policy) && KeepsIds(s, t) && t.watermarks == s.watermarks && t.buffer == []
  {
  }

  lemma BeginEffect(s: State, now: int, expected: seq<Expectation>, policy: Policy)
    requires CycleKnown(s) && DeliveryInv(s, expected, policy)
    ensures var t := StateAfter(s, BeginRetry(s, now, policy));
      && KeepsIds(s, t) && t.watermarks == s.watermarks && t.buffer == s.buffer
      && (t.phase == WAITING ==> if s.phase == WAITING then t == s else OpensAfresh(s, t, policy))
      && (t.accepted == s.accepted || t.accepted.None?) && (t.phase == CONFLICT ==> s.phase == CONFLICT)
  {
  }

  lemma ScheduleEffect(s: State, now: int, retryAt: Option<int>, code: Code, policy: Policy)
    requires CycleKnown(s)
    ensures var t := StateAfter(s, ScheduleRetry(s, now, policy, retryAt, code));
      && KeepsIds(s, t) && t.watermarks == s.watermarks && t.buffer == s.buffer && t.accepted == s.accepted
      && (t.phase == WAITING ==> t == s) && (t.phase == CONFLICT ==> s.phase == CONFLICT)
  {
  }

  /** What the calls that start, resynchronize, schedule or begin an attempt have in common. */
  ghost predicate CycleCall(s: State, t: State, policy: Policy) {
    && KeepsIds(s, t) && t.watermarks == s.watermarks
    && (t.buffer == s.buffer || t.buffer == [])
    && (t.accepted == s.accepted || t.accepted.None?)
    && (t.phase == WAITING && t != s ==> OpensAfresh(s, t, policy))
    && (t.phase == CONFLICT ==> s.phase == CONFLICT)
  }

  lemma ResyncEffect(s: State, now: int, expected: seq<Expectation>, policy: Policy)
    requires CycleKnown(s) && DeliveryInv(s, expected, policy)
    ensures CycleCall(s, Consume(s, Resync(now), expected, policy), policy)
  {
    var restartable := s.(phase := LIVE, accepted := None);
    if s.phase == DEGRADED && StartCycle(restartable, expected, now, policy).Returned? {
      StartEffect(restartable, now, expected, policy);
    }
  }

  lemma CycleEffect(s: State, input: Input, expected: seq<Expectation>, policy: Policy)
    requires CycleKnown(s) && DeliveryInv(s, expected, policy)
    requires input.Start? || input.Resync? || input.Schedule? || input.Begin?
    ensures CycleCall(s, Consume(s, input, expected, policy), policy)
  {
    match input
    case Start(now) =>
      if s.phase in {IDLE, LIVE} && StartCycle(s, expected, now, policy).Returned? {
        StartEffect(s, now, expected, policy);
      }
    case Resync(now) => ResyncEffect(s, now, expected, policy);
    case Schedule(now, retryAt, code) => ScheduleEffect(s, now, retryAt, code, policy);
    case Begin(now) => BeginEffect(s, now, expected, policy);
    case _ =>
  }
}
