/** What every reachable consumer state satisfies, whatever messages it is handed. */
module DeliveryInvariant {
  import opened Prelude
  import opened CalendarMessages
  import opened SessionStateDelivery
  import opened BufferReconciliation

  /** One call on the consumer; policy and expectations are fixed for a run. */
  datatype Input =
    | Start(now: int)
    | Resync(now: int)
    | Observe(event: Transition)
    | Snapshot(response: Response, now: int)
    | Schedule(now: int, retryAt: Option<int>, code: Code)
    | Begin(now: int)
    | Halt

  function Kept(s: State, attempt: Attempt<State>): State {
    match attempt
    case Returned(t) => t
    case Raised(_) => s
  }

  function Consume(s: State, input: Input, expected: seq<Expectation>, policy: Policy): State {
    match input
    case Start(now) => Kept(s, StartCycle(s, expected, now, policy))
    case Resync(now) => Kept(s, Resynchronize(s, now, policy))
    case Observe(event) => StateAfter(s, ObserveTransition(s, event, policy))
    case Snapshot(response, now) =>
      if response.Valid() then StateAfter(s, ObserveSnapshot(s, response, now)) else s
    case Schedule(now, retryAt, code) => StateAfter(s, ScheduleRetry(s, now, policy, retryAt, code))
    case Begin(now) => StateAfter(s, BeginRetry(s, now, policy))
    case Halt => Stop(s)
  }

  function ConsumeAll(s: State, inputs: seq<Input>, expected: seq<Expectation>, policy: Policy): State
    decreases |inputs|
  {
    if inputs == [] then s else ConsumeAll(Consume(s, inputs[0], expected, policy), inputs[1..], expected, policy)
  }

  // The invariant

  ghost predicate BufferBounded(s: State, policy: Policy) {
    && |s.buffer| <= policy.maximumTotal
    && forall c :: |EventsFor(s.buffer, c)| <= policy.maximumPerCalendar
  }

  /** Buffered revisions lie above the watermarks; a snapshot that led to CONFLICT may have broken that. */
  ghost predicate BufferAhead(s: State) {
    s.phase != CONFLICT ==> forall e :: e in s.buffer ==> Ahead(s, e)
  }

  ghost predicate BufferInv(s: State, policy: Policy) {
    && UniqueKeys(s.buffer) && BufferBounded(s, policy) && BufferAhead(s)
    && (forall e :: e in s.buffer ==> e.calendarId in IdSet(s.expectations))
    && (s.phase == LIVE ==> s.buffer == [])
  }

  /** Watermarks cover the expectations exactly or not at all. */
  ghost predicate WatermarkInv(s: State, expected: seq<Expectation>) {
    && (s.expectations == expected || (s.expectations == [] && s.phase in {IDLE, STOPPED, CONFLICT}))
    && (s.phase == IDLE ==> s.expectations == [])
    && (s.watermarks == map[] || (s.watermarks.Keys == IdSet(expected) && s.expectations == expected))
    && (s.phase == LIVE ==> s.watermarks.Keys == IdSet(expected))
    && (forall c :: c in s.watermarks ==> s.watermarks[c].calendarId == c)
  }

  /** An attempt in progress or in backoff is inside both budgets. */
  ghost predicate CycleInv(s: State, policy: Policy) {
    && s.policyVersion == policy.version
    && 0 <= s.attempt <= policy.maximumAttempts
    && (s.phase == WAITING ==>
        && s.cycleId.Some? && s.requestedAt.Some? && s.startedAt.Some?
        && s.requestId == Some(RequestId(s.cycleId.value, s.attempt)) && 1 <= s.attempt
        && s.requestedAsOf == s.requestedAt
        && s.deadline == Some(s.requestedAt.value + policy.responseTimeout))
    && (s.phase == BACKOFF ==>
        && s.cycleId.Some? && s.alertAt.Some? && s.startedAt.Some? && s.attempt < policy.maximumAttempts
        && s.alertAt.value + policy.responseTimeout <= s.startedAt.value + policy.maximumElapsed)
    && (s.phase in {DEGRADED, LIVE} ==> s.startedAt.Some? && s.cycleId.Some?)
  }

  ghost predicate DeliveryInv(s: State, expected: seq<Expectation>, policy: Policy) {
    BufferInv(s, policy) && WatermarkInv(s, expected) && CycleInv(s, policy)
  }

  // Preservation

  lemma {:induction false} UniqueSeqsFit(a: seq<Transition>, b: seq<Transition>)
    requires UniqueKeys(a) && forall e :: e in a ==> e in b
    ensures |a| <= |b|
  {
    if a != [] {
      var e := a[0];
      assert e in b;
      var k :| 0 <= k < |b| && b[k] == e;
      var rest := b[..k] + b[k + 1..];
      forall x | x in a[1..] ensures x in rest {
        var i :| 0 <= i < |a[1..]| && a[1..][i] == x;
        assert x == a[i + 1] != a[0] && x in b;
        var j :| 0 <= j < |b| && b[j] == x;
        assert j < k ==> rest[j] == x;
        assert j > k ==> rest[j - 1] == x;
      }
      UniqueSeqsFit(a[1..], rest);
    }
  }

  lemma {:induction false} EventsForKeepsKeys(buffer: seq<Transition>, calendar: Id)
    requires UniqueKeys(buffer)
    ensures UniqueKeys(EventsFor(buffer, calendar))
  {
    if buffer != [] {
      EventsForKeepsKeys(buffer[1..], calendar);
      var tail := EventsFor(buffer[1..], calendar);
      assert forall i :: 0 <= i < |tail| ==> tail[i] in tail;
    }
  }

  lemma BoundsShrink(s: State, t: State, policy: Policy)
    requires BufferBounded(s, policy) && UniqueKeys(t.buffer) && forall e :: e in t.buffer ==> e in s.buffer
    ensures BufferBounded(t, policy)
  {
    UniqueSeqsFit(t.buffer, s.buffer);
    forall c ensures |EventsFor(t.buffer, c)| <= policy.maximumPerCalendar {
      EventsForKeepsKeys(t.buffer, c);
      UniqueSeqsFit(EventsFor(t.buffer, c), EventsFor(s.buffer, c));
    }
  }

  lemma {:induction false} EventsForAppend(buffer: seq<Transition>, e: Transition, calendar: Id)
    ensures EventsFor(buffer + [e], calendar)
         == EventsFor(buffer, calendar) + (if e.calendarId == calendar then [e] else [])
  {
    if buffer != [] {
      assert (buffer + [e])[1..] == buffer[1..] + [e];
      EventsForAppend(buffer[1..], e, calendar);
    } else {
      assert buffer + [e] == [e];
    }
  }

  lemma AppendKeepsBounds(s: State, event: Transition, policy: Policy)
    requires UniqueKeys(s.buffer) && BufferBounded(s, policy)
    requires JudgeBuffering(s.buffer, event, policy) == Admit
    ensures UniqueKeys(s.buffer + [event]) && BufferBounded(s.(buffer := s.buffer + [event]), policy)
  {
    assert forall i :: 0 <= i < |s.buffer| ==> s.buffer[i] in s.buffer;
    forall c ensures |EventsFor(s.buffer + [event], c)| <= policy.maximumPerCalendar {
      EventsForAppend(s.buffer, event, c);
    }
  }

  /** Reconciling keeps the invariant of a state whose buffer may reach back to its watermarks. */
  lemma ReconcileKeepsInv(s: State, expected: seq<Expectation>, policy: Policy)
    requires UniqueKeys(s.buffer) && BufferBounded(s, policy)
    requires forall e :: e in s.buffer ==> e.calendarId in IdSet(s.expectations)
    requires s.phase in {LIVE, DEGRADED} && s.expectations == expected && s.watermarks.Keys == IdSet(expected)
    requires WatermarkInv(s, expected) && CycleInv(s, policy) && Distinct(ExpectationIds(expected))
    ensures DeliveryInv(Reconcile(s).state, expected, policy)
  {
    ReconcileReachesRunEnds(s);
    var u := Reconcile(s);
    if u.disposition != CONFLICTED {
      BoundsShrink(s, u.state, policy);
      assert forall c :: c in u.state.watermarks ==> u.state.watermarks[c].calendarId == c;
      if u.state.phase == LIVE && u.state.buffer != [] {
        assert u.state.buffer[0] in u.state.buffer;
        assert Waiting(IdSet(expected), s.buffer, u.state.watermarks, u.state.buffer[0].calendarId);
      }
    }
  }

  lemma UnadmittedKeepsInv(s: State, verdict: Verdict, event: Transition, expected: seq<Expectation>, policy: Policy)
    requires DeliveryInv(s, expected, policy) && !verdict.Admit? && (verdict.Overflow? ==> s.phase !in {IDLE, STOPPED, CONFLICT})
    ensures DeliveryInv(ApplyTransition(s, verdict, event).state, expected, policy)
  {
  }

  lemma AdmittedKeepsInv(s: State, event: Transition, expected: seq<Expectation>, policy: Policy)
    requires DeliveryInv(s, expected, policy) && Distinct(ExpectationIds(expected))
    requires s.phase !in {STOPPED, CONFLICT} && JudgeTransition(s, event, policy) == Admit
    ensures DeliveryInv(ApplyTransition(s, Admit, event).state, expected, policy)
  {
    AppendKeepsBounds(s, event, policy);
    var buffered := s.(buffer := s.buffer + [event]);
    assert event.calendarId in IdSet(s.expectations);
    if event.calendarId in s.watermarks && s.phase != WAITING && s.phase != BACKOFF {
      ReconcileKeepsInv(buffered, expected, policy);
    }
  }

  lemma TransitionKeepsInv(s: State, event: Transition, expected: seq<Expectation>, policy: Policy)
    requires DeliveryInv(s, expected, policy) && Distinct(ExpectationIds(expected))
    ensures DeliveryInv(StateAfter(s, ObserveTransition(s, event, policy)), expected, policy)
  {
    if s.phase != STOPPED && s.phase != CONFLICT {
      var verdict := JudgeTransition(s, event, policy);
      if verdict.Admit? {
        AdmittedKeepsInv(s, event, expected, policy);
      } else {
        UnadmittedKeepsInv(s, verdict, event, expected, policy);
      }
    }
  }

  lemma AcceptKeepsInv(s: State, response: Response, expected: seq<Expectation>, policy: Policy)
    requires DeliveryInv(s, expected, policy) && Distinct(ExpectationIds(expected)) && response.Valid()
    requires s.phase == WAITING && response.requested == ExpectationIds(s.expectations)
    ensures DeliveryInv(AcceptSnapshot(s, response).state, expected, policy)
  {
    if response.failures == [] {
      var accepted := s.(accepted := Some(response), alertAt := None, requestId := None, deadline := None);
      SnapshotCovers(s, response);
      ReconcileKeepsInv(Install(accepted, response.states), expected, policy);
    }
  }

  lemma SnapshotKeepsInv(s: State, response: Response, now: int, expected: seq<Expectation>, policy: Policy)
    requires DeliveryInv(s, expected, policy) && Distinct(ExpectationIds(expected)) && response.Valid()
    ensures DeliveryInv(StateAfter(s, ObserveSnapshot(s, response, now)), expected, policy)
  {
    var judged := JudgeSnapshot(s, response, now);
    if judged.Returned? && (judged.value.Admit? || judged.value.Overflow?) {
      AcceptKeepsInv(s, response, expected, policy);
    }
  }

  lemma SnapshotCovers(s: State, response: Response)
    requires response.Valid() && response.failures == [] && response.requested == ExpectationIds(s.expectations)
    ensures ByCalendar(response.states).Keys == IdSet(s.expectations)
  {
    var ids, m := ExpectationIds(s.expectations), ByCalendar(response.states);
    forall c | c in IdSet(s.expectations) ensures c in m {
      var i :| 0 <= i < |s.expectations| && s.expectations[i].calendarId == c;
      assert ids[i] == c;
    }
    forall c | c in m ensures c in IdSet(s.expectations) {
      var i :| 0 <= i < |ids| && ids[i] == c;
      assert s.expectations[i].calendarId == c;
    }
  }

  lemma ScheduleKeepsInv(
      s: State, now: int, retryAt: Option<int>, code: Code, expected: seq<Expectation>, policy: Policy)
    requires DeliveryInv(s, expected, policy)
    ensures DeliveryInv(StateAfter(s, ScheduleRetry(s, now, policy, retryAt, code)), expected, policy)
  {
  }

  lemma BeginKeepsInv(s: State, now: int, expected: seq<Expectation>, policy: Policy)
    requires DeliveryInv(s, expected, policy)
    ensures DeliveryInv(StateAfter(s, BeginRetry(s, now, policy)), expected, policy)
  {
  }

  lemma StartEstablishesInv(s: State, now: int, expected: seq<Expectation>, policy: Policy)
    requires s.phase in {IDLE, LIVE} && StartCycle(s, expected, now, policy).Returned?
    requires s.watermarks == map[] || s.watermarks.Keys == IdSet(expected)
    requires forall c :: c in s.watermarks ==> s.watermarks[c].calendarId == c
    ensures DeliveryInv(StartCycle(s, expected, now, policy).value, expected, policy)
  {
  }

  lemma ConsumeKeepsInv(s: State, input: Input, expected: seq<Expectation>, policy: Policy)
    requires DeliveryInv(s, expected, policy) && Distinct(ExpectationIds(expected))
    ensures DeliveryInv(Consume(s, input, expected, policy), expected, policy)
  {
    match input
    case Start(now) =>
      if s.phase in {IDLE, LIVE} && StartCycle(s, expected, now, policy).Returned? {
        StartEstablishesInv(s, now, expected, policy);
      }
    case Resync(now) =>
      var restartable := s.(phase := LIVE, accepted := None);
      if s.phase == DEGRADED && StartCycle(restartable, expected, now, policy).Returned? {
        StartEstablishesInv(restartable, now, expected, policy);
      }
    case Observe(event) => TransitionKeepsInv(s, event, expected, policy);
    case Snapshot(response, now) =>
      if response.Valid() { SnapshotKeepsInv(s, response, now, expected, policy); }
    case Schedule(now, retryAt, code) => ScheduleKeepsInv(s, now, retryAt, code, expected, policy);
    case Begin(now) => BeginKeepsInv(s, now, expected, policy);
    case Halt =>
  }

  /** Every state a consumer reaches from IDLE, on any inputs, satisfies the invariant. */
  lemma {:induction false} ReachableStatesKeepInv(
      s: State, inputs: seq<Input>, expected: seq<Expectation>, policy: Policy)
    requires DeliveryInv(s, expected, policy) && Distinct(ExpectationIds(expected))
    ensures DeliveryInv(ConsumeAll(s, inputs, expected, policy), expected, policy)
    decreases |inputs|
  {
    if inputs != [] {
      ConsumeKeepsInv(s, inputs[0], expected, policy);
      ReachableStatesKeepInv(Consume(s, inputs[0], expected, policy), inputs[1..], expected, policy);
    }
  }

  /** The deadline of an attempt exceeds the cycle's elapsed budget by no more than the attempt began late. */
  lemma RetryDeadlineBound(s: State, now: int, expected: seq<Expectation>, policy: Policy)
    requires DeliveryInv(s, expected, policy)
    ensures var r := BeginRetry(s, now, policy);
      r.Returned? && r.value.disposition == RETRY_STARTED ==>
        && r.value.state.deadline.value <= s.startedAt.value + policy.maximumElapsed + (now - s.alertAt.value)
        && r.value.state.startedAt == s.startedAt && r.value.state.cycleId == s.cycleId
        && r.value.state.attempt <= policy.maximumAttempts
  {
  }

  lemma IdleKeepsInv(requester: Id, source: Id, epoch: Id, expected: seq<Expectation>, policy: Policy)
    ensures DeliveryInv(Idle(requester, source, epoch, policy.version), expected, policy)
  {
  }
}
