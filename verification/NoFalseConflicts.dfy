/** With an honest producer and matching definitions, the only way a consumer enters CONFLICT is to
    be handed a transition before its first cycle. */
module NoFalseConflicts {
  import opened Prelude
  import opened CalendarMessages
  import opened SessionStateDelivery
  import opened BufferReconciliation
  import opened DeliveryInvariant
  import opened ConsumerEffects
  import opened ProducerHistory
  import opened DeliveryProtocol
  import P = CalendarProducer

  /** Both sides run one policy version, and the consumer expects every calendar of the producer
      under the producer's definition. It may expect others besides. */
  ghost predicate Matching(setting: Setting) {
    && setting.config.policyVersion == setting.policy.version
    && Distinct(ExpectationIds(setting.expected))
    && forall c :: c in setting.config.calendars ==> Expectation(c, setting.config.calendars[c]) in setting.expected
  }

  ghost predicate OneAnswer(setting: Setting, sys: System) {
    && (forall r, s ::
          (r in sys.responses && s in sys.responses && Own(setting, r.requestId) && r.requestId == s.requestId)
          ==> r == s)
    && (forall q, r :: q in sys.requests && r in sys.responses ==> q.requestId != r.requestId)
    && (forall q, u :: q in sys.requests && u in sys.requests && q.requestId == u.requestId ==> q == u)
  }

  /** Requests and answers under the outstanding id are the outstanding request and echoes of it. */
  ghost predicate OutstandingEchoed(setting: Setting, sys: System) {
    sys.consumer.phase == WAITING ==>
      && CurrentRequest(sys.consumer).Returned?
      && (forall q :: q in sys.requests && Some(q.requestId) == sys.consumer.requestId ==>
            CurrentRequest(sys.consumer) == Returned(q))
      && (forall r :: r in sys.responses && Some(r.requestId) == sys.consumer.requestId ==>
            Echoes(setting.config, r, CurrentRequest(sys.consumer).value))
  }

  ghost predicate OwnRequests(setting: Setting, sys: System) {
    && (forall q :: q in sys.requests ==> q.expectations == setting.expected)
    && (forall r :: r in sys.responses && Own(setting, r.requestId) ==> Harmless(r.failures))
    && (sys.consumer.accepted.Some? ==>
          sys.consumer.accepted.value in sys.responses && Own(setting, sys.consumer.accepted.value.requestId))
  }

  ghost predicate HonestInv(setting: Setting, sys: System) {
    && SystemInv(setting, sys) && OneAnswer(setting, sys) && OutstandingEchoed(setting, sys)
    && OwnRequests(setting, sys) && sys.consumer.phase != CONFLICT
  }

  // Definitions agree

  lemma MatchingAgrees(setting: Setting)
    requires Matching(setting)
    ensures Agrees(setting.config, setting.expected)
  {
    forall e | e in setting.expected && e.calendarId in setting.config.calendars
      ensures e.definition == setting.config.calendars[e.calendarId]
    {
      TheExpectation(setting.expected, e);
      TheExpectation(setting.expected, Expectation(e.calendarId, setting.config.calendars[e.calendarId]));
    }
  }

  lemma {:induction false} NoMismatch(setting: Setting, sent: set<Transition>, states: seq<CurrentState>)
    requires Matching(setting)
    requires forall t :: t in sent ==> Stamped(setting.config, t)
    requires forall s :: s in states ==> Genuine(sent, s)
    ensures FirstDefinitionMismatch(setting.expected, states).None?
  {
    if states != [] {
      assert Genuine(sent, states[0]);
      var t :| t in sent && TransitionMatchesState(t, states[0]);
      TheExpectation(setting.expected, Expectation(t.calendarId, t.definition));
      NoMismatch(setting, sent, states[1..]);
    }
  }

  // Transitions

  /** A genuine transition never disputes a genuine watermark. */
  lemma NothingDisputed(
      setting: Setting, sys: System, ids: set<Id>, buffer: seq<Transition>, watermarks: map<Id, CurrentState>)
    requires SystemInv(setting, sys) && forall e :: e in buffer ==> e in sys.sent
    requires forall c :: c in watermarks ==> Genuine(sys.sent, watermarks[c]) && watermarks[c].calendarId == c
    ensures !SomeDisputed(ids, buffer, watermarks)
  {
    forall c, e | c in watermarks && e in buffer && e.calendarId == c && e.revision == watermarks[c].revision
      ensures TransitionMatchesState(e, watermarks[c])
    {
      var t :| t in sys.sent && TransitionMatchesState(t, watermarks[c]);
      assert t == e;
    }
  }

  lemma TransitionIsNotRefused(setting: Setting, sys: System, event: Transition)
    requires HonestInv(setting, sys) && Matching(setting) && event in sys.sent
    requires sys.consumer.phase !in {IDLE, STOPPED}
    ensures !JudgeTransition(sys.consumer, event, setting.policy).Refuse?
  {
    var s := sys.consumer;
    assert Stamped(setting.config, event);
    TheExpectation(setting.expected, Expectation(event.calendarId, event.definition));
    if event.calendarId in s.watermarks {
      var w := s.watermarks[event.calendarId];
      var t :| t in sys.sent && TransitionMatchesState(t, w);
      if event.eventId == w.lastEventId {
        EventIdsAreUnique(setting.config, sys.producer, sys.sent, event, t);
      }
      assert event.revision == w.revision ==> event == t;
    }
    forall other | other in s.buffer && other.eventId == event.eventId ensures other == event {
      EventIdsAreUnique(setting.config, sys.producer, sys.sent, event, other);
    }
    assert forall other ::
      (other in s.buffer && other.calendarId == event.calendarId && other.revision == event.revision)
      ==> other == event;
  }

  lemma AdmittedDoesNotConflict(setting: Setting, sys: System, event: Transition)
    requires HonestInv(setting, sys) && Matching(setting) && event in sys.sent
    requires sys.consumer.phase !in {IDLE, STOPPED}
    requires JudgeTransition(sys.consumer, event, setting.policy) == Admit
    ensures ApplyTransition(sys.consumer, Admit, event).state.phase != CONFLICT
  {
    var s := sys.consumer;
    var buffered := s.(buffer := s.buffer + [event]);
    AppendKeepsBounds(s, event, setting.policy);
    assert event.calendarId in IdSet(s.expectations);
    ReconcileReachesRunEnds(buffered);
    NothingDisputed(setting, sys, IdSet(s.expectations), buffered.buffer, s.watermarks);
  }

  lemma ObserveDoesNotConflict(setting: Setting, sys: System, event: Transition)
    requires HonestInv(setting, sys) && Matching(setting) && event in sys.sent
    requires sys.consumer.phase != IDLE
    ensures StateAfter(sys.consumer, ObserveTransition(sys.consumer, event, setting.policy)).phase != CONFLICT
  {
    if sys.consumer.phase != STOPPED {
      TransitionIsNotRefused(setting, sys, event);
      if JudgeTransition(sys.consumer, event, setting.policy) == Admit {
        AdmittedDoesNotConflict(setting, sys, event);
      }
    }
  }

  /** A transition that reaches an idle consumer is always a conflict. */
  lemma EarlyDeliveryConflicts(setting: Setting, sys: System, event: Transition)
    requires HonestInv(setting, sys) && sys.consumer.phase == IDLE
    ensures StateAfter(sys.consumer, ObserveTransition(sys.consumer, event, setting.policy)).phase == CONFLICT
  {
  }

  // Snapshots

  lemma SnapshotIsNotRefused(setting: Setting, sys: System, response: Response, now: int)
    requires HonestInv(setting, sys) && Matching(setting) && response in sys.responses
    ensures var judged := JudgeSnapshot(sys.consumer, response, now); judged.Returned? ==> !judged.value.Refuse?
  {
    var s := sys.consumer;
    if s.phase == WAITING && s.requestId == Some(response.requestId) {
      assert s.expectations == setting.expected;
      NoMismatch(setting, sys.sent, response.states);
    }
  }

  lemma AcceptedIsOwn(setting: Setting, sys: System, response: Response, now: int)
    requires HonestInv(setting, sys) && Matching(setting) && response in sys.responses
    ensures var t := Consume(sys.consumer, Snapshot(response, now), setting.expected, setting.policy);
      t.accepted != sys.consumer.accepted ==> t.accepted == Some(response) && Own(setting, response.requestId)
  {
    hide Consume;
    var s := sys.consumer;
    SnapshotEffect(s, response, now, setting.expected, setting.policy);
    var t := Consume(s, Snapshot(response, now), setting.expected, setting.policy);
    if t.accepted != s.accepted { AcceptedWasAwaited(s, response, now, setting.expected, setting.policy); }
  }

  lemma AcceptedWasAwaited(s: State, response: Response, now: int, expected: seq<Expectation>, policy: Policy)
    requires DeliveryInv(s, expected, policy) && response.Valid()
    requires Consume(s, Snapshot(response, now), expected, policy).accepted != s.accepted
    ensures s.Awaits(response)
  {
    AcceptedIsAwaited(s, response, now, expected, policy);
  }

  lemma AcceptDoesNotConflict(setting: Setting, sys: System, response: Response)
    requires HonestInv(setting, sys) && Matching(setting) && response in sys.responses
    requires sys.consumer.Awaits(response) && response.requested == ExpectationIds(sys.consumer.expectations)
    ensures AcceptSnapshot(sys.consumer, response).state.phase != CONFLICT
  {
    var s := sys.consumer;
    if response.failures == [] {
      var installed := Accepted(s, response);
      SnapshotCovers(s, response);
      AcceptIsReconcile(s, response);
      ReconcileReachesRunEnds(installed);
      NothingDisputed(setting, sys, IdSet(s.expectations), installed.buffer, installed.watermarks);
    } else {
      assert Own(setting, response.requestId) && Harmless(response.failures);
    }
  }

  lemma SnapshotDoesNotConflict(setting: Setting, sys: System, response: Response, now: int)
    requires HonestInv(setting, sys) && Matching(setting) && response in sys.responses
    ensures StateAfter(sys.consumer, ObserveSnapshot(sys.consumer, response, now)).phase != CONFLICT
  {
    SnapshotIsNotRefused(setting, sys, response, now);
    var judged := JudgeSnapshot(sys.consumer, response, now);
    if judged.Returned? && (judged.value.Admit? || judged.value.Overflow?) {
      AcceptedIsAwaited(sys.consumer, response, now, setting.expected, setting.policy);
      AcceptDoesNotConflict(setting, sys, response);
    }
  }

  // Preservation

  lemma ProducerStepStaysHonest(setting: Setting, sys: System, event: Event)
    requires HonestInv(setting, sys) && Matching(setting) && (event.Ready? || event.Tick?)
    ensures HonestInv(setting, Next(setting, sys, event))
  {
    NextKeepsInv(setting, sys, event);
  }

  lemma SystemIsPaired(setting: Setting, sys: System)
    requires SystemInv(setting, sys)
    ensures sys.producer.Paired()
  {
  }

  lemma HandleStaysHonest(setting: Setting, sys: System, request: Request, clock: P.Clock)
    requires HonestInv(setting, sys) && Matching(setting)
    ensures HonestInv(setting, Next(setting, sys, Handle(request, clock)))
  {
    hide P.HandleRequest, SystemInv, OneAnswer, OutstandingEchoed, OwnRequests, HandledWell, Agrees;
    assert sys.producer.Paired() by { SystemIsPaired(setting, sys); }
    NextKeepsInv(setting, sys, Handle(request, clock));
    if request in sys.requests || Foreign(setting, request) {
      HandleWell(setting, sys, request, clock);
      MatchingAgrees(setting);
      AnswerStaysHonest(setting, sys, request, P.HandleRequest(setting.config, sys.producer, request, clock));
    }
  }

  lemma NewAnswerIsOnly(setting: Setting, sys: System, request: Request, response: Response, next: System)
    requires OneAnswer(setting, sys) && (request in sys.requests || Foreign(setting, request))
    requires forall q :: q in sys.requests ==> Own(setting, q.requestId)
    requires next.requests == sys.requests - {request} && next.responses == sys.responses + {response}
    requires response in sys.responses || response.requestId == request.requestId
    ensures OneAnswer(setting, next)
  {
  }

  lemma NewAnswerEchoes(setting: Setting, sys: System, request: Request, h: P.Handled)
    requires HonestInv(setting, sys) && HandledWell(setting, sys, request, h)
    ensures OutstandingEchoed(setting, Answered(sys, request, h))
  {
  }

  lemma NewAnswerIsHarmless(setting: Setting, sys: System, request: Request, h: P.Handled)
    requires HonestInv(setting, sys) && HandledWell(setting, sys, request, h)
    requires Agrees(setting.config, setting.expected)
    ensures OwnRequests(setting, Answered(sys, request, h))
  {
  }

  lemma AnswerStaysHonest(setting: Setting, sys: System, request: Request, h: P.Handled)
    requires HonestInv(setting, sys) && HandledWell(setting, sys, request, h)
    requires SystemInv(setting, Answered(sys, request, h)) && Agrees(setting.config, setting.expected)
    ensures HonestInv(setting, Answered(sys, request, h))
  {
    NewAnswerEchoes(setting, sys, request, h);
    NewAnswerIsHarmless(setting, sys, request, h);
    if h.response.Some? {
      NewAnswerIsOnly(setting, sys, request, h.response.value, Answered(sys, request, h));
    }
  }

  lemma SettledStaysHonest(setting: Setting, sys: System, t: State)
    requires HonestInv(setting, sys) && SystemInv(setting, Moved(sys, t))
    requires t.phase == WAITING ==> sys.consumer.phase == WAITING && t == sys.consumer.(buffer := t.buffer)
    requires t.accepted != sys.consumer.accepted && t.accepted.Some? ==>
      t.accepted.value in sys.responses && Own(setting, t.accepted.value.requestId)
    requires t.phase != CONFLICT
    ensures HonestInv(setting, Moved(sys, t))
  {
    assert Opened(sys.consumer, t) == {};
  }

  /** A freshly opened request has an id that nothing on the network carries yet. */
  lemma OpenedIsNew(setting: Setting, sys: System, t: State)
    requires HonestInv(setting, sys) && SystemInv(setting, Moved(sys, t))
    requires t.phase == WAITING && OpensAfresh(sys.consumer, t, setting.policy)
    ensures CurrentRequest(t).Returned? && CurrentRequest(t).value.requestId == t.requestId.value
    ensures CurrentRequest(t).value.expectations == setting.expected
    ensures forall q :: q in sys.requests ==> q.requestId != t.requestId.value
    ensures forall r :: r in sys.responses ==> r.requestId != t.requestId.value
    ensures Opened(sys.consumer, t) <= {CurrentRequest(t).value}
  {
  }

  lemma OpeningStaysHonest(setting: Setting, sys: System, t: State)
    requires HonestInv(setting, sys) && SystemInv(setting, Moved(sys, t))
    requires t.phase == WAITING && OpensAfresh(sys.consumer, t, setting.policy)
    ensures HonestInv(setting, Moved(sys, t))
  {
    OpenedIsNew(setting, sys, t);
  }

  lemma CycleStaysHonest(setting: Setting, sys: System, input: Input)
    requires HonestInv(setting, sys) && Matching(setting)
    requires input.Start? || input.Resync? || input.Schedule? || input.Begin?
    ensures HonestInv(setting, Next(setting, sys, Consumer(input)))
  {
    var t := Consume(sys.consumer, input, setting.expected, setting.policy);
    NextKeepsInv(setting, sys, Consumer(input));
    CycleEffect(sys.consumer, input, setting.expected, setting.policy);
    if t.phase == WAITING && t != sys.consumer {
      OpeningStaysHonest(setting, sys, t);
    } else {
      SettledStaysHonest(setting, sys, t);
    }
  }

  // Runs

  /** The step hands the consumer a transition before its first cycle. */
  ghost predicate Early(sys: System, event: Event) {
    event.Consumer? && event.input.Observe? && event.input.event in sys.sent && sys.consumer.phase == IDLE
  }

  /** One step leaves a conflict-free system in conflict exactly when it is an early delivery. */
  lemma ConflictIffEarly(setting: Setting, sys: System, event: Event)
    requires HonestInv(setting, sys) && Matching(setting)
    ensures Next(setting, sys, event).consumer.phase == CONFLICT <==> Early(sys, event)
    ensures !Early(sys, event) ==> HonestInv(setting, Next(setting, sys, event))
  {
    match event
    case Handle(request, clock) => HandleStaysHonest(setting, sys, request, clock);
    case Consumer(input) => if Deliverable(sys, input) { ConsumerConflictIffEarly(setting, sys, input); }
    case _ => ProducerStepStaysHonest(setting, sys, event);
  }

  lemma ConsumerConflictIffEarly(setting: Setting, sys: System, input: Input)
    requires HonestInv(setting, sys) && Matching(setting) && Deliverable(sys, input)
    ensures Next(setting, sys, Consumer(input)).consumer.phase == CONFLICT <==> Early(sys, Consumer(input))
    ensures !Early(sys, Consumer(input)) ==> HonestInv(setting, Next(setting, sys, Consumer(input)))
  {
    var t := Consume(sys.consumer, input, setting.expected, setting.policy);
    NextKeepsInv(setting, sys, Consumer(input));
    match input
    case Observe(e) =>
      if sys.consumer.phase == IDLE {
        EarlyDeliveryConflicts(setting, sys, e);
      } else {
        ObserveDoesNotConflict(setting, sys, e);
        ObserveEffect(sys.consumer, e, setting.expected, setting.policy);
        SettledStaysHonest(setting, sys, t);
      }
    case Snapshot(response, now) =>
      SnapshotDoesNotConflict(setting, sys, response, now);
      SnapshotEffect(sys.consumer, response, now, setting.expected, setting.policy);
      AcceptedIsOwn(setting, sys, response, now);
      SettledStaysHonest(setting, sys, t);
    case Halt => SettledStaysHonest(setting, sys, t);
    case _ => CycleStaysHonest(setting, sys, input);
  }

  ghost predicate NeverConflicts(setting: Setting, sys: System, events: seq<Event>)
    requires SystemInv(setting, sys) && Distinct(ExpectationIds(setting.expected))
    decreases |events|
  {
    && sys.consumer.phase != CONFLICT
    && (events != [] ==>
          (NextKeepsInv(setting, sys, events[0]); NeverConflicts(setting, Next(setting, sys, events[0]), events[1..])))
  }

  ghost predicate NeverEarly(setting: Setting, sys: System, events: seq<Event>)
    requires SystemInv(setting, sys) && Distinct(ExpectationIds(setting.expected))
    decreases |events|
  {
    events != [] ==>
      && !Early(sys, events[0])
      && (NextKeepsInv(setting, sys, events[0]); NeverEarly(setting, Next(setting, sys, events[0]), events[1..]))
  }

  /** Whatever the network loses, repeats or reorders, a run is free of conflicts exactly when no
      transition is delivered before the first cycle. */
  lemma {:induction false} NoConflictIffNeverEarly(setting: Setting, sys: System, events: seq<Event>)
    requires HonestInv(setting, sys) && Matching(setting)
    ensures NeverConflicts(setting, sys, events) <==> NeverEarly(setting, sys, events)
    decreases |events|
  {
    if events != [] {
      ConflictIffEarly(setting, sys, events[0]);
      NextKeepsInv(setting, sys, events[0]);
      if !Early(sys, events[0]) {
        NoConflictIffNeverEarly(setting, Next(setting, sys, events[0]), events[1..]);
      }
    }
  }

  lemma InitialIsHonest(setting: Setting)
    ensures HonestInv(setting, Initial(setting))
  {
    InitialInv(setting);
  }
}
