/** Producer and consumer joined by a network that may lose, repeat and reorder transitions and
    responses, and may lose or reorder requests; a request is handled at most once. */
module DeliveryProtocol {
  import opened Prelude
  import opened CalendarMessages
  import opened SessionStateDelivery
  import opened BufferReconciliation
  import opened DeliveryInvariant
  import opened ConsumerEffects
  import opened ProducerHistory
  import P = CalendarProducer

  /** What stays fixed during a run. */
  datatype Setting = Setting(config: P.Config, policy: Policy, expected: seq<Expectation>, consumer: Id)

  /** `sent` and `responses` are everything ever put on the bus; any of it may arrive any number of
      times. `requests` are the consumer's requests not handled yet; a lost one is never handled. */
  datatype System = System(
    consumer: State, producer: P.State, sent: set<Transition>, requests: set<Request>, responses: set<Response>)

  datatype Event =
    | Consumer(input: Input)
    | Ready
    | Tick(calendar: Id, evaluatedAsOf: int, publishedAt: int)
    | Handle(request: Request, clock: P.Clock)

  ghost predicate Deliverable(sys: System, input: Input) {
    match input
    case Observe(event) => event in sys.sent
    case Snapshot(response, _) => response in sys.responses
    case _ => true
  }

  /** A request of some other consumer of the same producer. */
  ghost predicate Foreign(setting: Setting, request: Request) {
    request.requester != setting.consumer && request.requestId.cycle.requester != setting.consumer
  }

  ghost function Opened(before: State, after: State): set<Request> {
    if after.phase == WAITING && after.requestId != before.requestId && CurrentRequest(after).Returned?
    then {CurrentRequest(after).value}
    else {}
  }

  /** The system once the consumer has moved to `t`; a newly opened attempt sends its request. */
  ghost function Moved(sys: System, t: State): System {
    sys.(consumer := t, requests := sys.requests + Opened(sys.consumer, t))
  }

  /** The system once the producer has handled `request`. */
  ghost function Answered(sys: System, request: Request, h: P.Handled): System {
    sys.(
      producer := h.state,
      sent := sys.sent + Elements(h.published),
      requests := sys.requests - {request},
      responses := sys.responses + (if h.response.Some? then {h.response.value} else {}))
  }

  ghost function Next(setting: Setting, sys: System, event: Event): System
    requires sys.producer.Paired()
  {
    match event
    case Consumer(input) =>
      if !Deliverable(sys, input) then sys
      else Moved(sys, Consume(sys.consumer, input, setting.expected, setting.policy))
    case Ready => sys.(producer := sys.producer.(ready := true))
    case Tick(calendar, evaluatedAsOf, publishedAt) =>
      if calendar !in setting.config.calendars then sys
      else
        var u := P.UpdateCalendar(setting.config, sys.producer, calendar, evaluatedAsOf, publishedAt);
        if u.Failed? then sys
        else sys.(producer := u.state, sent := if u.published then sys.sent + {u.transition} else sys.sent)
    case Handle(request, clock) =>
      if request !in sys.requests && !Foreign(setting, request) then sys
      else Answered(sys, request, P.HandleRequest(setting.config, sys.producer, request, clock))
  }

  ghost function Initial(setting: Setting): System {
    System(
      Idle(setting.consumer, setting.config.source, setting.config.epoch, setting.policy.version),
      P.State(false, map[], map[], map[], map[]), {}, {}, {})
  }

  // Safety invariant

  ghost predicate Own(setting: Setting, id: RequestId) {
    id.cycle.requester == setting.consumer
  }

  ghost predicate IdsUsed(setting: Setting, sys: System) {
    && (forall q :: q in sys.requests ==> Own(setting, q.requestId) && Issued(sys.consumer, q.requestId))
    && (forall r :: r in sys.responses && Own(setting, r.requestId) ==> Issued(sys.consumer, r.requestId))
  }

  ghost predicate ConsumerKnown(setting: Setting, s: State) {
    && s.requester == setting.consumer
    && s.expectedSource == setting.config.source && s.expectedEpoch == setting.config.epoch
    && CycleKnown(s)
  }

  ghost predicate ProducerInv(setting: Setting, sys: System) {
    && Numbered(setting.config, sys.producer, sys.sent)
    && (forall r :: P.Cached(sys.producer, r) ==> r in sys.responses)
    && (forall r :: r in sys.responses ==> r.Valid() && forall s :: s in r.states ==> Genuine(sys.sent, s))
  }

  ghost predicate ConsumerInv(setting: Setting, sys: System) {
    && DeliveryInv(sys.consumer, setting.expected, setting.policy) && ConsumerKnown(setting, sys.consumer)
    && (forall e :: e in sys.consumer.buffer ==> e in sys.sent)
    && (forall c :: c in sys.consumer.watermarks ==> Genuine(sys.sent, sys.consumer.watermarks[c]))
  }

  /** Whatever answers the outstanding request is at least as recent as every watermark. */
  ghost predicate OutstandingIsRecent(sys: System) {
    sys.consumer.phase == WAITING ==> forall r, s ::
      r in sys.responses && Some(r.requestId) == sys.consumer.requestId && s in r.states
      && s.calendarId in sys.consumer.watermarks ==>
        sys.consumer.watermarks[s.calendarId].revision <= s.revision
  }

  ghost predicate SystemInv(setting: Setting, sys: System) {
    ProducerInv(setting, sys) && ConsumerInv(setting, sys) && IdsUsed(setting, sys) && OutstandingIsRecent(sys)
  }

  // Preservation by the producer

  lemma GenuineStays(small: set<Transition>, large: set<Transition>, s: CurrentState)
    requires small <= large && Genuine(small, s)
    ensures Genuine(large, s)
  {
    var t :| t in small && TransitionMatchesState(t, s);
    assert t in large;
  }

  lemma HistoryGrows(setting: Setting, sys: System, next: System)
    requires SystemInv(setting, sys) && sys.sent <= next.sent && next.consumer == sys.consumer
    ensures ConsumerInv(setting, next)
    ensures forall r, s :: r in sys.responses && s in r.states ==> Genuine(next.sent, s)
  {
    forall c | c in sys.consumer.watermarks ensures Genuine(next.sent, sys.consumer.watermarks[c]) {
      GenuineStays(sys.sent, next.sent, sys.consumer.watermarks[c]);
    }
    forall r, s | r in sys.responses && s in r.states ensures Genuine(next.sent, s) {
      GenuineStays(sys.sent, next.sent, s);
    }
  }

  /** No watermark is ahead of the producer. */
  lemma WatermarksBehindProducer(setting: Setting, sys: System, c: Id)
    requires SystemInv(setting, sys) && c in sys.consumer.watermarks
    ensures sys.consumer.watermarks[c].revision <= sys.producer.Revision(c)
  {
    var t :| t in sys.sent && TransitionMatchesState(t, sys.consumer.watermarks[c]);
  }

  ghost function Ticked(sys: System, u: P.CalendarUpdate): System
    requires u.Held?
  {
    sys.(producer := u.state, sent := if u.published then sys.sent + {u.transition} else sys.sent)
  }

  lemma TickedKeepsInv(setting: Setting, sys: System, calendar: Id, u: P.CalendarUpdate)
    requires SystemInv(setting, sys) && u.Held? && UpdateResult(setting.config, sys.producer, sys.sent, calendar, u)
    ensures SystemInv(setting, Ticked(sys, u))
  {
    hide Numbered;
    assert forall r :: P.Cached(u.state, r) <==> P.Cached(sys.producer, r);
    HistoryGrows(setting, sys, Ticked(sys, u));
  }

  lemma TickKeepsInv(setting: Setting, sys: System, calendar: Id, evaluatedAsOf: int, publishedAt: int)
    requires SystemInv(setting, sys)
    ensures SystemInv(setting, Next(setting, sys, Tick(calendar, evaluatedAsOf, publishedAt)))
  {
    hide P.UpdateCalendar, UpdateResult;
    if calendar in setting.config.calendars {
      UpdateKeepsNumbering(setting.config, sys.producer, sys.sent, calendar, evaluatedAsOf, publishedAt);
      var u := P.UpdateCalendar(setting.config, sys.producer, calendar, evaluatedAsOf, publishedAt);
      if u.Held? { TickedKeepsInv(setting, sys, calendar, u); }
    }
  }

  lemma ReadyKeepsInv(setting: Setting, sys: System)
    requires SystemInv(setting, sys)
    ensures SystemInv(setting, Next(setting, sys, Ready))
  {
    var next := Next(setting, sys, Ready);
    assert forall c :: next.producer.Revision(c) == sys.producer.Revision(c);
    assert forall r :: P.Cached(next.producer, r) <==> P.Cached(sys.producer, r);
    HistoryGrows(setting, sys, next);
  }

  /** What is known of a handled request. */
  ghost predicate HandledWell(setting: Setting, sys: System, request: Request, h: P.Handled) {
    && (request in sys.requests || Foreign(setting, request))
    && HandledResult(setting.config, sys.producer, sys.sent, request, h)
    && forall r :: P.Cached(h.state, r) ==> P.Cached(sys.producer, r) || h.response == Some(r)
  }

  lemma AnsweredKeepsProducerInv(setting: Setting, sys: System, request: Request, h: P.Handled)
    requires SystemInv(setting, sys) && HandledWell(setting, sys, request, h)
    ensures ProducerInv(setting, Answered(sys, request, h))
  {
    HistoryGrows(setting, sys, Answered(sys, request, h));
  }

  /** A new answer to the outstanding request was taken after the watermarks were. */
  lemma NewAnswerIsRecent(setting: Setting, sys: System, request: Request, h: P.Handled)
    requires SystemInv(setting, sys) && HandledWell(setting, sys, request, h)
    ensures OutstandingIsRecent(Answered(sys, request, h))
  {
    if h.response.Some? && h.response.value !in sys.responses {
      assert Answers(setting.config, sys.producer, sys.sent + Elements(h.published), request, h.response.value);
      forall s | s in h.response.value.states && s.calendarId in sys.consumer.watermarks
        ensures sys.consumer.watermarks[s.calendarId].revision <= s.revision
      {
        WatermarksBehindProducer(setting, sys, s.calendarId);
      }
    }
  }

  lemma AnswerIdsUsed(setting: Setting, sys: System, request: Request, h: P.Handled)
    requires SystemInv(setting, sys) && HandledWell(setting, sys, request, h)
    ensures IdsUsed(setting, Answered(sys, request, h))
  {
  }

  lemma HandleWell(setting: Setting, sys: System, request: Request, clock: P.Clock)
    requires SystemInv(setting, sys) && (request in sys.requests || Foreign(setting, request))
    ensures HandledWell(setting, sys, request, P.HandleRequest(setting.config, sys.producer, request, clock))
  {
    HandlingKeepsHistory(setting.config, sys.producer, sys.sent, request, clock);
    HandlingCachesItsAnswer(setting.config, sys.producer, request, clock);
  }

  lemma HandleKeepsInv(setting: Setting, sys: System, request: Request, clock: P.Clock)
    requires SystemInv(setting, sys)
    ensures SystemInv(setting, Next(setting, sys, Handle(request, clock)))
  {
    if request in sys.requests || Foreign(setting, request) {
      HandleWell(setting, sys, request, clock);
      var h := P.HandleRequest(setting.config, sys.producer, request, clock);
      AnsweredKeepsProducerInv(setting, sys, request, h);
      HistoryGrows(setting, sys, Answered(sys, request, h));
      NewAnswerIsRecent(setting, sys, request, h);
      AnswerIdsUsed(setting, sys, request, h);
    }
  }

  // Preservation by the consumer

  lemma SourcesAreGenuine(setting: Setting, sys: System, events: seq<Transition>, t: State)
    requires SystemInv(setting, sys)
    requires ComesFrom(sys.consumer.watermarks, events, t.watermarks) && forall e :: e in events ==> e in sys.sent
    ensures forall c :: c in t.watermarks ==> Genuine(sys.sent, t.watermarks[c])
  {
    forall c | c in t.watermarks ensures Genuine(sys.sent, t.watermarks[c]) {
      if !(c in sys.consumer.watermarks && t.watermarks[c] == sys.consumer.watermarks[c]) {
        var e :| e in events && t.watermarks[c] == StateFromTransition(e);
        assert TransitionMatchesState(e, t.watermarks[c]);
      }
    }
  }

  lemma AppliedIsGenuine(sent: set<Transition>, events: seq<Transition>, s: CurrentState)
    requires forall e :: e in events ==> e in sent
    requires exists e :: e in events && s == StateFromTransition(e)
    ensures Genuine(sent, s)
  {
    var e :| e in events && s == StateFromTransition(e);
    assert e in sent && TransitionMatchesState(e, s);
  }

  lemma StartsGenuine(sent: set<Transition>, states: seq<CurrentState>, buffer: seq<Transition>,
                      after: map<Id, CurrentState>)
    requires StartsFrom(states, buffer, after)
    requires forall s :: s in states ==> Genuine(sent, s)
    requires forall e :: e in buffer ==> e in sent
    ensures forall c :: c in after ==> Genuine(sent, after[c])
  {
    hide Genuine;
    forall c | c in after ensures Genuine(sent, after[c]) {
      if exists e :: e in buffer && after[c] == StateFromTransition(e) {
        AppliedIsGenuine(sent, buffer, after[c]);
      } else {
        assert after[c] in states;
      }
    }
  }

  lemma SnapshotIsGenuine(setting: Setting, sys: System, response: Response, t: State)
    requires SystemInv(setting, sys) && response in sys.responses
    requires StartsFrom(response.states, sys.consumer.buffer, t.watermarks)
    ensures forall c :: c in t.watermarks ==> Genuine(sys.sent, t.watermarks[c])
  {
    StartsGenuine(sys.sent, response.states, sys.consumer.buffer, t.watermarks);
  }

  lemma ObserveKeepsInv(setting: Setting, sys: System, event: Transition)
    requires SystemInv(setting, sys) && Distinct(ExpectationIds(setting.expected)) && event in sys.sent
    ensures var t := Consume(sys.consumer, Observe(event), setting.expected, setting.policy);
      SystemInv(setting, Moved(sys, t)) && NoneRetreats(sys.consumer.watermarks, t.watermarks)
  {
    hide Consume;
    var t := Consume(sys.consumer, Observe(event), setting.expected, setting.policy);
    ConsumeKeepsInv(sys.consumer, Observe(event), setting.expected, setting.policy);
    ObserveEffect(sys.consumer, event, setting.expected, setting.policy);
    SourcesAreGenuine(setting, sys, sys.consumer.buffer + [event], t);
    SettledKeepsInv(setting, sys, t);
  }

  lemma InstallingDoesNotRetreat(setting: Setting, sys: System, response: Response, t: State)
    requires SystemInv(setting, sys) && response in sys.responses && SnapshotInstalled(sys.consumer, response, t)
    ensures NoneRetreats(sys.consumer.watermarks, t.watermarks)
  {
    forall c | c in sys.consumer.watermarks
      ensures c in t.watermarks && sys.consumer.watermarks[c].revision <= t.watermarks[c].revision
    {
      assert c in t.watermarks;
    }
  }

  lemma SettledKeepsInv(setting: Setting, sys: System, t: State)
    requires SystemInv(setting, sys)
    requires DeliveryInv(t, setting.expected, setting.policy) && SameCycle(sys.consumer, t)
    requires t.phase == WAITING ==> sys.consumer.phase == WAITING && t == sys.consumer.(buffer := t.buffer)
    requires forall e :: e in t.buffer ==> e in sys.sent
    requires forall c :: c in t.watermarks ==> Genuine(sys.sent, t.watermarks[c])
    ensures SystemInv(setting, Moved(sys, t))
  {
    assert Opened(sys.consumer, t) == {};
  }

  /** What an observed snapshot may change: nothing that matters here, or all watermarks at once. */
  ghost predicate SnapshotSeen(s: State, response: Response, t: State) {
    || (SameCycle(s, t) && t.watermarks == s.watermarks && t.buffer == s.buffer && (t.phase == WAITING ==> t == s))
    || SnapshotInstalled(s, response, t)
  }

  lemma SeenKeepsSystemInv(setting: Setting, sys: System, response: Response, t: State)
    requires SystemInv(setting, sys) && response in sys.responses
    requires DeliveryInv(t, setting.expected, setting.policy) && SnapshotSeen(sys.consumer, response, t)
    ensures SystemInv(setting, Moved(sys, t)) && NoneRetreats(sys.consumer.watermarks, t.watermarks)
  {
    if SnapshotInstalled(sys.consumer, response, t) {
      SnapshotIsGenuine(setting, sys, response, t);
      InstallingDoesNotRetreat(setting, sys, response, t);
    }
    SettledKeepsInv(setting, sys, t);
  }

  lemma SnapshotKeepsSystemInv(setting: Setting, sys: System, response: Response, now: int)
    requires SystemInv(setting, sys) && Distinct(ExpectationIds(setting.expected)) && response in sys.responses
    ensures var t := Consume(sys.consumer, Snapshot(response, now), setting.expected, setting.policy);
      SystemInv(setting, Moved(sys, t)) && NoneRetreats(sys.consumer.watermarks, t.watermarks)
  {
    hide Consume;
    ConsumeKeepsInv(sys.consumer, Snapshot(response, now), setting.expected, setting.policy);
    SnapshotEffect(sys.consumer, response, now, setting.expected, setting.policy);
    SeenKeepsSystemInv(setting, sys, response,
                       Consume(sys.consumer, Snapshot(response, now), setting.expected, setting.policy));
  }

  lemma OpeningIdsUsed(setting: Setting, sys: System, t: State)
    requires SystemInv(setting, sys) && CycleCall(sys.consumer, t, setting.policy)
    ensures IdsUsed(setting, Moved(sys, t)) && OutstandingIsRecent(Moved(sys, t))
  {
    hide ProducerInv, DeliveryInv;
  }

  lemma OpeningKeepsInv(setting: Setting, sys: System, t: State)
    requires SystemInv(setting, sys)
    requires DeliveryInv(t, setting.expected, setting.policy) && CycleCall(sys.consumer, t, setting.policy)
    ensures SystemInv(setting, Moved(sys, t))
  {
    OpeningIdsUsed(setting, sys, t);
  }

  lemma HaltKeepsInv(setting: Setting, sys: System)
    requires SystemInv(setting, sys) && Distinct(ExpectationIds(setting.expected))
    ensures SystemInv(setting, Moved(sys, Consume(sys.consumer, Halt, setting.expected, setting.policy)))
  {
    hide Consume;
    HaltEffect(sys.consumer, setting.expected, setting.policy);
    ConsumeKeepsInv(sys.consumer, Halt, setting.expected, setting.policy);
    SettledKeepsInv(setting, sys, Consume(sys.consumer, Halt, setting.expected, setting.policy));
  }

  lemma CycleKeepsInv(setting: Setting, sys: System, input: Input)
    requires SystemInv(setting, sys) && Distinct(ExpectationIds(setting.expected))
    requires input.Start? || input.Resync? || input.Schedule? || input.Begin?
    ensures var t := Consume(sys.consumer, input, setting.expected, setting.policy);
      SystemInv(setting, Moved(sys, t)) && NoneRetreats(sys.consumer.watermarks, t.watermarks)
  {
    hide Consume;
    ConsumeKeepsInv(sys.consumer, input, setting.expected, setting.policy);
    CycleEffect(sys.consumer, input, setting.expected, setting.policy);
    OpeningKeepsInv(setting, sys, Consume(sys.consumer, input, setting.expected, setting.policy));
  }

  lemma ConsumerKeepsInv(setting: Setting, sys: System, input: Input)
    requires SystemInv(setting, sys) && Distinct(ExpectationIds(setting.expected)) && Deliverable(sys, input)
    ensures var t := Consume(sys.consumer, input, setting.expected, setting.policy);
      SystemInv(setting, Moved(sys, t)) && (input != Halt ==> NoneRetreats(sys.consumer.watermarks, t.watermarks))
  {
    hide Consume, SystemInv, NoneRetreats;
    match input
    case Observe(e) => ObserveKeepsInv(setting, sys, e);
    case Snapshot(response, now) => SnapshotKeepsSystemInv(setting, sys, response, now);
    case Halt => HaltKeepsInv(setting, sys);
    case _ => CycleKeepsInv(setting, sys, input);
  }

  // Runs

  lemma NextKeepsInv(setting: Setting, sys: System, event: Event)
    requires SystemInv(setting, sys) && Distinct(ExpectationIds(setting.expected))
    ensures SystemInv(setting, Next(setting, sys, event))
  {
    hide Consume, P.UpdateCalendar, P.HandleRequest;
    match event
    case Consumer(input) => if Deliverable(sys, input) { ConsumerKeepsInv(setting, sys, input); }
    case Ready => ReadyKeepsInv(setting, sys);
    case Tick(calendar, evaluatedAsOf, publishedAt) =>
      TickKeepsInv(setting, sys, calendar, evaluatedAsOf, publishedAt);
    case Handle(request, clock) => HandleKeepsInv(setting, sys, request, clock);
  }

  lemma NextDoesNotRetreat(setting: Setting, sys: System, event: Event)
    requires SystemInv(setting, sys) && Distinct(ExpectationIds(setting.expected))
    requires event != Consumer(Halt)
    ensures NoneRetreats(sys.consumer.watermarks, Next(setting, sys, event).consumer.watermarks)
  {
    hide Consume, P.UpdateCalendar, P.HandleRequest, SystemInv;
    if event.Consumer? && Deliverable(sys, event.input) {
      ConsumerKeepsInv(setting, sys, event.input);
    }
  }

  lemma InitialInv(setting: Setting)
    ensures SystemInv(setting, Initial(setting))
  {
    IdleKeepsInv(setting.consumer, setting.config.source, setting.config.epoch, setting.expected, setting.policy);
  }

  /** The state after a run. */
  ghost function Run(setting: Setting, sys: System, events: seq<Event>): System
    requires SystemInv(setting, sys) && Distinct(ExpectationIds(setting.expected))
    decreases |events|
  {
    if events == [] then sys
    else
      NextKeepsInv(setting, sys, events[0]);
      Run(setting, Next(setting, sys, events[0]), events[1..])
  }

  /** In every run, every watermark carries exactly the revision fields of the transition the producer
      published under that calendar and revision, and that transition is the only one of its number. */
  lemma {:induction false} WatermarksAreTrue(setting: Setting, sys: System, events: seq<Event>)
    requires SystemInv(setting, sys) && Distinct(ExpectationIds(setting.expected))
    ensures var end := Run(setting, sys, events);
      && SystemInv(setting, end)
      && forall c :: c in end.consumer.watermarks ==> exists t :: (
           && t in end.sent && TransitionMatchesState(t, end.consumer.watermarks[c]) && t.calendarId == c
           && forall u :: u in end.sent && u.calendarId == c && u.revision == t.revision ==> u == t)
    decreases |events|
  {
    if events == [] {
      forall c | c in sys.consumer.watermarks ensures exists t :: (
        && t in sys.sent && TransitionMatchesState(t, sys.consumer.watermarks[c]) && t.calendarId == c
        && forall u :: u in sys.sent && u.calendarId == c && u.revision == t.revision ==> u == t)
      {
        var t :| t in sys.sent && TransitionMatchesState(t, sys.consumer.watermarks[c]);
        assert t.calendarId == c;
      }
    } else {
      NextKeepsInv(setting, sys, events[0]);
      WatermarksAreTrue(setting, Next(setting, sys, events[0]), events[1..]);
    }
  }

  /** In every run in which the consumer is not stopped, no watermark is lost or moves back. */
  lemma {:induction false} WatermarksNeverRetreat(setting: Setting, sys: System, events: seq<Event>)
    requires SystemInv(setting, sys) && Distinct(ExpectationIds(setting.expected))
    requires Consumer(Halt) !in events
    ensures NoneRetreats(sys.consumer.watermarks, Run(setting, sys, events).consumer.watermarks)
    decreases |events|
  {
    if events != [] {
      NextKeepsInv(setting, sys, events[0]);
      assert events[0] in events;
      NextDoesNotRetreat(setting, sys, events[0]);
      WatermarksNeverRetreat(setting, Next(setting, sys, events[0]), events[1..]);
    }
  }
}
