/** The producer's published history: revisions are numbered 1, 2, 3, ... per calendar, and every
    snapshot it answers with is taken from that history no earlier than the request arrived. */
module ProducerHistory {
  import opened Prelude
  import opened CalendarMessages
  import opened CalendarProducer

  ghost function Elements(s: seq<Transition>): set<Transition> {
    set t | t in s
  }

  /** `t` is stamped as this producer stamps its transitions. */
  ghost predicate Stamped(config: Config, t: Transition) {
    && t.Valid()
    && t.eventId == EventId(config.epoch, t.calendarId, t.revision)
    && t.source == config.source && t.epoch == config.epoch
    && t.calendarId in config.calendars && t.definition == config.calendars[t.calendarId]
  }

  /** `sent` holds, for each calendar, exactly one transition per revision from 1 to the current one,
      and the current transition is the last of them. */
  ghost predicate Numbered(config: Config, p: State, sent: set<Transition>) {
    p.Paired() && Heads(p, sent) && InRange(config, p, sent) && OnePerRevision(sent) && NoneMissing(p, sent)
  }

  ghost predicate Heads(p: State, sent: set<Transition>)
    requires p.Paired()
  {
    && (forall c :: c in p.transitions ==>
          && p.transitions[c] in sent && p.transitions[c].calendarId == c
          && p.transitions[c].revision == p.Revision(c) && p.snapshots[c].facts == p.transitions[c].facts)
    && (forall c :: c !in p.transitions ==> p.Revision(c) == 0)
  }

  ghost predicate InRange(config: Config, p: State, sent: set<Transition>) {
    forall t :: t in sent ==> Stamped(config, t) && 1 <= t.revision <= p.Revision(t.calendarId)
  }

  ghost predicate OnePerRevision(sent: set<Transition>) {
    forall t, u :: t in sent && u in sent && t.calendarId == u.calendarId && t.revision == u.revision ==> t == u
  }

  ghost predicate NoneMissing(p: State, sent: set<Transition>) {
    forall c, r :: 1 <= r <= p.Revision(c) ==> Published(sent, c, r)
  }

  ghost predicate Published(sent: set<Transition>, calendar: Id, revision: int) {
    exists t :: t in sent && t.calendarId == calendar && t.revision == revision
  }

  /** The state carries exactly the revision fields of a published transition. */
  ghost predicate Genuine(sent: set<Transition>, state: CurrentState) {
    exists t :: t in sent && TransitionMatchesState(t, state)
  }

  lemma NumbersStayComplete(p: State, sent: set<Transition>, event: Transition, q: State)
    requires NoneMissing(p, sent) && event.revision == p.Revision(event.calendarId) + 1
    requires forall c :: q.Revision(c) == if c == event.calendarId then event.revision else p.Revision(c)
    ensures NoneMissing(q, sent + {event})
  {
    forall c, r | 1 <= r <= q.Revision(c) ensures Published(sent + {event}, c, r) {
      if r <= p.Revision(c) {
        assert Published(sent, c, r);
        var t :| t in sent && t.calendarId == c && t.revision == r;
        assert t in sent + {event};
      } else {
        assert event in sent + {event};
      }
    }
  }

  lemma NumbersStayInRange(config: Config, p: State, sent: set<Transition>, event: Transition, q: State)
    requires InRange(config, p, sent) && OnePerRevision(sent) && 0 <= p.Revision(event.calendarId)
    requires Stamped(config, event) && event.revision == p.Revision(event.calendarId) + 1
    requires forall c :: q.Revision(c) == if c == event.calendarId then event.revision else p.Revision(c)
    ensures InRange(config, q, sent + {event}) && OnePerRevision(sent + {event})
  {
  }

  lemma PublishingKeepsNumbering(
      config: Config, p: State, sent: set<Transition>, snapshot: Snapshot, event: Transition, q: State)
    requires Numbered(config, p, sent)
    requires Stamped(config, event) && event.revision == p.Revision(event.calendarId) + 1
    requires snapshot.facts == event.facts
    requires q == p.(snapshots := p.snapshots[event.calendarId := snapshot],
                     transitions := p.transitions[event.calendarId := event],
                     revisions := p.revisions[event.calendarId := event.revision])
    ensures Numbered(config, q, sent + {event})
  {
    assert forall c :: q.Revision(c) == if c == event.calendarId then event.revision else p.Revision(c);
    NumbersStayInRange(config, p, sent, event, q);
    NumbersStayComplete(p, sent, event, q);
  }

  lemma HoldingKeepsNumbering(
      config: Config, p: State, sent: set<Transition>, calendar: Id, snapshot: Snapshot, q: State)
    requires Numbered(config, p, sent) && calendar in p.transitions && p.snapshots[calendar].facts == snapshot.facts
    requires q == p.(snapshots := p.snapshots[calendar := snapshot])
    ensures Numbered(config, q, sent)
  {
    assert forall c :: q.Revision(c) == p.Revision(c);
  }

  ghost predicate UpdateResult(config: Config, p: State, sent: set<Transition>, calendar: Id, u: CalendarUpdate)
    requires u.Held?
  {
    && Numbered(config, u.state, if u.published then sent + {u.transition} else sent)
    && calendar in u.state.transitions && u.state.transitions[calendar] == u.transition
    && u.state.cycles == p.cycles
    && (forall c :: c != calendar ==> u.state.Revision(c) == p.Revision(c))
    && u.state.Revision(calendar) == p.Revision(calendar) + (if u.published then 1 else 0)
  }

  lemma PublishedKeepsNumbering(
      config: Config, p: State, sent: set<Transition>, calendar: Id, evaluatedAsOf: int, publishedAt: int)
    requires calendar in config.calendars && Numbered(config, p, sent)
    ensures var u := UpdateCalendar(config, p, calendar, evaluatedAsOf, publishedAt);
      u.Held? && u.published ==> UpdateResult(config, p, sent, calendar, u)
  {
    hide OnePerRevision, NoneMissing;
    var u := UpdateCalendar(config, p, calendar, evaluatedAsOf, publishedAt);
    if u.Held? && u.published {
      var snapshot := config.evaluate(calendar, evaluatedAsOf).snapshot;
      assert u.transition == NewTransition(config, p, calendar, snapshot, evaluatedAsOf, publishedAt);
      PublishingKeepsNumbering(config, p, sent, snapshot, u.transition, u.state);
    }
  }

  lemma UpdateKeepsNumbering(
      config: Config, p: State, sent: set<Transition>, calendar: Id, evaluatedAsOf: int, publishedAt: int)
    requires calendar in config.calendars && Numbered(config, p, sent)
    ensures var u := UpdateCalendar(config, p, calendar, evaluatedAsOf, publishedAt);
      u.Held? ==> UpdateResult(config, p, sent, calendar, u)
  {
    PublishedKeepsNumbering(config, p, sent, calendar, evaluatedAsOf, publishedAt);
    var u := UpdateCalendar(config, p, calendar, evaluatedAsOf, publishedAt);
    if u.Held? && !u.published {
      HoldingKeepsNumbering(config, p, sent, calendar, config.evaluate(calendar, evaluatedAsOf).snapshot, u.state);
    }
  }

  /** Two published transitions with one event id are one transition. */
  lemma EventIdsAreUnique(config: Config, p: State, sent: set<Transition>, t: Transition, u: Transition)
    requires Numbered(config, p, sent) && t in sent && u in sent && t.eventId == u.eventId
    ensures t == u
  {
  }

  // Sweeps

  /** What holds while a request is being answered: the history stays numbered, and every state so far
      is genuine and at least as recent as the calendar was when the request arrived. */
  ghost predicate SweepInv(config: Config, p: State, sent: set<Transition>, sweep: Sweep) {
    && Numbered(config, sweep.state, sent + Elements(sweep.published))
    && sweep.state.cycles == p.cycles
    && (forall c :: p.Revision(c) <= sweep.state.Revision(c))
    && (forall s :: s in sweep.states ==>
          Genuine(sent + Elements(sweep.published), s) && p.Revision(s.calendarId) <= s.revision)
  }

  /** The requested definitions agree with the producer's wherever it has the calendar. */
  ghost predicate Agrees(config: Config, expectations: seq<Expectation>) {
    forall e :: e in expectations && e.calendarId in config.calendars ==>
      e.definition == config.calendars[e.calendarId]
  }

  ghost predicate Harmless(failures: seq<Failure>) {
    forall f :: f in failures ==> f.outcome != CONFLICTING
  }

  lemma GenuineGrows(small: set<Transition>, large: set<Transition>, states: seq<CurrentState>)
    requires small <= large && forall s :: s in states ==> Genuine(small, s)
    ensures forall s :: s in states ==> Genuine(large, s)
  {
    forall s | s in states ensures Genuine(large, s) {
      var t :| t in small && TransitionMatchesState(t, s);
      assert t in large;
    }
  }

  lemma SweepHeldKeepsInv(
      config: Config, p: State, sent: set<Transition>, sweep: Sweep, id: Id, u: CalendarUpdate, cut: int, next: Sweep)
    requires SweepInv(config, p, sent, sweep) && u.Held?
    requires UpdateResult(config, sweep.state, sent + Elements(sweep.published), id, u)
    requires next.state == u.state
    requires next.published == if u.published then sweep.published + [u.transition] else sweep.published
    requires next.states == sweep.states || next.states == sweep.states + [CalendarCurrentState(u.transition, cut)]
    ensures SweepInv(config, p, sent, next)
  {
    hide OnePerRevision, NoneMissing, InRange;
    var before := sent + Elements(sweep.published);
    var after := sent + Elements(next.published);
    assert after == if u.published then before + {u.transition} else before;
    GenuineGrows(before, after, sweep.states);
    var current := CalendarCurrentState(u.transition, cut);
    assert Genuine(after, current) by {
      assert u.transition in after && TransitionMatchesState(u.transition, current);
    }
  }

  lemma SweepOneKeepsInv(
      config: Config, p: State, sent: set<Transition>, sweep: Sweep, e: Expectation, cut: int, stamp: int)
    requires SweepInv(config, p, sent, sweep)
    ensures SweepInv(config, p, sent, SweepOne(config, sweep, e, cut, stamp))
  {
    var id := e.calendarId;
    if id in config.calendars && e.definition == config.calendars[id] {
      UpdateKeepsNumbering(config, sweep.state, sent + Elements(sweep.published), id, cut, stamp);
      var u := UpdateCalendar(config, sweep.state, id, cut, stamp);
      if u.Held? {
        SweepHeldKeepsInv(config, p, sent, sweep, id, u, cut, SweepOne(config, sweep, e, cut, stamp));
      }
    }
  }

  lemma {:induction false} SweepAllKeepsInv(
      config: Config, p: State, sent: set<Transition>, sweep: Sweep, expectations: seq<Expectation>, cut: int,
      stamp: int)
    requires SweepInv(config, p, sent, sweep)
    ensures SweepInv(config, p, sent, SweepAll(config, sweep, expectations, cut, stamp))
    decreases |expectations|
  {
    if expectations != [] && !sweep.raised {
      SweepOneKeepsInv(config, p, sent, sweep, expectations[0], cut, stamp);
      SweepAllKeepsInv(config, p, sent, SweepOne(config, sweep, expectations[0], cut, stamp), expectations[1..],
                       cut, stamp);
    }
  }

  lemma {:induction false} AgreementIsHarmless(
      config: Config, sweep: Sweep, expectations: seq<Expectation>, cut: int, stamp: int)
    requires sweep.state.Paired() && Harmless(sweep.failures) && Agrees(config, expectations)
    ensures Harmless(SweepAll(config, sweep, expectations, cut, stamp).failures)
    decreases |expectations|
  {
    if expectations != [] && !sweep.raised {
      assert expectations[0] in expectations;
      AgreementIsHarmless(config, SweepOne(config, sweep, expectations[0], cut, stamp), expectations[1..], cut, stamp);
    }
  }

  // Requests

  /** A response repeats what its request asked for. */
  ghost predicate Echoes(config: Config, response: Response, request: Request) {
    && response.Valid()
    && response.requestId == request.requestId && response.cycleId == request.cycleId
    && response.attempt == request.attempt && response.requester == request.requester
    && response.source == config.source && response.epoch == config.epoch
    && response.policyVersion == config.policyVersion
    && response.requested == ExpectationIds(request.expectations)
    && response.requestedAsOf == request.requestedAsOf && response.requestedAt == request.requestedAt
    && response.deadline == request.deadline
  }

  /** A newly built answer to `request`, given what was published by the time it was built. */
  ghost predicate Answers(config: Config, p: State, sent: set<Transition>, request: Request, response: Response) {
    && Echoes(config, response, request)
    && (forall s :: s in response.states ==> Genuine(sent, s) && p.Revision(s.calendarId) <= s.revision)
    && (Agrees(config, request.expectations) ==> Harmless(response.failures))
  }

  ghost predicate SameCalendars(p: State, q: State) {
    q == p.(cycles := q.cycles)
  }

  lemma CyclesDoNotMatter(config: Config, p: State, q: State, sent: set<Transition>)
    requires Numbered(config, p, sent) && SameCalendars(p, q)
    ensures Numbered(config, q, sent)
  {
    assert forall c :: q.Revision(c) == p.Revision(c);
  }

  lemma BuiltResponsesEcho(
      config: Config, request: Request, received: int, evaluatedAsOf: int, states: seq<CurrentState>,
      failures: seq<Failure>, floor: int, clock: Clock)
    ensures var r := BuildResponse(config, request, received, evaluatedAsOf, states, failures, floor, clock);
      r.Some? ==>
        && Echoes(config, r.value, request)
        && (r.value.states == [] || r.value.states == states)
        && (Harmless(failures) ==> Harmless(r.value.failures))
  {
  }

  lemma RejectionAnswers(
      config: Config, p: State, sent: set<Transition>, request: Request, clock: Clock, code: Code)
    ensures var r := Rejection(config, request, code, clock);
      r.Some? ==> Answers(config, p, sent, request, r.value)
  {
    hide BuildResponse;
    BuiltResponsesEcho(config, request, clock.received, clock.cut, [], Failures(request, REJECTED, code, None), 0, clock);
  }

  lemma NotReadyAnswers(config: Config, p: State, sent: set<Transition>, request: Request, clock: Clock)
    ensures var r := NotReady(config, request, clock);
      r.Some? ==> Answers(config, p, sent, request, r.value)
  {
    hide BuildResponse;
    BuiltResponsesEcho(config, request, clock.received, clock.cut, [],
                       Failures(request, REJECTED, RequestDeadlineExpired, None), 0, clock);
    BuiltResponsesEcho(config, request, clock.received, clock.cut, [],
                       Failures(request, NOT_READY, SourceNotReady, Some(clock.floor + config.retryBackoff)),
                       clock.floor, clock);
  }

  lemma AnswerWithoutStates(
      config: Config, p: State, sent: set<Transition>, request: Request, clock: Clock, code: Code)
    ensures var r := Rejection(config, request, code, clock);
      r.Some? ==> Answers(config, p, sent, request, r.value)
    ensures var r := NotReady(config, request, clock);
      r.Some? ==> Answers(config, p, sent, request, r.value)
  {
    hide Rejection, NotReady, Answers;
    RejectionAnswers(config, p, sent, request, clock, code);
    NotReadyAnswers(config, p, sent, request, clock);
  }

  ghost predicate HandledResult(
      config: Config, p: State, sent: set<Transition>, request: Request, h: Handled)
  {
    && Numbered(config, h.state, sent + Elements(h.published))
    && (forall c :: p.Revision(c) <= h.state.Revision(c))
    && (h.response.Some? ==>
          Cached(p, h.response.value) || Answers(config, p, sent + Elements(h.published), request, h.response.value))
  }

  lemma AnswerIsGenuine(config: Config, p: State, sent: set<Transition>, request: Request, clock: Clock)
    requires Numbered(config, p, sent)
    ensures HandledResult(config, p, sent, request, Answer(config, p, request, clock))
    ensures Answer(config, p, request, clock).state.cycles == p.cycles
  {
    hide BuildResponse, SweepAll, Rejection, NotReady, OnePerRevision, NoneMissing;
    assert sent + Elements([]) == sent;
    if clock.received > request.deadline || !p.ready {
      AnswerWithoutStates(config, p, sent, request, clock, RequestDeadlineExpired);
    } else {
      var start := Sweep(p, [], [], [], false);
      SweepAllKeepsInv(config, p, sent, start, request.expectations, clock.cut, clock.stamp);
      if Agrees(config, request.expectations) {
        AgreementIsHarmless(config, start, request.expectations, clock.cut, clock.stamp);
      }
      var sweep := SweepAll(config, start, request.expectations, clock.cut, clock.stamp);
      BuiltResponsesEcho(config, request, clock.received, clock.cut, sweep.states, sweep.failures, 0, clock);
    }
  }

  lemma ResultCarriesOver(
      config: Config, p: State, q: State, sent: set<Transition>, request: Request, a: Handled, h: Handled)
    requires SameCalendars(p, q) && SameCalendars(a.state, h.state)
    requires h.published == a.published && h.response == a.response
    requires HandledResult(config, q, sent, request, a)
    requires a.response.Some? && Cached(q, a.response.value) ==> Cached(p, a.response.value)
    ensures HandledResult(config, p, sent, request, h)
  {
    CyclesDoNotMatter(config, a.state, h.state, sent + Elements(a.published));
    assert forall c :: q.Revision(c) == p.Revision(c) && a.state.Revision(c) == h.state.Revision(c);
  }

  /** Handling a request keeps the history numbered; what it answers is either a cached answer or a
      genuine one taken after the request arrived. */
  lemma HandlingKeepsHistory(config: Config, p: State, sent: set<Transition>, request: Request, clock: Clock)
    requires Numbered(config, p, sent)
    ensures HandledResult(config, p, sent, request, HandleRequest(config, p, request, clock))
  {
    var (q, admission) := AdmitRequest(config, p, request, clock.received);
    var h := HandleRequest(config, p, request, clock);
    AdmissionCaches(config, p, request, clock.received);
    CyclesDoNotMatter(config, p, q, sent);
    assert sent + Elements([]) == sent;
    match admission
    case Process =>
      AnswerIsGenuine(config, q, sent, request, clock);
      ResultCarriesOver(config, p, q, sent, request, Answer(config, q, request, clock), h);
    case Reject(code) =>
      AnswerWithoutStates(config, q, sent, request, clock, code);
      ResultCarriesOver(config, p, q, sent, request, Handled(q, [], Rejection(config, request, code, clock)), h);
    case Replay(_) =>
  }

  /** Only answers that were sent are ever cached. */
  lemma HandlingCachesItsAnswer(config: Config, p: State, request: Request, clock: Clock)
    requires p.Paired()
    ensures var h := HandleRequest(config, p, request, clock);
      forall r :: Cached(h.state, r) ==> Cached(p, r) || h.response == Some(r)
  {
    var (q, admission) := AdmitRequest(config, p, request, clock.received);
    AdmissionCaches(config, p, request, clock.received);
    if admission.Process? {
      var a := Answer(config, q, request, clock);
      AnswerKeepsCycles(config, q, request, clock);
      assert forall r :: Cached(a.state, r) <==> Cached(q, r);
      if a.response.Some? { CachingAdds(config, a.state, request, a.response.value); }
    } else if admission.Reject? {
      var response := Rejection(config, request, admission.code, clock);
      if response.Some? { CachingAdds(config, q, request, response.value); }
    }
  }

  lemma AdmissionCaches(config: Config, p: State, request: Request, received: int)
    ensures var (q, admission) := AdmitRequest(config, p, request, received);
      && (forall r :: Cached(q, r) ==> Cached(p, r))
      && (admission.Replay? ==> Cached(p, admission.response))
  {
  }

  lemma CachingAdds(config: Config, p: State, request: Request, response: Response)
    ensures forall r :: Cached(CacheResponse(config, p, request, response), r) ==> Cached(p, r) || r == response
  {
  }
}
