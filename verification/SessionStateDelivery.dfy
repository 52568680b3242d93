/** The consumer of calendar current-state delivery: a bounded, side-effect free state machine. */
module SessionStateDelivery {
  import opened Prelude
  import opened CalendarMessages

  datatype Phase = IDLE | WAITING | BACKOFF | LIVE | DEGRADED | CONFLICT | STOPPED

  datatype Disposition =
    | BUFFERED | APPLIED | ACCEPTED | DUPLICATE | STALE | GAP | CONFLICTED | OVERFLOW
    | RETRY_SCHEDULED | RETRY_STARTED | EXHAUSTED | HALTED | IGNORED

  datatype PolicyValues = PolicyValues(
    version: int,
    responseTimeout: int,
    maximumAttempts: int,
    retryBackoff: int,
    maximumElapsed: int,
    maximumPerCalendar: int,
    maximumTotal: int)

  /** Delivery policy, with the rules its constructor enforces. */
  type Policy = p: PolicyValues |
    && 0 < p.version && 0 < p.responseTimeout && 0 < p.maximumAttempts && 0 < p.retryBackoff
    && 0 < p.maximumPerCalendar <= p.maximumTotal
    && p.responseTimeout <= p.maximumElapsed
    witness PolicyValues(1, 1, 1, 1, 1, 1, 1)

  /** Watermarks are kept by calendar; the program keeps the same values as a tuple sorted by id. */
  datatype State = State(
    phase: Phase,
    generation: int,
    requester: Id,
    expectedSource: Id,
    expectedEpoch: Id,
    policyVersion: int,
    expectations: seq<Expectation>,
    cycleId: Option<CycleId>,
    requestId: Option<RequestId>,
    attempt: int,
    requestedAsOf: Option<int>,
    requestedAt: Option<int>,
    deadline: Option<int>,
    startedAt: Option<int>,
    alertAt: Option<int>,
    watermarks: map<Id, CurrentState>,
    buffer: seq<Transition>,
    affected: set<Id>,
    terminalCode: Option<Code>,
    accepted: Option<Response>)
  {
    predicate Awaits(response: Response) {
      phase == WAITING && requestId == Some(response.requestId) && cycleId == Some(response.cycleId)
    }
  }

  datatype Update = Update(state: State, disposition: Disposition, installed: set<Id>)

  function Idle(requester: Id, source: Id, epoch: Id, policyVersion: int): State {
    State(IDLE, 0, requester, source, epoch, policyVersion, [], None, None, 0, None, None, None, None, None,
          map[], [], {}, None, None)
  }

  function Unchanged(s: State, disposition: Disposition): Update {
    Update(s, disposition, {})
  }

  // Cycle control

  function StartCycle(s: State, expectations: seq<Expectation>, now: int, policy: Policy): Attempt<State> {
    if s.phase != IDLE && s.phase != LIVE then Returned(s)
    else if s.policyVersion != policy.version then Raised(PolicyMismatch)
    else if now < 0 then Raised(NegativeTime)
    else if expectations == [] || !Distinct(ExpectationIds(expectations)) then Raised(InvalidPopulation)
    else
      var cycle := CycleId(s.requester, s.generation + 1, now);
      Returned(s.(
        phase := WAITING,
        generation := s.generation + 1,
        expectations := expectations,
        cycleId := Some(cycle),
        requestId := Some(RequestId(cycle, 1)),
        attempt := 1,
        requestedAsOf := Some(now),
        requestedAt := Some(now),
        deadline := Some(now + policy.responseTimeout),
        startedAt := Some(now),
        alertAt := Some(now + policy.responseTimeout),
        buffer := [],
        affected := {},
        terminalCode := None,
        accepted := None))
  }

  function CurrentRequest(s: State): Attempt<Request> {
    if s.phase != WAITING then Raised(NotWaiting)
    else if s.cycleId.None? || s.requestId.None? || s.requestedAsOf.None? || s.requestedAt.None? || s.deadline.None?
    then Raised(MissingCycle)
    else Returned(Request(
      s.cycleId.value, s.requestId.value, s.attempt, s.requester, s.expectedSource, s.expectedEpoch,
      s.expectations, s.requestedAsOf.value, s.requestedAt.value, s.deadline.value, s.policyVersion))
  }

  /** Only a live-stream gap or overflow may open a fresh cycle. */
  function Resynchronize(s: State, now: int, policy: Policy): Attempt<State> {
    if s.phase != DEGRADED || (s.terminalCode != Some(RevisionGap) && s.terminalCode != Some(BufferOverflow))
    then Returned(s)
    else StartCycle(s.(phase := LIVE, accepted := None), s.expectations, now, policy)
  }

  function ScheduleRetry(s: State, now: int, policy: Policy, retryAt: Option<int>, code: Code): Attempt<Update> {
    if s.phase == STOPPED then Returned(Unchanged(s, HALTED))
    else if s.phase != WAITING && s.phase != DEGRADED then Returned(Unchanged(s, IGNORED))
    else if s.policyVersion != policy.version then Raised(PolicyMismatch)
    else if now < 0 then Raised(NegativeTime)
    else if code == ResponseTimeout && s.alertAt.Some? && now < s.alertAt.value then Returned(Unchanged(s, IGNORED))
    else
      var failed := s.accepted.Some? && s.accepted.value.failures != [];
      if failed && !(forall f :: f in s.accepted.value.failures ==> f.Retryable())
      then Returned(Unchanged(s, IGNORED))
      else if s.attempt >= policy.maximumAttempts
      then Returned(Unchanged(Exhausted(s, AttemptsExhausted), EXHAUSTED))
      else if s.startedAt.None? then Raised(MissingStart)
      else
        var requested := if failed then s.accepted.value.retryAt else retryAt;
        var alert := Max(now + policy.retryBackoff, if requested.Some? then requested.value else 0);
        if alert + policy.responseTimeout > s.startedAt.value + policy.maximumElapsed
        then Returned(Unchanged(Exhausted(s, ElapsedBudgetExhausted), EXHAUSTED))
        else Returned(Unchanged(
          s.(phase := BACKOFF, requestId := None, deadline := None, alertAt := Some(alert), terminalCode := Some(code)),
          RETRY_SCHEDULED))
  }

  function Exhausted(s: State, code: Code): State {
    s.(phase := DEGRADED, requestId := None, deadline := None, alertAt := None, terminalCode := Some(code))
  }

  function BeginRetry(s: State, now: int, policy: Policy): Attempt<Update> {
    if s.phase == STOPPED then Returned(Unchanged(s, HALTED))
    else if s.phase != BACKOFF then Returned(Unchanged(s, IGNORED))
    else if s.policyVersion != policy.version then Raised(PolicyMismatch)
    else if now < 0 then Raised(NegativeTime)
    else if s.alertAt.None? || now < s.alertAt.value then Returned(Unchanged(s, IGNORED))
    else if s.cycleId.None? then Raised(MissingCycle)
    else Returned(Unchanged(
      s.(phase := WAITING,
         requestId := Some(RequestId(s.cycleId.value, s.attempt + 1)),
         attempt := s.attempt + 1,
         requestedAsOf := Some(now),
         requestedAt := Some(now),
         deadline := Some(now + policy.responseTimeout),
         alertAt := Some(now + policy.responseTimeout),
         terminalCode := None,
         accepted := None),
      RETRY_STARTED))
  }

  function Stop(s: State): State {
    s.(phase := STOPPED, requestId := None, deadline := None, alertAt := None, watermarks := map[], buffer := [],
       affected := {}, accepted := None)
  }

  function Conflict(s: State, calendar: Option<Id>, code: Code): Update {
    Unchanged(
      s.(phase := CONFLICT,
         affected := if calendar.Some? then s.affected + {calendar.value} else s.affected,
         terminalCode := Some(code),
         alertAt := None),
      CONFLICTED)
  }

  // Lookups

  function ExpectationFor(expectations: seq<Expectation>, calendar: Id): (r: Option<Expectation>)
    ensures r.Some? ==> r.value in expectations && r.value.calendarId == calendar
    ensures r.None? ==> forall e :: e in expectations ==> e.calendarId != calendar
  {
    if expectations == [] then None
    else if expectations[0].calendarId == calendar then Some(expectations[0])
    else ExpectationFor(expectations[1..], calendar)
  }

  function BufferedRevision(buffer: seq<Transition>, calendar: Id, revision: int): (r: Option<Transition>)
    ensures r.Some? ==> r.value in buffer && r.value.calendarId == calendar && r.value.revision == revision
    ensures r.None? ==> forall e :: e in buffer ==> !(e.calendarId == calendar && e.revision == revision)
  {
    if buffer == [] then None
    else if buffer[0].calendarId == calendar && buffer[0].revision == revision then Some(buffer[0])
    else BufferedRevision(buffer[1..], calendar, revision)
  }

  /** The buffered transitions of one calendar, in buffer order. */
  function EventsFor(buffer: seq<Transition>, calendar: Id): (r: seq<Transition>)
    ensures forall e :: e in r <==> e in buffer && e.calendarId == calendar
  {
    if buffer == [] then []
    else if buffer[0].calendarId == calendar then [buffer[0]] + EventsFor(buffer[1..], calendar)
    else EventsFor(buffer[1..], calendar)
  }

  // Transitions

  /** How an input is classified before it takes effect. */
  datatype Verdict = Leave(disposition: Disposition) | Refuse(calendar: Option<Id>, code: Code) | Overflow | Admit

  function ObserveTransition(s: State, event: Transition, policy: Policy): Attempt<Update> {
    if s.phase == STOPPED then Returned(Unchanged(s, HALTED))
    else if s.phase == CONFLICT then Returned(Unchanged(s, CONFLICTED))
    else if s.policyVersion != policy.version then Raised(PolicyMismatch)
    else Returned(ApplyTransition(s, JudgeTransition(s, event, policy), event))
  }

  function ApplyTransition(s: State, verdict: Verdict, event: Transition): Update {
    match verdict
    case Leave(disposition) => Unchanged(s, disposition)
    case Refuse(calendar, code) => Conflict(s, calendar, code)
    case Overflow => Unchanged(
      s.(phase := DEGRADED, affected := s.affected + {event.calendarId}, terminalCode := Some(BufferOverflow)),
      OVERFLOW)
    case Admit =>
      var buffered := s.(buffer := s.buffer + [event]);
      if event.calendarId !in s.watermarks || s.phase == WAITING || s.phase == BACKOFF
      then Unchanged(buffered, BUFFERED)
      else Reconcile(buffered)
  }

  function JudgeTransition(s: State, event: Transition, policy: Policy): Verdict {
    var calendar := event.calendarId;
    var expectation := ExpectationFor(s.expectations, calendar);
    if expectation.None? then Refuse(Some(calendar), UnexpectedCalendar)
    else if event.source != s.expectedSource || event.epoch != s.expectedEpoch
    then Refuse(Some(calendar), SourceIdentityConflict)
    else if event.definition != expectation.value.definition then Refuse(Some(calendar), DefinitionIdentityConflict)
    else if calendar in s.watermarks then
      var watermark := s.watermarks[calendar];
      if event.eventId == watermark.lastEventId && !TransitionMatchesState(event, watermark)
      then Refuse(Some(calendar), EventIdentityConflict)
      else if event.revision < watermark.revision then Leave(STALE)
      else if event.revision == watermark.revision then
        if TransitionMatchesState(event, watermark) then Leave(DUPLICATE)
        else Refuse(Some(calendar), RevisionIdentityConflict)
      else JudgeBuffering(s.buffer, event, policy)
    else JudgeBuffering(s.buffer, event, policy)
  }

  function JudgeBuffering(buffer: seq<Transition>, event: Transition, policy: Policy): Verdict {
    var calendar := event.calendarId;
    var existing := BufferedRevision(buffer, calendar, event.revision);
    if existing.Some? then
      if existing.value == event then Leave(DUPLICATE) else Refuse(Some(calendar), RevisionIdentityConflict)
    else if exists other :: other in buffer && other.eventId == event.eventId && other != event
    then Refuse(Some(calendar), EventIdentityConflict)
    else if |EventsFor(buffer, calendar)| >= policy.maximumPerCalendar || |buffer| >= policy.maximumTotal
    then Overflow
    else Admit
  }

  // Snapshots

  function ObserveSnapshot(s: State, response: Response, now: int): Attempt<Update>
    requires response.Valid()
  {
    match JudgeSnapshot(s, response, now)
    case Raised(e) => Raised(e)
    case Returned(verdict) => Returned(ApplySnapshot(s, verdict, response))
  }

  function ApplySnapshot(s: State, verdict: Verdict, response: Response): Update
    requires response.Valid()
  {
    match verdict
    case Leave(disposition) => Unchanged(s, disposition)
    case Refuse(calendar, code) => Conflict(s, calendar, code)
    case _ => AcceptSnapshot(s, response)
  }

  function JudgeSnapshot(s: State, response: Response, now: int): Attempt<Verdict> {
    if now < 0 then Raised(NegativeTime)
    else if s.phase == STOPPED then Returned(Leave(HALTED))
    else if s.accepted.Some? && response.requestId == s.accepted.value.requestId then
      Returned(if response == s.accepted.value then Leave(DUPLICATE) else Refuse(None, ResponseIdentityConflict))
    else if s.phase != WAITING then Returned(Leave(STALE))
    else match CurrentRequest(s)
      case Raised(e) => Raised(e)
      case Returned(request) =>
        if response.requestId != request.requestId || response.cycleId != request.cycleId then Returned(Leave(STALE))
        else if now > request.deadline || response.publishedAt > request.deadline then Returned(Leave(STALE))
        else if !Correlates(response, request) then Returned(Refuse(None, ResponseCorrelationConflict))
        else
          var mismatch := FirstDefinitionMismatch(s.expectations, response.states);
          if mismatch.Some? then Returned(Refuse(mismatch, DefinitionIdentityConflict)) else Returned(Admit)
  }

  predicate Correlates(response: Response, request: Request) {
    && response.attempt == request.attempt
    && response.requester == request.requester
    && response.source == request.expectedSource
    && response.epoch == request.expectedEpoch
    && response.policyVersion == request.policyVersion
    && response.requested == ExpectationIds(request.expectations)
    && response.requestedAsOf == request.requestedAsOf
    && response.requestedAt == request.requestedAt
    && response.deadline == request.deadline
  }

  /** The first state, in response order, whose definition is not the expected one. */
  function FirstDefinitionMismatch(expectations: seq<Expectation>, states: seq<CurrentState>): (r: Option<Id>)
    ensures r.None? ==> forall s :: s in states ==> Expectation(s.calendarId, s.definition) in expectations
    ensures r.Some? ==> exists s :: (
      s in states && s.calendarId == r.value
      && ExpectationFor(expectations, s.calendarId) != Some(Expectation(s.calendarId, s.definition)))
  {
    if states == [] then None
    else if ExpectationFor(expectations, states[0].calendarId)
         != Some(Expectation(states[0].calendarId, states[0].definition))
    then Some(states[0].calendarId)
    else FirstDefinitionMismatch(expectations, states[1..])
  }

  function ByCalendar(states: seq<CurrentState>): (m: map<Id, CurrentState>)
    requires Distinct(StateIds(states))
    ensures forall id :: id in m <==> id in StateIds(states)
    ensures forall s :: s in states ==> s.calendarId in m && m[s.calendarId] == s
    ensures forall id :: id in m ==> m[id] in states && m[id].calendarId == id
  {
    assert forall i, j :: 0 <= i < j < |states| ==> StateIds(states)[i] != StateIds(states)[j];
    map i | 0 <= i < |states| :: states[i].calendarId := states[i]
  }

  function AcceptSnapshot(s: State, response: Response): Update
    requires response.Valid()
  {
    var accepted := s.(accepted := Some(response), alertAt := None, requestId := None, deadline := None);
    if response.failures != [] then
      var hard := exists f :: f in response.failures && f.outcome == CONFLICTING;
      Unchanged(
        accepted.(
          phase := if hard then CONFLICT else DEGRADED,
          affected := set f | f in response.failures :: f.calendarId,
          terminalCode := Some(if hard then SnapshotConflict else response.failures[0].code)),
        ACCEPTED)
    else
      var reconciled := Reconcile(Install(accepted, response.states));
      if reconciled.disposition == CONFLICTED || reconciled.disposition == GAP then reconciled
      else Update(reconciled.state, ACCEPTED, reconciled.state.watermarks.Keys)
  }

  function Install(s: State, states: seq<CurrentState>): State
    requires Distinct(StateIds(states))
  {
    s.(phase := LIVE, watermarks := ByCalendar(states), affected := {}, terminalCode := None)
  }

  // Buffer reconciliation

  /** Stable insertion sort, as the program's `sorted` by revision. */
  function SortByRevision(events: seq<Transition>): (r: seq<Transition>)
    ensures |r| == |events|
    ensures forall e :: e in r <==> e in events
  {
    if events == [] then [] else InsertByRevision(events[0], SortByRevision(events[1..]))
  }

  function InsertByRevision(e: Transition, sorted: seq<Transition>): (r: seq<Transition>)
    ensures |r| == |sorted| + 1
    ensures forall x :: x in r <==> x == e || x in sorted
  {
    if sorted == [] || e.revision <= sorted[0].revision then [e] + sorted
    else [sorted[0]] + InsertByRevision(e, sorted[1..])
  }

  function SortedEvents(buffer: seq<Transition>, calendar: Id): seq<Transition> {
    SortByRevision(EventsFor(buffer, calendar))
  }

  /** Where a buffered event stands relative to a watermark. */
  datatype Place = Disputes | Behind | NextUp | Beyond

  function Placed(event: Transition, watermark: CurrentState): Place {
    if event.revision < watermark.revision then Behind
    else if event.revision == watermark.revision then
      if TransitionMatchesState(event, watermark) then Behind else Disputes
    else if event.revision == watermark.revision + 1 then NextUp
    else Beyond
  }

  /** One calendar's pass over its sorted events. */
  datatype Walk = Walked(watermark: CurrentState, retained: seq<Transition>, advanced: bool) | Clash

  /** The walk that went through a prefix first, retaining `kept`. */
  function Resume(kept: seq<Transition>, advanced: bool, rest: Walk): Walk {
    match rest
    case Clash => Clash
    case Walked(w, retained, further) => Walked(w, kept + retained, advanced || further)
  }

  function WalkEvents(events: seq<Transition>, watermark: CurrentState): Walk {
    if events == [] then Walked(watermark, [], false)
    else match Placed(events[0], watermark)
      case Disputes => Clash
      case Behind => WalkEvents(events[1..], watermark)
      case Beyond => Resume([events[0]], false, WalkEvents(events[1..], watermark))
      case NextUp => Resume([], true, WalkEvents(events[1..], StateFromTransition(events[0])))
  }

  /** The pass over all expected calendars, in expectation order. */
  datatype Pass =
    | Passed(watermarks: map<Id, CurrentState>, retained: seq<Transition>, installed: set<Id>, affected: set<Id>)
    | Clashed(calendar: Id)

  function PassCalendar(calendar: Id, buffer: seq<Transition>, pass: Pass): Pass
    requires pass.Passed?
  {
    var events := SortedEvents(buffer, calendar);
    if calendar !in pass.watermarks then pass.(retained := pass.retained + events)
    else match WalkEvents(events, pass.watermarks[calendar])
      case Clash => Clashed(calendar)
      case Walked(w, retained, advanced) => Passed(
        pass.watermarks[calendar := w],
        pass.retained + retained,
        if advanced then pass.installed + {calendar} else pass.installed,
        if retained != [] then pass.affected + {calendar} else pass.affected)
  }

  function PassCalendars(expectations: seq<Expectation>, buffer: seq<Transition>, pass: Pass): Pass
    requires pass.Passed?
    decreases |expectations|
  {
    if expectations == [] then pass
    else
      var next := PassCalendar(expectations[0].calendarId, buffer, pass);
      if next.Clashed? then next else PassCalendars(expectations[1..], buffer, next)
  }

  function FinishPass(s: State, pass: Pass): Update {
    match pass
    case Clashed(calendar) => Conflict(s, Some(calendar), RevisionIdentityConflict)
    case Passed(watermarks, retained, installed, affected) =>
      if affected != {} then Update(
        s.(phase := DEGRADED, watermarks := watermarks, buffer := retained, affected := affected,
           terminalCode := Some(RevisionGap)),
        GAP, installed)
      else Update(
        s.(phase := LIVE, watermarks := watermarks, buffer := retained, affected := {}, terminalCode := None),
        if installed != {} then APPLIED else DUPLICATE, installed)
  }

  function Reconcile(s: State): Update {
    FinishPass(s, PassCalendars(s.expectations, s.buffer, Passed(s.watermarks, [], {}, {})))
  }
}
