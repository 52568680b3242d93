/** The producer of calendar current-state delivery: it numbers revisions, publishes transitions and
    answers snapshot requests from a cache of recent attempts. */
module CalendarProducer {
  import opened Prelude
  import opened CalendarMessages

  datatype Snapshot = Snapshot(scheduleVersion: Id, facts: Facts)

  datatype Evaluation = Evaluated(snapshot: Snapshot) | BoundaryUnavailable | EvaluationBroken

  /** Everything the producer is configured with. `evaluate` stands for the canonical calendars. */
  datatype Config = Config(
    source: Id,
    epoch: Id,
    calendars: map<Id, Definition>,
    allowed: set<Id>,
    maximumCalendars: int,
    policyVersion: int,
    maximumAttempts: int,
    responseTimeout: int,
    maximumElapsed: int,
    retryBackoff: int,
    evaluate: (Id, int) -> Evaluation)

  datatype CachedAttempt = CachedAttempt(request: Request, response: Response)

  datatype SnapshotCycle = SnapshotCycle(
    cycleId: CycleId, startedAt: int, expiresAt: int, attempts: seq<CachedAttempt>, terminal: bool)

  datatype State = State(
    ready: bool,
    snapshots: map<Id, Snapshot>,
    transitions: map<Id, Transition>,
    revisions: map<Id, int>,
    cycles: map<Id, SnapshotCycle>)
  {
    /** Exactly the evaluated calendars have a snapshot and a current transition. */
    predicate Paired() { snapshots.Keys == transitions.Keys }

    function Revision(calendar: Id): int { if calendar in revisions then revisions[calendar] else 0 }
  }

  /** The clock readings of one request, in the order they are taken. */
  datatype Clock = Clock(received: int, cut: int, stamp: int, floor: int, generated: int, published: int)

  // Calendar state

  datatype CalendarUpdate = Held(state: State, transition: Transition, published: bool) | Failed(code: Code)

  function NewTransition(
      config: Config, p: State, calendar: Id, snapshot: Snapshot, evaluatedAsOf: int, publishedAt: int): Transition
    requires calendar in config.calendars
  {
    var revision := p.Revision(calendar) + 1;
    Transition(
      EventId(config.epoch, calendar, revision), config.source, config.epoch, calendar, snapshot.scheduleVersion,
      config.calendars[calendar], snapshot.facts,
      if calendar in p.snapshots then Some(p.snapshots[calendar].facts) else None,
      evaluatedAsOf, publishedAt, revision, if revision > 1 then Some(revision - 1) else None)
  }

  function UpdateCalendar(config: Config, p: State, calendar: Id, evaluatedAsOf: int, publishedAt: int): CalendarUpdate
    requires calendar in config.calendars && p.Paired()
  {
    match config.evaluate(calendar, evaluatedAsOf)
    case BoundaryUnavailable => Failed(StateEffectiveBoundaryUnavailable)
    case EvaluationBroken => Failed(CurrentStateEvaluationFailed)
    case Evaluated(snapshot) =>
      if calendar in p.snapshots && p.snapshots[calendar].facts == snapshot.facts then
        Held(p.(snapshots := p.snapshots[calendar := snapshot]), p.transitions[calendar], false)
      else
        var event := NewTransition(config, p, calendar, snapshot, evaluatedAsOf, publishedAt);
        if !event.Valid() then Failed(CurrentStateEvaluationFailed)
        else Held(
          p.(snapshots := p.snapshots[calendar := snapshot],
             transitions := p.transitions[calendar := event],
             revisions := p.revisions[calendar := event.revision]),
          event, true)
  }

  // Snapshot evaluation

  /** An evaluation over a request's calendars; `raised` marks an exception that escapes the handler. */
  datatype Sweep = Sweep(
    state: State, published: seq<Transition>, states: seq<CurrentState>, failures: seq<Failure>, raised: bool)

  function SweepOne(config: Config, sweep: Sweep, expectation: Expectation, cut: int, stamp: int): (r: Sweep)
    requires sweep.state.Paired()
    ensures r.state.Paired()
  {
    var id := expectation.calendarId;
    if id !in config.calendars then
      sweep.(failures := sweep.failures + [Failure(id, REJECTED, UnknownCalendarId, None)])
    else if expectation.definition != config.calendars[id] then
      sweep.(failures := sweep.failures + [Failure(id, CONFLICTING, DefinitionIdentityConflict, None)])
    else match UpdateCalendar(config, sweep.state, id, cut, stamp)
      case Failed(code) => sweep.(failures := sweep.failures + [Failure(id, EVALUATION_FAILED, code, None)])
      case Held(state, transition, published) =>
        var current := CalendarCurrentState(transition, cut);
        var next := sweep.(state := state,
                           published := if published then sweep.published + [transition] else sweep.published);
        if current.Valid() then next.(states := sweep.states + [current]) else next.(raised := true)
  }

  function SweepAll(config: Config, sweep: Sweep, expectations: seq<Expectation>, cut: int, stamp: int): (r: Sweep)
    requires sweep.state.Paired()
    ensures r.state.Paired()
    decreases |expectations|
  {
    if expectations == [] || sweep.raised then sweep
    else SweepAll(config, SweepOne(config, sweep, expectations[0], cut, stamp), expectations[1..], cut, stamp)
  }

  // Responses

  function Failures(request: Request, outcome: FailureOutcome, code: Code, retryAt: Option<int>): seq<Failure> {
    seq(|request.expectations|,
        i requires 0 <= i < |request.expectations| =>
          Failure(request.expectations[i].calendarId, outcome, code, retryAt))
  }

  /** The response, or nothing when its constructor rejects it. A late answer turns into an expiry. */
  function BuildResponse(
      config: Config, request: Request, received: int, evaluatedAsOf: int, states: seq<CurrentState>,
      failures: seq<Failure>, floor: int, clock: Clock): (r: Option<Response>)
    ensures r.Some? ==>
      && r.value.Valid() && r.value.requestId == request.requestId && r.value.cycleId == request.cycleId
      && r.value.requester == request.requester && (r.value.states == [] || r.value.states == states)
  {
    var generated := Max(Max(evaluatedAsOf, floor), clock.generated);
    var published := Max(generated, clock.published);
    var late := published > request.deadline
      && (states != [] || failures == [] || exists f :: f in failures && f.code != RequestDeadlineExpired);
    var shownStates := if late then [] else states;
    var shownFailures := if late then Failures(request, REJECTED, RequestDeadlineExpired, None) else failures;
    var response := Response(
      request.cycleId, request.requestId, request.attempt, request.requester, config.source, config.epoch,
      ExpectationIds(request.expectations), shownStates, shownFailures, request.requestedAsOf, request.requestedAt,
      request.deadline, received, evaluatedAsOf, generated, published, config.policyVersion,
      EarliestRetry(shownFailures));
    if response.Valid() then Some(response) else None
  }

  function Rejection(config: Config, request: Request, code: Code, clock: Clock): Option<Response> {
    BuildResponse(config, request, clock.received, clock.cut, [], Failures(request, REJECTED, code, None), 0, clock)
  }

  function NotReady(config: Config, request: Request, clock: Clock): Option<Response> {
    var retryAt := clock.floor + config.retryBackoff;
    if retryAt > request.deadline then Rejection(config, request, RequestDeadlineExpired, clock)
    else BuildResponse(
      config, request, clock.received, clock.cut, [],
      Failures(request, NOT_READY, SourceNotReady, Some(retryAt)), clock.floor, clock)
  }

  // Admission

  datatype Admission = Process | Replay(response: Response) | Reject(code: Code)

  function FindAttempt(attempts: seq<CachedAttempt>, id: RequestId): (r: Option<CachedAttempt>)
    ensures r.Some? ==> r.value in attempts && r.value.request.requestId == id
    ensures r.None? ==> forall a :: a in attempts ==> a.request.requestId != id
  {
    if attempts == [] then None
    else if attempts[0].request.requestId == id then Some(attempts[0])
    else FindAttempt(attempts[1..], id)
  }

  /** The requester's cycle, unless it has expired. */
  function LiveCycle(p: State, requester: Id, received: int): Option<SnapshotCycle> {
    if requester in p.cycles && received <= p.cycles[requester].expiresAt then Some(p.cycles[requester]) else None
  }

  function WithCycle(p: State, requester: Id, cycle: Option<SnapshotCycle>): State {
    p.(cycles := if cycle.Some? then p.cycles[requester := cycle.value] else p.cycles - {requester})
  }

  function AdmitRequest(config: Config, p: State, request: Request, received: int): (r: (State, Admission))
    ensures r.0 == p.(cycles := r.0.cycles)
  {
    if request.requester !in config.allowed then (p, Reject(RequesterNotAllowed))
    else
      var live := LiveCycle(p, request.requester, received);
      var q := WithCycle(p, request.requester, live);
      var cached := if live.Some? then FindAttempt(live.value.attempts, request.requestId) else None;
      if cached.Some? then
        (q, if cached.value.request == request then Replay(cached.value.response) else Reject(RequestIdentityConflict))
      else if request.attempt > config.maximumAttempts then (q, Reject(RequestIdentityConflict))
      else if request.deadline - request.requestedAt > config.responseTimeout
      then (q, Reject(RequestIdentityConflict))
      else match JoinCycle(config, live, request)
        case None => (q, Reject(RequestIdentityConflict))
        case Some(cycle) =>
          (WithCycle(p, request.requester, Some(cycle)),
           if request.expectedSource != config.source || request.expectedEpoch != config.epoch
              || request.policyVersion != config.policyVersion
           then Reject(RequestIdentityConflict)
           else if |request.expectations| > config.maximumCalendars then Reject(RequestPopulationExceeded)
           else Process)
  }

  /** The cycle a new attempt belongs to: a fresh one, the requester's running one, or none. */
  function JoinCycle(config: Config, live: Option<SnapshotCycle>, request: Request): Option<SnapshotCycle> {
    var begun := SnapshotCycle(request.cycleId, request.requestedAt, request.deadline, [], false);
    if live.None? then Some(begun)
    else
      var cycle := live.value;
      if cycle.cycleId != request.cycleId then if cycle.terminal then Some(begun) else None
      else
        var last := if cycle.attempts == [] then 0 else cycle.attempts[|cycle.attempts| - 1].request.attempt;
        if cycle.terminal || request.attempt != last + 1 then None
        else if request.deadline > cycle.startedAt + config.maximumElapsed then None
        else Some(cycle.(expiresAt := Max(cycle.expiresAt, request.deadline)))
  }

  function CacheResponse(config: Config, p: State, request: Request, response: Response): (q: State)
    ensures q == p.(cycles := q.cycles)
  {
    if request.requester !in p.cycles || p.cycles[request.requester].cycleId != request.cycleId then p
    else
      var cycle := p.cycles[request.requester];
      WithCycle(p, request.requester, Some(
        if |cycle.attempts| >= config.maximumAttempts then cycle.(terminal := true)
        else cycle.(attempts := cycle.attempts + [CachedAttempt(request, response)],
                    terminal := request.attempt >= config.maximumAttempts)))
  }

  /** Some cycle still holds this answer. */
  ghost predicate Cached(p: State, response: Response) {
    exists c, a :: c in p.cycles && a in p.cycles[c].attempts && a.response == response
  }

  // Requests

  datatype Handled = Handled(state: State, published: seq<Transition>, response: Option<Response>)

  /** The rejection of an inadmissible request is cached only as the first answer of its own cycle. */
  function CacheRejection(config: Config, p: State, request: Request, response: Response): State {
    if request.requester in p.cycles && p.cycles[request.requester].cycleId == request.cycleId
       && p.cycles[request.requester].attempts == []
    then CacheResponse(config, p, request, response)
    else p
  }

  function Settle(config: Config, request: Request, handled: Handled): Handled {
    if handled.response.None? then handled
    else handled.(state := CacheResponse(config, handled.state, request, handled.response.value))
  }

  function Answer(config: Config, q: State, request: Request, clock: Clock): (h: Handled)
    requires q.Paired()
    ensures h.state.Paired()
  {
    if clock.received > request.deadline
    then Handled(q, [], Rejection(config, request, RequestDeadlineExpired, clock))
    else if !q.ready then Handled(q, [], NotReady(config, request, clock))
    else
      var sweep := SweepAll(config, Sweep(q, [], [], [], false), request.expectations, clock.cut, clock.stamp);
      Handled(
        sweep.state, sweep.published,
        if sweep.raised then None
        else BuildResponse(config, request, clock.received, clock.cut, sweep.states, sweep.failures, 0, clock))
  }

  function HandleRequest(config: Config, p: State, request: Request, clock: Clock): (h: Handled)
    requires p.Paired()
    ensures h.state.Paired()
  {
    var (q, admission) := AdmitRequest(config, p, request, clock.received);
    match admission
    case Replay(response) => Handled(q, [], Some(response))
    case Reject(code) =>
      var response := Rejection(config, request, code, clock);
      Handled(if response.Some? then CacheRejection(config, q, request, response.value) else q, [], response)
    case Process => Settle(config, request, Answer(config, q, request, clock))
  }

  lemma {:induction false} SweepsKeepCycles(
      config: Config, sweep: Sweep, expectations: seq<Expectation>, cut: int, stamp: int)
    requires sweep.state.Paired()
    ensures SweepAll(config, sweep, expectations, cut, stamp).state.cycles == sweep.state.cycles
    decreases |expectations|
  {
    if expectations != [] && !sweep.raised {
      SweepsKeepCycles(config, SweepOne(config, sweep, expectations[0], cut, stamp), expectations[1..], cut, stamp);
    }
  }

  /** Evaluating calendars never touches the request cache. */
  lemma AnswerKeepsCycles(config: Config, p: State, request: Request, clock: Clock)
    requires p.Paired()
    ensures Answer(config, p, request, clock).state.cycles == p.cycles
  {
    SweepsKeepCycles(config, Sweep(p, [], [], [], false), request.expectations, clock.cut, clock.stamp);
  }

  lemma AnswerCarriesId(config: Config, p: State, request: Request, clock: Clock)
    requires p.Paired()
    ensures var r := Answer(config, p, request, clock).response; r.Some? ==> r.value.requestId == request.requestId
  {
  }

  /** The producer as an object; `transitionsSent` and `responsesSent` record what it puts on the bus. */
  class SessionStateActor {
    const config: Config
    var ready: bool
    var snapshots: map<Id, Snapshot>
    var currentTransitions: map<Id, Transition>
    var revisions: map<Id, int>
    var snapshotCycles: map<Id, SnapshotCycle>
    var transitionsSent: seq<Transition>
    var responsesSent: seq<Response>

    ghost function Model(): State
      reads this
    {
      State(ready, snapshots, currentTransitions, revisions, snapshotCycles)
    }

    constructor (config: Config)
      ensures this.config == config && Model() == State(false, map[], map[], map[], map[])
      ensures transitionsSent == [] && responsesSent == []
    {
      this.config := config;
      ready, snapshots, currentTransitions, revisions, snapshotCycles := false, map[], map[], map[], map[];
      transitionsSent, responsesSent := [], [];
    }

    method UpdateCalendarState(calendar: Id, evaluatedAsOf: int, publishedAt: int) returns (update: CalendarUpdate)
      requires calendar in config.calendars && Model().Paired()
      modifies this`snapshots, this`currentTransitions, this`revisions, this`transitionsSent
      ensures update == UpdateCalendar(config, old(Model()), calendar, evaluatedAsOf, publishedAt)
      ensures Model() == if update.Held? then update.state else old(Model())
      ensures Model().Paired()
      ensures transitionsSent == old(transitionsSent)
        + (if update.Held? && update.published then [update.transition] else [])
    {
      match config.evaluate(calendar, evaluatedAsOf) {
        case BoundaryUnavailable =>
          return Failed(StateEffectiveBoundaryUnavailable);
        case EvaluationBroken =>
          return Failed(CurrentStateEvaluationFailed);
        case Evaluated(snapshot) =>
          if calendar in snapshots && snapshots[calendar].facts == snapshot.facts {
            snapshots := snapshots[calendar := snapshot];
            return Held(State(ready, snapshots, currentTransitions, revisions, snapshotCycles),
                        currentTransitions[calendar], false);
          }
          var revision := (if calendar in revisions then revisions[calendar] else 0) + 1;
          var previous := if calendar in snapshots then Some(snapshots[calendar].facts) else None;
          var event := Transition(
            EventId(config.epoch, calendar, revision), config.source, config.epoch, calendar,
            snapshot.scheduleVersion, config.calendars[calendar], snapshot.facts, previous, evaluatedAsOf,
            publishedAt, revision, if revision > 1 then Some(revision - 1) else None);
          if !event.Valid() {
            return Failed(CurrentStateEvaluationFailed);
          }
          revisions := revisions[calendar := revision];
          snapshots := snapshots[calendar := snapshot];
          currentTransitions := currentTransitions[calendar := event];
          transitionsSent := transitionsSent + [event];
          return Held(State(ready, snapshots, currentTransitions, revisions, snapshotCycles), event, true);
      }
    }

    method EvaluateSnapshotRequest(request: Request, clock: Clock) returns (sweep: Sweep)
      requires Model().Paired()
      modifies this`snapshots, this`currentTransitions, this`revisions, this`transitionsSent
      ensures sweep == SweepAll(config, Sweep(old(Model()), [], [], [], false), request.expectations,
                                clock.cut, clock.stamp)
      ensures Model() == sweep.state && Model().Paired()
      ensures transitionsSent == old(transitionsSent) + sweep.published
    {
      ghost var start := Sweep(Model(), [], [], [], false);
      var published, states, failures := [], [], [];
      var i := 0;
      while i < |request.expectations|
        invariant 0 <= i <= |request.expectations| && Model().Paired()
        invariant SweepAll(config, Sweep(Model(), published, states, failures, false), request.expectations[i..],
                           clock.cut, clock.stamp)
               == SweepAll(config, start, request.expectations, clock.cut, clock.stamp)
        invariant transitionsSent == old(transitionsSent) + published
      {
        var expectation := request.expectations[i];
        assert request.expectations[i..][0] == expectation
          && request.expectations[i..][1..] == request.expectations[i + 1..];
        var id := expectation.calendarId;
        if id !in config.calendars {
          failures := failures + [Failure(id, REJECTED, UnknownCalendarId, None)];
        } else if expectation.definition != config.calendars[id] {
          failures := failures + [Failure(id, CONFLICTING, DefinitionIdentityConflict, None)];
        } else {
          var update := UpdateCalendarState(id, clock.cut, clock.stamp);
          if update.Failed? {
            failures := failures + [Failure(id, EVALUATION_FAILED, update.code, None)];
          } else {
            published := if update.published then published + [update.transition] else published;
            var current := CalendarCurrentState(update.transition, clock.cut);
            if !current.Valid() {
              return Sweep(State(ready, snapshots, currentTransitions, revisions, snapshotCycles),
                           published, states, failures, true);
            }
            states := states + [current];
          }
        }
        i := i + 1;
      }
      return Sweep(State(ready, snapshots, currentTransitions, revisions, snapshotCycles),
                   published, states, failures, false);
    }

    method AdmitSnapshotRequest(request: Request, received: int) returns (admission: Admission)
      modifies this`snapshotCycles
      ensures (Model(), admission) == AdmitRequest(config, old(Model()), request, received)
    {
      var requester := request.requester;
      if requester !in config.allowed {
        return Reject(RequesterNotAllowed);
      }
      if requester in snapshotCycles && received > snapshotCycles[requester].expiresAt {
        snapshotCycles := snapshotCycles - {requester};
      }
      if requester in snapshotCycles {
        assert snapshotCycles == old(snapshotCycles)[requester := snapshotCycles[requester]];
        var cached := FindAttempt(snapshotCycles[requester].attempts, request.requestId);
        if cached.Some? {
          return if cached.value.request == request then Replay(cached.value.response)
                 else Reject(RequestIdentityConflict);
        }
      } else {
        assert snapshotCycles == old(snapshotCycles) - {requester};
      }
      if request.attempt > config.maximumAttempts
         || request.deadline - request.requestedAt > config.responseTimeout {
        return Reject(RequestIdentityConflict);
      }
      var begun := SnapshotCycle(request.cycleId, request.requestedAt, request.deadline, [], false);
      if requester !in snapshotCycles {
        snapshotCycles := snapshotCycles[requester := begun];
      } else {
        var cycle := snapshotCycles[requester];
        if cycle.cycleId != request.cycleId {
          if !cycle.terminal {
            return Reject(RequestIdentityConflict);
          }
          snapshotCycles := snapshotCycles[requester := begun];
        } else {
          var last := if cycle.attempts == [] then 0 else cycle.attempts[|cycle.attempts| - 1].request.attempt;
          if cycle.terminal || request.attempt != last + 1
             || request.deadline > cycle.startedAt + config.maximumElapsed {
            return Reject(RequestIdentityConflict);
          }
          snapshotCycles := snapshotCycles[requester := cycle.(expiresAt := Max(cycle.expiresAt, request.deadline))];
        }
      }
      assert snapshotCycles == old(snapshotCycles)[requester := snapshotCycles[requester]];
      if request.expectedSource != config.source || request.expectedEpoch != config.epoch
         || request.policyVersion != config.policyVersion {
        return Reject(RequestIdentityConflict);
      }
      if |request.expectations| > config.maximumCalendars {
        return Reject(RequestPopulationExceeded);
      }
      return Process;
    }

    method CacheSnapshotResponse(request: Request, response: Response)
      modifies this`snapshotCycles
      ensures Model() == CacheResponse(config, old(Model()), request, response)
    {
      if request.requester in snapshotCycles && snapshotCycles[request.requester].cycleId == request.cycleId {
        var cycle := snapshotCycles[request.requester];
        if |cycle.attempts| >= config.maximumAttempts {
          cycle := cycle.(terminal := true);
        } else {
          cycle := cycle.(attempts := cycle.attempts + [CachedAttempt(request, response)],
                          terminal := request.attempt >= config.maximumAttempts);
        }
        snapshotCycles := snapshotCycles[request.requester := cycle];
      }
    }

    method PublishCurrentState(request: Request, clock: Clock)
      requires Model().Paired()
      modifies this
      ensures var h := HandleRequest(config, old(Model()), request, clock);
        && Model() == h.state && Model().Paired()
        && transitionsSent == old(transitionsSent) + h.published
        && responsesSent == old(responsesSent) + (if h.response.Some? then [h.response.value] else [])
    {
      var admission := AdmitSnapshotRequest(request, clock.received);
      match admission {
        case Replay(response) =>
          responsesSent := responsesSent + [response];
        case Reject(code) =>
          var response := Rejection(config, request, code, clock);
          if response.Some? {
            if request.requester in snapshotCycles && snapshotCycles[request.requester].cycleId == request.cycleId
               && snapshotCycles[request.requester].attempts == [] {
              CacheSnapshotResponse(request, response.value);
            }
            responsesSent := responsesSent + [response.value];
          }
        case Process =>
          var response: Option<Response>;
          if clock.received > request.deadline {
            response := Rejection(config, request, RequestDeadlineExpired, clock);
          } else if !ready {
            response := NotReady(config, request, clock);
          } else {
            var sweep := EvaluateSnapshotRequest(request, clock);
            response := if sweep.raised then None
              else BuildResponse(config, request, clock.received, clock.cut, sweep.states, sweep.failures, 0, clock);
          }
          if response.Some? {
            CacheSnapshotResponse(request, response.value);
            responsesSent := responsesSent + [response.value];
          }
      }
    }
  }
}
