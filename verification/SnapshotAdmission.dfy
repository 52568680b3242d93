/** Which snapshot requests the producer admits, and what its request cache keeps whatever it is sent. */
module SnapshotAdmission {
  import opened Prelude
  import opened CalendarMessages
  import opened CalendarProducer

  /** The requester's cycle that has not expired when the request is received. */
  predicate Running(p: State, q: Request, received: int) {
    q.requester in p.cycles && received <= p.cycles[q.requester].expiresAt
  }

  predicate Remembered(p: State, q: Request, received: int) {
    Running(p, q, received) && exists a :: a in p.cycles[q.requester].attempts && a.request.requestId == q.requestId
  }

  function Last(cycle: SnapshotCycle): int {
    if cycle.attempts == [] then 0 else cycle.attempts[|cycle.attempts| - 1].request.attempt
  }

  /** The request opens a cycle, or is the very next attempt of the running one and within its budget. */
  predicate Joins(config: Config, p: State, q: Request, received: int) {
    Running(p, q, received) ==>
      var cycle := p.cycles[q.requester];
      if cycle.cycleId == q.cycleId then
        && !cycle.terminal && q.attempt == Last(cycle) + 1
        && q.deadline <= cycle.startedAt + config.maximumElapsed
      else cycle.terminal
  }

  predicate WithinPolicy(config: Config, q: Request) {
    q.attempt <= config.maximumAttempts && q.deadline - q.requestedAt <= config.responseTimeout
  }

  predicate ForThisProducer(config: Config, q: Request) {
    && q.expectedSource == config.source && q.expectedEpoch == config.epoch
    && q.policyVersion == config.policyVersion
  }

  /** Exactly when a request is processed, replayed or turned away, and for what reason. */
  lemma AdmissionIff(config: Config, p: State, q: Request, received: int)
    ensures var admission := AdmitRequest(config, p, q, received).1;
      && (admission == Reject(RequesterNotAllowed) <==> q.requester !in config.allowed)
      && (admission.Replay? ==> exists a ::
            && q.requester in p.cycles && a in p.cycles[q.requester].attempts
            && a.request == q && a.response == admission.response)
      && (admission == Process <==>
            && q.requester in config.allowed && !Remembered(p, q, received) && WithinPolicy(config, q)
            && Joins(config, p, q, received) && ForThisProducer(config, q)
            && |q.expectations| <= config.maximumCalendars)
      && (admission == Reject(RequestPopulationExceeded) <==>
            && q.requester in config.allowed && !Remembered(p, q, received) && WithinPolicy(config, q)
            && Joins(config, p, q, received) && ForThisProducer(config, q)
            && |q.expectations| > config.maximumCalendars)
      && (admission.Reject? ==>
            admission.code in {RequesterNotAllowed, RequestPopulationExceeded, RequestIdentityConflict})
      && (admission.Replay? ==> q.requester in config.allowed && Remembered(p, q, received))
      && (q.requester in config.allowed && Remembered(p, q, received) ==>
            admission.Replay? || admission == Reject(RequestIdentityConflict))
  {
  }

  // The cache

  /** A remembered cycle holds consecutive attempts of its own, no more than allowed, and does not
      outlive its elapsed budget; once it is full it is finished. */
  ghost predicate Bounded(config: Config, cycle: SnapshotCycle) {
    && |cycle.attempts| <= config.maximumAttempts
    && cycle.expiresAt <= cycle.startedAt + config.maximumElapsed
    && (forall i :: 0 <= i < |cycle.attempts| ==>
          && cycle.attempts[i].request.cycleId == cycle.cycleId
          && cycle.attempts[i].request.attempt == cycle.attempts[0].request.attempt + i)
    && (cycle.attempts != [] ==> 1 <= cycle.attempts[0].request.attempt)
    && (|cycle.attempts| == config.maximumAttempts ==> cycle.terminal)
  }

  ghost predicate AllBounded(config: Config, p: State) {
    forall r :: r in p.cycles ==> Bounded(config, p.cycles[r])
  }

  /** The rules of the delivery policy. */
  predicate Sensible(config: Config) {
    0 < config.maximumAttempts && config.responseTimeout <= config.maximumElapsed
  }

  lemma JoiningKeepsBounds(config: Config, live: Option<SnapshotCycle>, q: Request)
    requires Sensible(config) && q.deadline - q.requestedAt <= config.responseTimeout
    requires live.Some? ==> Bounded(config, live.value)
    ensures var joined := JoinCycle(config, live, q);
      joined.Some? ==>
        && Bounded(config, joined.value) && joined.value.cycleId == q.cycleId && !joined.value.terminal
        && (joined.value.attempts != [] ==> q.attempt == Last(joined.value) + 1)
  {
  }

  lemma AdmittingKeepsBounds(config: Config, p: State, q: Request, received: int)
    requires AllBounded(config, p) && Sensible(config) && 1 <= q.attempt
    ensures var (r, admission) := AdmitRequest(config, p, q, received);
      && AllBounded(config, r)
      && (admission == Process ==>
            && q.requester in r.cycles && r.cycles[q.requester].cycleId == q.cycleId
            && !r.cycles[q.requester].terminal && (r.cycles[q.requester].attempts != [] ==>
                 q.attempt == Last(r.cycles[q.requester]) + 1))
  {
    hide JoinCycle, Bounded, Last;
    if q.deadline - q.requestedAt <= config.responseTimeout {
      JoiningKeepsBounds(config, LiveCycle(p, q.requester, received), q);
    }
  }

  lemma AppendingKeepsBounds(config: Config, cycle: SnapshotCycle, q: Request, response: Response)
    requires Bounded(config, cycle) && Sensible(config) && 1 <= q.attempt && cycle.cycleId == q.cycleId
    requires |cycle.attempts| < config.maximumAttempts
    requires cycle.attempts != [] ==> q.attempt == Last(cycle) + 1
    ensures Bounded(config, cycle.(attempts := cycle.attempts + [CachedAttempt(q, response)],
                                   terminal := q.attempt >= config.maximumAttempts))
  {
  }

  lemma CachingKeepsBounds(config: Config, p: State, q: Request, response: Response)
    requires AllBounded(config, p) && Sensible(config) && 1 <= q.attempt
    requires q.requester in p.cycles && p.cycles[q.requester].cycleId == q.cycleId ==>
      p.cycles[q.requester].attempts != [] ==> q.attempt == Last(p.cycles[q.requester]) + 1
    ensures AllBounded(config, CacheResponse(config, p, q, response))
  {
    if q.requester in p.cycles && p.cycles[q.requester].cycleId == q.cycleId {
      var cycle := p.cycles[q.requester];
      if |cycle.attempts| < config.maximumAttempts { AppendingKeepsBounds(config, cycle, q, response); }
    }
  }

  lemma HandlingKeepsBounds(config: Config, p: State, q: Request, clock: Clock)
    requires p.Paired() && AllBounded(config, p) && Sensible(config) && 1 <= q.attempt
    ensures AllBounded(config, HandleRequest(config, p, q, clock).state)
  {
    hide AdmitRequest, AllBounded, Answer, Rejection;
    var (r, admission) := AdmitRequest(config, p, q, clock.received);
    AdmittingKeepsBounds(config, p, q, clock.received);
    match admission
    case Process =>
      AnswerKeepsCycles(config, r, q, clock);
      var a := Answer(config, r, q, clock);
      SameCyclesSameBounds(config, r, a.state);
      if a.response.Some? { CachingKeepsBounds(config, a.state, q, a.response.value); }
    case Reject(code) =>
      var response := Rejection(config, q, code, clock);
      if response.Some? && q.requester in r.cycles && r.cycles[q.requester].attempts == [] {
        CachingKeepsBounds(config, r, q, response.value);
      }
    case Replay(_) =>
  }

  lemma SameCyclesSameBounds(config: Config, p: State, q: State)
    requires AllBounded(config, p) && q.cycles == p.cycles
    ensures AllBounded(config, q)
  {
  }

  /** What a producer is sent, one after the other. */
  datatype Arrival = Arrival(request: Request, clock: Clock)

  function HandleAll(config: Config, p: State, arrivals: seq<Arrival>): (r: State)
    requires p.Paired()
    ensures r.Paired()
    decreases |arrivals|
  {
    if arrivals == [] then p
    else HandleAll(config, HandleRequest(config, p, arrivals[0].request, arrivals[0].clock).state, arrivals[1..])
  }

  /** Whatever requests arrive in whatever order, the cache stays bounded: per requester one cycle of
      consecutive attempts, no more than allowed and none beyond the cycle's elapsed budget. */
  lemma {:induction false} CacheStaysBounded(config: Config, p: State, arrivals: seq<Arrival>)
    requires p.Paired() && AllBounded(config, p) && Sensible(config)
    requires forall a :: a in arrivals ==> 1 <= a.request.attempt
    ensures AllBounded(config, HandleAll(config, p, arrivals))
    decreases |arrivals|
  {
    if arrivals != [] {
      assert arrivals[0] in arrivals;
      HandlingKeepsBounds(config, p, arrivals[0].request, arrivals[0].clock);
      CacheStaysBounded(config, HandleRequest(config, p, arrivals[0].request, arrivals[0].clock).state, arrivals[1..]);
    }
  }
}
