/** One snapshot cycle of one consumer against the producer's admission rules, in real time. Requests
    travel first-in first-out and may be lost; answers may be lost, repeated or reordered. */
module RetryAdmission {
  import opened Prelude
  import opened CalendarMessages
  import opened SessionStateDelivery
  import opened BufferReconciliation
  import opened DeliveryInvariant
  import opened ConsumerEffects
  import opened SnapshotAdmission
  import P = CalendarProducer

  /** `over` marks that the consumer has left the cycle for a fresh one. */
  datatype Link = Link(
    now: int, consumer: State, producer: P.State, queue: seq<Request>, answers: set<Response>, over: bool)

  datatype Move =
    | Elapse(span: nat)
    | Lose(index: nat)
    | Serve(clock: P.Clock)
    | Receive(response: Response)
    | Timeout
    | Alert
    | Hear(event: Transition)
    | Elsewhere(producer: P.State)

  /** Both sides use one policy and the consumer knows whom it asks. */
  ghost predicate SamePolicy(config: P.Config, policy: Policy, s: State) {
    && config.policyVersion == policy.version == s.policyVersion
    && config.responseTimeout == policy.responseTimeout
    && config.maximumAttempts == policy.maximumAttempts
    && config.maximumElapsed == policy.maximumElapsed
    && s.expectedSource == config.source && s.expectedEpoch == config.epoch
  }

  /** The consumer's actor asks for a retry whenever an observed response leaves it degraded. */
  function AfterResponse(s: State, response: Response, now: int, policy: Policy): State
    requires response.Valid()
  {
    var t := StateAfter(s, ObserveSnapshot(s, response, now));
    if t.phase != DEGRADED then t
    else StateAfter(t, ScheduleRetry(
      t, now, policy, None, if t.terminalCode.Some? then t.terminalCode.value else SnapshotConflict))
  }

  ghost function Step(config: P.Config, policy: Policy, link: Link, move: Move): (next: Link)
    requires link.producer.Paired()
    ensures next.producer.Paired()
  {
    var s := link.consumer;
    if link.over then link
    else match move
      case Elapse(span) =>
        // a retry alert fires on time
        if s.phase == BACKOFF && s.alertAt.Some? && link.now + span > s.alertAt.value then link
        else link.(now := link.now + span)
      case Lose(index) =>
        if index >= |link.queue| then link
        else link.(queue := link.queue[..index] + link.queue[index + 1..])
      case Serve(clock) =>
        if link.queue == [] then link
        else
          var h := P.HandleRequest(config, link.producer, link.queue[0], clock.(received := link.now));
          link.(producer := h.state, queue := link.queue[1..],
                answers := link.answers + (if h.response.Some? then {h.response.value} else {}))
      case Receive(response) =>
        if response !in link.answers || !response.Valid() then link
        else link.(consumer := AfterResponse(s, response, link.now, policy))
      case Timeout =>
        if s.phase != WAITING then link
        else link.(consumer := StateAfter(s, ScheduleRetry(s, link.now, policy, None, ResponseTimeout)))
      case Alert =>
        if s.phase != BACKOFF then link
        else
          var t := StateAfter(s, BeginRetry(s, link.now, policy));
          link.(consumer := t,
                queue := if t.phase == WAITING && CurrentRequest(t).Returned? then link.queue + [CurrentRequest(t).value]
                         else link.queue)
      case Hear(event) =>
        var observed := ObserveTransition(s, event, policy);
        if observed.Raised? then link
        else link.(consumer := observed.value.state, over := observed.value.disposition in {GAP, OVERFLOW})
      case Elsewhere(producer) =>
        // other requesters and the producer's own timer
        if producer.Paired() && SameEntry(s.requester, link.producer, producer) then link.(producer := producer) else link
  }

  ghost predicate SameEntry(requester: Id, p: P.State, q: P.State) {
    && (requester in p.cycles <==> requester in q.cycles)
    && (requester in p.cycles ==> p.cycles[requester] == q.cycles[requester])
  }

  // The invariant

  ghost function Entry(requester: Id, p: P.State): Option<P.SnapshotCycle> {
    if requester in p.cycles then Some(p.cycles[requester]) else None
  }

  /** The producer's entry is a leftover that had expired when the cycle began. */
  ghost predicate Leftover(entry: P.SnapshotCycle, cycle: CycleId, begun: int) {
    entry.cycleId != cycle && entry.expiresAt < begun
  }

  /** The producer's entry belongs to this cycle. */
  ghost predicate Joined(entry: P.SnapshotCycle, cycle: CycleId, begun: int, maximumAttempts: int) {
    && entry.cycleId == cycle && begun <= entry.startedAt
    && |entry.attempts| <= Last(entry)
    && (entry.terminal ==> maximumAttempts <= Last(entry))
    && forall a :: a in entry.attempts ==>
         a.request.requestId == RequestId(cycle, a.request.attempt) && a.request.attempt <= Last(entry)
  }

  ghost predicate EntryInv(entry: Option<P.SnapshotCycle>, cycle: CycleId, begun: int, maximumAttempts: int) {
    entry.Some? ==> Leftover(entry.value, cycle, begun) || Joined(entry.value, cycle, begun, maximumAttempts)
  }

  ghost predicate ExpiresBefore(entry: Option<P.SnapshotCycle>, time: int) {
    entry.Some? ==> entry.value.expiresAt < time
  }

  /** The entry is no obstacle to a request: it expires before, or the request is its next attempt. */
  ghost predicate Fits(entry: Option<P.SnapshotCycle>, q: Request) {
    ExpiresBefore(entry, q.requestedAt)
    || (entry.value.cycleId == q.cycleId && entry.value.attempts != [] && Last(entry.value) + 1 == q.attempt
        && !entry.value.terminal)
  }

  ghost predicate Mine(config: P.Config, q: Request, s: State, cycle: CycleId, begun: int, now: int) {
    && q.cycleId == cycle && q.requestId == RequestId(cycle, q.attempt) && q.requester == s.requester
    && q.expectedSource == config.source && q.expectedEpoch == config.epoch && q.policyVersion == config.policyVersion
    && 1 <= q.attempt <= s.attempt <= config.maximumAttempts
    && begun <= q.requestedAt <= now
    && q.deadline == q.requestedAt + config.responseTimeout <= begun + config.maximumElapsed
  }

  ghost predicate QueueInv(config: P.Config, link: Link, cycle: CycleId, begun: int) {
    var entry := Entry(link.consumer.requester, link.producer);
    && (forall q :: q in link.queue ==>
          && Mine(config, q, link.consumer, cycle, begun, link.now) && Fits(entry, q)
          && (entry.Some? && entry.value.cycleId == cycle ==> Last(entry.value) < q.attempt))
    && (forall i, j :: 0 <= i < j < |link.queue| ==>
          link.queue[i].attempt < link.queue[j].attempt && link.queue[i].deadline < link.queue[j].requestedAt)
  }

  /** Nothing queued or remembered reaches as far as `time`. */
  ghost predicate Late(link: Link, time: int) {
    ExpiresBefore(Entry(link.consumer.requester, link.producer), time)
    && forall q :: q in link.queue ==> q.deadline < time
  }

  /** The producer has recorded the consumer's latest attempt, and nothing is queued. */
  ghost predicate Chained(config: P.Config, link: Link, cycle: CycleId) {
    link.queue == [] && Records(config, Entry(link.consumer.requester, link.producer), cycle, link.consumer.attempt)
  }

  /** Some calendar failed for good, so the response cannot lead to a retry. */
  ghost predicate Barren(response: Response) {
    exists f :: f in response.failures && !f.Retryable()
  }

  ghost predicate AnswersInv(config: P.Config, link: Link, cycle: CycleId) {
    forall r :: r in link.answers && r.requestId.cycle == cycle ==>
      && r.requestId.attempt <= link.consumer.attempt
      && (r.requestId.attempt == link.consumer.attempt ==> Barren(r) || Chained(config, link, cycle))
  }

  ghost predicate PhaseInv(config: P.Config, policy: Policy, link: Link, cycle: CycleId, begun: int) {
    var s := link.consumer;
    && s.cycleId == Some(cycle) && s.startedAt == Some(begun) && 1 <= s.attempt <= policy.maximumAttempts
    && s.requestedAt.Some? && s.requestedAt.value <= link.now
    && Late(link, s.requestedAt.value + policy.responseTimeout + 1)
    && (s.phase == WAITING ==>
          && s.requestId == Some(RequestId(cycle, s.attempt)) && s.accepted.None?
          && s.deadline == Some(s.requestedAt.value + policy.responseTimeout) && s.alertAt == s.deadline)
    && (s.phase == BACKOFF ==>
          && s.alertAt.Some? && link.now <= s.alertAt.value && s.attempt < policy.maximumAttempts
          && s.alertAt.value + policy.responseTimeout <= begun + policy.maximumElapsed
          && (Late(link, s.alertAt.value) || Chained(config, link, cycle)))
    && (s.phase == DEGRADED && !link.over ==>
          || (s.accepted.Some? && Barren(s.accepted.value))
          || Late(link, link.now + 1) || Chained(config, link, cycle))
  }

  ghost predicate AllowedInv(config: P.Config, entry: Option<P.SnapshotCycle>, s: State, cycle: CycleId) {
    entry.Some? && entry.value.cycleId == cycle ==> s.requester in config.allowed && Last(entry.value) <= s.attempt
  }

  ghost predicate LinkInv(config: P.Config, policy: Policy, link: Link, cycle: CycleId, begun: int) {
    && link.producer.Paired() && SamePolicy(config, policy, link.consumer) && link.consumer.phase != IDLE
    && 0 <= begun <= link.now
    && EntryInv(Entry(link.consumer.requester, link.producer), cycle, begun, config.maximumAttempts)
    && AllowedInv(config, Entry(link.consumer.requester, link.producer), link.consumer, cycle)
    && QueueInv(config, link, cycle, begun) && AnswersInv(config, link, cycle)
    && PhaseInv(config, policy, link, cycle, begun)
  }

  // Admission

  /** A request that fits is never refused as an identity conflict. */
  lemma FittingIsAdmitted(
      config: P.Config, p: P.State, q: Request, s: State, cycle: CycleId, begun: int, now: int)
    requires Admissible(config, Entry(q.requester, p), q, s, cycle, begun, now)
    ensures P.AdmitRequest(config, p, q, now).1
         in {P.Process, P.Reject(RequesterNotAllowed), P.Reject(RequestPopulationExceeded)}
  {
    var live := P.LiveCycle(p, q.requester, now);
    if live.Some? {
      assert live.value.cycleId == cycle;
      assert forall a :: a in live.value.attempts ==> a.request.requestId != q.requestId;
    }
  }

  /** The entry once a fitting request has joined it. */
  ghost predicate JoinedBy(config: P.Config, before: Option<P.SnapshotCycle>, q: Request, now: int, after: P.SnapshotCycle) {
    var live := before.Some? && now <= before.value.expiresAt;
    && after.cycleId == q.cycleId
    && after.startedAt == (if live then before.value.startedAt else q.requestedAt)
    && after.expiresAt == (if live then Max(before.value.expiresAt, q.deadline) else q.deadline)
    && after.attempts == (if live then before.value.attempts else [])
    && after.terminal == false
  }

  ghost predicate RecordedBy(config: P.Config, joined: P.SnapshotCycle, q: Request, r: Response, after: P.SnapshotCycle) {
    after == joined.(attempts := joined.attempts + [P.CachedAttempt(q, r)],
                     terminal := q.attempt >= config.maximumAttempts)
  }

  lemma AdmissionJoins(
      config: P.Config, p: P.State, q: Request, s: State, cycle: CycleId, begun: int, now: int)
    requires Admissible(config, Entry(q.requester, p), q, s, cycle, begun, now)
    ensures var (after, admission) := P.AdmitRequest(config, p, q, now);
      if q.requester !in config.allowed then after == p && admission == P.Reject(RequesterNotAllowed)
      else admission != P.Reject(RequesterNotAllowed) && q.requester in after.cycles
           && JoinedBy(config, Entry(q.requester, p), q, now, after.cycles[q.requester])
  {
    FittingIsAdmitted(config, p, q, s, cycle, begun, now);
    var live := P.LiveCycle(p, q.requester, now);
    if live.Some? {
      assert forall a :: a in live.value.attempts ==> a.request.requestId != q.requestId;
    }
  }

  // Serving the queue

  lemma RejectionIsBarren(config: P.Config, q: Request, code: Code, clock: P.Clock)
    ensures var r := P.Rejection(config, q, code, clock); r.Some? ==> r.value.requestId == q.requestId && Barren(r.value)
  {
    var r := P.Rejection(config, q, code, clock);
    if r.Some? {
      assert r.value.requested != [] && r.value.requested[0] in FailureIds(r.value.failures);
      assert r.value.failures[0] in r.value.failures;
    }
  }

  /** What handling a request does to its requester's entry: nothing, joining, or joining and recording.
      Unless it records its answer, the answer leads to no retry. */
  ghost predicate ServedEntry(config: P.Config, before: Option<P.SnapshotCycle>, q: Request, now: int, h: P.Handled) {
    var after := Entry(q.requester, h.state);
    && (h.response.Some? ==> h.response.value.requestId == q.requestId)
    && (after != before ==> q.requester in config.allowed)
    && ((after == before && (h.response.Some? ==> Barren(h.response.value)))
        || (after.Some? && JoinedBy(config, before, q, now, after.value)
            && (h.response.Some? ==> Barren(h.response.value)))
        || (after.Some? && h.response.Some? && exists joined ::
              JoinedBy(config, before, q, now, joined) && RecordedBy(config, joined, q, h.response.value, after.value)))
  }

  lemma ServeJoined(config: P.Config, p: P.State, q: Request, clock: P.Clock, joined: P.SnapshotCycle)
    requires p.Paired()
    requires var (after, admission) := P.AdmitRequest(config, p, q, clock.received);
      && admission in {P.Process, P.Reject(RequestPopulationExceeded)}
      && q.requester in after.cycles && joined == after.cycles[q.requester]
    requires JoinedBy(config, Entry(q.requester, p), q, clock.received, joined)
    requires |joined.attempts| < config.maximumAttempts && q.requester in config.allowed
    ensures ServedEntry(config, Entry(q.requester, p), q, clock.received, P.HandleRequest(config, p, q, clock))
  {
    var (after, admission) := P.AdmitRequest(config, p, q, clock.received);
    RejectionIsBarren(config, q, RequestPopulationExceeded, clock);
    if admission == P.Process {
      P.AnswerKeepsCycles(config, after, q, clock);
      var a := P.Answer(config, after, q, clock);
      P.AnswerCarriesId(config, after, q, clock);
      assert a.state.cycles[q.requester] == joined;
    }
  }

  ghost predicate Admissible(
      config: P.Config, entry: Option<P.SnapshotCycle>, q: Request, s: State, cycle: CycleId, begun: int, now: int)
  {
    && Mine(config, q, s, cycle, begun, now)
    && EntryInv(entry, cycle, begun, config.maximumAttempts) && Fits(entry, q)
    && (entry.Some? && entry.value.cycleId == cycle ==> Last(entry.value) < q.attempt && q.requester in config.allowed)
  }

  lemma ServeNotAllowed(config: P.Config, p: P.State, q: Request, clock: P.Clock)
    requires p.Paired() && P.AdmitRequest(config, p, q, clock.received) == (p, P.Reject(RequesterNotAllowed))
    requires Entry(q.requester, p).Some? ==> Entry(q.requester, p).value.cycleId != q.cycleId
    ensures ServedEntry(config, Entry(q.requester, p), q, clock.received, P.HandleRequest(config, p, q, clock))
  {
    RejectionIsBarren(config, q, RequesterNotAllowed, clock);
  }

  lemma RoomToRecord(
      config: P.Config, before: Option<P.SnapshotCycle>, q: Request, s: State, cycle: CycleId, begun: int, now: int,
      joined: P.SnapshotCycle)
    requires Admissible(config, before, q, s, cycle, begun, now) && JoinedBy(config, before, q, now, joined)
    ensures |joined.attempts| < config.maximumAttempts
  {
  }

  lemma ServeOutcome(config: P.Config, p: P.State, q: Request, s: State, cycle: CycleId, begun: int, clock: P.Clock)
    requires p.Paired() && Admissible(config, Entry(q.requester, p), q, s, cycle, begun, clock.received)
    ensures ServedEntry(config, Entry(q.requester, p), q, clock.received, P.HandleRequest(config, p, q, clock))
  {
    FittingIsAdmitted(config, p, q, s, cycle, begun, clock.received);
    AdmissionJoins(config, p, q, s, cycle, begun, clock.received);
    var (after, admission) := P.AdmitRequest(config, p, q, clock.received);
    if admission == P.Reject(RequesterNotAllowed) {
      ServeNotAllowed(config, p, q, clock);
    } else {
      RoomToRecord(config, Entry(q.requester, p), q, s, cycle, begun, clock.received, after.cycles[q.requester]);
      ServeJoined(config, p, q, clock, after.cycles[q.requester]);
    }
  }

  ghost predicate Records(config: P.Config, entry: Option<P.SnapshotCycle>, cycle: CycleId, attempt: int) {
    && entry.Some? && entry.value.cycleId == cycle && entry.value.attempts != []
    && Last(entry.value) == attempt && (entry.value.terminal ==> config.maximumAttempts <= attempt)
  }

  lemma ServedEntryStaysValid(
      config: P.Config, before: Option<P.SnapshotCycle>, q: Request, s: State, cycle: CycleId, begun: int, now: int,
      h: P.Handled)
    requires Admissible(config, before, q, s, cycle, begun, now)
    requires ServedEntry(config, before, q, now, h)
    ensures var after := Entry(q.requester, h.state);
      && EntryInv(after, cycle, begun, config.maximumAttempts)
      && (after.Some? && after.value.cycleId == cycle ==> q.requester in config.allowed)
      && (after.Some? && after.value.cycleId == cycle ==> Last(after.value) <= q.attempt)
      && (forall t :: ExpiresBefore(before, t) && q.deadline < t ==> ExpiresBefore(after, t))
      && (h.response.Some? ==> Barren(h.response.value) || Records(config, after, cycle, q.attempt))
  {
  }

  lemma ServedKeepsInv(
      config: P.Config, policy: Policy, link: Link, h: P.Handled, next: Link, cycle: CycleId, begun: int)
    requires LinkInv(config, policy, link, cycle, begun) && link.queue != [] && h.state.Paired()
    requires var q, before := link.queue[0], Entry(link.consumer.requester, link.producer);
      && q.requester == link.consumer.requester
      && Admissible(config, before, q, link.consumer, cycle, begun, link.now)
      && ServedEntry(config, before, q, link.now, h)
    requires next == link.(producer := h.state, queue := link.queue[1..],
                           answers := link.answers + (if h.response.Some? then {h.response.value} else {}))
    ensures LinkInv(config, policy, next, cycle, begun)
  {
    ServedEntryStaysValid(config, Entry(link.consumer.requester, link.producer), link.queue[0], link.consumer, cycle,
                          begun, link.now, h);
    RestStillFits(config, link, next, cycle, begun);
    AnswersStayValid(config, link, next, h.response, cycle, begun);
    assert forall t :: Late(link, t) ==> Late(next, t);
  }

  lemma HeadIsAdmissible(config: P.Config, policy: Policy, link: Link, cycle: CycleId, begun: int)
    requires LinkInv(config, policy, link, cycle, begun) && link.queue != []
    ensures Admissible(config, Entry(link.consumer.requester, link.producer), link.queue[0], link.consumer, cycle,
                       begun, link.now)
    ensures link.queue[0].requester == link.consumer.requester
  {
    assert link.queue[0] in link.queue;
  }

  lemma ServeKeepsInv(
      config: P.Config, policy: Policy, link: Link, clock: P.Clock, cycle: CycleId, begun: int)
    requires LinkInv(config, policy, link, cycle, begun) && link.queue != [] && !link.over
    ensures LinkInv(config, policy, Step(config, policy, link, Serve(clock)), cycle, begun)
  {
    var c := clock.(received := link.now);
    HeadIsAdmissible(config, policy, link, cycle, begun);
    ServeOutcome(config, link.producer, link.queue[0], link.consumer, cycle, begun, c);
    ServedKeepsInv(config, policy, link, P.HandleRequest(config, link.producer, link.queue[0], c),
                   Step(config, policy, link, Serve(clock)), cycle, begun);
  }

  lemma AnswersStayValid(
      config: P.Config, link: Link, next: Link, response: Option<Response>, cycle: CycleId, begun: int)
    requires QueueInv(config, link, cycle, begun) && AnswersInv(config, link, cycle) && link.queue != []
    requires next.consumer == link.consumer && next.queue == link.queue[1..]
    requires next.answers == link.answers + (if response.Some? then {response.value} else {})
    requires response.Some? ==>
      && response.value.requestId == link.queue[0].requestId
      && (Barren(response.value)
          || Records(config, Entry(next.consumer.requester, next.producer), cycle, link.queue[0].attempt))
    ensures AnswersInv(config, next, cycle)
  {
    assert link.queue[0] in link.queue;
    LatestIsAlone(config, link, cycle, begun);
  }

  /** When the head is the latest attempt, nothing is queued behind it. */
  lemma LatestIsAlone(config: P.Config, link: Link, cycle: CycleId, begun: int)
    requires QueueInv(config, link, cycle, begun) && link.queue != []
    ensures link.queue[0].attempt == link.consumer.attempt ==> link.queue[1..] == []
  {
    if |link.queue| > 1 {
      assert link.queue[1] in link.queue;
      assert link.queue[0].attempt < link.queue[1].attempt <= link.consumer.attempt;
    }
  }

  /** After the head is served, what is left still fits: it was sent after the head had expired. */
  lemma RestStillFits(config: P.Config, link: Link, next: Link, cycle: CycleId, begun: int)
    requires link.queue != [] && QueueInv(config, link, cycle, begun) && next.queue == link.queue[1..]
    requires next.consumer == link.consumer && next.now == link.now
    requires EntryInv(Entry(link.consumer.requester, link.producer), cycle, begun, config.maximumAttempts)
    requires var before, after := Entry(link.consumer.requester, link.producer), Entry(next.consumer.requester, next.producer);
      && (after.Some? && after.value.cycleId == cycle ==> Last(after.value) <= link.queue[0].attempt)
      && (forall t :: ExpiresBefore(before, t) && link.queue[0].deadline < t ==> ExpiresBefore(after, t))
    ensures QueueInv(config, next, cycle, begun)
  {
    var q, before := link.queue[0], Entry(link.consumer.requester, link.producer);
    forall r | r in next.queue
      ensures Fits(Entry(next.consumer.requester, next.producer), r) && r in link.queue && q.attempt < r.attempt
    {
      var j :| 0 <= j < |next.queue| && next.queue[j] == r;
      assert link.queue[j + 1] == r;
      assert Fits(before, r) && Fits(before, q);
      assert ExpiresBefore(before, r.requestedAt);
    }
    assert forall i :: 0 <= i < |next.queue| ==> next.queue[i] == link.queue[i + 1];
  }

  // The other moves

  lemma LosingFits(config: P.Config, link: Link, index: nat, rest: seq<Request>, cycle: CycleId, begun: int)
    requires QueueInv(config, link, cycle, begun) && index < |link.queue|
    requires rest == link.queue[..index] + link.queue[index + 1..]
    ensures QueueInv(config, link.(queue := rest), cycle, begun)
    ensures forall q :: q in rest ==> q in link.queue
  {
    assert forall i :: 0 <= i < |rest| ==> rest[i] == link.queue[if i < index then i else i + 1];
    assert forall q :: q in rest ==> q in link.queue;
  }

  lemma LoseKeepsInv(config: P.Config, policy: Policy, link: Link, index: nat, cycle: CycleId, begun: int)
    requires LinkInv(config, policy, link, cycle, begun) && index < |link.queue|
    ensures LinkInv(config, policy, link.(queue := link.queue[..index] + link.queue[index + 1..]), cycle, begun)
  {
    var next := link.(queue := link.queue[..index] + link.queue[index + 1..]);
    LosingFits(config, link, index, next.queue, cycle, begun);
    assert forall t :: Late(link, t) ==> Late(next, t);
  }

  lemma ElapseKeepsInv(config: P.Config, policy: Policy, link: Link, span: nat, cycle: CycleId, begun: int)
    requires LinkInv(config, policy, link, cycle, begun)
    ensures LinkInv(config, policy, Step(config, policy, link, Elapse(span)), cycle, begun)
  {
    assert link.consumer.phase == DEGRADED && Late(link, link.now + 1) ==> Late(link, link.now + span + 1);
  }

  lemma ScheduleOutcome(s: State, now: int, policy: Policy, code: Code)
    requires s.phase == DEGRADED || (s.phase == WAITING && code == ResponseTimeout)
    ensures var t := StateAfter(s, ScheduleRetry(s, now, policy, None, code));
      || t == s
      || (t.phase == DEGRADED && t == Exhausted(s, t.terminalCode.value)
          && (s.phase == WAITING ==> s.alertAt.Some? ==> s.alertAt.value <= now))
      || (&& t.phase == BACKOFF && t.alertAt.Some? && now < t.alertAt.value && s.attempt < policy.maximumAttempts
          && s.startedAt.Some?
          && t.alertAt.value + policy.responseTimeout <= s.startedAt.value + policy.maximumElapsed
          && t == s.(phase := BACKOFF, requestId := None, deadline := None, alertAt := t.alertAt, terminalCode := Some(code))
          && !(s.accepted.Some? && Barren(s.accepted.value))
          && (s.phase == WAITING ==> s.alertAt.Some? ==> s.alertAt.value <= now))
  {
  }

  /** Retries are scheduled only out of reach of every earlier attempt, or right behind a recorded one. */
  lemma ScheduleKeepsLink(
      config: P.Config, policy: Policy, link: Link, code: Code, cycle: CycleId, begun: int)
    requires LinkInv(config, policy, link, cycle, begun) && !link.over
    requires link.consumer.phase == DEGRADED || (link.consumer.phase == WAITING && code == ResponseTimeout)
    ensures LinkInv(config, policy,
      link.(consumer := StateAfter(link.consumer, ScheduleRetry(link.consumer, link.now, policy, None, code))),
      cycle, begun)
  {
    var s := link.consumer;
    var t := StateAfter(s, ScheduleRetry(s, link.now, policy, None, code));
    ScheduleOutcome(s, link.now, policy, code);
    if t != s {
      assert s.phase == WAITING ==> Late(link, link.now + 1);
      ScheduledKeepsInv(config, policy, link, t, cycle, begun);
    }
  }

  lemma ScheduledKeepsInv(config: P.Config, policy: Policy, link: Link, t: State, cycle: CycleId, begun: int)
    requires LinkInv(config, policy, link, cycle, begun) && !link.over
    requires var s := link.consumer;
      t == s.(phase := t.phase, requestId := None, deadline := None, alertAt := t.alertAt, terminalCode := t.terminalCode)
    requires t.phase in {BACKOFF, DEGRADED}
    requires t.phase == BACKOFF ==>
      && t.alertAt.Some? && link.now < t.alertAt.value && t.attempt < policy.maximumAttempts
      && t.alertAt.value + policy.responseTimeout <= begun + policy.maximumElapsed
      && !(t.accepted.Some? && Barren(t.accepted.value))
    requires link.consumer.phase == DEGRADED || (link.consumer.phase == WAITING && Late(link, link.now + 1))
    ensures LinkInv(config, policy, link.(consumer := t), cycle, begun)
  {
    var next := link.(consumer := t);
    assert forall time :: Late(link, time) <==> Late(next, time);
    assert Chained(config, link, cycle) <==> Chained(config, next, cycle);
    if t.phase == BACKOFF {
      assert Late(link, link.now + 1) ==> Late(next, t.alertAt.value);
    }
  }

  /** The consumer takes only answers to its own outstanding attempt, so what leaves it degraded is
      either final or recorded by the producer. */
  lemma ReceiveDegrades(
      config: P.Config, policy: Policy, link: Link, response: Response, cycle: CycleId, begun: int)
    requires LinkInv(config, policy, link, cycle, begun) && !link.over
    requires response in link.answers && response.Valid()
    ensures LinkInv(config, policy,
      link.(consumer := StateAfter(link.consumer, ObserveSnapshot(link.consumer, response, link.now))), cycle, begun)
  {
    var judged := JudgeSnapshot(link.consumer, response, link.now);
    if judged.Returned? {
      JudgedKeepsInv(config, policy, link, response, judged.value, cycle, begun);
    }
  }

  lemma JudgedKeepsInv(
      config: P.Config, policy: Policy, link: Link, response: Response, verdict: Verdict, cycle: CycleId, begun: int)
    requires LinkInv(config, policy, link, cycle, begun) && !link.over
    requires response in link.answers && response.Valid()
    requires verdict.Admit? || verdict.Overflow? ==> link.consumer.Awaits(response)
    ensures LinkInv(config, policy, link.(consumer := ApplySnapshot(link.consumer, verdict, response).state), cycle, begun)
  {
    hide AcceptSnapshot;
    if verdict.Admit? || verdict.Overflow? {
      AcceptKeepsCycle(link.consumer, response);
    }
  }

  lemma AcceptKeepsCycle(s: State, response: Response)
    requires response.Valid()
    ensures var t := AcceptSnapshot(s, response).state;
      && SameCycle(s, t) && t.startedAt == s.startedAt && t.requestedAt == s.requestedAt
      && t.policyVersion == s.policyVersion
      && t.phase in {LIVE, DEGRADED, CONFLICT} && t.accepted == Some(response)
  {
    if response.failures == [] {
      AcceptIsReconcile(s, response);
      ReconcileKeepsAttempt(Accepted(s, response));
    }
  }

  lemma ReceiveKeepsInv(
      config: P.Config, policy: Policy, link: Link, response: Response, cycle: CycleId, begun: int)
    requires LinkInv(config, policy, link, cycle, begun) && !link.over
    requires response in link.answers && response.Valid()
    ensures LinkInv(config, policy, link.(consumer := AfterResponse(link.consumer, response, link.now, policy)),
                    cycle, begun)
  {
    ReceiveDegrades(config, policy, link, response, cycle, begun);
    var t := StateAfter(link.consumer, ObserveSnapshot(link.consumer, response, link.now));
    if t.phase == DEGRADED {
      ScheduleKeepsLink(config, policy, link.(consumer := t),
                        if t.terminalCode.Some? then t.terminalCode.value else SnapshotConflict, cycle, begun);
    }
  }

  /** A new attempt fits behind whatever the producer remembers and whatever is still under way. */
  lemma AlertKeepsInv(config: P.Config, policy: Policy, link: Link, cycle: CycleId, begun: int)
    requires LinkInv(config, policy, link, cycle, begun) && !link.over && link.consumer.phase == BACKOFF
    ensures LinkInv(config, policy, Step(config, policy, link, Alert), cycle, begun)
  {
    var s := link.consumer;
    var t := StateAfter(s, BeginRetry(s, link.now, policy));
    if t.phase == WAITING {
      var q := CurrentRequest(t).value;
      var next := Step(config, policy, link, Alert);
      assert next.queue == link.queue + [q];
      assert q.requestedAt == s.alertAt.value == link.now && q.attempt == s.attempt + 1;
      RetryFits(config, policy, link, next, q, cycle, begun);
    }
  }

  lemma RetryFits(
      config: P.Config, policy: Policy, link: Link, next: Link, q: Request, cycle: CycleId, begun: int)
    requires LinkInv(config, policy, link, cycle, begun) && link.consumer.phase == BACKOFF
    requires next.producer == link.producer && next.queue == link.queue + [q] && next.now == link.now
    requires next.consumer.requester == link.consumer.requester && next.consumer.attempt == link.consumer.attempt + 1
    requires Mine(config, q, next.consumer, cycle, begun, link.now)
    requires q.requestedAt == link.consumer.alertAt.value && q.attempt == link.consumer.attempt + 1
    ensures QueueInv(config, next, cycle, begun) && Late(next, q.deadline + 1)
  {
    var entry := Entry(link.consumer.requester, link.producer);
    if Chained(config, link, cycle) {
      assert Fits(entry, q);
    } else {
      assert Late(link, q.requestedAt);
    }
    assert forall r :: r in next.queue ==> r in link.queue || r == q;
    assert forall i :: 0 <= i < |link.queue| ==> link.queue[i] in link.queue;
  }

  lemma HearKeepsInv(config: P.Config, policy: Policy, link: Link, event: Transition, cycle: CycleId, begun: int)
    requires LinkInv(config, policy, link, cycle, begun) && !link.over
    ensures LinkInv(config, policy, Step(config, policy, link, Hear(event)), cycle, begun)
  {
    hide ObserveTransition;
    var observed := ObserveTransition(link.consumer, event, policy);
    if observed.Returned? {
      HearKeepsCycle(link.consumer, event, policy);
      HeardKeepsInv(config, policy, link, observed.value, cycle, begun);
    }
  }

  lemma HeardKeepsInv(config: P.Config, policy: Policy, link: Link, u: Update, cycle: CycleId, begun: int)
    requires LinkInv(config, policy, link, cycle, begun) && !link.over && AttemptSurvives(link.consumer, u)
    ensures LinkInv(config, policy, link.(consumer := u.state, over := u.disposition in {GAP, OVERFLOW}), cycle, begun)
  {
  }

  ghost predicate SameAttempt(s: State, t: State) {
    t == s.(phase := t.phase, watermarks := t.watermarks, buffer := t.buffer, affected := t.affected,
            terminalCode := t.terminalCode, alertAt := t.alertAt)
  }

  lemma ReconcileKeepsAttempt(s: State)
    ensures var u := Reconcile(s);
      && SameAttempt(s, u.state) && u.state.phase in {LIVE, CONFLICT, DEGRADED}
      && (u.state.phase == DEGRADED ==> u.disposition == GAP)
  {
  }

  /** Hearing a transition keeps the attempt; it degrades the consumer only by a gap or an overflow. */
  ghost predicate AttemptSurvives(s: State, u: Update) {
    && SameAttempt(s, u.state) && u.state.phase != IDLE
    && (u.state.phase != s.phase ==> u.state.phase in {LIVE, CONFLICT} || u.disposition in {GAP, OVERFLOW})
    && (u.state.phase in {WAITING, BACKOFF} ==> u.state.phase == s.phase && u.state.alertAt == s.alertAt)
  }

  lemma ApplyKeepsCycle(s: State, verdict: Verdict, event: Transition)
    requires s.phase != IDLE
    ensures AttemptSurvives(s, ApplyTransition(s, verdict, event))
  {
    if verdict.Admit? {
      ReconcileKeepsAttempt(s.(buffer := s.buffer + [event]));
    }
  }

  lemma HearKeepsCycle(s: State, event: Transition, policy: Policy)
    requires ObserveTransition(s, event, policy).Returned? && s.phase != IDLE
    ensures AttemptSurvives(s, ObserveTransition(s, event, policy).value)
  {
    ApplyKeepsCycle(s, JudgeTransition(s, event, policy), event);
  }

  lemma StepKeepsInv(config: P.Config, policy: Policy, link: Link, move: Move, cycle: CycleId, begun: int)
    requires LinkInv(config, policy, link, cycle, begun)
    ensures LinkInv(config, policy, Step(config, policy, link, move), cycle, begun)
  {
    if !link.over {
      match move
      case Elapse(span) => ElapseKeepsInv(config, policy, link, span, cycle, begun);
      case Lose(index) => if index < |link.queue| { LoseKeepsInv(config, policy, link, index, cycle, begun); }
      case Serve(clock) => if link.queue != [] { ServeKeepsInv(config, policy, link, clock, cycle, begun); }
      case Elsewhere(producer) => ElsewhereKeepsInv(config, policy, link, producer, cycle, begun);
      case _ => ConsumerMoveKeepsInv(config, policy, link, move, cycle, begun);
    }
  }

  lemma ElsewhereKeepsInv(
      config: P.Config, policy: Policy, link: Link, producer: P.State, cycle: CycleId, begun: int)
    requires LinkInv(config, policy, link, cycle, begun)
    ensures LinkInv(config, policy, Step(config, policy, link, Elsewhere(producer)), cycle, begun)
  {
  }

  lemma ConsumerMoveKeepsInv(config: P.Config, policy: Policy, link: Link, move: Move, cycle: CycleId, begun: int)
    requires LinkInv(config, policy, link, cycle, begun) && !link.over
    requires move.Receive? || move.Timeout? || move.Alert? || move.Hear?
    ensures LinkInv(config, policy, Step(config, policy, link, move), cycle, begun)
  {
    match move
    case Receive(response) =>
      if response in link.answers && response.Valid() {
        ReceiveKeepsInv(config, policy, link, response, cycle, begun);
      }
    case Timeout =>
      if link.consumer.phase == WAITING {
        ScheduleKeepsLink(config, policy, link, ResponseTimeout, cycle, begun);
      }
    case Alert => if link.consumer.phase == BACKOFF { AlertKeepsInv(config, policy, link, cycle, begun); }
    case Hear(event) => HearKeepsInv(config, policy, link, event, cycle, begun);
    case _ =>
  }

  // Runs

  /** A cycle has just been started at `begun`, nothing of an earlier one is queued, and what the
      producer remembers of earlier ones has expired. */
  ghost predicate CycleBegins(config: P.Config, policy: Policy, idle: State, expected: seq<Expectation>, link: Link) {
    && idle.phase in {IDLE, LIVE} && StartCycle(idle, expected, link.now, policy) == Returned(link.consumer)
    && link.producer.Paired() && SamePolicy(config, policy, idle) && !link.over
    && link.queue == [CurrentRequest(link.consumer).value]
    && (forall r :: r in link.answers ==> Some(r.requestId.cycle) != link.consumer.cycleId)
    && (Entry(idle.requester, link.producer).Some? ==>
          Leftover(Entry(idle.requester, link.producer).value, link.consumer.cycleId.value, link.now))
  }

  lemma BeginningKeepsInv(
      config: P.Config, policy: Policy, idle: State, expected: seq<Expectation>, link: Link)
    requires CycleBegins(config, policy, idle, expected, link)
    ensures LinkInv(config, policy, link, link.consumer.cycleId.value, link.now)
  {
  }

  /** The head request, if any, is not refused as conflicting with what the producer remembers. */
  ghost predicate HeadNotRefused(config: P.Config, link: Link) {
    link.queue != [] ==>
      P.AdmitRequest(config, link.producer, link.queue[0], link.now).1 != P.Reject(RequestIdentityConflict)
  }

  ghost predicate NeverRefused(config: P.Config, policy: Policy, link: Link, moves: seq<Move>)
    requires link.producer.Paired()
    decreases |moves|
  {
    HeadNotRefused(config, link)
    && (moves != [] ==> NeverRefused(config, policy, Step(config, policy, link, moves[0]), moves[1..]))
  }

  /** Whatever requests and answers are lost, repeated or delayed, no attempt of the cycle is ever
      refused as an identity conflict. */
  lemma {:induction false} NoAttemptIsRefused(
      config: P.Config, policy: Policy, link: Link, moves: seq<Move>, cycle: CycleId, begun: int)
    requires LinkInv(config, policy, link, cycle, begun)
    ensures NeverRefused(config, policy, link, moves)
    decreases |moves|
  {
    if link.queue != [] {
      HeadIsAdmissible(config, policy, link, cycle, begun);
      FittingIsAdmitted(config, link.producer, link.queue[0], link.consumer, cycle, begun, link.now);
    }
    if moves != [] {
      StepKeepsInv(config, policy, link, moves[0], cycle, begun);
      NoAttemptIsRefused(config, policy, Step(config, policy, link, moves[0]), moves[1..], cycle, begun);
    }
  }

  /** Without that proviso the first attempt of a new cycle can be refused: it is, exactly when the
      producer still remembers an unexpired, unfinished cycle of an earlier generation. */
  lemma FirstAttemptRefusedIff(
      config: P.Config, policy: Policy, idle: State, expected: seq<Expectation>, p: P.State, begun: int, received: int)
    requires idle.phase in {IDLE, LIVE} && StartCycle(idle, expected, begun, policy).Returned?
    requires SamePolicy(config, policy, idle) && idle.requester in config.allowed && 1 <= config.maximumAttempts
    requires var entry := Entry(idle.requester, p); entry.Some? ==>
      && entry.value.cycleId.generation <= idle.generation
      && forall a :: a in entry.value.attempts ==> a.request.requestId.cycle == entry.value.cycleId
    ensures var q := CurrentRequest(StartCycle(idle, expected, begun, policy).value).value;
      var entry := Entry(idle.requester, p);
      P.AdmitRequest(config, p, q, received).1 == P.Reject(RequestIdentityConflict)
      <==> (entry.Some? && received <= entry.value.expiresAt && !entry.value.terminal)
  {
    var live := P.LiveCycle(p, idle.requester, received);
    var q := CurrentRequest(StartCycle(idle, expected, begun, policy).value).value;
    if live.Some? {
      assert forall a :: a in live.value.attempts ==> a.request.requestId != q.requestId;
    }
  }
}
