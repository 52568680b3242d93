/** Bounded execution of provider-facing historical requests: queueing, sharing, retry and timeout. */
module HistoricalExecution {
  import opened Prelude

  datatype ExecutionState = QUEUED | SHARED | SUBMITTED | RETRY_SCHEDULED | COMPLETED | FAILED | CANCELED | EXPIRED

  /** What a consumer learns about a dependency. LOST, DROPPED and OVERDUE go with the request states
      FAILED, CANCELED and EXPIRED, whose names the program uses for both. */
  datatype Readiness = READY | DEGRADED | LOST | DROPPED | OVERDUE

  datatype Dependency = Dependency(
    consumer: Id, capability: Id, version: int, index: int, minimum: int, purpose: Id)

  datatype Request = Request(id: Id, key: Id, priority: int, dependencies: seq<Dependency>)

  datatype Pending = Pending(request: Request, attempt: int, availableAt: int)

  datatype Active = Active(request: Request, attempt: int, submittedAt: int)

  datatype Event = Event(requestId: Id, state: ExecutionState, attempt: int, at: int)

  datatype Batch = Batch(request: Request, observations: seq<Id>, receivedAt: int)

  datatype Result = Result(requestId: Id, dependency: Dependency, state: Readiness, observed: nat, completedAt: int)

  /** What the provider port was told, and whether it took a submission. */
  datatype Command = Submit(request: Request, attempt: int, accepted: bool) | Withdraw(request: Request)

  /** The port's behaviour during one call: which submissions it takes without raising. A call never
      submits one attempt of one request twice, so this is any behaviour at all. */
  type Port = (Id, int) -> bool

  datatype PolicyValues = PolicyValues(
    maximumQueued: int, maximumInFlight: int, timeout: int, maximumAttempts: int, retryBackoff: int)

  type Policy = p: PolicyValues |
    0 < p.maximumQueued && 0 < p.maximumInFlight && 0 < p.timeout && 0 < p.maximumAttempts && 0 < p.retryBackoff
    witness PolicyValues(1, 1, 1, 1, 1)

  datatype State = State(pending: map<Id, Pending>, active: map<Id, Active>, terminal: set<Id>)
  {
    predicate Live(id: Id) { id in pending || id in active }

    function RequestFor(id: Id): Option<Request> {
      if id in pending then Some(pending[id].request)
      else if id in active then Some(active[id].request)
      else None
    }
  }

  datatype Problem = NegativeNow | NotActive | BlankReason | BadReceipt | TerminalRequest | QueueFull | KeyMismatch

  /** What a caller is told. */
  datatype Update = Update(events: seq<Event>, batches: seq<Batch>, results: seq<Result>)

  /** What a call has done so far. The program keeps the state and the update; `commands` is what the
      port saw. For the history of a run, `closed` is every request that turned terminal, as it was
      then; `abandoned` are those that `Dispatch` itself finished; `forgotten` counts requests dropped
      from the in-flight set without turning terminal. */
  datatype Progress = Progress(
    state: State,
    update: Update,
    commands: seq<Command>,
    closed: map<Id, Request>,
    abandoned: set<Id>,
    forgotten: multiset<Id>,
    problem: Option<Problem>)

  function Begin(s: State): Progress {
    Progress(s, Update([], [], []), [], map[], {}, multiset{}, None)
  }

  function ExtendUpdate(u: Update, v: Update): Update {
    Update(u.events + v.events, u.batches + v.batches, u.results + v.results)
  }

  function Extend(p: Progress, q: Progress): Progress {
    Progress(q.state, ExtendUpdate(p.update, q.update), p.commands + q.commands, p.closed + q.closed,
             p.abandoned + q.abandoned, p.forgotten + q.forgotten, q.problem)
  }

  function Note(u: Update, event: Event): Update {
    u.(events := u.events + [event])
  }

  /** A raising call reports nothing, but keeps what it already did to the state and the port. */
  function Raise(p: Progress, problem: Problem): Progress {
    p.(update := Update([], [], []), problem := Some(problem))
  }

  // Sharing one request

  predicate Before(a: Dependency, b: Dependency) {
    || a.consumer < b.consumer
    || (a.consumer == b.consumer
        && (|| a.capability < b.capability
            || (a.capability == b.capability
                && (a.version < b.version || (a.version == b.version && a.index < b.index)))))
  }

  predicate InOrder(s: seq<Dependency>) {
    forall i, j :: 0 <= i < j < |s| ==> !Before(s[j], s[i])
  }

  function Place(s: seq<Dependency>, d: Dependency): (r: seq<Dependency>)
    ensures forall e :: e in r <==> e in s || e == d
    ensures Distinct(s) && d !in s ==> Distinct(r)
    ensures InOrder(s) ==> InOrder(r)
  {
    if s == [] then [d]
    else if Before(d, s[0]) then
      assert forall i :: 0 < i < |s| && InOrder(s) ==> !Before(s[i], s[0]);
      [d] + s
    else
      assert s == [s[0]] + s[1..];
      var rest := Place(s[1..], d);
      assert forall i :: 0 <= i < |rest| ==> rest[i] in s[1..] || rest[i] == d;
      assert InOrder(s) ==> forall e :: e in s[1..] ==> !Before(e, s[0]);
      [s[0]] + rest
  }

  /** The dependencies as a set, in consumer order. */
  function Merged(dependencies: seq<Dependency>): (r: seq<Dependency>)
    ensures forall d :: d in r <==> d in dependencies
    ensures Distinct(r) && InOrder(r)
  {
    if dependencies == [] then []
    else
      assert dependencies == [dependencies[0]] + dependencies[1..];
      var rest := Merged(dependencies[1..]);
      if dependencies[0] in rest then rest else Place(rest, dependencies[0])
  }

  /** Both requests' dependencies under one request, at the higher priority. */
  function MergeRequests(existing: Request, incoming: Request): (r: Option<Request>)
    ensures r.Some? <==> existing.key == incoming.key && existing.id == incoming.id
    ensures r.Some? ==>
      && r.value.id == existing.id && r.value.key == existing.key
      && r.value.priority >= existing.priority && r.value.priority >= incoming.priority
      && r.value.priority in {existing.priority, incoming.priority}
      && (forall d :: d in r.value.dependencies <==> d in existing.dependencies || d in incoming.dependencies)
      && Distinct(r.value.dependencies) && InOrder(r.value.dependencies)
  {
    if existing.key != incoming.key || existing.id != incoming.id then None
    else Some(existing.(priority := Max(existing.priority, incoming.priority),
                        dependencies := Merged(existing.dependencies + incoming.dependencies)))
  }

  function EnqueueOne(policy: Policy, p: Progress, request: Request, now: int): Progress {
    var s := p.state;
    var existing := s.RequestFor(request.id);
    if existing.Some? then
      var merged := MergeRequests(existing.value, request);
      if merged.None? then Raise(p, KeyMismatch)
      else
        var attempt := if request.id in s.pending then s.pending[request.id].attempt else s.active[request.id].attempt;
        var next := if request.id in s.pending
                    then s.(pending := s.pending[request.id := s.pending[request.id].(request := merged.value)])
                    else s.(active := s.active[request.id := s.active[request.id].(request := merged.value)]);
        p.(state := next,
           update := if merged.value.dependencies != existing.value.dependencies
                     then Note(p.update, Event(request.id, SHARED, attempt, now)) else p.update)
    else if request.id in s.terminal then Raise(p, TerminalRequest)
    else if |s.pending| + |s.active| >= policy.maximumQueued then Raise(p, QueueFull)
    else p.(state := s.(pending := s.pending[request.id := Pending(request, 1, now)]),
            update := Note(p.update, Event(request.id, QUEUED, 1, now)))
  }

  function EnqueueAll(policy: Policy, p: Progress, requests: seq<Request>, now: int): Progress
    decreases |requests|
  {
    if requests == [] || p.problem.Some? then p
    else EnqueueAll(policy, EnqueueOne(policy, p, requests[0], now), requests[1..], now)
  }

  // Ending an attempt

  function FailureResults(request: Request, readiness: Readiness, now: int): (r: seq<Result>)
    ensures |r| == |request.dependencies|
    ensures forall i :: 0 <= i < |r| ==> r[i] == Result(request.id, request.dependencies[i], readiness, 0, now)
  {
    seq(|request.dependencies|, i requires 0 <= i < |request.dependencies| =>
      Result(request.id, request.dependencies[i], readiness, 0, now))
  }

  function FinishFailure(p: Progress, a: Active, now: int, execution: ExecutionState, readiness: Readiness): Progress {
    p.(state := p.state.(terminal := p.state.terminal + {a.request.id}),
       update := p.update.(
         events := p.update.events + [Event(a.request.id, execution, a.attempt, now)],
         results := p.update.results + FailureResults(a.request, readiness, now)),
       closed := p.closed[a.request.id := a.request])
  }

  function RetryOrFinish(
      policy: Policy, p: Progress, a: Active, now: int, execution: ExecutionState, readiness: Readiness): Progress
  {
    if a.attempt >= policy.maximumAttempts then FinishFailure(p, a, now, execution, readiness)
    else p.(
      state := p.state.(
        pending := p.state.pending[a.request.id := Pending(a.request, a.attempt + 1, now + policy.retryBackoff)]),
      update := Note(p.update, Event(a.request.id, RETRY_SCHEDULED, a.attempt + 1, now)))
  }

  // Dispatch

  function Eligible(s: State, now: int): set<Id> {
    set id | id in s.pending && s.pending[id].availableAt <= now
  }

  /** Dispatch order: highest priority first, then smallest id. */
  predicate Ahead(p: map<Id, Pending>, a: Id, b: Id)
    requires a in p && b in p
  {
    p[a].request.priority > p[b].request.priority || (p[a].request.priority == p[b].request.priority && a < b)
  }

  predicate IsFirst(p: map<Id, Pending>, ids: set<Id>, id: Id)
    requires ids <= p.Keys
  {
    id in ids && forall other :: other in ids ==> other == id || Ahead(p, id, other)
  }

  lemma {:induction false} FirstExists(p: map<Id, Pending>, ids: set<Id>)
    requires ids <= p.Keys && ids != {}
    ensures exists id :: IsFirst(p, ids, id)
    decreases |ids|
  {
    Inhabited(ids);
    var some :| some in ids;
    var rest := ids - {some};
    assert ids == rest + {some};
    if rest == {} {
      assert IsFirst(p, ids, some);
    } else {
      FirstExists(p, rest);
      var best :| IsFirst(p, rest, best);
      assert if Ahead(p, some, best) then IsFirst(p, ids, some) else IsFirst(p, ids, best);
    }
  }

  function First(p: map<Id, Pending>, ids: set<Id>): (id: Id)
    requires ids <= p.Keys && ids != {}
    ensures IsFirst(p, ids, id)
  {
    FirstExists(p, ids);
    var id :| IsFirst(p, ids, id);
    id
  }

  /** Submit one pending request. When a refused submission was its last attempt, the request ends here,
      and of that end only the event is reported. */
  function DispatchOne(policy: Policy, p: Progress, id: Id, now: int, port: Port): Progress
    requires id in p.state.pending
  {
    var q := p.state.pending[id];
    var popped := p.(state := p.state.(pending := p.state.pending - {id}),
                     commands := p.commands + [Submit(q.request, q.attempt, port(id, q.attempt))]);
    if port(id, q.attempt) then
      popped.(state := popped.state.(active := popped.state.active[id := Active(q.request, q.attempt, now)]),
              update := Note(popped.update, Event(id, SUBMITTED, q.attempt, now)))
    else
      var ended := RetryOrFinish(policy, popped, Active(q.request, q.attempt, now), now, FAILED, LOST);
      ended.(
        update := ended.update.(results := p.update.results),
        abandoned := if q.attempt >= policy.maximumAttempts then p.abandoned + {id} else p.abandoned)
  }

  lemma DispatchingShrinks(policy: Policy, p: Progress, id: Id, now: int, port: Port)
    requires id in Eligible(p.state, now)
    ensures Eligible(DispatchOne(policy, p, id, now, port).state, now) <= Eligible(p.state, now) - {id}
    ensures p.state.pending[id].request.id == id ==>
      Eligible(DispatchOne(policy, p, id, now, port).state, now) == Eligible(p.state, now) - {id}
  {
  }

  function Dispatch(policy: Policy, p: Progress, now: int, port: Port): Progress
    decreases Eligible(p.state, now)
  {
    var eligible := Eligible(p.state, now);
    if |p.state.active| < policy.maximumInFlight && eligible != {} then
      var id := First(p.state.pending, eligible);
      DispatchingShrinks(policy, p, id, now, port);
      Dispatch(policy, DispatchOne(policy, p, id, now, port), now, port)
    else p
  }

  function ThenDispatch(policy: Policy, p: Progress, now: int, port: Port): Progress {
    Extend(p, Dispatch(policy, Begin(p.state), now, port))
  }

  // Calls

  function Overdue(policy: Policy, s: State, now: int): set<Id> {
    set id | id in s.active && now - s.active[id].submittedAt >= policy.timeout
  }

  /** The overdue requests, by id, as they were when the call began. */
  function OverdueActives(policy: Policy, s: State, now: int): seq<Active> {
    var ids := Ascending(Overdue(policy, s, now));
    assert forall i :: 0 <= i < |ids| ==> ids[i] in Overdue(policy, s, now);
    seq(|ids|, i requires 0 <= i < |ids| => s.active[ids[i]])
  }

  function ExpireAll(policy: Policy, p: Progress, expired: seq<Active>, now: int): Progress
    decreases |expired|
  {
    if expired == [] then p
    else
      var a := expired[0];
      var withdrawn := p.(state := p.state.(active := p.state.active - {a.request.id}),
                          commands := p.commands + [Withdraw(a.request)]);
      ExpireAll(policy, RetryOrFinish(policy, withdrawn, a, now, EXPIRED, OVERDUE), expired[1..], now)
  }

  function ReadinessOf(dependency: Dependency, observed: nat): Readiness {
    if observed >= dependency.minimum then READY else DEGRADED
  }

  function CompletionResults(request: Request, observed: nat, now: int): (r: seq<Result>)
    ensures |r| == |request.dependencies|
    ensures forall i :: 0 <= i < |r| ==> r[i].requestId == request.id && r[i].dependency == request.dependencies[i]
  {
    seq(|request.dependencies|, i requires 0 <= i < |request.dependencies| =>
      Result(request.id, request.dependencies[i], ReadinessOf(request.dependencies[i], observed), observed, now))
  }

  datatype Call =
    | Enqueue(requests: seq<Request>)
    | Advance
    | Complete(id: Id, observations: seq<Id>)
    | Fail(id: Id, blank: bool, retryable: bool)
    | Cancel(id: Id)

  /** Everything a call does before it dispatches; `problem` is set when it raises instead. */
  function Settle(policy: Policy, s: State, call: Call, now: int): Progress {
    var p := Begin(s);
    if now < 0 then Raise(p, NegativeNow)
    else match call
      case Enqueue(requests) => EnqueueAll(policy, p, requests, now)
      case Advance => ExpireAll(policy, p, OverdueActives(policy, s, now), now)
      case Complete(id, observations) =>
        if id !in s.active then Raise(p, NotActive)
        else if now <= 0 then Raise(p, BadReceipt)
        else
          var a := s.active[id];
          p.(state := s.(active := s.active - {id}, terminal := s.terminal + {id}),
             update := Update([Event(a.request.id, COMPLETED, a.attempt, now)],
                              [Batch(a.request, observations, now)],
                              CompletionResults(a.request, |observations|, now)),
             closed := map[id := a.request])
      case Fail(id, blank, retryable) =>
        if id !in s.active then Raise(p, NotActive)
        else
          var popped := p.(state := s.(active := s.active - {id}));
          if blank then Raise(popped.(forgotten := multiset{id}), BlankReason)
          else if retryable then RetryOrFinish(policy, popped, s.active[id], now, FAILED, LOST)
          else FinishFailure(popped, s.active[id], now, FAILED, LOST)
      case Cancel(id) =>
        if id in s.pending then
          var q := s.pending[id];
          FinishFailure(p.(state := s.(pending := s.pending - {id})), Active(q.request, q.attempt, now), now,
                        CANCELED, DROPPED)
        else if id in s.active then
          FinishFailure(p.(state := s.(active := s.active - {id}), commands := [Withdraw(s.active[id].request)]),
                        s.active[id], now, CANCELED, DROPPED)
        else p
  }

  /** Canceling an unknown request is the one call that neither raises nor dispatches. */
  predicate Idles(s: State, call: Call) {
    call.Cancel? && !s.Live(call.id)
  }

  function Perform(policy: Policy, s: State, call: Call, now: int, port: Port): Progress {
    var settled := Settle(policy, s, call, now);
    if settled.problem.Some? || Idles(s, call) then settled else ThenDispatch(policy, settled, now, port)
  }
}
