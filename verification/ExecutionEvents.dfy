/** The events that callers see tell where every request is: waiting for which attempt and until when,
    in flight since when, or over. */
module ExecutionEvents {
  import opened Prelude
  import opened HistoricalExecution
  import opened ExecutionHistory

  /** Where a request is. */
  datatype Where =
    | Nowhere
    | Waiting(attempt: int, until: int)
    | Flying(attempt: int, since: int)
    | Over

  function WhereIs(s: State, id: Id): Where {
    if id in s.terminal then Over
    else if id in s.active then Flying(s.active[id].attempt, s.active[id].submittedAt)
    else if id in s.pending then Waiting(s.pending[id].attempt, s.pending[id].availableAt)
    else Nowhere
  }

  /** Where an event says its request went. */
  function Follow(policy: Policy, w: Where, e: Event): Where {
    match e.state
    case QUEUED => Waiting(e.attempt, e.at)
    case SHARED => w
    case SUBMITTED => Flying(e.attempt, e.at)
    case RETRY_SCHEDULED => Waiting(e.attempt, e.at + policy.retryBackoff)
    case _ => Over
  }

  /** Where the events say a request is that started at `w`. */
  function Trace(policy: Policy, w: Where, events: seq<Event>, id: Id): Where
    decreases |events|
  {
    if events == [] then w
    else Trace(policy, if events[0].requestId == id then Follow(policy, w, events[0]) else w, events[1..], id)
  }

  lemma {:induction false} TraceAppends(policy: Policy, w: Where, a: seq<Event>, b: seq<Event>, id: Id)
    ensures Trace(policy, w, a + b, id) == Trace(policy, Trace(policy, w, a, id), b, id)
    decreases |a|
  {
    if a == [] {
      assert a + b == b;
    } else {
      assert (a + b)[1..] == a[1..] + b;
      TraceAppends(policy, if a[0].requestId == id then Follow(policy, w, a[0]) else w, a[1..], b, id);
    }
  }

  /** The events tell of every request where it went between `s` and `t`. */
  ghost predicate Traced(policy: Policy, s: State, events: seq<Event>, t: State) {
    forall id :: WhereIs(t, id) == Trace(policy, WhereIs(s, id), events, id)
  }

  lemma TracedJoins(policy: Policy, s: State, a: seq<Event>, t: State, b: seq<Event>, u: State)
    requires Traced(policy, s, a, t) && Traced(policy, t, b, u)
    ensures Traced(policy, s, a + b, u)
  {
    forall id ensures WhereIs(u, id) == Trace(policy, WhereIs(s, id), a + b, id) {
      TraceAppends(policy, WhereIs(s, id), a, b, id);
    }
  }

  lemma NothingHappens(policy: Policy, s: State, t: State)
    requires forall id :: WhereIs(t, id) == WhereIs(s, id)
    ensures Traced(policy, s, [], t)
  {
  }

  lemma OneEvent(policy: Policy, s: State, e: Event, t: State)
    requires WhereIs(t, e.requestId) == Follow(policy, WhereIs(s, e.requestId), e)
    requires forall id :: id != e.requestId ==> WhereIs(t, id) == WhereIs(s, id)
    ensures Traced(policy, s, [e], t)
  {
    assert [e][1..] == [];
  }

  // Single moves

  lemma RetryOrFinishTells(policy: Policy, s: State, p: Progress, a: Active, now: int, execution: ExecutionState,
                           readiness: Readiness)
    requires !p.state.Live(a.request.id) && a.request.id !in p.state.terminal
    requires forall id :: id != a.request.id ==> WhereIs(p.state, id) == WhereIs(s, id)
    requires execution in {FAILED, EXPIRED, CANCELED}
    ensures var q := RetryOrFinish(policy, p, a, now, execution, readiness);
      exists e :: q.update.events == p.update.events + [e] && Traced(policy, s, [e], q.state)
    ensures var q := FinishFailure(p, a, now, execution, readiness);
      exists e :: q.update.events == p.update.events + [e] && Traced(policy, s, [e], q.state)
  {
    var ended := Event(a.request.id, execution, a.attempt, now);
    var retried := Event(a.request.id, RETRY_SCHEDULED, a.attempt + 1, now);
    OneEvent(policy, s, ended, FinishFailure(p, a, now, execution, readiness).state);
    if a.attempt < policy.maximumAttempts {
      OneEvent(policy, s, retried, RetryOrFinish(policy, p, a, now, execution, readiness).state);
    }
  }

  /** `q` has gone on from `p`, and its further events tell how. */
  ghost predicate GoesOn(policy: Policy, p: Progress, q: Progress) {
    p.update.events <= q.update.events && Traced(policy, p.state, q.update.events[|p.update.events|..], q.state)
  }

  lemma GoesOnBy(policy: Policy, p: Progress, q: Progress, more: seq<Event>)
    requires q.update.events == p.update.events + more && Traced(policy, p.state, more, q.state)
    ensures GoesOn(policy, p, q)
  {
    assert q.update.events[|p.update.events|..] == more;
  }

  lemma GoesOnJoins(policy: Policy, p: Progress, q: Progress, r: Progress)
    requires GoesOn(policy, p, q) && GoesOn(policy, q, r)
    ensures GoesOn(policy, p, r)
  {
    var a, b := q.update.events[|p.update.events|..], r.update.events[|q.update.events|..];
    TracedJoins(policy, p.state, a, q.state, b, r.state);
    assert r.update.events[|p.update.events|..] == a + b;
  }

  lemma StandsStill(policy: Policy, p: Progress)
    ensures GoesOn(policy, p, p)
  {
    NothingHappens(policy, p.state, p.state);
    GoesOnBy(policy, p, p, []);
  }

  lemma EnqueueOneTellsWhere(policy: Policy, p: Progress, request: Request, now: int)
    requires Sound(policy, p.state) && EnqueueOne(policy, p, request, now).problem.None? && p.problem.None?
    ensures GoesOn(policy, p, EnqueueOne(policy, p, request, now))
  {
    var s, q := p.state, EnqueueOne(policy, p, request, now);
    if s.RequestFor(request.id).None? {
      OneEvent(policy, s, Event(request.id, QUEUED, 1, now), q.state);
      GoesOnBy(policy, p, q, [Event(request.id, QUEUED, 1, now)]);
    } else {
      var attempt := if request.id in s.pending then s.pending[request.id].attempt else s.active[request.id].attempt;
      var e := Event(request.id, SHARED, attempt, now);
      NothingHappens(policy, s, q.state);
      OneEvent(policy, s, e, q.state);
      if q.update.events == p.update.events {
        GoesOnBy(policy, p, q, []);
      } else {
        GoesOnBy(policy, p, q, [e]);
      }
    }
  }

  lemma {:induction false} EnqueueAllTellsWhere(policy: Policy, p: Progress, requests: seq<Request>, now: int)
    requires Sound(policy, p.state) && p.problem.None? && EnqueueAll(policy, p, requests, now).problem.None?
    ensures GoesOn(policy, p, EnqueueAll(policy, p, requests, now))
    decreases |requests|
  {
    if requests == [] {
      StandsStill(policy, p);
    } else {
      var one := EnqueueOne(policy, p, requests[0], now);
      if one.problem.None? {
        EnqueueOneTellsWhere(policy, p, requests[0], now);
        EnqueueOneStaysSound(policy, p, requests[0], now);
        hide EnqueueOne, GoesOn, Sound;
        EnqueueAllTellsWhere(policy, one, requests[1..], now);
        GoesOnJoins(policy, p, one, EnqueueAll(policy, one, requests[1..], now));
      }
    }
  }

  lemma DispatchOneTellsWhere(policy: Policy, p: Progress, id: Id, now: int, port: Port)
    requires Sound(policy, p.state) && id in p.state.pending
    ensures GoesOn(policy, p, DispatchOne(policy, p, id, now, port))
  {
    var s, one := p.state, DispatchOne(policy, p, id, now, port);
    var q := s.pending[id];
    Identified(policy, s, id);
    if port(id, q.attempt) {
      var e := Event(id, SUBMITTED, q.attempt, now);
      OneEvent(policy, s, e, one.state);
      GoesOnBy(policy, p, one, [e]);
    } else {
      var popped := p.(state := s.(pending := s.pending - {id}),
                       commands := p.commands + [Submit(q.request, q.attempt, port(id, q.attempt))]);
      RetryOrFinishTells(policy, s, popped, Active(q.request, q.attempt, now), now, FAILED, LOST);
      var e :| one.update.events == p.update.events + [e] && Traced(policy, s, [e], one.state);
      GoesOnBy(policy, p, one, [e]);
    }
  }

  lemma {:induction false} DispatchTellsWhere(policy: Policy, p: Progress, now: int, port: Port)
    requires Sound(policy, p.state)
    ensures GoesOn(policy, p, Dispatch(policy, p, now, port))
    decreases Eligible(p.state, now)
  {
    var eligible := Eligible(p.state, now);
    if |p.state.active| < policy.maximumInFlight && eligible != {} {
      var id := First(p.state.pending, eligible);
      DispatchingShrinks(policy, p, id, now, port);
      DispatchOneTellsWhere(policy, p, id, now, port);
      DispatchOneStaysSound(policy, p, id, now, port);
      hide DispatchOne, GoesOn, Sound;
      var one := DispatchOne(policy, p, id, now, port);
      DispatchTellsWhere(policy, one, now, port);
      GoesOnJoins(policy, p, one, Dispatch(policy, one, now, port));
    } else {
      StandsStill(policy, p);
    }
  }

  lemma ExpireOneTellsWhere(policy: Policy, p: Progress, a: Active, now: int)
    requires Sound(policy, p.state) && a.request.id in p.state.active && p.state.active[a.request.id] == a
    ensures GoesOn(policy, p, ExpireOne(policy, p, a, now))
  {
    var s, id := p.state, a.request.id;
    ActiveIdentified(policy, s, id);
    var withdrawn := p.(state := s.(active := s.active - {id}), commands := p.commands + [Withdraw(a.request)]);
    RetryOrFinishTells(policy, s, withdrawn, a, now, EXPIRED, OVERDUE);
    var one := ExpireOne(policy, p, a, now);
    var e :| one.update.events == p.update.events + [e] && Traced(policy, s, [e], one.state);
    GoesOnBy(policy, p, one, [e]);
  }

  lemma ExpireOneSound(policy: Policy, p: Progress, a: Active, now: int)
    requires Sound(policy, p.state) && a.request.id in p.state.active && p.state.active[a.request.id] == a
    ensures Sound(policy, ExpireOne(policy, p, a, now).state)
  {
    ExpireOneKeeps(policy, p.state, a.request.id, now);
    assert ExpireOne(policy, Begin(p.state), a, now).state == ExpireOne(policy, p, a, now).state;
  }

  lemma {:induction false} ExpireAllTellsWhere(policy: Policy, p: Progress, expired: seq<Active>, now: int)
    requires Sound(policy, p.state) && InFlight(p.state, expired)
    ensures GoesOn(policy, p, ExpireAll(policy, p, expired, now))
    decreases |expired|
  {
    if expired == [] {
      StandsStill(policy, p);
    } else {
      var a := expired[0];
      assert a in expired;
      ExpireOneTellsWhere(policy, p, a, now);
      ExpireOneSound(policy, p, a, now);
      ExpireOneLeaves(policy, p, expired, now);
      hide ExpireOne, GoesOn, Sound, InFlight;
      var one := ExpireOne(policy, p, a, now);
      ExpireAllTellsWhere(policy, one, expired[1..], now);
      GoesOnJoins(policy, p, one, ExpireAll(policy, one, expired[1..], now));
    }
  }

  // Calls

  lemma CompletingTellsWhere(policy: Policy, s: State, id: Id, observations: seq<Id>, now: int)
    requires Sound(policy, s) && id in s.active && 0 < now
    ensures GoesOn(policy, Begin(s), Settle(policy, s, Complete(id, observations), now))
  {
    ActiveIdentified(policy, s, id);
    var q := Settle(policy, s, Complete(id, observations), now);
    var e := Event(id, COMPLETED, s.active[id].attempt, now);
    OneEvent(policy, s, e, q.state);
    GoesOnBy(policy, Begin(s), q, [e]);
  }

  lemma FailingTellsWhere(policy: Policy, s: State, id: Id, retryable: bool, now: int)
    requires Sound(policy, s) && id in s.active && 0 <= now
    ensures GoesOn(policy, Begin(s), Settle(policy, s, Fail(id, false, retryable), now))
  {
    ActiveIdentified(policy, s, id);
    var popped := Begin(s).(state := s.(active := s.active - {id}));
    RetryOrFinishTells(policy, s, popped, s.active[id], now, FAILED, LOST);
    var q := Settle(policy, s, Fail(id, false, retryable), now);
    var e :| q.update.events == Begin(s).update.events + [e] && Traced(policy, s, [e], q.state);
    GoesOnBy(policy, Begin(s), q, [e]);
  }

  lemma CancelingTellsWhere(policy: Policy, s: State, id: Id, now: int)
    requires Sound(policy, s) && s.Live(id) && 0 <= now
    ensures GoesOn(policy, Begin(s), Settle(policy, s, Cancel(id), now))
  {
    hide Sound, GoesOn, FinishFailure;
    if id in s.pending {
      Identified(policy, s, id);
      var a := Active(s.pending[id].request, s.pending[id].attempt, now);
      CanceledTellsWhere(policy, s, Begin(s).(state := s.(pending := s.pending - {id})), a, now);
    } else {
      ActiveIdentified(policy, s, id);
      CanceledTellsWhere(
        policy, s, Begin(s).(state := s.(active := s.active - {id}), commands := [Withdraw(s.active[id].request)]),
        s.active[id], now);
    }
  }

  lemma CanceledTellsWhere(policy: Policy, s: State, popped: Progress, a: Active, now: int)
    requires popped.update.events == [] && !popped.state.Live(a.request.id) && a.request.id !in popped.state.terminal
    requires forall id :: id != a.request.id ==> WhereIs(popped.state, id) == WhereIs(s, id)
    ensures GoesOn(policy, Begin(s), FinishFailure(popped, a, now, CANCELED, DROPPED))
  {
    RetryOrFinishTells(policy, s, popped, a, now, CANCELED, DROPPED);
    var q := FinishFailure(popped, a, now, CANCELED, DROPPED);
    var e :| q.update.events == popped.update.events + [e] && Traced(policy, s, [e], q.state);
    GoesOnBy(policy, Begin(s), q, [e]);
  }

  lemma SettlingTellsWhere(policy: Policy, s: State, call: Call, now: int)
    requires Sound(policy, s) && 0 <= now && Settle(policy, s, call, now).problem.None?
    ensures GoesOn(policy, Begin(s), Settle(policy, s, call, now))
  {
    hide GoesOn, Sound;
    match call
    case Enqueue(requests) => EnqueueAllTellsWhere(policy, Begin(s), requests, now);
    case Advance =>
      OverdueAreInFlight(policy, s, now);
      ExpireAllTellsWhere(policy, Begin(s), OverdueActives(policy, s, now), now);
    case Complete(id, observations) => CompletingTellsWhere(policy, s, id, observations, now);
    case Fail(id, blank, retryable) => FailingTellsWhere(policy, s, id, retryable, now);
    case Cancel(id) =>
      if s.Live(id) { CancelingTellsWhere(policy, s, id, now); } else { StandsStill(policy, Begin(s)); }
  }

  /** A call that does not raise tells where every request is afterwards, from where it was before. */
  lemma CallsTellWhere(policy: Policy, s: State, call: Call, now: int, port: Port)
    requires Sound(policy, s) && Perform(policy, s, call, now, port).problem.None?
    ensures Traced(policy, s, Perform(policy, s, call, now, port).update.events, Perform(policy, s, call, now, port).state)
  {
    hide Sound, Traced, Settle, Dispatch;
    var settled := Settle(policy, s, call, now);
    SettlesOnTime(policy, s, call, now, port);
    SettlingTellsWhere(policy, s, call, now);
    SettledIsSound(policy, s, call, now);
    assert settled.update.events[|Begin(s).update.events|..] == settled.update.events;
    if !Idles(s, call) {
      var d := Dispatch(policy, Begin(settled.state), now, port);
      DispatchTellsWhere(policy, Begin(settled.state), now, port);
      assert d.update.events[|Begin(settled.state).update.events|..] == d.update.events;
      TracedJoins(policy, s, settled.update.events, settled.state, d.update.events, d.state);
    }
  }

  lemma SettlesOnTime(policy: Policy, s: State, call: Call, now: int, port: Port)
    requires Perform(policy, s, call, now, port).problem.None?
    ensures 0 <= now && Settle(policy, s, call, now).problem.None?
  {
  }

  lemma SettledIsSound(policy: Policy, s: State, call: Call, now: int)
    requires Sound(policy, s) && 0 <= now
    ensures Sound(policy, Settle(policy, s, call, now).state)
  {
    SettlingKeeps(policy, s, call, now);
  }

  // Runs

  ghost predicate NeverRaises(policy: Policy, s: State, steps: seq<Step>)
    decreases |steps|
  {
    steps != [] ==>
      var p := Perform(policy, s, steps[0].call, steps[0].now, steps[0].port);
      p.problem.None? && NeverRaises(policy, p.state, steps[1..])
  }

  lemma ExtendingTells(policy: Policy, s: State, p: Progress, q: Progress)
    requires Traced(policy, s, p.update.events, p.state) && Traced(policy, p.state, q.update.events, q.state)
    ensures Traced(policy, s, Extend(p, q).update.events, Extend(p, q).state)
  {
    TracedJoins(policy, s, p.update.events, p.state, q.update.events, q.state);
  }

  lemma {:induction false} RunTellsWhere(policy: Policy, s: State, p: Progress, steps: seq<Step>)
    requires Sound(policy, p.state) && NeverRaises(policy, p.state, steps)
    requires Traced(policy, s, p.update.events, p.state)
    ensures Traced(policy, s, Run(policy, p, steps).update.events, Run(policy, p, steps).state)
    decreases |steps|
  {
    if steps == [] {
    } else {
      var step := steps[0];
      var q := Perform(policy, p.state, step.call, step.now, step.port);
      CallsTellWhere(policy, p.state, step.call, step.now, step.port);
      PerformKeeps(policy, p.state, step.call, step.now, step.port);
      hide Perform, Traced;
      ExtendingTells(policy, s, p, q);
      RunTellsWhere(policy, s, Extend(p, q), steps[1..]);
    }
  }

  lemma EmptyIsSound(policy: Policy)
    ensures Sound(policy, Empty()) && Traced(policy, Empty(), [], Empty())
  {
  }

  /** Whoever has seen all events of a run in which no call raised knows where every request is. */
  lemma EventsTellWhere(policy: Policy, steps: seq<Step>)
    requires NeverRaises(policy, Empty(), steps)
    ensures var r := Run(policy, Begin(Empty()), steps);
      forall id :: WhereIs(r.state, id) == Trace(policy, Nowhere, r.update.events, id)
  {
    hide Run, NeverRaises, Trace;
    EmptyIsSound(policy);
    RunTellsWhere(policy, Empty(), Begin(Empty()), steps);
    assert forall id :: WhereIs(Empty(), id) == Nowhere;
  }

  /** A call that raises part-way is silent about what it did before: the first of two requests is
      queued, the second is turned away because the queue is full, and no event tells of the first. */
  lemma RaisingIsSilent(policy: Policy, a: Request, b: Request, port: Port)
    requires policy.maximumQueued == 1 && a.id != b.id
    ensures var p := Perform(policy, Empty(), Enqueue([a, b]), 0, port);
      && p.problem == Some(QueueFull) && p.update.events == []
      && WhereIs(p.state, a.id) == Waiting(1, 0)
  {
    var one := EnqueueOne(policy, Begin(Empty()), a, 0);
    var two := EnqueueOne(policy, one, b, 0);
    assert [a, b][1..] == [b] && [b][1..] == [];
    assert EnqueueAll(policy, one, [b], 0) == EnqueueAll(policy, two, [], 0) == two;
  }
}
