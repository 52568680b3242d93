/** Which enqueues are taken: a condition on the requests as a set, whatever their order. */
module ExecutionAdmission {
  import opened Prelude
  import opened HistoricalExecution
  import opened ExecutionHistory

  function LiveIds(s: State): set<Id> { s.pending.Keys + s.active.Keys }

  function IdsOf(requests: seq<Request>): set<Id> { set q | q in requests :: q.id }

  /** The key under which a request is live. */
  function KeyOf(s: State, id: Id): Option<Id> {
    if s.RequestFor(id).Some? then Some(s.RequestFor(id).value.key) else None
  }

  /** No request is over, equal ids mean equal keys, and all of them together fit. */
  ghost predicate Admissible(policy: Policy, s: State, requests: seq<Request>) {
    && (forall q :: q in requests ==> KeyOf(s, q.id) == Some(q.key) || (KeyOf(s, q.id).None? && q.id !in s.terminal))
    && (forall q, r :: q in requests && r in requests && q.id == r.id ==> q.key == r.key)
    && |LiveIds(s) + IdsOf(requests)| <= policy.maximumQueued
  }

  /** What queueing or sharing one request leaves: one more live request at most, under its own key. */
  ghost predicate Joined(s: State, request: Request, t: State) {
    && LiveIds(t) == LiveIds(s) + {request.id} && t.terminal == s.terminal
    && KeyOf(t, request.id) == Some(request.key)
    && (forall id :: id != request.id ==> KeyOf(t, id) == KeyOf(s, id))
  }

  lemma LiveCount(policy: Policy, s: State)
    requires Sound(policy, s)
    ensures |LiveIds(s)| == |s.pending| + |s.active| <= policy.maximumQueued
  {
    forall id | id in s.pending.Keys ensures id !in s.active.Keys { }
    assert s.pending.Keys !! s.active.Keys;
    assert |s.pending.Keys| == |s.pending| && |s.active.Keys| == |s.active|;
  }

  lemma LiveIff(s: State, id: Id)
    ensures id in LiveIds(s) <==> s.Live(id)
    ensures KeyOf(s, id).Some? <==> s.Live(id)
  {
  }

  lemma OneJoins(policy: Policy, p: Progress, request: Request, now: int)
    requires Sound(policy, p.state) && p.problem.None?
    ensures var q := EnqueueOne(policy, p, request, now);
      && (q.problem.None? <==>
            if p.state.Live(request.id) then KeyOf(p.state, request.id) == Some(request.key)
            else request.id !in p.state.terminal && |LiveIds(p.state)| < policy.maximumQueued)
      && (q.problem.None? ==> Joined(p.state, request, q.state))
  {
    LiveCount(policy, p.state);
    var q := EnqueueOne(policy, p, request, now);
    if p.state.Live(request.id) {
      var id := p.state.RequestFor(request.id).value.id;
      IsKeyed(policy, p.state, request.id);
    }
  }

  lemma IsKeyed(policy: Policy, s: State, id: Id)
    requires Sound(policy, s) && s.Live(id)
    ensures s.RequestFor(id).value.id == id
  {
  }

  lemma FirstOfAll(requests: seq<Request>)
    requires requests != []
    ensures forall q :: q in requests <==> q == requests[0] || q in requests[1..]
    ensures IdsOf(requests) == {requests[0].id} + IdsOf(requests[1..])
  {
    assert requests == [requests[0]] + requests[1..];
    forall id ensures id in IdsOf(requests) <==> id == requests[0].id || id in IdsOf(requests[1..]) {
      if id in IdsOf(requests) {
        var q :| q in requests && q.id == id;
      }
    }
  }

  /** The remaining requests are judged the same before and after the first. */
  lemma JoiningIsAdmissible(policy: Policy, s: State, requests: seq<Request>, t: State)
    requires requests != [] && Joined(s, requests[0], t)
    requires KeyOf(s, requests[0].id) == Some(requests[0].key)
      || (KeyOf(s, requests[0].id).None? && requests[0].id !in s.terminal)
    ensures Admissible(policy, s, requests) <==> Admissible(policy, t, requests[1..])
  {
    hide KeyOf, LiveIds, IdsOf;
    var first, rest := requests[0], requests[1..];
    FirstOfAll(requests);
    assert LiveIds(s) + IdsOf(requests) == LiveIds(t) + IdsOf(rest);
    assert forall q :: q in rest && q.id == first.id ==> KeyOf(t, q.id) == Some(first.key);
  }

  lemma TurnedAwayIsInadmissible(policy: Policy, s: State, requests: seq<Request>)
    requires requests != []
    requires if s.Live(requests[0].id) then KeyOf(s, requests[0].id) != Some(requests[0].key)
             else requests[0].id in s.terminal || policy.maximumQueued <= |LiveIds(s)|
    ensures !Admissible(policy, s, requests)
  {
    var first := requests[0];
    FirstOfAll(requests);
    LiveIff(s, first.id);
    if !s.Live(first.id) && policy.maximumQueued <= |LiveIds(s)| {
      Grows(LiveIds(s), first.id, LiveIds(s) + IdsOf(requests));
    }
  }

  lemma Grows(some: set<Id>, id: Id, all: set<Id>)
    requires some <= all && id in all && id !in some
    ensures |some| < |all|
  {
    var rest := all - some - {id};
    assert all == some + {id} + rest;
  }

  lemma {:induction false} QueueingSucceedsIff(policy: Policy, p: Progress, requests: seq<Request>, now: int)
    requires Sound(policy, p.state) && p.problem.None?
    ensures EnqueueAll(policy, p, requests, now).problem.None? <==> Admissible(policy, p.state, requests)
    decreases |requests|
  {
    if requests == [] {
      LiveCount(policy, p.state);
      assert LiveIds(p.state) + IdsOf(requests) == LiveIds(p.state);
    } else {
      var one := EnqueueOne(policy, p, requests[0], now);
      OneJoins(policy, p, requests[0], now);
      EnqueueOneStaysSound(policy, p, requests[0], now);
      LiveIff(p.state, requests[0].id);
      hide KeyOf, EnqueueOne, Sound, Admissible, Joined, LiveIds;
      if one.problem.None? {
        QueueingSucceedsIff(policy, one, requests[1..], now);
        JoiningIsAdmissible(policy, p.state, requests, one.state);
      } else {
        TurnedAwayIsInadmissible(policy, p.state, requests);
      }
    }
  }

  /** An enqueue succeeds exactly when none of its requests is over, every key goes with its id, and the
      live requests together with the new ones fit the queue. */
  lemma EnqueueSucceedsIff(policy: Policy, s: State, requests: seq<Request>, now: int, port: Port)
    requires Sound(policy, s) && 0 <= now
    ensures Perform(policy, s, Enqueue(requests), now, port).problem.None? <==> Admissible(policy, s, requests)
  {
    QueueingSucceedsIff(policy, Begin(s), requests, now);
    hide Sound, Admissible, EnqueueAll;
    var settled := Settle(policy, s, Enqueue(requests), now);
    if settled.problem.None? { DispatchNeverRaises(policy, Begin(settled.state), now, port); }
  }

  lemma {:induction false} DispatchNeverRaises(policy: Policy, p: Progress, now: int, port: Port)
    requires p.problem.None?
    ensures Dispatch(policy, p, now, port).problem.None?
    decreases Eligible(p.state, now)
  {
    var eligible := Eligible(p.state, now);
    if |p.state.active| < policy.maximumInFlight && eligible != {} {
      var id := First(p.state.pending, eligible);
      DispatchingShrinks(policy, p, id, now, port);
      DispatchNeverRaises(policy, DispatchOne(policy, p, id, now, port), now, port);
    }
  }

  /** So the order in which the requests are listed does not decide it. */
  lemma OrderDoesNotDecide(
      policy: Policy, s: State, requests: seq<Request>, others: seq<Request>, now: int, port: Port)
    requires Sound(policy, s) && 0 <= now && forall q :: q in requests <==> q in others
    ensures Perform(policy, s, Enqueue(requests), now, port).problem.None?
        <==> Perform(policy, s, Enqueue(others), now, port).problem.None?
  {
    EnqueueSucceedsIff(policy, s, requests, now, port);
    EnqueueSucceedsIff(policy, s, others, now, port);
    assert IdsOf(requests) == IdsOf(others);
    hide Sound, Perform, IdsOf;
  }

  // What it tells

  /** The event of one request: queued when it was not live, shared when its dependency list has changed,
      and none otherwise. */
  function Announcement(s: State, request: Request, t: State, now: int): seq<Event> {
    var before, after := s.RequestFor(request.id), t.RequestFor(request.id);
    if before.None? then [Event(request.id, QUEUED, 1, now)]
    else if after.Some? && after.value.dependencies != before.value.dependencies then
      [Event(request.id, SHARED,
             if request.id in s.pending then s.pending[request.id].attempt else s.active[request.id].attempt, now)]
    else []
  }

  lemma OneIsAnnounced(policy: Policy, p: Progress, request: Request, now: int)
    requires Sound(policy, p.state) && EnqueueOne(policy, p, request, now).problem.None?
    ensures var q := EnqueueOne(policy, p, request, now);
      q.update.events == p.update.events + Announcement(p.state, request, q.state, now)
  {
  }

  lemma {:induction false} QueueingJoins(policy: Policy, p: Progress, a: seq<Request>, b: seq<Request>, now: int)
    ensures EnqueueAll(policy, p, a + b, now) == EnqueueAll(policy, EnqueueAll(policy, p, a, now), b, now)
    decreases |a|
  {
    hide EnqueueOne;
    if a == [] || p.problem.Some? {
      assert [] + b == b;
    } else {
      assert (a + b)[1..] == a[1..] + b;
      QueueingJoins(policy, EnqueueOne(policy, p, a[0], now), a[1..], b, now);
    }
  }

  lemma {:induction false} QueueingStaysSound(policy: Policy, p: Progress, requests: seq<Request>, now: int)
    requires Sound(policy, p.state)
    ensures Sound(policy, EnqueueAll(policy, p, requests, now).state)
    decreases |requests|
  {
    hide EnqueueOne, Sound;
    if requests != [] && p.problem.None? {
      EnqueueOneStaysSound(policy, p, requests[0], now);
      QueueingStaysSound(policy, EnqueueOne(policy, p, requests[0], now), requests[1..], now);
    }
  }

  /** An enqueue that succeeds tells of its requests one after the other: whatever the first ones have left
      queued, the next is told as queued or shared by what it does to that. */
  lemma EnqueueTellsEach(policy: Policy, s: State, requests: seq<Request>, now: int, i: nat)
    requires Sound(policy, s) && i < |requests| && EnqueueAll(policy, Begin(s), requests, now).problem.None?
    ensures var p := EnqueueAll(policy, Begin(s), requests[..i], now);
      var q := EnqueueAll(policy, Begin(s), requests[..i + 1], now);
      && q.problem.None?
      && q.update.events == p.update.events + Announcement(p.state, requests[i], q.state, now)
  {
    hide EnqueueOne, Sound, Announcement;
    var p := EnqueueAll(policy, Begin(s), requests[..i], now);
    var one, rest := [requests[i]], requests[i + 1..];
    assert one[1..] == [] && requests[..i] + one == requests[..i + 1] && requests[..i + 1] + rest == requests;
    QueueingJoins(policy, Begin(s), requests[..i], one, now);
    QueueingJoins(policy, Begin(s), requests[..i + 1], rest, now);
    QueueingStaysSound(policy, Begin(s), requests[..i], now);
    assert EnqueueAll(policy, p, one, now) == EnqueueAll(policy, EnqueueOne(policy, p, requests[i], now), [], now);
    OneIsAnnounced(policy, p, requests[i], now);
  }
}
