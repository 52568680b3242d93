/** What one dispatch, one expiry sweep and one enqueue achieve, and the two ways a caller can be left
    without results. */
module ExecutionDispatch {
  import opened Prelude
  import opened HistoricalExecution
  import opened ExecutionHistory

  /** Dispatch stops only with the in-flight set full or nothing eligible. */
  lemma {:induction false} DispatchExhausts(policy: Policy, p: Progress, now: int, port: Port)
    ensures var s := Dispatch(policy, p, now, port).state;
      |s.active| >= policy.maximumInFlight || Eligible(s, now) == {}
    decreases Eligible(p.state, now)
  {
    var eligible := Eligible(p.state, now);
    if |p.state.active| < policy.maximumInFlight && eligible != {} {
      var id := First(p.state.pending, eligible);
      DispatchingShrinks(policy, p, id, now, port);
      DispatchExhausts(policy, DispatchOne(policy, p, id, now, port), now, port);
    }
  }

  /** The first `k` of `ids` in dispatch order. */
  ghost predicate IsTop(p: map<Id, Pending>, ids: set<Id>, k: nat, chosen: seq<Id>)
    requires ids <= p.Keys
  {
    && |chosen| == Min(k, |ids|)
    && (forall i :: 0 <= i < |chosen| ==> chosen[i] in ids)
    && (forall i, j :: 0 <= i < j < |chosen| ==> Ahead(p, chosen[i], chosen[j]))
    && (forall i, id :: 0 <= i < |chosen| && id in ids && id !in chosen ==> Ahead(p, chosen[i], id))
  }

  lemma TopGrows(p: map<Id, Pending>, ids: set<Id>, k: nat, first: Id, rest: seq<Id>)
    requires ids <= p.Keys && 0 < k && IsFirst(p, ids, first) && IsTop(p, ids - {first}, k - 1, rest)
    ensures IsTop(p, ids, k, [first] + rest)
  {
    var chosen := [first] + rest;
    forall i, j | 0 <= i < j < |chosen| ensures Ahead(p, chosen[i], chosen[j]) {
      assert chosen[j] == rest[j - 1] && rest[j - 1] in ids - {first};
    }
    forall i, id | 0 <= i < |chosen| && id in ids && id !in chosen ensures Ahead(p, chosen[i], id) {
      assert first in chosen;
      if i > 0 { assert chosen[i] == rest[i - 1] && id !in rest; }
    }
  }

  ghost predicate Takes(port: Port) {
    forall id, attempt :: port(id, attempt)
  }

  /** The commands that submit `chosen`, in order, each at its current attempt. */
  function Submitting(p: map<Id, Pending>, chosen: seq<Id>): seq<Command>
    requires forall i :: 0 <= i < |chosen| ==> chosen[i] in p
  {
    seq(|chosen|, i requires 0 <= i < |chosen| => Submit(p[chosen[i]].request, p[chosen[i]].attempt, true))
  }

  /** The state once `chosen` are in flight. */
  ghost predicate Launched(s: State, chosen: seq<Id>, now: int, t: State) {
    && t.terminal == s.terminal
    && (forall id :: id in t.pending <==> id in s.pending && id !in chosen)
    && (forall id :: id in t.pending ==> t.pending[id] == s.pending[id])
    && (forall id :: id in t.active <==> id in s.active || id in chosen)
    && (forall id :: id in t.active ==>
          if id in chosen && id in s.pending
          then t.active[id] == Active(s.pending[id].request, s.pending[id].attempt, now)
          else id in s.active && t.active[id] == s.active[id])
  }

  lemma LaunchGrows(s: State, id: Id, rest: seq<Id>, now: int, mid: State, t: State)
    requires id in s.pending && id !in s.active && forall other :: other in rest ==> other in s.pending && other != id
    requires mid == s.(pending := s.pending - {id},
                       active := s.active[id := Active(s.pending[id].request, s.pending[id].attempt, now)])
    requires Launched(mid, rest, now, t)
    ensures Launched(s, [id] + rest, now, t)
  {
  }

  /** Dispatching `p` submits exactly `chosen`, the first eligible requests there is room for. */
  ghost predicate SubmitsTop(policy: Policy, p: Progress, now: int, port: Port, chosen: seq<Id>) {
    && |p.state.active| <= policy.maximumInFlight
    && IsTop(p.state.pending, Eligible(p.state, now), policy.maximumInFlight - |p.state.active|, chosen)
    && Dispatch(policy, p, now, port).commands == p.commands + Submitting(p.state.pending, chosen)
    && Launched(p.state, chosen, now, Dispatch(policy, p, now, port).state)
  }

  /** With a port that takes every submission, dispatch submits exactly the first eligible requests by
      priority and id, as many as there is room for, and nothing else changes. */
  lemma {:induction false} DispatchSubmitsTheTop(policy: Policy, p: Progress, now: int, port: Port)
    requires Sound(policy, p.state) && Takes(port)
    ensures exists chosen :: SubmitsTop(policy, p, now, port, chosen)
    decreases Eligible(p.state, now)
  {
    var s := p.state;
    var eligible := Eligible(s, now);
    if |s.active| < policy.maximumInFlight && eligible != {} {
      hide Ledger, Carried, SubmitsTop, DispatchOne;
      var id := First(s.pending, eligible);
      var one := DispatchOne(policy, p, id, now, port);
      DispatchingShrinks(policy, p, id, now, port);
      Identified(policy, s, id);
      LaunchOne(policy, p, id, now, port);
      DispatchSubmitsTheTop(policy, one, now, port);
      var rest :| SubmitsTop(policy, one, now, port, rest);
      TopStep(policy, p, id, now, port, rest);
    } else {
      assert SubmitsTop(policy, p, now, port, []) by {
        assert IsTop(s.pending, eligible, policy.maximumInFlight - |s.active|, []);
        assert p.commands + Submitting(s.pending, []) == p.commands;
      }
    }
  }

  lemma LaunchOne(policy: Policy, p: Progress, id: Id, now: int, port: Port)
    requires Sound(policy, p.state) && Takes(port)
    requires id in p.state.pending && |p.state.active| < policy.maximumInFlight
    ensures var one := DispatchOne(policy, p, id, now, port); var q := p.state.pending[id];
      && one.state == p.state.(pending := p.state.pending - {id},
                               active := p.state.active[id := Active(q.request, q.attempt, now)])
      && one.commands == p.commands + [Submit(q.request, q.attempt, true)]
      && |one.state.active| == |p.state.active| + 1 && Sound(policy, one.state)
  {
    Identified(policy, p.state, id);
    AcceptedLedger(policy, p.state, id, now, port);
    assert DispatchOne(policy, Begin(p.state), id, now, port).state == DispatchOne(policy, p, id, now, port).state;
  }

  lemma TopStep(policy: Policy, p: Progress, id: Id, now: int, port: Port, rest: seq<Id>)
    requires Sound(policy, p.state) && Takes(port) && |p.state.active| < policy.maximumInFlight
    requires Eligible(p.state, now) != {} && id == First(p.state.pending, Eligible(p.state, now))
    requires SubmitsTop(policy, DispatchOne(policy, p, id, now, port), now, port, rest)
    ensures SubmitsTop(policy, p, now, port, [id] + rest)
  {
    hide Sound, DispatchOne, IsTop, Launched, Submitting;
    var s := p.state;
    var one := DispatchOne(policy, p, id, now, port);
    Identified(policy, s, id);
    LaunchOne(policy, p, id, now, port);
    DispatchingShrinks(policy, p, id, now, port);
    TopStepIds(s.pending, Eligible(s, now), policy.maximumInFlight - |s.active|, id, rest);
    TopStepCommands(p.commands, s.pending, id, rest);
    LaunchGrows(s, id, rest, now, one.state, Dispatch(policy, one, now, port).state);
  }

  lemma TopStepIds(p: map<Id, Pending>, ids: set<Id>, room: nat, id: Id, rest: seq<Id>)
    requires ids <= p.Keys && 0 < room && IsFirst(p, ids, id)
    requires IsTop(p - {id}, ids - {id}, room - 1, rest)
    ensures IsTop(p, ids, room, [id] + rest)
    ensures forall i :: 0 <= i < |rest| ==> rest[i] in p && rest[i] != id
  {
    TopMembers(p - {id}, ids - {id}, room - 1, rest);
    TopOfSmaller(p, id, ids - {id}, room - 1, rest);
    TopGrows(p, ids, room, id, rest);
  }

  lemma TopStepCommands(sent: seq<Command>, p: map<Id, Pending>, id: Id, rest: seq<Id>)
    requires id in p && forall i :: 0 <= i < |rest| ==> rest[i] in p && rest[i] != id
    ensures forall i :: 0 <= i < |[id] + rest| ==> ([id] + rest)[i] in p
    ensures sent + Submitting(p, [id] + rest) ==
            (sent + [Submit(p[id].request, p[id].attempt, true)]) + Submitting(p - {id}, rest)
  {
    SubmittingGrows(p, id, rest);
  }

  lemma TopMembers(p: map<Id, Pending>, ids: set<Id>, k: nat, chosen: seq<Id>)
    requires ids <= p.Keys && IsTop(p, ids, k, chosen)
    ensures forall id :: id in chosen ==> id in ids
  {
  }

  lemma TopOfSmaller(p: map<Id, Pending>, id: Id, ids: set<Id>, k: nat, chosen: seq<Id>)
    requires ids <= p.Keys && id !in ids && IsTop(p - {id}, ids, k, chosen)
    ensures IsTop(p, ids, k, chosen)
  {
  }

  lemma SubmittingGrows(p: map<Id, Pending>, id: Id, rest: seq<Id>)
    requires id in p && forall i :: 0 <= i < |rest| ==> rest[i] in p && rest[i] != id
    ensures Submitting(p, [id] + rest) == [Submit(p[id].request, p[id].attempt, true)] + Submitting(p - {id}, rest)
  {
  }

  // Timeouts

  lemma {:induction false} ExpiryClears(policy: Policy, p: Progress, expired: seq<Active>, now: int)
    requires InFlight(p.state, expired)
    ensures var t := ExpireAll(policy, p, expired, now).state;
      forall id :: id in t.active <==> id in p.state.active && forall a :: a in expired ==> a.request.id != id
    ensures var t := ExpireAll(policy, p, expired, now).state;
      forall id :: id in t.active && id in p.state.active ==> t.active[id] == p.state.active[id]
    decreases |expired|
  {
    if expired != [] {
      ExpireOneLeaves(policy, p, expired, now);
      ExpiryClears(policy, ExpireOne(policy, p, expired[0], now), expired[1..], now);
      assert forall a :: a in expired <==> a == expired[0] || a in expired[1..];
    }
  }

  lemma {:induction false} DispatchStartsNow(policy: Policy, p: Progress, now: int, port: Port)
    requires Overdue(policy, p.state, now) == {}
    ensures Overdue(policy, Dispatch(policy, p, now, port).state, now) == {}
    decreases Eligible(p.state, now)
  {
    var eligible := Eligible(p.state, now);
    if |p.state.active| < policy.maximumInFlight && eligible != {} {
      var id := First(p.state.pending, eligible);
      DispatchingShrinks(policy, p, id, now, port);
      var one := DispatchOne(policy, p, id, now, port);
      forall other | other in one.state.active ensures other !in Overdue(policy, one.state, now) {
        assert other in p.state.active ==> other !in Overdue(policy, p.state, now);
      }
      assert Overdue(policy, one.state, now) == {};
      DispatchStartsNow(policy, one, now, port);
    }
  }

  /** After an advance nothing in flight has reached its timeout. */
  lemma AdvanceLeavesNothingOverdue(policy: Policy, s: State, now: int, port: Port)
    requires Sound(policy, s) && 0 <= now
    ensures var t := Perform(policy, s, Advance, now, port).state;
      forall id :: id in t.active ==> now - t.active[id].submittedAt < policy.timeout
  {
    hide Dispatch, ExpireAll;
    SweepLeavesNothingOverdue(policy, s, now);
    OverdueAreInFlight(policy, s, now);
    EmptyKept(policy, s);
    var expired := OverdueActives(policy, s, now);
    ExpireAllKeeps(policy, s, Begin(s), expired, now);
    var p := ExpireAll(policy, Begin(s), expired, now);
    DispatchStartsNow(policy, Begin(p.state), now, port);
    var t := Perform(policy, s, Advance, now, port).state;
    forall id | id in t.active ensures now - t.active[id].submittedAt < policy.timeout {
      assert id !in Overdue(policy, t, now);
    }
  }

  lemma SweepLeavesNothingOverdue(policy: Policy, s: State, now: int)
    requires Sound(policy, s)
    ensures Overdue(policy, ExpireAll(policy, Begin(s), OverdueActives(policy, s, now), now).state, now) == {}
  {
    hide ExpireAll;
    OverdueAreInFlight(policy, s, now);
    var expired := OverdueActives(policy, s, now);
    ExpiryClears(policy, Begin(s), expired, now);
    var p := ExpireAll(policy, Begin(s), expired, now);
    var ids := Ascending(Overdue(policy, s, now));
    forall id | id in Overdue(policy, s, now) ensures id !in p.state.active {
      assert id in ids;
      var i :| 0 <= i < |ids| && ids[i] == id;
      assert expired[i] in expired;
      ActiveIdentified(policy, s, id);
    }
    assert forall id :: id in Overdue(policy, p.state, now) ==> id in Overdue(policy, s, now);
  }

  // Sharing

  /** `r` is live with all dependencies of `q` and at least its priority. */
  ghost predicate Serves(s: State, q: Request) {
    && s.RequestFor(q.id).Some? && s.RequestFor(q.id).value.priority >= q.priority
    && forall d :: d in q.dependencies ==> d in s.RequestFor(q.id).value.dependencies
  }

  lemma EnqueueOneServes(policy: Policy, p: Progress, request: Request, now: int)
    requires EnqueueOne(policy, p, request, now).problem.None? && p.problem.None?
    ensures Serves(EnqueueOne(policy, p, request, now).state, request)
    ensures forall q :: Serves(p.state, q) ==> Serves(EnqueueOne(policy, p, request, now).state, q)
  {
  }

  /** A successful enqueue serves every given request and every request served before. */
  lemma {:induction false} EnqueueServesAll(policy: Policy, p: Progress, requests: seq<Request>, now: int)
    requires p.problem.None? && EnqueueAll(policy, p, requests, now).problem.None?
    ensures forall q :: q in requests || Serves(p.state, q) ==> Serves(EnqueueAll(policy, p, requests, now).state, q)
    decreases |requests|
  {
    if requests != [] {
      var one := EnqueueOne(policy, p, requests[0], now);
      if one.problem.None? {
        EnqueueOneServes(policy, p, requests[0], now);
        EnqueueServesAll(policy, one, requests[1..], now);
        assert forall q :: q in requests <==> q == requests[0] || q in requests[1..];
      }
    }
  }

  // What consumers are told

  /** Completing a request delivers its batch and tells each dependency, in order, that it is ready
      exactly when enough was observed for it. */
  lemma CompletionTellsReadiness(policy: Policy, s: State, id: Id, observations: seq<Id>, now: int, port: Port)
    requires id in s.active && 0 < now
    ensures var u := Perform(policy, s, Complete(id, observations), now, port).update;
      var q := s.active[id].request;
      && u.batches == [Batch(q, observations, now)]
      && |u.results| == |q.dependencies|
      && forall i :: 0 <= i < |u.results| ==>
           && u.results[i].dependency == q.dependencies[i] && u.results[i].observed == |observations|
           && u.results[i].state == if |observations| >= q.dependencies[i].minimum then READY else Readiness.DEGRADED
  {
    var p := Settle(policy, s, Complete(id, observations), now);
    DispatchTellsNothing(policy, Begin(p.state), now, port);
  }

  /** Canceling a live request tells each of its dependencies so. */
  lemma CancelingTellsAll(policy: Policy, s: State, id: Id, now: int, port: Port)
    requires s.Live(id) && 0 <= now
    ensures Perform(policy, s, Cancel(id), now, port).update.results ==
            FailureResults(s.RequestFor(id).value, DROPPED, now)
  {
    hide Dispatch, Settle;
    CancelSettles(policy, s, id, now);
    DispatchTellsNothing(policy, Begin(Settle(policy, s, Cancel(id), now).state), now, port);
    SettledResultsStay(policy, s, Cancel(id), now, port);
  }

  lemma CancelSettles(policy: Policy, s: State, id: Id, now: int)
    requires s.Live(id) && 0 <= now
    ensures var p := Settle(policy, s, Cancel(id), now);
      p.update.results == FailureResults(s.RequestFor(id).value, DROPPED, now) && p.problem.None?
  {
    var results := FailureResults(s.RequestFor(id).value, DROPPED, now);
    assert [] + results == results;
  }

  lemma SettledResultsStay(policy: Policy, s: State, call: Call, now: int, port: Port)
    requires Dispatch(policy, Begin(Settle(policy, s, call, now).state), now, port).update.results == []
    ensures Perform(policy, s, call, now, port).update.results == Settle(policy, s, call, now).update.results
  {
    hide Dispatch, Settle;
  }

  lemma {:induction false} DispatchTellsNothing(policy: Policy, p: Progress, now: int, port: Port)
    ensures var q := Dispatch(policy, p, now, port);
      q.update.results == p.update.results && q.update.batches == p.update.batches
    decreases Eligible(p.state, now)
  {
    var eligible := Eligible(p.state, now);
    if |p.state.active| < policy.maximumInFlight && eligible != {} {
      var id := First(p.state.pending, eligible);
      DispatchingShrinks(policy, p, id, now, port);
      DispatchTellsNothing(policy, DispatchOne(policy, p, id, now, port), now, port);
    }
  }

  // What goes wrong

  /** A live request is forgotten by exactly one kind of call: reporting the failure of an in-flight
      request with a blank reason. It is then neither live nor terminal. */
  lemma OnlyBlankFailuresForget(policy: Policy, s: State, call: Call, now: int, port: Port, id: Id)
    requires Sound(policy, s)
    ensures var p := Perform(policy, s, call, now, port);
      id in p.forgotten <==> call.Fail? && call.blank && call.id == id && id in s.active && 0 <= now
    ensures var p := Perform(policy, s, call, now, port);
      id in p.forgotten ==> !p.state.Live(id) && id !in p.state.terminal && p.problem == Some(BlankReason)
  {
    var p := Settle(policy, s, call, now);
    if 0 <= now {
      match call
      case Enqueue(requests) => EnqueueForgetsNothing(policy, Begin(s), requests, now);
      case Advance => ExpiryForgetsNothing(policy, Begin(s), OverdueActives(policy, s, now), now);
      case Fail(q, blank, retryable) => if q in s.active && blank { ActiveIdentified(policy, s, q); }
      case _ =>
    }
    DispatchForgetsNothing(policy, Begin(p.state), now, port);
  }

  lemma {:induction false} EnqueueForgetsNothing(policy: Policy, p: Progress, requests: seq<Request>, now: int)
    ensures EnqueueAll(policy, p, requests, now).forgotten == p.forgotten
    decreases |requests|
  {
    if requests != [] && p.problem.None? {
      EnqueueForgetsNothing(policy, EnqueueOne(policy, p, requests[0], now), requests[1..], now);
    }
  }

  lemma {:induction false} ExpiryForgetsNothing(policy: Policy, p: Progress, expired: seq<Active>, now: int)
    ensures ExpireAll(policy, p, expired, now).forgotten == p.forgotten
    decreases |expired|
  {
    if expired != [] {
      ExpiryForgetsNothing(policy, ExpireOne(policy, p, expired[0], now), expired[1..], now);
    }
  }

  lemma {:induction false} DispatchForgetsNothing(policy: Policy, p: Progress, now: int, port: Port)
    ensures Dispatch(policy, p, now, port).forgotten == p.forgotten
    decreases Eligible(p.state, now)
  {
    var eligible := Eligible(p.state, now);
    if |p.state.active| < policy.maximumInFlight && eligible != {} {
      var id := First(p.state.pending, eligible);
      DispatchingShrinks(policy, p, id, now, port);
      DispatchForgetsNothing(policy, DispatchOne(policy, p, id, now, port), now, port);
    }
  }

  /** A request whose only attempt the port refuses ends at once, and none of its dependencies is
      ever answered. */
  lemma RefusedOutrightIsNotAnswered(policy: Policy, request: Request, now: int, port: Port)
    requires policy.maximumAttempts == 1 && 0 <= now && !port(request.id, 1)
    ensures var p := Perform(policy, Empty(), Enqueue([request]), now, port);
      request.id in p.state.terminal && p.update.results == [] && p.problem.None?
  {
    var queued := State(map[request.id := Pending(request, 1, now)], map[], {});
    QueuedAlone(policy, request, now);
    var ended := DispatchOne(policy, Begin(queued), request.id, now, port);
    assert Eligible(queued, now) == {request.id};
    assert Eligible(ended.state, now) == {};
    assert Dispatch(policy, ended, now, port) == ended;
  }

  lemma QueuedAlone(policy: Policy, request: Request, now: int)
    requires 0 <= now
    ensures var p := Settle(policy, Empty(), Enqueue([request]), now);
      && p.state == State(map[request.id := Pending(request, 1, now)], map[], {})
      && p.problem.None? && p.update.results == [] && p.commands == [] && p.closed == map[]
  {
    var one := EnqueueOne(policy, Begin(Empty()), request, now);
    assert [request][1..] == [];
    assert EnqueueAll(policy, one, [], now) == one;
  }

  /** Forgetting lets a request start over: with one attempt per request it is submitted twice. */
  lemma ForgettingStartsOver(policy: Policy, request: Request, port: Port)
    requires policy.maximumAttempts == 1 && port(request.id, 1)
    ensures var steps := [Step(Enqueue([request]), 0, port), Step(Fail(request.id, true, true), 0, port),
                          Step(Enqueue([request]), 0, port)];
      Submissions(Run(policy, Begin(Empty()), steps).commands, request.id) == 2
  {
    var steps := [Step(Enqueue([request]), 0, port), Step(Fail(request.id, true, true), 0, port),
                  Step(Enqueue([request]), 0, port)];
    var started := State(map[], map[request.id := Active(request, 1, 0)], {});
    var sent := [Submit(request, 1, true)];
    StartedAlone(policy, request, port);
    var p1 := Extend(Begin(Empty()), Perform(policy, Empty(), steps[0].call, 0, port));
    var p2 := Extend(p1, Perform(policy, started, steps[1].call, 0, port));
    assert p2.state == Empty() && p2.commands == sent;
    var p3 := Extend(p2, Perform(policy, Empty(), steps[2].call, 0, port));
    assert p3.commands == sent + sent;
    SubmissionsAppend(sent, sent, request.id);
    OneSubmission(request, 1, true, request.id);
    assert Run(policy, p3, []) == p3;
    assert steps[2..] == [steps[2]] && steps[2..][1..] == [];
    assert Run(policy, p2, steps[2..]) == p3;
    assert steps[1..][1..] == steps[2..];
    assert Run(policy, p1, steps[1..]) == p3;
  }

  lemma StartedAlone(policy: Policy, request: Request, port: Port)
    requires port(request.id, 1)
    ensures var p := Perform(policy, Empty(), Enqueue([request]), 0, port);
      && p.state == State(map[], map[request.id := Active(request, 1, 0)], {})
      && p.commands == [Submit(request, 1, true)] && p.closed == map[] && p.problem.None?
  {
    hide Settle, Dispatch;
    QueuedAlone(policy, request, 0);
    LaunchedAlone(policy, request, port);
  }

  lemma LaunchedAlone(policy: Policy, request: Request, port: Port)
    requires port(request.id, 1)
    ensures var d := Dispatch(policy, Begin(State(map[request.id := Pending(request, 1, 0)], map[], {})), 0, port);
      && d.state == State(map[], map[request.id := Active(request, 1, 0)], {})
      && d.commands == [Submit(request, 1, true)] && d.closed == map[] && d.problem.None?
  {
    var queued := State(map[request.id := Pending(request, 1, 0)], map[], {});
    var started := DispatchOne(policy, Begin(queued), request.id, 0, port);
    assert Eligible(queued, 0) == {request.id};
    assert queued.pending - {request.id} == map[];
    assert Eligible(started.state, 0) == {};
    assert Dispatch(policy, started, 0, port) == started;
  }
}
