/** What every run of historical execution keeps: bounds, disjointness, and one readiness result per
    dependency of a request that turns terminal, with the exact exception. */
module ExecutionHistory {
  import opened Prelude
  import opened HistoricalExecution

  ghost predicate Keyed(policy: Policy, s: State) {
    && (forall id :: id in s.pending ==>
          s.pending[id].request.id == id && 1 <= s.pending[id].attempt <= policy.maximumAttempts)
    && (forall id :: id in s.active ==>
          s.active[id].request.id == id && 1 <= s.active[id].attempt <= policy.maximumAttempts)
  }

  ghost predicate Apart(s: State) {
    && (forall id :: id in s.pending ==> id !in s.active && id !in s.terminal)
    && (forall id :: id in s.active ==> id !in s.terminal)
  }

  ghost predicate Bounded(policy: Policy, s: State) {
    |s.active| <= policy.maximumInFlight && |s.pending| + |s.active| <= policy.maximumQueued
  }

  /** Pending, in-flight and terminal requests are kept apart and within the policy's bounds. */
  ghost predicate Sound(policy: Policy, s: State) {
    Keyed(policy, s) && Apart(s) && Bounded(policy, s)
  }

  /** The dependencies that `results` answer for request `id`, in order. */
  function Answered(results: seq<Result>, id: Id): seq<Dependency> {
    if results == [] then []
    else (if results[0].requestId == id then [results[0].dependency] else []) + Answered(results[1..], id)
  }

  function Submissions(commands: seq<Command>, id: Id): nat {
    if commands == [] then 0
    else
      (if commands[0].Submit? && commands[0].request.id == id then 1 else 0) + Submissions(commands[1..], id)
  }

  /** The port refused the last attempt a request has. */
  ghost predicate LastRefused(policy: Policy, commands: seq<Command>, id: Id) {
    exists c :: c in commands && c.Submit? && c.request.id == id && c.attempt >= policy.maximumAttempts && !c.accepted
  }

  /** Attempts of `id` already submitted in `s`. */
  function Used(policy: Policy, s: State, id: Id): int {
    if id in s.pending then s.pending[id].attempt - 1
    else if id in s.active then s.active[id].attempt
    else if id in s.terminal then policy.maximumAttempts
    else 0
  }

  /** Since `s` exactly the closed requests turned terminal, and each of them was answered once per
      dependency unless dispatch abandoned it; nothing else was answered. */
  ghost predicate Accounted(s: State, p: Progress) {
    && p.closed.Keys !! s.terminal && p.state.terminal == s.terminal + p.closed.Keys
    && p.abandoned <= p.closed.Keys
    && (forall id :: id in p.closed ==> p.closed[id].id == id)
    && forall id :: Answered(p.update.results, id) ==
                    if id in p.closed && id !in p.abandoned then p.closed[id].dependencies else []
  }

  /** Every time a request is forgotten it may start over. */
  function Regained(policy: Policy, p: Progress, id: Id): (n: nat)
    ensures p.forgotten[id] == 0 ==> n == 0
  {
    Times(policy.maximumAttempts, p.forgotten[id])
  }

  function Times(a: nat, b: nat): nat { a * b }

  ghost predicate Counted(policy: Policy, s: State, p: Progress) {
    forall id :: Submissions(p.commands, id) + Used(policy, s, id) <= Regained(policy, p, id) + Used(policy, p.state, id)
  }

  ghost predicate Refusals(policy: Policy, p: Progress) {
    forall id :: id in p.abandoned <==> LastRefused(policy, p.commands, id)
  }

  ghost predicate Ledger(policy: Policy, s: State, p: Progress) {
    Sound(policy, p.state) && Accounted(s, p) && Counted(policy, s, p) && Refusals(policy, p)
  }

  ghost predicate Holds(s: State, id: Id, d: Dependency) {
    s.RequestFor(id).Some? && d in s.RequestFor(id).value.dependencies
  }

  /** No dependency of a live request is lost: it is still attached, or its request was closed with it,
      or its request was forgotten. */
  ghost predicate Carried(s: State, p: Progress) {
    forall id, d :: Holds(s, id, d) ==>
      Holds(p.state, id, d) || (id in p.closed && d in p.closed[id].dependencies) || id in p.forgotten
  }

  lemma UsedWithinLimit(policy: Policy, s: State, id: Id)
    requires Keyed(policy, s)
    ensures 0 <= Used(policy, s, id) <= policy.maximumAttempts
  {
  }

  // Sums over logs

  lemma {:induction false} AnsweredAppends(a: seq<Result>, b: seq<Result>, id: Id)
    ensures Answered(a + b, id) == Answered(a, id) + Answered(b, id)
  {
    if a == [] {
      assert a + b == b;
    } else {
      assert (a + b)[1..] == a[1..] + b && (a + b)[0] == a[0];
      AnsweredAppends(a[1..], b, id);
      var first := if a[0].requestId == id then [a[0].dependency] else [];
      assert Answered(a + b, id) == first + (Answered(a[1..], id) + Answered(b, id));
    }
  }

  lemma {:induction false} SubmissionsAppend(a: seq<Command>, b: seq<Command>, id: Id)
    ensures Submissions(a + b, id) == Submissions(a, id) + Submissions(b, id)
  {
    if a == [] {
      assert a + b == b;
    } else {
      assert (a + b)[1..] == a[1..] + b;
      SubmissionsAppend(a[1..], b, id);
    }
  }

  lemma {:induction false} OwnAnswers(results: seq<Result>, q: Id, dependencies: seq<Dependency>, id: Id)
    requires |results| == |dependencies|
    requires forall i :: 0 <= i < |results| ==> results[i].requestId == q && results[i].dependency == dependencies[i]
    ensures Answered(results, id) == if id == q then dependencies else []
  {
    if results != [] {
      OwnAnswers(results[1..], q, dependencies[1..], id);
    }
  }

  lemma AccountsCompose(s: State, p: Progress, q: Progress)
    requires Accounted(s, p) && Accounted(p.state, q)
    ensures Accounted(s, Extend(p, q))
  {
    var r := Extend(p, q);
    forall id ensures Answered(r.update.results, id) ==
                      if id in r.closed && id !in r.abandoned then r.closed[id].dependencies else []
    {
      AnsweredAppends(p.update.results, q.update.results, id);
    }
  }

  /** Ledgers of consecutive stretches add up. */
  lemma LedgersCompose(policy: Policy, s: State, p: Progress, q: Progress)
    requires Ledger(policy, s, p) && Ledger(policy, p.state, q)
    ensures Ledger(policy, s, Extend(p, q))
  {
    hide Accounted, Refusals, Counted, Sound;
    AccountsCompose(s, p, q);
    RefusalsCompose(policy, p, q);
    CountsCompose(policy, s, p, q);
  }

  lemma RefusalsCompose(policy: Policy, p: Progress, q: Progress)
    requires Refusals(policy, p) && Refusals(policy, q)
    ensures Refusals(policy, Extend(p, q))
  {
    forall id ensures LastRefused(policy, p.commands + q.commands, id) <==>
                      LastRefused(policy, p.commands, id) || LastRefused(policy, q.commands, id)
    {
      assert forall c :: c in p.commands + q.commands <==> c in p.commands || c in q.commands;
    }
  }

  lemma CountsCompose(policy: Policy, s: State, p: Progress, q: Progress)
    requires Counted(policy, s, p) && Counted(policy, p.state, q)
    ensures Counted(policy, s, Extend(p, q))
  {
    forall id ensures Submissions(p.commands + q.commands, id) + Used(policy, s, id) <=
                      Regained(policy, Extend(p, q), id) + Used(policy, q.state, id)
    {
      SubmissionsAppend(p.commands, q.commands, id);
      assert Times(policy.maximumAttempts, p.forgotten[id] + q.forgotten[id])
          == Times(policy.maximumAttempts, p.forgotten[id]) + Times(policy.maximumAttempts, q.forgotten[id]);
    }
  }

  // Moves of one request

  /** `id` taken from the queue or the in-flight set. */
  function Without(s: State, id: Id): State {
    if id in s.pending then s.(pending := s.pending - {id}) else s.(active := s.active - {id})
  }

  lemma RemovalCounts<V>(m: map<Id, V>, id: Id)
    ensures |m - {id}| == if id in m then |m| - 1 else |m|
  {
    assert (m - {id}).Keys == m.Keys - {id};
    if id !in m { assert m - {id} == m; }
  }

  lemma WithoutCounts(s: State, id: Id)
    requires Apart(s)
    ensures var t := Without(s, id);
      && |t.pending| + |t.active| == (if s.Live(id) then |s.pending| + |s.active| - 1 else |s.pending| + |s.active|)
      && |t.active| == if id in s.active then |s.active| - 1 else |s.active|
  {
    RemovalCounts(s.pending, id);
    RemovalCounts(s.active, id);
  }

  lemma WithoutStaysKeyed(policy: Policy, s: State, id: Id)
    requires Keyed(policy, s) && Apart(s)
    ensures Keyed(policy, Without(s, id)) && Apart(Without(s, id))
  {
  }

  lemma WithoutIsSound(policy: Policy, s: State, id: Id)
    requires Sound(policy, s)
    ensures var t := Without(s, id);
      && Sound(policy, t) && !t.Live(id)
      && |t.pending| + |t.active| == (if s.Live(id) then |s.pending| + |s.active| - 1 else |s.pending| + |s.active|)
      && |t.active| == if id in s.active then |s.active| - 1 else |s.active|
  {
    hide Keyed, Apart;
    WithoutStaysKeyed(policy, s, id);
    WithoutCounts(s, id);
  }

  lemma WithoutUses(policy: Policy, s: State, id: Id)
    ensures forall other :: other != id ==> Used(policy, Without(s, id), other) == Used(policy, s, other)
  {
  }

  lemma QueueingIsSound(policy: Policy, s: State, q: Pending)
    requires Sound(policy, s) && !s.Live(q.request.id) && q.request.id !in s.terminal
    requires 1 <= q.attempt <= policy.maximumAttempts && |s.pending| + |s.active| < policy.maximumQueued
    ensures Sound(policy, s.(pending := s.pending[q.request.id := q]))
  {
  }

  lemma StartingIsSound(policy: Policy, s: State, a: Active)
    requires Sound(policy, s) && !s.Live(a.request.id) && a.request.id !in s.terminal
    requires 1 <= a.attempt <= policy.maximumAttempts && |s.pending| + |s.active| < policy.maximumQueued
    requires |s.active| < policy.maximumInFlight
    ensures Sound(policy, s.(active := s.active[a.request.id := a]))
  {
  }

  lemma ClosingIsSound(policy: Policy, s: State, id: Id)
    requires Sound(policy, s) && !s.Live(id)
    ensures Sound(policy, s.(terminal := s.terminal + {id}))
  {
  }

  lemma FinishedIsSound(policy: Policy, s: State, id: Id)
    requires Sound(policy, s)
    ensures Sound(policy, Without(s, id).(terminal := s.terminal + {id}))
  {
    hide Sound;
    WithoutIsSound(policy, s, id);
    ClosingIsSound(policy, Without(s, id), id);
  }

  lemma FinishedUses(policy: Policy, s: State, id: Id)
    requires Apart(s)
    ensures var t := Without(s, id).(terminal := s.terminal + {id});
      && Used(policy, t, id) == policy.maximumAttempts
      && forall other :: other != id ==> Used(policy, t, other) == Used(policy, s, other)
  {
  }

  // Single actions

  /** An action that closes nothing: it has no results and refuses no last attempt. */
  lemma OpenLedger(policy: Policy, s: State, p: Progress)
    requires Sound(policy, p.state) && p.state.terminal == s.terminal && p.closed == map[] && p.abandoned == {}
    requires p.update.results == []
    requires forall c :: c in p.commands && c.Submit? ==> c.accepted || c.attempt < policy.maximumAttempts
    requires Counted(policy, s, p)
    ensures Ledger(policy, s, p)
  {
  }

  lemma SharingLedger(policy: Policy, s: State, request: Request, now: int)
    requires Sound(policy, s) && s.Live(request.id)
    ensures Ledger(policy, s, EnqueueOne(policy, Begin(s), request, now))
  {
    OpenLedger(policy, s, EnqueueOne(policy, Begin(s), request, now));
  }

  lemma QueueingLedger(policy: Policy, s: State, request: Request, now: int)
    requires Sound(policy, s) && !s.Live(request.id)
    ensures Ledger(policy, s, EnqueueOne(policy, Begin(s), request, now))
  {
    var p := EnqueueOne(policy, Begin(s), request, now);
    if p.problem.None? { QueueingIsSound(policy, s, Pending(request, 1, now)); }
    OpenLedger(policy, s, p);
  }

  lemma Identified(policy: Policy, s: State, id: Id)
    requires Sound(policy, s) && id in s.pending
    ensures s.pending[id].request.id == id && 1 <= s.pending[id].attempt <= policy.maximumAttempts
    ensures id !in s.terminal && id !in s.active
  {
  }

  /** A submission that leaves its request open: it uses one attempt. */
  lemma SubmittedLedger(policy: Policy, s: State, id: Id, accepted: bool, p: Progress)
    requires Sound(policy, s) && id in s.pending && Sound(policy, p.state) && p.state.terminal == s.terminal
    requires p.commands == [Submit(s.pending[id].request, s.pending[id].attempt, accepted)]
    requires accepted || s.pending[id].attempt < policy.maximumAttempts
    requires p.update.results == [] && p.closed == map[] && p.abandoned == {} && p.forgotten == multiset{}
    requires p.state.Live(id) && Used(policy, p.state, id) == s.pending[id].attempt
    requires forall other :: other != id ==> Used(policy, p.state, other) == Used(policy, s, other)
    ensures Ledger(policy, s, p)
  {
    hide Times;
    Identified(policy, s, id);
    forall other ensures Submissions(p.commands, other) + Used(policy, s, other) <= Used(policy, p.state, other) {
      OneSubmission(s.pending[id].request, s.pending[id].attempt, accepted, other);
    }
    OpenLedger(policy, s, p);
  }

  lemma StartingUses(policy: Policy, s: State, id: Id, a: Active)
    requires id in s.pending && id !in s.active
    ensures var t := Without(s, id); var u := t.(active := t.active[id := a]);
      Used(policy, u, id) == a.attempt
      && forall other :: other != id ==> Used(policy, u, other) == Used(policy, s, other)
  {
  }

  lemma RequeueingUses(policy: Policy, s: State, id: Id, q: Pending)
    ensures var t := Without(s, id); var u := t.(pending := t.pending[id := q]);
      Used(policy, u, id) == q.attempt - 1
      && forall other :: other != id ==> Used(policy, u, other) == Used(policy, s, other)
  {
  }

  lemma AcceptedEffect(policy: Policy, s: State, id: Id, now: int, port: Port)
    requires id in s.pending && port(id, s.pending[id].attempt)
    ensures var q := s.pending[id]; var t := Without(s, id);
      DispatchOne(policy, Begin(s), id, now, port) ==
      Progress(t.(active := t.active[id := Active(q.request, q.attempt, now)]),
               Update([Event(id, SUBMITTED, q.attempt, now)], [], []),
               [Submit(q.request, q.attempt, true)], map[], {}, multiset{}, None)
  {
  }

  lemma RetriedEffect(policy: Policy, s: State, id: Id, now: int, port: Port)
    requires id in s.pending && !port(id, s.pending[id].attempt) && s.pending[id].request.id == id
    requires s.pending[id].attempt < policy.maximumAttempts
    ensures var q := s.pending[id]; var t := Without(s, id);
      DispatchOne(policy, Begin(s), id, now, port) ==
      Progress(t.(pending := t.pending[id := Pending(q.request, q.attempt + 1, now + policy.retryBackoff)]),
               Update([Event(id, RETRY_SCHEDULED, q.attempt + 1, now)], [], []),
               [Submit(q.request, q.attempt, false)], map[], {}, multiset{}, None)
  {
  }

  /** A submission the port took. */
  lemma AcceptedLedger(policy: Policy, s: State, id: Id, now: int, port: Port)
    requires Sound(policy, s) && id in s.pending && |s.active| < policy.maximumInFlight
    requires port(id, s.pending[id].attempt)
    ensures Ledger(policy, s, DispatchOne(policy, Begin(s), id, now, port))
  {
    hide Keyed, Apart, Used, Ledger, DispatchOne;
    var a := Active(s.pending[id].request, s.pending[id].attempt, now);
    AcceptedEffect(policy, s, id, now, port);
    Identified(policy, s, id);
    WithoutIsSound(policy, s, id);
    StartingIsSound(policy, Without(s, id), a);
    StartingUses(policy, s, id, a);
    SubmittedLedger(policy, s, id, true, DispatchOne(policy, Begin(s), id, now, port));
  }

  /** A submission the port refused, with attempts left. */
  lemma RetriedLedger(policy: Policy, s: State, id: Id, now: int, port: Port)
    requires Sound(policy, s) && id in s.pending
    requires !port(id, s.pending[id].attempt) && s.pending[id].attempt < policy.maximumAttempts
    ensures Ledger(policy, s, DispatchOne(policy, Begin(s), id, now, port))
  {
    hide Keyed, Apart, Used, Ledger, DispatchOne;
    var q := Pending(s.pending[id].request, s.pending[id].attempt + 1, now + policy.retryBackoff);
    Identified(policy, s, id);
    RetriedEffect(policy, s, id, now, port);
    WithoutIsSound(policy, s, id);
    QueueingIsSound(policy, Without(s, id), q);
    RequeueingUses(policy, s, id, q);
    SubmittedLedger(policy, s, id, false, DispatchOne(policy, Begin(s), id, now, port));
  }

  lemma OneSubmission(q: Request, attempt: int, accepted: bool, id: Id)
    ensures Submissions([Submit(q, attempt, accepted)], id) == if q.id == id then 1 else 0
  {
  }

  /** A refused last submission. */
  lemma AbandonedLedger(policy: Policy, s: State, id: Id, now: int, port: Port)
    requires Sound(policy, s) && id in s.pending
    requires !port(id, s.pending[id].attempt) && s.pending[id].attempt >= policy.maximumAttempts
    ensures Ledger(policy, s, DispatchOne(policy, Begin(s), id, now, port))
  {
    hide Times;
    var p := DispatchOne(policy, Begin(s), id, now, port);
    var q := s.pending[id];
    AbandonedIsClosed(policy, s, id, now, port);
    assert p.commands == [Submit(q.request, q.attempt, false)];
    assert Refusals(policy, p) by { assert p.commands[0] in p.commands; }
    forall other ensures Submissions(p.commands, other) + Used(policy, s, other) <=
                         Regained(policy, p, other) + Used(policy, p.state, other)
    {
      OneSubmission(q.request, q.attempt, false, other);
    }
  }

  lemma AbandonedEffect(policy: Policy, s: State, id: Id, now: int, port: Port)
    requires id in s.pending && !port(id, s.pending[id].attempt) && s.pending[id].request.id == id
    requires s.pending[id].attempt >= policy.maximumAttempts
    ensures var q := s.pending[id];
      DispatchOne(policy, Begin(s), id, now, port) ==
      Progress(Without(s, id).(terminal := s.terminal + {id}),
               Update([Event(id, FAILED, q.attempt, now)], [], []),
               [Submit(q.request, q.attempt, false)], map[id := q.request], {id}, multiset{}, None)
  {
    var popped := s.(pending := s.pending - {id});
    assert popped == Without(s, id);
  }

  lemma AbandonedIsClosed(policy: Policy, s: State, id: Id, now: int, port: Port)
    requires Sound(policy, s) && id in s.pending
    requires !port(id, s.pending[id].attempt) && s.pending[id].attempt >= policy.maximumAttempts
    ensures var p := DispatchOne(policy, Begin(s), id, now, port);
      && p.state == Without(s, id).(terminal := s.terminal + {id}) && Sound(policy, p.state)
      && Accounted(s, p) && p.forgotten == multiset{} && p.abandoned == {id}
      && forall other :: other != id ==> Used(policy, p.state, other) == Used(policy, s, other)
  {
    hide Keyed, Used, DispatchOne;
    Identified(policy, s, id);
    AbandonedEffect(policy, s, id, now, port);
    FinishedIsSound(policy, s, id);
    FinishedUses(policy, s, id);
  }

  lemma {:induction false} NoSubmissions(commands: seq<Command>, id: Id)
    requires forall c :: c in commands ==> c.Withdraw?
    ensures Submissions(commands, id) == 0
  {
    if commands != [] {
      assert commands[0] in commands;
      NoSubmissions(commands[1..], id);
    }
  }

  /** Finishing a request with one result per dependency. */
  lemma FinishedLedger(policy: Policy, s: State, a: Active, p: Progress)
    requires Sound(policy, s) && s.RequestFor(a.request.id) == Some(a.request)
    requires p.state == Without(s, a.request.id).(terminal := s.terminal + {a.request.id})
    requires p.closed == map[a.request.id := a.request] && p.abandoned == {}
    requires forall c :: c in p.commands ==> c.Withdraw?
    requires |p.update.results| == |a.request.dependencies|
    requires forall i :: 0 <= i < |p.update.results| ==>
      p.update.results[i].requestId == a.request.id && p.update.results[i].dependency == a.request.dependencies[i]
    ensures Ledger(policy, s, p)
  {
    var id := a.request.id;
    FinishedIsSound(policy, s, id);
    FinishedAccounts(s, a, p);
    FinishedCounts(policy, s, id, p);
  }

  lemma FinishedCounts(policy: Policy, s: State, id: Id, p: Progress)
    requires Sound(policy, s) && p.state == Without(s, id).(terminal := s.terminal + {id})
    requires forall c :: c in p.commands ==> c.Withdraw?
    ensures Counted(policy, s, p)
  {
    hide Times, Used;
    FinishedUses(policy, s, id);
    forall other ensures Submissions(p.commands, other) + Used(policy, s, other) <=
                         Regained(policy, p, other) + Used(policy, p.state, other)
    {
      NoSubmissions(p.commands, other);
      if other == id { UsedWithinLimit(policy, s, id); }
    }
  }

  lemma FinishedAccounts(s: State, a: Active, p: Progress)
    requires a.request.id !in s.terminal
    requires p.state.terminal == s.terminal + {a.request.id}
    requires p.closed == map[a.request.id := a.request] && p.abandoned == {}
    requires |p.update.results| == |a.request.dependencies|
    requires forall i :: 0 <= i < |p.update.results| ==>
      p.update.results[i].requestId == a.request.id && p.update.results[i].dependency == a.request.dependencies[i]
    ensures Accounted(s, p)
  {
    forall id ensures Answered(p.update.results, id) == if id == a.request.id then a.request.dependencies else [] {
      OwnAnswers(p.update.results, a.request.id, a.request.dependencies, id);
    }
  }

  // Dispatch

  lemma DispatchOneExtends(policy: Policy, p: Progress, id: Id, now: int, port: Port)
    requires id in p.state.pending && p.problem.None?
    ensures DispatchOne(policy, p, id, now, port) == Extend(p, DispatchOne(policy, Begin(p.state), id, now, port))
  {
  }

  lemma DispatchOneLedger(policy: Policy, s: State, id: Id, now: int, port: Port)
    requires Sound(policy, s) && id in s.pending && |s.active| < policy.maximumInFlight
    ensures Ledger(policy, s, DispatchOne(policy, Begin(s), id, now, port))
    ensures Carried(s, DispatchOne(policy, Begin(s), id, now, port))
  {
    hide Ledger;
    Identified(policy, s, id);
    if port(id, s.pending[id].attempt) {
      AcceptedLedger(policy, s, id, now, port);
      AcceptedEffect(policy, s, id, now, port);
    } else if s.pending[id].attempt < policy.maximumAttempts {
      RetriedLedger(policy, s, id, now, port);
      RetriedEffect(policy, s, id, now, port);
    } else {
      AbandonedLedger(policy, s, id, now, port);
      AbandonedEffect(policy, s, id, now, port);
    }
  }

  lemma CarriesCompose(s: State, p: Progress, q: Progress)
    requires Carried(s, p) && Carried(p.state, q) && Accounted(s, p) && Accounted(p.state, q)
    ensures Carried(s, Extend(p, q))
  {
  }

  /** Both kinds of bookkeeping at once. */
  ghost predicate Kept(policy: Policy, s: State, p: Progress) {
    Ledger(policy, s, p) && Carried(s, p)
  }

  lemma KeptComposes(policy: Policy, s: State, p: Progress, q: Progress)
    requires Kept(policy, s, p) && Kept(policy, p.state, q)
    ensures Kept(policy, s, Extend(p, q))
  {
    LedgersCompose(policy, s, p, q);
    CarriesCompose(s, p, q);
  }

  lemma {:induction false} DispatchKeeps(policy: Policy, s: State, p: Progress, now: int, port: Port)
    requires Kept(policy, s, p) && p.problem.None?
    ensures Kept(policy, s, Dispatch(policy, p, now, port)) && Dispatch(policy, p, now, port).problem.None?
    decreases Eligible(p.state, now)
  {
    hide Sound, Accounted, Counted, Refusals, Carried, DispatchOne;
    var eligible := Eligible(p.state, now);
    if |p.state.active| < policy.maximumInFlight && eligible != {} {
      var id := First(p.state.pending, eligible);
      DispatchOneLedger(policy, p.state, id, now, port);
      DispatchOneExtends(policy, p, id, now, port);
      KeptComposes(policy, s, p, DispatchOne(policy, Begin(p.state), id, now, port));
      DispatchingShrinks(policy, p, id, now, port);
      DispatchNoProblem(policy, p, id, now, port);
      DispatchKeeps(policy, s, DispatchOne(policy, p, id, now, port), now, port);
    }
  }

  lemma DispatchNoProblem(policy: Policy, p: Progress, id: Id, now: int, port: Port)
    requires id in p.state.pending
    ensures DispatchOne(policy, p, id, now, port).problem == p.problem
  {
  }

  // Expiry

  function ExpireOne(policy: Policy, p: Progress, a: Active, now: int): Progress {
    var withdrawn := p.(state := p.state.(active := p.state.active - {a.request.id}),
                        commands := p.commands + [Withdraw(a.request)]);
    RetryOrFinish(policy, withdrawn, a, now, EXPIRED, OVERDUE)
  }

  lemma ExpireOneExtends(policy: Policy, p: Progress, a: Active, now: int)
    requires p.problem.None?
    ensures ExpireOne(policy, p, a, now) == Extend(p, ExpireOne(policy, Begin(p.state), a, now))
  {
  }

  lemma ActiveIdentified(policy: Policy, s: State, id: Id)
    requires Sound(policy, s) && id in s.active
    ensures s.active[id].request.id == id && 1 <= s.active[id].attempt <= policy.maximumAttempts
    ensures id !in s.terminal && id !in s.pending && s.RequestFor(id) == Some(s.active[id].request)
  {
  }

  /** An in-flight attempt that failed or timed out, with attempts left. */
  lemma RescheduledLedger(policy: Policy, s: State, id: Id, availableAt: int, p: Progress)
    requires Sound(policy, s) && id in s.active && s.active[id].attempt < policy.maximumAttempts
    requires var t := Without(s, id);
      p.state == t.(pending := t.pending[id := Pending(s.active[id].request, s.active[id].attempt + 1, availableAt)])
    requires forall c :: c in p.commands ==> c.Withdraw?
    requires p.update.results == [] && p.closed == map[] && p.abandoned == {} && p.forgotten == multiset{}
    ensures Ledger(policy, s, p)
  {
    hide Keyed, Apart, Used;
    var q := Pending(s.active[id].request, s.active[id].attempt + 1, availableAt);
    ActiveIdentified(policy, s, id);
    WithoutIsSound(policy, s, id);
    QueueingIsSound(policy, Without(s, id), q);
    RescheduledUses(policy, s, id, q);
    forall other { NoSubmissions(p.commands, other); }
    assert Counted(policy, s, p);
    OpenLedger(policy, s, p);
  }

  lemma RescheduledUses(policy: Policy, s: State, id: Id, q: Pending)
    requires id in s.active && id !in s.pending && q.attempt == s.active[id].attempt + 1
    ensures var t := Without(s, id); var u := t.(pending := t.pending[id := q]);
      forall other :: Used(policy, u, other) == Used(policy, s, other)
  {
  }

  lemma RescheduleEffect(policy: Policy, s: State, a: Active, now: int)
    requires a.request.id !in s.pending && a.attempt < policy.maximumAttempts
    ensures var id := a.request.id; var t := Without(s, id);
      ExpireOne(policy, Begin(s), a, now) ==
      Progress(t.(pending := t.pending[id := Pending(a.request, a.attempt + 1, now + policy.retryBackoff)]),
               Update([Event(id, RETRY_SCHEDULED, a.attempt + 1, now)], [], []),
               [Withdraw(a.request)], map[], {}, multiset{}, None)
  {
  }

  lemma ExpireEffect(policy: Policy, s: State, a: Active, now: int)
    requires a.request.id !in s.pending && a.attempt >= policy.maximumAttempts
    ensures var id := a.request.id; var t := Without(s, id);
      ExpireOne(policy, Begin(s), a, now) ==
      Progress(t.(terminal := s.terminal + {id}),
               Update([Event(id, EXPIRED, a.attempt, now)], [], FailureResults(a.request, OVERDUE, now)),
               [Withdraw(a.request)], map[id := a.request], {}, multiset{}, None)
  {
  }

  lemma ExpireOneKeeps(policy: Policy, s: State, id: Id, now: int)
    requires Sound(policy, s) && id in s.active
    ensures Kept(policy, s, ExpireOne(policy, Begin(s), s.active[id], now))
  {
    hide Ledger, ExpireOne;
    var a := s.active[id];
    ActiveIdentified(policy, s, id);
    if a.attempt < policy.maximumAttempts {
      RescheduleEffect(policy, s, a, now);
      RescheduledLedger(policy, s, id, now + policy.retryBackoff, ExpireOne(policy, Begin(s), a, now));
    } else {
      ExpireEffect(policy, s, a, now);
      FinishedLedger(policy, s, a, ExpireOne(policy, Begin(s), a, now));
    }
  }

  /** The captured requests are in flight, each once. */
  ghost predicate InFlight(s: State, expired: seq<Active>) {
    && (forall a :: a in expired ==> a.request.id in s.active && s.active[a.request.id] == a)
    && (forall i, j :: 0 <= i < j < |expired| ==> expired[i].request.id != expired[j].request.id)
  }

  lemma ExpireOneLeaves(policy: Policy, p: Progress, expired: seq<Active>, now: int)
    requires InFlight(p.state, expired) && expired != []
    ensures InFlight(ExpireOne(policy, p, expired[0], now).state, expired[1..])
    ensures ExpireOne(policy, p, expired[0], now).state.active == p.state.active - {expired[0].request.id}
    ensures ExpireOne(policy, p, expired[0], now).problem == p.problem
  {
    var t := ExpireOne(policy, p, expired[0], now).state;
    forall a | a in expired[1..] ensures a.request.id in t.active && t.active[a.request.id] == a {
      var i :| 0 <= i < |expired[1..]| && a == expired[1..][i];
      assert a == expired[i + 1] && expired[0].request.id != expired[i + 1].request.id;
    }
  }

  lemma {:induction false} ExpireAllKeeps(policy: Policy, s: State, p: Progress, expired: seq<Active>, now: int)
    requires Kept(policy, s, p) && p.problem.None? && InFlight(p.state, expired)
    ensures Kept(policy, s, ExpireAll(policy, p, expired, now)) && ExpireAll(policy, p, expired, now).problem.None?
    decreases |expired|
  {
    if expired != [] {
      var a := expired[0];
      assert a.request.id in p.state.active && p.state.active[a.request.id] == a;
      ExpireOneKeeps(policy, p.state, a.request.id, now);
      ExpireOneExtends(policy, p, a, now);
      KeptComposes(policy, s, p, ExpireOne(policy, Begin(p.state), a, now));
      ExpireOneLeaves(policy, p, expired, now);
      ExpireAllKeeps(policy, s, ExpireOne(policy, p, a, now), expired[1..], now);
    }
  }

  lemma OverdueAreInFlight(policy: Policy, s: State, now: int)
    requires Sound(policy, s)
    ensures InFlight(s, OverdueActives(policy, s, now))
  {
    var ids := Ascending(Overdue(policy, s, now));
    assert forall i :: 0 <= i < |ids| ==> ids[i] in Overdue(policy, s, now);
    assert forall i, j :: 0 <= i < j < |ids| ==> ids[i] != ids[j];
  }

  // Queueing

  lemma EnqueueOneKeeps(policy: Policy, s: State, request: Request, now: int)
    requires Sound(policy, s)
    ensures Kept(policy, s, EnqueueOne(policy, Begin(s), request, now))
  {
    if s.Live(request.id) {
      SharingLedger(policy, s, request, now);
    } else {
      QueueingLedger(policy, s, request, now);
    }
  }

  /** Queueing one request touches the state, the events and the problem only, and looks at the state only. */
  lemma EnqueueOneFrame(policy: Policy, p: Progress, request: Request, now: int)
    requires p.problem.None? && p.update.results == []
    ensures var r := EnqueueOne(policy, p, request, now);
      && r == p.(state := r.state, update := r.update, problem := r.problem) && r.update.results == []
      && r.state == EnqueueOne(policy, Begin(p.state), request, now).state
      && r.problem == EnqueueOne(policy, Begin(p.state), request, now).problem
  {
  }

  lemma ExtendByNothing(p: Progress, q: Progress)
    requires q.commands == [] && q.closed == map[] && q.abandoned == {} && q.forgotten == multiset{}
    requires p.update.results == [] && q.update.results == []
    ensures var r := Extend(p, q);
      r == p.(state := q.state, update := r.update, problem := q.problem) && r.update.results == []
  {
  }

  lemma EnqueueOneExtends(policy: Policy, p: Progress, request: Request, now: int)
    requires p.problem.None? && p.update.results == []
    ensures var r := EnqueueOne(policy, p, request, now);
      var q := Extend(p, EnqueueOne(policy, Begin(p.state), request, now));
      r == q.(update := r.update) && r.update.results == q.update.results == []
  {
    hide EnqueueOne, Extend;
    EnqueueOneFrame(policy, p, request, now);
    EnqueueOneFrame(policy, Begin(p.state), request, now);
    ExtendByNothing(p, EnqueueOne(policy, Begin(p.state), request, now));
  }

  lemma OnlyResultsCount(policy: Policy, s: State, p: Progress, q: Progress)
    requires Kept(policy, s, p) && q == p.(update := q.update) && q.update.results == p.update.results
    ensures Kept(policy, s, q)
  {
  }

  lemma {:induction false} EnqueueAllKeeps(policy: Policy, s: State, p: Progress, requests: seq<Request>, now: int)
    requires Kept(policy, s, p) && p.update.results == []
    ensures Kept(policy, s, EnqueueAll(policy, p, requests, now))
    decreases |requests|
  {
    if requests != [] && p.problem.None? {
      var one := Extend(p, EnqueueOne(policy, Begin(p.state), requests[0], now));
      EnqueueOneKeeps(policy, p.state, requests[0], now);
      KeptComposes(policy, s, p, EnqueueOne(policy, Begin(p.state), requests[0], now));
      EnqueueOneExtends(policy, p, requests[0], now);
      OnlyResultsCount(policy, s, one, EnqueueOne(policy, p, requests[0], now));
      EnqueueAllKeeps(policy, s, EnqueueOne(policy, p, requests[0], now), requests[1..], now);
    }
  }

  // Whole calls

  lemma CompletionKeeps(policy: Policy, s: State, id: Id, observations: seq<Id>, now: int)
    requires Sound(policy, s) && id in s.active && 0 < now
    ensures Kept(policy, s, Settle(policy, s, Complete(id, observations), now))
  {
    hide Ledger;
    ActiveIdentified(policy, s, id);
    FinishedLedger(policy, s, s.active[id], Settle(policy, s, Complete(id, observations), now));
  }

  lemma ForgettingKeeps(policy: Policy, s: State, id: Id, retryable: bool, now: int)
    requires Sound(policy, s) && id in s.active && 0 <= now
    ensures Kept(policy, s, Settle(policy, s, Fail(id, true, retryable), now))
  {
    hide Keyed, Apart;
    var p := Settle(policy, s, Fail(id, true, retryable), now);
    ActiveIdentified(policy, s, id);
    WithoutIsSound(policy, s, id);
    WithoutUses(policy, s, id);
    assert p.forgotten[id] == 1;
    assert Times(policy.maximumAttempts, 1) == policy.maximumAttempts;
    UsedWithinLimit(policy, s, id);
    assert Counted(policy, s, p);
    OpenLedger(policy, s, p);
  }

  lemma FailRetryEffect(policy: Policy, s: State, id: Id, now: int)
    requires id in s.active && id !in s.pending && s.active[id].request.id == id && 0 <= now
    requires s.active[id].attempt < policy.maximumAttempts
    ensures var a := s.active[id]; var t := Without(s, id);
      Settle(policy, s, Fail(id, false, true), now) ==
      Progress(t.(pending := t.pending[id := Pending(a.request, a.attempt + 1, now + policy.retryBackoff)]),
               Update([Event(id, RETRY_SCHEDULED, a.attempt + 1, now)], [], []),
               [], map[], {}, multiset{}, None)
  {
  }

  lemma FailingRetries(policy: Policy, s: State, id: Id, now: int)
    requires Sound(policy, s) && id in s.active && 0 <= now && s.active[id].attempt < policy.maximumAttempts
    ensures Kept(policy, s, Settle(policy, s, Fail(id, false, true), now))
  {
    hide Ledger, Settle, Sound;
    ActiveIdentified(policy, s, id);
    FailRetryEffect(policy, s, id, now);
    RescheduledLedger(policy, s, id, now + policy.retryBackoff, Settle(policy, s, Fail(id, false, true), now));
  }

  /** A call that ends one live request with a failure. */
  function Finished(s: State, a: Active, now: int, execution: ExecutionState, readiness: Readiness,
                    commands: seq<Command>): Progress
  {
    Progress(Without(s, a.request.id).(terminal := s.terminal + {a.request.id}),
             Update([Event(a.request.id, execution, a.attempt, now)], [], FailureResults(a.request, readiness, now)),
             commands, map[a.request.id := a.request], {}, multiset{}, None)
  }

  lemma FinishedKeeps(policy: Policy, s: State, a: Active, now: int, execution: ExecutionState,
                      readiness: Readiness, commands: seq<Command>)
    requires Sound(policy, s) && s.RequestFor(a.request.id) == Some(a.request)
    requires forall c :: c in commands ==> c.Withdraw?
    ensures Kept(policy, s, Finished(s, a, now, execution, readiness, commands))
  {
    hide Ledger, Sound;
    FinishedLedger(policy, s, a, Finished(s, a, now, execution, readiness, commands));
  }

  lemma FailEffect(policy: Policy, s: State, id: Id, retryable: bool, now: int)
    requires id in s.active && id !in s.pending && s.active[id].request.id == id && 0 <= now
    requires !retryable || s.active[id].attempt >= policy.maximumAttempts
    ensures Settle(policy, s, Fail(id, false, retryable), now) == Finished(s, s.active[id], now, FAILED, LOST, [])
  {
  }

  lemma FailingFinishes(policy: Policy, s: State, id: Id, retryable: bool, now: int)
    requires Sound(policy, s) && id in s.active && 0 <= now
    requires !retryable || s.active[id].attempt >= policy.maximumAttempts
    ensures Kept(policy, s, Settle(policy, s, Fail(id, false, retryable), now))
  {
    hide Kept, Sound, Settle;
    ActiveIdentified(policy, s, id);
    FailEffect(policy, s, id, retryable, now);
    FinishedKeeps(policy, s, s.active[id], now, FAILED, LOST, []);
  }

  lemma CancelEffect(policy: Policy, s: State, id: Id, now: int)
    requires 0 <= now
    ensures id in s.pending && s.pending[id].request.id == id ==>
      Settle(policy, s, Cancel(id), now) ==
      Finished(s, Active(s.pending[id].request, s.pending[id].attempt, now), now, CANCELED, DROPPED, [])
    ensures id in s.active && id !in s.pending && s.active[id].request.id == id ==>
      Settle(policy, s, Cancel(id), now) ==
      Finished(s, s.active[id], now, CANCELED, DROPPED, [Withdraw(s.active[id].request)])
  {
  }

  lemma CancelingKeeps(policy: Policy, s: State, id: Id, now: int)
    requires Sound(policy, s) && 0 <= now && s.Live(id)
    ensures Kept(policy, s, Settle(policy, s, Cancel(id), now))
  {
    hide Kept, Sound, Settle;
    CancelEffect(policy, s, id, now);
    if id in s.pending {
      Identified(policy, s, id);
      FinishedKeeps(policy, s, Active(s.pending[id].request, s.pending[id].attempt, now), now, CANCELED, DROPPED, []);
    } else {
      ActiveIdentified(policy, s, id);
      FinishedKeeps(policy, s, s.active[id], now, CANCELED, DROPPED, [Withdraw(s.active[id].request)]);
    }
  }

  lemma NothingKeeps(policy: Policy, s: State, problem: Option<Problem>)
    requires Sound(policy, s)
    ensures Kept(policy, s, Begin(s).(problem := problem))
  {
  }

  lemma SettlingKeeps(policy: Policy, s: State, call: Call, now: int)
    requires Sound(policy, s)
    ensures Kept(policy, s, Settle(policy, s, call, now))
  {
    hide Sound, Ledger, Carried;
    var p := Settle(policy, s, call, now);
    NothingKeeps(policy, s, None);
    NothingKeeps(policy, s, p.problem);
    if 0 <= now {
      match call
      case Enqueue(requests) => EnqueueAllKeeps(policy, s, Begin(s), requests, now);
      case Advance =>
        OverdueAreInFlight(policy, s, now);
        ExpireAllKeeps(policy, s, Begin(s), OverdueActives(policy, s, now), now);
      case Complete(id, observations) =>
        if id in s.active && 0 < now { CompletionKeeps(policy, s, id, observations, now); }
      case Fail(id, blank, retryable) =>
        if id in s.active {
          if blank { ForgettingKeeps(policy, s, id, retryable, now); }
          else if retryable && s.active[id].attempt < policy.maximumAttempts { FailingRetries(policy, s, id, now); }
          else { FailingFinishes(policy, s, id, retryable, now); }
        }
      case Cancel(id) => if s.Live(id) { CancelingKeeps(policy, s, id, now); }
    }
  }

  lemma PerformKeeps(policy: Policy, s: State, call: Call, now: int, port: Port)
    requires Sound(policy, s)
    ensures Kept(policy, s, Perform(policy, s, call, now, port))
  {
    hide Sound, Carried, Accounted, Counted, Refusals, Settle, Dispatch;
    SettlingKeeps(policy, s, call, now);
    var p := Settle(policy, s, call, now);
    EmptyKept(policy, p.state);
    DispatchKeeps(policy, p.state, Begin(p.state), now, port);
    KeptComposes(policy, s, p, Dispatch(policy, Begin(p.state), now, port));
  }

  lemma EmptyKept(policy: Policy, s: State)
    requires Sound(policy, s)
    ensures Kept(policy, s, Begin(s))
  {
    NothingKeeps(policy, s, None);
  }

  // Runs

  datatype Step = Step(call: Call, now: int, port: Port)

  /** The accumulated history of a run. */
  function Run(policy: Policy, p: Progress, steps: seq<Step>): Progress
    decreases |steps|
  {
    if steps == [] then p
    else
      var step := steps[0];
      Run(policy, Extend(p, Perform(policy, p.state, step.call, step.now, step.port)), steps[1..])
  }

  function Empty(): State { State(map[], map[], {}) }

  lemma {:induction false} RunKeeps(policy: Policy, s: State, p: Progress, steps: seq<Step>)
    requires Kept(policy, s, p)
    ensures Kept(policy, s, Run(policy, p, steps))
    decreases |steps|
  {
    if steps != [] {
      hide Perform, Extend;
      var step := steps[0];
      PerformKeeps(policy, p.state, step.call, step.now, step.port);
      KeptComposes(policy, s, p, Perform(policy, p.state, step.call, step.now, step.port));
      RunKeeps(policy, s, Extend(p, Perform(policy, p.state, step.call, step.now, step.port)), steps[1..]);
    }
  }

  /** Over any run from the empty coordinator: bounds and disjointness hold at the end; the requests
      that turned terminal are exactly the closed ones; each of them was answered for its list of
      dependencies, in order, except that nothing was answered for those whose last attempt the port
      refused; no other request was answered; and no request was submitted more often than its attempts
      allow, once more for each time it was forgotten. */
  lemma EveryRequestIsAnsweredInFull(policy: Policy, steps: seq<Step>)
    ensures var r := Run(policy, Begin(Empty()), steps);
      && Sound(policy, r.state)
      && r.closed.Keys == r.state.terminal
      && (forall id :: Answered(r.update.results, id) ==
                       if id in r.closed && !LastRefused(policy, r.commands, id) then r.closed[id].dependencies else [])
      && (forall id :: Submissions(r.commands, id) <= policy.maximumAttempts * (1 + r.forgotten[id]))
  {
    hide Ledger, Sound, Run, Carried, Submissions, Answered;
    EmptyKept(policy, Empty());
    RunKeeps(policy, Empty(), Begin(Empty()), steps);
    ReadOffLedger(policy, Run(policy, Begin(Empty()), steps));
  }

  lemma ReadOffLedger(policy: Policy, r: Progress)
    requires Ledger(policy, Empty(), r)
    ensures Sound(policy, r.state) && r.closed.Keys == r.state.terminal
    ensures forall id :: (
      Answered(r.update.results, id) ==
      if id in r.closed && !LastRefused(policy, r.commands, id) then r.closed[id].dependencies else [])
    ensures forall id :: Submissions(r.commands, id) <= policy.maximumAttempts * (1 + r.forgotten[id])
  {
    hide Counted;
    assert r.state.terminal == r.closed.Keys;
    forall id ensures Submissions(r.commands, id) <= policy.maximumAttempts * (1 + r.forgotten[id]) {
      SubmissionsAreBounded(policy, r, id);
    }
  }

  lemma SubmissionsAreBounded(policy: Policy, p: Progress, id: Id)
    requires Sound(policy, p.state) && Counted(policy, Empty(), p)
    ensures Submissions(p.commands, id) <= policy.maximumAttempts * (1 + p.forgotten[id])
  {
    UsedWithinLimit(policy, p.state, id);
    assert Submissions(p.commands, id) + Used(policy, Empty(), id) <= Regained(policy, p, id) + Used(policy, p.state, id);
    assert policy.maximumAttempts * (1 + p.forgotten[id]) ==
           policy.maximumAttempts + Times(policy.maximumAttempts, p.forgotten[id]);
  }

  /** From any point of a run on: terminal requests stay terminal and are never queued or in flight
      again, and every dependency attached to a live request stays attached until its request is closed
      with it or forgotten. */
  lemma NothingIsLost(policy: Policy, s: State, steps: seq<Step>)
    requires Sound(policy, s)
    ensures var r := Run(policy, Begin(s), steps);
      && s.terminal <= r.state.terminal && (forall id :: id in s.terminal ==> !r.state.Live(id))
      && Carried(s, r)
  {
    EmptyKept(policy, s);
    RunKeeps(policy, s, Begin(s), steps);
  }

  // Any progress

  lemma EnqueueOneStaysSound(policy: Policy, p: Progress, request: Request, now: int)
    requires Sound(policy, p.state)
    ensures Sound(policy, EnqueueOne(policy, p, request, now).state)
  {
    EnqueueOneKeeps(policy, p.state, request, now);
    assert EnqueueOne(policy, Begin(p.state), request, now).state == EnqueueOne(policy, p, request, now).state;
  }

  lemma DispatchOneStaysSound(policy: Policy, p: Progress, id: Id, now: int, port: Port)
    requires Sound(policy, p.state) && id in p.state.pending && |p.state.active| < policy.maximumInFlight
    ensures Sound(policy, DispatchOne(policy, p, id, now, port).state)
  {
    DispatchOneLedger(policy, p.state, id, now, port);
    assert DispatchOne(policy, Begin(p.state), id, now, port).state == DispatchOne(policy, p, id, now, port).state;
  }
}
