/** How often each dependency of a request is answered. A request may be queued with a dependency listed
    twice; sharing it removes the repetition. */
module ExecutionAnswers {
  import opened Prelude
  import opened HistoricalExecution
  import opened ExecutionHistory
  import opened ExecutionDispatch

  /** How many results answer dependency `d` for request `id`. */
  function TimesAnswered(results: seq<Result>, id: Id, d: Dependency): nat {
    if results == [] then 0
    else
      (if results[0].requestId == id && results[0].dependency == d then 1 else 0)
      + TimesAnswered(results[1..], id, d)
  }

  function Occurrences(s: seq<Dependency>, d: Dependency): nat {
    if s == [] then 0 else (if s[0] == d then 1 else 0) + Occurrences(s[1..], d)
  }

  lemma {:induction false} TimesAreOccurrences(results: seq<Result>, id: Id, d: Dependency)
    ensures TimesAnswered(results, id, d) == Occurrences(Answered(results, id), d)
  {
    if results != [] {
      TimesAreOccurrences(results[1..], id, d);
      var rest := Answered(results[1..], id);
      if results[0].requestId == id {
        assert ([results[0].dependency] + rest)[1..] == rest;
      } else {
        assert [] + rest == rest;
      }
    }
  }

  lemma {:induction false} OccursWhenHeld(s: seq<Dependency>, d: Dependency)
    ensures Occurrences(s, d) > 0 <==> d in s
  {
    if s != [] {
      OccursWhenHeld(s[1..], d);
      assert s == [s[0]] + s[1..];
    }
  }

  lemma {:induction false} DistinctOccursOnce(s: seq<Dependency>, d: Dependency)
    requires Distinct(s)
    ensures Occurrences(s, d) == if d in s then 1 else 0
  {
    if s != [] {
      assert forall i :: 0 <= i < |s[1..]| ==> s[1..][i] == s[i + 1];
      DistinctOccursOnce(s[1..], d);
      assert s == [s[0]] + s[1..];
    }
  }

  lemma {:induction false} RepeatedOccursAgain(s: seq<Dependency>)
    requires !Distinct(s)
    ensures exists d :: Occurrences(s, d) > 1
  {
    var i, j :| 0 <= i < j < |s| && s[i] == s[j];
    if i == 0 {
      assert s[1..][j - 1] == s[0];
      OccursWhenHeld(s[1..], s[0]);
      assert Occurrences(s, s[0]) > 1;
    } else {
      assert s[1..][i - 1] == s[1..][j - 1];
      RepeatedOccursAgain(s[1..]);
      var d :| Occurrences(s[1..], d) > 1;
      assert Occurrences(s, d) > 1;
    }
  }

  // Which requests repeat a dependency

  /** The requests that were queued with a repeated dependency and have not been shared since. */
  function RepeatingAfterOne(policy: Policy, s: State, repeating: set<Id>, request: Request): set<Id> {
    if EnqueueOne(policy, Begin(s), request, 0).problem.Some? then repeating
    else if !s.Live(request.id) && !Distinct(request.dependencies) then repeating + {request.id}
    else repeating - {request.id}
  }

  function RepeatingAfterAll(policy: Policy, p: Progress, repeating: set<Id>, requests: seq<Request>, now: int): set<Id>
    decreases |requests|
  {
    if requests == [] || p.problem.Some? then repeating
    else RepeatingAfterAll(policy, EnqueueOne(policy, p, requests[0], now),
                           RepeatingAfterOne(policy, p.state, repeating, requests[0]), requests[1..], now)
  }

  function RepeatingAfterCall(policy: Policy, s: State, repeating: set<Id>, call: Call, now: int): set<Id> {
    if call.Enqueue? && 0 <= now then RepeatingAfterAll(policy, Begin(s), repeating, call.requests, now) else repeating
  }

  function RepeatingAfter(policy: Policy, p: Progress, repeating: set<Id>, steps: seq<Step>): set<Id>
    decreases |steps|
  {
    if steps == [] then repeating
    else
      var step := steps[0];
      RepeatingAfter(policy, Extend(p, Perform(policy, p.state, step.call, step.now, step.port)),
                     RepeatingAfterCall(policy, p.state, repeating, step.call, step.now), steps[1..])
  }

  /** The live and the closed requests whose dependencies repeat are exactly those in `repeating`. */
  ghost predicate Told(repeating: set<Id>, s: State, closed: map<Id, Request>) {
    && (forall id :: s.Live(id) ==> (Distinct(s.RequestFor(id).value.dependencies) <==> id !in repeating))
    && (forall id :: id in closed ==> (Distinct(closed[id].dependencies) <==> id !in repeating))
  }

  /** Nothing is queued or shared: what is live stays as it was, and what is closed was live. */
  ghost predicate Frozen(s: State, p: Progress) {
    && (forall id :: p.state.Live(id) ==> s.RequestFor(id).Some? && p.state.RequestFor(id) == s.RequestFor(id))
    && (forall id :: id in p.closed ==> s.RequestFor(id) == Some(p.closed[id]))
  }

  lemma FrozenComposes(s: State, p: Progress, q: Progress)
    requires Frozen(s, p) && Frozen(p.state, q)
    ensures Frozen(s, Extend(p, q))
  {
    forall id | q.state.Live(id) ensures q.state.RequestFor(id) == s.RequestFor(id) {
      assert p.state.Live(id);
    }
    forall id | id in q.closed ensures s.RequestFor(id) == Some(q.closed[id]) {
      assert p.state.Live(id);
    }
  }

  lemma DispatchOneFreezes(policy: Policy, s: State, id: Id, now: int, port: Port)
    requires Sound(policy, s) && id in s.pending
    ensures Frozen(s, DispatchOne(policy, Begin(s), id, now, port))
  {
    hide DispatchOne, Keyed, Bounded;
    Identified(policy, s, id);
    if port(id, s.pending[id].attempt) {
      AcceptedEffect(policy, s, id, now, port);
    } else if s.pending[id].attempt < policy.maximumAttempts {
      RetriedEffect(policy, s, id, now, port);
    } else {
      AbandonedEffect(policy, s, id, now, port);
    }
  }

  lemma {:induction false} DispatchFreezes(policy: Policy, s: State, p: Progress, now: int, port: Port)
    requires Kept(policy, s, p) && Frozen(s, p) && p.problem.None?
    ensures Frozen(s, Dispatch(policy, p, now, port))
    decreases Eligible(p.state, now)
  {
    var eligible := Eligible(p.state, now);
    if |p.state.active| < policy.maximumInFlight && eligible != {} {
      hide Sound, Accounted, Counted, Refusals, Carried, DispatchOne, Frozen;
      var id := First(p.state.pending, eligible);
      DispatchOneLedger(policy, p.state, id, now, port);
      DispatchOneExtends(policy, p, id, now, port);
      KeptComposes(policy, s, p, DispatchOne(policy, Begin(p.state), id, now, port));
      DispatchingShrinks(policy, p, id, now, port);
      DispatchNoProblem(policy, p, id, now, port);
      DispatchOneFreezes(policy, p.state, id, now, port);
      FrozenComposes(s, p, DispatchOne(policy, Begin(p.state), id, now, port));
      DispatchFreezes(policy, s, DispatchOne(policy, p, id, now, port), now, port);
    }
  }

  lemma ExpireOneFreezes(policy: Policy, s: State, id: Id, now: int)
    requires Sound(policy, s) && id in s.active
    ensures Frozen(s, ExpireOne(policy, Begin(s), s.active[id], now))
  {
    hide ExpireOne, Keyed, Bounded;
    ActiveIdentified(policy, s, id);
    if s.active[id].attempt < policy.maximumAttempts {
      RescheduleEffect(policy, s, s.active[id], now);
    } else {
      ExpireEffect(policy, s, s.active[id], now);
    }
  }

  lemma {:induction false} ExpireAllFreezes(policy: Policy, s: State, p: Progress, expired: seq<Active>, now: int)
    requires Kept(policy, s, p) && Frozen(s, p) && p.problem.None? && InFlight(p.state, expired)
    ensures Frozen(s, ExpireAll(policy, p, expired, now))
    decreases |expired|
  {
    if expired != [] {
      hide Frozen;
      var a := expired[0];
      assert a.request.id in p.state.active && p.state.active[a.request.id] == a;
      ExpireOneKeeps(policy, p.state, a.request.id, now);
      ExpireOneExtends(policy, p, a, now);
      KeptComposes(policy, s, p, ExpireOne(policy, Begin(p.state), a, now));
      ExpireOneFreezes(policy, p.state, a.request.id, now);
      FrozenComposes(s, p, ExpireOne(policy, Begin(p.state), a, now));
      ExpireOneLeaves(policy, p, expired, now);
      ExpireAllFreezes(policy, s, ExpireOne(policy, p, a, now), expired[1..], now);
    }
  }

  lemma BeginIsFrozen(s: State, problem: Option<Problem>)
    ensures Frozen(s, Begin(s).(problem := problem))
  {
  }

  lemma FinishedFreezes(policy: Policy, s: State, a: Active, now: int, execution: ExecutionState,
                        readiness: Readiness, commands: seq<Command>)
    requires Sound(policy, s) && s.RequestFor(a.request.id) == Some(a.request)
    ensures Frozen(s, Finished(s, a, now, execution, readiness, commands))
  {
  }

  lemma FailingFreezes(policy: Policy, s: State, id: Id, retryable: bool, now: int)
    requires Sound(policy, s) && id in s.active && 0 <= now
    ensures Frozen(s, Settle(policy, s, Fail(id, false, retryable), now))
  {
    hide Settle, Keyed, Bounded;
    ActiveIdentified(policy, s, id);
    if retryable && s.active[id].attempt < policy.maximumAttempts {
      FailRetryEffect(policy, s, id, now);
    } else {
      FailEffect(policy, s, id, retryable, now);
      FinishedFreezes(policy, s, s.active[id], now, FAILED, LOST, []);
    }
  }

  lemma CancelingFreezes(policy: Policy, s: State, id: Id, now: int)
    requires Sound(policy, s) && s.Live(id) && 0 <= now
    ensures Frozen(s, Settle(policy, s, Cancel(id), now))
  {
    hide Settle, Frozen, Bounded;
    CancelEffect(policy, s, id, now);
    if id in s.pending {
      Identified(policy, s, id);
      FinishedFreezes(policy, s, Active(s.pending[id].request, s.pending[id].attempt, now), now, CANCELED, DROPPED, []);
    } else {
      ActiveIdentified(policy, s, id);
      FinishedFreezes(policy, s, s.active[id], now, CANCELED, DROPPED, [Withdraw(s.active[id].request)]);
    }
  }

  lemma CompletingFreezes(policy: Policy, s: State, id: Id, observations: seq<Id>, now: int)
    requires Sound(policy, s) && id in s.active && 0 < now
    ensures Frozen(s, Settle(policy, s, Complete(id, observations), now))
  {
    ActiveIdentified(policy, s, id);
  }

  lemma ForgettingFreezes(policy: Policy, s: State, id: Id, retryable: bool, now: int)
    requires Sound(policy, s) && id in s.active && 0 <= now
    ensures Frozen(s, Settle(policy, s, Fail(id, true, retryable), now))
  {
    ActiveIdentified(policy, s, id);
  }

  /** Every call but an enqueue only moves or closes the requests it finds. */
  lemma SettlingFreezes(policy: Policy, s: State, call: Call, now: int)
    requires Sound(policy, s) && !(call.Enqueue? && 0 <= now)
    ensures Frozen(s, Settle(policy, s, call, now))
  {
    hide Frozen, Sound;
    BeginIsFrozen(s, None);
    BeginIsFrozen(s, Settle(policy, s, call, now).problem);
    if 0 <= now {
      match call
      case Advance =>
        OverdueAreInFlight(policy, s, now);
        EmptyKept(policy, s);
        ExpireAllFreezes(policy, s, Begin(s), OverdueActives(policy, s, now), now);
      case Complete(id, observations) =>
        if id in s.active && 0 < now { CompletingFreezes(policy, s, id, observations, now); }
      case Fail(id, blank, retryable) =>
        if id in s.active {
          if blank { ForgettingFreezes(policy, s, id, retryable, now); }
          else { FailingFreezes(policy, s, id, retryable, now); }
        }
      case Cancel(id) => if s.Live(id) { CancelingFreezes(policy, s, id, now); }
    }
  }

  // Queueing and sharing

  /** Whether a request repeats a dependency is decided where it is queued or shared. */
  lemma EnqueueOneTells(policy: Policy, s: State, repeating: set<Id>, closed: map<Id, Request>, request: Request, now: int)
    requires Told(repeating, s, closed) && closed.Keys <= s.terminal && Apart(s)
    ensures Told(RepeatingAfterOne(policy, s, repeating, request),
                 EnqueueOne(policy, Begin(s), request, now).state, closed)
    ensures EnqueueOne(policy, Begin(s), request, now).state.terminal == s.terminal
  {
    var t := EnqueueOne(policy, Begin(s), request, now).state;
    assert EnqueueOne(policy, Begin(s), request, now).problem == EnqueueOne(policy, Begin(s), request, 0).problem;
    forall id | id != request.id ensures t.RequestFor(id) == s.RequestFor(id) { }
  }

  lemma {:induction false} EnqueueAllTells(
      policy: Policy, p: Progress, repeating: set<Id>, closed: map<Id, Request>, requests: seq<Request>, now: int)
    requires Told(repeating, p.state, closed) && closed.Keys <= p.state.terminal && Sound(policy, p.state)
    requires p.update.results == []
    ensures Told(RepeatingAfterAll(policy, p, repeating, requests, now), EnqueueAll(policy, p, requests, now).state, closed)
    decreases |requests|
  {
    if requests != [] && p.problem.None? {
      hide EnqueueOne, Told, RepeatingAfterOne, Keyed, Bounded;
      EnqueueOneTells(policy, p.state, repeating, closed, requests[0], now);
      EnqueueOneFrame(policy, p, requests[0], now);
      EnqueueStaysSound(policy, p.state, requests[0], now);
      EnqueueAllTells(policy, EnqueueOne(policy, p, requests[0], now),
                      RepeatingAfterOne(policy, p.state, repeating, requests[0]), closed, requests[1..], now);
    }
  }

  lemma EnqueueStaysSound(policy: Policy, s: State, request: Request, now: int)
    requires Sound(policy, s)
    ensures Sound(policy, EnqueueOne(policy, Begin(s), request, now).state)
  {
    hide EnqueueOne, Keyed, Apart, Bounded;
    EnqueueOneKeeps(policy, s, request, now);
  }

  // Calls and runs

  /** Closing and moving keep the record true; the closed requests were live. */
  lemma FrozenTells(repeating: set<Id>, s: State, closed: map<Id, Request>, p: Progress)
    requires Told(repeating, s, closed) && Frozen(s, p)
    ensures Told(repeating, p.state, closed + p.closed)
  {
    forall id | p.state.Live(id)
      ensures Distinct(p.state.RequestFor(id).value.dependencies) <==> id !in repeating
    {
      assert s.Live(id);
    }
    forall id | id in p.closed ensures Distinct(p.closed[id].dependencies) <==> id !in repeating {
      assert s.Live(id);
    }
  }

  lemma EnqueueClosesNothing(policy: Policy, p: Progress, requests: seq<Request>, now: int)
    ensures EnqueueAll(policy, p, requests, now).closed == p.closed
    ensures EnqueueAll(policy, p, requests, now).state.terminal == p.state.terminal
    decreases |requests|
  {
    if requests != [] && p.problem.None? {
      EnqueueClosesNothing(policy, EnqueueOne(policy, p, requests[0], now), requests[1..], now);
    }
  }

  lemma SettlingTells(
      policy: Policy, s: State, repeating: set<Id>, closed: map<Id, Request>, call: Call, now: int)
    requires Sound(policy, s) && Told(repeating, s, closed) && closed.Keys <= s.terminal
    ensures var p := Settle(policy, s, call, now);
      Told(RepeatingAfterCall(policy, s, repeating, call, now), p.state, closed + p.closed)
  {
    hide Sound, Told, Frozen;
    if call.Enqueue? && 0 <= now {
      EnqueueAllTells(policy, Begin(s), repeating, closed, call.requests, now);
      EnqueueClosesNothing(policy, Begin(s), call.requests, now);
      assert closed + map[] == closed;
    } else {
      SettlingFreezes(policy, s, call, now);
      FrozenTells(repeating, s, closed, Settle(policy, s, call, now));
    }
  }

  lemma PerformTells(
      policy: Policy, s: State, repeating: set<Id>, closed: map<Id, Request>, call: Call, now: int, port: Port)
    requires Sound(policy, s) && Told(repeating, s, closed) && closed.Keys <= s.terminal
    ensures var p := Perform(policy, s, call, now, port);
      Told(RepeatingAfterCall(policy, s, repeating, call, now), p.state, closed + p.closed)
  {
    hide Told, Settle, Dispatch, Sound, Carried, Accounted, Counted, Refusals, RepeatingAfterCall;
    var p := Settle(policy, s, call, now);
    SettlingTells(policy, s, repeating, closed, call, now);
    SettlingKeeps(policy, s, call, now);
    var d := Dispatch(policy, Begin(p.state), now, port);
    DispatchTells(policy, p.state, RepeatingAfterCall(policy, s, repeating, call, now), closed + p.closed, now, port);
    MergingAssociates(closed, p.closed, d.closed);
  }

  lemma DispatchTells(
      policy: Policy, s: State, repeating: set<Id>, closed: map<Id, Request>, now: int, port: Port)
    requires Sound(policy, s) && Told(repeating, s, closed)
    ensures var d := Dispatch(policy, Begin(s), now, port); Told(repeating, d.state, closed + d.closed)
  {
    hide Told, Frozen, Dispatch, Sound;
    EmptyKept(policy, s);
    BeginIsFrozen(s, None);
    DispatchFreezes(policy, s, Begin(s), now, port);
    FrozenTells(repeating, s, closed, Dispatch(policy, Begin(s), now, port));
  }

  lemma MergingAssociates(a: map<Id, Request>, b: map<Id, Request>, c: map<Id, Request>)
    ensures (a + b) + c == a + (b + c)
  {
  }

  lemma {:induction false} RunTells(policy: Policy, p: Progress, repeating: set<Id>, steps: seq<Step>)
    requires Kept(policy, Empty(), p) && Told(repeating, p.state, p.closed)
    ensures var r := Run(policy, p, steps);
      Told(RepeatingAfter(policy, p, repeating, steps), r.state, r.closed)
    decreases |steps|
  {
    if steps != [] {
      hide Perform, Told, RepeatingAfterCall, Sound, Counted, Refusals, Carried;
      var step := steps[0];
      PerformTells(policy, p.state, repeating, p.closed, step.call, step.now, step.port);
      PerformKeeps(policy, p.state, step.call, step.now, step.port);
      KeptComposes(policy, Empty(), p, Perform(policy, p.state, step.call, step.now, step.port));
      RunTells(policy, Extend(p, Perform(policy, p.state, step.call, step.now, step.port)),
               RepeatingAfterCall(policy, p.state, repeating, step.call, step.now), steps[1..]);
    }
  }

  /** The requests that were queued with a repeated dependency and never shared, in a run from nothing. */
  function Repeating(policy: Policy, steps: seq<Step>): set<Id> {
    RepeatingAfter(policy, Begin(Empty()), {}, steps)
  }

  /** Every distinct dependency of `q` is answered exactly once for `id`, and nothing else is. */
  ghost predicate AnsweredOnceEach(results: seq<Result>, id: Id, q: Request) {
    forall d :: TimesAnswered(results, id, d) == if d in q.dependencies then 1 else 0
  }

  lemma AnswersMatchDependencies(results: seq<Result>, id: Id, q: Request)
    requires Answered(results, id) == q.dependencies
    ensures AnsweredOnceEach(results, id, q) <==> Distinct(q.dependencies)
  {
    forall d ensures TimesAnswered(results, id, d) == Occurrences(q.dependencies, d) {
      TimesAreOccurrences(results, id, d);
    }
    if Distinct(q.dependencies) {
      forall d { DistinctOccursOnce(q.dependencies, d); }
    } else {
      RepeatedOccursAgain(q.dependencies);
    }
  }

  /** Over any run from the empty coordinator: each request that turned terminal gets exactly one
      readiness result per distinct dependency merged into it, if and only if it does not repeat a
      dependency it was queued with, or was shared since; except that a request whose last attempt the
      port refused gets none. No other request is answered. */
  lemma EveryDependencyIsAnsweredOnce(policy: Policy, steps: seq<Step>)
    ensures var r := Run(policy, Begin(Empty()), steps);
      && r.closed.Keys == r.state.terminal
      && (forall id :: id in r.closed && !LastRefused(policy, r.commands, id) ==>
            (AnsweredOnceEach(r.update.results, id, r.closed[id]) <==> id !in Repeating(policy, steps)))
      && (forall id, d :: id !in r.closed || LastRefused(policy, r.commands, id) ==>
            TimesAnswered(r.update.results, id, d) == 0)
  {
    hide Sound, Run, Submissions, Told, RepeatingAfter;
    var r := Run(policy, Begin(Empty()), steps);
    EveryRequestIsAnsweredInFull(policy, steps);
    EmptyKept(policy, Empty());
    assert Told({}, Empty(), map[]) by { NothingRepeats(); }
    RunTells(policy, Begin(Empty()), {}, steps);
    forall id | id in r.closed && !LastRefused(policy, r.commands, id)
      ensures AnsweredOnceEach(r.update.results, id, r.closed[id]) <==> id !in Repeating(policy, steps)
    {
      AnswersMatchDependencies(r.update.results, id, r.closed[id]);
      ToldOfClosed(Repeating(policy, steps), r.state, r.closed, id);
    }
    forall id, d | id !in r.closed || LastRefused(policy, r.commands, id)
      ensures TimesAnswered(r.update.results, id, d) == 0
    {
      TimesAreOccurrences(r.update.results, id, d);
    }
  }

  lemma NothingRepeats()
    ensures Told({}, Empty(), map[])
  {
  }

  lemma ToldOfClosed(repeating: set<Id>, s: State, closed: map<Id, Request>, id: Id)
    requires Told(repeating, s, closed) && id in closed
    ensures Distinct(closed[id].dependencies) <==> id !in repeating
  {
  }

  // When nothing repeats

  ghost predicate QueuesDistinct(step: Step) {
    step.call.Enqueue? ==> forall q :: q in step.call.requests ==> Distinct(q.dependencies)
  }

  lemma {:induction false} DistinctQueueingRepeatsNothing(
      policy: Policy, p: Progress, requests: seq<Request>, now: int)
    requires forall q :: q in requests ==> Distinct(q.dependencies)
    ensures RepeatingAfterAll(policy, p, {}, requests, now) == {}
    decreases |requests|
  {
    if requests != [] && p.problem.None? {
      assert requests[0] in requests;
      assert RepeatingAfterOne(policy, p.state, {}, requests[0]) == {};
      DistinctQueueingRepeatsNothing(policy, EnqueueOne(policy, p, requests[0], now), requests[1..], now);
    }
  }

  /** When every request is handed over with distinct dependencies, as a caller can check beforehand,
      no request ever repeats one. */
  lemma {:induction false} DistinctRunsRepeatNothing(policy: Policy, p: Progress, steps: seq<Step>)
    requires forall step :: step in steps ==> QueuesDistinct(step)
    ensures RepeatingAfter(policy, p, {}, steps) == {}
    decreases |steps|
  {
    if steps != [] {
      hide Perform, Extend;
      var step := steps[0];
      assert step in steps;
      if step.call.Enqueue? && 0 <= step.now {
        DistinctQueueingRepeatsNothing(policy, Begin(p.state), step.call.requests, step.now);
      }
      DistinctRunsRepeatNothing(policy, Extend(p, Perform(policy, p.state, step.call, step.now, step.port)), steps[1..]);
    }
  }

  /** A request queued with a dependency listed twice, and completed, answers it twice. */
  lemma RepeatedDependencyIsAnsweredTwice(policy: Policy, request: Request, d: Dependency, port: Port, seen: seq<Id>)
    requires port(request.id, 1) && request.dependencies == [d, d]
    ensures var steps := [Step(Enqueue([request]), 0, port), Step(Complete(request.id, seen), 1, port)];
      && TimesAnswered(Run(policy, Begin(Empty()), steps).update.results, request.id, d) == 2
      && request.id in Repeating(policy, steps)
  {
    var steps := [Step(Enqueue([request]), 0, port), Step(Complete(request.id, seen), 1, port)];
    hide Run, Repeating, LastRefused, Sound, Answered, Submissions;
    var r := Run(policy, Begin(Empty()), steps);
    TwoCalls(policy, request, seen, port);
    assert request.dependencies[0] == request.dependencies[1];
    QueuedTwice(policy, request);
    EveryRequestIsAnsweredInFull(policy, steps);
    assert Answered(r.update.results, request.id) == [d, d];
    TimesAreOccurrences(r.update.results, request.id, d);
    PairOccursTwice(d);
  }

  lemma PairOccursTwice(d: Dependency)
    ensures Occurrences([d, d], d) == 2
  {
    assert [d, d][1..] == [d] && [d][1..] == [];
    assert Occurrences([d], d) == 1;
  }

  /** Queueing a request alone and completing it closes it, with one accepted submission. */
  lemma TwoCalls(policy: Policy, request: Request, seen: seq<Id>, port: Port)
    requires port(request.id, 1)
    ensures var steps := [Step(Enqueue([request]), 0, port), Step(Complete(request.id, seen), 1, port)];
      var r := Run(policy, Begin(Empty()), steps);
      && request.id in r.closed && r.closed[request.id] == request && !LastRefused(policy, r.commands, request.id)
      && Repeating(policy, steps) == RepeatingAfterAll(policy, Begin(Empty()), {}, [request], 0)
  {
    var steps := [Step(Enqueue([request]), 0, port), Step(Complete(request.id, seen), 1, port)];
    var started := State(map[], map[request.id := Active(request, 1, 0)], {});
    hide Perform;
    StartedAlone(policy, request, port);
    CompletedAlone(policy, request, seen, port);
    var p1 := Extend(Begin(Empty()), Perform(policy, Empty(), steps[0].call, 0, port));
    var p2 := Extend(p1, Perform(policy, started, steps[1].call, 1, port));
    assert steps[1..] == [steps[1]] && steps[1..][1..] == [];
    assert Run(policy, p2, []) == p2 && Run(policy, p1, steps[1..]) == p2;
    var told := RepeatingAfterCall(policy, Empty(), {}, steps[0].call, 0);
    assert RepeatingAfter(policy, p2, told, []) == told;
    assert RepeatingAfter(policy, p1, told, steps[1..]) == told;
  }

  lemma CompletedAlone(policy: Policy, request: Request, seen: seq<Id>, port: Port)
    ensures var s := State(map[], map[request.id := Active(request, 1, 0)], {});
      var p := Perform(policy, s, Complete(request.id, seen), 1, port);
      p.closed == map[request.id := request] && p.commands == []
  {
    var s := State(map[], map[request.id := Active(request, 1, 0)], {});
    var settled := Settle(policy, s, Complete(request.id, seen), 1);
    assert Eligible(settled.state, 1) == {};
    assert Dispatch(policy, Begin(settled.state), 1, port) == Begin(settled.state);
  }

  lemma QueuedTwice(policy: Policy, request: Request)
    requires !Distinct(request.dependencies)
    ensures RepeatingAfterAll(policy, Begin(Empty()), {}, [request], 0) == {request.id}
  {
    var one := EnqueueOne(policy, Begin(Empty()), request, 0);
    assert [request][1..] == [];
    assert RepeatingAfterAll(policy, one, {request.id}, [], 0) == {request.id};
    assert one.problem.None?;
  }
}
