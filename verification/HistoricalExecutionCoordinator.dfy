/** The coordinator as the program runs it: three collections updated in place, around a port. */
module HistoricalExecutionCoordinator {
  import opened Prelude
  import opened HistoricalExecution
  import E = ExecutionHistory

  /** What a call amounts to, once it is known whether it goes on to dispatch. */
  lemma Outcome(policy: Policy, s: State, call: Call, now: int, port: Port)
    requires E.Sound(policy, s)
    ensures var r := Perform(policy, s, call, now, port); var p := Settle(policy, s, call, now);
      && E.Sound(policy, r.state)
      && (p.problem.Some? || Idles(s, call) ==> r == p)
      && (p.problem.None? && !Idles(s, call) ==>
            var d := HistoricalExecution.Dispatch(policy, Begin(p.state), now, port);
            && r.state == d.state && r.update == ExtendUpdate(p.update, d.update)
            && r.commands == p.commands + d.commands && r.problem.None?)
  {
    hide Settle, E.Sound, E.Carried, E.Ledger;
    E.PerformKeeps(policy, s, call, now, port);
    assert E.Sound(policy, Perform(policy, s, call, now, port).state) by {
      LedgerIsSound(policy, s, Perform(policy, s, call, now, port));
    }
    var p := Settle(policy, s, call, now);
    DispatchIsSilent(policy, Begin(p.state), now, port);
  }

  lemma LedgerIsSound(policy: Policy, s: State, p: Progress)
    requires E.Ledger(policy, s, p)
    ensures E.Sound(policy, p.state)
  {
  }

  lemma {:induction false} DispatchIsSilent(policy: Policy, p: Progress, now: int, port: Port)
    ensures HistoricalExecution.Dispatch(policy, p, now, port).problem == p.problem
    decreases Eligible(p.state, now)
  {
    var eligible := Eligible(p.state, now);
    if |p.state.active| < policy.maximumInFlight && eligible != {} {
      var id := First(p.state.pending, eligible);
      DispatchingShrinks(policy, p, id, now, port);
      DispatchIsSilent(policy, DispatchOne(policy, p, id, now, port), now, port);
    }
  }

  lemma DispatchReportsEvents(policy: Policy, s: State, id: Id, now: int, port: Port)
    requires id in s.pending
    ensures var p := DispatchOne(policy, Begin(s), id, now, port);
      p.update == Update(p.update.events, [], []) && p.problem.None?
  {
  }

  lemma DispatchStep(policy: Policy, p: Progress, id: Id, now: int, port: Port)
    requires |p.state.active| < policy.maximumInFlight && Eligible(p.state, now) != {} && p.problem.None?
    requires id == First(p.state.pending, Eligible(p.state, now)) && p.update == Update(p.update.events, [], [])
    ensures var q := DispatchOne(policy, p, id, now, port); var r := DispatchOne(policy, Begin(p.state), id, now, port);
      && HistoricalExecution.Dispatch(policy, p, now, port) == HistoricalExecution.Dispatch(policy, q, now, port)
      && q.state == r.state && q.commands == p.commands + r.commands && q.problem.None?
      && q.update == Update(p.update.events + r.update.events, [], [])
      && Eligible(q.state, now) < Eligible(p.state, now)
  {
    hide DispatchOne;
    DispatchingShrinks(policy, p, id, now, port);
    E.DispatchOneExtends(policy, p, id, now, port);
    DispatchReportsEvents(policy, p.state, id, now, port);
  }

  lemma EnqueueReportsEvents(policy: Policy, p: Progress, request: Request, now: int)
    requires p.problem.None?
    ensures var r := EnqueueOne(policy, p, request, now); var q := EnqueueOne(policy, Begin(p.state), request, now);
      && r.state == q.state && r.problem == q.problem && r.commands == p.commands && q.commands == []
      && (r.problem.None? ==> r.update == p.update.(events := p.update.events + q.update.events))
      && (r.problem.Some? ==> r.update == Update([], [], []))
  {
  }

  lemma ExpiryReports(policy: Policy, p: Progress, a: Active, now: int)
    requires p.problem.None?
    ensures var r := E.ExpireOne(policy, p, a, now); var q := E.ExpireOne(policy, Begin(p.state), a, now);
      && r.state == q.state && r.problem.None? && q.problem.None? && r.commands == p.commands + q.commands
      && r.update == ExtendUpdate(p.update, q.update)
  {
    E.ExpireOneExtends(policy, p, a, now);
  }

  lemma ExpireAllStep(policy: Policy, p: Progress, expired: seq<Active>, now: int)
    requires expired != []
    ensures ExpireAll(policy, p, expired, now) ==
            ExpireAll(policy, E.ExpireOne(policy, p, expired[0], now), expired[1..], now)
  {
  }

  class Coordinator {
    const policy: Policy
    var pending: map<Id, Pending>
    var active: map<Id, Active>
    var terminal: set<Id>
    /** Everything the port was told. */
    ghost var commands: seq<Command>

    ghost function Now(): State
      reads this
    {
      State(pending, active, terminal)
    }

    constructor (policy: Policy)
      ensures this.policy == policy && Now() == E.Empty() && commands == []
      ensures E.Sound(policy, Now())
    {
      this.policy := policy;
      pending, active, terminal, commands := map[], map[], {}, [];
    }

    method FinishFailure(a: Active, now: int, execution: ExecutionState, readiness: Readiness) returns (update: Update)
      modifies this`terminal
      ensures var p := FinishedBy(old(Now()), a, now, execution, readiness); Now() == p.state && update == p.update
    {
      terminal := terminal + {a.request.id};
      update := Update([Event(a.request.id, execution, a.attempt, now)], [], FailureResults(a.request, readiness, now));
    }

    static ghost function FinishedBy(
        s: State, a: Active, now: int, execution: ExecutionState, readiness: Readiness): Progress
    {
      HistoricalExecution.FinishFailure(Begin(s), a, now, execution, readiness)
    }

    method RetryOrFinish(a: Active, now: int, execution: ExecutionState, readiness: Readiness) returns (update: Update)
      modifies this`pending, this`terminal
      ensures var p := HistoricalExecution.RetryOrFinish(policy, Begin(old(Now())), a, now, execution, readiness);
        Now() == p.state && update == p.update
    {
      if a.attempt >= policy.maximumAttempts {
        update := FinishFailure(a, now, execution, readiness);
        return;
      }
      var nextAttempt := a.attempt + 1;
      pending := pending[a.request.id := Pending(a.request, nextAttempt, now + policy.retryBackoff)];
      update := Update([Event(a.request.id, RETRY_SCHEDULED, nextAttempt, now)], [], []);
    }

    /** The port either takes a request or raises. */
    method SubmitToPort(id: Id, request: Request, attempt: int, port: Port) returns (accepted: bool)
      modifies this`commands
      ensures accepted == port(id, attempt)
      ensures commands == old(commands) + [Submit(request, attempt, accepted)]
    {
      accepted := port(id, attempt);
      commands := commands + [Submit(request, attempt, accepted)];
    }

    method DispatchNext(id: Id, now: int, port: Port) returns (events: seq<Event>)
      requires id in pending
      modifies this
      ensures var p := DispatchOne(policy, Begin(old(Now())), id, now, port);
        Now() == p.state && events == p.update.events && commands == old(commands) + p.commands
    {
      var q := pending[id];
      pending := pending - {id};
      var accepted := SubmitToPort(id, q.request, q.attempt, port);
      if accepted {
        active := active[id := Active(q.request, q.attempt, now)];
        return [Event(id, SUBMITTED, q.attempt, now)];
      }
      var ended := RetryOrFinish(Active(q.request, q.attempt, now), now, FAILED, LOST);
      return ended.events;
    }

    method Dispatch(now: int, port: Port) returns (update: Update)
      modifies this
      ensures var p := HistoricalExecution.Dispatch(policy, Begin(old(Now())), now, port);
        Now() == p.state && update == p.update && commands == old(commands) + p.commands
    {
      hide DispatchOne;
      var events: seq<Event> := [];
      ghost var p := Begin(Now());
      ghost var goal := HistoricalExecution.Dispatch(policy, p, now, port);
      var eligible := Eligible(State(pending, active, terminal), now);
      while |active| < policy.maximumInFlight && eligible != {}
        invariant p.state == Now() && p.update == Update(events, [], []) && commands == old(commands) + p.commands
        invariant eligible == Eligible(Now(), now) && p.problem.None?
        invariant HistoricalExecution.Dispatch(policy, p, now, port) == goal
        decreases eligible
      {
        var id := First(pending, eligible);
        DispatchStep(policy, p, id, now, port);
        ghost var next := DispatchOne(policy, p, id, now, port);
        var reported := DispatchNext(id, now, port);
        events := events + reported;
        eligible := Eligible(State(pending, active, terminal), now);
        p := next;
      }
      update := Update(events, [], []);
    }

    /** Adding dependencies to a request that is already queued or in flight. */
    method Share(existing: Request, request: Request, now: int) returns (ok: bool, events: seq<Event>)
      requires Now().RequestFor(request.id) == Some(existing)
      modifies this`pending, this`active
      ensures var p := EnqueueOne(policy, Begin(old(Now())), request, now);
        Now() == p.state && ok == p.problem.None? && events == p.update.events
    {
      events := [];
      var merged := MergeRequests(existing, request);
      if merged.None? { return false, []; }
      var attempt: int;
      if request.id in pending {
        attempt := pending[request.id].attempt;
        pending := pending[request.id := pending[request.id].(request := merged.value)];
      } else {
        attempt := active[request.id].attempt;
        active := active[request.id := active[request.id].(request := merged.value)];
      }
      if merged.value.dependencies != existing.dependencies {
        events := [Event(request.id, SHARED, attempt, now)];
      }
      ok := true;
    }

    method EnqueueNext(request: Request, now: int) returns (problem: Option<Problem>, events: seq<Event>)
      modifies this`pending, this`active
      ensures var p := EnqueueOne(policy, Begin(old(Now())), request, now);
        Now() == p.state && problem == p.problem && events == p.update.events
    {
      var existing := State(pending, active, terminal).RequestFor(request.id);
      if existing.Some? {
        var ok, shared := Share(existing.value, request, now);
        return if ok then None else Some(KeyMismatch), shared;
      }
      if request.id in terminal { return Some(TerminalRequest), []; }
      if |pending| + |active| >= policy.maximumQueued { return Some(QueueFull), []; }
      pending := pending[request.id := Pending(request, 1, now)];
      return None, [Event(request.id, QUEUED, 1, now)];
    }

    method EnqueueEach(requests: seq<Request>, now: int) returns (problem: Option<Problem>, events: seq<Event>)
      modifies this`pending, this`active
      ensures var p := EnqueueAll(policy, Begin(old(Now())), requests, now);
        Now() == p.state && problem == p.problem && Update(events, [], []) == p.update && p.commands == []
    {
      hide EnqueueOne;
      problem, events := None, [];
      ghost var p := Begin(Now());
      ghost var goal := EnqueueAll(policy, p, requests, now);
      for i := 0 to |requests|
        invariant p.state == Now() && p.problem.None? && p.update == Update(events, [], []) && p.commands == []
        invariant EnqueueAll(policy, p, requests[i..], now) == goal
      {
        EnqueueReportsEvents(policy, p, requests[i], now);
        assert requests[i..][1..] == requests[i + 1..];
        p := EnqueueOne(policy, p, requests[i], now);
        var stopped, reported := EnqueueNext(requests[i], now);
        if stopped.Some? { return stopped, []; }
        events := events + reported;
      }
      assert requests[|requests|..] == [];
    }

    method Enqueue(requests: seq<Request>, now: int, port: Port) returns (problem: Option<Problem>, update: Update)
      requires E.Sound(policy, Now())
      modifies this
      ensures var p := Perform(policy, old(Now()), Call.Enqueue(requests), now, port);
        && Now() == p.state && problem == p.problem && update == p.update && commands == old(commands) + p.commands
        && E.Sound(policy, Now())
    {
      hide E.Sound, Perform, HistoricalExecution.Dispatch, EnqueueAll;
      Outcome(policy, Now(), Call.Enqueue(requests), now, port);
      if now < 0 { return Some(NegativeNow), Update([], [], []); }
      var stopped, events := EnqueueEach(requests, now);
      if stopped.Some? { return stopped, Update(events, [], []); }
      var dispatched := Dispatch(now, port);
      return None, ExtendUpdate(Update(events, [], []), dispatched);
    }

    method ExpireEach(expired: seq<Active>, now: int) returns (update: Update)
      modifies this
      ensures var p := ExpireAll(policy, Begin(old(Now())), expired, now);
        Now() == p.state && update == p.update && commands == old(commands) + p.commands && p.problem.None?
    {
      hide E.ExpireOne;
      update := Update([], [], []);
      ghost var p := Begin(Now());
      ghost var goal := ExpireAll(policy, p, expired, now);
      for i := 0 to |expired|
        invariant p.state == Now() && p.update == update && commands == old(commands) + p.commands
        invariant p.problem.None? && ExpireAll(policy, p, expired[i..], now) == goal
      {
        ExpiryReports(policy, p, expired[i], now);
        ExpireAllStep(policy, p, expired[i..], now);
        assert expired[i..][1..] == expired[i + 1..];
        p := E.ExpireOne(policy, p, expired[i], now);
        var ended := ExpireNext(expired[i], now);
        update := ExtendUpdate(update, ended);
      }
      assert expired[|expired|..] == [];
    }

    method ExpireNext(a: Active, now: int) returns (update: Update)
      modifies this
      ensures var p := E.ExpireOne(policy, Begin(old(Now())), a, now);
        Now() == p.state && update == p.update && commands == old(commands) + p.commands
    {
      active := active - {a.request.id};
      commands := commands + [Withdraw(a.request)];
      update := RetryOrFinish(a, now, EXPIRED, OVERDUE);
    }

    method Advance(now: int, port: Port) returns (problem: Option<Problem>, update: Update)
      requires E.Sound(policy, Now())
      modifies this
      ensures var p := Perform(policy, old(Now()), Call.Advance, now, port);
        && Now() == p.state && problem == p.problem && update == p.update && commands == old(commands) + p.commands
        && E.Sound(policy, Now())
    {
      hide E.Sound, Perform, HistoricalExecution.Dispatch, ExpireAll;
      Outcome(policy, Now(), Call.Advance, now, port);
      if now < 0 { return Some(NegativeNow), Update([], [], []); }
      var expired := OverdueActives(policy, State(pending, active, terminal), now);
      update := ExpireEach(expired, now);
      var dispatched := Dispatch(now, port);
      return None, ExtendUpdate(update, dispatched);
    }

    method Complete(id: Id, observations: seq<Id>, now: int, port: Port)
      returns (problem: Option<Problem>, update: Update)
      requires E.Sound(policy, Now())
      modifies this
      ensures var p := Perform(policy, old(Now()), Call.Complete(id, observations), now, port);
        && Now() == p.state && problem == p.problem && update == p.update && commands == old(commands) + p.commands
        && E.Sound(policy, Now())
    {
      hide E.Sound, Perform, HistoricalExecution.Dispatch;
      Outcome(policy, Now(), Call.Complete(id, observations), now, port);
      update := Update([], [], []);
      if now < 0 { return Some(NegativeNow), update; }
      if id !in active { return Some(NotActive), update; }
      if now <= 0 { return Some(BadReceipt), update; }
      var a := active[id];
      active := active - {id};
      terminal := terminal + {id};
      var completed := Update([Event(a.request.id, COMPLETED, a.attempt, now)], [Batch(a.request, observations, now)],
                              CompletionResults(a.request, |observations|, now));
      var dispatched := Dispatch(now, port);
      return None, ExtendUpdate(completed, dispatched);
    }

    method Fail(id: Id, blank: bool, retryable: bool, now: int, port: Port)
      returns (problem: Option<Problem>, update: Update)
      requires E.Sound(policy, Now())
      modifies this
      ensures var p := Perform(policy, old(Now()), Call.Fail(id, blank, retryable), now, port);
        && Now() == p.state && problem == p.problem && update == p.update && commands == old(commands) + p.commands
        && E.Sound(policy, Now())
    {
      hide E.Sound, Perform, HistoricalExecution.Dispatch;
      Outcome(policy, Now(), Call.Fail(id, blank, retryable), now, port);
      update := Update([], [], []);
      if now < 0 { return Some(NegativeNow), update; }
      if id !in active { return Some(NotActive), update; }
      var a := active[id];
      active := active - {id};
      if blank { return Some(BlankReason), update; }
      var ended: Update;
      if retryable {
        ended := RetryOrFinish(a, now, FAILED, LOST);
      } else {
        ended := FinishFailure(a, now, FAILED, LOST);
      }
      var dispatched := Dispatch(now, port);
      return None, ExtendUpdate(ended, dispatched);
    }

    method Cancel(id: Id, now: int, port: Port) returns (problem: Option<Problem>, update: Update)
      requires E.Sound(policy, Now())
      modifies this
      ensures var p := Perform(policy, old(Now()), Call.Cancel(id), now, port);
        && Now() == p.state && problem == p.problem && update == p.update && commands == old(commands) + p.commands
        && E.Sound(policy, Now())
    {
      hide E.Sound, Perform, HistoricalExecution.Dispatch;
      Outcome(policy, Now(), Call.Cancel(id), now, port);
      update := Update([], [], []);
      if now < 0 { return Some(NegativeNow), update; }
      var ended: Update;
      if id in pending {
        var q := pending[id];
        pending := pending - {id};
        ended := FinishFailure(Active(q.request, q.attempt, now), now, CANCELED, DROPPED);
      } else if id in active {
        var a := active[id];
        active := active - {id};
        commands := commands + [Withdraw(a.request)];
        ended := FinishFailure(a, now, CANCELED, DROPPED);
      } else {
        return None, update;
      }
      var dispatched := Dispatch(now, port);
      return None, ExtendUpdate(ended, dispatched);
    }
  }
}
