/** What a sweep over the in-flight requests withdraws, by the clock, and where it leaves them. */
module ExecutionTiming {
  import opened Prelude
  import opened HistoricalExecution
  import opened ExecutionHistory
  import opened ExecutionDispatch

  /** The request has been in flight for the timeout or longer. */
  predicate TimedOut(policy: Policy, s: State, id: Id, now: int) {
    id in s.active && s.active[id].submittedAt + policy.timeout <= now
  }

  /** The commands that withdraw these requests. */
  function Withdrawing(s: State, ids: seq<Id>): (r: seq<Command>)
    requires forall i :: 0 <= i < |ids| ==> ids[i] in s.active
    ensures |r| == |ids| && forall i :: 0 <= i < |r| ==> r[i] == Withdraw(s.active[ids[i]].request)
  {
    seq(|ids|, i requires 0 <= i < |ids| => Withdraw(s.active[ids[i]].request))
  }

  /** Where a withdrawn request goes: to its next attempt after the backoff, or to its end. */
  ghost predicate Rescheduled(policy: Policy, a: Active, now: int, t: State) {
    var id := a.request.id;
    && id !in t.active
    && (if a.attempt < policy.maximumAttempts
        then id in t.pending && t.pending[id] == Pending(a.request, a.attempt + 1, now + policy.retryBackoff)
        else id in t.terminal && id !in t.pending)
  }

  lemma {:induction false} AscendingIncreases(ids: set<Id>, i: nat, j: nat)
    requires i < j < |Ascending(ids)|
    ensures Ascending(ids)[i] < Ascending(ids)[j]
    decreases |ids|
  {
    hide Distinct;
    var least := LeastOf(ids);
    var rest := Ascending(ids - {least});
    assert Ascending(ids) == [least] + rest;
    if i == 0 {
      assert rest[j - 1] in ids - {least};
    } else {
      AscendingIncreases(ids - {least}, i - 1, j - 1);
    }
  }

  /** The requests that have been in flight for the timeout or longer, smallest id first. */
  function TimedOutIds(policy: Policy, s: State, now: int): (ids: seq<Id>)
    ensures forall id :: id in ids <==> TimedOut(policy, s, id, now)
    ensures forall i, j :: 0 <= i < j < |ids| ==> ids[i] < ids[j]
    ensures forall i :: 0 <= i < |ids| ==> ids[i] in s.active
  {
    var late := set id | id in s.active && TimedOut(policy, s, id, now);
    var ids := Ascending(late);
    assert forall i, j :: 0 <= i < j < |ids| ==> ids[i] < ids[j] by {
      forall i, j | 0 <= i < j < |ids| ensures ids[i] < ids[j] { AscendingIncreases(late, i, j); }
    }
    ids
  }

  // The sweep

  /** What a sweep over `expired` leaves: each is withdrawn, in order, and rescheduled. */
  ghost predicate Swept(policy: Policy, p: Progress, expired: seq<Active>, now: int, q: Progress) {
    && q.commands == p.commands + seq(|expired|, i requires 0 <= i < |expired| => Withdraw(expired[i].request))
    && (forall a :: a in expired ==> Rescheduled(policy, a, now, q.state))
    && (forall id :: id in p.state.pending ==> id in q.state.pending && q.state.pending[id] == p.state.pending[id])
    && (forall id :: id in q.state.pending ==>
          id in p.state.pending || exists a :: a in expired && a.request.id == id)
    && p.state.terminal <= q.state.terminal
    && (forall id :: id in q.state.active ==> id in p.state.active && q.state.active[id] == p.state.active[id])
    && (forall id :: id in p.state.active && (forall a :: a in expired ==> a.request.id != id) ==> id in q.state.active)
  }

  lemma OneIsRescheduled(policy: Policy, p: Progress, a: Active, now: int)
    requires a.request.id in p.state.active && p.state.active[a.request.id] == a && a.request.id !in p.state.pending
    ensures Swept(policy, p, [a], now, ExpireOne(policy, p, a, now))
  {
  }

  lemma SweptJoins(policy: Policy, p: Progress, one: Progress, q: Progress, a: Active, rest: seq<Active>, now: int)
    requires Swept(policy, p, [a], now, one) && Swept(policy, one, rest, now, q)
    requires forall b :: b in rest ==> b.request.id != a.request.id
    ensures Swept(policy, p, [a] + rest, now, q)
  {
    var all := [a] + rest;
    assert seq(|all|, i requires 0 <= i < |all| => Withdraw(all[i].request))
        == seq(1, i requires 0 <= i < 1 => Withdraw([a][i].request))
         + seq(|rest|, i requires 0 <= i < |rest| => Withdraw(rest[i].request));
    assert forall b :: b in all <==> b == a || b in rest;
  }

  lemma {:induction false} SweepReschedules(policy: Policy, p: Progress, expired: seq<Active>, now: int)
    requires InFlight(p.state, expired) && forall a :: a in expired ==> a.request.id !in p.state.pending
    ensures Swept(policy, p, expired, now, ExpireAll(policy, p, expired, now))
    decreases |expired|
  {
    hide Swept, ExpireOne, ExpireAll;
    if expired == [] {
      SweepingNothing(policy, p, expired, now);
    } else {
      var a, rest := expired[0], expired[1..];
      var one := ExpireOne(policy, p, a, now);
      assert a in expired;
      SweepingOne(policy, p, expired, now);
      OthersFollow(p.state, expired);
      OneIsRescheduled(policy, p, a, now);
      ExpireOneLeaves(policy, p, expired, now);
      OthersStayActive(policy, p, a, rest, now);
      SweepReschedules(policy, one, rest, now);
      SweptJoins(policy, p, one, ExpireAll(policy, one, rest, now), a, rest, now);
      assert [a] + rest == expired;
    }
  }

  lemma SweepingNothing(policy: Policy, p: Progress, expired: seq<Active>, now: int)
    requires expired == []
    ensures Swept(policy, p, expired, now, ExpireAll(policy, p, expired, now))
  {
    assert p.commands + [] == p.commands;
  }

  lemma SweepingOne(policy: Policy, p: Progress, expired: seq<Active>, now: int)
    requires expired != []
    ensures ExpireAll(policy, p, expired, now)
         == ExpireAll(policy, ExpireOne(policy, p, expired[0], now), expired[1..], now)
  {
  }

  lemma OthersStayActive(policy: Policy, p: Progress, a: Active, rest: seq<Active>, now: int)
    requires forall b :: b in rest ==> b.request.id != a.request.id && b.request.id !in p.state.pending
    ensures forall b :: b in rest ==> b.request.id !in ExpireOne(policy, p, a, now).state.pending
  {
  }

  lemma OthersFollow(s: State, expired: seq<Active>)
    requires InFlight(s, expired) && expired != []
    ensures forall b :: b in expired[1..] ==> b in expired && b.request.id != expired[0].request.id
  {
    forall b | b in expired[1..] ensures b in expired && b.request.id != expired[0].request.id {
      var i :| 0 <= i < |expired[1..]| && expired[1..][i] == b;
      assert b == expired[i + 1];
    }
  }

  // The dispatch that follows

  /** What dispatching at `now` leaves alone, and that what it puts in flight starts now. */
  ghost predicate Dispatched(p: Progress, now: int, q: Progress) {
    && (forall id :: id in p.state.pending && p.state.pending[id].availableAt > now ==>
          id in q.state.pending && q.state.pending[id] == p.state.pending[id] && id !in q.state.active)
    && (forall id :: id in p.state.active ==> id in q.state.active && q.state.active[id] == p.state.active[id])
    && (forall id :: id in q.state.active && id !in p.state.active ==>
          id in p.state.pending && q.state.active[id].submittedAt == now)
    && (forall id :: id in q.state.pending ==> id in p.state.pending)
    && p.state.terminal <= q.state.terminal
    && p.commands <= q.commands
    && (forall i :: |p.commands| <= i < |q.commands| ==> q.commands[i].Submit?)
  }

  lemma DispatchingOne(policy: Policy, p: Progress, id: Id, now: int, port: Port)
    requires id in Eligible(p.state, now) && p.state.pending[id].request.id == id
    requires forall other :: other in p.state.pending ==> other !in p.state.active
    ensures Dispatched(p, now, DispatchOne(policy, p, id, now, port))
  {
  }

  lemma PendingAreNotActive(policy: Policy, s: State)
    requires Sound(policy, s)
    ensures forall id :: id in s.pending ==> id !in s.active && s.pending[id].request.id == id
  {
  }

  lemma DispatchedJoins(p: Progress, q: Progress, r: Progress, now: int)
    requires Dispatched(p, now, q) && Dispatched(q, now, r)
    ensures Dispatched(p, now, r)
  {
    forall i | |p.commands| <= i < |r.commands| ensures r.commands[i].Submit? {
      assert i < |q.commands| ==> r.commands[i] == q.commands[i];
    }
  }

  lemma {:induction false} DispatchLeavesTheRest(policy: Policy, p: Progress, now: int, port: Port)
    requires Sound(policy, p.state)
    ensures Dispatched(p, now, Dispatch(policy, p, now, port))
    decreases Eligible(p.state, now)
  {
    var eligible := Eligible(p.state, now);
    if |p.state.active| < policy.maximumInFlight && eligible != {} {
      var id := First(p.state.pending, eligible);
      DispatchingShrinks(policy, p, id, now, port);
      PendingAreNotActive(policy, p.state);
      hide Sound, DispatchOne, Dispatched;
      DispatchOneStaysSound(policy, p, id, now, port);
      DispatchingOne(policy, p, id, now, port);
      DispatchLeavesTheRest(policy, DispatchOne(policy, p, id, now, port), now, port);
      DispatchedJoins(p, DispatchOne(policy, p, id, now, port), Dispatch(policy, p, now, port), now);
    } else {
      PendingAreNotActive(policy, p.state);
    }
  }

  // Advancing

  /** After an advance at `now` with `ids` timed out. */
  ghost predicate Advanced(policy: Policy, s: State, now: int, ids: seq<Id>, p: Progress)
    requires forall i :: 0 <= i < |ids| ==> ids[i] in s.active
  {
    && (forall id :: id in p.state.active ==> now < p.state.active[id].submittedAt + policy.timeout)
    && |ids| <= |p.commands| && p.commands[..|ids|] == Withdrawing(s, ids)
    && (forall i :: |ids| <= i < |p.commands| ==> p.commands[i].Submit?)
    && (forall i :: 0 <= i < |ids| ==> Rescheduled(policy, s.active[ids[i]], now, p.state))
    && (forall id :: id in s.active && id !in ids ==> id in p.state.active && p.state.active[id] == s.active[id])
  }

  /** An advance withdraws exactly the requests that have been in flight for the timeout, smallest id
      first. Each is queued for its next attempt after the backoff, or has ended with its last; whatever
      else was in flight stays there, and nothing that stays has timed out. */
  lemma AdvanceWithdrawsTheTimedOut(policy: Policy, s: State, now: int, port: Port)
    requires Sound(policy, s) && 0 <= now
    ensures Advanced(policy, s, now, TimedOutIds(policy, s, now), Perform(policy, s, Advance, now, port))
  {
    hide Dispatch, ExpireAll, Sound, Swept, Dispatched, Advanced, Overdue, OverdueActives, TimedOut;
    var expired := OverdueActives(policy, s, now);
    OverdueAreInFlight(policy, s, now);
    ExpiredAreActive(policy, s, now);
    var swept := ExpireAll(policy, Begin(s), expired, now);
    SweepReschedules(policy, Begin(s), expired, now);
    EmptyKept(policy, s);
    ExpireAllKeeps(policy, s, Begin(s), expired, now);
    KeptIsSound(policy, s, swept);
    DispatchLeavesTheRest(policy, Begin(swept.state), now, port);
    AdvanceIsBoth(policy, s, now, port);
    SweepThenDispatch(policy, s, now, swept, Dispatch(policy, Begin(swept.state), now, port),
                      Perform(policy, s, Advance, now, port));
  }

  lemma KeptIsSound(policy: Policy, s: State, p: Progress)
    requires Kept(policy, s, p)
    ensures Sound(policy, p.state)
  {
  }

  lemma ExpiredAreActive(policy: Policy, s: State, now: int)
    requires Sound(policy, s)
    ensures forall a :: a in OverdueActives(policy, s, now) ==> a.request.id !in s.pending
  {
    OverdueAreInFlight(policy, s, now);
    PendingAreNotActive(policy, s);
  }

  lemma AdvanceIsBoth(policy: Policy, s: State, now: int, port: Port)
    requires 0 <= now && ExpireAll(policy, Begin(s), OverdueActives(policy, s, now), now).problem.None?
    ensures var swept := ExpireAll(policy, Begin(s), OverdueActives(policy, s, now), now);
      var d := Dispatch(policy, Begin(swept.state), now, port); var p := Perform(policy, s, Advance, now, port);
      p.state == d.state && p.commands == swept.commands + d.commands
  {
    hide Dispatch, ExpireAll, OverdueActives;
  }

  lemma OverdueAreTimedOut(policy: Policy, s: State, now: int)
    ensures var ids := TimedOutIds(policy, s, now); var expired := OverdueActives(policy, s, now);
      |expired| == |ids| && forall i :: 0 <= i < |ids| ==> expired[i] == s.active[ids[i]]
  {
    assert Overdue(policy, s, now) == set id | id in s.active && TimedOut(policy, s, id, now);
  }

  /** `expired` are the requests `ids` in flight, and these are all that have timed out. */
  ghost predicate Captured(policy: Policy, s: State, now: int, ids: seq<Id>, expired: seq<Active>) {
    && |expired| == |ids|
    && (forall i :: 0 <= i < |ids| ==>
          ids[i] in s.active && expired[i] == s.active[ids[i]] && expired[i].request.id == ids[i])
    && (forall id :: id in s.active && id !in ids ==> now < s.active[id].submittedAt + policy.timeout)
  }

  lemma TimedOutAreCaptured(policy: Policy, s: State, now: int)
    requires Sound(policy, s)
    ensures Captured(policy, s, now, TimedOutIds(policy, s, now), OverdueActives(policy, s, now))
  {
    var ids := TimedOutIds(policy, s, now);
    OverdueAreTimedOut(policy, s, now);
    forall i | 0 <= i < |ids| ensures s.active[ids[i]].request.id == ids[i] { ActiveIdentified(policy, s, ids[i]); }
    forall id | id in s.active && id !in ids ensures now < s.active[id].submittedAt + policy.timeout {
      assert !TimedOut(policy, s, id, now);
    }
  }

  lemma WithdrawnFirst(
      policy: Policy, s: State, now: int, ids: seq<Id>, expired: seq<Active>, swept: Progress, d: Progress, p: Progress)
    requires Captured(policy, s, now, ids, expired) && Swept(policy, Begin(s), expired, now, swept)
    requires Dispatched(Begin(swept.state), now, d) && p.commands == swept.commands + d.commands
    ensures |ids| <= |p.commands| && p.commands[..|ids|] == Withdrawing(s, ids)
    ensures forall i :: |ids| <= i < |p.commands| ==> p.commands[i].Submit?
  {
    hide Rescheduled;
    assert swept.commands == Withdrawing(s, ids);
  }

  lemma CapturedAreGone(
      policy: Policy, s: State, now: int, ids: seq<Id>, expired: seq<Active>, swept: Progress, d: Progress)
    requires Captured(policy, s, now, ids, expired) && Swept(policy, Begin(s), expired, now, swept)
    requires Dispatched(Begin(swept.state), now, d) && forall id :: id in s.active ==> id !in s.pending
    ensures forall i :: 0 <= i < |ids| ==> Rescheduled(policy, s.active[ids[i]], now, d.state)
  {
    forall i | 0 <= i < |ids| ensures Rescheduled(policy, s.active[ids[i]], now, d.state) {
      assert expired[i] in expired;
      assert Rescheduled(policy, expired[i], now, swept.state);
    }
  }

  lemma OthersStay(
      policy: Policy, s: State, now: int, ids: seq<Id>, expired: seq<Active>, swept: Progress, d: Progress)
    requires Captured(policy, s, now, ids, expired) && Swept(policy, Begin(s), expired, now, swept)
    requires Dispatched(Begin(swept.state), now, d)
    ensures forall id :: id in s.active && id !in ids ==> id in d.state.active && d.state.active[id] == s.active[id]
    ensures forall id :: id in d.state.active ==> now < d.state.active[id].submittedAt + policy.timeout
  {
    forall id | id in s.active && id !in ids ensures id in d.state.active && d.state.active[id] == s.active[id] {
      forall a | a in expired ensures a.request.id != id {
        var i :| 0 <= i < |expired| && expired[i] == a;
        assert ids[i] in ids;
      }
    }
    forall i | 0 <= i < |ids| ensures ids[i] !in swept.state.active {
      assert expired[i] in expired;
    }
  }

  lemma SweepThenDispatch(policy: Policy, s: State, now: int, swept: Progress, d: Progress, p: Progress)
    requires Sound(policy, s) && Swept(policy, Begin(s), OverdueActives(policy, s, now), now, swept)
    requires Dispatched(Begin(swept.state), now, d)
    requires p.state == d.state && p.commands == swept.commands + d.commands
    ensures Advanced(policy, s, now, TimedOutIds(policy, s, now), p)
  {
    TimedOutAreCaptured(policy, s, now);
    PendingAreNotActive(policy, s);
    var ids, expired := TimedOutIds(policy, s, now), OverdueActives(policy, s, now);
    hide Sound, Swept, Dispatched, Captured, OverdueActives, Rescheduled;
    WithdrawnFirst(policy, s, now, ids, expired, swept, d, p);
    CapturedAreGone(policy, s, now, ids, expired, swept, d);
    OthersStay(policy, s, now, ids, expired, swept, d);
  }

  // What consumers are told

  /** One result per dependency of each request whose last attempt timed out. */
  function OverdueResults(policy: Policy, expired: seq<Active>, now: int): seq<Result> {
    if expired == [] then []
    else
      (if expired[0].attempt >= policy.maximumAttempts then FailureResults(expired[0].request, OVERDUE, now) else [])
      + OverdueResults(policy, expired[1..], now)
  }

  lemma {:induction false} SweepTells(policy: Policy, p: Progress, expired: seq<Active>, now: int)
    ensures ExpireAll(policy, p, expired, now).update.results == p.update.results + OverdueResults(policy, expired, now)
    ensures ExpireAll(policy, p, expired, now).update.batches == p.update.batches
    decreases |expired|
  {
    if expired == [] {
      assert p.update.results + [] == p.update.results;
    } else {
      var one := ExpireOne(policy, p, expired[0], now);
      var first := if expired[0].attempt >= policy.maximumAttempts then FailureResults(expired[0].request, OVERDUE, now)
                   else [];
      assert one.update.results == p.update.results + first;
      SweepTells(policy, one, expired[1..], now);
      assert p.update.results + first + OverdueResults(policy, expired[1..], now)
          == p.update.results + (first + OverdueResults(policy, expired[1..], now));
    }
  }

  /** An advance tells exactly the dependencies of the requests whose last attempt timed out, by id, that
      they are overdue, and delivers nothing. */
  lemma AdvanceTellsTheOverdue(policy: Policy, s: State, now: int, port: Port)
    requires 0 <= now && Sound(policy, s)
    ensures var ids := TimedOutIds(policy, s, now); var u := Perform(policy, s, Advance, now, port).update;
      && u.batches == []
      && u.results == OverdueResults(policy, seq(|ids|, i requires 0 <= i < |ids| => s.active[ids[i]]), now)
  {
    hide Dispatch, ExpireAll, OverdueActives, TimedOutIds, Sound, OverdueResults, InFlight, Kept;
    var ids, expired := TimedOutIds(policy, s, now), OverdueActives(policy, s, now);
    OverdueAreTimedOut(policy, s, now);
    assert expired == seq(|ids|, i requires 0 <= i < |ids| => s.active[ids[i]]);
    SweepTells(policy, Begin(s), expired, now);
    var swept := ExpireAll(policy, Begin(s), expired, now);
    OverdueAreInFlight(policy, s, now);
    EmptyKept(policy, s);
    ExpireAllKeeps(policy, s, Begin(s), expired, now);
    DispatchTellsNothing(policy, Begin(swept.state), now, port);
    assert [] + OverdueResults(policy, expired, now) == OverdueResults(policy, expired, now);
    assert swept.update.results + [] == swept.update.results && swept.update.batches + [] == swept.update.batches;
  }

  lemma {:induction false} DispatchStaysSilent(policy: Policy, p: Progress, now: int, port: Port)
    ensures Dispatch(policy, p, now, port).problem == p.problem
    decreases Eligible(p.state, now)
  {
    var eligible := Eligible(p.state, now);
    if |p.state.active| < policy.maximumInFlight && eligible != {} {
      var id := First(p.state.pending, eligible);
      DispatchingShrinks(policy, p, id, now, port);
      DispatchStaysSilent(policy, DispatchOne(policy, p, id, now, port), now, port);
    }
  }

  /** Where a reported failure leaves its request before anything is dispatched. */
  ghost predicate FailureSettled(policy: Policy, a: Active, retryable: bool, now: int, p: Progress) {
    var id := a.request.id;
    && p.problem.None? && p.update.batches == [] && id !in p.state.active
    && if retryable && a.attempt < policy.maximumAttempts then
         && p.update.results == [] && id in p.state.pending
         && p.state.pending[id] == Pending(a.request, a.attempt + 1, now + policy.retryBackoff)
       else p.update.results == FailureResults(a.request, LOST, now) && id in p.state.terminal && id !in p.state.pending
  }

  lemma FailureSettles(policy: Policy, s: State, id: Id, retryable: bool, now: int)
    requires Sound(policy, s) && id in s.active && 0 <= now
    ensures FailureSettled(policy, s.active[id], retryable, now, Settle(policy, s, Fail(id, false, retryable), now))
  {
    ActiveIdentified(policy, s, id);
    var results := FailureResults(s.active[id].request, LOST, now);
    assert [] + results == results;
  }

  lemma DispatchKeepsFailure(policy: Policy, a: Active, retryable: bool, now: int, p: Progress, d: Progress)
    requires FailureSettled(policy, a, retryable, now, p) && Dispatched(Begin(p.state), now, d)
    requires d.problem.None? && d.update.results == [] && d.update.batches == []
    ensures FailureSettled(policy, a, retryable, now, Extend(p, d))
  {
    assert p.update.results + [] == p.update.results;
  }

  /** A reported failure: with an attempt left and a hope, the request waits for its next attempt after
      the backoff and nobody is told; without, it ends and every dependency is told that it is lost. */
  lemma FailureIsRetriedOrTold(policy: Policy, s: State, id: Id, retryable: bool, now: int, port: Port)
    requires Sound(policy, s) && id in s.active && 0 <= now
    ensures FailureSettled(policy, s.active[id], retryable, now,
                           Perform(policy, s, Fail(id, false, retryable), now, port))
    ensures s.active[id].request.id == id
  {
    hide Dispatch, Sound, FailureSettled, Dispatched, Settle, Kept;
    var settled := Settle(policy, s, Fail(id, false, retryable), now);
    ActiveIdentified(policy, s, id);
    FailureSettles(policy, s, id, retryable, now);
    assert settled.problem.None? by { SettledWell(policy, s.active[id], retryable, now, settled); }
    SettlingKeeps(policy, s, Fail(id, false, retryable), now);
    KeptIsSound(policy, s, settled);
    var d := Dispatch(policy, Begin(settled.state), now, port);
    DispatchLeavesTheRest(policy, Begin(settled.state), now, port);
    DispatchTellsNothing(policy, Begin(settled.state), now, port);
    DispatchStaysSilent(policy, Begin(settled.state), now, port);
    DispatchKeepsFailure(policy, s.active[id], retryable, now, settled, d);
  }

  lemma SettledWell(policy: Policy, a: Active, retryable: bool, now: int, p: Progress)
    requires FailureSettled(policy, a, retryable, now, p)
    ensures p.problem.None?
  {
  }
}
