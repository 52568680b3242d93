/** What reconciling the transition buffer does to watermarks, and its loop form. */
module BufferReconciliation {
  import opened Prelude
  import opened CalendarMessages
  import opened SessionStateDelivery

  // The loops

  lemma ResumeTwice(kept: seq<Transition>, advanced: bool, more: seq<Transition>, further: bool, rest: Walk)
    ensures Resume(kept, advanced, Resume(more, further, rest)) == Resume(kept + more, advanced || further, rest)
  {
    if rest.Walked? { assert kept + (more + rest.retained) == kept + more + rest.retained; }
  }

  method WalkCalendar(events: seq<Transition>, from: CurrentState) returns (walk: Walk)
    ensures walk == WalkEvents(events, from)
  {
    var watermark, retained, advanced := from, [], false;
    var i := 0;
    while i < |events|
      invariant 0 <= i <= |events|
      invariant Resume(retained, advanced, WalkEvents(events[i..], watermark)) == WalkEvents(events, from)
      // nothing above the watermark is ever dropped, so the closing extend of `retained` adds nothing
      invariant forall j :: 0 <= j < i && watermark.revision < events[j].revision ==> events[j] in retained
    {
      var event := events[i];
      assert events[i..][0] == event && events[i..][1..] == events[i + 1..];
      match Placed(event, watermark) {
        case Disputes =>
          return Clash;
        case Behind =>
        case Beyond =>
          ResumeTwice(retained, advanced, [event], false, WalkEvents(events[i + 1..], watermark));
          retained := retained + [event];
        case NextUp =>
          ResumeTwice(retained, advanced, [], true, WalkEvents(events[i + 1..], StateFromTransition(event)));
          watermark := StateFromTransition(event);
          advanced := true;
      }
      i := i + 1;
    }
    return Walked(watermark, retained, advanced);
  }

  method ReconcileBuffer(s: State) returns (u: Update)
    ensures u == Reconcile(s)
  {
    var watermarks, retained, installed, affected := s.watermarks, [], {}, {};
    var start := Passed(watermarks, retained, installed, affected);
    var i := 0;
    while i < |s.expectations|
      invariant 0 <= i <= |s.expectations|
      invariant PassCalendars(s.expectations[i..], s.buffer, Passed(watermarks, retained, installed, affected))
             == PassCalendars(s.expectations, s.buffer, start)
    {
      var calendar := s.expectations[i].calendarId;
      assert s.expectations[i..][0] == s.expectations[i] && s.expectations[i..][1..] == s.expectations[i + 1..];
      var events := SortedEvents(s.buffer, calendar);
      if calendar !in watermarks {
        retained := retained + events;
      } else {
        var walk := WalkCalendar(events, watermarks[calendar]);
        if walk.Clash? {
          return Conflict(s, Some(calendar), RevisionIdentityConflict);
        }
        watermarks := watermarks[calendar := walk.watermark];
        retained := retained + walk.retained;
        installed := if walk.advanced then installed + {calendar} else installed;
        affected := if walk.retained != [] then affected + {calendar} else affected;
      }
      i := i + 1;
    }
    u := FinishPass(s, Passed(watermarks, retained, installed, affected));
  }

  // Vocabulary

  /** A calendar holds each revision at most once. */
  ghost predicate UniqueKeys(buffer: seq<Transition>) {
    forall i, j :: 0 <= i < j < |buffer| ==>
      buffer[i].calendarId != buffer[j].calendarId || buffer[i].revision != buffer[j].revision
  }

  ghost predicate Increasing(events: seq<Transition>) {
    forall i, j :: 0 <= i < j < |events| ==> events[i].revision < events[j].revision
  }

  ghost predicate DistinctRevisions(events: seq<Transition>) {
    forall i, j :: 0 <= i < j < |events| ==> events[i].revision != events[j].revision
  }

  ghost predicate Holds(buffer: seq<Transition>, calendar: Id, revision: int) {
    exists e :: e in buffer && e.calendarId == calendar && e.revision == revision
  }

  /** `end` is where the longest contiguous run of buffered revisions after `from` stops. */
  ghost predicate EndsRun(buffer: seq<Transition>, calendar: Id, from: CurrentState, end: CurrentState) {
    && from.revision <= end.revision
    && (forall r :: from.revision < r <= end.revision ==> Holds(buffer, calendar, r))
    && !Holds(buffer, calendar, end.revision + 1)
    && (end == from
        || (from.revision < end.revision
            && exists e :: e in buffer && e.calendarId == calendar && end == StateFromTransition(e)))
  }

  /** A buffered transition claims the watermark's revision with different content. */
  ghost predicate Disputed(buffer: seq<Transition>, calendar: Id, watermark: CurrentState) {
    exists e :: (
      e in buffer && e.calendarId == calendar && e.revision == watermark.revision
      && !TransitionMatchesState(e, watermark))
  }

  // One calendar

  lemma {:induction false} InsertKeepsOrder(e: Transition, sorted: seq<Transition>)
    requires Increasing(sorted) && forall x :: x in sorted ==> x.revision != e.revision
    ensures Increasing(InsertByRevision(e, sorted))
  {
    if sorted != [] && sorted[0].revision < e.revision {
      InsertKeepsOrder(e, sorted[1..]);
      var tail := InsertByRevision(e, sorted[1..]);
      assert forall x :: x in tail ==> sorted[0].revision < x.revision;
      assert forall i :: 0 <= i < |tail| ==> tail[i] in tail;
    }
  }

  lemma {:induction false} SortIncreases(events: seq<Transition>)
    requires DistinctRevisions(events)
    ensures Increasing(SortByRevision(events))
  {
    if events != [] {
      SortIncreases(events[1..]);
      InsertKeepsOrder(events[0], SortByRevision(events[1..]));
    }
  }

  lemma {:induction false} EventsForUnique(buffer: seq<Transition>, calendar: Id)
    requires UniqueKeys(buffer)
    ensures DistinctRevisions(EventsFor(buffer, calendar))
  {
    if buffer != [] {
      EventsForUnique(buffer[1..], calendar);
      var tail := EventsFor(buffer[1..], calendar);
      assert forall i :: 0 <= i < |tail| ==> tail[i] in tail;
    }
  }

  lemma RunThroughStale(events: seq<Transition>, calendar: Id, from: CurrentState, end: CurrentState)
    requires events != [] && events[0].calendarId == calendar && events[0].revision <= from.revision
    requires EndsRun(events[1..], calendar, from, end)
    ensures EndsRun(events, calendar, from, end)
  {
    assert forall e :: e in events <==> e == events[0] || e in events[1..];
    assert forall r :: from.revision < r ==> (Holds(events, calendar, r) <==> Holds(events[1..], calendar, r));
  }

  lemma RunThroughNext(events: seq<Transition>, calendar: Id, from: CurrentState, end: CurrentState)
    requires events != [] && events[0].calendarId == calendar && events[0].revision == from.revision + 1
    requires EndsRun(events[1..], calendar, StateFromTransition(events[0]), end)
    ensures EndsRun(events, calendar, from, end)
  {
    assert forall e :: e in events <==> e == events[0] || e in events[1..];
    assert forall r :: r != events[0].revision ==> (Holds(events, calendar, r) <==> Holds(events[1..], calendar, r));
    assert Holds(events, calendar, events[0].revision);
  }

  lemma RunStopsAtGap(events: seq<Transition>, calendar: Id, from: CurrentState)
    requires Increasing(events) && (events != [] ==> from.revision + 1 < events[0].revision)
    ensures EndsRun(events, calendar, from, from)
    ensures forall e :: e in events ==> from.revision + 1 < e.revision
  {
  }

  lemma {:induction false} WalkBeyondGap(events: seq<Transition>, from: CurrentState)
    requires Increasing(events) && (events != [] ==> from.revision + 1 < events[0].revision)
    ensures WalkEvents(events, from) == Walked(from, events, false)
  {
    if events != [] {
      WalkBeyondGap(events[1..], from);
      assert [events[0]] + events[1..] == events;
    }
  }

  lemma WalkPastNext(events: seq<Transition>, calendar: Id, from: CurrentState, rest: Walk)
    requires events != [] && events[0].calendarId == calendar && events[0].revision == from.revision + 1
    requires Increasing(events)
    requires rest.Walked? && WalkResult(events[1..], calendar, StateFromTransition(events[0]), rest)
    ensures WalkResult(events, calendar, from, Resume([], true, rest))
  {
    RunThroughNext(events, calendar, from, rest.watermark);
    assert forall e :: e in events <==> e == events[0] || e in events[1..];
    assert [] + rest.retained == rest.retained;
  }

  lemma WalkPastBehind(events: seq<Transition>, calendar: Id, from: CurrentState, rest: Walk)
    requires events != [] && events[0].calendarId == calendar && events[0].revision <= from.revision
    requires rest.Walked? && WalkResult(events[1..], calendar, from, rest)
    ensures WalkResult(events, calendar, from, rest)
  {
    RunThroughStale(events, calendar, from, rest.watermark);
    assert forall e :: e in events <==> e == events[0] || e in events[1..];
  }

  /** A walk over increasing revisions reaches the end of the contiguous run and keeps what lies beyond. */
  lemma {:induction false} WalkReachesRunEnd(events: seq<Transition>, calendar: Id, from: CurrentState)
    requires Increasing(events) && forall e :: e in events ==> e.calendarId == calendar
    ensures WalkEvents(events, from).Clash? <==> Disputed(events, calendar, from)
    ensures WalkEvents(events, from).Walked? ==> WalkResult(events, calendar, from, WalkEvents(events, from))
  {
    if events == [] {
      return;
    }
    assert forall e :: e in events <==> e == events[0] || e in events[1..];
    assert forall e :: e in events[1..] ==> events[0].revision < e.revision;
    match Placed(events[0], from)
    case Disputes =>
    case Beyond =>
      WalkBeyondGap(events, from);
      RunStopsAtGap(events, calendar, from);
    case NextUp =>
      var next := StateFromTransition(events[0]);
      WalkReachesRunEnd(events[1..], calendar, next);
      assert !Disputed(events[1..], calendar, next) && !Disputed(events, calendar, from);
      WalkPastNext(events, calendar, from, WalkEvents(events[1..], next));
    case Behind =>
      WalkReachesRunEnd(events[1..], calendar, from);
      assert Disputed(events, calendar, from) <==> Disputed(events[1..], calendar, from);
      if WalkEvents(events[1..], from).Walked? {
        WalkPastBehind(events, calendar, from, WalkEvents(events[1..], from));
      }
  }

  ghost predicate WalkResult(buffer: seq<Transition>, calendar: Id, from: CurrentState, walk: Walk)
    requires walk.Walked?
  {
    && EndsRun(buffer, calendar, from, walk.watermark)
    && (walk.advanced <==> from.revision < walk.watermark.revision)
    && Increasing(walk.retained)
    && (forall e :: e in walk.retained <==>
          (e in buffer && e.calendarId == calendar && walk.watermark.revision < e.revision))
  }

  lemma WalkOverBuffer(calendar: Id, buffer: seq<Transition>, from: CurrentState)
    requires UniqueKeys(buffer)
    ensures Increasing(SortedEvents(buffer, calendar))
    ensures var walk := WalkEvents(SortedEvents(buffer, calendar), from);
      && (walk.Clash? <==> Disputed(buffer, calendar, from))
      && (walk.Walked? ==> WalkResult(buffer, calendar, from, walk))
  {
    EventsForUnique(buffer, calendar);
    SortIncreases(EventsFor(buffer, calendar));
    var events := SortedEvents(buffer, calendar);
    WalkReachesRunEnd(events, calendar, from);
    assert forall e :: e in events <==> e in buffer && e.calendarId == calendar;
    assert forall r :: Holds(events, calendar, r) <==> Holds(buffer, calendar, r);
    assert Disputed(events, calendar, from) <==> Disputed(buffer, calendar, from);
  }

  // All calendars

  ghost predicate Survives(ids: set<Id>, buffer: seq<Transition>, watermarks: map<Id, CurrentState>, e: Transition) {
    && e in buffer && e.calendarId in ids
    && (e.calendarId in watermarks ==> watermarks[e.calendarId].revision < e.revision)
  }

  /** What a pass over the calendars `ids` makes of `before`. */
  ghost predicate PassResult(ids: set<Id>, buffer: seq<Transition>, before: Pass, after: Pass)
    requires before.Passed? && after.Passed?
  {
    && after.watermarks.Keys == before.watermarks.Keys
    && (forall c :: c in before.watermarks && c !in ids ==> after.watermarks[c] == before.watermarks[c])
    && (forall c :: c in before.watermarks && c in ids ==>
          EndsRun(buffer, c, before.watermarks[c], after.watermarks[c]))
    && (forall e :: e in after.retained <==> (e in before.retained || Survives(ids, buffer, after.watermarks, e)))
    && (forall c :: c in after.affected <==> (c in before.affected || Waiting(ids, buffer, after.watermarks, c)))
    && (forall c :: c in after.installed <==> (c in before.installed || (
          c in before.watermarks && before.watermarks[c].revision < after.watermarks[c].revision)))
  }

  /** A calendar with a watermark still has an event beyond a gap. */
  ghost predicate Waiting(ids: set<Id>, buffer: seq<Transition>, watermarks: map<Id, CurrentState>, calendar: Id) {
    calendar in watermarks && exists e :: Survives(ids, buffer, watermarks, e) && e.calendarId == calendar
  }

  lemma PassOneCalendar(calendar: Id, buffer: seq<Transition>, pass: Pass) returns (more: seq<Transition>)
    requires pass.Passed? && UniqueKeys(buffer)
    ensures var next := PassCalendar(calendar, buffer, pass);
      && (next.Clashed? <==> calendar in pass.watermarks && Disputed(buffer, calendar, pass.watermarks[calendar]))
      && (next.Passed? ==>
          && PassResult({calendar}, buffer, pass, next)
          && next.retained == pass.retained + more && Increasing(more)
          && forall e :: e in more ==> e.calendarId == calendar)
  {
    more := [];
    if calendar in pass.watermarks {
      var from := pass.watermarks[calendar];
      WalkOverBuffer(calendar, buffer, from);
      var walk := WalkEvents(SortedEvents(buffer, calendar), from);
      if walk.Walked? {
        more := walk.retained;
        PassWalked(calendar, buffer, pass, walk);
      }
    } else {
      EventsForUnique(buffer, calendar);
      SortIncreases(EventsFor(buffer, calendar));
      more := SortedEvents(buffer, calendar);
    }
  }

  lemma PassWalked(calendar: Id, buffer: seq<Transition>, pass: Pass, walk: Walk)
    requires pass.Passed? && calendar in pass.watermarks
    requires walk.Walked? && walk == WalkEvents(SortedEvents(buffer, calendar), pass.watermarks[calendar])
    requires WalkResult(buffer, calendar, pass.watermarks[calendar], walk)
    ensures PassResult({calendar}, buffer, pass, PassCalendar(calendar, buffer, pass))
  {
    var after := PassCalendar(calendar, buffer, pass);
    assert after.watermarks == pass.watermarks[calendar := walk.watermark];
    assert forall e :: e in walk.retained <==> Survives({calendar}, buffer, after.watermarks, e);
    assert walk.retained != [] ==> walk.retained[0] in walk.retained;
    assert forall c :: Waiting({calendar}, buffer, after.watermarks, c) <==> c == calendar && walk.retained != [];
  }

  lemma PassesCompose(a: set<Id>, b: set<Id>, buffer: seq<Transition>, first: Pass, second: Pass, third: Pass)
    requires first.Passed? && second.Passed? && third.Passed? && a !! b
    requires PassResult(a, buffer, first, second) && PassResult(b, buffer, second, third)
    ensures PassResult(a + b, buffer, first, third)
  {
    forall e ensures Survives(a + b, buffer, third.watermarks, e)
        <==> (Survives(a, buffer, second.watermarks, e) || Survives(b, buffer, third.watermarks, e)) {}
    forall c ensures Waiting(a + b, buffer, third.watermarks, c)
        <==> (Waiting(a, buffer, second.watermarks, c) || Waiting(b, buffer, third.watermarks, c)) {}
  }

  function IdSet(expectations: seq<Expectation>): set<Id> {
    set e | e in expectations :: e.calendarId
  }

  lemma FirstIsNew(expectations: seq<Expectation>)
    requires expectations != [] && Distinct(ExpectationIds(expectations))
    ensures Distinct(ExpectationIds(expectations[1..]))
    ensures expectations[0].calendarId !in IdSet(expectations[1..])
    ensures IdSet(expectations) == {expectations[0].calendarId} + IdSet(expectations[1..])
  {
    assert ExpectationIds(expectations[1..]) == ExpectationIds(expectations)[1..];
    assert forall i :: 0 < i < |expectations| ==>
      ExpectationIds(expectations)[0] != ExpectationIds(expectations)[i] == expectations[1..][i - 1].calendarId;
    assert forall e :: e in expectations <==> e == expectations[0] || e in expectations[1..];
  }

  lemma {:induction false} TheExpectation(expectations: seq<Expectation>, e: Expectation)
    requires Distinct(ExpectationIds(expectations)) && e in expectations
    ensures ExpectationFor(expectations, e.calendarId) == Some(e)
  {
    if expectations[0] != e {
      FirstIsNew(expectations);
      assert e in expectations[1..];
      TheExpectation(expectations[1..], e);
    }
  }

  lemma AppendUnique(a: seq<Transition>, calendar: Id, more: seq<Transition>)
    requires UniqueKeys(a) && Increasing(more)
    requires forall e :: e in a ==> e.calendarId != calendar
    requires forall e :: e in more ==> e.calendarId == calendar
    ensures UniqueKeys(a + more)
  {
    assert forall i :: 0 <= i < |a| ==> a[i] in a;
    assert forall i :: 0 <= i < |more| ==> more[i] in more;
  }

  lemma {:induction false} PassReachesRunEnds(expectations: seq<Expectation>, buffer: seq<Transition>, pass: Pass)
    requires pass.Passed? && UniqueKeys(buffer) && Distinct(ExpectationIds(expectations))
    requires UniqueKeys(pass.retained)
    requires forall e :: e in pass.retained ==> e.calendarId !in IdSet(expectations)
    ensures var after := PassCalendars(expectations, buffer, pass);
      && (after.Clashed? <==> SomeDisputed(IdSet(expectations), buffer, pass.watermarks))
      && (after.Passed? ==> PassResult(IdSet(expectations), buffer, pass, after) && UniqueKeys(after.retained))
    decreases |expectations|
  {
    if expectations == [] {
      return;
    }
    var calendar, rest := expectations[0].calendarId, expectations[1..];
    FirstIsNew(expectations);
    var more := PassOneCalendar(calendar, buffer, pass);
    var next := PassCalendar(calendar, buffer, pass);
    if next.Passed? {
      AppendUnique(pass.retained, calendar, more);
      PassReachesRunEnds(rest, buffer, next);
      if PassCalendars(rest, buffer, next).Passed? {
        PassesCompose({calendar}, IdSet(rest), buffer, pass, next, PassCalendars(rest, buffer, next));
      }
    }
  }

  ghost predicate SomeDisputed(ids: set<Id>, buffer: seq<Transition>, watermarks: map<Id, CurrentState>) {
    exists c :: c in ids && c in watermarks && Disputed(buffer, c, watermarks[c])
  }

  // The whole reconciliation

  ghost predicate Reconcilable(s: State) {
    && Distinct(ExpectationIds(s.expectations)) && UniqueKeys(s.buffer)
    && forall e :: e in s.buffer ==> e.calendarId in IdSet(s.expectations)
  }

  /** Reconciliation conflicts exactly on a disputed watermark. Otherwise every expected watermark
      moves to the end of its contiguous run, exactly the events beyond the watermarks stay, and the
      stream is degraded exactly when a calendar with a watermark still has a waiting event. */
  lemma ReconcileReachesRunEnds(s: State)
    requires Reconcilable(s)
    ensures var u := Reconcile(s);
      && (u.disposition == CONFLICTED <==> SomeDisputed(IdSet(s.expectations), s.buffer, s.watermarks))
      && (u.disposition != CONFLICTED ==> Reconciled(s, u))
  {
    PassReachesRunEnds(s.expectations, s.buffer, Passed(s.watermarks, [], {}, {}));
  }

  ghost predicate Reconciled(s: State, u: Update) {
    var ids := IdSet(s.expectations);
    && u.state.watermarks.Keys == s.watermarks.Keys
    && (forall c :: c in s.watermarks ==>
          if c in ids then EndsRun(s.buffer, c, s.watermarks[c], u.state.watermarks[c])
          else u.state.watermarks[c] == s.watermarks[c])
    && UniqueKeys(u.state.buffer)
    && (forall e :: e in u.state.buffer <==> Survives(ids, s.buffer, u.state.watermarks, e))
    && (forall c :: c in u.state.affected <==> Waiting(ids, s.buffer, u.state.watermarks, c))
    && (forall c :: c in u.installed <==> (
          c in s.watermarks && s.watermarks[c].revision < u.state.watermarks[c].revision))
    && u.state.phase == (if u.state.affected != {} then DEGRADED else LIVE)
    && (u.disposition == GAP <==> u.state.phase == DEGRADED)
    && u.state == s.(phase := u.state.phase, watermarks := u.state.watermarks, buffer := u.state.buffer,
                     affected := u.state.affected, terminalCode := u.state.terminalCode)
    && u.state.terminalCode == (if u.state.phase == DEGRADED then Some(RevisionGap) else None)
  }

  // Order independence

  ghost predicate SameEvents(a: seq<Transition>, b: seq<Transition>) {
    forall e :: e in a <==> e in b
  }

  lemma {:induction false} IncreasingIsDetermined(a: seq<Transition>, b: seq<Transition>)
    requires Increasing(a) && Increasing(b) && SameEvents(a, b)
    ensures a == b
  {
    assert a == [] <==> b == [] by {
      if a != [] { assert a[0] in a; }
      if b != [] { assert b[0] in b; }
    }
    if a != [] {
      assert a[0] in b && b[0] in a;
      assert forall e :: e in a[1..] <==> e in a && e != a[0];
      assert forall e :: e in b[1..] <==> e in b && e != b[0];
      IncreasingIsDetermined(a[1..], b[1..]);
    }
  }

  lemma {:induction false} PassIgnoresOrder(
      expectations: seq<Expectation>, a: seq<Transition>, b: seq<Transition>, pass: Pass)
    requires pass.Passed? && UniqueKeys(a) && UniqueKeys(b) && SameEvents(a, b)
    ensures PassCalendars(expectations, a, pass) == PassCalendars(expectations, b, pass)
    decreases |expectations|
  {
    if expectations != [] {
      var calendar := expectations[0].calendarId;
      EventsForUnique(a, calendar);
      EventsForUnique(b, calendar);
      SortIncreases(EventsFor(a, calendar));
      SortIncreases(EventsFor(b, calendar));
      IncreasingIsDetermined(SortedEvents(a, calendar), SortedEvents(b, calendar));
      if PassCalendar(calendar, a, pass).Passed? {
        PassIgnoresOrder(expectations[1..], a, b, PassCalendar(calendar, a, pass));
      }
    }
  }

  /** Two states that differ only in the order of their buffers. */
  ghost predicate SameButOrder(s: State, t: State) {
    UniqueKeys(s.buffer) && UniqueKeys(t.buffer) && SameEvents(s.buffer, t.buffer) && t == s.(buffer := t.buffer)
  }

  lemma ReconcileIgnoresOrder(s: State, t: State)
    requires SameButOrder(s, t)
    ensures var u, v := Reconcile(s), Reconcile(t);
      && v == u.(state := u.state.(buffer := v.state.buffer))
      && (u.disposition != CONFLICTED ==> u == v)
  {
    PassIgnoresOrder(s.expectations, s.buffer, t.buffer, Passed(s.watermarks, [], {}, {}));
  }

  /** Feeds transitions one by one; a raising call changes nothing. */
  function Deliver(s: State, events: seq<Transition>, policy: Policy): State
    decreases |events|
  {
    if events == [] then s
    else Deliver(StateAfter(s, ObserveTransition(s, events[0], policy)), events[1..], policy)
  }

  function StateAfter(s: State, attempt: Attempt<Update>): State {
    match attempt
    case Returned(u) => u.state
    case Raised(_) => s
  }

  ghost predicate Ahead(s: State, e: Transition) {
    e.calendarId in s.watermarks ==> s.watermarks[e.calendarId].revision < e.revision
  }

  lemma {:induction false} NeverBackToWaiting(s: State, events: seq<Transition>, policy: Policy)
    requires s.phase != WAITING
    ensures Deliver(s, events, policy).phase != WAITING
    decreases |events|
  {
    if events != [] {
      NeverBackToWaiting(StateAfter(s, ObserveTransition(s, events[0], policy)), events[1..], policy);
    }
  }

  /** A consumer that is still waiting after a delivery buffered exactly what is ahead of its watermarks. */
  lemma {:induction false} WaitingBuffersWhatIsAhead(s: State, events: seq<Transition>, policy: Policy)
    requires s.phase == WAITING && s.policyVersion == policy.version && UniqueKeys(s.buffer)
    requires Deliver(s, events, policy).phase == WAITING
    ensures var t := Deliver(s, events, policy);
      && t == s.(buffer := t.buffer) && UniqueKeys(t.buffer)
      && forall e :: e in t.buffer <==> e in s.buffer || (e in events && Ahead(s, e))
    decreases |events|
  {
    if events != [] {
      var next := StateAfter(s, ObserveTransition(s, events[0], policy));
      if next.phase != WAITING {
        NeverBackToWaiting(next, events[1..], policy);
      }
      assert next == s.(buffer := next.buffer);
      assert forall i :: 0 <= i < |s.buffer| ==> s.buffer[i] in s.buffer;
      WaitingBuffersWhatIsAhead(next, events[1..], policy);
      assert forall e :: e in events <==> e == events[0] || e in events[1..];
    }
  }

  ghost predicate SameOutcome(u: Update, v: Update) {
    && v == u.(state := u.state.(buffer := v.state.buffer))
    && SameEvents(u.state.buffer, v.state.buffer)
  }

  lemma AcceptIgnoresOrder(x: State, y: State, response: Response)
    requires SameButOrder(x, y) && response.Valid()
    ensures SameOutcome(AcceptSnapshot(x, response), AcceptSnapshot(y, response))
  {
    if response.failures == [] {
      var p := Install(x.(accepted := Some(response), alertAt := None, requestId := None, deadline := None),
                       response.states);
      ReconcileIgnoresOrder(p, p.(buffer := y.buffer));
    }
  }

  lemma ApplyIgnoresOrder(x: State, y: State, verdict: Verdict, response: Response)
    requires SameButOrder(x, y) && response.Valid()
    ensures SameOutcome(ApplySnapshot(x, verdict, response), ApplySnapshot(y, verdict, response))
  {
    AcceptIgnoresOrder(x, y, response);
  }

  lemma SiblingsDifferInOrder(s: State, x: State, y: State)
    requires x == s.(buffer := x.buffer) && y == s.(buffer := y.buffer)
    requires UniqueKeys(x.buffer) && UniqueKeys(y.buffer) && SameEvents(x.buffer, y.buffer)
    ensures SameButOrder(x, y)
  {
  }

  lemma VerdictIgnoresBuffer(x: State, y: State, response: Response, now: int)
    requires y == x.(buffer := y.buffer)
    ensures JudgeSnapshot(x, response, now) == JudgeSnapshot(y, response, now)
  {
  }
}
