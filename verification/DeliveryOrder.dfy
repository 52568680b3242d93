/** While a snapshot is awaited, only which transitions arrive matters: not their order, nor how often
    they are repeated. */
module DeliveryOrder {
  import opened Prelude
  import opened CalendarMessages
  import opened SessionStateDelivery
  import opened BufferReconciliation
  import opened DeliveryInvariant

  // A condition on the transitions themselves

  /** The transition is expected, from the expected source under the expected definition, and does not
      dispute the watermark of its calendar. */
  ghost predicate Welcome(s: State, e: Transition) {
    var expectation := ExpectationFor(s.expectations, e.calendarId);
    && expectation.Some? && e.definition == expectation.value.definition
    && e.source == s.expectedSource && e.epoch == s.expectedEpoch
    && (e.calendarId in s.watermarks ==>
          var w := s.watermarks[e.calendarId];
          e.eventId == w.lastEventId || e.revision == w.revision ==> TransitionMatchesState(e, w))
  }

  ghost function BufferedSet(buffer: seq<Transition>): set<Transition> {
    set e | e in buffer
  }

  /** What is buffered or ahead of the watermarks. */
  ghost function Gathered(s: State, events: set<Transition>): set<Transition> {
    BufferedSet(s.buffer) + set e | e in events && Ahead(s, e)
  }

  /** What is ahead of the watermarks and not buffered yet. */
  ghost function News(s: State, events: set<Transition>): set<Transition> {
    Gathered(s, events) - BufferedSet(s.buffer)
  }

  ghost function OfCalendar(events: set<Transition>, calendar: Id): set<Transition> {
    set e | e in events && e.calendarId == calendar
  }

  ghost predicate Apart(a: Transition, b: Transition) {
    (a.calendarId != b.calendarId || a.revision != b.revision) && a.eventId != b.eventId
  }

  /** No new transition shares its revision or its event id with a different gathered one. */
  ghost predicate Undisputed(s: State, events: set<Transition>) {
    forall a, b :: a in News(s, events) && b in Gathered(s, events) && a != b ==> Apart(a, b)
  }

  /** There is room for every new transition. */
  ghost predicate Room(s: State, events: set<Transition>, policy: Policy) {
    forall a :: a in News(s, events) ==>
      |Gathered(s, events)| <= policy.maximumTotal
      && |OfCalendar(Gathered(s, events), a.calendarId)| <= policy.maximumPerCalendar
  }

  /** The transitions can all be taken in while waiting. */
  ghost predicate Fits(s: State, events: set<Transition>, policy: Policy) {
    (forall e :: e in events ==> Welcome(s, e)) && Undisputed(s, events) && Room(s, events, policy)
  }

  // Counting buffered transitions

  lemma {:induction false} BufferCounts(buffer: seq<Transition>)
    requires UniqueKeys(buffer)
    ensures |BufferedSet(buffer)| == |buffer|
  {
    if buffer != [] {
      var rest := buffer[1..];
      assert forall i :: 0 <= i < |rest| ==> rest[i] == buffer[i + 1];
      BufferCounts(rest);
      assert BufferedSet(buffer) == {buffer[0]} + BufferedSet(rest);
      assert buffer[0] !in rest;
    } else {
      assert BufferedSet(buffer) == {};
    }
  }

  lemma CalendarCounts(buffer: seq<Transition>, calendar: Id)
    requires UniqueKeys(buffer)
    ensures |OfCalendar(BufferedSet(buffer), calendar)| == |EventsFor(buffer, calendar)|
  {
    EventsForKeepsKeys(buffer, calendar);
    BufferCounts(EventsFor(buffer, calendar));
    assert OfCalendar(BufferedSet(buffer), calendar) == BufferedSet(EventsFor(buffer, calendar));
  }

  lemma SubsetCounts(small: set<Transition>, large: set<Transition>)
    requires small <= large
    ensures |small| <= |large|
  {
    var rest := large - small;
    assert large == small + rest;
    assert |large| == |small| + |rest|;
  }

  lemma OneMore(s: State, e: Transition)
    requires UniqueKeys(s.buffer) && Ahead(s, e) && e !in s.buffer
    ensures Gathered(s, {e}) == BufferedSet(s.buffer) + {e} && News(s, {e}) == {e}
    ensures |Gathered(s, {e})| == |s.buffer| + 1
    ensures |OfCalendar(Gathered(s, {e}), e.calendarId)| == |EventsFor(s.buffer, e.calendarId)| + 1
  {
    BufferCounts(s.buffer);
    CalendarCounts(s.buffer, e.calendarId);
    assert Gathered(s, {e}) == BufferedSet(s.buffer) + {e};
    assert OfCalendar(Gathered(s, {e}), e.calendarId) == OfCalendar(BufferedSet(s.buffer), e.calendarId) + {e};
  }

  // One transition

  lemma NothingNew(s: State, e: Transition)
    requires !Ahead(s, e) || e in s.buffer
    ensures News(s, {e}) == {}
  {
  }

  /** A new transition is admitted exactly when it is welcome, undisputed and has room. */
  lemma NewIsAdmittedIff(s: State, e: Transition, policy: Policy)
    requires UniqueKeys(s.buffer) && Ahead(s, e) && e !in s.buffer
    ensures JudgeTransition(s, e, policy) == Admit <==> Fits(s, {e}, policy)
    ensures JudgeTransition(s, e, policy) != Admit ==> !JudgeTransition(s, e, policy).Leave?
  {
    OneMore(s, e);
    if Welcome(s, e) {
      BufferingIff(s, e, policy);
    }
    assert e in {e};
  }

  lemma RoomForOneIff(s: State, e: Transition, policy: Policy)
    requires UniqueKeys(s.buffer) && Ahead(s, e) && e !in s.buffer
    ensures Room(s, {e}, policy)
       <==> |s.buffer| < policy.maximumTotal && |EventsFor(s.buffer, e.calendarId)| < policy.maximumPerCalendar
  {
    hide Gathered, OfCalendar, EventsFor;
    OneMore(s, e);
    assert e in News(s, {e});
  }

  lemma UndisputedOneIff(s: State, e: Transition)
    requires UniqueKeys(s.buffer) && Ahead(s, e) && e !in s.buffer
    ensures Undisputed(s, {e}) <==> forall b :: b in s.buffer ==> Apart(e, b)
  {
    OneMore(s, e);
    assert forall b :: b in Gathered(s, {e}) <==> b == e || b in s.buffer;
  }

  lemma BufferingIff(s: State, e: Transition, policy: Policy)
    requires UniqueKeys(s.buffer) && Ahead(s, e) && e !in s.buffer
    ensures JudgeBuffering(s.buffer, e, policy) == Admit <==> Undisputed(s, {e}) && Room(s, {e}, policy)
    ensures JudgeBuffering(s.buffer, e, policy) != Admit ==> !JudgeBuffering(s.buffer, e, policy).Leave?
  {
    hide Undisputed, Room, EventsFor, BufferedRevision;
    RoomForOneIff(s, e, policy);
    UndisputedOneIff(s, e);
    var existing := BufferedRevision(s.buffer, e.calendarId, e.revision);
    if existing.Some? {
      assert !Apart(e, existing.value);
    }
  }

  /** A transition that is behind or buffered already is left alone exactly when it is welcome. */
  lemma OldIsLeftIff(s: State, e: Transition, policy: Policy)
    requires UniqueKeys(s.buffer) && (!Ahead(s, e) || e in s.buffer)
    ensures JudgeTransition(s, e, policy).Leave? <==> Fits(s, {e}, policy)
    ensures !JudgeTransition(s, e, policy).Admit?
  {
    NothingNew(s, e);
    if e in s.buffer { BufferedIsFound(s.buffer, e); }
    assert e in {e};
  }

  lemma BufferedIsFound(buffer: seq<Transition>, e: Transition)
    requires UniqueKeys(buffer) && e in buffer
    ensures BufferedRevision(buffer, e.calendarId, e.revision) == Some(e)
  {
    var found := BufferedRevision(buffer, e.calendarId, e.revision);
    var i :| 0 <= i < |buffer| && buffer[i] == e;
    var j :| 0 <= j < |buffer| && buffer[j] == found.value;
  }

  /** After one observed transition a waiting consumer still waits exactly when the transition fits. */
  lemma StillWaitingIff(s: State, e: Transition, policy: Policy)
    requires s.phase == WAITING && s.policyVersion == policy.version && UniqueKeys(s.buffer)
    ensures var next := StateAfter(s, ObserveTransition(s, e, policy));
      && (next.phase == WAITING <==> Fits(s, {e}, policy))
      && (next.phase == WAITING ==>
            && next == s.(buffer := if Ahead(s, e) && e !in s.buffer then s.buffer + [e] else s.buffer)
            && UniqueKeys(next.buffer))
  {
    if Ahead(s, e) && e !in s.buffer {
      NewIsAdmittedIff(s, e, policy);
      AdmittedIsUnique(s, e, policy);
    } else {
      OldIsLeftIff(s, e, policy);
    }
  }

  lemma AdmittedIsUnique(s: State, e: Transition, policy: Policy)
    requires UniqueKeys(s.buffer)
    ensures JudgeTransition(s, e, policy) == Admit ==> UniqueKeys(s.buffer + [e])
  {
    assert forall i :: 0 <= i < |s.buffer| ==> s.buffer[i] in s.buffer;
  }

  // Many transitions

  /** The state once `e`, which fits, was taken in. */
  ghost function With(s: State, e: Transition): State {
    s.(buffer := if Ahead(s, e) && e !in s.buffer then s.buffer + [e] else s.buffer)
  }

  lemma WithGathers(s: State, e: Transition, rest: set<Transition>)
    ensures Gathered(With(s, e), rest) == Gathered(s, {e} + rest)
    ensures BufferedSet(With(s, e).buffer) == Gathered(s, {e})
    ensures News(s, {e} + rest) == News(s, {e}) + News(With(s, e), rest)
    ensures Gathered(s, {e}) <= Gathered(s, {e} + rest)
  {
    assert forall x :: Ahead(With(s, e), x) <==> Ahead(s, x);
    assert BufferedSet(With(s, e).buffer) == Gathered(s, {e});
  }

  lemma UndisputedStep(s: State, e: Transition, rest: set<Transition>)
    ensures Undisputed(s, {e} + rest) <==> Undisputed(s, {e}) && Undisputed(With(s, e), rest)
  {
    WithGathers(s, e, rest);
    var next := With(s, e);
    if Undisputed(s, {e}) && Undisputed(next, rest) {
      forall a, b | a in News(s, {e} + rest) && b in Gathered(s, {e} + rest) && a != b
        ensures Apart(a, b)
      {
        if a !in News(next, rest) {
          assert a in News(s, {e});
          if b !in Gathered(s, {e}) {
            assert b in News(next, rest) && a in Gathered(next, rest);
          }
        }
      }
    }
  }

  lemma RoomStep(s: State, e: Transition, rest: set<Transition>, policy: Policy)
    ensures Room(s, {e} + rest, policy) <==> Room(s, {e}, policy) && Room(With(s, e), rest, policy)
  {
    WithGathers(s, e, rest);
    var next := With(s, e);
    var all, first := Gathered(s, {e} + rest), Gathered(s, {e});
    SubsetCounts(first, all);
    forall c ensures |OfCalendar(first, c)| <= |OfCalendar(all, c)| {
      SubsetCounts(OfCalendar(first, c), OfCalendar(all, c));
    }
    if Room(s, {e}, policy) && Room(next, rest, policy) {
      forall a | a in News(s, {e} + rest)
        ensures |all| <= policy.maximumTotal && |OfCalendar(all, a.calendarId)| <= policy.maximumPerCalendar
      {
        if a !in News(next, rest) { EarlierHasRoom(s, e, rest, a, policy); }
      }
    }
  }

  lemma EarlierHasRoom(s: State, e: Transition, rest: set<Transition>, a: Transition, policy: Policy)
    requires Room(s, {e}, policy) && Room(With(s, e), rest, policy) && a in News(s, {e})
    ensures var all := Gathered(s, {e} + rest);
      |all| <= policy.maximumTotal && |OfCalendar(all, a.calendarId)| <= policy.maximumPerCalendar
  {
    WithGathers(s, e, rest);
    var next := With(s, e);
    var all := Gathered(s, {e} + rest);
    if News(next, rest) == {} {
      assert all == Gathered(s, {e});
    } else {
      var x :| x in News(next, rest);
      if y :| y in News(next, rest) && y.calendarId == a.calendarId {
        assert |OfCalendar(all, y.calendarId)| <= policy.maximumPerCalendar;
      } else {
        assert OfCalendar(all, a.calendarId) == OfCalendar(Gathered(s, {e}), a.calendarId);
      }
    }
  }

  lemma FitsStep(s: State, e: Transition, rest: set<Transition>, policy: Policy)
    ensures Fits(s, {e} + rest, policy) <==> Fits(s, {e}, policy) && Fits(With(s, e), rest, policy)
  {
    hide Undisputed, Room;
    UndisputedStep(s, e, rest);
    RoomStep(s, e, rest, policy);
    assert forall x :: Welcome(With(s, e), x) <==> Welcome(s, x);
  }

  /** A waiting consumer still waits after a delivery exactly when the transitions fit. */
  lemma {:induction false} WaitsOnIff(s: State, events: seq<Transition>, policy: Policy)
    requires s.phase == WAITING && s.policyVersion == policy.version && UniqueKeys(s.buffer)
    ensures Deliver(s, events, policy).phase == WAITING <==> Fits(s, BufferedSet(events), policy)
    decreases |events|
  {
    if events == [] {
      NothingFits(s, policy);
    } else {
      var e, rest := events[0], events[1..];
      var next := StateAfter(s, ObserveTransition(s, e, policy));
      hide Fits, ObserveTransition;
      assert BufferedSet(events) == {e} + BufferedSet(rest) by { assert events == [e] + rest; }
      StillWaitingIff(s, e, policy);
      FitsStep(s, e, BufferedSet(rest), policy);
      if next.phase == WAITING {
        WaitsOnIff(next, rest, policy);
      } else {
        NeverBackToWaiting(next, rest, policy);
      }
    }
  }

  lemma NothingFits(s: State, policy: Policy)
    ensures Fits(s, BufferedSet([]), policy)
  {
    assert Gathered(s, BufferedSet([])) == BufferedSet(s.buffer);
  }

  /** However the same transitions are ordered or repeated while a snapshot is awaited: either the
      consumer goes on waiting in both cases, exactly when the transitions fit, and the snapshot then
      leaves the same watermarks, phase and disposition; or it stops waiting in both. */
  lemma DeliveryOrderIsIrrelevant(
      s: State, a: seq<Transition>, b: seq<Transition>, policy: Policy, response: Response, now: int)
    requires s.phase == WAITING && s.policyVersion == policy.version && UniqueKeys(s.buffer) && response.Valid()
    requires SameEvents(a, b)
    ensures Deliver(s, a, policy).phase == WAITING <==> Fits(s, BufferedSet(a), policy)
    ensures Deliver(s, a, policy).phase == WAITING <==> Deliver(s, b, policy).phase == WAITING
    ensures Fits(s, BufferedSet(a), policy) ==>
      var u, v := ObserveSnapshot(Deliver(s, a, policy), response, now),
                  ObserveSnapshot(Deliver(s, b, policy), response, now);
      && (u.Raised? <==> v.Raised?)
      && (u.Returned? ==> SameOutcome(u.value, v.value))
  {
    hide Fits;
    assert BufferedSet(a) == BufferedSet(b);
    WaitsOnIff(s, a, policy);
    WaitsOnIff(s, b, policy);
    if Fits(s, BufferedSet(a), policy) {
      BothWaiting(s, a, b, policy, response, now);
    }
  }

  lemma BothWaiting(
      s: State, a: seq<Transition>, b: seq<Transition>, policy: Policy, response: Response, now: int)
    requires s.phase == WAITING && s.policyVersion == policy.version && UniqueKeys(s.buffer) && response.Valid()
    requires SameEvents(a, b)
    requires Deliver(s, a, policy).phase == WAITING && Deliver(s, b, policy).phase == WAITING
    ensures var u, v := ObserveSnapshot(Deliver(s, a, policy), response, now),
                        ObserveSnapshot(Deliver(s, b, policy), response, now);
      && (u.Raised? <==> v.Raised?)
      && (u.Returned? ==> SameOutcome(u.value, v.value))
  {
    WaitingBuffersWhatIsAhead(s, a, policy);
    WaitingBuffersWhatIsAhead(s, b, policy);
    var x, y := Deliver(s, a, policy), Deliver(s, b, policy);
    SiblingsDifferInOrder(s, x, y);
    VerdictIgnoresBuffer(x, y, response, now);
    if JudgeSnapshot(x, response, now).Returned? {
      ApplyIgnoresOrder(x, y, JudgeSnapshot(x, response, now).value, response);
    }
  }
}
