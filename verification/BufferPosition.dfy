/** When buffered revisions lie above the watermarks, and the one way they come not to. */
module BufferPosition {
  import opened Prelude
  import opened CalendarMessages
  import opened SessionStateDelivery
  import opened BufferReconciliation
  import opened DeliveryInvariant
  import opened SampleExchange

  /** Every buffered revision is above the watermark of its calendar. */
  ghost predicate Positioned(s: State) {
    forall e :: e in s.buffer ==> Ahead(s, e)
  }

  /** The call takes a full snapshot that disputes a buffered transition. */
  ghost predicate InstallsDisputed(s: State, input: Input) {
    && input.Snapshot? && input.response.Valid() && input.response.failures == []
    && JudgeSnapshot(s, input.response, input.now) == Returned(Admit)
    && SomeDisputed(IdSet(s.expectations), s.buffer, ByCalendar(input.response.states))
  }

  // One call

  lemma UndisputedStaysPositioned(s: State)
    requires Reconcilable(s)
    requires !SomeDisputed(IdSet(s.expectations), s.buffer, s.watermarks)
    ensures Reconcile(s).disposition != CONFLICTED && Positioned(Reconcile(s).state)
  {
    ReconcileReachesRunEnds(s);
  }

  lemma DisputedLosesPosition(s: State)
    requires Reconcilable(s)
    requires SomeDisputed(IdSet(s.expectations), s.buffer, s.watermarks)
    ensures Reconcile(s).state.phase == CONFLICT && !Positioned(Reconcile(s).state)
  {
    ReconcileReachesRunEnds(s);
    var c :| c in IdSet(s.expectations) && c in s.watermarks && Disputed(s.buffer, c, s.watermarks[c]);
    var e :| e in s.buffer && e.calendarId == c && e.revision == s.watermarks[c].revision;
    var t := Reconcile(s).state;
    ConflictKeepsBuffer(s);
    assert e in t.buffer && !Ahead(t, e);
  }

  lemma ConflictKeepsBuffer(s: State)
    ensures var u := Reconcile(s);
      u.disposition == CONFLICTED ==>
        u.state.phase == CONFLICT && u.state.buffer == s.buffer && u.state.watermarks == s.watermarks
  {
    hide PassCalendars;
  }

  lemma AheadIsUndisputed(s: State)
    requires Positioned(s)
    ensures !SomeDisputed(IdSet(s.expectations), s.buffer, s.watermarks)
  {
  }

  lemma AdmittingKeepsPosition(s: State, event: Transition, expected: seq<Expectation>, policy: Policy)
    requires DeliveryInv(s, expected, policy) && Distinct(ExpectationIds(expected)) && Positioned(s)
    requires JudgeTransition(s, event, policy) == Admit
    ensures Positioned(ApplyTransition(s, Admit, event).state)
  {
    hide Reconcile;
    AppendKeepsBounds(s, event, policy);
    var buffered := s.(buffer := s.buffer + [event]);
    assert Ahead(s, event);
    assert Positioned(buffered);
    assert event.calendarId in IdSet(s.expectations);
    if event.calendarId in s.watermarks && s.phase != WAITING && s.phase != BACKOFF {
      AheadIsUndisputed(buffered);
      UndisputedStaysPositioned(buffered);
    }
  }

  lemma ObservingKeepsPosition(s: State, event: Transition, expected: seq<Expectation>, policy: Policy)
    requires DeliveryInv(s, expected, policy) && Distinct(ExpectationIds(expected)) && Positioned(s)
    ensures Positioned(StateAfter(s, ObserveTransition(s, event, policy)))
  {
    if JudgeTransition(s, event, policy) == Admit {
      AdmittingKeepsPosition(s, event, expected, policy);
    }
  }

  lemma AcceptingPositionIff(s: State, response: Response)
    requires Reconcilable(s) && Positioned(s) && response.Valid() && response.failures == []
    ensures var t := AcceptSnapshot(s, response).state;
      if SomeDisputed(IdSet(s.expectations), s.buffer, ByCalendar(response.states))
      then t.phase == CONFLICT && !Positioned(t) else Positioned(t)
  {
    hide Reconcile, SomeDisputed, Positioned, ByCalendar;
    var accepted := s.(accepted := Some(response), alertAt := None, requestId := None, deadline := None);
    var installed := Install(accepted, response.states);
    if SomeDisputed(IdSet(s.expectations), s.buffer, ByCalendar(response.states)) {
      DisputedLosesPosition(installed);
    } else {
      UndisputedStaysPositioned(installed);
    }
  }

  lemma RefusingKeepsPosition(s: State, verdict: Verdict, response: Response)
    requires Positioned(s) && response.Valid()
    requires verdict.Leave? || verdict.Refuse? || response.failures != []
    ensures Positioned(ApplySnapshot(s, verdict, response).state)
  {
    hide Reconcile;
  }

  lemma SnapshotVerdicts(s: State, response: Response, now: int)
    ensures var judged := JudgeSnapshot(s, response, now);
      judged.Returned? ==> judged.value.Leave? || judged.value.Refuse? || judged.value.Admit?
  {
  }

  lemma SnapshotPositionIff(
      s: State, response: Response, now: int, expected: seq<Expectation>, policy: Policy)
    requires DeliveryInv(s, expected, policy) && Distinct(ExpectationIds(expected)) && Positioned(s)
    requires response.Valid()
    ensures var t := StateAfter(s, ObserveSnapshot(s, response, now));
      && (Positioned(t) <==> !InstallsDisputed(s, Snapshot(response, now)))
      && (InstallsDisputed(s, Snapshot(response, now)) ==> t.phase == CONFLICT)
  {
    hide AcceptSnapshot, JudgeSnapshot, SomeDisputed, Positioned, ByCalendar;
    SnapshotVerdicts(s, response, now);
    var judged := JudgeSnapshot(s, response, now);
    if judged == Returned(Admit) && response.failures == [] {
      AcceptingPositionIff(s, response);
    } else if judged.Returned? {
      RefusingKeepsPosition(s, judged.value, response);
    }
  }

  /** A call keeps the buffered revisions above the watermarks unless, and only unless, it takes a full
      snapshot that disputes one of them; the consumer is then in conflict. */
  lemma PositionIsLostIff(s: State, input: Input, expected: seq<Expectation>, policy: Policy)
    requires DeliveryInv(s, expected, policy) && Distinct(ExpectationIds(expected)) && Positioned(s)
    ensures var t := Consume(s, input, expected, policy);
      && (Positioned(t) <==> !InstallsDisputed(s, input))
      && (InstallsDisputed(s, input) ==> t.phase == CONFLICT)
  {
    match input
    case Observe(event) => ObservingKeepsPosition(s, event, expected, policy);
    case Snapshot(response, now) =>
      if response.Valid() { SnapshotPositionIff(s, response, now, expected, policy); }
    case _ =>
  }

  // Runs

  /** Some call of the run takes a full snapshot that disputes a buffered transition. */
  ghost predicate EverDisputed(s: State, inputs: seq<Input>, expected: seq<Expectation>, policy: Policy)
    decreases |inputs|
  {
    inputs != [] && (InstallsDisputed(s, inputs[0])
                     || EverDisputed(Consume(s, inputs[0], expected, policy), inputs[1..], expected, policy))
  }

  lemma ConflictIsLeftByHalting(s: State, input: Input, expected: seq<Expectation>, policy: Policy)
    requires s.phase == CONFLICT
    ensures var t := Consume(s, input, expected, policy);
      if input.Halt? then t.phase == STOPPED && t.buffer == []
      else t.phase == CONFLICT && t.buffer == s.buffer && t.watermarks == s.watermarks
  {
  }

  lemma StoppedIsEmpty(s: State, input: Input, expected: seq<Expectation>, policy: Policy)
    requires s.phase == STOPPED && s.buffer == []
    ensures var t := Consume(s, input, expected, policy); t.phase == STOPPED && t.buffer == []
  {
  }

  lemma {:induction false} LostUntilHalted(
      s: State, inputs: seq<Input>, expected: seq<Expectation>, policy: Policy)
    requires (s.phase == CONFLICT && !Positioned(s)) || (s.phase == STOPPED && s.buffer == [])
    ensures var end := ConsumeAll(s, inputs, expected, policy);
      (end.phase == CONFLICT && !Positioned(end)) || (end.phase == STOPPED && end.buffer == [])
    decreases |inputs|
  {
    hide Consume;
    if inputs != [] {
      if s.phase == CONFLICT {
        ConflictIsLeftByHalting(s, inputs[0], expected, policy);
      } else {
        StoppedIsEmpty(s, inputs[0], expected, policy);
      }
      LostUntilHalted(Consume(s, inputs[0], expected, policy), inputs[1..], expected, policy);
    }
  }

  /** Over whole runs: the buffered revisions end above the watermarks exactly when no disputed snapshot
      was ever taken or the consumer has been stopped since. */
  lemma {:induction false} PositionOverRuns(
      s: State, inputs: seq<Input>, expected: seq<Expectation>, policy: Policy)
    requires DeliveryInv(s, expected, policy) && Distinct(ExpectationIds(expected)) && Positioned(s)
    ensures var end := ConsumeAll(s, inputs, expected, policy);
      Positioned(end) <==> !(EverDisputed(s, inputs, expected, policy) && end.phase != STOPPED)
    decreases |inputs|
  {
    hide Consume, DeliveryInv, InstallsDisputed;
    if inputs != [] {
      var next := Consume(s, inputs[0], expected, policy);
      PositionIsLostIff(s, inputs[0], expected, policy);
      ConsumeKeepsInv(s, inputs[0], expected, policy);
      if InstallsDisputed(s, inputs[0]) {
        LostUntilHalted(next, inputs[1..], expected, policy);
      } else {
        PositionOverRuns(next, inputs[1..], expected, policy);
      }
    }
  }

  // A run that loses the position

  /** Revision 1 with other content than the snapshot will show. */
  function Rival(): Transition {
    Published(1).(facts := FactsAt(2))
  }

  const DISPUTED_RUN := [Start(1), Observe(Rival()), Snapshot(Served(), 1)]

  lemma RivalIsBuffered()
    ensures StateAfter(Opened(), ObserveTransition(Opened(), Rival(), POLICY)) == Opened().(buffer := [Rival()])
  {
  }

  lemma SnapshotDisputesRival()
    ensures InstallsDisputed(Opened().(buffer := [Rival()]), Snapshot(Served(), 1))
  {
    ServedIsValid();
    FirstIsAdmitted();
    var s := Opened().(buffer := [Rival()]);
    VerdictIgnoresBuffer(Opened(), s, Served(), 1);
    var installed := ByCalendar(Served().states);
    assert Served().states[0] in Served().states && EXPECTED[0] in EXPECTED;
    assert CALENDAR in IdSet(s.expectations) && installed[CALENDAR] == Served().states[0];
    assert Rival() in s.buffer && Disputed(s.buffer, CALENDAR, installed[CALENDAR]);
  }

  /** A reachable state without the position: a transition is buffered while the consumer waits, and the
      snapshot shows the same revision with other content. The consumer is in conflict, with the
      snapshot's watermark installed and the transition still buffered at that watermark. */
  lemma PositionCanBeLost()
    ensures Distinct(ExpectationIds(EXPECTED))
    ensures var s := ConsumeAll(Idle(REQUESTER, 0, 0, 1), DISPUTED_RUN, EXPECTED, POLICY);
      && s.phase == CONFLICT && !Positioned(s) && DeliveryInv(s, EXPECTED, POLICY)
  {
    hide ObserveTransition, ObserveSnapshot, DeliveryInv;
    var idle, waiting := Idle(REQUESTER, 0, 0, 1), Opened().(buffer := [Rival()]);
    IdleKeepsInv(REQUESTER, 0, 0, EXPECTED, POLICY);
    assert Consume(idle, Start(1), EXPECTED, POLICY) == Opened();
    RivalIsBuffered();
    assert Consume(Opened(), Observe(Rival()), EXPECTED, POLICY) == waiting;
    ConsumeKeepsInv(idle, Start(1), EXPECTED, POLICY);
    ConsumeKeepsInv(Opened(), Observe(Rival()), EXPECTED, POLICY);
    SnapshotDisputesRival();
    assert forall e :: e in waiting.buffer ==> Ahead(waiting, e);
    PositionIsLostIff(waiting, Snapshot(Served(), 1), EXPECTED, POLICY);
    ReachableStatesKeepInv(idle, DISPUTED_RUN, EXPECTED, POLICY);
    assert DISPUTED_RUN[1..] == [Observe(Rival()), Snapshot(Served(), 1)];
    assert DISPUTED_RUN[1..][1..] == [Snapshot(Served(), 1)] && DISPUTED_RUN[1..][1..][1..] == [];
  }
}
