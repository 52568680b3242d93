/** What becomes of a cycle that a gap or an overflow ends early: the fresh cycle the consumer opens at
    once is refused as long as the producer still remembers the old one as running. */
module GapResync {
  import opened Prelude
  import opened CalendarMessages
  import opened SessionStateDelivery
  import opened BufferReconciliation
  import opened ConsumerEffects
  import opened RetryAdmission
  import opened SampleExchange
  import P = CalendarProducer

  ghost function Run(config: P.Config, policy: Policy, link: Link, moves: seq<Move>): (end: Link)
    requires link.producer.Paired()
    ensures end.producer.Paired()
    decreases |moves|
  {
    if moves == [] then link else Run(config, policy, Step(config, policy, link, moves[0]), moves[1..])
  }

  /** What a cycle never changes in its consumer. */
  ghost predicate SameConsumer(s: State, t: State) {
    && t.cycleId == s.cycleId && t.generation == s.generation && t.requester == s.requester
    && t.expectations == s.expectations && t.policyVersion == s.policyVersion
  }

  predicate Interrupted(s: State) {
    s.phase == DEGRADED && (s.terminalCode == Some(RevisionGap) || s.terminalCode == Some(BufferOverflow))
  }

  /** The consumer is still the one that began as `s`; it left its cycle only by an interruption. */
  ghost predicate SamePopulation(s: State, link: Link) {
    SameConsumer(s, link.consumer) && (link.over ==> Interrupted(link.consumer))
  }

  lemma ReconcileInterrupts(s: State)
    ensures var u := Reconcile(s);
      SameConsumer(s, u.state) && (u.disposition in {GAP, OVERFLOW} ==> Interrupted(u.state))
  {
    hide PassCalendars;
  }

  lemma VerdictsLeaveNoGap(s: State, event: Transition, policy: Policy)
    ensures var verdict := JudgeTransition(s, event, policy);
      verdict.Leave? ==> verdict.disposition in {STALE, DUPLICATE}
  {
    hide EventsFor, BufferedRevision;
  }

  lemma ObservingKeepsPopulation(s: State, event: Transition, policy: Policy)
    requires ObserveTransition(s, event, policy).Returned?
    ensures var u := ObserveTransition(s, event, policy).value;
      SameConsumer(s, u.state) && (u.disposition in {GAP, OVERFLOW} ==> Interrupted(u.state))
  {
    hide Reconcile, JudgeTransition;
    VerdictsLeaveNoGap(s, event, policy);
    ReconcileInterrupts(s.(buffer := s.buffer + [event]));
  }

  lemma RespondingKeepsPopulation(s: State, response: Response, now: int, policy: Policy)
    requires response.Valid()
    ensures SameConsumer(s, AfterResponse(s, response, now, policy))
  {
    hide AcceptSnapshot, ScheduleRetry, JudgeSnapshot;
    var judged := JudgeSnapshot(s, response, now);
    AcceptingKeepsPopulation(s, response);
    var t := StateAfter(s, ObserveSnapshot(s, response, now));
    assert SameConsumer(s, t);
    SchedulingKeepsPopulation(
      t, now, policy, if t.terminalCode.Some? then t.terminalCode.value else SnapshotConflict);
  }

  lemma SchedulingKeepsPopulation(s: State, now: int, policy: Policy, code: Code)
    ensures SameConsumer(s, StateAfter(s, ScheduleRetry(s, now, policy, None, code)))
  {
  }

  lemma AcceptingKeepsPopulation(s: State, response: Response)
    requires response.Valid()
    ensures SameConsumer(s, AcceptSnapshot(s, response).state)
  {
    hide Reconcile;
    if response.failures == [] {
      AcceptIsReconcile(s, response);
      ReconcileInterrupts(Accepted(s, response));
    }
  }

  lemma StepKeepsPopulation(config: P.Config, policy: Policy, s: State, link: Link, move: Move)
    requires link.producer.Paired() && SamePopulation(s, link)
    ensures SamePopulation(s, Step(config, policy, link, move))
  {
    hide AfterResponse, ObserveTransition;
    match move
    case Receive(response) =>
      if response.Valid() { RespondingKeepsPopulation(link.consumer, response, link.now, policy); }
    case Hear(event) =>
      if ObserveTransition(link.consumer, event, policy).Returned? {
        ObservingKeepsPopulation(link.consumer, event, policy);
      }
    case _ =>
  }

  lemma {:induction false} RunKeepsLink(
      config: P.Config, policy: Policy, s: State, link: Link, moves: seq<Move>, cycle: CycleId, begun: int)
    requires LinkInv(config, policy, link, cycle, begun) && SamePopulation(s, link)
    ensures var end := Run(config, policy, link, moves);
      LinkInv(config, policy, end, cycle, begun) && SamePopulation(s, end)
    decreases |moves|
  {
    hide LinkInv, SamePopulation, Step;
    if moves != [] {
      PairedLink(config, policy, link, cycle, begun);
      StepKeepsInv(config, policy, link, moves[0], cycle, begun);
      StepKeepsPopulation(config, policy, s, link, moves[0]);
      RunKeepsLink(config, policy, s, Step(config, policy, link, moves[0]), moves[1..], cycle, begun);
    }
  }

  lemma PairedLink(config: P.Config, policy: Policy, link: Link, cycle: CycleId, begun: int)
    requires LinkInv(config, policy, link, cycle, begun)
    ensures link.producer.Paired()
  {
  }

  /** Whatever happened to a cycle before a gap or an overflow ended it: the consumer can always open a
      fresh cycle, and its first request is refused as an identity conflict exactly when the producer
      still remembers an unexpired and unfinished cycle of this consumer. */
  lemma RestartRefusedIff(
      config: P.Config, policy: Policy, idle: State, expected: seq<Expectation>, link: Link, moves: seq<Move>,
      now: int, received: int)
    requires CycleBegins(config, policy, idle, expected, link) && idle.requester in config.allowed
    requires var end := Run(config, policy, link, moves); end.over && end.now <= now <= received
    ensures var end := Run(config, policy, link, moves);
      var restarted := Resynchronize(end.consumer, now, policy);
      var entry := Entry(idle.requester, end.producer);
      && restarted.Returned? && CurrentRequest(restarted.value).Returned?
      && (P.AdmitRequest(config, end.producer, CurrentRequest(restarted.value).value, received).1
            == P.Reject(RequestIdentityConflict)
          <==> (entry.Some? && received <= entry.value.expiresAt && !entry.value.terminal))
  {
    var cycle := link.consumer.cycleId.value;
    BeginningKeepsInv(config, policy, idle, expected, link);
    RunKeepsLink(config, policy, link.consumer, link, moves, cycle, link.now);
    RestartAdmitted(config, policy, Run(config, policy, link, moves), cycle, link.now, now, received);
  }

  lemma RestartAdmitted(
      config: P.Config, policy: Policy, end: Link, cycle: CycleId, begun: int, now: int, received: int)
    requires LinkInv(config, policy, end, cycle, begun) && end.consumer.requester in config.allowed
    requires Interrupted(end.consumer)
    requires end.consumer.generation == cycle.generation && end.now <= now <= received
    requires end.consumer.expectations != [] && Distinct(ExpectationIds(end.consumer.expectations))
    ensures var restarted := Resynchronize(end.consumer, now, policy);
      var entry := Entry(end.consumer.requester, end.producer);
      && restarted.Returned? && CurrentRequest(restarted.value).Returned?
      && (P.AdmitRequest(config, end.producer, CurrentRequest(restarted.value).value, received).1
            == P.Reject(RequestIdentityConflict)
          <==> (entry.Some? && received <= entry.value.expiresAt && !entry.value.terminal))
  {
    var q := CurrentRequest(Resynchronize(end.consumer, now, policy).value).value;
    var live := P.LiveCycle(end.producer, end.consumer.requester, received);
    if live.Some? {
      assert forall a :: a in live.value.attempts ==> a.request.requestId != q.requestId;
    }
  }

  // A run in which it is refused

  const CONFIG := P.Config(
    0, 0, map[CALENDAR := DEFINITION], {REQUESTER}, 1, 1, 2, 10, 100, 1,
    (_, t) => P.Evaluated(P.Snapshot(0, FactsAt(t))))
  const CLOCK := P.Clock(1, 1, 1, 1, 1, 1)

  function Opening(): Link {
    Link(1, Opened(), P.State(true, map[], map[], map[], map[]), [FIRST], {}, false)
  }

  const REMEMBERED := P.SnapshotCycle(CYCLE, 1, 11, [P.CachedAttempt(FIRST, Served())], false)

  /** The producer evaluates its calendar, answers and remembers the attempt; the cycle is not finished. */
  lemma FirstIsServed()
    ensures var h := P.HandleRequest(CONFIG, Opening().producer, FIRST, CLOCK);
      && h.response == Some(Served()) && Entry(REQUESTER, h.state) == Some(REMEMBERED)
  {
    ServedIsValid();
    var p := Opening().producer;
    var admitted := P.AdmitRequest(CONFIG, p, FIRST, 1);
    var begun := P.SnapshotCycle(CYCLE, 1, 11, [], false);
    assert admitted.1 == P.Process && Entry(REQUESTER, admitted.0) == Some(begun);
    var sweep := P.Sweep(admitted.0, [], [], [], false);
    var event := Published(1);
    assert P.UpdateCalendar(CONFIG, admitted.0, CALENDAR, 1, 1).Held?;
    var swept := P.SweepOne(CONFIG, sweep, EXPECTED[0], 1, 1);
    assert swept.states == [CalendarCurrentState(event, 1)] && swept.failures == [] && !swept.raised;
    assert EXPECTED[1..] == [];
    assert P.SweepAll(CONFIG, sweep, EXPECTED, 1, 1) == swept;
    assert ExpectationIds(EXPECTED) == [CALENDAR];
    assert P.BuildResponse(CONFIG, FIRST, 1, 1, swept.states, [], 0, CLOCK) == Some(Served());
    P.AnswerKeepsCycles(CONFIG, admitted.0, FIRST, CLOCK);
    var answered := P.Answer(CONFIG, admitted.0, FIRST, CLOCK);
    assert answered.state.cycles[REQUESTER] == begun;
    assert begun.attempts + [P.CachedAttempt(FIRST, Served())] == REMEMBERED.attempts;
  }

  /** The consumer once it has taken the answer. */
  function Live(): State {
    Opened().(
      phase := LIVE, accepted := Some(Served()), alertAt := None, requestId := None, deadline := None,
      watermarks := map[CALENDAR := CalendarCurrentState(Published(1), 1)])
  }

  lemma ReconcileWithoutBuffer(s: State)
    requires s.expectations == EXPECTED && CALENDAR in s.watermarks && s.buffer == []
    ensures Reconcile(s).state == s.(phase := LIVE, affected := {}, terminalCode := None)
  {
    var w := s.watermarks[CALENDAR];
    var start := Passed(s.watermarks, [], {}, {});
    assert SortedEvents([], CALENDAR) == [] && WalkEvents([], w) == Walked(w, [], false);
    assert s.watermarks[CALENDAR := w] == s.watermarks;
    assert PassCalendar(CALENDAR, [], start) == start;
    assert EXPECTED[1..] == [];
    assert PassCalendars(EXPECTED, [], start) == PassCalendars([], [], start);
  }

  lemma FirstIsReceived()
    ensures Served().Valid() && AfterResponse(Opened(), Served(), 1, POLICY) == Live()
  {
    hide Reconcile, JudgeSnapshot;
    ServedIsValid();
    FirstIsAdmitted();
    var installed := Accepted(Opened(), Served());
    var m := ByCalendar(Served().states);
    assert StateIds(Served().states) == [CALENDAR];
    assert m.Keys == {CALENDAR} && m[CALENDAR] == Served().states[0];
    assert m == map[CALENDAR := Served().states[0]];
    AcceptIsReconcile(Opened(), Served());
    ReconcileWithoutBuffer(installed);
    assert AcceptSnapshot(Opened(), Served()).state == Live();
  }

  lemma GapIsHeard()
    ensures var heard := ObserveTransition(Live(), Published(3), POLICY);
      heard.Returned? && heard.value.disposition == GAP
  {
    var s, e := Live(), Published(3);
    var w := s.watermarks[CALENDAR];
    assert JudgeTransition(s, e, POLICY) == Admit;
    var events := [e];
    assert EventsFor(events, CALENDAR) == [e] by { assert events[1..] == []; }
    assert SortByRevision(events) == [e] by { assert events[1..] == []; }
    assert WalkEvents(events, w) == Walked(w, [e], false) by { assert events[1..] == []; }
    var start := Passed(s.watermarks, [], {}, {});
    var next := PassCalendar(CALENDAR, events, start);
    assert next.Passed? && next.affected == {CALENDAR};
    assert EXPECTED[1..] == [];
    assert PassCalendars(EXPECTED, events, start) == PassCalendars([], events, next);
  }

  /** The first attempt is served, two revisions follow, the first of them is lost on the way, and the
      second reveals the gap. */
  const MOVES := [Serve(CLOCK), Receive(Served()), Elapse(2), Hear(Published(3))]

  lemma GapEndsTheCycle()
    ensures var end := Run(CONFIG, POLICY, Opening(), MOVES);
      end.over && end.now == 3 && Entry(REQUESTER, end.producer) == Some(REMEMBERED)
  {
    hide P.HandleRequest, AfterResponse, ObserveTransition;
    FirstIsServed();
    FirstIsReceived();
    GapIsHeard();
    var served := Step(CONFIG, POLICY, Opening(), MOVES[0]);
    var received := Step(CONFIG, POLICY, served, MOVES[1]);
    var elapsed := Step(CONFIG, POLICY, received, MOVES[2]);
    var heard := Step(CONFIG, POLICY, elapsed, MOVES[3]);
    assert received.consumer == Live() && elapsed.now == 3 && heard.over;
    assert MOVES[1..] == [MOVES[1], MOVES[2], MOVES[3]];
    assert MOVES[1..][1..] == [MOVES[2], MOVES[3]] && MOVES[1..][1..][1..] == [MOVES[3]];
    assert [MOVES[3]][1..] == [];
    assert Run(CONFIG, POLICY, elapsed, [MOVES[3]]) == Run(CONFIG, POLICY, heard, []) == heard;
    assert Run(CONFIG, POLICY, received, [MOVES[2], MOVES[3]]) == heard;
    assert Run(CONFIG, POLICY, served, MOVES[1..]) == heard;
  }

  /** A run in which it happens: a cycle begins against a producer that remembers nothing, its first
      attempt is served and taken, a gap ends it, and the fresh request the consumer then sends, five
      units before the first attempt's deadline, is refused as an identity conflict. */
  lemma RestartIsRefused()
    ensures CycleBegins(CONFIG, POLICY, Idle(REQUESTER, 0, 0, 1), EXPECTED, Opening())
    ensures var end := Run(CONFIG, POLICY, Opening(), MOVES);
      var restarted := Resynchronize(end.consumer, 5, POLICY);
      && end.over && restarted.Returned? && CurrentRequest(restarted.value).Returned?
      && 6 < FIRST.deadline
      && P.AdmitRequest(CONFIG, end.producer, CurrentRequest(restarted.value).value, 6).1
         == P.Reject(RequestIdentityConflict)
  {
    hide Run, Resynchronize, P.AdmitRequest;
    GapEndsTheCycle();
    assert CycleBegins(CONFIG, POLICY, Idle(REQUESTER, 0, 0, 1), EXPECTED, Opening());
    RestartRefusedIff(CONFIG, POLICY, Idle(REQUESTER, 0, 0, 1), EXPECTED, Opening(), MOVES, 5, 6);
  }
}
