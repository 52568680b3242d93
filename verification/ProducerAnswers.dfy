/** What the producer answers to an admitted request, told by its configuration and what its calendars
    evaluate to. */
module ProducerAnswers {
  import opened Prelude
  import opened CalendarMessages
  import opened CalendarProducer
  import H = ProducerHistory

  /** The rules the constructor of a request enforces. */
  predicate WellFormed(q: Request) {
    && q.expectations != [] && Distinct(ExpectationIds(q.expectations))
    && 0 <= q.requestedAsOf <= q.requestedAt < q.deadline
  }

  /** The request is received after it was made, and evaluated after it was received. */
  predicate Ticks(q: Request, clock: Clock) {
    q.requestedAt <= clock.received <= clock.cut
  }

  /** When an answer is generated that is not to be generated before `floor`. */
  function GeneratedAt(clock: Clock, floor: int): int { Max(Max(clock.cut, floor), clock.generated) }

  function PublishedAt(clock: Clock, floor: int): int { Max(GeneratedAt(clock, floor), clock.published) }

  // Each calendar on its own

  datatype Outcome = Shown(state: CurrentState) | Missed(failure: Failure)

  /** The instants of a new revision are in order. */
  predicate Orderly(definition: Definition, facts: Facts, cut: int, stamp: int) {
    && 0 <= definition.effectiveFrom <= facts.effectiveFrom <= cut <= stamp
    && (facts.nextTransition.Some? ==> cut < facts.nextTransition.value)
  }

  /** The state of a calendar whose next revision is published now. */
  function NewlyShown(config: Config, p: State, id: Id, snapshot: Snapshot, cut: int, stamp: int): CurrentState
    requires id in config.calendars
  {
    var n := p.Revision(id) + 1;
    CurrentState(
      id, snapshot.scheduleVersion, config.calendars[id], snapshot.facts, n, if n == 1 then None else Some(n - 1),
      EventId(config.epoch, id, n), config.source, config.epoch, cut, cut, stamp)
  }

  /** What becomes of one requested calendar: it is unknown, defined otherwise, cannot be evaluated, or
      its current state is shown, as published before when its facts are the same. */
  function OutcomeOf(config: Config, p: State, e: Expectation, cut: int, stamp: int): Outcome
    requires p.Paired()
  {
    var id := e.calendarId;
    if id !in config.calendars then Missed(Failure(id, REJECTED, UnknownCalendarId, None))
    else if config.calendars[id] != e.definition
    then Missed(Failure(id, CONFLICTING, DefinitionIdentityConflict, None))
    else match config.evaluate(id, cut)
      case BoundaryUnavailable => Missed(Failure(id, EVALUATION_FAILED, StateEffectiveBoundaryUnavailable, None))
      case EvaluationBroken => Missed(Failure(id, EVALUATION_FAILED, CurrentStateEvaluationFailed, None))
      case Evaluated(snapshot) =>
        if id in p.snapshots && p.snapshots[id].facts == snapshot.facts
        then Shown(CalendarCurrentState(p.transitions[id], cut))
        else if Orderly(config.calendars[id], snapshot.facts, cut, stamp)
        then Shown(NewlyShown(config, p, id, snapshot, cut, stamp))
        else Missed(Failure(id, EVALUATION_FAILED, CurrentStateEvaluationFailed, None))
  }

  function Outcomes(config: Config, p: State, expectations: seq<Expectation>, cut: int, stamp: int): (r: seq<Outcome>)
    requires p.Paired()
    ensures |r| == |expectations|
    ensures forall i :: 0 <= i < |r| ==> r[i] == OutcomeOf(config, p, expectations[i], cut, stamp)
  {
    seq(|expectations|, i requires 0 <= i < |expectations| => OutcomeOf(config, p, expectations[i], cut, stamp))
  }

  function ShownIn(outcomes: seq<Outcome>): seq<CurrentState> {
    if outcomes == [] then []
    else (if outcomes[0].Shown? then [outcomes[0].state] else []) + ShownIn(outcomes[1..])
  }

  function MissedIn(outcomes: seq<Outcome>): seq<Failure> {
    if outcomes == [] then []
    else (if outcomes[0].Missed? then [outcomes[0].failure] else []) + MissedIn(outcomes[1..])
  }

  /** Revisions are counted from 0 on. */
  predicate Counts(p: State) { forall c :: c in p.revisions ==> 0 <= p.revisions[c] }

  /** `p` and `q` hold the same of each of these calendars. */
  ghost predicate SameOn(p: State, q: State, expectations: seq<Expectation>)
    requires p.Paired() && q.Paired()
  {
    forall e :: e in expectations ==>
      var c := e.calendarId;
      && (c in p.snapshots <==> c in q.snapshots) && q.Revision(c) == p.Revision(c)
      && (c in p.snapshots ==> q.snapshots[c] == p.snapshots[c] && q.transitions[c] == p.transitions[c])
  }

  lemma UpdateIsOutcome(config: Config, p: State, e: Expectation, cut: int, stamp: int)
    requires p.Paired() && Counts(p) && e.calendarId in config.calendars && config.calendars[e.calendarId] == e.definition
    ensures var u := UpdateCalendar(config, p, e.calendarId, cut, stamp);
      OutcomeOf(config, p, e, cut, stamp) ==
        if u.Held? then Shown(CalendarCurrentState(u.transition, cut))
        else Missed(Failure(e.calendarId, EVALUATION_FAILED, u.code, None))
    ensures var u := UpdateCalendar(config, p, e.calendarId, cut, stamp);
      u.Held? ==>
        && Counts(u.state) && u.state.Paired()
        && forall rest: seq<Expectation> :: (forall x :: x in rest ==> x.calendarId != e.calendarId) ==>
             SameOn(p, u.state, rest)
  {
  }

  lemma SweepOneIsOutcome(config: Config, sweep: Sweep, e: Expectation, cut: int, stamp: int, rest: seq<Expectation>)
    requires sweep.state.Paired() && Counts(sweep.state) && !sweep.raised
    requires forall x :: x in rest ==> x.calendarId != e.calendarId
    ensures var next := SweepOne(config, sweep, e, cut, stamp); var outcome := OutcomeOf(config, sweep.state, e, cut, stamp);
      && Counts(next.state) && SameOn(sweep.state, next.state, rest)
      && (next.raised <==> outcome.Shown? && !outcome.state.Valid())
      && (!next.raised ==>
            && next.states == sweep.states + ShownIn([outcome]) && next.failures == sweep.failures + MissedIn([outcome]))
  {
    var outcome := OutcomeOf(config, sweep.state, e, cut, stamp);
    assert [outcome][1..] == [];
    if e.calendarId in config.calendars && config.calendars[e.calendarId] == e.definition {
      UpdateIsOutcome(config, sweep.state, e, cut, stamp);
    }
  }

  ghost predicate SomeBroken(outcomes: seq<Outcome>) {
    exists o :: o in outcomes && o.Shown? && !o.state.Valid()
  }

  lemma OutcomesAgree(config: Config, p: State, q: State, expectations: seq<Expectation>, cut: int, stamp: int)
    requires p.Paired() && q.Paired() && SameOn(p, q, expectations)
    ensures Outcomes(config, p, expectations, cut, stamp) == Outcomes(config, q, expectations, cut, stamp)
  {
    forall i | 0 <= i < |expectations|
      ensures OutcomeOf(config, p, expectations[i], cut, stamp) == OutcomeOf(config, q, expectations[i], cut, stamp)
    {
      assert expectations[i] in expectations;
    }
  }

  lemma FirstOutcome(config: Config, p: State, expectations: seq<Expectation>, cut: int, stamp: int)
    requires p.Paired() && expectations != []
    ensures Outcomes(config, p, expectations, cut, stamp) ==
            [OutcomeOf(config, p, expectations[0], cut, stamp)] + Outcomes(config, p, expectations[1..], cut, stamp)
  {
  }

  lemma BrokenSplit(outcome: Outcome, rest: seq<Outcome>)
    ensures SomeBroken([outcome] + rest) <==> (outcome.Shown? && !outcome.state.Valid()) || SomeBroken(rest)
  {
    assert forall o :: o in [outcome] + rest <==> o == outcome || o in rest;
  }

  lemma OutcomesSplit(outcome: Outcome, rest: seq<Outcome>)
    ensures ShownIn([outcome] + rest) == ShownIn([outcome]) + ShownIn(rest)
    ensures MissedIn([outcome] + rest) == MissedIn([outcome]) + MissedIn(rest)
    ensures SomeBroken([outcome] + rest) <==> (outcome.Shown? && !outcome.state.Valid()) || SomeBroken(rest)
  {
    assert ([outcome] + rest)[1..] == rest && [outcome][1..] == [];
    BrokenSplit(outcome, rest);
    hide SomeBroken;
  }

  /** What has been collected and what is still to come. */
  ghost predicate Collected(sweep: Sweep, outcomes: seq<Outcome>, end: Sweep) {
    && (end.raised <==> SomeBroken(outcomes))
    && (!end.raised ==>
          && end.states == sweep.states + ShownIn(outcomes) && end.failures == sweep.failures + MissedIn(outcomes))
  }

  lemma CollectedJoins(sweep: Sweep, next: Sweep, end: Sweep, outcome: Outcome, rest: seq<Outcome>)
    requires next.raised <==> outcome.Shown? && !outcome.state.Valid()
    requires !next.raised ==>
      && next.states == sweep.states + ShownIn([outcome]) && next.failures == sweep.failures + MissedIn([outcome])
      && Collected(next, rest, end)
    requires next.raised ==> end == next
    ensures Collected(sweep, [outcome] + rest, end)
  {
    OutcomesSplit(outcome, rest);
  }

  /** The calendars of a request are evaluated one after the other, and still each comes out as if it
      were asked for alone; in request order, the states first to last and the failures first to last. */
  lemma {:induction false} SweepIsPointwise(
      config: Config, p: State, sweep: Sweep, expectations: seq<Expectation>, cut: int, stamp: int)
    requires p.Paired() && sweep.state.Paired() && Counts(sweep.state) && !sweep.raised
    requires SameOn(p, sweep.state, expectations) && Distinct(ExpectationIds(expectations))
    ensures Collected(sweep, Outcomes(config, p, expectations, cut, stamp),
                      SweepAll(config, sweep, expectations, cut, stamp))
    decreases |expectations|
  {
    if expectations == [] {
    } else {
      var e, rest := expectations[0], expectations[1..];
      var next := SweepOne(config, sweep, e, cut, stamp);
      OthersAreLater(expectations);
      SweepOneIsOutcome(config, sweep, e, cut, stamp, rest);
      OutcomesAgree(config, p, sweep.state, expectations, cut, stamp);
      FirstOutcome(config, p, expectations, cut, stamp);
      SameOnRest(p, sweep.state, next.state, expectations);
      hide SweepOne, OutcomeOf, Outcomes, SameOn, Collected;
      if !next.raised {
        SweepIsPointwise(config, p, next, rest, cut, stamp);
      } else {
        assert SweepAll(config, next, rest, cut, stamp) == next;
      }
      CollectedJoins(sweep, next, SweepAll(config, sweep, expectations, cut, stamp),
                     OutcomeOf(config, sweep.state, e, cut, stamp), Outcomes(config, p, rest, cut, stamp));
    }
  }

  lemma OthersAreLater(expectations: seq<Expectation>)
    requires expectations != [] && Distinct(ExpectationIds(expectations))
    ensures Distinct(ExpectationIds(expectations[1..]))
    ensures forall x :: x in expectations[1..] ==> x.calendarId != expectations[0].calendarId
  {
    var ids := ExpectationIds(expectations);
    assert ExpectationIds(expectations[1..]) == ids[1..];
    forall x | x in expectations[1..] ensures x.calendarId != expectations[0].calendarId {
      var i :| 0 <= i < |expectations[1..]| && expectations[1..][i] == x;
      assert ids[0] != ids[i + 1];
    }
  }

  lemma SameOnRest(p: State, q: State, r: State, expectations: seq<Expectation>)
    requires p.Paired() && q.Paired() && r.Paired() && expectations != []
    requires SameOn(p, q, expectations) && SameOn(q, r, expectations[1..])
    ensures SameOn(p, r, expectations[1..])
  {
  }

  // Answers

  /** Every requested calendar fails alike. */
  ghost predicate AllFail(q: Request, response: Response, outcome: FailureOutcome, code: Code, retryAt: Option<int>) {
    && response.states == [] && |response.failures| == |q.expectations|
    && (forall i :: 0 <= i < |response.failures| ==>
          response.failures[i] == Failure(q.expectations[i].calendarId, outcome, code, retryAt))
    && response.retryAt == retryAt
  }

  lemma {:induction false} AlikeRetry(failures: seq<Failure>, retryAt: Option<int>)
    requires failures != [] && forall i :: 0 <= i < |failures| ==> failures[i].retryAt == retryAt
    ensures EarliestRetry(failures) == retryAt
  {
    if |failures| > 1 {
      AlikeRetry(failures[1..], retryAt);
    } else {
      assert EarliestRetry(failures[1..]) == None;
    }
  }

  lemma AllAccounted(q: Request, outcome: FailureOutcome, code: Code, retryAt: Option<int>)
    requires WellFormed(q)
    ensures var failures := Failures(q, outcome, code, retryAt);
      && failures != [] && EarliestRetry(failures) == retryAt
      && FailureIds(failures) == ExpectationIds(q.expectations)
      && Distinct(FailureIds(failures))
  {
    AlikeRetry(Failures(q, outcome, code, retryAt), retryAt);
  }

  /** The answer that turns a request away. */
  ghost predicate TurnedAway(q: Request, response: Option<Response>, code: Code) {
    response.Some? && AllFail(q, response.value, REJECTED, code, None)
  }

  lemma UniformIsValid(q: Request, r: Response, outcome: FailureOutcome, code: Code, retryAt: Option<int>)
    requires WellFormed(q) && r.states == [] && r.failures == Failures(q, outcome, code, retryAt)
    requires r.requested == ExpectationIds(q.expectations) && r.retryAt == EarliestRetry(r.failures)
    requires r.requestedAsOf == q.requestedAsOf && r.requestedAt == q.requestedAt && r.deadline == q.deadline
    requires q.requestedAt <= r.receivedAt <= r.evaluatedAsOf <= r.generatedAt <= r.publishedAt
    requires retryAt.Some? ==> retryAt.value <= q.deadline
    ensures r.Valid() <==>
      && (retryAt.Some? ==> r.generatedAt < retryAt.value)
      && (r.publishedAt <= q.deadline || (outcome == REJECTED && code == RequestDeadlineExpired))
    ensures AllFail(q, r, outcome, code, retryAt)
  {
    AllAccounted(q, outcome, code, retryAt);
    assert r.failures[0] in r.failures;
    assert StateIds([]) == [];
  }

  /** An answer without states, with the same failure for every calendar: built in time it says just
      that, and too late it says that the deadline has passed. */
  lemma UniformIsBuilt(
      config: Config, q: Request, clock: Clock, floor: int, outcome: FailureOutcome, code: Code, retryAt: Option<int>)
    requires WellFormed(q) && Ticks(q, clock)
    requires retryAt.Some? ==> retryAt.value <= q.deadline
    requires code == RequestDeadlineExpired ==> outcome == REJECTED && retryAt.None?
    ensures var r := BuildResponse(config, q, clock.received, clock.cut, [], Failures(q, outcome, code, retryAt), floor, clock);
      if PublishedAt(clock, floor) > q.deadline then TurnedAway(q, r, RequestDeadlineExpired)
      else if retryAt.Some? && retryAt.value <= GeneratedAt(clock, floor) then r.None?
      else r.Some? && AllFail(q, r.value, outcome, code, retryAt)
  {
    hide AllFail;
    var failures := Failures(q, outcome, code, retryAt);
    var late := PublishedAt(clock, floor) > q.deadline && code != RequestDeadlineExpired;
    assert failures[0] in failures;
    var shown := if late then Failures(q, REJECTED, RequestDeadlineExpired, None) else failures;
    var response := Response(
      q.cycleId, q.requestId, q.attempt, q.requester, config.source, config.epoch, ExpectationIds(q.expectations), [],
      shown, q.requestedAsOf, q.requestedAt, q.deadline, clock.received, clock.cut, GeneratedAt(clock, floor),
      PublishedAt(clock, floor), config.policyVersion, EarliestRetry(shown));
    if late {
      UniformIsValid(q, response, REJECTED, RequestDeadlineExpired, None);
    } else {
      UniformIsValid(q, response, outcome, code, retryAt);
    }
  }

  lemma RejectionTurnsAway(config: Config, q: Request, code: Code, clock: Clock)
    requires WellFormed(q) && Ticks(q, clock)
    ensures TurnedAway(q, Rejection(config, q, code, clock),
                       if PublishedAt(clock, 0) > q.deadline then RequestDeadlineExpired else code)
  {
    hide BuildResponse, AllFail, Failures;
    UniformIsBuilt(config, q, clock, 0, REJECTED, code, None);
  }

  /** The answer of a producer that is not ready: ask again after the backoff, if that is possible before
      the deadline and the answer itself is in time; else the deadline has passed. The constructor of
      the answer refuses a retry time that is over when the answer is generated. */
  ghost predicate AsksToRetry(config: Config, q: Request, clock: Clock, response: Option<Response>) {
    var due := clock.floor + config.retryBackoff;
    if due > q.deadline || PublishedAt(clock, clock.floor) > q.deadline then TurnedAway(q, response, RequestDeadlineExpired)
    else if due <= GeneratedAt(clock, clock.floor) then response.None?
    else response.Some? && AllFail(q, response.value, NOT_READY, SourceNotReady, Some(due))
  }

  lemma UnreadyAsksToRetry(config: Config, q: Request, clock: Clock)
    requires WellFormed(q) && Ticks(q, clock) && 0 < config.retryBackoff
    ensures AsksToRetry(config, q, clock, NotReady(config, q, clock))
  {
    hide BuildResponse, AllFail, Failures;
    var due := clock.floor + config.retryBackoff;
    if due > q.deadline {
      UniformIsBuilt(config, q, clock, 0, REJECTED, RequestDeadlineExpired, None);
    } else {
      UniformIsBuilt(config, q, clock, clock.floor, NOT_READY, SourceNotReady, Some(due));
    }
  }

  // Evaluated answers

  /** Each calendar's current transition is its own, from this producer, and published by `time`. */
  ghost predicate Stocked(config: Config, p: State, time: int) {
    forall c :: c in p.transitions ==>
      var e := p.transitions[c];
      e.calendarId == c && e.source == config.source && e.epoch == config.epoch && e.publishedAt <= time
  }

  /** The id an outcome is about. */
  function About(o: Outcome): Id {
    match o
    case Shown(state) => state.calendarId
    case Missed(failure) => failure.calendarId
  }

  function Subjects(outcomes: seq<Outcome>): (ids: seq<Id>)
    ensures |ids| == |outcomes| && forall i :: 0 <= i < |ids| ==> ids[i] == About(outcomes[i])
  {
    seq(|outcomes|, i requires 0 <= i < |outcomes| => About(outcomes[i]))
  }

  /** `a` and `b` hold the ids between them, each once. */
  ghost predicate Partition(ids: seq<Id>, a: seq<Id>, b: seq<Id>) {
    && Distinct(a) && Distinct(b)
    && (forall c :: c in a ==> c !in b)
    && (forall c :: c in ids <==> c in a || c in b)
  }

  lemma PartitionGrows(x: Id, ids: seq<Id>, a: seq<Id>, b: seq<Id>)
    requires Partition(ids, a, b) && x !in ids
    ensures Partition([x] + ids, [x] + a, b) && Partition([x] + ids, a, [x] + b)
  {
    assert forall i :: 0 <= i < |a| ==> a[i] in a;
    assert forall i :: 0 <= i < |b| ==> b[i] in b;
  }

  lemma SubjectsSplit(outcomes: seq<Outcome>)
    requires outcomes != []
    ensures Subjects(outcomes) == [About(outcomes[0])] + Subjects(outcomes[1..])
  {
  }

  lemma ShownIdsSplit(state: CurrentState, rest: seq<CurrentState>)
    ensures StateIds([state] + rest) == [state.calendarId] + StateIds(rest)
  {
  }

  lemma MissedIdsSplit(failure: Failure, rest: seq<Failure>)
    ensures FailureIds([failure] + rest) == [failure.calendarId] + FailureIds(rest)
  {
  }

  lemma IdsSplit(outcomes: seq<Outcome>)
    requires outcomes != []
    ensures StateIds(ShownIn(outcomes)) ==
            (if outcomes[0].Shown? then [About(outcomes[0])] else []) + StateIds(ShownIn(outcomes[1..]))
    ensures FailureIds(MissedIn(outcomes)) ==
            (if outcomes[0].Missed? then [About(outcomes[0])] else []) + FailureIds(MissedIn(outcomes[1..]))
  {
    hide StateIds, FailureIds;
    var shown, missed := ShownIn(outcomes[1..]), MissedIn(outcomes[1..]);
    assert [] + shown == shown && [] + missed == missed;
    assert [] + StateIds(shown) == StateIds(shown) && [] + FailureIds(missed) == FailureIds(missed);
    match outcomes[0]
    case Shown(state) => ShownIdsSplit(state, shown);
    case Missed(failure) => MissedIdsSplit(failure, missed);
  }

  lemma {:induction false} SubjectsArePartitioned(outcomes: seq<Outcome>)
    requires Distinct(Subjects(outcomes))
    ensures Partition(Subjects(outcomes), StateIds(ShownIn(outcomes)), FailureIds(MissedIn(outcomes)))
  {
    if outcomes == [] {
    } else {
      SubjectsSplit(outcomes);
      IdsSplit(outcomes);
      FirstSubject(Subjects(outcomes));
      assert Subjects(outcomes)[1..] == Subjects(outcomes[1..]);
      hide Partition, Distinct, StateIds, FailureIds, ShownIn, MissedIn, Subjects;
      SubjectsArePartitioned(outcomes[1..]);
      var a, b := StateIds(ShownIn(outcomes[1..])), FailureIds(MissedIn(outcomes[1..]));
      PartitionGrows(About(outcomes[0]), Subjects(outcomes[1..]), a, b);
      assert [] + a == a && [] + b == b;
    }
  }

  lemma FirstSubject(ids: seq<Id>)
    requires ids != [] && Distinct(ids)
    ensures Distinct(ids[1..]) && ids[0] !in ids[1..]
  {
  }

  lemma {:induction false} ShownAreOutcomes(outcomes: seq<Outcome>)
    ensures forall s :: s in ShownIn(outcomes) <==> Shown(s) in outcomes
    ensures forall f :: f in MissedIn(outcomes) <==> Missed(f) in outcomes
  {
    if outcomes == [] {
    } else {
      ShownAreOutcomes(outcomes[1..]);
      assert forall o :: o in outcomes <==> o == outcomes[0] || o in outcomes[1..];
    }
  }

  lemma {:induction false} NoneRetryable(failures: seq<Failure>)
    requires forall f :: f in failures ==> f.retryAt.None?
    ensures EarliestRetry(failures) == None
  {
    if failures != [] {
      assert failures[0] in failures;
      NoneRetryable(failures[1..]);
    }
  }

  lemma OutcomesAreAbout(config: Config, p: State, expectations: seq<Expectation>, cut: int, stamp: int, time: int)
    requires p.Paired() && Stocked(config, p, time) && stamp <= time
    ensures var outcomes := Outcomes(config, p, expectations, cut, stamp);
      && Subjects(outcomes) == ExpectationIds(expectations)
      && forall o :: o in outcomes ==>
           && (o.Missed? ==> o.failure.retryAt.None? && o.failure.code != RequestDeadlineExpired)
           && (o.Shown? ==> o.state.evaluatedAsOf == cut && o.state.source == config.source
                            && o.state.epoch == config.epoch && o.state.revisionPublishedAt <= time)
  {
    var outcomes := Outcomes(config, p, expectations, cut, stamp);
    forall i | 0 <= i < |outcomes|
      ensures About(outcomes[i]) == expectations[i].calendarId
      ensures outcomes[i].Missed? ==>
        outcomes[i].failure.retryAt.None? && outcomes[i].failure.code != RequestDeadlineExpired
      ensures outcomes[i].Shown? ==>
        && outcomes[i].state.evaluatedAsOf == cut && outcomes[i].state.source == config.source
        && outcomes[i].state.epoch == config.epoch && outcomes[i].state.revisionPublishedAt <= time
    {
      OutcomeIsAbout(config, p, expectations[i], cut, stamp, time);
    }
  }

  lemma OutcomeIsAbout(config: Config, p: State, e: Expectation, cut: int, stamp: int, time: int)
    requires p.Paired() && Stocked(config, p, time) && stamp <= time
    ensures var o := OutcomeOf(config, p, e, cut, stamp);
      && About(o) == e.calendarId
      && (o.Missed? ==> o.failure.retryAt.None? && o.failure.code != RequestDeadlineExpired)
      && (o.Shown? ==> o.state.evaluatedAsOf == cut && o.state.source == config.source
                       && o.state.epoch == config.epoch && o.state.revisionPublishedAt <= time)
  {
  }

  /** An answer that shows exactly the states and the failures that came out. */
  ghost predicate ShowsAll(response: Option<Response>, outcomes: seq<Outcome>) {
    && response.Some? && response.value.states == ShownIn(outcomes) && response.value.failures == MissedIn(outcomes)
    && response.value.retryAt.None?
  }

  lemma LateIsTurnedAway(config: Config, q: Request, clock: Clock, states: seq<CurrentState>, failures: seq<Failure>)
    requires WellFormed(q) && Ticks(q, clock) && PublishedAt(clock, 0) > q.deadline
    requires states != [] || exists f :: f in failures && f.code != RequestDeadlineExpired
    ensures TurnedAway(q, BuildResponse(config, q, clock.received, clock.cut, states, failures, 0, clock),
                       RequestDeadlineExpired)
  {
    var shown := Failures(q, REJECTED, RequestDeadlineExpired, None);
    var response := Response(
      q.cycleId, q.requestId, q.attempt, q.requester, config.source, config.epoch, ExpectationIds(q.expectations), [],
      shown, q.requestedAsOf, q.requestedAt, q.deadline, clock.received, clock.cut, GeneratedAt(clock, 0),
      PublishedAt(clock, 0), config.policyVersion, EarliestRetry(shown));
    UniformIsValid(q, response, REJECTED, RequestDeadlineExpired, None);
    hide AllFail;
  }

  lemma SomethingCameOut(outcomes: seq<Outcome>)
    requires outcomes != []
    requires forall o :: o in outcomes && o.Missed? ==> o.failure.code != RequestDeadlineExpired
    ensures ShownIn(outcomes) != [] || exists f :: f in MissedIn(outcomes) && f.code != RequestDeadlineExpired
  {
    ShownAreOutcomes(outcomes);
    var o := outcomes[0];
    assert o in outcomes;
    match o
    case Shown(state) => assert state in ShownIn(outcomes);
    case Missed(failure) => assert failure in MissedIn(outcomes);
  }

  lemma EvaluatedIsValid(config: Config, q: Request, clock: Clock, outcomes: seq<Outcome>, response: Response)
    requires WellFormed(q) && Ticks(q, clock) && PublishedAt(clock, 0) <= q.deadline
    requires Partition(ExpectationIds(q.expectations), StateIds(ShownIn(outcomes)), FailureIds(MissedIn(outcomes)))
    requires forall f :: f in MissedIn(outcomes) ==> f.retryAt.None?
    requires forall s :: s in ShownIn(outcomes) ==>
      && s.Valid() && s.evaluatedAsOf == clock.cut && s.source == config.source && s.epoch == config.epoch
      && s.revisionPublishedAt <= PublishedAt(clock, 0)
    requires response == Response(
      q.cycleId, q.requestId, q.attempt, q.requester, config.source, config.epoch, ExpectationIds(q.expectations),
      ShownIn(outcomes), MissedIn(outcomes), q.requestedAsOf, q.requestedAt, q.deadline, clock.received, clock.cut,
      GeneratedAt(clock, 0), PublishedAt(clock, 0), config.policyVersion, EarliestRetry(MissedIn(outcomes)))
    ensures response.Valid() && response.retryAt.None?
  {
    NoneRetryable(MissedIn(outcomes));
  }

  lemma EvaluatedIsBuilt(config: Config, p: State, q: Request, clock: Clock, outcomes: seq<Outcome>)
    requires p.Paired() && WellFormed(q) && Ticks(q, clock)
    requires Stocked(config, p, PublishedAt(clock, 0)) && clock.stamp <= PublishedAt(clock, 0)
    requires outcomes == Outcomes(config, p, q.expectations, clock.cut, clock.stamp) && !SomeBroken(outcomes)
    ensures var r := BuildResponse(config, q, clock.received, clock.cut, ShownIn(outcomes), MissedIn(outcomes), 0, clock);
      if PublishedAt(clock, 0) > q.deadline then TurnedAway(q, r, RequestDeadlineExpired) else ShowsAll(r, outcomes)
  {
    hide OutcomeOf, ShownIn, MissedIn, AllFail, Partition, Stocked, Outcomes;
    OutcomesAreAbout(config, p, q.expectations, clock.cut, clock.stamp, PublishedAt(clock, 0));
    ShownAreOutcomes(outcomes);
    if PublishedAt(clock, 0) > q.deadline {
      SomethingCameOut(outcomes);
      LateIsTurnedAway(config, q, clock, ShownIn(outcomes), MissedIn(outcomes));
    } else {
      SubjectsArePartitioned(outcomes);
      assert forall s :: s in ShownIn(outcomes) ==> Shown(s) in outcomes && s.Valid();
      var response := Response(
        q.cycleId, q.requestId, q.attempt, q.requester, config.source, config.epoch, ExpectationIds(q.expectations),
        ShownIn(outcomes), MissedIn(outcomes), q.requestedAsOf, q.requestedAt, q.deadline, clock.received, clock.cut,
        GeneratedAt(clock, 0), PublishedAt(clock, 0), config.policyVersion, EarliestRetry(MissedIn(outcomes)));
      EvaluatedIsValid(config, q, clock, outcomes, response);
    }
  }

  // Requests

  /** The answer to an admitted request, given what is published before it. */
  ghost predicate Answered(config: Config, p: State, q: Request, clock: Clock, response: Option<Response>)
    requires p.Paired()
  {
    if clock.received > q.deadline then TurnedAway(q, response, RequestDeadlineExpired)
    else if !p.ready then AsksToRetry(config, q, clock, response)
    else
      var outcomes := Outcomes(config, p, q.expectations, clock.cut, clock.stamp);
      if SomeBroken(outcomes) then response.None?
      else if PublishedAt(clock, 0) > q.deadline then TurnedAway(q, response, RequestDeadlineExpired)
      else ShowsAll(response, outcomes)
  }

  lemma AdmittedIsAnswered(config: Config, p: State, q: Request, clock: Clock)
    requires p.Paired() && Counts(p) && WellFormed(q) && Ticks(q, clock) && 0 < config.retryBackoff
    requires Stocked(config, p, PublishedAt(clock, 0)) && clock.stamp <= PublishedAt(clock, 0)
    ensures Answered(config, p, q, clock, Answer(config, p, q, clock).response)
  {
    hide BuildResponse, SweepAll, OutcomeOf, NotReady, Rejection, AllFail, AsksToRetry, Outcomes, ShownIn, MissedIn, SomeBroken;
    if clock.received > q.deadline {
      RejectionTurnsAway(config, q, RequestDeadlineExpired, clock);
    } else if !p.ready {
      UnreadyAsksToRetry(config, q, clock);
    } else {
      var start := Sweep(p, [], [], [], false);
      var outcomes := Outcomes(config, p, q.expectations, clock.cut, clock.stamp);
      assert SameOn(p, p, q.expectations);
      SweepIsPointwise(config, p, start, q.expectations, clock.cut, clock.stamp);
      assert [] + ShownIn(outcomes) == ShownIn(outcomes) && [] + MissedIn(outcomes) == MissedIn(outcomes);
      if !SomeBroken(outcomes) { EvaluatedIsBuilt(config, p, q, clock, outcomes); }
    }
  }

  lemma CyclesDoNotShow(config: Config, p: State, q: State, expectations: seq<Expectation>, cut: int, stamp: int)
    requires p.Paired() && q == p.(cycles := q.cycles)
    ensures q.Paired() && Outcomes(config, q, expectations, cut, stamp) == Outcomes(config, p, expectations, cut, stamp)
  {
    OutcomesAgree(config, p, q, expectations, cut, stamp);
  }

  /** Every request is answered: a replayed one as before, one turned away with the reason, and an
      admitted one by the clock, the readiness of the producer and each calendar on its own. */
  lemma RequestIsAnswered(config: Config, p: State, q: Request, clock: Clock)
    requires p.Paired() && Counts(p) && WellFormed(q) && Ticks(q, clock) && 0 < config.retryBackoff
    requires Stocked(config, p, PublishedAt(clock, 0)) && clock.stamp <= PublishedAt(clock, 0)
    ensures var response := HandleRequest(config, p, q, clock).response;
      match AdmitRequest(config, p, q, clock.received).1
      case Replay(earlier) => response == Some(earlier)
      case Reject(code) =>
        TurnedAway(q, response, if PublishedAt(clock, 0) > q.deadline then RequestDeadlineExpired else code)
      case Process => Answered(config, p, q, clock, response)
  {
    hide Answer, Rejection, AdmitRequest, AllFail, Answered;
    var (r, admission) := AdmitRequest(config, p, q, clock.received);
    match admission
    case Replay(_) =>
    case Reject(code) => RejectionTurnsAway(config, q, code, clock);
    case Process =>
      AdmittedIsAnswered(config, r, q, clock);
      AnsweredAlike(config, p, r, q, clock, Answer(config, r, q, clock).response);
  }

  lemma AnsweredAlike(config: Config, p: State, r: State, q: Request, clock: Clock, response: Option<Response>)
    requires p.Paired() && r == p.(cycles := r.cycles)
    requires r.Paired() && Answered(config, r, q, clock, response)
    ensures Answered(config, p, q, clock, response)
  {
    CyclesDoNotShow(config, p, r, q.expectations, clock.cut, clock.stamp);
  }

  /** The hypotheses on the producer hold of every numbered history published by then. */
  lemma HistoryIsStocked(config: Config, p: State, sent: set<Transition>, time: int)
    requires H.Numbered(config, p, sent) && forall t :: t in sent ==> t.publishedAt <= time
    ensures p.Paired() && Counts(p) && Stocked(config, p, time)
  {
    forall c | c in p.revisions ensures 0 <= p.revisions[c] {
      assert p.Revision(c) == p.revisions[c];
      if c in p.transitions { assert p.transitions[c] in sent; }
    }
  }
}
