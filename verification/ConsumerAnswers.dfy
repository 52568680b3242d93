/** What the consumer answers to one snapshot and to one transition, told by the messages themselves. */
module ConsumerAnswers {
  import opened Prelude
  import opened CalendarMessages
  import opened SessionStateDelivery
  import opened BufferReconciliation
  import opened ConsumerEffects
  import opened DeliveryInvariant
  import opened DeliveryOrder

  // Which snapshots are taken

  /** The response carries the id of the one taken last. */
  predicate Repeats(s: State, response: Response) {
    s.accepted.Some? && s.accepted.value.requestId == response.requestId
  }

  /** The response answers the outstanding attempt, and both clocks are within its deadline. */
  predicate InTime(s: State, response: Response, now: int) {
    && s.Awaits(response) && s.deadline.Some?
    && now <= s.deadline.value && response.publishedAt <= s.deadline.value
  }

  /** The response repeats what was asked for. */
  predicate Correlated(s: State, response: Response) {
    && response.attempt == s.attempt && response.requester == s.requester
    && response.source == s.expectedSource && response.epoch == s.expectedEpoch
    && response.policyVersion == s.policyVersion && response.requested == ExpectationIds(s.expectations)
    && Some(response.requestedAsOf) == s.requestedAsOf && Some(response.requestedAt) == s.requestedAt
    && Some(response.deadline) == s.deadline
  }

  predicate DefinedAsExpected(s: State, response: Response) {
    forall c :: c in response.states ==> Expectation(c.calendarId, c.definition) in s.expectations
  }

  predicate Taken(s: State, response: Response, now: int) {
    !Repeats(s, response) && InTime(s, response, now) && Correlated(s, response) && DefinedAsExpected(s, response)
  }

  lemma DefinitionsMatchIff(s: State, response: Response)
    requires Distinct(ExpectationIds(s.expectations))
    ensures FirstDefinitionMismatch(s.expectations, response.states).None? <==> DefinedAsExpected(s, response)
  {
    forall c | c in response.states && Expectation(c.calendarId, c.definition) in s.expectations
      ensures ExpectationFor(s.expectations, c.calendarId) == Some(Expectation(c.calendarId, c.definition))
    {
      TheExpectation(s.expectations, Expectation(c.calendarId, c.definition));
    }
    if DefinedAsExpected(s, response) { FoundMeansNoMismatch(s.expectations, response.states); }
  }

  lemma {:induction false} FoundMeansNoMismatch(expectations: seq<Expectation>, states: seq<CurrentState>)
    requires forall c :: c in states ==>
      ExpectationFor(expectations, c.calendarId) == Some(Expectation(c.calendarId, c.definition))
    ensures FirstDefinitionMismatch(expectations, states).None?
  {
    if states != [] {
      assert states[0] in states;
      FoundMeansNoMismatch(expectations, states[1..]);
    }
  }

  /** A waiting consumer always knows its request. */
  lemma WaitingHasRequest(s: State, expected: seq<Expectation>, policy: Policy)
    requires DeliveryInv(s, expected, policy) && s.phase == WAITING
    ensures CurrentRequest(s) == Returned(Request(
      s.cycleId.value, s.requestId.value, s.attempt, s.requester, s.expectedSource, s.expectedEpoch, s.expectations,
      s.requestedAsOf.value, s.requestedAt.value, s.deadline.value, s.policyVersion))
  {
  }

  /** How a snapshot is judged, for every snapshot and every reachable consumer. */
  lemma SnapshotIsJudged(s: State, response: Response, now: int, expected: seq<Expectation>, policy: Policy)
    requires DeliveryInv(s, expected, policy) && Distinct(ExpectationIds(expected)) && 0 <= now
    ensures JudgeSnapshot(s, response, now).Returned?
    ensures var verdict := JudgeSnapshot(s, response, now).value;
      if s.phase == STOPPED then verdict == Leave(HALTED)
      else if Repeats(s, response) then
        verdict == if response == s.accepted.value then Leave(DUPLICATE) else Refuse(None, ResponseIdentityConflict)
      else if !InTime(s, response, now) then verdict == Leave(STALE)
      else if !Correlated(s, response) then verdict == Refuse(None, ResponseCorrelationConflict)
      else if !DefinedAsExpected(s, response) then
        verdict.Refuse? && verdict.code == DefinitionIdentityConflict && verdict.calendar.Some?
        && exists c :: (c in response.states && c.calendarId == verdict.calendar.value
                        && Expectation(c.calendarId, c.definition) !in s.expectations)
      else verdict == Admit
  {
    hide BufferInv, WatermarkInv, DefinedAsExpected;
    if s.phase == WAITING { WaitingHasRequest(s, expected, policy); }
    assert Distinct(ExpectationIds(s.expectations)) by { EmptyIsDistinct(s, expected, policy); }
    DefinitionsMatchIff(s, response);
    var mismatch := FirstDefinitionMismatch(s.expectations, response.states);
    if mismatch.Some? { MismatchIsUnexpected(s, response); }
  }

  lemma EmptyIsDistinct(s: State, expected: seq<Expectation>, policy: Policy)
    requires DeliveryInv(s, expected, policy) && Distinct(ExpectationIds(expected))
    ensures Distinct(ExpectationIds(s.expectations))
  {
  }

  lemma MismatchIsUnexpected(s: State, response: Response)
    requires Distinct(ExpectationIds(s.expectations))
    requires FirstDefinitionMismatch(s.expectations, response.states).Some?
    ensures exists c :: (c in response.states
      && c.calendarId == FirstDefinitionMismatch(s.expectations, response.states).value
      && Expectation(c.calendarId, c.definition) !in s.expectations)
  {
    var id := FirstDefinitionMismatch(s.expectations, response.states).value;
    var c :| c in response.states && c.calendarId == id
      && ExpectationFor(s.expectations, c.calendarId) != Some(Expectation(c.calendarId, c.definition));
    if Expectation(c.calendarId, c.definition) in s.expectations {
      TheExpectation(s.expectations, Expectation(c.calendarId, c.definition));
    }
  }

  // What a snapshot leaves

  /** The consumer in conflict, naming `affected` in addition. */
  ghost predicate InConflict(s: State, t: State, affected: set<Id>, code: Code) {
    t == s.(phase := CONFLICT, affected := s.affected + affected, terminalCode := Some(code), alertAt := None)
  }

  /** Cycle, attempt, times of the request and everything configured stay as they are. */
  ghost predicate SameOtherwise(s: State, t: State) {
    t == s.(phase := t.phase, accepted := t.accepted, alertAt := t.alertAt, requestId := t.requestId,
            deadline := t.deadline, watermarks := t.watermarks, buffer := t.buffer, affected := t.affected,
            terminalCode := t.terminalCode)
  }

  /** A snapshot that is not taken installs nothing: it is ignored, or the consumer is in conflict. */
  lemma UntakenInstallsNothing(s: State, response: Response, now: int, expected: seq<Expectation>, policy: Policy)
    requires DeliveryInv(s, expected, policy) && Distinct(ExpectationIds(expected)) && 0 <= now && response.Valid()
    requires s.phase == STOPPED || !Taken(s, response, now)
    ensures ObserveSnapshot(s, response, now).Returned?
    ensures var u := ObserveSnapshot(s, response, now).value;
      && u.installed == {}
      && (u.disposition == CONFLICTED <==>
            s.phase != STOPPED
            && (if Repeats(s, response) then response != s.accepted.value else InTime(s, response, now)))
      && (u.disposition == DUPLICATE <==> s.phase != STOPPED && Repeats(s, response) && response == s.accepted.value)
      && (u.disposition == HALTED <==> s.phase == STOPPED)
      && u.disposition in {CONFLICTED, DUPLICATE, HALTED, STALE}
      && (u.disposition != CONFLICTED ==> u.state == s)
      && (u.disposition == CONFLICTED ==> exists affected :: InConflict(s, u.state, affected, u.state.terminalCode.value))
      && (u.disposition == CONFLICTED ==> u.state.terminalCode == Some(
            if Repeats(s, response) then ResponseIdentityConflict
            else if !Correlated(s, response) then ResponseCorrelationConflict else DefinitionIdentityConflict))
  {
    SnapshotIsJudged(s, response, now, expected, policy);
    hide DeliveryInv, JudgeSnapshot, InTime, Correlated, DefinedAsExpected;
    var verdict := JudgeSnapshot(s, response, now).value;
    if verdict.Refuse? {
      RefusingConflicts(s, verdict);
    }
  }

  lemma RefusingConflicts(s: State, verdict: Verdict)
    requires verdict.Refuse?
    ensures var u := Conflict(s, verdict.calendar, verdict.code);
      && u.installed == {} && u.disposition == CONFLICTED
      && InConflict(s, u.state, if verdict.calendar.Some? then {verdict.calendar.value} else {}, verdict.code)
      && u.state.terminalCode == Some(verdict.code)
  {
    assert s.affected + {} == s.affected;
  }

  /** A response with failures installs nothing: the consumer names the failed calendars, in conflict
      exactly when one of them is, and otherwise degraded under the code of the first. */
  lemma FailuresAreNamed(s: State, response: Response, now: int, expected: seq<Expectation>, policy: Policy)
    requires DeliveryInv(s, expected, policy) && Distinct(ExpectationIds(expected)) && 0 <= now && response.Valid()
    requires s.phase != STOPPED && Taken(s, response, now) && response.failures != []
    ensures ObserveSnapshot(s, response, now).Returned?
    ensures var u := ObserveSnapshot(s, response, now).value;
      && u.disposition == ACCEPTED && u.installed == {} && SameOtherwise(s, u.state)
      && u.state.watermarks == s.watermarks && u.state.buffer == s.buffer
      && u.state.accepted == Some(response) && u.state.alertAt.None? && u.state.requestId.None? && u.state.deadline.None?
      && (u.state.phase == CONFLICT <==> exists f :: f in response.failures && f.outcome == CONFLICTING)
      && (u.state.phase != CONFLICT ==>
            u.state.phase == DEGRADED && u.state.terminalCode == Some(response.failures[0].code))
      && (u.state.phase == CONFLICT ==> u.state.terminalCode == Some(SnapshotConflict))
      && (forall c :: c in u.state.affected <==> c in FailureIds(response.failures))
  {
    SnapshotIsJudged(s, response, now, expected, policy);
    hide DeliveryInv, JudgeSnapshot, Taken;
    var ids := FailureIds(response.failures);
    forall c | c in AcceptSnapshot(s, response).state.affected ensures c in ids {
      var f :| f in response.failures && f.calendarId == c;
      var i :| 0 <= i < |response.failures| && response.failures[i] == f;
      assert ids[i] == c;
    }
  }

  /** The state of calendar `c` in a response that accounts for it. */
  ghost function Shown(response: Response, c: Id): CurrentState
    requires response.Valid() && c in StateIds(response.states)
  {
    ByCalendar(response.states)[c]
  }

  /** Some buffered transition claims a shown revision with other content. */
  ghost predicate SnapshotDisputed(s: State, response: Response)
    requires response.Valid()
  {
    exists e, c :: e in s.buffer && c in response.states && e.calendarId == c.calendarId
      && e.revision == c.revision && !TransitionMatchesState(e, c)
  }

  /** Some buffered transition of calendar `c` stays beyond a gap. */
  ghost predicate StaysBeyond(s: State, t: State, c: Id) {
    c in t.watermarks && exists e :: e in s.buffer && e.calendarId == c && t.watermarks[c].revision < e.revision
  }

  lemma DisputedByStates(s: State, response: Response)
    requires response.Valid() && ByCalendar(response.states).Keys == IdSet(s.expectations)
    requires forall e :: e in s.buffer ==> e.calendarId in IdSet(s.expectations)
    ensures SomeDisputed(IdSet(s.expectations), s.buffer, ByCalendar(response.states)) <==> SnapshotDisputed(s, response)
  {
    var m := ByCalendar(response.states);
    if SnapshotDisputed(s, response) {
      var e, c :| e in s.buffer && c in response.states && e.calendarId == c.calendarId
        && e.revision == c.revision && !TransitionMatchesState(e, c);
      assert m[c.calendarId] == c && Disputed(s.buffer, c.calendarId, m[c.calendarId]);
    }
    if SomeDisputed(IdSet(s.expectations), s.buffer, m) {
      var c :| c in IdSet(s.expectations) && c in m && Disputed(s.buffer, c, m[c]);
      var e :| e in s.buffer && e.calendarId == c && e.revision == m[c].revision && !TransitionMatchesState(e, m[c]);
      assert m[c] in response.states;
    }
  }

  lemma ConflictLeaves(p: State)
    ensures var u := Reconcile(p);
      u.disposition == CONFLICTED ==>
        u.state == p.(phase := CONFLICT, affected := u.state.affected, terminalCode := Some(RevisionIdentityConflict),
                      alertAt := None)
        && u.installed == {}
  {
    hide PassCalendars;
  }

  lemma SurvivorsStayBeyond(s: State, t: State)
    requires t.watermarks.Keys == IdSet(s.expectations)
    requires forall e :: e in s.buffer ==> e.calendarId in IdSet(s.expectations)
    ensures forall c :: Waiting(IdSet(s.expectations), s.buffer, t.watermarks, c) <==> StaysBeyond(s, t, c)
    ensures (forall c :: !StaysBeyond(s, t, c)) <==> forall e :: !Survives(IdSet(s.expectations), s.buffer, t.watermarks, e)
  {
    forall c ensures Waiting(IdSet(s.expectations), s.buffer, t.watermarks, c) <==> StaysBeyond(s, t, c) {
      if StaysBeyond(s, t, c) {
        var e :| e in s.buffer && e.calendarId == c && t.watermarks[c].revision < e.revision;
        assert Survives(IdSet(s.expectations), s.buffer, t.watermarks, e);
      }
    }
    forall e | Survives(IdSet(s.expectations), s.buffer, t.watermarks, e) ensures StaysBeyond(s, t, e.calendarId) { }
  }

  lemma GapMeansAffected(s: State, t: State)
    requires forall c :: c in t.affected <==> StaysBeyond(s, t, c)
    requires t.phase == if t.affected != {} then DEGRADED else LIVE
    ensures t.phase == DEGRADED <==> exists c :: StaysBeyond(s, t, c)
    ensures t.phase == LIVE ==> t.affected == {}
  {
    if t.affected != {} { Inhabited(t.affected); }
  }

  lemma SomethingLeft(buffer: seq<Transition>)
    requires buffer != []
    ensures exists e :: e in buffer
  {
    assert buffer[0] in buffer;
  }

  /** Degraded at a gap: the calendars with a transition beyond it are affected, and those that moved
      past their shown state are installed. */
  ghost predicate StoppedAtGap(s: State, response: Response, u: Update)
    requires response.Valid() && forall c :: c in u.state.watermarks ==> c in StateIds(response.states)
  {
    && u.disposition == GAP && u.state.phase == DEGRADED && u.state.terminalCode == Some(RevisionGap)
    && (forall c :: c in u.state.affected <==> StaysBeyond(s, u.state, c))
    && (forall c :: c in u.installed <==>
          c in u.state.watermarks && Shown(response, c).revision < u.state.watermarks[c].revision)
  }

  /** Live, with every expected calendar installed and nothing left in the buffer. */
  ghost predicate AllInstalled(s: State, u: Update) {
    && u.disposition == ACCEPTED && u.installed == IdSet(s.expectations)
    && u.state.phase == LIVE && u.state.buffer == [] && u.state.affected == {} && u.state.terminalCode.None?
  }

  ghost predicate InstalledNothing(s: State, u: Update) {
    && u.disposition == CONFLICTED && u.installed == {}
    && u.state.phase == CONFLICT && u.state.buffer == s.buffer && u.state.terminalCode == Some(RevisionIdentityConflict)
  }

  /** What becomes of a full snapshot: disputed, it conflicts and installs nothing. Otherwise every
      expected calendar stands where the run of buffered revisions after its shown state ends; without
      a gap all of them are reported as installed, with one those that moved. */
  ghost predicate Installed(s: State, response: Response, u: Update)
    requires response.Valid()
  {
    var t := u.state;
    && SameOtherwise(s, t)
    && t.accepted == Some(response) && t.alertAt.None? && t.requestId.None? && t.deadline.None?
    && t.watermarks.Keys == IdSet(s.expectations)
    && (forall c :: c in t.watermarks ==> c in StateIds(response.states))
    && if SnapshotDisputed(s, response) then InstalledNothing(s, u)
       else
         && (forall c :: c in t.watermarks ==> EndsRun(s.buffer, c, Shown(response, c), t.watermarks[c]))
         && if exists c :: StaysBeyond(s, t, c) then StoppedAtGap(s, response, u) else AllInstalled(s, u)
  }

  /** A reconciled snapshot without a dispute, as it is reported. */
  function Reported(v: Update): Update {
    if v.disposition == GAP then v else Update(v.state, ACCEPTED, v.state.watermarks.Keys)
  }

  /** What reconciling a shown snapshot leaves, in terms of the response. */
  ghost predicate ReconciledFrom(s: State, response: Response, v: Update)
    requires response.Valid()
  {
    var t, ids := v.state, IdSet(s.expectations);
    && SameOtherwise(s, t)
    && t.accepted == Some(response) && t.alertAt.None? && t.requestId.None? && t.deadline.None?
    && t.watermarks.Keys == ids && (forall c :: c in t.watermarks ==> c in StateIds(response.states))
    && (forall c :: c in t.watermarks ==> EndsRun(s.buffer, c, Shown(response, c), t.watermarks[c]))
    && (forall e :: e in t.buffer <==> Survives(ids, s.buffer, t.watermarks, e))
    && (forall c :: c in t.affected <==> Waiting(ids, s.buffer, t.watermarks, c))
    && (forall c :: c in v.installed <==>
          c in t.watermarks && Shown(response, c).revision < t.watermarks[c].revision)
    && t.phase == (if t.affected != {} then DEGRADED else LIVE) && (v.disposition == GAP <==> t.phase == DEGRADED)
    && t.terminalCode == (if t.phase == DEGRADED then Some(RevisionGap) else None)
  }

  lemma ShowsStates(s: State, response: Response)
    requires response.Valid()
    ensures var p := Accepted(s, response);
      && p.watermarks.Keys == ByCalendar(response.states).Keys
      && (forall c :: c in p.watermarks ==> c in StateIds(response.states) && Shown(response, c) == p.watermarks[c])
      && SameOtherwise(s, p) && p.buffer == s.buffer
      && p.accepted == Some(response) && p.alertAt.None? && p.requestId.None? && p.deadline.None?
  {
  }

  lemma ReconciledShows(s: State, response: Response, v: Update)
    requires response.Valid() && ByCalendar(response.states).Keys == IdSet(s.expectations)
    requires Reconciled(Accepted(s, response), v)
    ensures ReconciledFrom(s, response, v)
  {
    hide EndsRun, Waiting, Survives, IdSet, Shown;
    var p := Accepted(s, response);
    ShowsStates(s, response);
  }

  lemma ReconciledIsInstalled(s: State, response: Response, v: Update)
    requires response.Valid() && ReconciledFrom(s, response, v) && !SnapshotDisputed(s, response)
    requires forall e :: e in s.buffer ==> e.calendarId in IdSet(s.expectations)
    ensures Installed(s, response, Reported(v))
  {
    hide EndsRun, SnapshotDisputed, ByCalendar, Shown, IdSet;
    SurvivorsStayBeyond(s, v.state);
    GapMeansAffected(s, v.state);
    if v.state.phase == LIVE && v.state.buffer != [] {
      SomethingLeft(v.state.buffer);
    }
  }

  lemma InstalledAnswer(s: State, response: Response)
    requires response.Valid() && response.failures == [] && Reconcilable(s)
    requires ByCalendar(response.states).Keys == IdSet(s.expectations)
    ensures Installed(s, response, AcceptSnapshot(s, response))
  {
    hide Reconcile, PassCalendars, EndsRun, Reconciled, SnapshotDisputed, SomeDisputed, ByCalendar;
    var p := Accepted(s, response);
    DisputedByStates(s, response);
    ReconcileReachesRunEnds(p);
    ConflictLeaves(p);
    var v := Reconcile(p);
    if v.disposition == CONFLICTED {
      assert AcceptSnapshot(s, response) == v;
    } else {
      ReconciledShows(s, response, v);
      ReconciledIsInstalled(s, response, v);
      assert AcceptSnapshot(s, response) == Reported(v);
    }
  }

  /** A full snapshot that is taken is installed as told above. */
  lemma FullSnapshotInstalls(s: State, response: Response, now: int, expected: seq<Expectation>, policy: Policy)
    requires DeliveryInv(s, expected, policy) && Distinct(ExpectationIds(expected)) && 0 <= now && response.Valid()
    requires s.phase != STOPPED && Taken(s, response, now) && response.failures == []
    ensures ObserveSnapshot(s, response, now).Returned?
    ensures Installed(s, response, ObserveSnapshot(s, response, now).value)
  {
    SnapshotIsJudged(s, response, now, expected, policy);
    SnapshotCovers(s, response);
    InstalledAnswer(s, response);
    hide DeliveryInv, JudgeSnapshot, Taken, AcceptSnapshot, Reconcile;
  }

  // Transitions

  /** A buffered transition other than `e` claims its event id, or its calendar's revision. */
  ghost predicate Contradicted(s: State, e: Transition) {
    exists b :: b in s.buffer && b != e && !Apart(e, b)
  }

  ghost predicate Fresh(s: State, e: Transition) {
    Ahead(s, e) && e !in s.buffer
  }

  predicate HasRoom(s: State, e: Transition, policy: Policy) {
    |s.buffer| < policy.maximumTotal && |EventsFor(s.buffer, e.calendarId)| < policy.maximumPerCalendar
  }

  /** The first reason a transition is refused for. */
  function RefusalCode(s: State, e: Transition): Code {
    var known := exists x :: x in s.expectations && x.calendarId == e.calendarId;
    if !known then UnexpectedCalendar
    else if e.source != s.expectedSource || e.epoch != s.expectedEpoch then SourceIdentityConflict
    else if Expectation(e.calendarId, e.definition) !in s.expectations then DefinitionIdentityConflict
    else if e.calendarId in s.watermarks && e.eventId == s.watermarks[e.calendarId].lastEventId
            && !TransitionMatchesState(e, s.watermarks[e.calendarId]) then EventIdentityConflict
    else if e.calendarId in s.watermarks && e.revision == s.watermarks[e.calendarId].revision
    then RevisionIdentityConflict
    else if exists b :: b in s.buffer && b.calendarId == e.calendarId && b.revision == e.revision
    then RevisionIdentityConflict
    else EventIdentityConflict
  }

  /** How a transition is judged, for every transition and every reachable consumer. */
  lemma TransitionIsJudged(s: State, e: Transition, policy: Policy)
    requires UniqueKeys(s.buffer) && Distinct(ExpectationIds(s.expectations))
    ensures var verdict := JudgeTransition(s, e, policy);
      if !Welcome(s, e) || (Fresh(s, e) && Contradicted(s, e)) then
        verdict == Refuse(Some(e.calendarId), RefusalCode(s, e))
      else if !Fresh(s, e) then
        verdict == Leave(
          if e.calendarId in s.watermarks && e.revision < s.watermarks[e.calendarId].revision then STALE else DUPLICATE)
      else verdict == if HasRoom(s, e, policy) then Admit else Overflow
  {
    hide EventsFor;
    var expectation := ExpectationFor(s.expectations, e.calendarId);
    if Expectation(e.calendarId, e.definition) in s.expectations {
      TheExpectation(s.expectations, Expectation(e.calendarId, e.definition));
    }
    if Ahead(s, e) {
      if e in s.buffer { BufferedIsFound(s.buffer, e); }
    }
  }

  /** `t` has taken in `e` and moved every watermark to the end of its run of buffered revisions. */
  ghost predicate TookIn(s: State, e: Transition, u: Update) {
    var p, t := s.(buffer := s.buffer + [e]), u.state;
    && SameOtherwise(s, t) && t.accepted == s.accepted && t.alertAt == s.alertAt && t.requestId == s.requestId
    && t.deadline == s.deadline && t.watermarks.Keys == s.watermarks.Keys
    && (forall c :: c in t.watermarks ==> EndsRun(p.buffer, c, s.watermarks[c], t.watermarks[c]))
    && (forall c :: c in u.installed <==>
          c in t.watermarks && s.watermarks[c].revision < t.watermarks[c].revision)
    && (forall c :: c in t.affected <==> StaysBeyond(p, t, c))
    && if exists c :: StaysBeyond(p, t, c)
       then u.disposition == GAP && t.phase == DEGRADED && t.terminalCode == Some(RevisionGap)
       else u.disposition == APPLIED && t.phase == LIVE && t.buffer == [] && t.terminalCode.None?
            && e.calendarId in u.installed
  }

  /** What becomes of a transition. */
  ghost predicate Answered(s: State, e: Transition, policy: Policy, u: Update) {
    if !Welcome(s, e) || (Fresh(s, e) && Contradicted(s, e)) then
      u.disposition == CONFLICTED && u.installed == {} && InConflict(s, u.state, {e.calendarId}, RefusalCode(s, e))
    else if !Fresh(s, e) then
      && u.state == s && u.installed == {}
      && u.disposition ==
         if e.calendarId in s.watermarks && e.revision < s.watermarks[e.calendarId].revision then STALE else DUPLICATE
    else if !HasRoom(s, e, policy) then
      && u.disposition == OVERFLOW && u.installed == {}
      && u.state == s.(phase := DEGRADED, affected := s.affected + {e.calendarId}, terminalCode := Some(BufferOverflow))
    else if s.phase in {WAITING, BACKOFF} || e.calendarId !in s.watermarks then
      u.disposition == BUFFERED && u.installed == {} && u.state == s.(buffer := s.buffer + [e])
    else TookIn(s, e, u)
  }

  lemma TookInFresh(s: State, e: Transition, v: Update)
    requires s.watermarks.Keys == IdSet(s.expectations) && e.calendarId in s.watermarks && Ahead(s, e)
    requires forall x :: x in s.buffer ==> x.calendarId in IdSet(s.expectations)
    requires v.disposition != CONFLICTED && Reconciled(s.(buffer := s.buffer + [e]), v)
    requires v.disposition in {GAP, APPLIED, DUPLICATE} && (v.disposition == APPLIED <==> v.disposition != GAP && v.installed != {})
    ensures TookIn(s, e, v)
  {
    hide EndsRun, IdSet;
    var p := s.(buffer := s.buffer + [e]);
    SurvivorsStayBeyond(p, v.state);
    GapMeansAffected(p, v.state);
    assert e in p.buffer;
    if v.state.phase == LIVE {
      assert !StaysBeyond(p, v.state, e.calendarId);
      assert e.calendarId in v.installed;
      if v.state.buffer != [] { SomethingLeft(v.state.buffer); }
    }
  }

  lemma DispositionOfReconcile(p: State)
    ensures var v := Reconcile(p);
      && v.disposition in {CONFLICTED, GAP, APPLIED, DUPLICATE}
      && (v.disposition == APPLIED <==> v.disposition !in {CONFLICTED, GAP} && v.installed != {})
  {
    hide PassCalendars;
  }

  lemma AdmittedIsTakenIn(s: State, e: Transition, expected: seq<Expectation>, policy: Policy)
    requires DeliveryInv(s, expected, policy) && Distinct(ExpectationIds(expected))
    requires s.phase in {LIVE, DEGRADED} && e.calendarId in s.watermarks && Fresh(s, e)
    requires JudgeBuffering(s.buffer, e, policy) == Admit
    ensures TookIn(s, e, Reconcile(s.(buffer := s.buffer + [e])))
  {
    hide Reconcile, TookIn, EndsRun, HasRoom;
    var p := s.(buffer := s.buffer + [e]);
    AppendKeepsBounds(s, e, policy);
    ReconcileReachesRunEnds(p);
    DispositionOfReconcile(p);
    assert forall x :: x in p.buffer ==> Ahead(p, x);
    TookInFresh(s, e, Reconcile(p));
  }

  /** Every transition is answered as told above. */
  lemma TransitionIsAnswered(s: State, e: Transition, expected: seq<Expectation>, policy: Policy)
    requires DeliveryInv(s, expected, policy) && Distinct(ExpectationIds(expected))
    requires s.phase !in {STOPPED, CONFLICT}
    ensures ObserveTransition(s, e, policy).Returned?
    ensures Answered(s, e, policy, ObserveTransition(s, e, policy).value)
  {
    hide Reconcile, Contradicted, Welcome, JudgeTransition, TookIn, RefusalCode;
    EmptyIsDistinct(s, expected, policy);
    TransitionIsJudged(s, e, policy);
    if JudgeTransition(s, e, policy) == Admit && s.phase in {LIVE, DEGRADED} && e.calendarId in s.watermarks {
      FreshIsJudgedByBuffer(s, e, policy);
      AdmittedIsTakenIn(s, e, expected, policy);
    }
  }

  lemma FreshIsJudgedByBuffer(s: State, e: Transition, policy: Policy)
    requires JudgeTransition(s, e, policy) == Admit
    ensures JudgeBuffering(s.buffer, e, policy) == Admit
  {
  }

  /** A live consumer applies exactly the very next revision, and any later one opens a gap. */
  lemma LiveAppliesTheNext(s: State, e: Transition, expected: seq<Expectation>, policy: Policy)
    requires DeliveryInv(s, expected, policy) && Distinct(ExpectationIds(expected))
    requires s.phase == LIVE && Welcome(s, e) && Ahead(s, e)
    ensures ObserveTransition(s, e, policy).Returned? && e.calendarId in s.watermarks
    ensures var u := ObserveTransition(s, e, policy).value; var w := s.watermarks[e.calendarId];
      if e.revision == w.revision + 1 then
        && u.disposition == APPLIED && u.installed == {e.calendarId}
        && u.state.watermarks == s.watermarks[e.calendarId := StateFromTransition(e)] && u.state.phase == LIVE
      else
        && u.disposition == GAP && u.installed == {} && u.state.watermarks == s.watermarks
        && u.state.phase == DEGRADED && u.state.affected == {e.calendarId}
  {
    TransitionIsAnswered(s, e, expected, policy);
    LiveHasRoom(s, e, expected, policy);
    hide DeliveryInv, Welcome, ObserveTransition, RefusalCode;
    var u := ObserveTransition(s, e, policy).value;
    AloneInBuffer(s, e, u);
  }

  lemma LiveHasRoom(s: State, e: Transition, expected: seq<Expectation>, policy: Policy)
    requires DeliveryInv(s, expected, policy) && s.phase == LIVE && Welcome(s, e)
    ensures s.buffer == [] && HasRoom(s, e, policy) && !Contradicted(s, e) && e.calendarId in s.watermarks
  {
  }

  /** The watermark of one calendar after the buffer held only `e`. */
  function Moved(s: State, e: Transition, c: Id): CurrentState
    requires c in s.watermarks
  {
    if c == e.calendarId && e.revision == s.watermarks[c].revision + 1 then StateFromTransition(e) else s.watermarks[c]
  }

  lemma OnlyOneMoves(s: State, e: Transition, u: Update)
    requires s.buffer == [] && e.calendarId in s.watermarks && Ahead(s, e) && TookIn(s, e, u)
    ensures forall c :: c in u.state.watermarks ==> c in s.watermarks && u.state.watermarks[c] == Moved(s, e, c)
  {
    var t := u.state;
    assert s.buffer + [e] == [e];
    forall c | c in t.watermarks ensures t.watermarks[c] == Moved(s, e, c) {
      RunOverOne(e, c, s.watermarks[c], t.watermarks[c]);
    }
  }

  lemma AloneInBuffer(s: State, e: Transition, u: Update)
    requires s.buffer == [] && e.calendarId in s.watermarks && Ahead(s, e) && TookIn(s, e, u)
    ensures var w := s.watermarks[e.calendarId];
      if e.revision == w.revision + 1 then
        && u.disposition == APPLIED && u.installed == {e.calendarId}
        && u.state.watermarks == s.watermarks[e.calendarId := StateFromTransition(e)] && u.state.phase == LIVE
      else
        && u.disposition == GAP && u.installed == {} && u.state.watermarks == s.watermarks
        && u.state.phase == DEGRADED && u.state.affected == {e.calendarId}
  {
    hide EndsRun;
    OnlyOneMoves(s, e, u);
    var p, t := s.(buffer := s.buffer + [e]), u.state;
    assert forall x :: x in p.buffer <==> x == e;
    assert forall c :: StaysBeyond(p, t, c) <==> c == e.calendarId && t.watermarks[c].revision < e.revision;
    assert forall c :: c in t.affected ==> c == e.calendarId;
    assert forall c :: c in u.installed <==> c == e.calendarId && e.revision == s.watermarks[c].revision + 1;
    if e.revision == s.watermarks[e.calendarId].revision + 1 {
      assert u.installed == {e.calendarId};
    } else {
      assert e.calendarId in t.affected;
      assert t.affected == {e.calendarId};
    }
  }

  lemma RunOverOne(e: Transition, c: Id, from: CurrentState, end: CurrentState)
    requires EndsRun([e], c, from, end)
    requires c == e.calendarId ==> from.revision < e.revision
    ensures end == if c == e.calendarId && e.revision == from.revision + 1 then StateFromTransition(e) else from
  {
    var next := from.revision + 1;
    if c == e.calendarId && e.revision == next {
      assert e in [e];
      assert Holds([e], c, next);
    } else {
      assert !Holds([e], c, next);
    }
  }
}
