/** Open incidents are worked on: whenever a retry is due, each has its recovery record under way, unless
    the worker has just refused one. */
module RecoveryProgress {
  import opened Prelude
  import opened PersistenceRecovery
  import opened RecoveryEvidence
  import W = PersistenceWorker

  /** Every pending recovery is that of an open incident, and no incident has two. */
  ghost predicate Matched(s: State) {
    && (forall q :: q in s.pending ==>
          && s.pending[q].code in {WRITE_FAILED, ADMISSION_REJECTED}
          && s.pending[q].code in s.failures && s.failures[s.pending[q].code] == s.pending[q].incident)
    && (forall q, r :: q in s.pending && r in s.pending && s.pending[q].code == s.pending[r].code ==> q == r)
  }

  /** The incident open under `code` has its recovery record under way. */
  ghost predicate UnderWay(s: State, code: Code) {
    && code in s.failures
    && exists q :: q in s.pending && s.pending[q].code == code && s.pending[q].incident == s.failures[code]
  }

  /** Between `s` and `t` the worker refused a record numbered after `s`. */
  ghost predicate Refused(s: State, t: State) {
    exists i :: |s.log| <= i < |t.log| && t.log[i].Lost? && s.sequence < t.log[i].sequence
  }

  lemma FailingStaysMatched(s: State, sequence: int, code: Code)
    requires Matched(s)
    ensures Matched(ReportFailure(MarkLost(s, sequence), code)) && Matched(ReportFailure(s, code))
  {
  }

  lemma ClosingStaysMatched(s: State, recovery: Recovery, sequence: int)
    requires Matched(s) && forall q :: q in s.pending ==> s.pending[q].code != recovery.code
    ensures Matched(CloseIncident(s, recovery, sequence))
  {
  }

  lemma DrainOneStaysMatched(s: State)
    requires Matched(s) && s.drained < |s.worker.results|
    ensures Matched(DrainOne(s))
  {
    hide ReportFailure, CloseIncident, MarkLost;
    var q := s.worker.results[s.drained].record.sequence;
    var read := Read(s, q);
    assert Matched(read);
    if !s.worker.results[s.drained].stored {
      FailingStaysMatched(read, q, WRITE_FAILED);
    } else {
      assert Matched(Tell(read, Stored(q)));
      if q in s.pending { ClosingStaysMatched(Tell(read, Stored(q)), s.pending[q], q); }
    }
  }

  lemma {:induction false} DrainAllStaysMatched(s: State)
    requires Matched(s)
    ensures Matched(DrainAll(s))
    decreases |s.worker.results| - s.drained
  {
    if s.drained < |s.worker.results| {
      DrainOneStaysMatched(s);
      DrainOneReads(s);
      hide Matched, DrainOne;
      DrainAllStaysMatched(DrainOne(s));
    }
  }

  /** What queueing for the incident under `code` leaves: its record under way, or a refusal. */
  ghost predicate Progressed(s: State, code: Code, t: State, goOn: bool) {
    && Matched(t) && s.log <= t.log && s.sequence <= t.sequence
    && (forall q :: q in s.pending ==> q in t.pending && t.pending[q] == s.pending[q])
    && (forall q :: q in t.pending ==> q <= t.sequence && (q in s.pending || t.pending[q].code == code))
    && if goOn then t.failures == s.failures && t.log == s.log && (code in t.failures ==> UnderWay(t, code))
       else Refused(s, t)
  }

  lemma AcceptedProgresses(c: W.Config, s: State, code: Code, t: State)
    requires Matched(s) && code in {WRITE_FAILED, ADMISSION_REJECTED} && code in s.failures
    requires forall q :: q in s.pending ==> q <= s.sequence && s.pending[q].code != code
    requires t == s.(sequence := s.sequence + 1, worker := t.worker,
                     pending := s.pending[s.sequence + 1 := Recovery(code, s.failures[code], s.lost)])
    ensures Progressed(s, code, t, true)
  {
    assert s.sequence + 1 in t.pending;
  }

  lemma RefusedProgresses(s: State, code: Code)
    requires Matched(s) && forall q :: q in s.pending ==> q <= s.sequence
    ensures Progressed(s, code, ReportFailure(MarkLost(s.(sequence := s.sequence + 1), s.sequence + 1), ADMISSION_REJECTED),
                       false)
  {
    var numbered := s.(sequence := s.sequence + 1);
    FailingStaysMatched(numbered, s.sequence + 1, ADMISSION_REJECTED);
    var t := ReportFailure(MarkLost(numbered, s.sequence + 1), ADMISSION_REJECTED);
    assert t.log[|s.log|] == Lost(s.sequence + 1);
  }

  /** Queueing for one incident puts its record under way, unless the worker refuses it. */
  lemma QueueOneProgresses(c: W.Config, s: State, busy: set<Code>, code: Code)
    requires Matched(s) && code in {WRITE_FAILED, ADMISSION_REJECTED}
    requires forall q :: q in s.pending ==> q <= s.sequence
    requires code in busy <==> exists q :: q in s.pending && s.pending[q].code == code
    ensures var (t, goOn) := QueueOne(c, s, busy, code); Progressed(s, code, t, goOn)
  {
    hide W.Admits, W.Next, ReportFailure, MarkLost;
    var (t, goOn) := QueueOne(c, s, busy, code);
    if code in s.failures && code !in busy {
      if goOn { AcceptedProgresses(c, s, code, t); } else { RefusedProgresses(s, code); }
    }
  }

  /** The incident is worked on: its record is under way, or one was refused just now. */
  ghost predicate WorkedOn(s: State, t: State, code: Code) {
    code in t.failures ==> UnderWay(t, code) || Refused(s, t)
  }

  lemma BothProgress(s: State, first: State, t: State, goOn: bool)
    requires Progressed(s, WRITE_FAILED, first, true) && Progressed(first, ADMISSION_REJECTED, t, goOn)
    ensures WorkedOn(s, t, WRITE_FAILED) && WorkedOn(s, t, ADMISSION_REJECTED) && Matched(t)
  {
    if goOn && WRITE_FAILED in t.failures {
      var q :| q in first.pending && first.pending[q].code == WRITE_FAILED
        && first.pending[q].incident == first.failures[WRITE_FAILED];
      assert t.pending[q] == first.pending[q];
    }
  }

  lemma QueueingWorksOn(c: W.Config, s: State)
    requires Matched(s) && s.active && forall q :: q in s.pending ==> q <= s.sequence
    ensures var t := QueueRecoveries(c, s, true);
      WorkedOn(s, t, WRITE_FAILED) && WorkedOn(s, t, ADMISSION_REJECTED) && Matched(t)
  {
    hide QueueOne;
    var busy := PendingCodes(s);
    assert forall code :: code in busy <==> exists q :: q in s.pending && s.pending[q].code == code;
    QueueOneProgresses(c, s, busy, WRITE_FAILED);
    var (first, goOn) := QueueOne(c, s, busy, WRITE_FAILED);
    if goOn {
      SameBusy(s, first, busy);
      QueueOneProgresses(c, first, busy, ADMISSION_REJECTED);
      var (t, further) := QueueOne(c, first, busy, ADMISSION_REJECTED);
      BothProgress(s, first, t, further);
    }
  }

  lemma SameBusy(s: State, first: State, busy: set<Code>)
    requires Progressed(s, WRITE_FAILED, first, true)
    requires forall code :: code in busy <==> exists q :: q in s.pending && s.pending[q].code == code
    ensures ADMISSION_REJECTED in busy <==> exists q :: q in first.pending && first.pending[q].code == ADMISSION_REJECTED
    ensures forall q :: q in first.pending ==> q <= first.sequence
  {
    if q :| q in s.pending && s.pending[q].code == ADMISSION_REJECTED { assert q in first.pending; }
  }

  lemma PendingAreNumbered(c: W.Config, s: State)
    requires Sound(c, s)
    ensures forall q :: q in s.pending ==> q <= s.sequence
  {
    hide W.Sound, LogKept;
    forall q | q in s.pending ensures q <= s.sequence {
      var i :| s.drained <= i < |s.worker.accepted| && s.worker.accepted[i] == RecoveryRecord(q);
      assert s.worker.accepted[i] in s.worker.accepted;
    }
  }

  lemma {:induction false} DrainingKeepsActive(s: State)
    ensures DrainAll(s).active == s.active && DrainAll(s).sequence == s.sequence
    decreases |s.worker.results| - s.drained
  {
    if s.drained < |s.worker.results| {
      DrainOneReads(s);
      DrainingKeepsActive(DrainOne(s));
    }
  }

  lemma QueueingStaysMatched(c: W.Config, s: State, due: bool)
    requires Matched(s) && forall q :: q in s.pending ==> q <= s.sequence
    ensures Matched(QueueRecoveries(c, s, due))
  {
    if s.active && due { QueueingWorksOn(c, s); }
  }

  lemma NextStaysMatched(c: W.Config, s: State, step: Step)
    requires Sound(c, s) && Matched(s)
    ensures Matched(Next(c, s, step))
  {
    hide Sound, W.Next, DrainAll, QueueRecoveries;
    match step
    case Drain(due) =>
      DrainAllStaysMatched(s);
      DrainAllKeepsSound(c, s);
      PendingAreNumbered(c, DrainAll(s));
      QueueingStaysMatched(c, DrainAll(s), due);
    case Observe(critical, content) =>
      FailingStaysMatched(s.(sequence := s.sequence + 1), s.sequence + 1, ADMISSION_REJECTED);
    case _ =>
  }

  lemma {:induction false} RunStaysMatched(c: W.Config, s: State, steps: seq<Step>)
    requires Sound(c, s) && Matched(s)
    ensures Matched(Run(c, s, steps))
    decreases |steps|
  {
    if steps != [] {
      NextStaysMatched(c, s, steps[0]);
      NextKeepsSound(c, s, steps[0]);
      RunStaysMatched(c, Next(c, s, steps[0]), steps[1..]);
    }
  }

  /** After any run, a due drain of an active actor leaves every incident that can recover with its
      recovery record under way, unless the worker refused a record during that very drain; and a
      pending recovery is always that of the incident open under its code, the only one for it. */
  lemma IncidentsAreWorkedOn(c: W.Config, steps: seq<Step>)
    requires Run(c, Initial(), steps).active
    ensures var s := Run(c, Initial(), steps); var t := Next(c, s, Drain(true));
      Matched(t) && WorkedOn(s, t, WRITE_FAILED) && WorkedOn(s, t, ADMISSION_REJECTED)
  {
    hide DrainAll, QueueRecoveries, Sound;
    var s := Run(c, Initial(), steps);
    InitialIsSound(c);
    RunKeepsSound(c, Initial(), steps);
    RunStaysMatched(c, Initial(), steps);
    DrainAllStaysMatched(s);
    DrainAllKeepsSound(c, s);
    PendingAreNumbered(c, DrainAll(s));
    DrainingKeepsActive(s);
    DrainAllIsSupported(c, s);
    QueueingWorksOn(c, DrainAll(s));
    RefusedSince(s, DrainAll(s), Next(c, s, Drain(true)));
  }

  lemma RefusedSince(s: State, mid: State, t: State)
    requires Continues(s, mid) && mid.sequence == s.sequence
    ensures Refused(mid, t) ==> Refused(s, t)
  {
  }

  // Closing

  /** A recovery record reported stored, with nothing lost since it was written, closes its incident; and
      when that was the last one and readiness was never announced, it is announced. */
  lemma StoredRecoveryCloses(s: State)
    requires Matched(s) && s.drained < |s.worker.results| && s.worker.results[s.drained].stored
    requires s.worker.results[s.drained].record.sequence in s.pending
    requires s.pending[s.worker.results[s.drained].record.sequence].lost == s.lost
    ensures var q := s.worker.results[s.drained].record.sequence; var r := s.pending[q]; var t := DrainOne(s);
      && t.failures == s.failures - {r.code}
      && t.log == s.log + [Stored(q), Recovered(r, q)]
                  + (if s.failures.Keys == {r.code} && !s.readyAnnounced && s.active then [Ready] else [])
  {
    var q := s.worker.results[s.drained].record.sequence;
    var r := s.pending[q];
    var left := s.failures - {r.code};
    assert left.Keys == s.failures.Keys - {r.code};
    if s.failures.Keys == {r.code} { assert left == map[]; }
    if left == map[] {
      forall c | c in s.failures.Keys ensures c == r.code { assert c !in left; }
      assert s.failures.Keys == {r.code};
    }
  }
}
