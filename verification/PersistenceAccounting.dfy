/** No record is lost track of: every number the actor gave out is with the worker or has met its fate,
    exactly once. */
module PersistenceAccounting {
  import opened Prelude
  import opened PersistenceRecovery
  import W = PersistenceWorker

  /** The number whose fate the fact tells. */
  function Fate(fact: Fact): Option<int> {
    match fact
    case Stored(sequence) => Some(sequence)
    case Lost(sequence) => Some(sequence)
    case _ => None
  }

  ghost predicate Told(log: seq<Fact>, n: int) {
    exists j :: 0 <= j < |log| && Fate(log[j]) == Some(n)
  }

  /** The record numbered `n` was accepted and its result has not been read. */
  ghost predicate WithWorker(s: State, n: int) {
    exists i :: 0 <= s.drained <= i < |s.worker.accepted| && s.worker.accepted[i].sequence == n
  }

  ghost predicate ToldOnce(log: seq<Fact>) {
    forall j, k :: 0 <= j < k < |log| && Fate(log[j]).Some? ==> Fate(log[j]) != Fate(log[k])
  }

  /** Every number given out and not skipped is with the worker, or its fate was told, not both; fates
      are told once, and of no other number. */
  ghost predicate Accounted(s: State, skipped: set<int>) {
    && (forall n :: 1 <= n <= s.sequence && n !in skipped ==> WithWorker(s, n) || Told(s.log, n))
    && (forall n :: WithWorker(s, n) ==> 1 <= n <= s.sequence && n !in skipped && !Told(s.log, n))
    && (forall n :: Told(s.log, n) ==> 1 <= n <= s.sequence && n !in skipped)
    && ToldOnce(s.log) && 0 <= s.sequence && forall n :: n in skipped ==> 1 <= n <= s.sequence
  }

  /** The facts tell of no fate. */
  ghost predicate Fateless(facts: seq<Fact>) {
    forall j :: 0 <= j < |facts| ==> Fate(facts[j]).None?
  }

  lemma ToldAppends(log: seq<Fact>, more: seq<Fact>, n: int)
    ensures Told(log + more, n) <==> Told(log, n) || Told(more, n)
  {
    if Told(log, n) {
      var j :| 0 <= j < |log| && Fate(log[j]) == Some(n);
      assert (log + more)[j] == log[j];
    }
    if Told(more, n) {
      var j :| 0 <= j < |more| && Fate(more[j]) == Some(n);
      assert (log + more)[|log| + j] == more[j];
    }
  }

  lemma FatelessTellsNothing(log: seq<Fact>, more: seq<Fact>)
    requires Fateless(more)
    ensures forall n :: Told(log + more, n) <==> Told(log, n)
    ensures ToldOnce(log) ==> ToldOnce(log + more)
  {
    forall n ensures Told(log + more, n) <==> Told(log, n) { ToldAppends(log, more, n); }
    if ToldOnce(log) {
      forall j, k | 0 <= j < k < |log + more| && Fate((log + more)[j]).Some?
        ensures Fate((log + more)[j]) != Fate((log + more)[k])
      {
        assert k >= |log| ==> Fate((log + more)[k]).None?;
      }
    }
  }

  lemma OneFate(log: seq<Fact>, fact: Fact, more: seq<Fact>)
    requires ToldOnce(log) && Fate(fact).Some? && !Told(log, Fate(fact).value) && Fateless(more)
    ensures ToldOnce(log + [fact] + more)
    ensures forall n :: Told(log + [fact] + more, n) <==> Told(log, n) || n == Fate(fact).value
  {
    assert [fact][0] == fact;
    forall n ensures Told(log + [fact], n) <==> Told(log, n) || n == Fate(fact).value { ToldAppends(log, [fact], n); }
    forall j, k | 0 <= j < k < |log + [fact]| && Fate((log + [fact])[j]).Some?
      ensures Fate((log + [fact])[j]) != Fate((log + [fact])[k])
    {
      assert k == |log| ==> Fate(log[j]) != Fate(fact);
    }
    FatelessTellsNothing(log + [fact], more);
  }

  // Moves

  lemma NothingMoves(s: State, t: State, skipped: set<int>, more: seq<Fact>)
    requires Accounted(s, skipped) && Fateless(more) && t.log == s.log + more
    requires t.sequence == s.sequence && t.drained == s.drained && t.worker.accepted == s.worker.accepted
    ensures Accounted(t, skipped)
  {
    FatelessTellsNothing(s.log, more);
    assert forall n :: WithWorker(t, n) <==> WithWorker(s, n);
  }

  lemma SkippingMoves(s: State, skipped: set<int>)
    requires Accounted(s, skipped)
    ensures Accounted(s.(sequence := s.sequence + 1), skipped + {s.sequence + 1})
  {
    var t := s.(sequence := s.sequence + 1);
    assert forall n :: WithWorker(t, n) <==> WithWorker(s, n);
  }

  lemma AcceptingMoves(s: State, t: State, skipped: set<int>, record: W.Record)
    requires Accounted(s, skipped) && record.sequence == s.sequence + 1 && 0 <= s.drained <= |s.worker.accepted|
    requires t.sequence == s.sequence + 1 && t.log == s.log && t.drained == s.drained
    requires t.worker.accepted == s.worker.accepted + [record]
    ensures Accounted(t, skipped)
  {
    forall n ensures WithWorker(t, n) <==> WithWorker(s, n) || n == record.sequence {
      if WithWorker(s, n) {
        var i :| s.drained <= i < |s.worker.accepted| && s.worker.accepted[i].sequence == n;
        assert t.worker.accepted[i] == s.worker.accepted[i];
      }
      assert t.worker.accepted[|s.worker.accepted|] == record;
    }
  }

  lemma LosingMoves(s: State, t: State, skipped: set<int>, more: seq<Fact>)
    requires Accounted(s, skipped) && Fateless(more)
    requires t.log == s.log + [Lost(s.sequence + 1)] + more && t.sequence == s.sequence + 1
    requires t.drained == s.drained && t.worker.accepted == s.worker.accepted
    ensures Accounted(t, skipped)
  {
    OneFate(s.log, Lost(s.sequence + 1), more);
    assert forall n :: WithWorker(t, n) <==> WithWorker(s, n);
  }

  lemma ReadingMoves(s: State, t: State, skipped: set<int>, fact: Fact, more: seq<Fact>)
    requires Accounted(s, skipped) && Numbered(s) && Fateless(more)
    requires 0 <= s.drained < |s.worker.accepted| && Fate(fact) == Some(s.worker.accepted[s.drained].sequence)
    requires t.log == s.log + [fact] + more && t.sequence == s.sequence
    requires t.drained == s.drained + 1 && t.worker.accepted == s.worker.accepted
    ensures Accounted(t, skipped)
  {
    var read := s.worker.accepted[s.drained].sequence;
    assert WithWorker(s, read);
    OneFate(s.log, fact, more);
    forall n ensures WithWorker(t, n) <==> WithWorker(s, n) && n != read {
      if WithWorker(s, n) && n != read {
        var i :| s.drained <= i < |s.worker.accepted| && s.worker.accepted[i].sequence == n;
        assert i > s.drained;
      }
    }
  }

  // Steps

  /** What reporting a failure adds to the log. */
  function FailureFacts(s: State, code: Code): seq<Fact> {
    if code in s.failures then [] else [Failed(code, s.incidents)]
  }

  lemma ReportingAdds(s: State, code: Code)
    ensures var t := ReportFailure(s, code);
      && t.log == s.log + FailureFacts(s, code) && Fateless(FailureFacts(s, code))
      && t.sequence == s.sequence && t.drained == s.drained && t.worker == s.worker
  {
  }

  /** What closing an incident adds to the log. */
  lemma ClosingAdds(s: State, recovery: Recovery, sequence: int)
    ensures var t := CloseIncident(s, recovery, sequence);
      && t.sequence == s.sequence && t.drained == s.drained && t.worker == s.worker
      && s.log <= t.log && Fateless(t.log[|s.log|..])
  {
  }

  lemma GivingUpMoves(s: State, skipped: set<int>, code: Code)
    requires Accounted(s, skipped)
    ensures Accounted(ReportFailure(MarkLost(s.(sequence := s.sequence + 1), s.sequence + 1), code), skipped)
  {
    hide ReportFailure, Accounted, Fateless;
    var lost := MarkLost(s.(sequence := s.sequence + 1), s.sequence + 1);
    ReportingAdds(lost, code);
    LosingMoves(s, ReportFailure(lost, code), skipped, FailureFacts(lost, code));
  }

  lemma WorkerAccepts(c: W.Config, w: W.State, record: W.Record)
    requires W.Admits(c, w, record)
    ensures W.Next(c, w, W.Submit(record)).accepted == w.accepted + [record]
  {
  }

  lemma SubmittingMoves(c: W.Config, s: State, skipped: set<int>, record: W.Record, pending: map<int, Recovery>)
    requires Accounted(s, skipped) && 0 <= s.drained <= |s.worker.accepted|
    requires record.sequence == s.sequence + 1 && W.Admits(c, s.worker, record)
    ensures Accounted(s.(sequence := s.sequence + 1, worker := W.Next(c, s.worker, W.Submit(record)), pending := pending),
                      skipped)
  {
    hide Accounted, W.Next, W.Admits;
    WorkerAccepts(c, s.worker, record);
    AcceptingMoves(
      s, s.(sequence := s.sequence + 1, worker := W.Next(c, s.worker, W.Submit(record)), pending := pending), skipped,
      record);
  }

  lemma ObservingMoves(c: W.Config, s: State, skipped: set<int>, critical: bool, content: Id)
    requires Accounted(s, skipped) && 0 <= s.drained <= |s.worker.accepted|
    ensures Accounted(ObserveFact(c, s, critical, content), skipped)
  {
    hide Accounted, W.Next, W.Admits, ReportFailure, MarkLost;
    var record := W.Record(s.sequence + 1, critical, content);
    if W.Admits(c, s.worker, record) {
      SubmittingMoves(c, s, skipped, record, s.pending);
    } else {
      GivingUpMoves(s, skipped, ADMISSION_REJECTED);
    }
  }

  lemma QueueOneMoves(c: W.Config, s: State, skipped: set<int>, busy: set<Code>, code: Code)
    requires Accounted(s, skipped) && 0 <= s.drained <= |s.worker.accepted|
    ensures Accounted(QueueOne(c, s, busy, code).0, skipped)
  {
    hide Accounted, W.Next, W.Admits, ReportFailure, MarkLost;
    var record := RecoveryRecord(s.sequence + 1);
    if code in s.failures && code !in busy {
      if W.Admits(c, s.worker, record) {
        SubmittingMoves(c, s, skipped, record, s.pending[record.sequence := Recovery(code, s.failures[code], s.lost)]);
      } else {
        GivingUpMoves(s, skipped, ADMISSION_REJECTED);
      }
    }
  }

  lemma ReadingOneMoves(c: W.Config, s: State, skipped: set<int>)
    requires Sound(c, s) && Accounted(s, skipped) && s.drained < |s.worker.results|
    ensures Accounted(DrainOne(s), skipped)
  {
    ResultsAreAccepted(c, s.worker);
    hide W.Sound, LogKept, PendingUnread, Accounted, ReportFailure, CloseIncident, Fateless, Numbered;
    var result := s.worker.results[s.drained];
    var q := result.record.sequence;
    var read := Read(s, q);
    var t := DrainOne(s);
    if !result.stored {
      ReportingAdds(MarkLost(read, q), WRITE_FAILED);
      ReadingMoves(s, t, skipped, Lost(q), FailureFacts(MarkLost(read, q), WRITE_FAILED));
    } else if q in s.pending {
      var stored := Tell(read, Stored(q));
      ClosingAdds(stored, s.pending[q], q);
      assert t.log == s.log + [Stored(q)] + t.log[|stored.log|..];
      ReadingMoves(s, t, skipped, Stored(q), t.log[|stored.log|..]);
    } else {
      NoFacts();
      assert t.log == s.log + [Stored(q)] + [];
      ReadingMoves(s, t, skipped, Stored(q), []);
    }
  }

  lemma NoFacts()
    ensures Fateless([])
  {
  }

  lemma {:induction false} DrainingMoves(c: W.Config, s: State, skipped: set<int>)
    requires Sound(c, s) && Accounted(s, skipped)
    ensures Accounted(DrainAll(s), skipped)
    decreases |s.worker.results| - s.drained
  {
    if s.drained < |s.worker.results| {
      ReadingOneMoves(c, s, skipped);
      DrainOneKeepsSound(c, s);
      DrainOneReads(s);
      hide Accounted, DrainOne, Sound;
      DrainingMoves(c, DrainOne(s), skipped);
    }
  }

  lemma QueueingMoves(c: W.Config, s: State, skipped: set<int>, due: bool)
    requires Sound(c, s) && Accounted(s, skipped)
    ensures Accounted(QueueRecoveries(c, s, due), skipped)
  {
    hide Accounted, QueueOne, Sound;
    ResultsWithinAccepted(c, s);
    var busy := PendingCodes(s);
    QueueOneMoves(c, s, skipped, busy, WRITE_FAILED);
    QueueOneKeepsSound(c, s, busy, WRITE_FAILED);
    var first := QueueOne(c, s, busy, WRITE_FAILED).0;
    ResultsWithinAccepted(c, first);
    QueueOneMoves(c, first, skipped, busy, ADMISSION_REJECTED);
  }

  /** The numbers a step skips. */
  function SkippedBy(s: State, step: Step): set<int> {
    if step.Skip? then {s.sequence + 1} else {}
  }

  lemma QuietMoves(c: W.Config, s: State, skipped: set<int>, step: Step)
    requires Accounted(s, skipped) && (step.Announce? || step.Worker? || step.BeginStop? || step.StopTimedOut?)
    ensures Accounted(Next(c, s, step), skipped)
  {
    hide Accounted, W.Next, ReportFailure, Fateless;
    var t := Next(c, s, step);
    match step
    case Worker(w) =>
      if !w.Submit? { WorkerOnlyReports(c, s.worker, w); }
      NoFacts();
      assert t.log == s.log + [];
      NothingMoves(s, t, skipped, []);
    case BeginStop =>
      WorkerOnlyReports(c, s.worker, W.Close);
      NoFacts();
      assert t.log == s.log + [];
      NothingMoves(s, t, skipped, []);
    case StopTimedOut =>
      ReportingAdds(s, WORKER_TIMEOUT);
      NothingMoves(s, t, skipped, FailureFacts(s, WORKER_TIMEOUT));
    case Announce =>
      ReadyTellsNothing();
      NoFacts();
      assert s.log + [] == s.log;
      NothingMoves(s, t, skipped, if t.log == s.log then [] else [Ready]);
  }

  lemma ReadyTellsNothing()
    ensures Fateless([Ready])
  {
  }

  lemma NextMoves(c: W.Config, s: State, skipped: set<int>, step: Step)
    requires Sound(c, s) && Accounted(s, skipped)
    ensures Accounted(Next(c, s, step), skipped + SkippedBy(s, step))
  {
    assert skipped + {} == skipped;
    hide Accounted, Sound, ObserveFact, QueueRecoveries, DrainAll;
    match step
    case Observe(critical, content) =>
      ResultsWithinAccepted(c, s);
      ObservingMoves(c, s, skipped, critical, content);
    case Skip => SkippingMoves(s, skipped);
    case Drain(due) =>
      DrainingMoves(c, s, skipped);
      DrainAllKeepsSound(c, s);
      QueueingMoves(c, DrainAll(s), skipped, due);
    case _ => QuietMoves(c, s, skipped, step);
  }

  // Runs

  function Skipped(c: W.Config, s: State, steps: seq<Step>): set<int>
    decreases |steps|
  {
    if steps == [] then {} else SkippedBy(s, steps[0]) + Skipped(c, Next(c, s, steps[0]), steps[1..])
  }

  lemma {:induction false} RunMoves(c: W.Config, s: State, skipped: set<int>, steps: seq<Step>)
    requires Sound(c, s) && Accounted(s, skipped)
    ensures Accounted(Run(c, s, steps), skipped + Skipped(c, s, steps))
    decreases |steps|
  {
    hide Accounted, Sound, Next;
    if steps == [] {
      assert skipped + {} == skipped;
    } else {
      NextMoves(c, s, skipped, steps[0]);
      NextKeepsSound(c, s, steps[0]);
      RunMoves(c, Next(c, s, steps[0]), skipped + SkippedBy(s, steps[0]), steps[1..]);
      assert skipped + SkippedBy(s, steps[0]) + Skipped(c, Next(c, s, steps[0]), steps[1..])
          == skipped + Skipped(c, s, steps);
    }
  }

  lemma InitialIsAccounted()
    ensures Accounted(Initial(), {})
  {
  }

  /** In every run each number the actor gave out to a record is either with the worker or has met its
      fate, and not both; no fate is told twice, and none of a number that had no record. */
  lemma EveryRecordIsAccountedFor(c: W.Config, steps: seq<Step>)
    ensures Accounted(Run(c, Initial(), steps), Skipped(c, Initial(), steps))
  {
    InitialIsSound(c);
    InitialIsAccounted();
    hide Accounted, Sound, Run, Skipped;
    RunMoves(c, Initial(), {}, steps);
    assert {} + Skipped(c, Initial(), steps) == Skipped(c, Initial(), steps);
  }

  /** Once the writer has gone and every result was read, nothing is with the worker any more. */
  lemma FinishedIsSettled(c: W.Config, steps: seq<Step>, n: int)
    requires var s := Run(c, Initial(), steps);
      s.worker.thread == W.Finished && s.drained == |s.worker.results| && 1 <= n <= s.sequence
    requires n !in Skipped(c, Initial(), steps)
    ensures Told(Run(c, Initial(), steps).log, n)
  {
    var s := Run(c, Initial(), steps);
    EveryRecordIsAccountedFor(c, steps);
    InitialIsSound(c);
    RunKeepsSound(c, Initial(), steps);
    GoneMeansReported(c, s.worker);
  }

  lemma GoneMeansReported(c: W.Config, w: W.State)
    requires W.Sound(c, w) && w.thread == W.Finished
    ensures |w.accepted| == |w.results|
  {
    W.RunKeepsSound(c, w, []);
  }
}
