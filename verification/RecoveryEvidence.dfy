/** A published recovery rests on evidence: the incident's own recovery record, written and reported. */
module RecoveryEvidence {
  import opened Prelude
  import opened PersistenceRecovery
  import W = PersistenceWorker

  /** Some result already read reports the recovery record with this number as stored. */
  ghost predicate Written(s: State, sequence: int) {
    exists k :: 0 <= k < s.drained <= |s.worker.results| && s.worker.results[k].stored
      && s.worker.results[k].record == RecoveryRecord(sequence)
  }

  /** The recovery waits for the record with this number. */
  ghost predicate Awaited(s: State, recovery: Recovery, sequence: int) {
    sequence in s.pending && s.pending[sequence] == recovery
  }

  /** Nothing reported or read before is taken back. */
  ghost predicate Continues(s: State, t: State) {
    && s.log <= t.log && s.drained <= t.drained && s.worker.results <= t.worker.results
  }

  /** Every recovery published from `s` to `t` was awaited in `s` and its record is written in `t`. */
  ghost predicate Supported(s: State, t: State) {
    forall i :: |s.log| <= i < |t.log| && t.log[i].Recovered? ==>
      Awaited(s, t.log[i].recovery, t.log[i].sequence) && Written(t, t.log[i].sequence)
  }

  /** No recovery is published from `s` to `t`. */
  ghost predicate Silent(s: State, t: State) {
    forall i :: |s.log| <= i < |t.log| ==> !t.log[i].Recovered?
  }

  // Reading results

  /** The result about to be read is the one its pending recovery waits for. */
  lemma ReadRecordIsAwaited(c: W.Config, s: State)
    requires Sound(c, s) && s.drained < |s.worker.results|
    requires s.worker.results[s.drained].record.sequence in s.pending
    ensures s.worker.results[s.drained].record == RecoveryRecord(s.worker.results[s.drained].record.sequence)
  {
    hide W.Sound, LogKept;
    ResultsAreAccepted(c, s.worker);
    var q := s.worker.results[s.drained].record.sequence;
    var i :| s.drained <= i < |s.worker.accepted| && s.worker.accepted[i] == RecoveryRecord(q);
    assert s.worker.accepted[s.drained].sequence == q;
  }

  lemma ClosingPublishesOne(s: State, recovery: Recovery, sequence: int)
    ensures var t := CloseIncident(s, recovery, sequence);
      && s.log <= t.log && t.worker == s.worker && t.drained == s.drained && t.pending == s.pending
      && forall i :: |s.log| <= i < |t.log| && t.log[i].Recovered? ==> t.log[i] == Recovered(recovery, sequence)
  {
  }

  lemma ReportingIsSilent(s: State, sequence: int, code: Code)
    ensures var t := ReportFailure(MarkLost(s, sequence), code);
      && s.log <= t.log && Silent(s, t) && t.worker == s.worker && t.drained == s.drained && t.pending == s.pending
  {
  }

  lemma DrainOneIsSupported(c: W.Config, s: State)
    requires Sound(c, s) && s.drained < |s.worker.results|
    ensures Supported(s, DrainOne(s)) && Continues(s, DrainOne(s))
  {
    hide Sound, CloseIncident, ReportFailure, MarkLost;
    var t := DrainOne(s);
    var result := s.worker.results[s.drained];
    var q := result.record.sequence;
    var read := Read(s, q);
    if !result.stored {
      ReportingIsSilent(read, q, WRITE_FAILED);
    } else if q in s.pending {
      ReadRecordIsAwaited(c, s);
      ClosingPublishesOne(Tell(read, Stored(q)), s.pending[q], q);
      assert t.worker.results[s.drained].record == RecoveryRecord(q);
      assert Written(t, q);
    }
  }

  lemma {:induction false} DrainAllIsSupported(c: W.Config, s: State)
    requires Sound(c, s)
    ensures Supported(s, DrainAll(s)) && Continues(s, DrainAll(s))
    decreases |s.worker.results| - s.drained
  {
    hide DrainOne, Sound;
    assert s.drained <= |s.worker.results| by { Readable(c, s); }
    if s.drained < |s.worker.results| {
      var next := DrainOne(s);
      DrainOneKeepsSound(c, s);
      DrainOneReads(s);
      DrainOneIsSupported(c, s);
      DrainAllIsSupported(c, next);
      DrainAllKeepsSound(c, s);
      Readable(c, DrainAll(s));
      SupportComposes(s, next, DrainAll(s));
    }
  }

  lemma Readable(c: W.Config, s: State)
    requires Sound(c, s)
    ensures s.drained <= |s.worker.results|
  {
  }

  lemma SupportComposes(s: State, next: State, t: State)
    requires Supported(s, next) && Supported(next, t) && Continues(s, next) && Continues(next, t)
    requires forall q :: q in next.pending ==> q in s.pending && next.pending[q] == s.pending[q]
    requires t.drained <= |t.worker.results|
    ensures Supported(s, t) && Continues(s, t)
  {
    WrittenStays(next, t);
  }

  lemma WrittenStays(s: State, t: State)
    requires Continues(s, t) && t.drained <= |t.worker.results|
    ensures forall q :: Written(s, q) ==> Written(t, q)
  {
    forall q | Written(s, q) ensures Written(t, q) {
      var k :| 0 <= k < s.drained <= |s.worker.results| && s.worker.results[k].stored
        && s.worker.results[k].record == RecoveryRecord(q);
      assert t.worker.results[k] == s.worker.results[k];
    }
  }

  // The other steps

  lemma SilentSupports(s: State, t: State, u: State)
    requires Supported(s, t) && Silent(t, u) && Continues(s, t) && Continues(t, u)
    requires u.drained <= |u.worker.results|
    ensures Supported(s, u) && Continues(s, u)
  {
    WrittenStays(t, u);
  }

  lemma NothingIsSupported(s: State, t: State)
    requires Silent(s, t) && Continues(s, t)
    ensures Supported(s, t)
  {
  }

  lemma QueueOneIsSilent(c: W.Config, s: State, busy: set<Code>, code: Code)
    ensures Silent(s, QueueOne(c, s, busy, code).0) && Continues(s, QueueOne(c, s, busy, code).0)
  {
  }

  lemma QueueingIsSilent(c: W.Config, s: State, due: bool)
    ensures Silent(s, QueueRecoveries(c, s, due)) && Continues(s, QueueRecoveries(c, s, due))
  {
    hide QueueOne;
    var busy := PendingCodes(s);
    QueueOneIsSilent(c, s, busy, WRITE_FAILED);
    QueueOneIsSilent(c, QueueOne(c, s, busy, WRITE_FAILED).0, busy, ADMISSION_REJECTED);
  }

  lemma WorkerAddsResults(c: W.Config, w: W.State, step: W.Step)
    ensures w.results <= W.Next(c, w, step).results
  {
  }

  lemma OthersAreSilent(c: W.Config, s: State, step: Step)
    requires !step.Drain?
    ensures Silent(s, Next(c, s, step)) && Continues(s, Next(c, s, step))
  {
    hide W.Next;
    match step
    case Worker(w) => WorkerAddsResults(c, s.worker, w);
    case BeginStop => WorkerAddsResults(c, s.worker, W.Close);
    case Observe(critical, content) =>
      WorkerAddsResults(c, s.worker, W.Submit(W.Record(s.sequence + 1, critical, content)));
    case _ =>
  }

  lemma NextIsSupported(c: W.Config, s: State, step: Step)
    requires Sound(c, s)
    ensures Supported(s, Next(c, s, step)) && Continues(s, Next(c, s, step))
  {
    hide Sound, DrainAll, QueueRecoveries;
    NextKeepsSound(c, s, step);
    Readable(c, Next(c, s, step));
    match step
    case Drain(due) =>
      DrainAllIsSupported(c, s);
      QueueingIsSilent(c, DrainAll(s), due);
      SilentSupports(s, DrainAll(s), Next(c, s, step));
    case _ =>
      OthersAreSilent(c, s, step);
      NothingIsSupported(s, Next(c, s, step));
  }

  // Runs

  /** At some point of the run the recovery waited for the record with this number. */
  ghost predicate WasAwaited(c: W.Config, s: State, steps: seq<Step>, recovery: Recovery, sequence: int) {
    exists n :: 0 <= n <= |steps| && Awaited(Run(c, s, steps[..n]), recovery, sequence)
  }

  lemma AwaitedLater(c: W.Config, s: State, steps: seq<Step>, recovery: Recovery, sequence: int)
    requires steps != [] && WasAwaited(c, Next(c, s, steps[0]), steps[1..], recovery, sequence)
    ensures WasAwaited(c, s, steps, recovery, sequence)
  {
    hide Next;
    var rest := steps[1..];
    var n :| 0 <= n <= |rest| && Awaited(Run(c, Next(c, s, steps[0]), rest[..n]), recovery, sequence);
    assert steps[..n + 1][1..] == rest[..n];
    assert Awaited(Run(c, s, steps[..n + 1]), recovery, sequence);
  }

  lemma AwaitedNow(c: W.Config, s: State, steps: seq<Step>, recovery: Recovery, sequence: int)
    requires Awaited(s, recovery, sequence)
    ensures WasAwaited(c, s, steps, recovery, sequence)
  {
    assert Run(c, s, steps[..0]) == s;
  }

  /** What a run publishes as recovered: each was awaited at some point, and its record is written. */
  ghost predicate AllSupported(c: W.Config, s: State, steps: seq<Step>) {
    var end := Run(c, s, steps);
    forall i :: |s.log| <= i < |end.log| && end.log[i].Recovered? ==>
      && WasAwaited(c, s, steps, end.log[i].recovery, end.log[i].sequence)
      && Written(end, end.log[i].sequence)
  }

  lemma {:induction false} RunIsSupported(c: W.Config, s: State, steps: seq<Step>)
    requires Sound(c, s)
    ensures AllSupported(c, s, steps) && Continues(s, Run(c, s, steps))
    ensures var end := Run(c, s, steps); end.drained <= |end.worker.results|
    decreases |steps|
  {
    hide Sound, Next;
    if steps == [] {
      Readable(c, s);
    } else {
      var next, end := Next(c, s, steps[0]), Run(c, s, steps);
      NextIsSupported(c, s, steps[0]);
      NextKeepsSound(c, s, steps[0]);
      RunIsSupported(c, next, steps[1..]);
      WrittenStays(next, end);
      forall i | |s.log| <= i < |end.log| && end.log[i].Recovered?
        ensures WasAwaited(c, s, steps, end.log[i].recovery, end.log[i].sequence)
        ensures Written(end, end.log[i].sequence)
      {
        if i < |next.log| {
          assert end.log[i] == next.log[i];
          AwaitedNow(c, s, steps, end.log[i].recovery, end.log[i].sequence);
        } else {
          AwaitedLater(c, s, steps, end.log[i].recovery, end.log[i].sequence);
        }
      }
    }
  }

  /** In every run, each recovery told has the record it was awaiting among the results read, stored; and
      results are those of accepted records. */
  lemma RecoveriesAreWritten(c: W.Config, steps: seq<Step>)
    ensures var s := Run(c, Initial(), steps);
      forall i :: 0 <= i < |s.log| && s.log[i].Recovered? ==>
        && WasAwaited(c, Initial(), steps, s.log[i].recovery, s.log[i].sequence)
        && Written(s, s.log[i].sequence) && RecoveryRecord(s.log[i].sequence) in s.worker.accepted
  {
    InitialIsSound(c);
    RunIsSupported(c, Initial(), steps);
    RunKeepsSound(c, Initial(), steps);
    var s := Run(c, Initial(), steps);
    ResultsAreAccepted(c, s.worker);
    forall q | Written(s, q) ensures RecoveryRecord(q) in s.worker.accepted {
      var k :| 0 <= k < s.drained <= |s.worker.results| && s.worker.results[k].record == RecoveryRecord(q);
      assert s.worker.accepted[k] == RecoveryRecord(q);
    }
  }
}
