/** The persistence actor as the program runs it: counters and dictionaries updated in place. */
module OperationalPersistence {
  import opened Prelude
  import opened PersistenceRecovery
  import W = PersistenceWorker

  class OperationalPersistenceActor {
    const config: W.Config
    /** What the worker's queues hold, as the actor thread finds them. */
    var worker: W.State
    var drained: nat
    var active: bool
    var sequence: int
    var failures: map<Code, int>
    var pending: map<int, Recovery>
    var lost: int
    var readyAnnounced: bool
    var incidents: int
    ghost var log: seq<Fact>

    ghost function Now(): State
      reads this
    {
      State(worker, drained, active, sequence, failures, pending, lost, readyAnnounced, incidents, log)
    }

    constructor (config: W.Config)
      ensures this.config == config && Now() == Initial()
    {
      this.config := config;
      worker, drained, active, sequence := W.Initial(), 0, true, 0;
      failures, pending, lost, readyAnnounced, incidents, log := map[], map[], 0, false, 0, [];
    }

    method MarkLost(sequence: int)
      modifies this`lost, this`log
      ensures Now() == PersistenceRecovery.MarkLost(old(Now()), sequence)
    {
      lost := lost + 1;
      log := log + [Lost(sequence)];
    }

    method ReportFailure(code: Code)
      modifies this`failures, this`incidents, this`log
      ensures Now() == PersistenceRecovery.ReportFailure(old(Now()), code)
    {
      if code in failures { return; }
      var incident := incidents;
      incidents := incidents + 1;
      failures := failures[code := incident];
      log := log + [Failed(code, incident)];
    }

    method PublishReady() returns (published: bool)
      modifies this`readyAnnounced, this`log
      ensures Now() == PersistenceRecovery.PublishReady(old(Now()))
      ensures published == (active && failures == map[])
    {
      if !active || failures != map[] { return false; }
      readyAnnounced := true;
      log := log + [Ready];
      return true;
    }

    method SubmitToWorker(record: W.Record) returns (accepted: bool)
      modifies this`worker
      ensures accepted == W.Admits(config, old(worker), record)
      ensures worker == if accepted then W.Next(config, old(worker), W.Submit(record)) else old(worker)
    {
      accepted := W.Admits(config, worker, record);
      if accepted { worker := W.Next(config, worker, W.Submit(record)); }
    }

    method ObserveFact(critical: bool, content: Id)
      requires Sound(config, Now())
      modifies this
      ensures Now() == PersistenceRecovery.ObserveFact(config, old(Now()), critical, content) && Sound(config, Now())
    {
      hide Sound;
      ObserveKeepsSound(config, Now(), critical, content);
      sequence := sequence + 1;
      var record := W.Record(sequence, critical, content);
      var accepted := SubmitToWorker(record);
      if !accepted {
        MarkLost(record.sequence);
        ReportFailure(ADMISSION_REJECTED);
      }
    }

    method CloseIncident(recovery: Recovery, sequence: int)
      modifies this
      ensures Now() == PersistenceRecovery.CloseIncident(old(Now()), recovery, sequence)
    {
      if recovery.code in failures && failures[recovery.code] == recovery.incident && recovery.lost == lost {
        failures := failures - {recovery.code};
        log := log + [Recovered(recovery, sequence)];
        if failures == map[] && !readyAnnounced {
          var published := PublishReady();
        }
      }
    }

    method DrainOne()
      requires drained < |worker.results|
      modifies this
      ensures Now() == PersistenceRecovery.DrainOne(old(Now()))
    {
      var result := worker.results[drained];
      drained := drained + 1;
      var sequence := result.record.sequence;
      var waiting := if sequence in pending then Some(pending[sequence]) else None;
      pending := pending - {sequence};
      if result.stored {
        log := log + [Stored(sequence)];
        if waiting.Some? { CloseIncident(waiting.value, sequence); }
      } else {
        MarkLost(sequence);
        ReportFailure(WRITE_FAILED);
      }
    }

    method QueueRecoveryRecords(due: bool)
      modifies this
      ensures Now() == QueueRecoveries(config, old(Now()), due)
    {
      if !active || !due { return; }
      var busy := set q | q in pending :: pending[q].code;
      assert busy == PendingCodes(Now());
      var goOn := QueueRecovery(busy, WRITE_FAILED);
      if !goOn { return; }
      goOn := QueueRecovery(busy, ADMISSION_REJECTED);
    }

    method QueueRecovery(busy: set<Code>, code: Code) returns (goOn: bool)
      modifies this
      ensures (Now(), goOn) == QueueOne(config, old(Now()), busy, code)
    {
      if code !in failures || code in busy { return true; }
      sequence := sequence + 1;
      var record := W.Record(sequence, true, 0);
      var accepted := SubmitToWorker(record);
      if accepted {
        pending := pending[record.sequence := Recovery(code, failures[code], lost)];
        return true;
      }
      MarkLost(record.sequence);
      ReportFailure(ADMISSION_REJECTED);
      return false;
    }

    method DrainResults(due: bool)
      requires Sound(config, Now())
      modifies this
      ensures Now() == Next(config, old(Now()), Drain(due)) && Sound(config, Now())
    {
      hide Sound, PersistenceRecovery.DrainOne, QueueRecoveries;
      NextKeepsSound(config, Now(), Drain(due));
      ghost var goal := DrainAll(Now());
      while drained < |worker.results|
        invariant DrainAll(Now()) == goal
        decreases |worker.results| - drained
      {
        DrainOneReads(Now());
        DrainOne();
      }
      QueueRecoveryRecords(due);
    }
  }
}
