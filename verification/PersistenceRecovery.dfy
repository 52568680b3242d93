/** How the persistence actor reports losses, and when it may report that it has recovered. */
module PersistenceRecovery {
  import opened Prelude
  import W = PersistenceWorker

  datatype Code = WRITE_FAILED | ADMISSION_REJECTED | WORKER_TIMEOUT

  /** A recovery record on its way to the store: which incident it would close, and how many records
      were lost when it was written. */
  datatype Recovery = Recovery(code: Code, incident: int, lost: int)

  /** What happened, in order. Failed, Recovered and Ready are signals; Stored and Lost are the fates of
      records as the actor learns them. */
  datatype Fact =
    | Failed(code: Code, incident: int)
    | Recovered(recovery: Recovery, sequence: int)
    | Ready
    | Stored(sequence: int)
    | Lost(sequence: int)

  /** `incidents` numbers the incident ids handed out; `drained` of the worker's results have been read. */
  datatype State = State(
    worker: W.State,
    drained: nat,
    active: bool,
    sequence: int,
    failures: map<Code, int>,
    pending: map<int, Recovery>,
    lost: int,
    readyAnnounced: bool,
    incidents: int,
    log: seq<Fact>)

  function Initial(): State {
    State(W.Initial(), 0, true, 0, map[], map[], 0, false, 0, [])
  }

  function Tell(s: State, fact: Fact): State {
    s.(log := s.log + [fact])
  }

  function MarkLost(s: State, sequence: int): State {
    Tell(s.(lost := s.lost + 1), Lost(sequence))
  }

  function ReportFailure(s: State, code: Code): State {
    if code in s.failures then s
    else Tell(s.(failures := s.failures[code := s.incidents], incidents := s.incidents + 1), Failed(code, s.incidents))
  }

  function PublishReady(s: State): State {
    if !s.active || s.failures != map[] then s else Tell(s.(readyAnnounced := true), Ready)
  }

  /** Hand a record to the worker, or give it up. */
  function SubmitRecord(c: W.Config, s: State, record: W.Record): State {
    if W.Admits(c, s.worker, record) then s.(worker := W.Next(c, s.worker, W.Submit(record)))
    else ReportFailure(MarkLost(s, record.sequence), ADMISSION_REJECTED)
  }

  function ObserveFact(c: W.Config, s: State, critical: bool, content: Id): State {
    SubmitRecord(c, s.(sequence := s.sequence + 1), W.Record(s.sequence + 1, critical, content))
  }

  /** Read one write result. A recovery is published only for the incident that is still open and only
      when nothing more was lost since its record was written. */
  function DrainOne(s: State): State
    requires s.drained < |s.worker.results|
  {
    var result := s.worker.results[s.drained];
    var sequence := result.record.sequence;
    var t := s.(drained := s.drained + 1, pending := s.pending - {sequence});
    if !result.stored then ReportFailure(MarkLost(t, sequence), WRITE_FAILED)
    else
      var stored := Tell(t, Stored(sequence));
      if sequence in s.pending then CloseIncident(stored, s.pending[sequence], sequence) else stored
  }

  function CloseIncident(s: State, recovery: Recovery, sequence: int): State {
    if recovery.code in s.failures && s.failures[recovery.code] == recovery.incident && recovery.lost == s.lost then
      var closed := Tell(s.(failures := s.failures - {recovery.code}), Recovered(recovery, sequence));
      if closed.failures == map[] && !closed.readyAnnounced then PublishReady(closed) else closed
    else s
  }

  function DrainAll(s: State): State
    decreases |s.worker.results| - s.drained
  {
    if s.drained < |s.worker.results| then DrainAll(DrainOne(s)) else s
  }

  /** Recovery records are critical; content 0 stands for theirs. */
  function RecoveryRecord(sequence: int): W.Record {
    W.Record(sequence, true, 0)
  }

  /** Write a recovery record for one open incident; the second component tells whether to go on. */
  function QueueOne(c: W.Config, s: State, busy: set<Code>, code: Code): (State, bool) {
    if code !in s.failures || code in busy then (s, true)
    else
      var record := RecoveryRecord(s.sequence + 1);
      var t := s.(sequence := s.sequence + 1);
      if W.Admits(c, s.worker, record) then
        (t.(worker := W.Next(c, s.worker, W.Submit(record)),
            pending := s.pending[record.sequence := Recovery(code, s.failures[code], s.lost)]), true)
      else (ReportFailure(MarkLost(t, record.sequence), ADMISSION_REJECTED), false)
  }

  function PendingCodes(s: State): set<Code> {
    set q | q in s.pending :: s.pending[q].code
  }

  function QueueRecoveries(c: W.Config, s: State, due: bool): State {
    if !s.active || !due then s
    else
      var busy := PendingCodes(s);
      var (first, goOn) := QueueOne(c, s, busy, WRITE_FAILED);
      if goOn then QueueOne(c, first, busy, ADMISSION_REJECTED).0 else first
  }

  /** `due` says whether the retry backoff since the last failed attempt has passed. */
  datatype Step =
    | Observe(critical: bool, content: Id)
    | Skip
    | Drain(due: bool)
    | Announce
    | Worker(step: W.Step)
    | BeginStop
    | StopTimedOut

  function Next(c: W.Config, s: State, step: Step): State {
    match step
    case Observe(critical, content) => if s.active then ObserveFact(c, s, critical, content) else s
    case Skip => s.(sequence := s.sequence + 1)
    case Drain(due) => QueueRecoveries(c, DrainAll(s), due)
    case Announce => PublishReady(s)
    case Worker(w) => if w.Submit? then s else s.(worker := W.Next(c, s.worker, w))
    case BeginStop => s.(active := false, worker := W.Next(c, s.worker, W.Close))
    case StopTimedOut => ReportFailure(s, WORKER_TIMEOUT)
  }

  // The log

  function OpenAfter(before: map<Code, int>, fact: Fact): map<Code, int> {
    if fact.Failed? then before[fact.code := fact.incident]
    else if fact.Recovered? then before - {fact.recovery.code}
    else before
  }

  /** The incidents that are open after the facts so far. */
  function Open(log: seq<Fact>): map<Code, int> {
    if log == [] then map[] else OpenAfter(Open(log[..|log| - 1]), log[|log| - 1])
  }

  function Losses(log: seq<Fact>): nat {
    if log == [] then 0
    else Losses(log[..|log| - 1]) + (if log[|log| - 1].Lost? then 1 else 0)
  }

  /** The fact may follow `log`: a failure opens a closed incident; a recovery comes straight after its
      own record was stored, closes the open incident it names, and tells exactly how many records have
      been lost; readiness is announced only with no incident open. */
  ghost predicate Truthful(log: seq<Fact>, fact: Fact) {
    match fact
    case Failed(code, incident) => code !in Open(log)
    case Recovered(recovery, sequence) =>
      && log != [] && log[|log| - 1] == Stored(sequence)
      && recovery.code in Open(log) && Open(log)[recovery.code] == recovery.incident
      && Losses(log) == recovery.lost
    case Ready => Open(log) == map[]
    case _ => true
  }

  ghost predicate AllTruthful(log: seq<Fact>) {
    forall i :: 0 <= i < |log| ==> Truthful(log[..i], log[i])
  }

  lemma Appends(log: seq<Fact>, fact: Fact)
    ensures Losses(log + [fact]) == Losses(log) + (if fact.Lost? then 1 else 0)
    ensures Open(log + [fact]) == OpenAfter(Open(log), fact)
    ensures AllTruthful(log) && Truthful(log, fact) ==> AllTruthful(log + [fact])
  {
    var longer := log + [fact];
    assert longer[..|longer| - 1] == log;
    assert forall i :: 0 <= i < |log| ==> longer[..i] == log[..i] && longer[i] == log[i];
  }

  // Invariants

  /** The actor's own view of losses and incidents is what the log says. */
  ghost predicate LogKept(s: State) {
    && s.lost == Losses(s.log) && s.failures == Open(s.log) && AllTruthful(s.log)
    && (forall code :: code in s.failures ==> s.failures[code] < s.incidents)
    && (forall i, j :: 0 <= i < j < |s.log| && s.log[i].Failed? && s.log[j].Failed? ==>
          s.log[i].incident < s.log[j].incident)
    && (forall i :: 0 <= i < |s.log| && s.log[i].Failed? ==> s.log[i].incident < s.incidents)
  }

  /** Sequence numbers increase, so a result belongs to one record only. */
  ghost predicate Numbered(s: State) {
    && (forall i, j :: 0 <= i < j < |s.worker.accepted| ==>
          s.worker.accepted[i].sequence < s.worker.accepted[j].sequence)
    && (forall r :: r in s.worker.accepted ==> r.sequence <= s.sequence)
  }

  /** A recovery counts as pending only while its accepted record's result has not been read. */
  ghost predicate PendingUnread(s: State) {
    forall q :: q in s.pending ==> exists i ::
      s.drained <= i < |s.worker.accepted| && s.worker.accepted[i] == RecoveryRecord(q)
  }

  ghost predicate Sound(c: W.Config, s: State) {
    W.Sound(c, s.worker) && s.drained <= |s.worker.results| && LogKept(s) && Numbered(s) && PendingUnread(s)
  }

  // Preservation of the log

  lemma TellingKeepsLog(s: State, t: State, fact: Fact)
    requires LogKept(s) && Truthful(s.log, fact) && t.log == s.log + [fact]
    requires t.lost == s.lost + (if fact.Lost? then 1 else 0)
    requires t.failures == OpenAfter(s.failures, fact)
    requires fact.Failed? ==> fact.incident == s.incidents
    requires t.incidents == s.incidents + (if fact.Failed? then 1 else 0)
    ensures LogKept(t)
  {
    Appends(s.log, fact);
    assert t.failures == Open(t.log);
    assert forall i :: 0 <= i < |s.log| ==> t.log[i] == s.log[i];
  }

  lemma LosingKeepsLog(s: State, sequence: int, code: Code)
    requires LogKept(s)
    ensures LogKept(ReportFailure(MarkLost(s, sequence), code))
  {
    TellingKeepsLog(s, MarkLost(s, sequence), Lost(sequence));
    FailingKeepsLog(MarkLost(s, sequence), code);
  }

  lemma FailingKeepsLog(s: State, code: Code)
    requires LogKept(s)
    ensures LogKept(ReportFailure(s, code))
  {
    if code !in s.failures { TellingKeepsLog(s, ReportFailure(s, code), Failed(code, s.incidents)); }
  }

  lemma ReadyKeepsLog(s: State)
    requires LogKept(s)
    ensures LogKept(PublishReady(s))
  {
    if PublishReady(s) != s { TellingKeepsLog(s, PublishReady(s), Ready); }
  }

  lemma ClosingKeepsLog(s: State, recovery: Recovery, sequence: int)
    requires LogKept(s) && s.log != [] && s.log[|s.log| - 1] == Stored(sequence)
    ensures LogKept(CloseIncident(s, recovery, sequence))
  {
    if recovery.code in s.failures && s.failures[recovery.code] == recovery.incident && recovery.lost == s.lost {
      var closed := Tell(s.(failures := s.failures - {recovery.code}), Recovered(recovery, sequence));
      TellingKeepsLog(s, closed, Recovered(recovery, sequence));
      ReadyKeepsLog(closed);
    }
  }

  /** The state once one result has been taken from the worker. */
  function Read(s: State, sequence: int): State {
    s.(drained := s.drained + 1, pending := s.pending - {sequence})
  }

  lemma ReadingKeepsLog(s: State, sequence: int)
    requires LogKept(s)
    ensures LogKept(Read(s, sequence))
  {
  }

  lemma StoredKeepsLog(s: State, sequence: int)
    requires LogKept(s)
    ensures LogKept(Tell(s, Stored(sequence)))
  {
    TellingKeepsLog(s, Tell(s, Stored(sequence)), Stored(sequence));
  }

  lemma DrainOneKeepsLog(s: State)
    requires LogKept(s) && s.drained < |s.worker.results|
    ensures LogKept(DrainOne(s))
  {
    hide LogKept, CloseIncident, ReportFailure;
    var result := s.worker.results[s.drained];
    var sequence := result.record.sequence;
    var t := Read(s, sequence);
    ReadingKeepsLog(s, sequence);
    if result.stored {
      StoredKeepsLog(t, sequence);
      if sequence in s.pending { ClosingKeepsLog(Tell(t, Stored(sequence)), s.pending[sequence], sequence); }
    } else {
      LosingKeepsLog(t, sequence, WRITE_FAILED);
    }
  }

  // Preservation of the numbering

  /** Reading results and reporting leave the worker and the numbering alone. */
  ghost predicate Reads(s: State, t: State) {
    t.worker == s.worker && t.sequence == s.sequence && t.active == s.active
  }

  lemma DrainOneReads(s: State)
    requires s.drained < |s.worker.results|
    ensures var t := DrainOne(s);
      Reads(s, t) && t.drained == s.drained + 1
      && t.pending == s.pending - {s.worker.results[s.drained].record.sequence}
  {
  }

  lemma ResultsAreAccepted(c: W.Config, w: W.State)
    requires W.Sound(c, w)
    ensures |w.results| <= |w.accepted|
    ensures forall i :: 0 <= i < |w.results| ==> w.accepted[i] == w.results[i].record
  {
    var recorded := W.Recorded(w.results);
    assert w.accepted == recorded + (w.batch + W.Entries(w.queue));
    assert forall i :: 0 <= i < |recorded| ==> w.accepted[i] == recorded[i];
  }

  lemma DrainOneKeepsSound(c: W.Config, s: State)
    requires Sound(c, s) && s.drained < |s.worker.results|
    ensures Sound(c, DrainOne(s))
  {
    hide W.Sound, LogKept, DrainOne;
    var t := DrainOne(s);
    DrainOneKeepsLog(s);
    DrainOneReads(s);
    ResultsAreAccepted(c, s.worker);
    var read := s.worker.results[s.drained].record;
    forall q | q in t.pending
      ensures exists i :: t.drained <= i < |t.worker.accepted| && t.worker.accepted[i] == RecoveryRecord(q)
    {
      assert q in s.pending;
      var i :| s.drained <= i < |s.worker.accepted| && s.worker.accepted[i] == RecoveryRecord(q);
      assert s.worker.accepted[s.drained] == read;
    }
  }

  lemma {:induction false} DrainAllKeepsSound(c: W.Config, s: State)
    requires Sound(c, s)
    ensures Sound(c, DrainAll(s)) && DrainAll(s).drained == |DrainAll(s).worker.results|
    decreases |s.worker.results| - s.drained
  {
    if s.drained < |s.worker.results| {
      DrainOneKeepsSound(c, s);
      DrainOneReads(s);
      DrainAllKeepsSound(c, DrainOne(s));
    }
  }

  /** Accepting a record with the next number. */
  lemma AcceptingKeepsSound(c: W.Config, s: State, record: W.Record, pending: map<int, Recovery>)
    requires Sound(c, s) && record.sequence == s.sequence + 1 && W.Admits(c, s.worker, record)
    requires forall q :: q in pending ==> q in s.pending || record == RecoveryRecord(q)
    ensures Sound(c, s.(worker := W.Next(c, s.worker, W.Submit(record)), sequence := s.sequence + 1, pending := pending))
  {
    W.StepKeepsSound(c, s.worker, W.Submit(record));
    hide W.Sound;
    var t := s.(worker := W.Next(c, s.worker, W.Submit(record)), sequence := s.sequence + 1, pending := pending);
    var n := |s.worker.accepted|;
    assert t.worker.accepted == s.worker.accepted + [record];
    forall q | q in pending
      ensures exists i :: t.drained <= i < |t.worker.accepted| && t.worker.accepted[i] == RecoveryRecord(q)
    {
      if q in s.pending {
        var i :| s.drained <= i < n && s.worker.accepted[i] == RecoveryRecord(q);
        assert t.worker.accepted[i] == RecoveryRecord(q);
      } else {
        ResultsWithinAccepted(c, s);
        assert t.worker.accepted[n] == record;
      }
    }
  }

  lemma ResultsWithinAccepted(c: W.Config, s: State)
    requires Sound(c, s)
    ensures s.drained <= |s.worker.accepted|
  {
    ResultsAreAccepted(c, s.worker);
  }

  lemma GivingUpKeepsSound(c: W.Config, s: State, sequence: int, code: Code)
    requires Sound(c, s)
    ensures Sound(c, ReportFailure(MarkLost(s, sequence), code))
  {
    hide W.Sound, LogKept, ReportFailure, MarkLost;
    LosingKeepsLog(s, sequence, code);
    GivingUpFrame(s, sequence, code);
  }

  lemma GivingUpFrame(s: State, sequence: int, code: Code)
    ensures var t := ReportFailure(MarkLost(s, sequence), code);
      Reads(s, t) && t.drained == s.drained && t.pending == s.pending
  {
  }

  lemma SkippingKeepsSound(c: W.Config, s: State)
    requires Sound(c, s)
    ensures Sound(c, s.(sequence := s.sequence + 1))
  {
    hide W.Sound;
  }

  lemma ObserveKeepsSound(c: W.Config, s: State, critical: bool, content: Id)
    requires Sound(c, s)
    ensures Sound(c, ObserveFact(c, s, critical, content))
  {
    hide Sound, W.Admits, ReportFailure;
    var record := W.Record(s.sequence + 1, critical, content);
    if W.Admits(c, s.worker, record) {
      AcceptingKeepsSound(c, s, record, s.pending);
    } else {
      SkippingKeepsSound(c, s);
      GivingUpKeepsSound(c, s.(sequence := s.sequence + 1), record.sequence, ADMISSION_REJECTED);
    }
  }

  lemma QueueOneKeepsSound(c: W.Config, s: State, busy: set<Code>, code: Code)
    requires Sound(c, s)
    ensures Sound(c, QueueOne(c, s, busy, code).0)
  {
    hide Sound, W.Admits, ReportFailure, MarkLost;
    if code in s.failures && code !in busy {
      var record := RecoveryRecord(s.sequence + 1);
      if W.Admits(c, s.worker, record) {
        AcceptingKeepsSound(c, s, record, s.pending[record.sequence := Recovery(code, s.failures[code], s.lost)]);
      } else {
        SkippingKeepsSound(c, s);
        GivingUpKeepsSound(c, s.(sequence := s.sequence + 1), record.sequence, ADMISSION_REJECTED);
      }
    }
  }

  lemma WorkerKeepsSound(c: W.Config, s: State, w: W.Step)
    requires Sound(c, s) && !w.Submit?
    ensures Sound(c, s.(worker := W.Next(c, s.worker, w)))
  {
    hide W.Sound, W.Next;
    W.StepKeepsSound(c, s.worker, w);
    WorkerOnlyReports(c, s.worker, w);
  }

  lemma WorkerOnlyReports(c: W.Config, w: W.State, step: W.Step)
    requires !step.Submit?
    ensures W.Next(c, w, step).accepted == w.accepted && |W.Next(c, w, step).results| >= |w.results|
  {
  }

  lemma NextKeepsSound(c: W.Config, s: State, step: Step)
    requires Sound(c, s)
    ensures Sound(c, Next(c, s, step))
  {
    match step
    case Observe(critical, content) => ObserveKeepsSound(c, s, critical, content);
    case Skip => SkippingKeepsSound(c, s);
    case Drain(due) =>
      DrainAllKeepsSound(c, s);
      var drained := DrainAll(s);
      var busy := PendingCodes(drained);
      QueueOneKeepsSound(c, drained, busy, WRITE_FAILED);
      QueueOneKeepsSound(c, QueueOne(c, drained, busy, WRITE_FAILED).0, busy, ADMISSION_REJECTED);
    case Announce => AnnounceKeepsSound(c, s);
    case Worker(w) => if !w.Submit? { WorkerKeepsSound(c, s, w); }
    case BeginStop =>
      WorkerKeepsSound(c, s, W.Close);
      DeactivatingKeepsSound(c, s.(worker := W.Next(c, s.worker, W.Close)));
    case StopTimedOut => TimeoutKeepsSound(c, s);
  }

  lemma AnnounceKeepsSound(c: W.Config, s: State)
    requires Sound(c, s)
    ensures Sound(c, PublishReady(s))
  {
    hide W.Sound;
    ReadyKeepsLog(s);
  }

  lemma DeactivatingKeepsSound(c: W.Config, s: State)
    requires Sound(c, s)
    ensures Sound(c, s.(active := false))
  {
    hide W.Sound;
  }

  lemma TimeoutKeepsSound(c: W.Config, s: State)
    requires Sound(c, s)
    ensures Sound(c, ReportFailure(s, WORKER_TIMEOUT))
  {
    hide W.Sound;
    FailingKeepsLog(s, WORKER_TIMEOUT);
  }

  // Runs

  function Run(c: W.Config, s: State, steps: seq<Step>): State
    decreases |steps|
  {
    if steps == [] then s else Run(c, Next(c, s, steps[0]), steps[1..])
  }

  lemma {:induction false} RunKeepsSound(c: W.Config, s: State, steps: seq<Step>)
    requires Sound(c, s)
    ensures Sound(c, Run(c, s, steps))
    decreases |steps|
  {
    if steps != [] {
      NextKeepsSound(c, s, steps[0]);
      RunKeepsSound(c, Next(c, s, steps[0]), steps[1..]);
    }
  }

  lemma InitialIsSound(c: W.Config)
    ensures Sound(c, Initial())
  {
    W.InitialIsSound(c);
  }

  /** In every run of actor and worker, every published recovery comes straight after its own record was
      stored, closes the incident that is open under its code, and names exactly the number of records
      lost so far; failures are reported only for codes with no open incident, under ever new ids; and
      readiness is announced only with none open. */
  lemma RecoveriesAreTrue(c: W.Config, steps: seq<Step>)
    ensures var s := Run(c, Initial(), steps);
      && AllTruthful(s.log) && s.failures == Open(s.log) && s.lost == Losses(s.log)
      && forall i, j :: 0 <= i < j < |s.log| && s.log[i].Failed? && s.log[j].Failed? ==>
           s.log[i].incident < s.log[j].incident
  {
    InitialIsSound(c);
    RunKeepsSound(c, Initial(), steps);
  }
}
