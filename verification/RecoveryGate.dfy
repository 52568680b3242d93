/** The persistence actor and system control together: while a persistence incident is open, as far as
    its signals have arrived, the system is not READY. */
module RecoveryGate {
  import opened Prelude
  import opened PersistenceRecovery
  import H = SystemHealth

  /** Signals arrive in the order they were published, among any others. */
  datatype Arrival = FromPersistence(fact: Fact) | Elsewhere(input: H.Input)

  function CodeId(code: Code): Id {
    match code
    case WRITE_FAILED => 0
    case ADMISSION_REJECTED => 1
    case WORKER_TIMEOUT => 2
  }

  ghost predicate Foreign(config: H.Config, input: H.Input) {
    (input.Failure? || input.Recovery?) ==> input.component != config.persistence
  }

  function Signal(config: H.Config, fact: Fact): H.Input {
    match fact
    case Failed(code, incident) => H.Failure(config.persistence, CodeId(code), Some(config.runId), Some(incident))
    case Recovered(recovery, _) =>
      H.Recovery(config.persistence, CodeId(recovery.code), Some(config.runId), Some(recovery.incident))
    case Ready => H.PersistenceReady(config.persistenceActor, config.runId)
    case _ => H.Malformed
  }

  function InputOf(config: H.Config, arrival: Arrival): H.Input {
    match arrival
    case FromPersistence(fact) => Signal(config, fact)
    case Elsewhere(input) => input
  }

  function Facts(arrivals: seq<Arrival>): seq<Fact> {
    if arrivals == [] then []
    else
      var before := Facts(arrivals[..|arrivals| - 1]);
      var last := arrivals[|arrivals| - 1];
      if last.FromPersistence? then before + [last.fact] else before
  }

  ghost function Control(config: H.Config, arrivals: seq<Arrival>): H.State {
    if arrivals == [] then H.Initial()
    else
      var before := Control(config, arrivals[..|arrivals| - 1]);
      var input := InputOf(config, arrivals[|arrivals| - 1]);
      if H.Possible(before, input) then H.Handle(config, before, input).state else before
  }

  /** The persistence failures that control holds are exactly the incidents open in what arrived. */
  ghost predicate Mirrors(config: H.Config, s: H.State, open: map<Code, int>) {
    forall code: Code ::
      var key := H.FailureKey(config.persistence, CodeId(code));
      (key in s.failures <==> code in open) && (code in open ==> s.failures[key] == Some(open[code]))
  }

  /** The failure policy covers persistence, which is one of the run-scoped components. */
  ghost predicate Watches(config: H.Config) {
    config.persistence in config.rules && config.persistence in config.runScoped
  }

  lemma CodesDiffer(a: Code, b: Code)
    ensures CodeId(a) == CodeId(b) ==> a == b
  {
  }

  lemma FailureIsMirrored(config: H.Config, s: H.State, open: map<Code, int>, code: Code, incident: int)
    requires Watches(config) && Mirrors(config, s, open)
    ensures Mirrors(config, H.Handle(config, s, Signal(config, Failed(code, incident))).state,
                    OpenAfter(open, Failed(code, incident)))
  {
    forall other: Code { CodesDiffer(other, code); }
  }

  lemma RecoveryIsMirrored(config: H.Config, s: H.State, open: map<Code, int>, recovery: Recovery, sequence: int)
    requires Mirrors(config, s, open) && recovery.code in open && open[recovery.code] == recovery.incident
    ensures Mirrors(config, H.Handle(config, s, Signal(config, Recovered(recovery, sequence))).state,
                    OpenAfter(open, Recovered(recovery, sequence)))
  {
    forall other: Code { CodesDiffer(other, recovery.code); }
    var key := H.FailureKey(config.persistence, CodeId(recovery.code));
    assert key in s.failures && s.failures[key] == Some(recovery.incident);
  }

  lemma OthersAreMirrored(config: H.Config, s: H.State, open: map<Code, int>, input: H.Input)
    requires Mirrors(config, s, open) && Foreign(config, input)
    ensures Mirrors(config, H.Handle(config, s, input).state, open)
  {
  }

  lemma ArrivalIsMirrored(config: H.Config, s: H.State, log: seq<Fact>, arrival: Arrival)
    requires Watches(config) && Mirrors(config, s, Open(log)) && H.Possible(s, InputOf(config, arrival))
    requires arrival.Elsewhere? ==> Foreign(config, arrival.input)
    requires arrival.FromPersistence? ==> Truthful(log, arrival.fact)
    ensures Mirrors(config, H.Handle(config, s, InputOf(config, arrival)).state,
                    Open(if arrival.FromPersistence? then log + [arrival.fact] else log))
  {
    hide Mirrors;
    match arrival
    case Elsewhere(input) => OthersAreMirrored(config, s, Open(log), input);
    case FromPersistence(fact) =>
      Appends(log, fact);
      match fact
      case Failed(code, incident) => FailureIsMirrored(config, s, Open(log), code, incident);
      case Recovered(recovery, sequence) => RecoveryIsMirrored(config, s, Open(log), recovery, sequence);
      case _ => OthersAreMirrored(config, s, Open(log), Signal(config, fact));
  }

  /** Whatever else arrives in between: control's gates stay honest, its persistence failures are the
      open incidents, and it is READY only when no persistence incident is open. */
  lemma {:induction false} ReadyMeansNoOpenIncident(config: H.Config, arrivals: seq<Arrival>)
    requires Watches(config) && AllTruthful(Facts(arrivals))
    requires forall a :: a in arrivals && a.Elsewhere? ==> Foreign(config, a.input)
    ensures var s := Control(config, arrivals);
      && H.GateInv(s) && Mirrors(config, s, Open(Facts(arrivals)))
      && (s.health == Some(H.READY) ==> Open(Facts(arrivals)) == map[])
    decreases |arrivals|
  {
    if arrivals != [] {
      var earlier := arrivals[..|arrivals| - 1];
      var last := arrivals[|arrivals| - 1];
      var log := Facts(earlier);
      EarlierIsTruthful(arrivals);
      assert last in arrivals && forall a :: a in earlier ==> a in arrivals;
      ReadyMeansNoOpenIncident(config, earlier);
      var before := Control(config, earlier);
      var input := InputOf(config, last);
      assert H.Possible(before, input) || last == Elsewhere(H.BeginEvaluation);
      if H.Possible(before, input) {
        H.HandleKeepsGates(config, before, input);
        ArrivalIsMirrored(config, before, log, last);
      }
    }
    ReadyIsClear(config, Control(config, arrivals), Open(Facts(arrivals)));
  }

  lemma ReadyIsClear(config: H.Config, s: H.State, open: map<Code, int>)
    requires H.GateInv(s) && Mirrors(config, s, open)
    ensures s.health == Some(H.READY) ==> open == map[]
  {
    if s.health == Some(H.READY) {
      forall code: Code ensures code !in open {
        assert H.FailureKey(config.persistence, CodeId(code)) !in s.failures;
      }
    }
  }

  lemma EarlierIsTruthful(arrivals: seq<Arrival>)
    requires arrivals != [] && AllTruthful(Facts(arrivals))
    ensures var log := Facts(arrivals[..|arrivals| - 1]); var last := arrivals[|arrivals| - 1];
      AllTruthful(log) && (last.FromPersistence? ==> Truthful(log, last.fact))
  {
    var log := Facts(arrivals[..|arrivals| - 1]);
    var last := arrivals[|arrivals| - 1];
    if last.FromPersistence? {
      var longer := Facts(arrivals);
      assert longer == log + [last.fact] && longer[..|log|] == log && longer[|log|] == last.fact;
      assert forall i :: 0 <= i < |log| ==> longer[..i] == log[..i] && longer[i] == log[i];
    }
  }
}
