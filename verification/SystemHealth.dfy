/** The system-health gate machine: which signals move it, and when it is READY. */
module SystemHealth {
  import opened Prelude

  datatype Health = STARTING | READY | DEGRADED | FAILED | STOPPING

  datatype ResourceState = NORMAL | WARNING | CRITICAL

  /** Where a component's failure takes the system before and after it was first READY. */
  datatype RuleValues = RuleValues(startup: Health, running: Health)

  type Rule = r: RuleValues | r.startup in {FAILED, DEGRADED} && r.running in {FAILED, DEGRADED}
    witness RuleValues(FAILED, DEGRADED)

  /** `persistence` is the operational-persistence component, one of the run-scoped ones. */
  datatype Config = Config(
    runId: Id, thresholdVersion: Id, persistenceActor: Id, resourceActor: Id,
    persistence: Id, runScoped: set<Id>, rules: map<Id, Rule>)

  datatype FailureKey = FailureKey(component: Id, code: Id)

  /** `Malformed` is any signal whose payload does not parse, or that is none of those handled. */
  datatype Input =
    | MonitorReady(runId: Id, source: Id, threshold: Id, observedAt: int, state: ResourceState)
    | ResourceHealth(source: Id, threshold: Id, observedAt: int, state: ResourceState, stale: bool)
    | PersistenceReady(source: Id, runId: Id)
    | Recovery(component: Id, code: Id, run: Option<Id>, incident: Option<Id>)
    | Failure(component: Id, code: Id, run: Option<Id>, incident: Option<Id>)
    | Malformed
    | BeginEvaluation
    | Stop
    | Fault

  datatype State = State(
    health: Option<Health>,
    evaluationStarted: bool,
    startupReleased: bool,
    persistenceReady: bool,
    monitorReady: bool,
    resources: ResourceState,
    observedAt: int,
    failures: map<FailureKey, Option<Id>>,
    readyOnce: bool,
    published: seq<Health>)
  {
    predicate Ended() { health in {Some(FAILED), Some(STOPPING)} }

    /** All operational gates are open. */
    predicate GatesOpen() {
      evaluationStarted && persistenceReady && monitorReady && resources != CRITICAL && failures == map[]
    }
  }

  function Initial(): State {
    State(None, false, false, false, false, NORMAL, 0, map[], false, [])
  }

  function Allowed(from: Option<Health>): set<Health> {
    match from
    case None => {STARTING, DEGRADED, FAILED, STOPPING}
    case Some(STARTING) => {READY, DEGRADED, FAILED, STOPPING}
    case Some(READY) => {DEGRADED, FAILED, STOPPING}
    case Some(DEGRADED) => {READY, FAILED, STOPPING}
    case Some(FAILED) => {STOPPING}
    case Some(STOPPING) => {}
  }

  /** A repeated target is suppressed; one that is not allowed raises and changes nothing. */
  datatype Outcome = Outcome(state: State, raised: bool)

  function PublishTransition(s: State, target: Health): Outcome {
    if s.health == Some(target) then Outcome(s, false)
    else if target !in Allowed(s.health) then Outcome(s, true)
    else Outcome(s.(health := Some(target), readyOnce := s.readyOnce || target == READY,
                    published := s.published + [target]), false)
  }

  function PublishReadyIfComplete(s: State): Outcome {
    if s.Ended() || s.health == Some(READY) || !s.GatesOpen() then Outcome(s, false)
    else PublishTransition(s, READY)
  }

  function FailureTarget(config: Config, s: State, component: Id): Option<Health> {
    if component !in config.rules then None
    else if s.Ended() then s.health
    else Some(if s.readyOnce then config.rules[component].running else config.rules[component].startup)
  }

  function HandleFailure(config: Config, s: State, input: Input): Outcome
    requires input.Failure?
  {
    if input.component in config.runScoped && (input.run != Some(config.runId) || input.incident.None?)
    then Outcome(s, false)
    else
      var target := FailureTarget(config, s, input.component);
      if target.None? then Outcome(s, false)
      else
        PublishTransition(s.(failures := s.failures[FailureKey(input.component, input.code) := input.incident]),
                          target.value)
  }

  function HandleRecovery(config: Config, s: State, input: Input): Outcome
    requires input.Recovery?
  {
    var key := FailureKey(input.component, input.code);
    if input.component == config.persistence && input.run != Some(config.runId) then Outcome(s, false)
    else if key !in s.failures then Outcome(s, false)
    else if input.component == config.persistence && input.incident != s.failures[key] then Outcome(s, false)
    else
      var t := s.(failures := s.failures - {key});
      if t.failures == map[] && !t.Ended() then PublishReadyIfComplete(t) else Outcome(t, false)
  }

  function HandleMonitorReady(config: Config, s: State, input: Input): Outcome
    requires input.MonitorReady?
  {
    if input.runId != config.runId || input.source != config.resourceActor || input.threshold != config.thresholdVersion
    then Outcome(s, false)
    else if s.Ended() || s.monitorReady then Outcome(s, false)
    else
      var t := s.(monitorReady := true, observedAt := input.observedAt, resources := input.state);
      if input.state == CRITICAL then PublishTransition(t, DEGRADED) else PublishReadyIfComplete(t)
  }

  function HandleResourceHealth(config: Config, s: State, input: Input): Outcome
    requires input.ResourceHealth?
  {
    if input.source != config.resourceActor || input.threshold != config.thresholdVersion
       || (s.monitorReady && input.observedAt < s.observedAt)
    then Outcome(s, false)
    else if s.Ended() || (!s.monitorReady && input.state != CRITICAL) then Outcome(s, false)
    else
      var t := s.(resources := input.state);
      if input.state == CRITICAL
      then PublishTransition(t, if !s.monitorReady && input.stale then FAILED else DEGRADED)
      else if s.resources == CRITICAL && s.failures == map[] then PublishReadyIfComplete(t)
      else Outcome(t, false)
  }

  function HandlePersistenceReady(config: Config, s: State, input: Input): Outcome
    requires input.PersistenceReady?
  {
    if input.source != config.persistenceActor || input.runId != config.runId || s.Ended() then Outcome(s, false)
    else Outcome(s.(persistenceReady := true, startupReleased := true), false)
  }

  function HandleBeginEvaluation(s: State): Outcome {
    if s.evaluationStarted then Outcome(s, false)
    else
      var t := s.(evaluationStarted := true);
      var started := if t.health.None? then PublishTransition(t, STARTING) else Outcome(t, false);
      if started.raised then started else PublishReadyIfComplete(started.state)
  }

  function Handle(config: Config, s: State, input: Input): Outcome {
    match input
    case MonitorReady(_, _, _, _, _) => HandleMonitorReady(config, s, input)
    case ResourceHealth(_, _, _, _, _) => HandleResourceHealth(config, s, input)
    case PersistenceReady(_, _) => HandlePersistenceReady(config, s, input)
    case Recovery(_, _, _, _) => HandleRecovery(config, s, input)
    case Failure(_, _, _, _) => HandleFailure(config, s, input)
    case Malformed => Outcome(s, false)
    case BeginEvaluation => HandleBeginEvaluation(s)
    case Stop => PublishTransition(s, STOPPING)
    case Fault => PublishTransition(s, FAILED)
  }

  // Reachable states

  /** The initial-evaluation alert is set when the startup gate is released, so it cannot fire before. */
  predicate Possible(s: State, input: Input) {
    input.BeginEvaluation? ==> s.startupReleased
  }

  /** Until the machine has ended it is READY exactly while every gate is open. */
  ghost predicate GateInv(s: State) {
    && (!s.Ended() ==> (s.health == Some(READY) <==> s.GatesOpen()))
    && (s.startupReleased ==> s.persistenceReady)
    && (s.evaluationStarted ==> s.startupReleased && s.health.Some?)
    && (s.health == Some(READY) ==> s.readyOnce)
    && (s.health == Some(STARTING) ==> s.evaluationStarted)
  }

  /** The published states form a path through the allowed transitions that ends in the current one. */
  ghost predicate PublishedPath(s: State) {
    && (s.published == [] <==> s.health.None?)
    && (s.published != [] ==> s.health == Some(s.published[|s.published| - 1]) && s.published[0] in Allowed(None))
    && (forall i :: 0 < i < |s.published| ==> s.published[i] in Allowed(Some(s.published[i - 1])))
    && (READY in s.published <==> s.readyOnce)
  }

  lemma TransitionKeepsPath(s: State, target: Health)
    requires PublishedPath(s)
    ensures PublishedPath(PublishTransition(s, target).state)
  {
    var t := PublishTransition(s, target).state;
    if t.published != s.published {
      assert t.published == s.published + [target];
    }
  }

  ghost predicate KeepsGates(s: State, input: Input, o: Outcome) {
    && GateInv(o.state)
    && (o.raised <==> input == Fault && s.health == Some(STOPPING))
    && (o.raised ==> o.state == s)
  }

  lemma FailureKeepsGates(config: Config, s: State, input: Input)
    requires GateInv(s) && input.Failure?
    ensures KeepsGates(s, input, HandleFailure(config, s, input))
  {
    var failed := s.failures[FailureKey(input.component, input.code) := input.incident];
    assert FailureKey(input.component, input.code) in failed;
    assert failed != map[];
  }

  lemma RecoveryKeepsGates(config: Config, s: State, input: Input)
    requires GateInv(s) && input.Recovery?
    ensures KeepsGates(s, input, HandleRecovery(config, s, input))
  {
  }

  lemma ResourcesKeepGates(config: Config, s: State, input: Input)
    requires GateInv(s) && (input.MonitorReady? || input.ResourceHealth?)
    ensures KeepsGates(s, input, Handle(config, s, input))
  {
  }

  /** One input keeps the gates honest, and the only input that ever asks for a transition that is not
      allowed is a fault once the system is stopping. */
  lemma HandleKeepsGates(config: Config, s: State, input: Input)
    requires GateInv(s) && Possible(s, input)
    ensures KeepsGates(s, input, Handle(config, s, input))
  {
    match input
    case MonitorReady(_, _, _, _, _) => ResourcesKeepGates(config, s, input);
    case ResourceHealth(_, _, _, _, _) => ResourcesKeepGates(config, s, input);
    case Recovery(_, _, _, _) => RecoveryKeepsGates(config, s, input);
    case Failure(_, _, _, _) => FailureKeepsGates(config, s, input);
    case _ =>
  }

  ghost predicate SameHealth(s: State, t: State) {
    s.health == t.health && s.readyOnce == t.readyOnce && s.published == t.published
  }

  /** `t` differs from `s` in the gates, then makes at most one transition. */
  ghost predicate Moves(s: State, t: State) {
    SameHealth(s, t) || exists u, target :: SameHealth(s, u) && t == PublishTransition(u, target).state
  }

  lemma MovingKeepsPath(s: State, t: State)
    requires PublishedPath(s) && Moves(s, t)
    ensures PublishedPath(t)
  {
    if !SameHealth(s, t) {
      var u, target :| SameHealth(s, u) && t == PublishTransition(u, target).state;
      assert PublishedPath(u);
      TransitionKeepsPath(u, target);
    }
  }

  lemma TransitionMoves(s: State, u: State, target: Health)
    requires SameHealth(s, u)
    ensures Moves(s, PublishTransition(u, target).state)
  {
  }

  /** Every handler but the initial evaluation makes at most one transition. */
  lemma HandlersMove(config: Config, s: State, input: Input)
    requires input != BeginEvaluation
    ensures Moves(s, Handle(config, s, input).state)
  {
    hide PublishTransition, Moves;
    var t := Handle(config, s, input).state;
    if SameHealth(s, t) {
      SameMoves(s, t);
    } else {
      match input
      case MonitorReady(_, _, _, observedAt, state) =>
        var u := s.(monitorReady := true, observedAt := observedAt, resources := state);
        TransitionMoves(s, u, DEGRADED);
        TransitionMoves(s, u, READY);
      case ResourceHealth(_, _, _, state, _) =>
        var u := s.(resources := state);
        TransitionMoves(s, u, FAILED);
        TransitionMoves(s, u, DEGRADED);
        TransitionMoves(s, u, READY);
      case Recovery(component, code, _, _) =>
        TransitionMoves(s, s.(failures := s.failures - {FailureKey(component, code)}), READY);
      case Failure(component, code, _, incident) =>
        var u := s.(failures := s.failures[FailureKey(component, code) := incident]);
        TransitionMoves(s, u, FailureTarget(config, s, component).value);
      case Stop => TransitionMoves(s, s, STOPPING);
      case Fault => TransitionMoves(s, s, FAILED);
    }
  }

  lemma SameMoves(s: State, t: State)
    requires SameHealth(s, t)
    ensures Moves(s, t)
  {
  }

  lemma EvaluationKeepsPath(s: State)
    requires PublishedPath(s)
    ensures PublishedPath(HandleBeginEvaluation(s).state)
  {
    var t := s.(evaluationStarted := true);
    assert PublishedPath(t);
    TransitionKeepsPath(t, STARTING);
    TransitionKeepsPath(t, READY);
    TransitionKeepsPath(PublishTransition(t, STARTING).state, READY);
  }

  lemma HandleKeepsPath(config: Config, s: State, input: Input)
    requires PublishedPath(s)
    ensures PublishedPath(Handle(config, s, input).state)
  {
    hide PublishedPath, Moves;
    if input == BeginEvaluation {
      EvaluationKeepsPath(s);
    } else {
      HandlersMove(config, s, input);
      MovingKeepsPath(s, Handle(config, s, input).state);
    }
  }

  // Runs

  /** A raising fault handler leaves the state alone, so a run may go on after it. */
  ghost function Run(config: Config, s: State, inputs: seq<Input>): State
    decreases |inputs|
  {
    if inputs == [] then s
    else if !Possible(s, inputs[0]) then Run(config, s, inputs[1..])
    else Run(config, Handle(config, s, inputs[0]).state, inputs[1..])
  }

  /** In every reachable state that has not ended the system is READY exactly while evaluation has
      started, persistence and the resource monitor are ready, resources are not critical and no
      component failure is active; and what was published is a path of allowed transitions. */
  lemma {:induction false} ReadyIffGatesOpen(config: Config, s: State, inputs: seq<Input>)
    requires GateInv(s) && PublishedPath(s)
    ensures var t := Run(config, s, inputs);
      GateInv(t) && PublishedPath(t) && (t.Ended() || (t.health == Some(READY) <==> t.GatesOpen()))
    decreases |inputs|
  {
    if inputs != [] {
      if Possible(s, inputs[0]) {
        HandleKeepsGates(config, s, inputs[0]);
        HandleKeepsPath(config, s, inputs[0]);
        ReadyIffGatesOpen(config, Handle(config, s, inputs[0]).state, inputs[1..]);
      } else {
        ReadyIffGatesOpen(config, s, inputs[1..]);
      }
    }
  }

  /** Once FAILED the system can only stop, and once STOPPING nothing moves it. */
  lemma {:induction false} EndedIsForever(config: Config, s: State, inputs: seq<Input>)
    requires s.Ended()
    ensures Run(config, s, inputs).Ended()
    ensures s.health == Some(STOPPING) ==> Run(config, s, inputs).health == Some(STOPPING)
    decreases |inputs|
  {
    if inputs != [] {
      EndedIsForever(config, if Possible(s, inputs[0]) then Handle(config, s, inputs[0]).state else s, inputs[1..]);
    }
  }

  lemma InitialGates()
    ensures GateInv(Initial()) && PublishedPath(Initial())
  {
  }
}
