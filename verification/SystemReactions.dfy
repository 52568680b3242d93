/** Which signals the system heeds, and where each takes its health. */
module SystemReactions {
  import opened Prelude
  import opened SystemHealth

  /** Health is now `target`, and that was told unless it was so before. */
  ghost predicate MovesTo(s: State, t: State, target: Health) {
    && t.health == Some(target)
    && t.published == (if s.health == Some(target) then s.published else s.published + [target])
    && t.readyOnce == (s.readyOnce || target == READY)
  }

  /** READY is told when the last gate has opened; otherwise health stays. */
  ghost predicate Settles(s: State, t: State) {
    if !s.Ended() && t.GatesOpen() then MovesTo(s, t, READY) else SameHealth(s, t)
  }

  /** Only the gates of resources and failures may differ. */
  ghost predicate SameOtherwise(s: State, t: State) {
    t == s.(health := t.health, readyOnce := t.readyOnce, published := t.published, failures := t.failures,
            resources := t.resources, monitorReady := t.monitorReady, observedAt := t.observedAt)
  }

  predicate FailureHeeded(config: Config, input: Input)
    requires input.Failure?
  {
    && input.component in config.rules
    && (input.component in config.runScoped ==> input.run == Some(config.runId) && input.incident.Some?)
  }

  /** A failure is held against the system and takes it where its component's rule says: the running
      rule once READY was ever told, the startup rule before; an ended system stays where it is. */
  lemma FailureFollowsItsRule(config: Config, s: State, input: Input)
    requires GateInv(s) && PublishedPath(s) && input.Failure?
    ensures var o := Handle(config, s, input); var t := o.state;
      && !o.raised
      && if !FailureHeeded(config, input) then t == s
         else
           && t.failures == s.failures[FailureKey(input.component, input.code) := input.incident]
           && SameOtherwise(s, t) && t.resources == s.resources && t.monitorReady == s.monitorReady
           && t.observedAt == s.observedAt
           && if s.Ended() then SameHealth(s, t)
              else MovesTo(s, t, if READY in s.published then config.rules[input.component].running
                                 else config.rules[input.component].startup)
  {
  }

  predicate RecoveryHeeded(config: Config, s: State, input: Input)
    requires input.Recovery?
  {
    var key := FailureKey(input.component, input.code);
    && key in s.failures
    && (input.component == config.persistence ==>
          input.run == Some(config.runId) && input.incident == s.failures[key])
  }

  /** A recovery clears exactly its failure, of persistence only for the incident it names; the system is
      READY when that was the last gate. */
  lemma RecoveryClearsItsFailure(config: Config, s: State, input: Input)
    requires GateInv(s) && input.Recovery?
    ensures var o := Handle(config, s, input); var t := o.state;
      && !o.raised
      && if !RecoveryHeeded(config, s, input) then t == s
         else
           && t.failures == s.failures - {FailureKey(input.component, input.code)}
           && SameOtherwise(s, t) && t.resources == s.resources && t.monitorReady == s.monitorReady
           && t.observedAt == s.observedAt && Settles(s, t)
  {
  }

  predicate ResourcesHeeded(config: Config, s: State, input: Input)
    requires input.MonitorReady? || input.ResourceHealth?
  {
    && input.source == config.resourceActor && input.threshold == config.thresholdVersion && !s.Ended()
    && (input.MonitorReady? ==> input.runId == config.runId && !s.monitorReady)
    && (input.ResourceHealth? ==> if s.monitorReady then s.observedAt <= input.observedAt else input.state == CRITICAL)
  }

  /** What the monitor reports becomes the state of the resources, and its first report opens its gate.
      Critical resources degrade the system; it fails when they were never sampled in time. Otherwise
      it is READY when that was the last gate. */
  lemma ResourcesAreTaken(config: Config, s: State, input: Input)
    requires GateInv(s) && (input.MonitorReady? || input.ResourceHealth?)
    ensures var o := Handle(config, s, input); var t := o.state;
      && !o.raised
      && if !ResourcesHeeded(config, s, input) then t == s
         else
           && t.resources == input.state && t.failures == s.failures && SameOtherwise(s, t)
           && t.monitorReady == (s.monitorReady || input.MonitorReady?)
           && t.observedAt == (if input.MonitorReady? then input.observedAt else s.observedAt)
           && if input.state == CRITICAL
              then MovesTo(s, t, if input.ResourceHealth? && !s.monitorReady && input.stale then FAILED else DEGRADED)
              else Settles(s, t)
  {
  }

  /** Persistence opens its gate and releases the start, unless the system has ended. */
  lemma PersistenceReleasesTheStart(config: Config, s: State, input: Input)
    requires input.PersistenceReady?
    ensures var o := Handle(config, s, input);
      && !o.raised
      && o.state == if input.source == config.persistenceActor && input.runId == config.runId && !s.Ended()
                    then s.(persistenceReady := true, startupReleased := true) else s
  {
  }

  /** The first evaluation is told as STARTING when nothing was told before, and then as READY when every
      gate is open. Later ones do nothing. */
  lemma EvaluationStartsOnce(config: Config, s: State)
    requires GateInv(s) && Possible(s, BeginEvaluation)
    ensures var o := Handle(config, s, BeginEvaluation); var t := o.state;
      && !o.raised
      && if s.evaluationStarted then t == s
         else
           && t.evaluationStarted && t == s.(evaluationStarted := true, health := t.health, published := t.published,
                                             readyOnce := t.readyOnce)
           && t.published == s.published + (if s.health.None? then [STARTING] else [])
                             + (if !s.Ended() && t.GatesOpen() then [READY] else [])
           && t.health == (if !s.Ended() && t.GatesOpen() then Some(READY)
                           else if s.health.None? then Some(STARTING) else s.health)
  {
    assert s.published + [] == s.published && s.published + [STARTING] + [] == s.published + [STARTING];
  }

  /** Stopping always succeeds; a fault fails the system unless it is stopping, when it raises. */
  lemma StopAndFault(config: Config, s: State)
    ensures var o := Handle(config, s, Stop); !o.raised && MovesTo(s, o.state, STOPPING)
    ensures var o := Handle(config, s, Fault);
      if s.health == Some(STOPPING) then o.raised && o.state == s else !o.raised && MovesTo(s, o.state, FAILED)
  {
  }

  // Whole runs, written out

  /** After any signals a system that is neither FAILED nor STOPPING is READY exactly while the evaluation
      has started, persistence and the monitor are ready, resources are not critical and nothing has
      failed without recovering. */
  lemma ReadyMeansReady(config: Config, inputs: seq<Input>)
    ensures var t := Run(config, Initial(), inputs);
      t.health != Some(FAILED) && t.health != Some(STOPPING) ==>
        (t.health == Some(READY) <==>
           && t.evaluationStarted && t.persistenceReady && t.monitorReady
           && t.resources != CRITICAL && t.failures == map[])
  {
    InitialGates();
    ReadyIffGatesOpen(config, Initial(), inputs);
  }

  /** The steps that health may take. */
  predicate MayFollow(from: Health, to: Health) {
    match from
    case STARTING => to in {READY, DEGRADED, FAILED, STOPPING}
    case READY => to in {DEGRADED, FAILED, STOPPING}
    case DEGRADED => to in {READY, FAILED, STOPPING}
    case FAILED => to == STOPPING
    case STOPPING => false
  }

  /** What is told of health, after any signals, never begins with READY, takes only allowed steps, never
      repeats itself, and ends with the current health. */
  lemma ToldHealthFollowsTheTable(config: Config, inputs: seq<Input>)
    ensures var t := Run(config, Initial(), inputs);
      && (forall i :: 0 < i < |t.published| ==> MayFollow(t.published[i - 1], t.published[i]))
      && (t.published != [] ==> t.published[0] != READY && t.health == Some(t.published[|t.published| - 1]))
      && (t.published == [] <==> t.health.None?)
  {
    InitialGates();
    ReadyIffGatesOpen(config, Initial(), inputs);
    var t := Run(config, Initial(), inputs);
    forall i | 0 < i < |t.published| ensures MayFollow(t.published[i - 1], t.published[i]) {
      assert t.published[i] in Allowed(Some(t.published[i - 1]));
    }
  }
}
