/** The system-control actor as the program runs it: gate flags and a health machine, updated in place. */
module SystemControl {
  import opened Prelude
  import opened SystemHealth

  /** Owns the current health; `published` is every transition it ever made. */
  class SystemHealthStateMachine {
    var state: Option<Health>
    ghost var published: seq<Health>

    constructor ()
      ensures state.None? && published == []
    {
      state := None;
      published := [];
    }

    method Transition(target: Health) returns (event: Option<Health>, raised: bool)
      modifies this
      ensures raised == (old(state) != Some(target) && target !in Allowed(old(state)))
      ensures event.Some? <==> old(state) != Some(target) && target in Allowed(old(state))
      ensures event.Some? ==> event.value == target && state == Some(target) && published == old(published) + [target]
      ensures event.None? ==> state == old(state) && published == old(published)
    {
      if state == Some(target) { return None, false; }
      if target !in Allowed(state) { return None, true; }
      state := Some(target);
      published := published + [target];
      return Some(target), false;
    }
  }

  class SystemControlActor {
    const config: Config
    const machine: SystemHealthStateMachine
    var evaluationStarted: bool
    var startupReleased: bool
    var persistenceReady: bool
    var monitorReady: bool
    var resources: ResourceState
    var observedAt: int
    var failures: map<FailureKey, Option<Id>>
    var readyOnce: bool

    ghost function Now(): State
      reads this, machine
    {
      State(machine.state, evaluationStarted, startupReleased, persistenceReady, monitorReady, resources, observedAt,
            failures, readyOnce, machine.published)
    }

    constructor (config: Config)
      ensures this.config == config && Now() == Initial() && fresh(machine)
    {
      this.config := config;
      machine := new SystemHealthStateMachine();
      evaluationStarted, startupReleased, persistenceReady, monitorReady := false, false, false, false;
      resources, observedAt, failures, readyOnce := NORMAL, 0, map[], false;
    }

    method PublishTransition(target: Health) returns (raised: bool)
      modifies this`readyOnce, machine
      ensures Outcome(Now(), raised) == SystemHealth.PublishTransition(old(Now()), target)
    {
      var event: Option<Health>;
      event, raised := machine.Transition(target);
      if event.None? { return; }
      if target == READY { readyOnce := true; }
    }

    method PublishReadyIfComplete() returns (raised: bool)
      modifies this`readyOnce, machine
      ensures Outcome(Now(), raised) == SystemHealth.PublishReadyIfComplete(old(Now()))
    {
      if machine.state in {Some(FAILED), Some(STOPPING), Some(READY)} { return false; }
      if !evaluationStarted || !persistenceReady || !monitorReady || resources == CRITICAL || failures != map[] {
        return false;
      }
      raised := PublishTransition(READY);
    }

    method OnFailure(input: Input) returns (raised: bool)
      requires input.Failure?
      modifies this, machine
      ensures Outcome(Now(), raised) == HandleFailure(config, old(Now()), input)
    {
      if input.component in config.runScoped && (input.run != Some(config.runId) || input.incident.None?) {
        return false;
      }
      if input.component !in config.rules { return false; }
      var target: Health;
      if machine.state in {Some(FAILED), Some(STOPPING)} {
        target := machine.state.value;
      } else {
        var rule := config.rules[input.component];
        target := if readyOnce then rule.running else rule.startup;
      }
      failures := failures[FailureKey(input.component, input.code) := input.incident];
      raised := PublishTransition(target);
    }

    method OnRecovery(input: Input) returns (raised: bool)
      requires input.Recovery?
      modifies this, machine
      ensures Outcome(Now(), raised) == HandleRecovery(config, old(Now()), input)
    {
      var key := FailureKey(input.component, input.code);
      if input.component == config.persistence && input.run != Some(config.runId) { return false; }
      if key !in failures { return false; }
      if input.component == config.persistence && input.incident != failures[key] { return false; }
      failures := failures - {key};
      if failures != map[] || machine.state in {Some(FAILED), Some(STOPPING)} { return false; }
      raised := PublishReadyIfComplete();
    }

    method OnMonitorReady(input: Input) returns (raised: bool)
      requires input.MonitorReady?
      modifies this, machine
      ensures Outcome(Now(), raised) == HandleMonitorReady(config, old(Now()), input)
    {
      if input.runId != config.runId || input.source != config.resourceActor
         || input.threshold != config.thresholdVersion { return false; }
      if machine.state in {Some(FAILED), Some(STOPPING)} || monitorReady { return false; }
      monitorReady := true;
      observedAt := input.observedAt;
      resources := input.state;
      if input.state == CRITICAL {
        raised := PublishTransition(DEGRADED);
      } else {
        raised := PublishReadyIfComplete();
      }
    }

    method OnResourceHealth(input: Input) returns (raised: bool)
      requires input.ResourceHealth?
      modifies this, machine
      ensures Outcome(Now(), raised) == HandleResourceHealth(config, old(Now()), input)
    {
      if input.source != config.resourceActor || input.threshold != config.thresholdVersion
         || (monitorReady && input.observedAt < observedAt) { return false; }
      if machine.state in {Some(FAILED), Some(STOPPING)} { return false; }
      if !monitorReady && input.state != CRITICAL { return false; }
      var previous := resources;
      resources := input.state;
      if input.state == CRITICAL {
        raised := PublishTransition(if !monitorReady && input.stale then FAILED else DEGRADED);
      } else if previous == CRITICAL && failures == map[] {
        raised := PublishReadyIfComplete();
      } else {
        raised := false;
      }
    }

    method OnPersistenceReady(input: Input)
      requires input.PersistenceReady?
      modifies this
      ensures Outcome(Now(), false) == HandlePersistenceReady(config, old(Now()), input)
    {
      if input.source != config.persistenceActor || input.runId != config.runId { return; }
      if machine.state in {Some(FAILED), Some(STOPPING)} { return; }
      persistenceReady := true;
      if startupReleased { return; }
      startupReleased := true;
    }

    method OnBeginEvaluation() returns (raised: bool)
      modifies this, machine
      ensures Outcome(Now(), raised) == HandleBeginEvaluation(old(Now()))
    {
      if evaluationStarted { return false; }
      evaluationStarted := true;
      if machine.state.None? {
        raised := PublishTransition(STARTING);
      }
      raised := PublishReadyIfComplete();
    }

    /** Any input, with the gates honest before and after. */
    method OnInput(input: Input) returns (raised: bool)
      requires GateInv(Now()) && Possible(Now(), input)
      modifies this, machine
      ensures Outcome(Now(), raised) == Handle(config, old(Now()), input)
      ensures GateInv(Now()) && (raised <==> input == Fault && old(Now()).health == Some(STOPPING))
    {
      HandleKeepsGates(config, Now(), input);
      raised := false;
      match input {
        case MonitorReady(_, _, _, _, _) => raised := OnMonitorReady(input);
        case ResourceHealth(_, _, _, _, _) => raised := OnResourceHealth(input);
        case PersistenceReady(_, _) => OnPersistenceReady(input);
        case Recovery(_, _, _, _) => raised := OnRecovery(input);
        case Failure(_, _, _, _) => raised := OnFailure(input);
        case Malformed =>
        case BeginEvaluation => raised := OnBeginEvaluation();
        case Stop => raised := PublishTransition(STOPPING);
        case Fault => raised := PublishTransition(FAILED);
      }
    }
  }
}
