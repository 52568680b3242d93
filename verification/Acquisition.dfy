/** Keeping provider subscriptions in step with the demands, over a port that may fail on any call. */
module Acquisition {
  import opened Prelude
  import opened Demand

  /** A provider command and whether the port carried it out; a failed command has no effect. */
  datatype Command = Subscribe(requirement: Requirement, done: bool) | Unsubscribe(requirement: Requirement, done: bool)
  {
    predicate Of(key: Id) { requirement.streamKey == key }
  }

  datatype LifecycleState =
    REQUESTED | ACCEPTED | SUBSCRIBED | ACTIVE | FAILED | CANCELED | EXPIRED | COMPLETED

  datatype LifecycleEvent = LifecycleEvent(
    state: LifecycleState, streamKey: Id, demandId: Option<Id>, consumers: seq<Id>)

  /** Which commands succeed during one call, by stream. A call issues at most one of each per stream,
      so this is any pattern of failures. */
  datatype Port = Port(unsubscribes: Id -> bool, subscribes: Id -> bool)

  /** `commands` is everything the port was ever told. */
  datatype State = State(
    demands: Demands, subscribed: map<Id, ProviderDemand>, observed: set<Id>, commands: seq<Command>)

  datatype Progress = Progress(state: State, events: seq<LifecycleEvent>)

  function ProviderEvent(state: LifecycleState, p: ProviderDemand): LifecycleEvent {
    LifecycleEvent(state, p.requirement.streamKey, None, p.consumers)
  }

  // Reconciliation

  function Stale(s: State, desired: map<Id, ProviderDemand>): set<Id> {
    set key | key in s.subscribed
      && (key !in desired || s.subscribed[key].requirement != desired[key].requirement)
  }

  function UnsubscribeOne(p: Progress, key: Id, port: Port): Progress
    requires key in p.state.subscribed
  {
    var s := p.state;
    var held := s.subscribed[key];
    var told := s.(commands := s.commands + [Unsubscribe(held.requirement, port.unsubscribes(key))]);
    if port.unsubscribes(key)
    then Progress(told.(subscribed := s.subscribed - {key}, observed := s.observed - {key}),
                  p.events + [ProviderEvent(COMPLETED, held)])
    else Progress(told, p.events + [ProviderEvent(FAILED, held)])
  }

  function UnsubscribeAll(p: Progress, keys: seq<Id>, port: Port): Progress
    requires Distinct(keys) && forall i :: 0 <= i < |keys| ==> keys[i] in p.state.subscribed
    decreases |keys|
  {
    if keys == [] then p
    else
      assert forall i :: 0 <= i < |keys[1..]| ==> keys[1..][i] == keys[i + 1];
      UnsubscribeAll(UnsubscribeOne(p, keys[0], port), keys[1..], port)
  }

  function SubscribeOne(p: Progress, key: Id, wanted: ProviderDemand, port: Port): Progress {
    var s := p.state;
    if key in s.subscribed then
      if s.subscribed[key].requirement == wanted.requirement
      then p.(state := s.(subscribed := s.subscribed[key := wanted]))
      else p
    else
      var told := s.(commands := s.commands + [Subscribe(wanted.requirement, port.subscribes(key))]);
      if port.subscribes(key)
      then Progress(told.(subscribed := s.subscribed[key := wanted]), p.events + [ProviderEvent(SUBSCRIBED, wanted)])
      else Progress(told, p.events + [ProviderEvent(FAILED, wanted)])
  }

  function SubscribeAll(p: Progress, keys: seq<Id>, desired: map<Id, ProviderDemand>, port: Port): Progress
    requires forall i :: 0 <= i < |keys| ==> keys[i] in desired
    decreases |keys|
  {
    if keys == [] then p
    else SubscribeAll(SubscribeOne(p, keys[0], desired[keys[0]], port), keys[1..], desired, port)
  }

  function ReconcileTo(s: State, desired: map<Id, ProviderDemand>, port: Port): Progress {
    var stopped := UnsubscribeAll(Progress(s, []), Ascending(Stale(s, desired)), port);
    SubscribeAll(stopped, Ascending(desired.Keys), desired, port)
  }

  function Reconcile(s: State, now: int, port: Port): Progress {
    ReconcileTo(s, Desired(s.demands, now), port)
  }

  // Calls

  datatype Call =
    | Request(demand: ObservationDemand)
    | Cancel(demandId: Id)
    | Expire
    | Observe(streamKey: Id)
    | Refresh

  function After(first: seq<LifecycleEvent>, p: Progress): Progress {
    p.(events := first + p.events)
  }

  function DemandEvent(state: LifecycleState, demand: ObservationDemand): LifecycleEvent {
    LifecycleEvent(state, demand.requirement.streamKey, Some(demand.demandId), [])
  }

  function ExpiryEvents(d: Demands, ids: seq<Id>): seq<LifecycleEvent>
    requires forall i :: 0 <= i < |ids| ==> ids[i] in d
  {
    seq(|ids|, i requires 0 <= i < |ids| => DemandEvent(EXPIRED, d[ids[i]]))
  }

  /** A refused demand raises: nothing is reported and nothing changes. */
  function Perform(s: State, call: Call, now: int, port: Port): Progress {
    match call
    case Request(demand) =>
      var (outcome, demands) := Add(s.demands, demand, now);
      if outcome == Added then
        After([DemandEvent(REQUESTED, demand), DemandEvent(ACCEPTED, demand)],
              Reconcile(s.(demands := demands), now, port))
      else if outcome == AlreadyHeld then After([DemandEvent(REQUESTED, demand)], Reconcile(s, now, port))
      else Progress(s, [])
    case Cancel(demandId) =>
      if demandId !in s.demands then Progress(s, [])
      else After([DemandEvent(CANCELED, s.demands[demandId])],
                 Reconcile(s.(demands := s.demands - {demandId}), now, port))
    case Expire =>
      var expired := Expired(s.demands, now);
      After(ExpiryEvents(s.demands, Ascending(expired)), Reconcile(s.(demands := s.demands - expired), now, port))
    case Observe(key) =>
      if key in s.subscribed && key !in s.observed
      then Progress(s.(observed := s.observed + {key}), [ProviderEvent(ACTIVE, s.subscribed[key])])
      else Progress(s, [])
    case Refresh => Reconcile(s, now, port)
  }
}
