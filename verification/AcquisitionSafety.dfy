/** The provider's real subscriptions are the ones the coordinator believes in, whatever fails. */
module AcquisitionSafety {
  import opened Prelude
  import opened Demand
  import opened Acquisition

  /** The provider's subscriptions after `commands`, replayed from none. */
  function AtProvider(commands: seq<Command>): map<Id, Requirement> {
    if commands == [] then map[]
    else
      var before := AtProvider(commands[..|commands| - 1]);
      var c := commands[|commands| - 1];
      if !c.done then before
      else match c
        case Subscribe(q, _) => before[q.streamKey := q]
        case Unsubscribe(q, _) => before - {q.streamKey}
  }

  /** Each command makes sense where it stands: a stream is subscribed only while it is not, and
      unsubscribed only while it is, with the requirement it was subscribed with. */
  ghost predicate Alternates(commands: seq<Command>) {
    forall i :: 0 <= i < |commands| ==>
      var before := AtProvider(commands[..i]);
      var q := commands[i].requirement;
      match commands[i]
      case Subscribe(_, _) => q.streamKey !in before
      case Unsubscribe(_, _) => q.streamKey in before && before[q.streamKey] == q
  }

  ghost predicate Agrees(s: State) {
    && AtProvider(s.commands).Keys == s.subscribed.Keys
    && (forall key :: key in s.subscribed ==> AtProvider(s.commands)[key] == s.subscribed[key].requirement)
  }

  ghost predicate KeyedByStream(m: map<Id, ProviderDemand>) {
    forall key :: key in m ==> m[key].requirement.streamKey == key
  }

  ghost predicate Consistent(s: State) {
    Agrees(s) && Alternates(s.commands) && KeyedByStream(s.subscribed) && s.observed <= s.subscribed.Keys
  }

  ghost predicate Sound(s: State) {
    Consistent(s) && Keyed(s.demands) && Compatible(s.demands)
  }

  // One command

  lemma CommandReplays(commands: seq<Command>, c: Command)
    ensures var before := AtProvider(commands);
      AtProvider(commands + [c]) ==
        if !c.done then before
        else if c.Subscribe? then before[c.requirement.streamKey := c.requirement]
        else before - {c.requirement.streamKey}
    ensures Alternates(commands) && (
      if c.Subscribe? then c.requirement.streamKey !in AtProvider(commands)
      else c.requirement.streamKey in AtProvider(commands)
           && AtProvider(commands)[c.requirement.streamKey] == c.requirement)
      ==> Alternates(commands + [c])
  {
    var longer := commands + [c];
    assert longer[..|longer| - 1] == commands;
    assert forall i :: 0 <= i < |commands| ==> longer[..i] == commands[..i] && longer[i] == commands[i];
  }

  lemma UnsubscribeOneIsConsistent(p: Progress, key: Id, port: Port)
    requires Consistent(p.state) && key in p.state.subscribed
    ensures Consistent(UnsubscribeOne(p, key, port).state)
  {
    CommandReplays(p.state.commands, Unsubscribe(p.state.subscribed[key].requirement, port.unsubscribes(key)));
  }

  lemma SubscribeOneIsConsistent(p: Progress, key: Id, wanted: ProviderDemand, port: Port)
    requires Consistent(p.state) && wanted.requirement.streamKey == key
    ensures Consistent(SubscribeOne(p, key, wanted, port).state)
  {
    if key !in p.state.subscribed {
      CommandReplays(p.state.commands, Subscribe(wanted.requirement, port.subscribes(key)));
    }
  }

  // One stream at a time

  function Lookup(m: map<Id, ProviderDemand>, key: Id): Option<ProviderDemand> {
    if key in m then Some(m[key]) else None
  }

  /** What one reconciliation leaves of one stream, given what was held, what is wanted, and whether its
      commands succeed. */
  function Settled(held: Option<ProviderDemand>, wanted: Option<ProviderDemand>, unsubscribes: bool, subscribes: bool):
    Option<ProviderDemand>
  {
    if held.None? then (if subscribes then wanted else None)
    else if wanted.None? then (if unsubscribes then None else held)
    else if held.value.requirement == wanted.value.requirement then wanted
    else if !unsubscribes then held
    else if subscribes then wanted
    else None
  }

  lemma {:induction false} UnsubscribeAllSettles(p: Progress, keys: seq<Id>, port: Port)
    requires Consistent(p.state) && Distinct(keys) && forall i :: 0 <= i < |keys| ==> keys[i] in p.state.subscribed
    ensures var q := UnsubscribeAll(p, keys, port);
      && Consistent(q.state) && q.state.demands == p.state.demands
      && (forall key :: Lookup(q.state.subscribed, key) ==
                        if key in keys && port.unsubscribes(key) then None else Lookup(p.state.subscribed, key))
      && (keys == [] ==> q == p)
    decreases |keys|
  {
    if keys != [] {
      assert forall i :: 0 <= i < |keys[1..]| ==> keys[1..][i] == keys[i + 1];
      UnsubscribeOneIsConsistent(p, keys[0], port);
      UnsubscribeAllSettles(UnsubscribeOne(p, keys[0], port), keys[1..], port);
      assert forall key :: key in keys <==> key == keys[0] || key in keys[1..];
    }
  }

  lemma {:induction false} SubscribeAllSettles(
      p: Progress, keys: seq<Id>, desired: map<Id, ProviderDemand>, port: Port)
    requires Consistent(p.state) && KeyedByStream(desired) && forall i :: 0 <= i < |keys| ==> keys[i] in desired
    requires Distinct(keys)
    ensures var q := SubscribeAll(p, keys, desired, port);
      && Consistent(q.state) && q.state.demands == p.state.demands
      && (forall key :: Lookup(q.state.subscribed, key) ==
                        if key !in keys then Lookup(p.state.subscribed, key)
                        else if key !in p.state.subscribed
                        then (if port.subscribes(key) then Some(desired[key]) else None)
                        else if p.state.subscribed[key].requirement == desired[key].requirement
                        then Some(desired[key])
                        else Some(p.state.subscribed[key]))
    decreases |keys|
  {
    if keys != [] {
      assert forall i :: 0 <= i < |keys[1..]| ==> keys[1..][i] == keys[i + 1];
      SubscribeOneIsConsistent(p, keys[0], desired[keys[0]], port);
      SubscribeAllSettles(SubscribeOne(p, keys[0], desired[keys[0]], port), keys[1..], desired, port);
      assert forall key :: key in keys <==> key == keys[0] || key in keys[1..];
    }
  }

  /** Reconciliation settles every stream on its own, whatever fails for the others. */
  lemma ReconcileSettles(s: State, desired: map<Id, ProviderDemand>, port: Port)
    requires Consistent(s) && KeyedByStream(desired)
    ensures var t := ReconcileTo(s, desired, port).state;
      && Consistent(t) && t.demands == s.demands
      && forall key :: Lookup(t.subscribed, key) ==
                       Settled(Lookup(s.subscribed, key), Lookup(desired, key), port.unsubscribes(key), port.subscribes(key))
  {
    hide Consistent, UnsubscribeAll, SubscribeAll, KeyedByStream;
    var stale := Ascending(Stale(s, desired));
    var stopped := UnsubscribeAll(Progress(s, []), stale, port);
    UnsubscribeAllSettles(Progress(s, []), stale, port);
    SubscribeAllSettles(stopped, Ascending(desired.Keys), desired, port);
    forall key ensures Lookup(ReconcileTo(s, desired, port).state.subscribed, key) ==
      Settled(Lookup(s.subscribed, key), Lookup(desired, key), port.unsubscribes(key), port.subscribes(key))
    {
      assert key in stale <==> key in Stale(s, desired);
      assert Lookup(stopped.state.subscribed, key) ==
             if key in stale && port.unsubscribes(key) then None else Lookup(s.subscribed, key);
    }
  }

  /** The subscriptions are exactly the wanted ones, requirement for requirement, and stay observed. */
  ghost predicate InStep(s: State, desired: map<Id, ProviderDemand>) {
    s.subscribed == desired
  }

  ghost predicate NothingFails(port: Port) {
    forall key :: port.unsubscribes(key) && port.subscribes(key)
  }

  /** When nothing fails the subscriptions become exactly the desired demands. */
  lemma CleanReconcileReachesDesired(s: State, desired: map<Id, ProviderDemand>, port: Port)
    requires Consistent(s) && KeyedByStream(desired) && NothingFails(port)
    ensures InStep(ReconcileTo(s, desired, port).state, desired)
  {
    ReconcileSettles(s, desired, port);
    var t := ReconcileTo(s, desired, port).state;
    forall key ensures Lookup(t.subscribed, key) == Lookup(desired, key) {
      assert Lookup(t.subscribed, key) ==
             Settled(Lookup(s.subscribed, key), Lookup(desired, key), port.unsubscribes(key), port.subscribes(key));
    }
    assert t.subscribed.Keys == desired.Keys by {
      forall key ensures key in t.subscribed <==> key in desired {
        assert Lookup(t.subscribed, key) == Lookup(desired, key);
      }
    }
    assert forall key :: key in desired ==> Lookup(t.subscribed, key) == Some(desired[key]);
  }

  lemma {:induction false} SubscribingAgainDoesNothing(
      p: Progress, keys: seq<Id>, desired: map<Id, ProviderDemand>, port: Port)
    requires p.state.subscribed == desired && forall i :: 0 <= i < |keys| ==> keys[i] in desired
    ensures SubscribeAll(p, keys, desired, port) == p
    decreases |keys|
  {
    if keys != [] {
      assert desired[keys[0] := desired[keys[0]]] == desired;
      SubscribingAgainDoesNothing(p, keys[1..], desired, port);
    }
  }

  /** Once in step, reconciling again issues no command and no event and changes nothing. */
  lemma SecondReconcileIsIdle(s: State, desired: map<Id, ProviderDemand>, port: Port)
    requires InStep(s, desired)
    ensures ReconcileTo(s, desired, port) == Progress(s, [])
  {
    assert Stale(s, desired) == {};
    SubscribingAgainDoesNothing(Progress(s, []), Ascending(desired.Keys), desired, port);
  }

  // Calls

  lemma DesiredIsKeyed(d: Demands, now: int)
    requires Keyed(d)
    ensures KeyedByStream(Desired(d, now))
  {
    forall key | key in Desired(d, now) ensures Desired(d, now)[key].requirement.streamKey == key {
      SomeoneAsks(Current(d, now), key);
      var group := ForStream(Current(d, now), key);
      assert group[0] in group;
    }
  }

  lemma PerformKeepsSound(s: State, call: Call, now: int, port: Port)
    requires Sound(s)
    ensures Sound(Perform(s, call, now, port).state)
  {
    match call
    case Request(demand) =>
      AddKeepsCompatible(s.demands, demand, now);
      var demands := Add(s.demands, demand, now).1;
      DesiredIsKeyed(demands, now);
      ReconcileSettles(s.(demands := demands), Desired(demands, now), port);
    case Cancel(demandId) =>
      var demands := s.demands - {demandId};
      DesiredIsKeyed(demands, now);
      ReconcileSettles(s.(demands := demands), Desired(demands, now), port);
    case Expire =>
      var demands := s.demands - Expired(s.demands, now);
      DesiredIsKeyed(demands, now);
      ReconcileSettles(s.(demands := demands), Desired(demands, now), port);
    case Observe(key) =>
    case Refresh =>
      DesiredIsKeyed(s.demands, now);
      ReconcileSettles(s, Desired(s.demands, now), port);
  }

  /** Every call that reconciles, with a port that fails nowhere, leaves exactly the streams that the
      demands want. */
  lemma CleanCallIsInStep(s: State, call: Call, now: int, port: Port)
    requires Sound(s) && NothingFails(port)
    requires call.Refresh? || call.Expire? || (call.Cancel? && call.demandId in s.demands)
      || (call.Request? && Add(s.demands, call.demand, now).0 in {Added, AlreadyHeld})
    ensures var t := Perform(s, call, now, port).state; InStep(t, Desired(t.demands, now))
  {
    var demands := match call
      case Request(demand) => Add(s.demands, demand, now).1
      case Cancel(demandId) => s.demands - {demandId}
      case Expire => s.demands - Expired(s.demands, now)
      case _ => s.demands;
    if call.Request? { AddKeepsCompatible(s.demands, call.demand, now); }
    DesiredIsKeyed(demands, now);
    var u := s.(demands := demands);
    ReconcileSettles(u, Desired(demands, now), port);
    CleanReconcileReachesDesired(u, Desired(demands, now), port);
  }

  // Runs

  datatype Step = Step(call: Call, now: int, port: Port)

  function Run(s: State, steps: seq<Step>): State
    decreases |steps|
  {
    if steps == [] then s
    else Run(Perform(s, steps[0].call, steps[0].now, steps[0].port).state, steps[1..])
  }

  /** Over every run, whatever the port fails: what the provider holds is what the coordinator believes,
      every command made sense when it was issued, observed streams are subscribed ones, and no stream is
      ever wanted with two requirements. */
  lemma {:induction false} RunsKeepSound(s: State, steps: seq<Step>)
    requires Sound(s)
    ensures Sound(Run(s, steps))
    decreases |steps|
  {
    if steps != [] {
      PerformKeepsSound(s, steps[0].call, steps[0].now, steps[0].port);
      RunsKeepSound(Perform(s, steps[0].call, steps[0].now, steps[0].port).state, steps[1..]);
    }
  }

  lemma EmptyIsSound()
    ensures Sound(State(map[], map[], {}, []))
  {
  }
}
