/** What callers of the coordinator are told: each provider command with its outcome, after what became
    of the demands. */
module AcquisitionEvents {
  import opened Prelude
  import opened Demand
  import opened Acquisition
  import opened AcquisitionSafety

  /** The event that tells of a command: of a start by those who wanted the stream, of a stop by those
      who held it. */
  ghost predicate Tells(held: map<Id, ProviderDemand>, wanted: map<Id, ProviderDemand>, c: Command, e: LifecycleEvent) {
    var key := c.requirement.streamKey;
    && e.streamKey == key && e.demandId.None?
    && match c
       case Subscribe(_, done) =>
         e.state == (if done then SUBSCRIBED else FAILED) && key in wanted && e.consumers == wanted[key].consumers
       case Unsubscribe(_, done) =>
         e.state == (if done then COMPLETED else FAILED) && key in held && e.consumers == held[key].consumers
  }

  /** Each of the commands has its event, in order. */
  ghost predicate AllTold(
      held: map<Id, ProviderDemand>, wanted: map<Id, ProviderDemand>, commands: seq<Command>, events: seq<LifecycleEvent>)
  {
    |commands| == |events| && forall i :: 0 <= i < |commands| ==> Tells(held, wanted, commands[i], events[i])
  }

  /** Each further command has its event, in order. */
  ghost predicate ToldInOrder(
      held: map<Id, ProviderDemand>, wanted: map<Id, ProviderDemand>, p: Progress, q: Progress)
  {
    && p.state.commands <= q.state.commands && p.events <= q.events
    && AllTold(held, wanted, q.state.commands[|p.state.commands|..], q.events[|p.events|..])
  }

  lemma ToldBy(
      held: map<Id, ProviderDemand>, wanted: map<Id, ProviderDemand>, p: Progress, q: Progress, commands: seq<Command>,
      events: seq<LifecycleEvent>)
    requires q.state.commands == p.state.commands + commands && q.events == p.events + events
    requires AllTold(held, wanted, commands, events)
    ensures ToldInOrder(held, wanted, p, q)
  {
    assert q.state.commands[|p.state.commands|..] == commands && q.events[|p.events|..] == events;
  }

  lemma TellingJoins(held: map<Id, ProviderDemand>, wanted: map<Id, ProviderDemand>, p: Progress, q: Progress, r: Progress)
    requires ToldInOrder(held, wanted, p, q) && ToldInOrder(held, wanted, q, r)
    ensures ToldInOrder(held, wanted, p, r)
  {
    hide Tells;
    var c, d := q.state.commands[|p.state.commands|..], r.state.commands[|q.state.commands|..];
    var e, f := q.events[|p.events|..], r.events[|q.events|..];
    assert r.state.commands == p.state.commands + (c + d) && r.events == p.events + (e + f);
    ToldBy(held, wanted, p, r, c + d, e + f);
  }

  lemma StoppingOneTells(held: map<Id, ProviderDemand>, wanted: map<Id, ProviderDemand>, p: Progress, key: Id, port: Port)
    requires key in p.state.subscribed && key in held && p.state.subscribed[key] == held[key] && KeyedByStream(held)
    ensures ToldInOrder(held, wanted, p, UnsubscribeOne(p, key, port))
  {
    var c := Unsubscribe(held[key].requirement, port.unsubscribes(key));
    var e := ProviderEvent(if port.unsubscribes(key) then COMPLETED else FAILED, held[key]);
    assert Tells(held, wanted, c, e);
    ToldBy(held, wanted, p, UnsubscribeOne(p, key, port), [c], [e]);
  }

  lemma StartingOneTells(held: map<Id, ProviderDemand>, wanted: map<Id, ProviderDemand>, p: Progress, key: Id, port: Port)
    requires key in wanted && KeyedByStream(wanted)
    ensures ToldInOrder(held, wanted, p, SubscribeOne(p, key, wanted[key], port))
  {
    var q := SubscribeOne(p, key, wanted[key], port);
    if key in p.state.subscribed {
      ToldBy(held, wanted, p, q, [], []);
    } else {
      var c := Subscribe(wanted[key].requirement, port.subscribes(key));
      var e := ProviderEvent(if port.subscribes(key) then SUBSCRIBED else FAILED, wanted[key]);
      assert Tells(held, wanted, c, e);
      ToldBy(held, wanted, p, q, [c], [e]);
    }
  }

  lemma NothingTold(held: map<Id, ProviderDemand>, wanted: map<Id, ProviderDemand>, p: Progress)
    ensures ToldInOrder(held, wanted, p, p)
  {
  }

  lemma {:induction false} StoppingTells(
      held: map<Id, ProviderDemand>, wanted: map<Id, ProviderDemand>, p: Progress, keys: seq<Id>, port: Port)
    requires Distinct(keys) && KeyedByStream(held)
    requires forall i :: 0 <= i < |keys| ==>
      keys[i] in p.state.subscribed && keys[i] in held && p.state.subscribed[keys[i]] == held[keys[i]]
    ensures ToldInOrder(held, wanted, p, UnsubscribeAll(p, keys, port))
    decreases |keys|
  {
    if keys == [] {
      NothingTold(held, wanted, p);
    } else {
      var one := UnsubscribeOne(p, keys[0], port);
      StoppingOneTells(held, wanted, p, keys[0], port);
      assert forall i :: 0 <= i < |keys[1..]| ==> keys[1..][i] == keys[i + 1] && keys[i + 1] != keys[0];
      hide ToldInOrder;
      StoppingTells(held, wanted, one, keys[1..], port);
      TellingJoins(held, wanted, p, one, UnsubscribeAll(one, keys[1..], port));
    }
  }

  lemma {:induction false} StartingTells(
      held: map<Id, ProviderDemand>, wanted: map<Id, ProviderDemand>, p: Progress, keys: seq<Id>, port: Port)
    requires KeyedByStream(wanted) && forall i :: 0 <= i < |keys| ==> keys[i] in wanted
    ensures ToldInOrder(held, wanted, p, SubscribeAll(p, keys, wanted, port))
    decreases |keys|
  {
    if keys == [] {
      NothingTold(held, wanted, p);
    } else {
      var one := SubscribeOne(p, keys[0], wanted[keys[0]], port);
      StartingOneTells(held, wanted, p, keys[0], port);
      hide ToldInOrder;
      StartingTells(held, wanted, one, keys[1..], port);
      TellingJoins(held, wanted, p, one, SubscribeAll(one, keys[1..], wanted, port));
    }
  }

  lemma ReconcilingTells(s: State, wanted: map<Id, ProviderDemand>, port: Port)
    requires KeyedByStream(s.subscribed) && KeyedByStream(wanted)
    ensures ToldInOrder(s.subscribed, wanted, Progress(s, []), ReconcileTo(s, wanted, port))
  {
    var stale := Ascending(Stale(s, wanted));
    assert forall i :: 0 <= i < |stale| ==> stale[i] in Stale(s, wanted);
    hide ToldInOrder, UnsubscribeAll, SubscribeAll;
    StoppingTells(s.subscribed, wanted, Progress(s, []), stale, port);
    var stopped := UnsubscribeAll(Progress(s, []), stale, port);
    StartingTells(s.subscribed, wanted, stopped, Ascending(wanted.Keys), port);
    TellingJoins(s.subscribed, wanted, Progress(s, []), stopped, ReconcileTo(s, wanted, port));
  }

  // Calls

  /** What a call tells before any command. */
  ghost predicate Heading(s: State, call: Call, now: int, events: seq<LifecycleEvent>) {
    match call
    case Request(demand) =>
      var heard := LifecycleEvent(REQUESTED, demand.requirement.streamKey, Some(demand.demandId), []);
      var taken := LifecycleEvent(ACCEPTED, demand.requirement.streamKey, Some(demand.demandId), []);
      if demand.demandId in s.demands then events == [heard] else events == [heard, taken]
    case Cancel(id) =>
      id in s.demands && events == [LifecycleEvent(CANCELED, s.demands[id].requirement.streamKey, Some(id), [])]
    case Expire =>
      && (forall i :: 0 <= i < |events| ==>
            && events[i].demandId.Some? && events[i].demandId.value in s.demands
            && events[i] == LifecycleEvent(EXPIRED, s.demands[events[i].demandId.value].requirement.streamKey,
                                           events[i].demandId, []))
      && (forall id :: (exists i :: 0 <= i < |events| && events[i].demandId == Some(id)) <==>
            id in s.demands && s.demands[id].expiresAt.Some? && s.demands[id].expiresAt.value <= now)
      && (forall i, j :: 0 <= i < j < |events| ==> events[i].demandId != events[j].demandId)
    case _ => events == []
  }

  /** The call reconciles the subscriptions with the demands it leaves. */
  ghost predicate Reconciles(s: State, call: Call, now: int) {
    match call
    case Request(demand) => Add(s.demands, demand, now).0 in {Added, AlreadyHeld}
    case Cancel(id) => id in s.demands
    case Observe(_) => false
    case _ => true
  }

  /** The events of a reconciling call: what became of the demands, then one event per command. */
  ghost predicate ToldOf(s: State, call: Call, now: int, p: Progress) {
    exists heading: seq<LifecycleEvent> ::
      && Heading(s, call, now, heading) && heading <= p.events
      && ToldInOrder(s.subscribed, Desired(p.state.demands, now), Progress(s, heading), p)
  }

  lemma AfterTells(
      held: map<Id, ProviderDemand>, wanted: map<Id, ProviderDemand>, s: State, first: seq<LifecycleEvent>, p: Progress)
    requires ToldInOrder(held, wanted, Progress(s, []), p)
    ensures ToldInOrder(held, wanted, Progress(s, first), After(first, p)) && first <= After(first, p).events
  {
    hide AllTold;
    assert p.events[0..] == p.events;
    ToldBy(held, wanted, Progress(s, first), After(first, p), p.state.commands[|s.commands|..], p.events);
  }

  lemma {:induction false} StoppingKeepsDemands(p: Progress, keys: seq<Id>, port: Port)
    requires Distinct(keys) && forall i :: 0 <= i < |keys| ==> keys[i] in p.state.subscribed
    ensures UnsubscribeAll(p, keys, port).state.demands == p.state.demands
    decreases |keys|
  {
    if keys != [] {
      assert forall i :: 0 <= i < |keys[1..]| ==> keys[1..][i] == keys[i + 1] && keys[i + 1] != keys[0];
      StoppingKeepsDemands(UnsubscribeOne(p, keys[0], port), keys[1..], port);
    }
  }

  lemma {:induction false} StartingKeepsDemands(p: Progress, keys: seq<Id>, wanted: map<Id, ProviderDemand>, port: Port)
    requires forall i :: 0 <= i < |keys| ==> keys[i] in wanted
    ensures SubscribeAll(p, keys, wanted, port).state.demands == p.state.demands
    decreases |keys|
  {
    if keys != [] { StartingKeepsDemands(SubscribeOne(p, keys[0], wanted[keys[0]], port), keys[1..], wanted, port); }
  }

  lemma ReconcilingKeepsDemands(s: State, wanted: map<Id, ProviderDemand>, port: Port)
    ensures ReconcileTo(s, wanted, port).state.demands == s.demands
  {
    var stale := Ascending(Stale(s, wanted));
    assert forall i :: 0 <= i < |stale| ==> stale[i] in Stale(s, wanted);
    StoppingKeepsDemands(Progress(s, []), stale, port);
    StartingKeepsDemands(UnsubscribeAll(Progress(s, []), stale, port), Ascending(wanted.Keys), wanted, port);
  }

  lemma ExpiryHeads(s: State, now: int)
    requires Keyed(s.demands)
    ensures forall i :: 0 <= i < |Ascending(Expired(s.demands, now))| ==> Ascending(Expired(s.demands, now))[i] in s.demands
    ensures Heading(s, Expire, now, ExpiryEvents(s.demands, Ascending(Expired(s.demands, now))))
  {
    var ids := Ascending(Expired(s.demands, now));
    assert forall i :: 0 <= i < |ids| ==> ids[i] in Expired(s.demands, now);
    var events := ExpiryEvents(s.demands, ids);
    forall id ensures (exists i :: 0 <= i < |events| && events[i].demandId == Some(id)) <==>
      id in s.demands && s.demands[id].expiresAt.Some? && s.demands[id].expiresAt.value <= now
    {
      if id in Expired(s.demands, now) {
        assert id in ids;
        var i :| 0 <= i < |ids| && ids[i] == id;
        assert events[i].demandId == Some(id);
      }
    }
  }

  lemma TellsAfter(s: State, demands: Demands, call: Call, now: int, port: Port, heading: seq<LifecycleEvent>, p: Progress)
    requires Sound(s) && Keyed(demands) && Compatible(demands)
    requires Heading(s, call, now, heading) && p == After(heading, Reconcile(s.(demands := demands), now, port))
    ensures ToldOf(s, call, now, p)
  {
    hide Heading, ToldInOrder, Desired, Sound;
    assert KeyedByStream(s.subscribed) by { SoundIsKeyed(s); }
    var t := s.(demands := demands);
    var wanted := Desired(demands, now);
    DesiredIsKeyed(demands, now);
    ReconcilingTells(t, wanted, port);
    ReconcilingKeepsDemands(t, wanted, port);
    AfterTells(s.subscribed, wanted, t, heading, ReconcileTo(t, wanted, port));
    SameCommands(s.subscribed, wanted, Progress(t, heading), Progress(s, heading), p);
  }

  lemma SoundIsKeyed(s: State)
    requires Sound(s)
    ensures KeyedByStream(s.subscribed)
  {
  }

  lemma SameCommands(
      held: map<Id, ProviderDemand>, wanted: map<Id, ProviderDemand>, p: Progress, q: Progress, r: Progress)
    requires ToldInOrder(held, wanted, p, r) && p.state.commands == q.state.commands && p.events == q.events
    ensures ToldInOrder(held, wanted, q, r)
  {
  }

  /** Every reconciling call tells what became of the demands and then, one by one and in order, of each
      command it gave the port and how it came out. */
  lemma CallsTellTheirCommands(s: State, call: Call, now: int, port: Port)
    requires Sound(s) && Reconciles(s, call, now)
    ensures ToldOf(s, call, now, Perform(s, call, now, port))
  {
    var p := Perform(s, call, now, port);
    assert Keyed(s.demands) && Compatible(s.demands);
    hide Sound, ToldOf, Reconcile, Compatible;
    match call
    case Request(demand) =>
      AddKeepsCompatible(s.demands, demand, now);
      var heading := if demand.demandId in s.demands then [DemandEvent(REQUESTED, demand)]
                     else [DemandEvent(REQUESTED, demand), DemandEvent(ACCEPTED, demand)];
      TellsAfter(s, Add(s.demands, demand, now).1, call, now, port, heading, p);
    case Cancel(id) =>
      FewerAreCompatible(s.demands, {id});
      TellsAfter(s, s.demands - {id}, call, now, port, [DemandEvent(CANCELED, s.demands[id])], p);
    case Expire =>
      var expired := Expired(s.demands, now);
      ExpiryHeads(s, now);
      FewerAreCompatible(s.demands, expired);
      TellsAfter(s, s.demands - expired, call, now, port, ExpiryEvents(s.demands, Ascending(expired)), p);
    case Refresh =>
      AfterNothing(Reconcile(s, now, port));
      TellsAfter(s, s.demands, call, now, port, [], p);
  }

  lemma AfterNothing(p: Progress)
    ensures After([], p) == p
  {
    assert [] + p.events == p.events;
  }

  lemma FewerAreCompatible(d: Demands, gone: set<Id>)
    requires Keyed(d) && Compatible(d)
    ensures Keyed(d - gone) && Compatible(d - gone)
  {
  }

  /** A call that does not reconcile gives no command and tells only of a first observation. */
  lemma OthersGiveNoCommand(s: State, call: Call, now: int, port: Port)
    requires !Reconciles(s, call, now)
    ensures var p := Perform(s, call, now, port);
      if call.Observe? && call.streamKey in s.subscribed && call.streamKey !in s.observed
      then p.state == s.(observed := s.observed + {call.streamKey})
           && p.events == [LifecycleEvent(ACTIVE, s.subscribed[call.streamKey].requirement.streamKey, None,
                                          s.subscribed[call.streamKey].consumers)]
      else p == Progress(s, [])
  {
  }
}
