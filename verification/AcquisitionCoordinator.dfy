/** The coordinator as the program runs it: subscriptions and observations updated in place around a port. */
module AcquisitionCoordination {
  import opened Prelude
  import opened Demand
  import opened DemandReconciliation
  import opened Acquisition
  import S = AcquisitionSafety

  lemma SameMap(m: map<Id, ProviderDemand>, wanted: map<Id, ProviderDemand>)
    requires forall key :: key in m <==> key in wanted
    requires forall key :: key in m ==> m[key] == wanted[key]
    ensures m == wanted
  {
    assert m.Keys == wanted.Keys by {
      forall key ensures key in m <==> key in wanted { }
    }
    SameValues(m, wanted);
  }

  lemma SameValues(m: map<Id, ProviderDemand>, wanted: map<Id, ProviderDemand>)
    requires m.Keys == wanted.Keys
    requires forall key :: key in m ==> m[key] == wanted[key]
    ensures m == wanted
  {
    assert forall key :: key in m ==> m[key] == wanted[key];
  }

  class AcquisitionCoordinator {
    const reconciler: DemandReconciler
    var subscribed: map<Id, ProviderDemand>
    var observed: set<Id>
    /** Everything the port was told. */
    ghost var commands: seq<Command>

    ghost function Now(): State
      reads this, reconciler
    {
      State(reconciler.demands, subscribed, observed, commands)
    }

    constructor ()
      ensures Now() == State(map[], map[], {}, []) && S.Sound(Now()) && fresh(reconciler)
    {
      var held := new DemandReconciler();
      reconciler := held;
      subscribed, observed, commands := map[], {}, [];
    }

    /** The port raises when `done` is false, and then nothing happened. */
    method TellPort(command: Command)
      modifies this`commands
      ensures commands == old(commands) + [command]
    {
      commands := commands + [command];
    }

    method UnsubscribeOne(key: Id, port: Port) returns (event: LifecycleEvent)
      requires key in subscribed
      modifies this
      ensures Progress(Now(), [event]) == Acquisition.UnsubscribeOne(Progress(old(Now()), []), key, port)
    {
      var held := subscribed[key];
      TellPort(Unsubscribe(held.requirement, port.unsubscribes(key)));
      if !port.unsubscribes(key) { return ProviderEvent(FAILED, held); }
      subscribed := subscribed - {key};
      observed := observed - {key};
      return ProviderEvent(COMPLETED, held);
    }

    method SubscribeOne(key: Id, wanted: ProviderDemand, port: Port) returns (events: seq<LifecycleEvent>)
      modifies this
      ensures Progress(Now(), events) == Acquisition.SubscribeOne(Progress(old(Now()), []), key, wanted, port)
    {
      if key in subscribed {
        if subscribed[key].requirement == wanted.requirement { subscribed := subscribed[key := wanted]; }
        return [];
      }
      TellPort(Subscribe(wanted.requirement, port.subscribes(key)));
      if !port.subscribes(key) { return [ProviderEvent(FAILED, wanted)]; }
      subscribed := subscribed[key := wanted];
      return [ProviderEvent(SUBSCRIBED, wanted)];
    }

    method UnsubscribeAll(keys: seq<Id>, port: Port) returns (events: seq<LifecycleEvent>)
      requires Distinct(keys) && forall i :: 0 <= i < |keys| ==> keys[i] in subscribed
      modifies this
      ensures Progress(Now(), events) == Acquisition.UnsubscribeAll(Progress(old(Now()), []), keys, port)
    {
      hide Acquisition.UnsubscribeOne;
      events := [];
      ghost var goal := Acquisition.UnsubscribeAll(Progress(Now(), []), keys, port);
      for i := 0 to |keys|
        invariant Distinct(keys[i..]) && forall j :: i <= j < |keys| ==> keys[j] in subscribed
        invariant Acquisition.UnsubscribeAll(Progress(Now(), events), keys[i..], port) == goal
      {
        UnsubscribeStep(Progress(Now(), events), keys[i..], port);
        assert keys[i..][1..] == keys[i + 1..] && keys[i..][0] == keys[i];
        assert forall j :: i < j < |keys| ==> keys[i..][1..][j - i - 1] == keys[j];
        var event := UnsubscribeOne(keys[i], port);
        events := events + [event];
      }
      assert keys[|keys|..] == [];
    }

    method SubscribeAll(keys: seq<Id>, desired: map<Id, ProviderDemand>, port: Port)
      returns (events: seq<LifecycleEvent>)
      requires forall i :: 0 <= i < |keys| ==> keys[i] in desired
      modifies this
      ensures Progress(Now(), events) == Acquisition.SubscribeAll(Progress(old(Now()), []), keys, desired, port)
    {
      hide Acquisition.SubscribeOne;
      events := [];
      ghost var goal := Acquisition.SubscribeAll(Progress(Now(), []), keys, desired, port);
      for i := 0 to |keys|
        invariant Acquisition.SubscribeAll(Progress(Now(), events), keys[i..], desired, port) == goal
      {
        SubscribeReports(Progress(Now(), events), keys[i], desired[keys[i]], port);
        assert keys[i..][1..] == keys[i + 1..] && keys[i..][0] == keys[i];
        var reported := SubscribeOne(keys[i], desired[keys[i]], port);
        events := events + reported;
      }
      assert keys[|keys|..] == [];
    }

    /** A list of provider demands, by stream. */
    static method ByStream(list: seq<ProviderDemand>, ghost keys: seq<Id>, ghost wanted: map<Id, ProviderDemand>)
      returns (m: map<Id, ProviderDemand>)
      requires |list| == |keys| && S.KeyedByStream(wanted) && forall key :: key in keys <==> key in wanted
      requires forall i :: 0 <= i < |keys| ==> keys[i] in wanted && list[i] == wanted[keys[i]]
      ensures m == wanted
    {
      m := map[];
      for i := 0 to |list|
        invariant forall key :: key in m <==> key in keys[..i]
        invariant forall key :: key in m ==> key in wanted && m[key] == wanted[key]
      {
        assert keys[..i + 1] == keys[..i] + [keys[i]];
        ghost var key := keys[i];
        assert key in wanted && list[i].requirement.streamKey == key;
        m := m[list[i].requirement.streamKey := list[i]];
      }
      assert keys[..|list|] == keys;
      SameMap(m, wanted);
    }

    /** The provider demands, by stream. */
    method DesiredNow(now: int) returns (desired: map<Id, ProviderDemand>)
      requires Keyed(reconciler.demands) && Compatible(reconciler.demands)
      ensures desired == Desired(reconciler.demands, now)
    {
      hide Desired, Compatible;
      var conflict, list := reconciler.ProviderDemands(now);
      ghost var wanted := Desired(reconciler.demands, now);
      S.DesiredIsKeyed(reconciler.demands, now);
      desired := ByStream(list, Ascending(wanted.Keys), wanted);
    }

    method Reconcile(now: int, port: Port) returns (events: seq<LifecycleEvent>)
      requires Keyed(reconciler.demands) && Compatible(reconciler.demands)
      modifies this
      ensures Progress(Now(), events) == Acquisition.Reconcile(old(Now()), now, port)
    {
      hide Acquisition.UnsubscribeAll, Acquisition.SubscribeAll, Desired;
      var desired := DesiredNow(now);
      var stale := Ascending(set key | key in subscribed
        && (key !in desired || subscribed[key].requirement != desired[key].requirement));
      assert stale == Ascending(Stale(Now(), desired));
      var stopped := UnsubscribeAll(stale, port);
      SubscribeAfter(Now(), stopped, Ascending(desired.Keys), desired, port);
      var started := SubscribeAll(Ascending(desired.Keys), desired, port);
      events := stopped + started;
    }

    method Request(demand: ObservationDemand, now: int, port: Port)
      returns (refused: bool, events: seq<LifecycleEvent>)
      requires S.Sound(Now())
      modifies this, reconciler
      ensures Progress(Now(), events) == Perform(old(Now()), Call.Request(demand), now, port) && S.Sound(Now())
      ensures refused == (Add(old(Now()).demands, demand, now).0 !in {Added, AlreadyHeld})
    {
      hide S.Consistent, Acquisition.Reconcile, Add;
      S.PerformKeepsSound(Now(), Call.Request(demand), now, port);
      AddKeepsCompatible(reconciler.demands, demand, now);
      var outcome := reconciler.Add(demand, now);
      if outcome !in {Added, AlreadyHeld} { return true, []; }
      events := [DemandEvent(REQUESTED, demand)];
      if outcome == Added { events := events + [DemandEvent(ACCEPTED, demand)]; }
      var reconciled := Reconcile(now, port);
      return false, events + reconciled;
    }

    method Cancel(demandId: Id, now: int, port: Port) returns (events: seq<LifecycleEvent>)
      requires S.Sound(Now())
      modifies this, reconciler
      ensures Progress(Now(), events) == Perform(old(Now()), Call.Cancel(demandId), now, port) && S.Sound(Now())
    {
      hide S.Consistent, Acquisition.Reconcile;
      S.PerformKeepsSound(Now(), Call.Cancel(demandId), now, port);
      if demandId !in reconciler.demands { return []; }
      var demand := reconciler.demands[demandId];
      var removed := reconciler.Remove(demandId);
      events := Reconcile(now, port);
      events := [DemandEvent(CANCELED, demand)] + events;
    }

    method Expire(now: int, port: Port) returns (events: seq<LifecycleEvent>)
      requires S.Sound(Now())
      modifies this, reconciler
      ensures Progress(Now(), events) == Perform(old(Now()), Call.Expire, now, port) && S.Sound(Now())
    {
      hide S.Consistent, Acquisition.Reconcile;
      S.PerformKeepsSound(Now(), Call.Expire, now, port);
      var held := reconciler.demands;
      var expired := reconciler.Expire(now);
      events := Reconcile(now, port);
      events := ExpiryEvents(held, expired) + events;
    }

    method Observe(streamKey: Id) returns (event: Option<LifecycleEvent>)
      requires S.Sound(Now())
      modifies this`observed
      ensures S.Sound(Now()) && forall now, port ::
        Progress(Now(), if event.Some? then [event.value] else []) ==
        Perform(old(Now()), Call.Observe(streamKey), now, port)
    {
      if streamKey !in subscribed || streamKey in observed { return None; }
      observed := observed + {streamKey};
      return Some(ProviderEvent(ACTIVE, subscribed[streamKey]));
    }
  }

  lemma UnsubscribeStep(p: Progress, keys: seq<Id>, port: Port)
    requires keys != [] && Distinct(keys) && forall i :: 0 <= i < |keys| ==> keys[i] in p.state.subscribed
    ensures var r := Acquisition.UnsubscribeOne(Progress(p.state, []), keys[0], port);
      && |r.events| == 1
      && Acquisition.UnsubscribeOne(p, keys[0], port) == Progress(r.state, p.events + r.events)
      && Distinct(keys[1..]) && (forall i :: 0 <= i < |keys[1..]| ==> keys[1..][i] in r.state.subscribed)
      && Acquisition.UnsubscribeAll(p, keys, port)
         == Acquisition.UnsubscribeAll(Progress(r.state, p.events + r.events), keys[1..], port)
  {
    assert forall i :: 0 <= i < |keys[1..]| ==> keys[1..][i] == keys[i + 1];
  }

  lemma SubscribeReports(p: Progress, key: Id, wanted: ProviderDemand, port: Port)
    ensures var r := Acquisition.SubscribeOne(Progress(p.state, []), key, wanted, port);
      Acquisition.SubscribeOne(p, key, wanted, port) == Progress(r.state, p.events + r.events)
  {
  }

  lemma {:induction false} SubscribeAfter(
      s: State, events: seq<LifecycleEvent>, keys: seq<Id>, desired: map<Id, ProviderDemand>, port: Port)
    requires forall i :: 0 <= i < |keys| ==> keys[i] in desired
    ensures var r := Acquisition.SubscribeAll(Progress(s, []), keys, desired, port);
      Acquisition.SubscribeAll(Progress(s, events), keys, desired, port) == Progress(r.state, events + r.events)
    decreases |keys|
  {
    if keys != [] {
      hide Acquisition.SubscribeOne;
      var wanted := desired[keys[0]];
      SubscribeReports(Progress(s, events), keys[0], wanted, port);
      var r := Acquisition.SubscribeOne(Progress(s, []), keys[0], wanted, port);
      SubscribeAfter(r.state, r.events, keys[1..], desired, port);
      SubscribeAfter(r.state, events + r.events, keys[1..], desired, port);
    }
  }
}
