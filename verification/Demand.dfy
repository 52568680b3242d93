/** Many expiring consumer demands, merged into one provider demand per stream. */
module Demand {
  import opened Prelude

  /** What a stream is asked for: its logical key and everything else about the request. */
  datatype Requirement = Requirement(streamKey: Id, parameters: Id)

  datatype ObservationDemand = ObservationDemand(
    demandId: Id, owner: Id, requirement: Requirement, priority: int, expiresAt: Option<int>, purpose: Id)
  {
    predicate IsExpired(now: int) { expiresAt.Some? && expiresAt.value <= now }
  }

  datatype ProviderDemand = ProviderDemand(
    requirement: Requirement, consumers: seq<Id>, priority: int, expiresAt: Option<int>)

  datatype AddOutcome = Added | AlreadyHeld | ExpiredDemand | IdTaken | StreamConflict

  type Demands = map<Id, ObservationDemand>

  ghost predicate Keyed(d: Demands) {
    forall id :: id in d ==> d[id].demandId == id
  }

  /** No stream is asked for with two different requirements. */
  ghost predicate Compatible(d: Demands) {
    forall a, b :: a in d && b in d && d[a].requirement.streamKey == d[b].requirement.streamKey ==>
      d[a].requirement == d[b].requirement
  }

  predicate Conflicts(d: Demands, demand: ObservationDemand) {
    exists id :: id in d && d[id].requirement.streamKey == demand.requirement.streamKey
      && d[id].requirement != demand.requirement
  }

  function Add(d: Demands, demand: ObservationDemand, now: int): (AddOutcome, Demands) {
    if demand.IsExpired(now) then (ExpiredDemand, d)
    else if demand.demandId in d then (if d[demand.demandId] == demand then AlreadyHeld else IdTaken, d)
    else if Conflicts(d, demand) then (StreamConflict, d)
    else (Added, d[demand.demandId := demand])
  }

  function Expired(d: Demands, now: int): set<Id> {
    set id | id in d && d[id].IsExpired(now)
  }

  /** The demands that have not expired, by id. */
  function Current(d: Demands, now: int): (r: seq<ObservationDemand>) {
    var ids := Ascending(d.Keys - Expired(d, now));
    assert forall i :: 0 <= i < |ids| ==> ids[i] in d.Keys - Expired(d, now);
    seq(|ids|, i requires 0 <= i < |ids| => d[ids[i]])
  }

  /** Those of `demands` that ask for one stream. */
  function ForStream(demands: seq<ObservationDemand>, key: Id): (r: seq<ObservationDemand>)
    ensures forall x :: x in r <==> x in demands && x.requirement.streamKey == key
  {
    if demands == [] then []
    else if demands[0].requirement.streamKey == key then [demands[0]] + ForStream(demands[1..], key)
    else ForStream(demands[1..], key)
  }

  function Streams(demands: seq<ObservationDemand>): set<Id> {
    set x | x in demands :: x.requirement.streamKey
  }

  function MaxPriority(demands: seq<ObservationDemand>): (p: int)
    requires demands != []
    ensures (forall x :: x in demands ==> x.priority <= p) && exists x :: x in demands && x.priority == p
  {
    if |demands| == 1 then
      assert demands[0] in demands;
      demands[0].priority
    else
      var rest := MaxPriority(demands[1..]);
      assert demands == [demands[0]] + demands[1..];
      assert demands[0] in demands && forall x :: x in demands[1..] ==> x in demands;
      Max(demands[0].priority, rest)
  }

  /** Never, if some demand never expires; otherwise when the last of them does. */
  function LatestExpiry(demands: seq<ObservationDemand>): (e: Option<int>)
    requires demands != []
    ensures e.None? <==> exists x :: x in demands && x.expiresAt.None?
    ensures e.Some? ==>
      (forall x :: x in demands ==> x.expiresAt.Some? && x.expiresAt.value <= e.value)
      && exists x :: x in demands && x.expiresAt == e
  {
    if |demands| == 1 then
      assert demands[0] in demands;
      demands[0].expiresAt
    else
      var rest := LatestExpiry(demands[1..]);
      assert demands == [demands[0]] + demands[1..];
      assert demands[0] in demands && forall x :: x in demands[1..] ==> x in demands;
      if rest.None? || demands[0].expiresAt.None? then None
      else Some(Max(demands[0].expiresAt.value, rest.value))
  }

  function ConsumersOf(demands: seq<ObservationDemand>): seq<Id> {
    seq(|demands|, i requires 0 <= i < |demands| => demands[i].demandId)
  }

  function Aggregate(demands: seq<ObservationDemand>): ProviderDemand
    requires demands != []
  {
    ProviderDemand(demands[0].requirement, ConsumersOf(demands), MaxPriority(demands), LatestExpiry(demands))
  }

  lemma SomeoneAsks(demands: seq<ObservationDemand>, key: Id)
    requires key in Streams(demands)
    ensures ForStream(demands, key) != []
  {
    var x :| x in demands && x.requirement.streamKey == key;
    assert x in ForStream(demands, key);
  }

  /** One provider demand per stream that somebody currently asks for. */
  function Desired(d: Demands, now: int): (r: map<Id, ProviderDemand>)
    ensures r.Keys == Streams(Current(d, now))
  {
    var demands := Current(d, now);
    map key | key in Streams(demands) :: SomeoneAsks(demands, key); Aggregate(ForStream(demands, key))
  }

  // What the provider demands mean

  lemma CurrentMembers(d: Demands, now: int, x: ObservationDemand)
    requires Keyed(d)
    ensures x in Current(d, now) <==> x.demandId in d && d[x.demandId] == x && !x.IsExpired(now)
  {
    var ids := Ascending(d.Keys - Expired(d, now));
    assert forall i :: 0 <= i < |ids| ==> ids[i] in d.Keys - Expired(d, now);
    if x.demandId in d && d[x.demandId] == x && !x.IsExpired(now) {
      assert x.demandId in ids;
      var i :| 0 <= i < |ids| && ids[i] == x.demandId;
      assert Current(d, now)[i] == x;
    }
  }

  /** The unexpired demands for a stream. */
  ghost predicate Asks(d: Demands, now: int, key: Id, id: Id) {
    id in d && !d[id].IsExpired(now) && d[id].requirement.streamKey == key
  }

  lemma GroupMembers(d: Demands, now: int, key: Id, x: ObservationDemand)
    requires Keyed(d)
    ensures x in ForStream(Current(d, now), key) <==> x.demandId in d && d[x.demandId] == x && Asks(d, now, key, x.demandId)
  {
    CurrentMembers(d, now, x);
  }

  /** A stream is wanted exactly while an unexpired demand asks for it; its provider demand carries the
      one requirement they share, lists each of them, has the highest priority among them, and expires
      when the last of them does, if ever. */
  lemma DesiredIsTheirAggregate(d: Demands, now: int, key: Id)
    requires Keyed(d) && Compatible(d)
    ensures key in Desired(d, now) <==> exists id :: Asks(d, now, key, id)
    ensures key in Desired(d, now) ==>
      var p := Desired(d, now)[key];
      && (forall id :: Asks(d, now, key, id) ==>
            d[id].requirement == p.requirement && d[id].priority <= p.priority && id in p.consumers)
      && (forall id :: id in p.consumers ==> Asks(d, now, key, id))
      && (exists id :: Asks(d, now, key, id) && d[id].priority == p.priority)
      && (p.expiresAt.None? <==> exists id :: Asks(d, now, key, id) && d[id].expiresAt.None?)
      && (p.expiresAt.Some? ==>
            (forall id :: Asks(d, now, key, id) ==> d[id].expiresAt.Some? && d[id].expiresAt.value <= p.expiresAt.value)
            && exists id :: Asks(d, now, key, id) && d[id].expiresAt == p.expiresAt)
  {
    var demands := Current(d, now);
    var group := ForStream(demands, key);
    forall x ensures x in group <==> x.demandId in d && d[x.demandId] == x && Asks(d, now, key, x.demandId) {
      GroupMembers(d, now, key, x);
    }
    forall id | Asks(d, now, key, id) ensures key in Desired(d, now) {
      assert d[id].demandId == id && d[id] in demands;
    }
    if key in Desired(d, now) {
      SomeoneAsks(demands, key);
      GroupMeans(d, now, key, group);
    }
  }

  lemma GroupMeans(d: Demands, now: int, key: Id, group: seq<ObservationDemand>)
    requires Keyed(d) && Compatible(d) && group != []
    requires forall x :: x in group <==> x.demandId in d && d[x.demandId] == x && Asks(d, now, key, x.demandId)
    ensures var p := Aggregate(group);
      && (forall id :: Asks(d, now, key, id) ==>
            d[id].requirement == p.requirement && d[id].priority <= p.priority && id in p.consumers)
      && (forall id :: id in p.consumers ==> Asks(d, now, key, id))
      && (exists id :: Asks(d, now, key, id) && d[id].priority == p.priority)
      && (p.expiresAt.None? <==> exists id :: Asks(d, now, key, id) && d[id].expiresAt.None?)
      && (p.expiresAt.Some? ==>
            (forall id :: Asks(d, now, key, id) ==> d[id].expiresAt.Some? && d[id].expiresAt.value <= p.expiresAt.value)
            && exists id :: Asks(d, now, key, id) && d[id].expiresAt == p.expiresAt)
  {
    var p := Aggregate(group);
    assert group[0] in group;
    forall id | Asks(d, now, key, id)
      ensures d[id] in group && d[id].requirement == p.requirement && id in p.consumers
    {
      var i :| 0 <= i < |group| && group[i] == d[id];
      assert p.consumers[i] == id;
    }
    forall id | id in p.consumers ensures Asks(d, now, key, id) {
      var i :| 0 <= i < |p.consumers| && p.consumers[i] == id;
      assert group[i] in group;
    }
    var best :| best in group && best.priority == p.priority;
    assert Asks(d, now, key, best.demandId);
    if p.expiresAt.None? {
      var x :| x in group && x.expiresAt.None?;
      assert Asks(d, now, key, x.demandId);
    } else {
      var x :| x in group && x.expiresAt == p.expiresAt;
      assert Asks(d, now, key, x.demandId);
    }
  }

  /** Left alone, a wanted stream stays wanted exactly until its provider demand expires. */
  lemma WantedUntilItExpires(d: Demands, now: int, later: int, key: Id)
    requires Keyed(d) && Compatible(d) && now <= later && key in Desired(d, now)
    ensures key in Desired(d, later) <==>
      Desired(d, now)[key].expiresAt.None? || later < Desired(d, now)[key].expiresAt.value
  {
    DesiredIsTheirAggregate(d, now, key);
    DesiredIsTheirAggregate(d, later, key);
    var p := Desired(d, now)[key];
    forall id | Asks(d, later, key, id) ensures Asks(d, now, key, id) { }
    if p.expiresAt.None? {
      var id :| Asks(d, now, key, id) && d[id].expiresAt.None?;
      assert Asks(d, later, key, id);
    } else {
      var id :| Asks(d, now, key, id) && d[id].expiresAt == p.expiresAt;
      assert later < p.expiresAt.value ==> Asks(d, later, key, id);
    }
  }

  /** Adding succeeds only when it keeps the demands compatible; a refused demand changes nothing. */
  lemma AddKeepsCompatible(d: Demands, demand: ObservationDemand, now: int)
    requires Keyed(d) && Compatible(d)
    ensures var (outcome, e) := Add(d, demand, now);
      && Keyed(e) && Compatible(e)
      && (outcome == Added <==> !demand.IsExpired(now) && demand.demandId !in d && Compatible(d[demand.demandId := demand]))
      && (outcome != Added ==> e == d)
  {
    var grown := d[demand.demandId := demand];
    if demand.demandId !in d && Compatible(grown) {
      forall id | id in d && d[id].requirement.streamKey == demand.requirement.streamKey
        ensures d[id].requirement == demand.requirement
      {
        assert grown[id] == d[id] && grown[demand.demandId] == demand;
      }
    }
  }

  lemma {:induction false} ForStreamAppends(a: seq<ObservationDemand>, x: ObservationDemand, key: Id)
    ensures ForStream(a + [x], key) == ForStream(a, key) + (if x.requirement.streamKey == key then [x] else [])
  {
    if a != [] {
      assert (a + [x])[1..] == a[1..] + [x];
      ForStreamAppends(a[1..], x, key);
    }
  }

  lemma GroupGrows(current: seq<ObservationDemand>, i: nat)
    requires i < |current|
    ensures Streams(current[..i + 1]) == Streams(current[..i]) + {current[i].requirement.streamKey}
    ensures forall key :: (
      ForStream(current[..i + 1], key) ==
      ForStream(current[..i], key) + (if current[i].requirement.streamKey == key then [current[i]] else []))
    ensures current[i].requirement.streamKey !in Streams(current[..i]) ==>
      ForStream(current[..i], current[i].requirement.streamKey) == []
  {
    assert current[..i + 1] == current[..i] + [current[i]];
    forall key ensures ForStream(current[..i + 1], key) ==
      ForStream(current[..i], key) + (if current[i].requirement.streamKey == key then [current[i]] else [])
    {
      ForStreamAppends(current[..i], current[i], key);
    }
    var key := current[i].requirement.streamKey;
    if ForStream(current[..i], key) != [] {
      assert ForStream(current[..i], key)[0] in current[..i];
    }
  }

  lemma OneRequirement(d: Demands, now: int, key: Id)
    ensures Keyed(d) && Compatible(d) ==>
      forall x, y :: x in ForStream(Current(d, now), key) && y in ForStream(Current(d, now), key) ==>
        x.requirement == y.requirement
  {
    if Keyed(d) && Compatible(d) {
      forall x, y | x in ForStream(Current(d, now), key) && y in ForStream(Current(d, now), key)
        ensures x.requirement == y.requirement
      {
        GroupMembers(d, now, key, x);
        GroupMembers(d, now, key, y);
      }
    }
  }
}
