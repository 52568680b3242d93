/** The demand reconciler as the program keeps it: one dictionary, updated in place. */
module DemandReconciliation {
  import opened Prelude
  import opened Demand
  import D = Demand

  lemma GroupsOfNone()
    ensures Streams([]) == {}
  {
  }

  /** Demands for one stream that do not agree on its requirement. */
  ghost predicate Mixed(group: seq<ObservationDemand>) {
    exists x, y :: x in group && y in group && x.requirement != y.requirement
  }

  class DemandReconciler {
    var demands: Demands

    constructor ()
      ensures demands == map[]
    {
      demands := map[];
    }

    method Add(demand: ObservationDemand, now: int) returns (outcome: AddOutcome)
      modifies this
      ensures (outcome, demands) == D.Add(old(demands), demand, now)
    {
      if demand.IsExpired(now) { return ExpiredDemand; }
      if demand.demandId in demands {
        return if demands[demand.demandId] == demand then AlreadyHeld else IdTaken;
      }
      var conflict := RejectStreamConflict(demand);
      if conflict { return StreamConflict; }
      demands := demands[demand.demandId := demand];
      return Added;
    }

    method RejectStreamConflict(demand: ObservationDemand) returns (conflict: bool)
      ensures conflict == Conflicts(demands, demand)
    {
      var ids := Ascending(demands.Keys);
      for i := 0 to |ids|
        invariant forall j :: 0 <= j < i ==>
          !(demands[ids[j]].requirement.streamKey == demand.requirement.streamKey
            && demands[ids[j]].requirement != demand.requirement)
      {
        assert ids[i] in ids;
        var existing := demands[ids[i]];
        if existing.requirement.streamKey == demand.requirement.streamKey && existing.requirement != demand.requirement {
          return true;
        }
      }
      assert forall id :: id in demands ==> id in ids;
      return false;
    }

    method Remove(demandId: Id) returns (removed: bool)
      modifies this
      ensures removed == (demandId in old(demands)) && demands == old(demands) - {demandId}
    {
      removed := demandId in demands;
      demands := demands - {demandId};
    }

    method Expire(now: int) returns (expired: seq<Id>)
      modifies this
      ensures expired == Ascending(Expired(old(demands), now))
      ensures demands == old(demands) - Expired(old(demands), now)
    {
      expired := Ascending(Expired(demands, now));
      for i := 0 to |expired|
        invariant demands == old(demands) - (set j | 0 <= j < i :: expired[j])
      {
        demands := demands - {expired[i]};
      }
      assert (set j | 0 <= j < |expired| :: expired[j]) == Expired(old(demands), now);
    }

    static method GroupByStream(current: seq<ObservationDemand>) returns (grouped: map<Id, seq<ObservationDemand>>)
      ensures grouped.Keys == Streams(current)
      ensures forall key :: key in grouped ==> grouped[key] == ForStream(current, key)
    {
      hide Streams, ForStream;
      grouped := map[];
      GroupsOfNone();
      for i := 0 to |current|
        invariant grouped.Keys == Streams(current[..i])
        invariant forall key :: key in grouped ==> grouped[key] == ForStream(current[..i], key)
      {
        var key := current[i].requirement.streamKey;
        GroupGrows(current, i);
        grouped := grouped[key := (if key in grouped then grouped[key] else []) + [current[i]]];
      }
      assert current[..|current|] == current;
    }

    static method MergeGroup(consumers: seq<ObservationDemand>) returns (merged: Option<ProviderDemand>)
      requires consumers != []
      ensures merged.None? <==> Mixed(consumers)
      ensures merged.Some? ==> merged.value == Aggregate(consumers)
    {
      assert consumers[0] in consumers;
      if exists x :: x in consumers && x.requirement != consumers[0].requirement { return None; }
      return Some(Aggregate(consumers));
    }

    static method MergeGroups(keys: seq<Id>, grouped: map<Id, seq<ObservationDemand>>)
      returns (conflict: bool, reconciled: seq<ProviderDemand>)
      requires forall i :: 0 <= i < |keys| ==> keys[i] in grouped && grouped[keys[i]] != []
      ensures conflict ==> exists i :: 0 <= i < |keys| && Mixed(grouped[keys[i]])
      ensures !conflict ==>
        |reconciled| == |keys| && forall i :: 0 <= i < |keys| ==> reconciled[i] == Aggregate(grouped[keys[i]])
    {
      hide Aggregate;
      reconciled := [];
      conflict := false;
      for i := 0 to |keys|
        invariant |reconciled| == i && forall j :: 0 <= j < i ==> reconciled[j] == Aggregate(grouped[keys[j]])
      {
        var merged := MergeGroup(grouped[keys[i]]);
        if merged.None? { return true, []; }
        reconciled := reconciled + [merged.value];
      }
    }

    /** Group the unexpired demands by stream and merge each group. Never raises on compatible demands. */
    method ProviderDemands(now: int) returns (conflict: bool, reconciled: seq<ProviderDemand>)
      ensures Keyed(demands) && Compatible(demands) ==> !conflict
      ensures !conflict ==>
        var keys := Ascending(Desired(demands, now).Keys);
        |reconciled| == |keys| && forall i :: 0 <= i < |keys| ==>
          keys[i] in Desired(demands, now) && reconciled[i] == Desired(demands, now)[keys[i]]
    {
      hide Aggregate, Compatible, Current, Streams;
      var current := Current(demands, now);
      var grouped := GroupByStream(current);
      var keys := Ascending(grouped.Keys);
      forall i | 0 <= i < |keys| ensures keys[i] in grouped && grouped[keys[i]] != [] {
        assert keys[i] in keys;
        SomeoneAsks(current, keys[i]);
      }
      conflict, reconciled := MergeGroups(keys, grouped);
      if conflict {
        ghost var i :| 0 <= i < |keys| && Mixed(grouped[keys[i]]);
        OneRequirement(demands, now, keys[i]);
      }
    }
  }
}
