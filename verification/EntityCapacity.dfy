/** Eviction restores every limit, with at most two victims, exactly when that is possible at all. */
module EntityCapacity {
  import opened Prelude
  import opened EntityBook

  // Removing entities

  lemma SubsetCounts(a: set<Id>, b: set<Id>)
    requires a <= b
    ensures |a| <= |b|
  {
    var rest := b - a;
    assert b == a + rest;
    assert |b| == |a| + |rest|;
  }

  lemma RemovalLowersCounts(b: Book, gone: set<Id>, i: Id, t: Id)
    ensures |OfInstrument(Without(b, gone), i)| <= |OfInstrument(b, i)|
    ensures |OfType(Without(b, gone), i, t)| <= |OfType(b, i, t)|
    ensures |Without(b, gone)| <= |b|
  {
    SubsetCounts(OfInstrument(Without(b, gone), i), OfInstrument(b, i));
    SubsetCounts(OfType(Without(b, gone), i, t), OfType(b, i, t));
    assert Without(b, gone).Keys == b.Keys - gone;
    SubsetCounts(Without(b, gone).Keys, b.Keys);
  }

  /** Removing more entities breaks no limit. */
  lemma RemovalStaysWithin(l: Limits, b: Book, gone: set<Id>)
    requires Within(l, b)
    ensures Within(l, Without(b, gone))
  {
    RemovalLowersCounts(b, gone, 0, 0);
    forall i ensures |OfInstrument(Without(b, gone), i)| <= l.perInstrument {
      RemovalLowersCounts(b, gone, i, 0);
    }
    forall i, t ensures |OfType(Without(b, gone), i, t)| <= l.perType {
      RemovalLowersCounts(b, gone, i, t);
    }
  }

  lemma RemovingOne(b: Book, id: Id)
    requires id in b
    ensures OfInstrument(Without(b, {id}), b[id].instrument) == OfInstrument(b, b[id].instrument) - {id}
    ensures OfType(Without(b, {id}), b[id].instrument, b[id].entityType)
         == OfType(b, b[id].instrument, b[id].entityType) - {id}
    ensures |OfInstrument(Without(b, {id}), b[id].instrument)| == |OfInstrument(b, b[id].instrument)| - 1
    ensures |OfType(Without(b, {id}), b[id].instrument, b[id].entityType)|
         == |OfType(b, b[id].instrument, b[id].entityType)| - 1
  {
    assert id in OfInstrument(b, b[id].instrument) && id in OfType(b, b[id].instrument, b[id].entityType);
  }

  // The arrival of one entity

  /** The limits hold everywhere but in the newcomer's scopes, and there they are exceeded by at most one. */
  ghost predicate Crowded(l: Limits, b: Book, r: EntityRevision) {
    && |b| <= l.maximum + 1
    && (forall i :: |OfInstrument(b, i)| <= if i == r.instrument then l.perInstrument + 1 else l.perInstrument)
    && (forall i, t :: |OfType(b, i, t)| <=
                       if i == r.instrument && t == r.entityType then l.perType + 1 else l.perType)
  }

  lemma ArrivalCrowds(l: Limits, b: Book, r: EntityRevision)
    requires Within(l, b) && r.entityId !in b
    ensures Crowded(l, b[r.entityId := r], r)
  {
    var c: Book := b[r.entityId := r];
    forall i ensures |OfInstrument(c, i)| <= if i == r.instrument then l.perInstrument + 1 else l.perInstrument {
      ArrivalCounts(b, r, i, 0);
    }
    forall i, t
      ensures |OfType(c, i, t)| <= if i == r.instrument && t == r.entityType then l.perType + 1 else l.perType
    {
      ArrivalCounts(b, r, i, t);
    }
  }

  lemma ArrivalCounts(b: Book, r: EntityRevision, i: Id, t: Id)
    requires r.entityId !in b
    ensures var c: Book := b[r.entityId := r];
      && |OfInstrument(c, i)| == |OfInstrument(b, i)| + (if i == r.instrument then 1 else 0)
      && |OfType(c, i, t)| == |OfType(b, i, t)| + (if i == r.instrument && t == r.entityType then 1 else 0)
  {
    ArrivalJoins(b, r, i, t);
    hide OfInstrument, OfType;
    OnlyNewcomers(b, r, i, t);
  }

  lemma ArrivalJoins(b: Book, r: EntityRevision, i: Id, t: Id)
    requires r.entityId !in b
    ensures var c: Book := b[r.entityId := r];
      && OfInstrument(c, i) == (if i == r.instrument then OfInstrument(b, i) + {r.entityId} else OfInstrument(b, i))
      && OfType(c, i, t) ==
         (if i == r.instrument && t == r.entityType then OfType(b, i, t) + {r.entityId} else OfType(b, i, t))
  {
  }

  lemma OnlyNewcomers(b: Book, r: EntityRevision, i: Id, t: Id)
    requires r.entityId !in b
    ensures r.entityId !in OfInstrument(b, i) && r.entityId !in OfType(b, i, t)
  {
  }

  lemma CrowdedStays(l: Limits, b: Book, r: EntityRevision, gone: set<Id>)
    requires Crowded(l, b, r)
    ensures Crowded(l, Without(b, gone), r)
  {
    forall i ensures |OfInstrument(Without(b, gone), i)| <=
                     if i == r.instrument then l.perInstrument + 1 else l.perInstrument
    {
      RemovalLowersCounts(b, gone, i, 0);
    }
    forall i, t ensures |OfType(Without(b, gone), i, t)| <=
                        if i == r.instrument && t == r.entityType then l.perType + 1 else l.perType
    {
      RemovalLowersCounts(b, gone, i, t);
    }
    RemovalLowersCounts(b, gone, 0, 0);
  }

  lemma NoViolationIsWithin(l: Limits, b: Book, r: EntityRevision)
    requires Crowded(l, b, r)
    ensures ViolatingScope(l, b, r).None? <==> Within(l, b)
  {
  }

  // Which evictions are possible

  /** Terminal entities other than the newcomer. */
  ghost predicate MayGo(b: Book, r: EntityRevision, gone: set<Id>) {
    forall id :: id in gone ==> id in b && id != r.entityId && b[id].Terminal()
  }

  /** Some set of evictions would restore every limit. */
  ghost predicate Restorable(l: Limits, b: Book, r: EntityRevision) {
    exists gone :: MayGo(b, r, gone) && Within(l, Without(b, gone))
  }

  lemma StuckIsNotRestorable(l: Limits, b: Book, r: EntityRevision, scope: Scope)
    requires ViolatingScope(l, b, r) == Some(scope) && Candidates(b, r, scope) == {}
    ensures !Restorable(l, b, r)
  {
    forall gone | MayGo(b, r, gone) ensures !Within(l, Without(b, gone)) {
      var c := Without(b, gone);
      forall id | id in gone ensures !InScope(scope, r, b[id]) {
        assert id !in Candidates(b, r, scope);
      }
      hide Within, MayGo;
      match scope
      case INSTRUMENT => assert OfInstrument(c, r.instrument) == OfInstrument(b, r.instrument);
      case TYPE => assert OfType(c, r.instrument, r.entityType) == OfType(b, r.instrument, r.entityType);
      case EVERYTHING => assert gone == {}; assert c == b;
    }
  }

  /** Evicting any candidate keeps a restorable book restorable. */
  lemma EvictingStaysRestorable(l: Limits, b: Book, r: EntityRevision, victim: Id)
    requires victim in b && victim != r.entityId && b[victim].Terminal()
    ensures Restorable(l, b, r) <==> Restorable(l, Without(b, {victim}), r)
  {
    hide Within, MayGo;
    if Restorable(l, b, r) {
      var gone :| MayGo(b, r, gone) && Within(l, Without(b, gone));
      LessToEvict(l, b, r, victim, gone);
    }
    if Restorable(l, Without(b, {victim}), r) {
      var gone :| MayGo(Without(b, {victim}), r, gone) && Within(l, Without(Without(b, {victim}), gone));
      MoreToEvict(b, r, victim, gone);
    }
  }

  lemma LessToEvict(l: Limits, b: Book, r: EntityRevision, victim: Id, gone: set<Id>)
    requires MayGo(b, r, gone) && Within(l, Without(b, gone))
    ensures MayGo(Without(b, {victim}), r, gone - {victim})
    ensures Within(l, Without(Without(b, {victim}), gone - {victim}))
  {
    RemovalStaysWithin(l, Without(b, gone), {victim});
    EvictionOrder(b, gone, {victim});
    MayStillGo(b, r, victim, gone);
    hide Within, MayGo, Without;
  }

  lemma EvictionOrder(b: Book, gone: set<Id>, more: set<Id>)
    ensures Without(Without(b, gone), more) == Without(Without(b, more), gone - more)
  {
  }

  lemma MayStillGo(b: Book, r: EntityRevision, victim: Id, gone: set<Id>)
    requires MayGo(b, r, gone)
    ensures MayGo(Without(b, {victim}), r, gone - {victim})
  {
  }

  lemma MoreToEvict(b: Book, r: EntityRevision, victim: Id, gone: set<Id>)
    requires victim in b && victim != r.entityId && b[victim].Terminal() && MayGo(Without(b, {victim}), r, gone)
    ensures MayGo(b, r, {victim} + gone)
    ensures Without(Without(b, {victim}), gone) == Without(b, {victim} + gone)
  {
    WithoutTwice(b, {victim}, gone);
  }

  /** The eviction loop succeeds exactly when some set of evictions would do; what it evicts are
      distinct terminal entities other than the newcomer, and it leaves every limit restored. */
  lemma {:induction false} EnforceIsComplete(l: Limits, b: Book, r: EntityRevision)
    requires Crowded(l, b, r)
    ensures Enforce(l, b, r).Some? <==> Restorable(l, b, r)
    ensures Enforce(l, b, r).Some? ==>
      var evicted := Enforce(l, b, r).value;
      && MayGo(b, r, Elements(evicted)) && Distinct(evicted) && Within(l, Without(b, Elements(evicted)))
    decreases |b|
  {
    NoViolationIsWithin(l, b, r);
    var scope := ViolatingScope(l, b, r);
    if scope.None? {
      assert Without(b, Elements([])) == b && MayGo(b, r, Elements([]));
    } else {
      var candidates := Candidates(b, r, scope.value);
      if candidates == {} {
        StuckIsNotRestorable(l, b, r, scope.value);
      } else {
        EnforceStep(l, b, r);
      }
    }
  }

  lemma EnforceStep(l: Limits, b: Book, r: EntityRevision)
    requires Crowded(l, b, r) && ViolatingScope(l, b, r).Some?
    requires Candidates(b, r, ViolatingScope(l, b, r).value) != {}
    ensures Enforce(l, b, r).Some? <==> Restorable(l, b, r)
    ensures Enforce(l, b, r).Some? ==>
      var evicted := Enforce(l, b, r).value;
      && MayGo(b, r, Elements(evicted)) && Distinct(evicted) && Within(l, Without(b, Elements(evicted)))
    decreases |b|, 0
  {
    hide Crowded, Within, Restorable;
    var victim := Oldest(b, Candidates(b, r, ViolatingScope(l, b, r).value));
    var c := Without(b, {victim});
    RemovalCounts(b, victim);
    CrowdedStays(l, b, r, {victim});
    EvictingStaysRestorable(l, b, r, victim);
    EnforceIsComplete(l, c, r);
    if Enforce(l, c, r).Some? {
      PrependVictim(b, r, victim, Enforce(l, c, r).value);
    }
  }

  lemma PrependVictim(b: Book, r: EntityRevision, victim: Id, rest: seq<Id>)
    requires victim in b && victim != r.entityId && b[victim].Terminal()
    requires MayGo(Without(b, {victim}), r, Elements(rest)) && Distinct(rest)
    ensures MayGo(b, r, Elements([victim] + rest)) && Distinct([victim] + rest)
    ensures Without(Without(b, {victim}), Elements(rest)) == Without(b, Elements([victim] + rest))
  {
    WithoutTwice(b, {victim}, Elements(rest));
    assert Elements([victim] + rest) == {victim} + Elements(rest);
    assert forall id :: id in rest ==> id in Elements(rest);
  }

  // At most two victims

  ghost predicate TypeFits(l: Limits, b: Book, r: EntityRevision) {
    |OfType(b, r.instrument, r.entityType)| <= l.perType
  }

  ghost predicate InstrumentFits(l: Limits, b: Book, r: EntityRevision) {
    |OfInstrument(b, r.instrument)| <= l.perInstrument
  }

  lemma EvictionEases(l: Limits, b: Book, r: EntityRevision, victim: Id)
    requires Crowded(l, b, r) && ViolatingScope(l, b, r).Some?
    requires victim in Candidates(b, r, ViolatingScope(l, b, r).value)
    ensures var c := Without(b, {victim});
      && |c| <= l.maximum && InstrumentFits(l, c, r)
      && (InstrumentFits(l, b, r) ==> TypeFits(l, c, r))
  {
    RemovalCounts(b, victim);
    RemovingOne(b, victim);
    RemovalLowersCounts(b, {victim}, r.instrument, r.entityType);
  }

  /** At most two entities are evicted, and two only when the newcomer's instrument was over its limit
      and the first victim was of another type. */
  lemma AtMostTwoVictims(l: Limits, b: Book, r: EntityRevision)
    requires Crowded(l, b, r) && Enforce(l, b, r).Some?
    ensures var evicted := Enforce(l, b, r).value;
      && |evicted| <= 2
      && (|evicted| == 2 ==> !InstrumentFits(l, b, r) && evicted[0] in b && b[evicted[0]].entityType != r.entityType
                             && evicted[1] in b && b[evicted[1]].entityType == r.entityType)
  {
    var scope := ViolatingScope(l, b, r);
    if scope.Some? {
      var first := Oldest(b, Candidates(b, r, scope.value));
      var c := Without(b, {first});
      RemovalCounts(b, first);
      CrowdedStays(l, b, r, {first});
      EvictionEases(l, b, r, first);
      var scope' := ViolatingScope(l, c, r);
      if scope'.Some? {
        assert scope' == Some(TYPE);
        var second := Oldest(c, Candidates(c, r, TYPE));
        RemovalCounts(c, second);
        CrowdedStays(l, c, r, {second});
        EvictionEases(l, c, r, second);
        assert ViolatingScope(l, Without(c, {second}), r).None?;
        RemovingOne(b, first);
      }
    }
  }
}
