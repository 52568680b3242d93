/** Which entities make room for a newcomer: the oldest terminal ones of the first limit it breaks. */
module EvictionOrder {
  import opened Prelude
  import opened EntityBook
  import opened EntityCapacity

  /** `x` was published no later than `y`; of two published at once it is the smaller id. */
  predicate NoYounger(c: Book, x: Id, y: Id)
    requires x in c && y in c
  {
    c[x].publishedAt < c[y].publishedAt || (c[x].publishedAt == c[y].publishedAt && x <= y)
  }

  /** The entity competes for room under the first limit that is broken: those of the newcomer's
      instrument, else those of its instrument and type, else all. */
  predicate Competes(l: Limits, c: Book, r: EntityRevision, id: Id) {
    && id in c && id != r.entityId && c[id].lifecycle in {COMPLETE, INVALIDATED, EXPIRED}
    && if |OfInstrument(c, r.instrument)| > l.perInstrument then c[id].instrument == r.instrument
       else if |OfType(c, r.instrument, r.entityType)| > l.perType
       then c[id].instrument == r.instrument && c[id].entityType == r.entityType
       else |c| > l.maximum
  }

  /** `id` is the oldest of those that compete. */
  ghost predicate GoesFirst(l: Limits, c: Book, r: EntityRevision, id: Id) {
    Competes(l, c, r, id) && forall other :: Competes(l, c, r, other) ==> NoYounger(c, id, other)
  }

  /** Each eviction takes the oldest competitor of the book as the ones before left it, while a limit is
      broken, and the last one restores them all. */
  ghost predicate TakesOldest(l: Limits, c: Book, r: EntityRevision, evicted: seq<Id>)
    decreases |evicted|
  {
    if evicted == [] then Within(l, c)
    else
      && !Within(l, c) && GoesFirst(l, c, r, evicted[0])
      && TakesOldest(l, Without(c, {evicted[0]}), r, evicted[1..])
  }

  lemma CandidatesCompete(l: Limits, c: Book, r: EntityRevision, scope: Scope)
    requires ViolatingScope(l, c, r) == Some(scope)
    ensures forall id :: id in Candidates(c, r, scope) <==> Competes(l, c, r, id)
  {
  }

  lemma {:induction false} EnforcingTakesTheOldest(l: Limits, c: Book, r: EntityRevision)
    requires Crowded(l, c, r) && Enforce(l, c, r).Some?
    ensures TakesOldest(l, c, r, Enforce(l, c, r).value)
    decreases |c|
  {
    hide Crowded, Within;
    NoViolationIsWithin(l, c, r);
    var scope := ViolatingScope(l, c, r);
    if scope.Some? {
      CandidatesCompete(l, c, r, scope.value);
      var evicted := Enforce(l, c, r).value;
      var candidates := Candidates(c, r, scope.value);
      assert IsOldest(c, candidates, evicted[0]);
      RemovalCounts(c, evicted[0]);
      CrowdedStays(l, c, r, {evicted[0]});
      EnforcingTakesTheOldest(l, Without(c, {evicted[0]}), r);
      assert evicted[1..] == Enforce(l, Without(c, {evicted[0]}), r).value;
    }
  }

  /** A newcomer that is admitted makes as little room as it needs: nobody leaves while the limits hold;
      the first to leave is the oldest terminal entity under the first limit broken; and a second one
      leaves only while the newcomer's type is still over its limit, the oldest of that type left. */
  lemma NewcomersEvictTheOldest(l: Limits, b: Book, r: EntityRevision)
    requires Within(l, b) && r.entityId !in b && Admit(l, b, r).0.status == ADDED
    ensures var evicted := Admit(l, b, r).0.evicted; var c: Book := b[r.entityId := r];
      && TakesOldest(l, c, r, evicted) && |evicted| <= 2
      && (evicted == [] <==> Within(l, c))
      && (|evicted| == 2 ==>
            var d := Without(c, {evicted[0]});
            && |OfType(d, r.instrument, r.entityType)| > l.perType
            && evicted[1] in d && d[evicted[1]].instrument == r.instrument && d[evicted[1]].entityType == r.entityType
            && forall other :: other in d && other != r.entityId && d[other].Terminal()
                 && d[other].instrument == r.instrument && d[other].entityType == r.entityType
                 ==> NoYounger(d, evicted[1], other))
  {
    var c: Book := b[r.entityId := r];
    var evicted := Admit(l, b, r).0.evicted;
    ArrivalCrowds(l, b, r);
    EnforcingTakesTheOldest(l, c, r);
    AtMostTwoVictims(l, c, r);
    hide Within, Crowded, Enforce, TakesOldest;
    NoneGoesInVain(l, c, r, evicted);
    if |evicted| == 2 {
      assert evicted == [evicted[0], evicted[1]];
      SecondIsOfType(l, c, r, evicted[0], evicted[1]);
    }
  }

  lemma NoneGoesInVain(l: Limits, c: Book, r: EntityRevision, evicted: seq<Id>)
    requires TakesOldest(l, c, r, evicted)
    ensures evicted == [] <==> Within(l, c)
  {
  }

  lemma SecondIsOfType(l: Limits, c: Book, r: EntityRevision, first: Id, second: Id)
    requires Crowded(l, c, r) && TakesOldest(l, c, r, [first, second]) && !InstrumentFits(l, c, r)
    ensures var d := Without(c, {first});
      && |OfType(d, r.instrument, r.entityType)| > l.perType
      && second in d && d[second].instrument == r.instrument && d[second].entityType == r.entityType
      && forall other :: other in d && other != r.entityId && d[other].Terminal()
           && d[other].instrument == r.instrument && d[other].entityType == r.entityType
           ==> NoYounger(d, second, other)
  {
    var d := Without(c, {first});
    assert [first, second][1..] == [second];
    assert TakesOldest(l, d, r, [second]);
    EvictionEases(l, c, r, first);
    CrowdedStays(l, c, r, {first});
    NoViolationIsWithin(l, d, r);
    forall other | other in d && other != r.entityId && d[other].Terminal()
                   && d[other].instrument == r.instrument && d[other].entityType == r.entityType
      ensures Competes(l, d, r, other)
    {
    }
  }
}
