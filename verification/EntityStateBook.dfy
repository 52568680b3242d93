/** The state book as the program keeps it: one dictionary, replaced or updated in place. */
module EntityState {
  import opened Prelude
  import opened EntityBook
  import B = EntityBook

  /** The evictions still to come, after `gone`. */
  ghost function After(gone: seq<Id>, rest: Option<seq<Id>>): (r: Option<seq<Id>>)
    ensures rest == Some([]) ==> r == Some(gone)
    ensures gone == [] ==> r == rest
  {
    if rest.None? then None
    else
      assert rest.value == [] ==> gone + rest.value == gone;
      assert gone == [] ==> gone + rest.value == rest.value;
      Some(gone + rest.value)
  }

  lemma AfterStep(gone: seq<Id>, victim: Id, rest: Option<seq<Id>>)
    ensures After(gone, After([victim], rest)) == After(gone + [victim], rest)
  {
    if rest.Some? { assert gone + ([victim] + rest.value) == gone + [victim] + rest.value; }
  }

  lemma NothingGone(b: Book)
    ensures Without(b, Elements([])) == b
  {
  }

  class EntityStateBook {
    const limits: Limits
    var byId: Book

    constructor (limits: Limits)
      ensures this.limits == limits && byId == map[]
    {
      this.limits := limits;
      byId := map[];
    }

    /** The loop deletes from a copy of the book, which is returned when it succeeds. */
    static method EnforceLimits(l: Limits, start: Book, protected: EntityRevision)
      returns (evicted: Option<seq<Id>>, proposed: Book)
      ensures evicted == Enforce(l, start, protected)
      ensures evicted.Some? ==> proposed == Without(start, Elements(evicted.value))
    {
      hide Elements;
      proposed := start;
      NothingGone(start);
      var gone: seq<Id> := [];
      while true
        invariant proposed == Without(start, Elements(gone))
        invariant Enforce(l, start, protected) ==
                  After(gone, Enforce(l, proposed, protected))
        decreases |proposed|
      {
        var scope := ViolatingScope(l, proposed, protected);
        if scope.None? {
          return Some(gone), proposed;
        }
        var candidates := Candidates(proposed, protected, scope.value);
        if candidates == {} { return None, proposed; }
        var victim := Oldest(proposed, candidates);
        RemovalCounts(proposed, victim);
        AppendedElements(gone, victim);
        WithoutTwice(start, Elements(gone), {victim});
        AfterStep(gone, victim, Enforce(l, Without(proposed, {victim}), protected));
        proposed := proposed - {victim};
        gone := gone + [victim];
      }
    }

    method AdmitRevision(current: EntityRevision, r: EntityRevision) returns (admission: Admission)
      modifies this
      ensures admission == B.AdmitRevision(current, r)
      ensures byId == if admission.status == UPDATED then old(byId)[r.entityId := r] else old(byId)
    {
      if r.revision < current.revision { return Admission(REJECTED_STALE, Some(current), []); }
      if r.revision == current.revision {
        var status := if r == current then DUPLICATE else REJECTED_CONFLICT;
        return Admission(status, Some(current), []);
      }
      if r.revision != current.revision + 1 || r.previous != Some(current.revision) {
        return Admission(REJECTED_REVISION_GAP, Some(current), []);
      }
      if r.effectiveAt < current.effectiveAt || r.publishedAt < current.publishedAt {
        return Admission(REJECTED_STALE, Some(current), []);
      }
      if r.MeaningfulSignature() == current.MeaningfulSignature() {
        return Admission(DUPLICATE, Some(current), []);
      }
      byId := byId[r.entityId := r];
      return Admission(UPDATED, Some(r), []);
    }

    method Admit(r: EntityRevision) returns (admission: Admission)
      modifies this
      ensures (admission, byId) == B.Admit(limits, old(byId), r)
    {
      if r.entityId in byId {
        admission := AdmitRevision(byId[r.entityId], r);
        return;
      }
      if r.restored {
        var expected := if r.revision == 1 then None else Some(r.revision - 1);
        if r.previous != expected { return Admission(REJECTED_REVISION_GAP, None, []); }
      } else if r.revision != 1 || r.previous.Some? {
        return Admission(REJECTED_REVISION_GAP, None, []);
      }
      var evicted, proposed := EnforceLimits(limits, byId[r.entityId := r], r);
      if evicted.None? { return Admission(REJECTED_CAPACITY, None, []); }
      byId := proposed;
      return Admission(ADDED, Some(r), evicted.value);
    }

    method PruneTerminal(before: int, maximum: nat) returns (removed: seq<EntityRevision>)
      modifies this
      ensures var ids := Pruned(old(byId), before, maximum);
        && byId == Without(old(byId), Elements(ids))
        && |removed| == |ids| && forall i :: 0 <= i < |ids| ==> ids[i] in old(byId) && removed[i] == old(byId)[ids[i]]
    {
      var ids := Pruned(byId, before, maximum);
      PrunedAreKept(byId, before, maximum);
      var book := byId;
      removed := seq(|ids|, i requires 0 <= i < |ids| => book[ids[i]]);
      for i := 0 to |ids|
        invariant byId == Without(old(byId), Elements(ids[..i]))
      {
        assert ids[..i + 1] == ids[..i] + [ids[i]];
        AppendedElements(ids[..i], ids[i]);
        WithoutTwice(old(byId), Elements(ids[..i]), {ids[i]});
        byId := byId - {ids[i]};
      }
      assert ids[..|ids|] == ids;
    }
  }
}
