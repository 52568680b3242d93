/** What admissions and prunings keep over whole runs of the state book. */
module EntityHistory {
  import opened Prelude
  import opened EntityBook
  import opened EntityCapacity

  /** One call changes an entity only by appending its next revision, and moves no clock backwards. */
  ghost predicate Advances(b: Book, c: Book) {
    forall id :: id in b && id in c ==> c[id] == b[id] || Succeeds(b[id], c[id])
  }

  predicate Succeeds(before: EntityRevision, after: EntityRevision) {
    && after.revision == before.revision + 1 && after.previous == Some(before.revision)
    && before.effectiveAt <= after.effectiveAt && before.publishedAt <= after.publishedAt
    && after.MeaningfulSignature() != before.MeaningfulSignature()
  }

  /** The id of an entity determines its instrument and type: it is a digest of them. */
  ghost predicate SameIdentity(b: Book, r: EntityRevision) {
    r.entityId in b ==> b[r.entityId].instrument == r.instrument && b[r.entityId].entityType == r.entityType
  }

  /** Exactly when a further revision of a known entity is taken, and why it is not. */
  lemma RevisionIsTakenIff(current: EntityRevision, r: EntityRevision)
    ensures var a := AdmitRevision(current, r);
      var next := r.revision == current.revision + 1 && r.previous == Some(current.revision);
      var backwards := r.effectiveAt < current.effectiveAt || r.publishedAt < current.publishedAt;
      && (a.status == UPDATED <==> Succeeds(current, r))
      && (a.status == DUPLICATE <==>
            r == current || (next && !backwards && r.MeaningfulSignature() == current.MeaningfulSignature()))
      && (a.status == REJECTED_CONFLICT <==> r.revision == current.revision && r != current)
      && (a.status == REJECTED_REVISION_GAP <==> r.revision > current.revision && !next)
      && (a.status == REJECTED_STALE <==> r.revision < current.revision || (next && backwards))
      && a.current == Some(if a.status == UPDATED then r else current) && a.evicted == []
  {
  }

  /** A first revision is out of order exactly when it is not numbered as one: 1 with nothing before it,
      or any number with the one before it when it is restored. */
  lemma FirstRevisionIsTakenIff(l: Limits, b: Book, r: EntityRevision)
    requires r.entityId !in b
    ensures var a := Admit(l, b, r).0;
      && (a.status == REJECTED_REVISION_GAP <==>
            !(if r.revision == 1 then r.previous.None? else r.restored && r.previous == Some(r.revision - 1)))
      && a.status in {REJECTED_REVISION_GAP, REJECTED_CAPACITY, ADDED}
  {
  }

  lemma UpdateStaysWithin(l: Limits, b: Book, r: EntityRevision)
    requires Within(l, b) && r.entityId in b && SameIdentity(b, r)
    ensures Within(l, b[r.entityId := r])
  {
    var c: Book := b[r.entityId := r];
    assert c.Keys == b.Keys;
    forall i ensures OfInstrument(c, i) == OfInstrument(b, i) { }
    forall i, t ensures OfType(c, i, t) == OfType(b, i, t) { }
  }

  /** Admission keeps every limit; it leaves the book alone unless it adds or updates; it rejects a
      first revision for capacity exactly when no evictions of terminal entities could make room; and
      otherwise it evicts at most two, all terminal, never the newcomer. */
  lemma AdmissionKeepsLimits(l: Limits, b: Book, r: EntityRevision)
    requires Within(l, b) && SameIdentity(b, r)
    ensures var (a, c) := Admit(l, b, r);
      && Within(l, c) && Advances(b, c)
      && (a.status !in {ADDED, UPDATED} ==> c == b && a.evicted == [])
      && (a.status in {ADDED, UPDATED} ==> r.entityId in c && c[r.entityId] == r && a.current == Some(r))
      && (a.status == REJECTED_CAPACITY <==>
            r.entityId !in b && FirstIsAcceptable(r) && !Restorable(l, b[r.entityId := r], r))
      && |a.evicted| <= 2
      && (forall id :: id in b && id !in c <==> id in a.evicted)
      && (forall id :: id in a.evicted ==> id in b && id != r.entityId && b[id].Terminal())
      && (forall id :: id in c ==> id == r.entityId || (id in b && c[id] == b[id]))
  {
    if r.entityId in b {
      UpdateStaysWithin(l, b, r);
    } else if FirstIsAcceptable(r) {
      ArrivalKeepsLimits(l, b, r);
    }
  }

  lemma ArrivalKeepsLimits(l: Limits, b: Book, r: EntityRevision)
    requires Within(l, b) && r.entityId !in b && FirstIsAcceptable(r)
    ensures var (a, c) := Admit(l, b, r);
      && Within(l, c)
      && (a.status == REJECTED_CAPACITY <==> !Restorable(l, b[r.entityId := r], r))
      && (a.status == REJECTED_CAPACITY || a.status == ADDED)
      && |a.evicted| <= 2
      && (forall id :: id in a.evicted ==> id in b && id != r.entityId && b[id].Terminal())
      && (a.status == ADDED ==> c == Without(b[r.entityId := r], Elements(a.evicted)))
  {
    hide Within, Crowded, Restorable;
    var proposed: Book := b[r.entityId := r];
    ArrivalCrowds(l, b, r);
    EnforceIsComplete(l, proposed, r);
    var evicted := Enforce(l, proposed, r);
    if evicted.Some? {
      AtMostTwoVictims(l, proposed, r);
      assert forall id :: id in evicted.value ==> id in Elements(evicted.value);
    }
  }

  // Pruning

  /** Pruning removes exactly the oldest prunable entities, as many as are allowed. */
  lemma PruningTakesTheOldest(b: Book, before: int, maximum: nat)
    ensures var ids := Pruned(b, before, maximum); var c := Without(b, Elements(ids));
      && |ids| == Min(maximum, |Prunable(b, before)|)
      && (forall id :: id in ids ==> id in Prunable(b, before))
      && (forall i, j :: 0 <= i < j < |ids| ==> ids[i] in b && ids[j] in b && Older(b, ids[i], ids[j]))
      && (forall id, kept :: id in ids && kept in c && kept in Prunable(b, before) ==> Older(b, id, kept))
      && (forall id :: id in c <==> id in b && id !in ids) && (forall id :: id in c ==> c[id] == b[id])
  {
    var all := OldestFirst(b, Prunable(b, before));
    var ids := Pruned(b, before, maximum);
    assert forall i :: 0 <= i < |ids| ==> ids[i] == all[i];
    forall i, j | 0 <= i < j < |all| ensures all[i] in b && all[j] in b && Older(b, all[i], all[j]) {
      OldestFirstIsSorted(b, Prunable(b, before), i, j);
    }
    forall id, kept | id in ids && kept in Prunable(b, before) && kept !in ids ensures Older(b, id, kept) {
      LeftBehind(b, Prunable(b, before), |ids|, id, kept);
    }
    assert forall id :: id in Elements(ids) <==> id in ids;
  }

  lemma LeftBehind(b: Book, ids: set<Id>, n: nat, id: Id, kept: Id)
    requires ids <= b.Keys && n <= |ids| && kept in ids
    requires id in OldestFirst(b, ids)[..n] && kept !in OldestFirst(b, ids)[..n]
    ensures id in ids && Older(b, id, kept)
  {
    hide Older, Distinct;
    var all := OldestFirst(b, ids);
    var i :| 0 <= i < n && all[..n][i] == id;
    assert kept in all && all == all[..n] + all[n..];
    var j :| 0 <= j < |all[n..]| && all[n..][j] == kept;
    OldestFirstIsSorted(b, ids, i, n + j);
  }

  lemma {:induction false} OldestFirstIsSorted(b: Book, ids: set<Id>, i: nat, j: nat)
    requires ids <= b.Keys && i < j < |ids|
    ensures var s := OldestFirst(b, ids); s[i] in b && s[j] in b && Older(b, s[i], s[j])
    decreases |ids|
  {
    hide Distinct, Older;
    var first := Oldest(b, ids);
    var rest := OldestFirst(b, ids - {first});
    assert OldestFirst(b, ids) == [first] + rest;
    if i == 0 {
      assert rest[j - 1] in ids - {first};
    } else {
      OldestFirstIsSorted(b, ids - {first}, i - 1, j - 1);
    }
  }

  /** Pruning takes only entities that are over and were published before the given time, and leaves one
      of them only when it has taken as many as allowed. */
  lemma PruningSparesTheRest(b: Book, before: int, maximum: nat)
    ensures var ids := Pruned(b, before, maximum);
      && Distinct(ids)
      && (forall id :: id in ids ==>
            id in b && b[id].lifecycle in {COMPLETE, INVALIDATED, EXPIRED} && b[id].publishedAt < before)
      && (forall id :: id in b && b[id].lifecycle in {COMPLETE, INVALIDATED, EXPIRED} && b[id].publishedAt < before ==>
            id in ids || |ids| == maximum)
      && |ids| <= maximum
  {
    var all := OldestFirst(b, Prunable(b, before));
    var ids := Pruned(b, before, maximum);
    assert forall i :: 0 <= i < |ids| ==> ids[i] == all[i];
    forall id | id in ids ensures id in Prunable(b, before) {
      var i :| 0 <= i < |ids| && ids[i] == id;
      assert all[i] in all;
    }
    assert |ids| < maximum ==> ids == all;
    assert forall id :: id in Prunable(b, before) ==> id in all;
  }

  // Runs

  datatype Operation = Admitting(revision: EntityRevision) | Pruning(before: int, maximum: nat)

  function Apply(l: Limits, b: Book, op: Operation): Book {
    match op
    case Admitting(r) => Admit(l, b, r).1
    case Pruning(before, maximum) => Without(b, Elements(Pruned(b, before, maximum)))
  }

  function Run(l: Limits, b: Book, ops: seq<Operation>): Book
    decreases |ops|
  {
    if ops == [] then b else Run(l, Apply(l, b, ops[0]), ops[1..])
  }

  /** Instrument and type of every id, the same for all revisions ever admitted. */
  ghost predicate Identified(identity: map<Id, (Id, Id)>, b: Book) {
    forall id :: id in b ==> id in identity && identity[id] == (b[id].instrument, b[id].entityType)
  }

  ghost predicate Names(identity: map<Id, (Id, Id)>, op: Operation) {
    op.Admitting? ==>
      op.revision.entityId in identity
      && identity[op.revision.entityId] == (op.revision.instrument, op.revision.entityType)
  }

  lemma ApplyKeepsLimits(l: Limits, identity: map<Id, (Id, Id)>, b: Book, op: Operation)
    requires Within(l, b) && Identified(identity, b) && Names(identity, op)
    ensures Within(l, Apply(l, b, op)) && Identified(identity, Apply(l, b, op)) && Advances(b, Apply(l, b, op))
  {
    match op
    case Admitting(r) => AdmissionKeepsLimits(l, b, r);
    case Pruning(before, maximum) => RemovalStaysWithin(l, b, Elements(Pruned(b, before, maximum)));
  }

  /** Over every run that starts within the limits they keep holding, and an entity that was never
      removed on the way has only moved forward. */
  lemma {:induction false} RunsKeepLimits(l: Limits, identity: map<Id, (Id, Id)>, b: Book, ops: seq<Operation>, id: Id)
    requires Within(l, b) && Identified(identity, b) && forall op :: op in ops ==> Names(identity, op)
    ensures Within(l, Run(l, b, ops))
    ensures NeverRemoved(l, b, ops, id) ==> (
      var end := Run(l, b, ops)[id];
      b[id].revision <= end.revision && b[id].effectiveAt <= end.effectiveAt && b[id].publishedAt <= end.publishedAt)
    decreases |ops|
  {
    if ops != [] {
      assert ops[0] in ops;
      ApplyKeepsLimits(l, identity, b, ops[0]);
      RunsKeepLimits(l, identity, Apply(l, b, ops[0]), ops[1..], id);
    }
  }

  ghost predicate NeverRemoved(l: Limits, b: Book, ops: seq<Operation>, id: Id)
    ensures NeverRemoved(l, b, ops, id) ==> id in b && id in Run(l, b, ops)
    decreases |ops|
  {
    id in b && (ops != [] ==> NeverRemoved(l, Apply(l, b, ops[0]), ops[1..], id))
  }
}
