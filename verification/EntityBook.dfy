/** Latest-revision entity state under three overlapping capacity limits. */
module EntityBook {
  import opened Prelude

  datatype Lifecycle = WARMING | ACTIVE | DEGRADED | STALE | COMPLETE | INVALIDATED | EXPIRED

  /** `content` stands for the fields compared by the meaningful signature, `remainder` for the rest.
      The entity id is a digest of the identity, which includes instrument and type. */
  datatype EntityRevision = EntityRevision(
    entityId: Id,
    instrument: Id,
    entityType: Id,
    revision: int,
    previous: Option<int>,
    lifecycle: Lifecycle,
    effectiveAt: int,
    publishedAt: int,
    restored: bool,
    content: Id,
    remainder: Id)
  {
    predicate Terminal() { lifecycle in {COMPLETE, INVALIDATED, EXPIRED} }

    function MeaningfulSignature(): (Id, Lifecycle, bool) { (content, lifecycle, restored) }
  }

  datatype LimitValues = LimitValues(maximum: int, perInstrument: int, perType: int)

  type Limits = l: LimitValues |
    0 < l.maximum && 0 < l.perInstrument <= l.maximum && 0 < l.perType <= l.maximum
    witness LimitValues(1, 1, 1)

  datatype Status =
    | ADDED | UPDATED | DUPLICATE
    | REJECTED_STALE | REJECTED_CONFLICT | REJECTED_REVISION_GAP | REJECTED_CAPACITY

  datatype Admission = Admission(status: Status, current: Option<EntityRevision>, evicted: seq<Id>)

  /** Each entity is kept under its own id. */
  type Book = map<Id, EntityRevision>

  // Limits

  function OfInstrument(b: Book, instrument: Id): set<Id> {
    set id | id in b && b[id].instrument == instrument
  }

  function OfType(b: Book, instrument: Id, entityType: Id): set<Id> {
    set id | id in b && b[id].instrument == instrument && b[id].entityType == entityType
  }

  ghost predicate Within(l: Limits, b: Book) {
    && |b| <= l.maximum
    && (forall i :: |OfInstrument(b, i)| <= l.perInstrument)
    && (forall i, t :: |OfType(b, i, t)| <= l.perType)
  }

  datatype Scope = INSTRUMENT | TYPE | EVERYTHING

  predicate InScope(scope: Scope, protected: EntityRevision, item: EntityRevision) {
    match scope
    case INSTRUMENT => item.instrument == protected.instrument
    case TYPE => item.instrument == protected.instrument && item.entityType == protected.entityType
    case EVERYTHING => true
  }

  /** The first limit that `protected`'s arrival has broken. */
  function ViolatingScope(l: Limits, b: Book, protected: EntityRevision): Option<Scope> {
    if |OfInstrument(b, protected.instrument)| > l.perInstrument then Some(INSTRUMENT)
    else if |OfType(b, protected.instrument, protected.entityType)| > l.perType then Some(TYPE)
    else if |b| > l.maximum then Some(EVERYTHING)
    else None
  }

  // Eviction

  /** Eviction order: earliest publication first, then smallest id. */
  predicate Older(b: Book, x: Id, y: Id)
    requires x in b && y in b
  {
    b[x].publishedAt < b[y].publishedAt || (b[x].publishedAt == b[y].publishedAt && x < y)
  }

  predicate IsOldest(b: Book, ids: set<Id>, id: Id)
    requires ids <= b.Keys
  {
    id in ids && forall other :: other in ids ==> other == id || Older(b, id, other)
  }

  lemma {:induction false} OldestExists(b: Book, ids: set<Id>)
    requires ids <= b.Keys && ids != {}
    ensures exists id :: IsOldest(b, ids, id)
    decreases |ids|
  {
    Inhabited(ids);
    var one :| one in ids;
    var rest := ids - {one};
    assert ids == rest + {one};
    if rest == {} {
      assert IsOldest(b, ids, one);
    } else {
      OldestExists(b, rest);
      var best :| IsOldest(b, rest, best);
      assert if Older(b, one, best) then IsOldest(b, ids, one) else IsOldest(b, ids, best);
    }
  }

  function Oldest(b: Book, ids: set<Id>): (id: Id)
    requires ids <= b.Keys && ids != {}
    ensures IsOldest(b, ids, id)
  {
    OldestExists(b, ids);
    var id :| IsOldest(b, ids, id);
    id
  }

  function Candidates(b: Book, protected: EntityRevision, scope: Scope): set<Id> {
    set id | id in b && id != protected.entityId && b[id].Terminal() && InScope(scope, protected, b[id])
  }

  function Without(b: Book, ids: set<Id>): Book { b - ids }

  lemma WithoutTwice(b: Book, x: set<Id>, y: set<Id>)
    ensures Without(Without(b, x), y) == Without(b, x + y)
  {
  }

  /** Evict, oldest first, from the first broken scope until no limit is broken. */
  function Enforce(l: Limits, b: Book, protected: EntityRevision): Option<seq<Id>>
    decreases |b|
  {
    var scope := ViolatingScope(l, b, protected);
    if scope.None? then Some([])
    else
      var candidates := Candidates(b, protected, scope.value);
      if candidates == {} then None
      else
        var victim := Oldest(b, candidates);
        RemovalCounts(b, victim);
        var rest := Enforce(l, Without(b, {victim}), protected);
        if rest.None? then None else Some([victim] + rest.value)
  }

  lemma RemovalCounts(b: Book, id: Id)
    requires id in b
    ensures |Without(b, {id})| == |b| - 1
  {
    assert Without(b, {id}).Keys == b.Keys - {id};
  }

  // Admission

  function AdmitRevision(current: EntityRevision, r: EntityRevision): Admission {
    if r.revision < current.revision then Admission(REJECTED_STALE, Some(current), [])
    else if r.revision == current.revision then
      Admission(if r == current then DUPLICATE else REJECTED_CONFLICT, Some(current), [])
    else if r.revision != current.revision + 1 || r.previous != Some(current.revision)
    then Admission(REJECTED_REVISION_GAP, Some(current), [])
    else if r.effectiveAt < current.effectiveAt || r.publishedAt < current.publishedAt
    then Admission(REJECTED_STALE, Some(current), [])
    else if r.MeaningfulSignature() == current.MeaningfulSignature() then Admission(DUPLICATE, Some(current), [])
    else Admission(UPDATED, Some(r), [])
  }

  predicate FirstIsAcceptable(r: EntityRevision) {
    if r.restored then r.previous == (if r.revision == 1 then None else Some(r.revision - 1))
    else r.revision == 1 && r.previous.None?
  }

  function Admit(l: Limits, b: Book, r: EntityRevision): (Admission, Book) {
    if r.entityId in b then
      var admission := AdmitRevision(b[r.entityId], r);
      (admission, if admission.status == UPDATED then b[r.entityId := r] else b)
    else if !FirstIsAcceptable(r) then (Admission(REJECTED_REVISION_GAP, None, []), b)
    else
      var proposed: Book := b[r.entityId := r];
      var evicted := Enforce(l, proposed, r);
      if evicted.None? then (Admission(REJECTED_CAPACITY, None, []), b)
      else (Admission(ADDED, Some(r), evicted.value), Without(proposed, Elements(evicted.value)))
  }

  function Elements(s: seq<Id>): set<Id> { set id | id in s }

  // Pruning

  function Prunable(b: Book, before: int): set<Id> {
    set id | id in b && b[id].Terminal() && b[id].publishedAt < before
  }

  /** Some ids of the book, oldest first. */
  function OldestFirst(b: Book, ids: set<Id>): (r: seq<Id>)
    requires ids <= b.Keys
    ensures |r| == |ids| && Distinct(r) && forall id :: id in r <==> id in ids
    decreases |ids|
  {
    if ids == {} then []
    else
      var first := Oldest(b, ids);
      [first] + OldestFirst(b, ids - {first})
  }

  function Pruned(b: Book, before: int, maximum: nat): (r: seq<Id>) {
    var candidates := OldestFirst(b, Prunable(b, before));
    if maximum < |candidates| then candidates[..maximum] else candidates
  }

  lemma PrunedAreKept(b: Book, before: int, maximum: nat)
    ensures var ids := Pruned(b, before, maximum); forall i :: 0 <= i < |ids| ==> ids[i] in b
  {
    var candidates := OldestFirst(b, Prunable(b, before));
    assert forall i :: 0 <= i < |candidates| ==> candidates[i] in Prunable(b, before);
  }

  lemma AppendedElements(s: seq<Id>, id: Id)
    ensures Elements(s + [id]) == Elements(s) + {id}
  {
  }
}
