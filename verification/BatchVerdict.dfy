/** What a validation verdict says, told by the observations themselves. */
module BatchVerdict {
  import opened Prelude
  import opened BatchValidation
  import opened BatchTiling

  // The hard reasons

  predicate Strange(r: Request, o: Observation) {
    o.series != r.series || exists e :: e in o.lineage && (!e.historical || e.input != r.input)
  }

  predicate Outside(r: Request, o: Observation) { o.start < r.start || r.end < o.end }

  /** Two reports of one interval that do not agree. */
  predicate Disagree(o: Observation, p: Observation) {
    o.Key() == p.Key() && o.Equivalence() != p.Equivalence()
  }

  predicate SomeDisagree(seen: seq<Observation>) {
    exists o, p :: o in seen && p in seen && Disagree(o, p)
  }

  predicate StepsBack(seen: seq<Observation>) {
    exists i :: 0 < i < |seen| && seen[i].start < seen[i - 1].start
  }

  /** Each hard reason is given exactly when some observation is at fault. */
  ghost predicate Explained(r: Request, reasons: set<Reason>, seen: seq<Observation>) {
    && (IDENTITY_MISMATCH in reasons <==> exists o :: o in seen && Strange(r, o))
    && (REVISION_REJECTED in reasons <==> exists o :: o in seen && o.revision != 1)
    && (OUTSIDE_REQUEST_BOUNDS in reasons <==> exists o :: o in seen && Outside(r, o))
    && (ORDERING_INVALID in reasons <==> StepsBack(seen))
    && (UNEQUAL_INTERVAL_CONFLICT in reasons <==> SomeDisagree(seen))
  }

  // What is kept

  /** No earlier observation is of this interval. */
  predicate Arrives(seen: seq<Observation>, i: int) {
    0 <= i < |seen| && forall j :: 0 <= j < i ==> seen[j].Key() != seen[i].Key()
  }

  predicate Alike(o: Observation, p: Observation) { o.Equivalence() == p.Equivalence() }

  /** Agrees with the first observation of its interval, with the evidence of all that report the same. */
  ghost predicate Represents(seen: seq<Observation>, a: Observation) {
    && (exists i :: Arrives(seen, i) && Alike(seen[i], a))
    && (forall e :: e in a.lineage <==> exists o :: o in seen && Alike(o, a) && e in o.lineage)
    && (forall x :: x in a.references <==> exists o :: o in seen && Alike(o, a) && x in o.references)
  }

  /** Each observed interval is kept exactly once. */
  ghost predicate Kept(seen: seq<Observation>, kept: seq<Observation>) {
    && (forall i, j :: 0 <= i < j < |kept| ==> kept[i].Key() != kept[j].Key())
    && (forall o :: o in seen ==> exists a :: a in kept && a.Key() == o.Key())
    && (forall a :: a in kept ==> Represents(seen, a))
  }

  lemma ArrivalsStay(seen: seq<Observation>, o: Observation, i: int)
    ensures 0 <= i < |seen| ==> (Arrives(seen + [o], i) <==> Arrives(seen, i))
    ensures (forall p :: p in seen ==> p.Key() != o.Key()) ==> Arrives(seen + [o], |seen|)
  {
    if 0 <= i < |seen| {
      assert forall j :: 0 <= j <= i ==> (seen + [o])[j] == seen[j];
    }
    assert forall j :: 0 <= j < |seen| ==> (seen + [o])[j] in seen;
  }

  lemma AlikeHasKey(o: Observation, p: Observation)
    requires Alike(o, p)
    ensures o.Key() == p.Key()
  {
  }

  /** What a kept observation stands for does not change by an observation that is not alike. */
  lemma OthersStillRepresent(seen: seq<Observation>, o: Observation, a: Observation)
    requires Represents(seen, a) && !Alike(o, a)
    ensures Represents(seen + [o], a)
  {
    hide Alike;
    var i :| Arrives(seen, i) && Alike(seen[i], a);
    ArrivalsStay(seen, o, i);
    assert (seen + [o])[i] == seen[i];
  }

  lemma NewcomerRepresents(seen: seq<Observation>, o: Observation)
    requires forall p :: p in seen ==> p.Key() != o.Key()
    ensures Represents(seen + [o], o)
  {
    ArrivalsStay(seen, o, 0);
    assert (seen + [o])[|seen|] == o;
    forall p | p in seen ensures !Alike(p, o) { }
  }

  lemma MergedRepresents(seen: seq<Observation>, o: Observation, a: Observation, merged: Observation)
    requires Represents(seen, a) && Alike(o, a) && MergeDuplicate(a, o) == Some(merged)
    ensures Represents(seen + [o], merged) && Alike(merged, a)
  {
    var i :| Arrives(seen, i) && Alike(seen[i], a);
    ArrivalsStay(seen, o, i);
    assert (seen + [o])[i] == seen[i];
    assert forall p :: Alike(p, merged) <==> Alike(p, a);
    hide Alike, Arrives;
  }

  /** What one observation does to the kept ones and to the reasons. */
  lemma Absorbing(r: Request, t: Tally, o: Observation)
    requires !Absorb(r, t, o).raised
    ensures var next, at := Absorb(r, t, o), Position(t.accepted, o.Key());
      if at.None? then
        next.accepted == t.accepted + [o] && next.reasons == t.reasons + Faults(r, o, t.priorStart)
      else if Alike(o, t.accepted[at.value]) then
        && MergeDuplicate(t.accepted[at.value], o).Some?
        && next.accepted == t.accepted[at.value := MergeDuplicate(t.accepted[at.value], o).value]
        && next.reasons == t.reasons + Faults(r, o, t.priorStart)
      else
        && next.accepted == t.accepted
        && next.reasons == t.reasons + Faults(r, o, t.priorStart) + {UNEQUAL_INTERVAL_CONFLICT}
    ensures Absorb(r, t, o).priorStart == Some(o.start)
  {
    hide Faults, MergeDuplicate;
  }

  lemma AddingKeeps(seen: seq<Observation>, kept: seq<Observation>, o: Observation)
    requires Kept(seen, kept) && forall a :: a in kept ==> a.Key() != o.Key()
    ensures Kept(seen + [o], kept + [o])
  {
    hide Represents;
    forall p | p in seen ensures p.Key() != o.Key() { }
    NewcomerRepresents(seen, o);
    forall a | a in kept ensures Represents(seen + [o], a) { OthersStillRepresent(seen, o, a); }
    var next := kept + [o];
    assert next[|kept|] == o;
    forall p | p in seen + [o] ensures exists a :: a in next && a.Key() == p.Key() {
      if p in seen {
        var a :| a in kept && a.Key() == p.Key();
        assert a in next;
      } else {
        assert o in next;
      }
    }
    forall i, j | 0 <= i < j < |next| ensures next[i].Key() != next[j].Key() {
      assert next[i] == kept[i] && kept[i] in kept;
    }
  }

  lemma MergingKeeps(seen: seq<Observation>, kept: seq<Observation>, o: Observation, i: nat, merged: Observation)
    requires Kept(seen, kept) && i < |kept| && Alike(o, kept[i]) && MergeDuplicate(kept[i], o) == Some(merged)
    ensures Kept(seen + [o], kept[i := merged])
  {
    MergedRepresents(seen, o, kept[i], merged);
    AlikeHasKey(merged, kept[i]);
    AlikeHasKey(o, kept[i]);
    hide Represents, MergeDuplicate, Alike;
    var next := kept[i := merged];
    assert forall j :: 0 <= j < |kept| ==> next[j].Key() == kept[j].Key();
    forall b | b in next ensures Represents(seen + [o], b) {
      var j :| 0 <= j < |next| && next[j] == b;
      if j != i {
        assert kept[j].Key() != kept[i].Key();
        if Alike(o, b) { AlikeHasKey(o, b); }
        OthersStillRepresent(seen, o, b);
      }
    }
    forall p | p in seen + [o] ensures exists a :: a in next && a.Key() == p.Key() {
      var a :| a in kept && a.Key() == p.Key();
      var j :| 0 <= j < |kept| && kept[j] == a;
      assert next[j] in next;
    }
  }

  lemma ConflictKeeps(seen: seq<Observation>, kept: seq<Observation>, o: Observation, i: nat)
    requires Kept(seen, kept) && i < |kept| && o.Key() == kept[i].Key() && !Alike(o, kept[i])
    ensures Kept(seen + [o], kept)
  {
    hide Represents;
    forall a | a in kept ensures Represents(seen + [o], a) {
      var j :| 0 <= j < |kept| && kept[j] == a;
      assert j != i ==> kept[j].Key() != kept[i].Key();
      if Alike(o, a) { AlikeHasKey(o, a); }
      OthersStillRepresent(seen, o, a);
    }
    forall p | p in seen + [o] ensures exists a :: a in kept && a.Key() == p.Key() {
      if p in seen {
      } else {
        assert kept[i] in kept;
      }
    }
  }

  lemma AbsorbKeeps(r: Request, t: Tally, seen: seq<Observation>, o: Observation)
    requires Kept(seen, t.accepted) && !Absorb(r, t, o).raised
    ensures Kept(seen + [o], Absorb(r, t, o).accepted)
  {
    Absorbing(r, t, o);
    hide Absorb, Kept, MergeDuplicate, Faults, Alike;
    var at := Position(t.accepted, o.Key());
    if at.None? {
      assert forall a :: a in t.accepted ==> a.Key() != o.Key();
      AddingKeeps(seen, t.accepted, o);
    } else if Alike(o, t.accepted[at.value]) {
      MergingKeeps(seen, t.accepted, o, at.value, MergeDuplicate(t.accepted[at.value], o).value);
    } else {
      ConflictKeeps(seen, t.accepted, o, at.value);
    }
  }

  // Why it is judged so

  lemma StepsBackBy(seen: seq<Observation>, o: Observation)
    ensures StepsBack(seen + [o]) <==> StepsBack(seen) || (seen != [] && o.start < seen[|seen| - 1].start)
  {
    var all := seen + [o];
    if StepsBack(seen) {
      var i :| 0 < i < |seen| && seen[i].start < seen[i - 1].start;
      assert all[i].start < all[i - 1].start;
    }
    if seen != [] && o.start < seen[|seen| - 1].start {
      assert all[|seen|].start < all[|seen| - 1].start;
    }
  }

  lemma DisagreementBy(seen: seq<Observation>, kept: seq<Observation>, o: Observation, at: Option<nat>)
    requires Kept(seen, kept)
    requires at.Some? ==> at.value < |kept| && kept[at.value].Key() == o.Key()
    requires at.None? ==> forall a :: a in kept ==> a.Key() != o.Key()
    ensures SomeDisagree(seen + [o]) <==> SomeDisagree(seen) || (at.Some? && !Alike(o, kept[at.value]))
  {
    hide Represents;
    if at.Some? {
      var a := kept[at.value];
      assert a in kept;
      ComesFrom(seen, a);
      var p :| p in seen && Alike(p, a);
      AlikeHasKey(p, a);
      assert Disagree(o, p) <==> !Alike(o, a);
      if !Alike(o, a) { assert o in seen + [o] && p in seen + [o]; }
      forall q | q in seen && Disagree(o, q) && Alike(o, a) ensures SomeDisagree(seen) {
        assert Disagree(p, q);
      }
    } else {
      forall q | q in seen ensures q.Key() != o.Key() { }
    }
    if SomeDisagree(seen) {
      var x, y :| x in seen && y in seen && Disagree(x, y);
      assert x in seen + [o] && y in seen + [o];
    }
    if SomeDisagree(seen + [o]) && !SomeDisagree(seen) {
      var x, y :| x in seen + [o] && y in seen + [o] && Disagree(x, y);
      assert x == o || y == o;
      assert Disagree(y, x);
    }
  }

  lemma ComesFrom(seen: seq<Observation>, a: Observation)
    requires Represents(seen, a)
    ensures exists p :: p in seen && Alike(p, a)
  {
    var i :| Arrives(seen, i) && Alike(seen[i], a);
    assert seen[i] in seen;
  }

  lemma FaultsExplain(r: Request, o: Observation, prior: Option<int>)
    ensures var f := Faults(r, o, prior);
      && (IDENTITY_MISMATCH in f <==> Strange(r, o)) && (REVISION_REJECTED in f <==> o.revision != 1)
      && (OUTSIDE_REQUEST_BOUNDS in f <==> Outside(r, o))
      && (ORDERING_INVALID in f <==> prior.Some? && o.start < prior.value)
      && UNEQUAL_INTERVAL_CONFLICT !in f
  {
  }

  lemma AbsorbExplains(r: Request, t: Tally, seen: seq<Observation>, o: Observation)
    requires Kept(seen, t.accepted) && Explained(r, t.reasons, seen) && !Absorb(r, t, o).raised
    requires t.priorStart == if seen == [] then None else Some(seen[|seen| - 1].start)
    ensures Explained(r, Absorb(r, t, o).reasons, seen + [o])
    ensures Absorb(r, t, o).priorStart == Some(o.start)
  {
    Absorbing(r, t, o);
    FaultsExplain(r, o, t.priorStart);
    StepsBackBy(seen, o);
    DisagreementBy(seen, t.accepted, o, Position(t.accepted, o.Key()));
    hide Absorb, MergeDuplicate, Faults, Strange, Outside, StepsBack, SomeDisagree, Kept, Alike;
    assert forall p :: p in seen + [o] <==> p in seen || p == o;
  }

  lemma {:induction false} AbsorbingAll(r: Request, t: Tally, seen: seq<Observation>, more: seq<Observation>)
    requires Kept(seen, t.accepted) && Explained(r, t.reasons, seen) && !t.raised
    requires t.priorStart == if seen == [] then None else Some(seen[|seen| - 1].start)
    requires !AbsorbAll(r, t, more).raised
    ensures var all := AbsorbAll(r, t, more);
      Kept(seen + more, all.accepted) && Explained(r, all.reasons, seen + more)
    decreases |more|
  {
    hide Kept, Explained, Absorb;
    if more == [] {
      assert seen + more == seen;
    } else {
      var next := Absorb(r, t, more[0]);
      RaisedStays(r, next, more[1..]);
      AbsorbKeeps(r, t, seen, more[0]);
      AbsorbExplains(r, t, seen, more[0]);
      AbsorbingAll(r, next, seen + [more[0]], more[1..]);
      assert seen + [more[0]] + more[1..] == seen + more;
    }
  }

  // The verdict

  /** A requested interval that no observation is of. */
  predicate Lacks(r: Request, seen: seq<Observation>, start: int) {
    && OnGrid(r, start) && r.start <= start && start + r.series.interval <= r.end
    && forall o :: o in seen ==> o.start != start || o.end != start + r.series.interval
  }

  /** The first observation of some interval is a partial one. */
  ghost predicate SomeArrivesPartial(seen: seq<Observation>) {
    exists i :: Arrives(seen, i) && !seen[i].complete
  }

  /** Reports the same as the first observation of its interval. */
  ghost predicate Counts(seen: seq<Observation>, o: Observation) {
    o in seen && exists i :: Arrives(seen, i) && Alike(seen[i], o)
  }

  predicate Cites(o: Observation, x: Id) {
    x in o.references || exists e :: e in o.lineage && (e.observation == x || x in e.references)
  }

  /** The same intervals are observed and kept. */
  ghost predicate SameIntervals(seen: seq<Observation>, kept: seq<Observation>) {
    && (forall o :: o in seen ==> exists a :: a in kept && a.Key() == o.Key())
    && (forall a :: a in kept ==> exists o :: o in seen && o.Key() == a.Key())
  }

  lemma KeptIntervals(seen: seq<Observation>, kept: seq<Observation>)
    requires Kept(seen, kept)
    ensures SameIntervals(seen, kept)
  {
    hide Represents;
    forall a | a in kept ensures exists o :: o in seen && o.Key() == a.Key() {
      ComesFrom(seen, a);
      var p :| p in seen && Alike(p, a);
      AlikeHasKey(p, a);
    }
  }

  predicate SomeAt(seen: seq<Observation>, start: int, end: int) {
    exists o :: o in seen && o.start == start && o.end == end
  }

  lemma FoundIn(some: seq<Observation>, others: seq<Observation>, start: int, end: int)
    requires forall o :: o in some ==> exists a :: a in others && a.Key() == o.Key()
    requires SomeAt(some, start, end)
    ensures SomeAt(others, start, end)
  {
    var o :| o in some && o.start == start && o.end == end;
    var a :| a in others && a.Key() == o.Key();
    assert a.start == start && a.end == end;
  }

  lemma SameAt(seen: seq<Observation>, kept: seq<Observation>, start: int, end: int)
    requires SameIntervals(seen, kept)
    ensures SomeAt(seen, start, end) <==> SomeAt(kept, start, end)
  {
    hide SomeAt;
    if SomeAt(seen, start, end) { FoundIn(seen, kept, start, end); }
    if SomeAt(kept, start, end) { FoundIn(kept, seen, start, end); }
  }

  lemma IntervalsHold(kept: seq<Observation>, start: int, end: int)
    ensures (start, end) in Intervals(kept) <==> SomeAt(kept, start, end)
  {
  }

  lemma MissingIffLacks(r: Request, seen: seq<Observation>, kept: seq<Observation>, start: int)
    requires SameIntervals(seen, kept)
    ensures start in Missing(r, Grid(r.start, r.series.interval, Count(r)), Intervals(kept)) <==> Lacks(r, seen, start)
  {
    hide OnGrid, Grid, Count, Intervals, SameIntervals, Missing;
    GridHolds(r, start);
    SameAt(seen, kept, start, start + r.series.interval);
    IntervalsHold(kept, start, start + r.series.interval);
    assert SomeAt(seen, start, start + r.series.interval) <==>
           !forall o :: o in seen ==> o.start != start || o.end != start + r.series.interval;
  }

  lemma PartialIffArrives(seen: seq<Observation>, kept: seq<Observation>)
    requires Kept(seen, kept)
    ensures SomePartial(kept) <==> SomeArrivesPartial(seen)
  {
    if SomePartial(kept) {
      var a :| a in kept && !a.complete;
      var i :| Arrives(seen, i) && Alike(seen[i], a);
      assert !seen[i].complete;
    }
    if SomeArrivesPartial(seen) {
      var i :| Arrives(seen, i) && !seen[i].complete;
      ArrivedIsKept(seen, kept, i);
      var a :| a in kept && Alike(seen[i], a);
      assert !a.complete;
    }
  }

  /** The first observation of an interval is the one that is kept. */
  lemma ArrivedIsKept(seen: seq<Observation>, kept: seq<Observation>, i: int)
    requires Kept(seen, kept) && Arrives(seen, i)
    ensures exists a :: a in kept && Alike(seen[i], a)
  {
    assert seen[i] in seen;
    var a :| a in kept && a.Key() == seen[i].Key();
    var j :| Arrives(seen, j) && Alike(seen[j], a);
    AlikeHasKey(seen[j], a);
    hide Alike, Represents;
    assert i == j;
  }

  /** The evidence of an observation that counts, and no other, is with the kept ones. */
  lemma EvidenceIsKept(seen: seq<Observation>, kept: seq<Observation>, o: Observation)
    requires Kept(seen, kept) && Counts(seen, o)
    ensures exists a :: a in kept && Alike(o, a)
  {
    var i :| Arrives(seen, i) && Alike(seen[i], o);
    ArrivedIsKept(seen, kept, i);
    var a :| a in kept && Alike(seen[i], a);
    assert Alike(o, a);
  }

  lemma KeptCounts(seen: seq<Observation>, a: Observation, o: Observation)
    requires Represents(seen, a) && o in seen && Alike(o, a)
    ensures Counts(seen, o)
  {
    var i :| Arrives(seen, i) && Alike(seen[i], a);
    assert Alike(seen[i], o);
  }

  lemma {:induction false} LineageHolds(s: seq<Observation>, e: LineageEntry)
    ensures e in AllLineage(s) <==> exists a :: a in s && e in a.lineage
  {
    if s != [] {
      LineageHolds(s[1..], e);
      assert s == [s[0]] + s[1..];
    }
  }

  lemma {:induction false} CitedByEntries(lineage: seq<LineageEntry>, x: Id)
    ensures x in LineageReferences(lineage) <==> exists e :: e in lineage && e.observation == x
    ensures x in NestedReferences(lineage) <==> exists e :: e in lineage && x in e.references
  {
    if lineage != [] {
      CitedByEntries(lineage[1..], x);
      assert lineage == [lineage[0]] + lineage[1..];
    }
  }

  lemma CitesIff(o: Observation, x: Id)
    ensures Cites(o, x) <==>
      x in o.references || x in LineageReferences(o.lineage) || x in NestedReferences(o.lineage)
  {
    CitedByEntries(o.lineage, x);
    hide LineageReferences, NestedReferences;
  }

  lemma {:induction false} ReferencesHold(s: seq<Observation>, x: Id)
    ensures x in AllReferences(s) <==> exists a :: a in s && Cites(a, x)
  {
    hide Cites, LineageReferences, NestedReferences;
    if s != [] {
      ReferencesHold(s[1..], x);
      CitesIff(s[0], x);
      assert s == [s[0]] + s[1..];
      assert AllReferences(s)
          == s[0].references + LineageReferences(s[0].lineage) + NestedReferences(s[0].lineage) + AllReferences(s[1..]);
    }
  }

  lemma EvidenceIff(seen: seq<Observation>, kept: seq<Observation>, e: LineageEntry)
    requires Kept(seen, kept)
    ensures (exists a :: a in kept && e in a.lineage) <==> exists o :: Counts(seen, o) && e in o.lineage
  {
    if exists a :: a in kept && e in a.lineage {
      var a :| a in kept && e in a.lineage;
      var o :| o in seen && Alike(o, a) && e in o.lineage;
      KeptCounts(seen, a, o);
    }
    if exists o :: Counts(seen, o) && e in o.lineage {
      var o :| Counts(seen, o) && e in o.lineage;
      EvidenceIsKept(seen, kept, o);
      var a :| a in kept && Alike(o, a);
      assert e in a.lineage;
    }
  }

  lemma CitationIff(seen: seq<Observation>, kept: seq<Observation>, x: Id)
    requires Kept(seen, kept)
    ensures (exists a :: a in kept && Cites(a, x)) <==> exists o :: Counts(seen, o) && Cites(o, x)
  {
    if exists a :: a in kept && Cites(a, x) {
      var a :| a in kept && Cites(a, x);
      CitedBySeen(seen, a, x);
      var o :| o in seen && Alike(o, a) && Cites(o, x);
      KeptCounts(seen, a, o);
    }
    if exists o :: Counts(seen, o) && Cites(o, x) {
      var o :| Counts(seen, o) && Cites(o, x);
      EvidenceIsKept(seen, kept, o);
      var a :| a in kept && Alike(o, a);
      CitedByKept(seen, a, o, x);
    }
  }

  lemma CitedBySeen(seen: seq<Observation>, a: Observation, x: Id)
    requires Represents(seen, a) && Cites(a, x)
    ensures exists o :: o in seen && Alike(o, a) && Cites(o, x)
  {
    hide Alike, Arrives;
  }

  lemma CitedByKept(seen: seq<Observation>, a: Observation, o: Observation, x: Id)
    requires Represents(seen, a) && o in seen && Alike(o, a) && Cites(o, x)
    ensures Cites(a, x)
  {
    hide Alike, Arrives;
  }

  lemma SortingKeeps(seen: seq<Observation>, accepted: seq<Observation>)
    requires Kept(seen, accepted)
    ensures SameIntervals(seen, ByStart(accepted)) && (SomePartial(ByStart(accepted)) <==> SomePartial(accepted))
    ensures forall a :: a in ByStart(accepted) <==> a in accepted
  {
    ByStartHolds(accepted);
    KeptIntervals(seen, accepted);
    hide Kept, ByStart;
  }

  /** The reasons of a verdict, and how they decide it. */
  lemma ReasonsDecide(r: Request, t: Tally, raw: nat)
    requires t.reasons <= HARD
    ensures var v := Judge(r, t, raw); var s := ByStart(t.accepted);
      && v.missing == Missing(r, Grid(r.start, r.series.interval, Count(r)), Intervals(s))
      && (forall h :: h in HARD ==> (h in v.reasons <==> h in t.reasons))
      && (MISSING_INTERVALS in v.reasons <==> v.missing != [])
      && (PARTIAL_OBSERVATION in v.reasons <==> SomePartial(s)) && (EMPTY_BATCH in v.reasons <==> raw == 0)
      && (v.disposition == REJECTED <==> v.reasons * HARD != {}) && (v.disposition == COMPLETE <==> v.reasons == {})
  {
    hide ByStart, Missing, Grid, Count, Intervals, SomePartial, OrderedUnique, AllLineage, AllReferences, WorstHealth,
      WorstFidelity;
    var s := ByStart(t.accepted);
    var missing := Missing(r, Grid(r.start, r.series.interval, Count(r)), Intervals(s));
    ReasonsStaySoft(t, missing, SomePartial(s), raw == 0);
  }

  lemma SameReasons(r: Request, some: set<Reason>, more: set<Reason>, seen: seq<Observation>)
    requires Explained(r, some, seen) && forall h :: h in HARD ==> (h in more <==> h in some)
    ensures Explained(r, more, seen)
  {
    hide Strange, Outside, StepsBack, SomeDisagree;
  }

  /** What the verdict says of every batch it is reached for: which reasons it gives, how they decide it,
      and which intervals are missing. */
  lemma VerdictIsExplained(r: Request, observations: seq<Observation>)
    requires |observations| <= r.maximumRaw && !AbsorbAll(r, Start(), observations).raised
    ensures var v := Judge(r, AbsorbAll(r, Start(), observations), |observations|);
      && Explained(r, v.reasons, observations)
      && (MISSING_INTERVALS in v.reasons <==> exists s :: Lacks(r, observations, s))
      && (PARTIAL_OBSERVATION in v.reasons <==> SomeArrivesPartial(observations))
      && (EMPTY_BATCH in v.reasons <==> observations == [])
      && (v.disposition == REJECTED <==> v.reasons * HARD != {}) && (v.disposition == COMPLETE <==> v.reasons == {})
      && (forall s :: s in v.missing <==> Lacks(r, observations, s))
  {
    hide AbsorbAll, Judge, Explained, Lacks, SomeArrivesPartial, Kept, ByStart, SomePartial, Missing, Grid, Count, Intervals;
    var t := AbsorbAll(r, Start(), observations);
    AllAbsorbed(r, observations);
    PartialAndMissing(r, observations, t);
    ReasonsDecide(r, t, |observations|);
    var v := Judge(r, t, |observations|);
    SameReasons(r, t.reasons, v.reasons, observations);
    assert (exists s :: Lacks(r, observations, s)) <==> v.missing != [] by {
      if v.missing != [] { assert v.missing[0] in v.missing && Lacks(r, observations, v.missing[0]); }
    }
  }

  lemma PartialAndMissing(r: Request, observations: seq<Observation>, t: Tally)
    requires Kept(observations, t.accepted) && t.reasons <= HARD
    ensures SomePartial(ByStart(t.accepted)) <==> SomeArrivesPartial(observations)
    ensures forall s :: s in Judge(r, t, |observations|).missing <==> Lacks(r, observations, s)
  {
    ReasonsDecide(r, t, |observations|);
    SortingKeeps(observations, t.accepted);
    PartialIffArrives(observations, t.accepted);
    hide Kept, ByStart, SomePartial, Missing, Grid, Count, Lacks, SameIntervals, Judge, SomeArrivesPartial, Intervals;
    forall s ensures s in Judge(r, t, |observations|).missing <==> Lacks(r, observations, s) {
      MissingIffLacks(r, observations, ByStart(t.accepted), s);
    }
  }

  lemma AllAbsorbed(r: Request, observations: seq<Observation>)
    requires !AbsorbAll(r, Start(), observations).raised
    ensures var t := AbsorbAll(r, Start(), observations);
      Kept(observations, t.accepted) && Explained(r, t.reasons, observations) && t.reasons <= HARD
  {
    AbsorbingAll(r, Start(), [], observations);
    assert [] + observations == observations;
    TallyOfAll(r, observations);
    hide Kept, Explained, AbsorbAll;
  }

  /** What a verdict is reached with: one observation for each interval, in agreement with the first report,
      and the evidence of exactly the reports that agree with it. */
  lemma VerdictCarriesItsEvidence(r: Request, observations: seq<Observation>)
    requires |observations| <= r.maximumRaw && !AbsorbAll(r, Start(), observations).raised
    ensures var t := AbsorbAll(r, Start(), observations); var v := Judge(r, t, |observations|);
      && Kept(observations, t.accepted) && v.unique == |t.accepted|
      && (if v.disposition == REJECTED then v.observations == []
          else |v.observations| == |t.accepted| && forall a :: a in v.observations <==> a in t.accepted)
      && (forall e :: e in v.lineage <==> exists o :: Counts(observations, o) && e in o.lineage)
      && (forall x :: x in v.references <==> exists o :: Counts(observations, o) && Cites(o, x))
  {
    var t := AbsorbAll(r, Start(), observations);
    AllAbsorbed(r, observations);
    ByStartHolds(t.accepted);
    hide Kept, AbsorbAll, Explained, ByStart, SomePartial, Missing, Grid, Count, Counts, Cites, Intervals;
    hide OrderedUnique, AllLineage, AllReferences, WorstHealth, WorstFidelity, Reasons;
    var s := ByStart(t.accepted);
    forall e ensures e in AllLineage(s) <==> exists o :: Counts(observations, o) && e in o.lineage {
      LineageHolds(s, e);
      EvidenceIff(observations, t.accepted, e);
    }
    forall x ensures x in AllReferences(s) <==> exists o :: Counts(observations, o) && Cites(o, x) {
      ReferencesHold(s, x);
      CitationIff(observations, t.accepted, x);
    }
  }

  // How good it is

  lemma {:induction false} WorstFidelityIs(s: seq<Observation>)
    requires s != [] && forall o :: o in s ==> o.complete
    ensures WorstFidelity(s) == if exists o :: o in s && o.derived then DERIVED else REPORTED
  {
    assert s[0] in s;
    if |s| > 1 {
      assert s == [s[0]] + s[1..];
      WorstFidelityIs(s[1..]);
    }
  }

  lemma CompleteHasKept(r: Request, observations: seq<Observation>)
    requires var t := AbsorbAll(r, Start(), observations);
      !t.raised && Judge(r, t, |observations|).disposition == COMPLETE
    ensures var s := ByStart(AbsorbAll(r, Start(), observations).accepted);
      s != [] && forall o :: o in s ==> o.complete
  {
    hide AbsorbAll, Tallied, Grid, Count, ByStart, Intervals, OrderedUnique, AllLineage, AllReferences, WorstHealth,
      WorstFidelity, KeysAscend, Ascend;
    TallyOfAll(r, observations);
    var t := AbsorbAll(r, Start(), observations);
    SoftTally(r, t, observations);
    KeptBelongs(r, t, observations);
    var s := ByStart(t.accepted);
    NothingMissing(r, s);
    var g := Grid(r.start, r.series.interval, Count(r));
    assert g[0] in g;
  }

  /** Health and fidelity of a verdict follow from its disposition and what was kept: a complete one is
      ready, and derived exactly when some kept observation is; a partial one is degraded, or unavailable
      when nothing was kept; a rejected one has failed. */
  lemma VerdictIsRated(r: Request, observations: seq<Observation>)
    requires !AbsorbAll(r, Start(), observations).raised
    ensures var t := AbsorbAll(r, Start(), observations); var v := Judge(r, t, |observations|);
      match v.disposition
      case COMPLETE =>
        v.health == READY && v.fidelity == if exists o :: o in t.accepted && o.derived then DERIVED else REPORTED
      case PARTIAL =>
        if t.accepted == [] then v.health == UNAVAILABLE && v.fidelity == NO_FIDELITY
        else v.health == DEGRADED && v.fidelity == PARTIAL_FIDELITY
      case REJECTED => v.health == FAILED && v.fidelity == NO_FIDELITY
  {
    hide AbsorbAll, ByStart, Missing, Grid, Count, Intervals, SomePartial, OrderedUnique, AllLineage, AllReferences,
      WorstHealth, WorstFidelity, Reasons;
    var t := AbsorbAll(r, Start(), observations);
    var s := ByStart(t.accepted);
    ByStartHolds(t.accepted);
    if Judge(r, t, |observations|).disposition == COMPLETE {
      CompleteHasKept(r, observations);
      WorstOfComplete(s);
      WorstFidelityIs(s);
    }
    if s != [] { WorstIsMild(s); }
  }
}
