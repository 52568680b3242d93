/** What a validation verdict is worth: a complete batch tiles the requested range exactly. */
module BatchTiling {
  import opened Prelude
  import opened BatchValidation

  // Accounting

  /** Every observation is kept, a duplicate or a conflict; what is kept has distinct keys; and each kind
      of fault among the kept ones has its reason. */
  ghost predicate Tallied(r: Request, t: Tally, seen: seq<Observation>) {
    && |t.accepted| + t.duplicates + t.conflicts == |seen|
    && (forall i, j :: 0 <= i < j < |t.accepted| ==> t.accepted[i].Key() != t.accepted[j].Key())
    && (t.conflicts > 0 ==> UNEQUAL_INTERVAL_CONFLICT in t.reasons)
    && t.reasons <= HARD
    && (forall o :: o in t.accepted ==>
          && (o.series != r.series ==> IDENTITY_MISMATCH in t.reasons)
          && (o.start < r.start || o.end > r.end ==> OUTSIDE_REQUEST_BOUNDS in t.reasons))
    && (forall x :: x in StartsOf(t.accepted) <==> x in StartsOf(seen))
  }

  lemma ReplacingKeepsStarts(accepted: seq<Observation>, i: nat, merged: Observation)
    requires i < |accepted| && merged.start == accepted[i].start
    ensures StartsOf(accepted[i := merged]) == StartsOf(accepted)
  {
  }

  lemma AppendingStarts(observations: seq<Observation>, o: Observation)
    ensures forall x :: x in StartsOf(observations + [o]) <==> x in StartsOf(observations) || x == o.start
  {
    assert StartsOf(observations + [o]) == StartsOf(observations) + [o.start];
  }

  lemma FirstArrivalKeepsTally(r: Request, t: Tally, seen: seq<Observation>, o: Observation)
    requires Tallied(r, t, seen) && Position(t.accepted, o.Key()).None?
    ensures Tallied(r, Absorb(r, t, o), seen + [o])
  {
    hide StartsOf, OrderedUnique, MergeDuplicate;
    AppendingStarts(seen, o);
    AppendingStarts(t.accepted, o);
  }

  lemma AbsorbKeepsTally(r: Request, t: Tally, seen: seq<Observation>, o: Observation)
    requires Tallied(r, t, seen) && !Absorb(r, t, o).raised
    ensures Tallied(r, Absorb(r, t, o), seen + [o])
  {
    hide StartsOf, OrderedUnique;
    var next := Absorb(r, t, o);
    var at := Position(t.accepted, o.Key());
    if at.None? {
      FirstArrivalKeepsTally(r, t, seen, o);
    } else {
      AppendingStarts(seen, o);
      assert t.accepted[at.value].start == o.start;
      assert StartsOf(t.accepted)[at.value] == o.start;
      if next.accepted != t.accepted {
        ReplacingKeepsStarts(t.accepted, at.value, next.accepted[at.value]);
        ReplacedFaults(r, t, at.value, next);
      }
    }
  }

  lemma ReplacedFaults(r: Request, t: Tally, i: nat, next: Tally)
    requires i < |t.accepted| && |next.accepted| == |t.accepted| && t.reasons <= next.reasons
    requires forall j :: 0 <= j < |t.accepted| ==>
      next.accepted[j].series == t.accepted[j].series && next.accepted[j].start == t.accepted[j].start
      && next.accepted[j].end == t.accepted[j].end
    requires forall o :: o in t.accepted ==>
      && (o.series != r.series ==> IDENTITY_MISMATCH in t.reasons)
      && (o.start < r.start || o.end > r.end ==> OUTSIDE_REQUEST_BOUNDS in t.reasons)
    ensures forall o :: o in next.accepted ==>
      && (o.series != r.series ==> IDENTITY_MISMATCH in next.reasons)
      && (o.start < r.start || o.end > r.end ==> OUTSIDE_REQUEST_BOUNDS in next.reasons)
  {
    forall o | o in next.accepted
      ensures o.series != r.series ==> IDENTITY_MISMATCH in next.reasons
      ensures o.start < r.start || o.end > r.end ==> OUTSIDE_REQUEST_BOUNDS in next.reasons
    {
      var j :| 0 <= j < |next.accepted| && next.accepted[j] == o;
      assert t.accepted[j] in t.accepted;
    }
  }

  lemma RaisedStays(r: Request, t: Tally, more: seq<Observation>)
    ensures t.raised ==> AbsorbAll(r, t, more) == t
  {
  }

  lemma {:induction false} AbsorbAllKeepsTally(r: Request, t: Tally, seen: seq<Observation>, more: seq<Observation>)
    requires Tallied(r, t, seen) && !t.raised && !AbsorbAll(r, t, more).raised
    ensures Tallied(r, AbsorbAll(r, t, more), seen + more)
    decreases |more|
  {
    hide Tallied, Absorb;
    if more == [] {
      assert seen + more == seen;
    } else {
      var next := Absorb(r, t, more[0]);
      RaisedStays(r, next, more[1..]);
      AbsorbKeepsTally(r, t, seen, more[0]);
      AbsorbAllKeepsTally(r, next, seen + [more[0]], more[1..]);
      assert seen + [more[0]] + more[1..] == seen + more;
    }
  }

  // Sorting

  lemma {:induction false} InsertHolds(sorted: seq<Observation>, o: Observation)
    ensures |Insert(sorted, o)| == |sorted| + 1
    ensures forall x :: x in Insert(sorted, o) <==> x in sorted || x == o
  {
    if sorted != [] && o.start > sorted[0].start {
      InsertHolds(sorted[1..], o);
      assert sorted == [sorted[0]] + sorted[1..];
    }
  }

  lemma {:induction false} ByStartHolds(observations: seq<Observation>)
    ensures |ByStart(observations)| == |observations|
    ensures forall x :: x in ByStart(observations) <==> x in observations
  {
    if observations != [] {
      ByStartHolds(observations[1..]);
      InsertHolds(ByStart(observations[1..]), observations[0]);
      assert observations == [observations[0]] + observations[1..];
    }
  }

  ghost predicate StrictlyByStart(s: seq<Observation>) {
    forall i, j :: 0 <= i < j < |s| ==> s[i].start < s[j].start
  }

  lemma {:induction false} InsertSorts(sorted: seq<Observation>, o: Observation)
    requires StrictlyByStart(sorted) && forall x :: x in sorted ==> x.start != o.start
    ensures StrictlyByStart(Insert(sorted, o))
  {
    if sorted == [] {
    } else if o.start < sorted[0].start {
      assert forall i :: 0 <= i < |sorted| ==> o.start < sorted[i].start;
    } else {
      assert sorted[0] in sorted && forall x :: x in sorted[1..] ==> x in sorted;
      InsertSorts(sorted[1..], o);
      InsertHolds(sorted[1..], o);
      var rest := Insert(sorted[1..], o);
      forall i | 0 <= i < |rest| ensures sorted[0].start < rest[i].start {
        assert rest[i] in rest;
      }
    }
  }

  ghost predicate DistinctStarts(s: seq<Observation>) {
    forall i, j :: 0 <= i < j < |s| ==> s[i].start != s[j].start
  }

  lemma {:induction false} ByStartSorts(observations: seq<Observation>)
    requires DistinctStarts(observations)
    ensures StrictlyByStart(ByStart(observations))
  {
    if observations != [] {
      var rest := observations[1..];
      assert forall i :: 0 <= i < |rest| ==> rest[i] == observations[i + 1];
      ByStartSorts(rest);
      ByStartHolds(rest);
      InsertSorts(ByStart(rest), observations[0]);
    }
  }

  /** Of one series and with distinct keys, sorted observations ascend strictly. */
  lemma SortedAscendStrictly(r: Request, accepted: seq<Observation>)
    requires forall i, j :: 0 <= i < j < |accepted| ==> accepted[i].Key() != accepted[j].Key()
    requires forall o :: o in accepted ==> o.series == r.series
    ensures Ascend(StartsOf(ByStart(accepted))) && KeysAscend(ByStart(accepted))
  {
    hide ByStart, KeysAscend, Ascend;
    forall i, j | 0 <= i < j < |accepted| ensures accepted[i].start != accepted[j].start {
      assert accepted[i].Key() != accepted[j].Key();
      SeriesAt(r, accepted, i);
      SeriesAt(r, accepted, j);
    }
    ByStartSorts(accepted);
    StrictOrderIsKeyOrder(ByStart(accepted));
  }

  lemma StrictOrderIsKeyOrder(s: seq<Observation>)
    requires StrictlyByStart(s)
    ensures Ascend(StartsOf(s)) && KeysAscend(s)
  {
  }

  lemma SeriesAt(r: Request, accepted: seq<Observation>, i: nat)
    requires i < |accepted| && forall o :: o in accepted ==> o.series == r.series
    ensures accepted[i].Key() == (r.series.seriesId, accepted[i].start, accepted[i].start + r.series.interval)
  {
    assert accepted[i] in accepted;
  }

  // The grid

  predicate OnGrid(r: Request, start: int) {
    (start - r.start) % r.series.interval == 0
  }

  lemma GridIsAligned(r: Request, start: int)
    requires start in Grid(r.start, r.series.interval, Count(r))
    ensures OnGrid(r, start) && r.start <= start && start + r.series.interval <= r.end
  {
    var n := r.series.interval;
    var i :| 0 <= i < Count(r) && start == r.start + i * n;
    MultipleHasNoRemainder(i, n);
    MultiplesAscend(i + 1, Count(r), n);
    MultiplesAscend(0, i, n);
    assert (i + 1) * n == i * n + n;
  }

  lemma AlignedIsOnGrid(r: Request, start: int)
    requires OnGrid(r, start) && r.start <= start && start + r.series.interval <= r.end
    ensures start in Grid(r.start, r.series.interval, Count(r))
  {
    var n := r.series.interval;
    var k := (start - r.start) / n;
    Divided(start - r.start, n);
    MultiplesAscend(Count(r), k, n);
    MultiplesAscend(k, -1, n);
    assert Grid(r.start, n, Count(r))[k] == start;
  }

  lemma Divided(a: int, n: int)
    requires 0 < n && a % n == 0
    ensures a == (a / n) * n
  {
  }

  lemma GridHolds(r: Request, start: int)
    ensures start in Grid(r.start, r.series.interval, Count(r)) <==>
            OnGrid(r, start) && r.start <= start && start + r.series.interval <= r.end
  {
    hide Grid, Count, OnGrid;
    if start in Grid(r.start, r.series.interval, Count(r)) { GridIsAligned(r, start); }
    if OnGrid(r, start) && r.start <= start && start + r.series.interval <= r.end { AlignedIsOnGrid(r, start); }
  }

  lemma GridAscends(start: int, interval: int, n: nat)
    requires 0 < interval
    ensures Ascend(Grid(start, interval, n))
  {
    var g := Grid(start, interval, n);
    forall i, j | 0 <= i < j < n ensures g[i] < g[j] {
      MultiplesAscend(i + 1, j, interval);
    }
  }

  lemma {:induction false} AscendingIsDetermined(a: seq<int>, b: seq<int>)
    requires Ascend(a) && Ascend(b) && forall x :: x in a <==> x in b
    ensures a == b
  {
    assert a != [] ==> a[0] in a && a[0] in b;
    assert b != [] ==> b[0] in b && b[0] in a;
    if a != [] && b != [] {
      assert a[0] == b[0];
      forall x ensures x in a[1..] <==> x in b[1..] {
        assert x in a[1..] <==> x in a && x != a[0];
        assert x in b[1..] <==> x in b && x != b[0];
      }
      AscendingIsDetermined(a[1..], b[1..]);
      assert a == [a[0]] + a[1..] && b == [b[0]] + b[1..];
    }
  }

  lemma {:induction false} AscendingCounts(s: seq<int>)
    requires Ascend(s)
    ensures |set x | x in s| == |s|
  {
    if s != [] {
      AscendingCounts(s[1..]);
      assert (set x | x in s) == {s[0]} + set x | x in s[1..];
      assert s[0] !in s[1..];
    }
  }

  /** Pigeonhole: an ascending sequence that holds the whole grid and is no longer than it is the grid. */
  lemma HoldingTheGridIsTheGrid(s: seq<int>, g: seq<int>)
    requires Ascend(s) && Ascend(g) && |s| == |g| && forall x :: x in g ==> x in s
    ensures s == g
  {
    AscendingCounts(s);
    AscendingCounts(g);
    var a := set x | x in s;
    var b := set x | x in g;
    assert b <= a && |a| == |b|;
    SameSize(b, a);
    forall x ensures x in s <==> x in g {
      assert x in a <==> x in s;
      assert x in b <==> x in g;
    }
    AscendingIsDetermined(s, g);
  }

  lemma SameSize(small: set<int>, large: set<int>)
    requires small <= large && |small| == |large|
    ensures small == large
  {
    var rest := large - small;
    assert large == small + rest && |rest| == 0;
  }

  // The verdict

  /** Not rejected outright: the kept observations belong to the request and ascend strictly. */
  lemma KeptBelongs(r: Request, t: Tally, seen: seq<Observation>)
    requires Tallied(r, t, seen) && t.reasons * HARD == {}
    ensures t.reasons == {} && t.conflicts == 0
    ensures var s := ByStart(t.accepted);
      && |s| == |t.accepted| && Ascend(StartsOf(s)) && KeysAscend(s)
      && (forall o :: o in s ==> o.series == r.series && r.start <= o.start && o.end <= r.end)
      && (forall x :: x in StartsOf(s) <==> x in StartsOf(seen))
  {
    assert t.reasons <= HARD ==> t.reasons == t.reasons * HARD;
    SortedAscendStrictly(r, t.accepted);
    ByStartHolds(t.accepted);
    var s := ByStart(t.accepted);
    forall x ensures x in StartsOf(s) <==> x in StartsOf(t.accepted) {
      StartsHeld(s, x);
      StartsHeld(t.accepted, x);
    }
  }

  lemma StartsHeld(s: seq<Observation>, x: int)
    ensures x in StartsOf(s) <==> exists o :: o in s && o.start == x
  {
    if x in StartsOf(s) {
      var i :| 0 <= i < |s| && StartsOf(s)[i] == x;
      assert s[i] in s;
    }
    if exists o :: o in s && o.start == x {
      var o :| o in s && o.start == x;
      var i :| 0 <= i < |s| && s[i] == o;
      assert StartsOf(s)[i] == x;
    }
  }

  lemma NothingMissing(r: Request, s: seq<Observation>)
    requires forall o :: o in s ==> o.series == r.series
    requires Missing(r, Grid(r.start, r.series.interval, Count(r)), Intervals(s)) == []
    ensures forall x :: x in Grid(r.start, r.series.interval, Count(r)) ==> x in StartsOf(s)
  {
    var g := Grid(r.start, r.series.interval, Count(r));
    forall x | x in g ensures x in StartsOf(s) {
      assert x !in Missing(r, g, Intervals(s));
      var o :| o in s && (o.start, o.end) == (x, x + r.series.interval);
      StartsHeld(s, x);
    }
  }

  lemma {:induction false} MissingAscends(r: Request, starts: seq<int>, observed: set<(int, int)>)
    requires Ascend(starts)
    ensures Ascend(Missing(r, starts, observed))
  {
    if starts != [] {
      MissingAscends(r, starts[1..], observed);
      var rest := Missing(r, starts[1..], observed);
      forall i | 0 <= i < |rest| ensures starts[0] < rest[i] {
        assert rest[i] in rest && rest[i] in starts[1..];
      }
    }
  }

  lemma {:induction false} WorstOfComplete(s: seq<Observation>)
    requires s != [] && forall o :: o in s ==> o.complete
    ensures WorstHealth(s) == READY && WorstFidelity(s) in {REPORTED, DERIVED}
  {
    assert s[0] in s;
    if |s| > 1 { WorstOfComplete(s[1..]); }
  }

  lemma {:induction false} WorstIsMild(s: seq<Observation>)
    requires s != []
    ensures HealthRank(WorstHealth(s)) <= HealthRank(DEGRADED)
    ensures FidelityRank(WorstFidelity(s)) <= FidelityRank(PARTIAL_FIDELITY)
  {
    if |s| > 1 { WorstIsMild(s[1..]); }
  }

  /** Some kept observation does not start on the request's interval grid. */
  ghost predicate OffGrid(r: Request, seen: seq<Observation>) {
    exists x :: x in StartsOf(seen) && !OnGrid(r, x)
  }

  /** In a batch without any fault, the kept observations are as many as the request asks for exactly
      when all of them start on the grid; and then they are the grid. */
  lemma CompleteCounts(r: Request, t: Tally, seen: seq<Observation>)
    requires Tallied(r, t, seen) && Judge(r, t, |seen|).disposition == COMPLETE
    ensures |t.accepted| == Count(r) <==> !OffGrid(r, seen)
    ensures |t.accepted| == Count(r) ==>
      StartsOf(ByStart(t.accepted)) == Grid(r.start, r.series.interval, Count(r))
  {
    KeptBelongs(r, t, seen);
    var s := ByStart(t.accepted);
    var g := Grid(r.start, r.series.interval, Count(r));
    NothingMissing(r, s);
    GridAscends(r.start, r.series.interval, Count(r));
    if |t.accepted| == Count(r) {
      HoldingTheGridIsTheGrid(StartsOf(s), g);
      forall x | x in StartsOf(seen) ensures OnGrid(r, x) { GridHolds(r, x); }
    }
    if !OffGrid(r, seen) {
      forall x ensures x in StartsOf(s) <==> x in g {
        GridHolds(r, x);
        StartsHeld(s, x);
      }
      AscendingIsDetermined(StartsOf(s), g);
    }
  }

  lemma MissingIsInBounds(r: Request, observed: set<(int, int)>)
    ensures var m := Missing(r, Grid(r.start, r.series.interval, Count(r)), observed);
      Ascend(m) && forall s :: s in m ==> 0 < s && r.start <= s && s + r.series.interval <= r.end
  {
    var g := Grid(r.start, r.series.interval, Count(r));
    GridAscends(r.start, r.series.interval, Count(r));
    MissingAscends(r, g, observed);
    forall s | s in Missing(r, g, observed) ensures 0 < s && r.start <= s && s + r.series.interval <= r.end {
      GridHolds(r, s);
    }
  }

  lemma RejectedIsAcceptable(r: Request, t: Tally, seen: seq<Observation>)
    requires Tallied(r, t, seen) && Judge(r, t, |seen|).disposition == REJECTED
    ensures Acceptable(r, Judge(r, t, |seen|))
  {
    MissingIsInBounds(r, Intervals(ByStart(t.accepted)));
    var result := Judge(r, t, |seen|);
    assert result.reasons * HARD != {} ==> result.reasons != {};
  }

  lemma ReasonsStaySoft(t: Tally, missing: seq<int>, partial: bool, empty: bool)
    requires t.reasons <= HARD
    ensures Reasons(t, missing, partial, empty) * HARD == t.reasons
  {
  }

  lemma PartialIsAcceptable(r: Request, t: Tally, seen: seq<Observation>)
    requires Tallied(r, t, seen) && Judge(r, t, |seen|).disposition == PARTIAL
    ensures Acceptable(r, Judge(r, t, |seen|))
  {
    hide Missing, Grid, Count, ByStart, Intervals, AllReferences, AllLineage, OrderedUnique, KeysAscend, Ascend, Tallied;
    assert t.reasons <= HARD by { SoftTally(r, t, seen); }
    var s := ByStart(t.accepted);
    var missing := Missing(r, Grid(r.start, r.series.interval, Count(r)), Intervals(s));
    MissingIsInBounds(r, Intervals(s));
    TallyAdds(r, t, seen);
    ReasonsStaySoft(t, missing, SomePartial(s), |seen| == 0);
    KeptBelongs(r, t, seen);
    var result := Judge(r, t, |seen|);
    assert MISSING_INTERVALS in result.reasons || PARTIAL_OBSERVATION in result.reasons || EMPTY_BATCH in result.reasons;
    if s != [] { WorstIsMild(s); }
  }

  lemma SoftTally(r: Request, t: Tally, seen: seq<Observation>)
    requires Tallied(r, t, seen)
    ensures t.reasons <= HARD
  {
  }

  lemma TallyAdds(r: Request, t: Tally, seen: seq<Observation>)
    requires Tallied(r, t, seen)
    ensures |t.accepted| + t.duplicates + t.conflicts == |seen|
  {
  }

  lemma CompleteIsAcceptable(r: Request, t: Tally, seen: seq<Observation>)
    requires Tallied(r, t, seen) && Judge(r, t, |seen|).disposition == COMPLETE
    ensures Acceptable(r, Judge(r, t, |seen|)) <==> !OffGrid(r, seen)
  {
    hide Missing, Grid, ByStart, Intervals, AllReferences, AllLineage, OrderedUnique, KeysAscend, Ascend, Tallied;
    SoftTally(r, t, seen);
    TallyAdds(r, t, seen);
    MissingIsInBounds(r, Intervals(ByStart(t.accepted)));
    var s := ByStart(t.accepted);
    var missing := Missing(r, Grid(r.start, r.series.interval, Count(r)), Intervals(s));
    ReasonsStaySoft(t, missing, SomePartial(s), |seen| == 0);
    KeptBelongs(r, t, seen);
    CompleteCounts(r, t, seen);
    NothingMissing(r, s);
    assert Grid(r.start, r.series.interval, Count(r))[0] in Grid(r.start, r.series.interval, Count(r));
    assert s != [];
    WorstOfComplete(s);
  }

  /** A batch within its bound whose evidence fits is refused by the result's constructor in one case
      only: nothing is wrong with it and nothing missing from it, but it also holds an observation off
      the interval grid. */
  lemma ConstructorRefusesOnlyOffGrid(r: Request, observations: seq<Observation>)
    requires |observations| <= r.maximumRaw
    requires var t := AbsorbAll(r, Start(), observations); !t.raised && Fits(Judge(r, t, |observations|))
    ensures var result := Judge(r, AbsorbAll(r, Start(), observations), |observations|);
      && (Validate(r, observations) == Some(result) <==> !(result.disposition == COMPLETE && OffGrid(r, observations)))
      && result.raw == result.unique + result.duplicates + result.conflicts == |observations|
  {
    hide Acceptable, Fits, AbsorbAll;
    TallyOfAll(r, observations);
    var t := AbsorbAll(r, Start(), observations);
    match Judge(r, t, |observations|).disposition
    case COMPLETE => CompleteIsAcceptable(r, t, observations);
    case PARTIAL => PartialIsAcceptable(r, t, observations);
    case REJECTED => RejectedIsAcceptable(r, t, observations);
  }

  /** Two intervals of two units each, from 1 to 5. */
  function TwoIntervals(): Request {
    RequestValues(Series(0, 2, 0), 0, 1, 5, 3)
  }

  /** A complete, reported bar of that series. */
  function Bar(start: int): Observation
    requires 0 < start
  {
    ObservationValues(Series(0, 2, 0), start, start + 2, true, 0, 1, false, [LineageEntry(true, 0, 0, [])], [0])
  }

  lemma BarsAreAbsorbed()
    ensures AbsorbAll(TwoIntervals(), Start(), [Bar(1), Bar(2), Bar(3)])
         == Tally([Bar(1), Bar(2), Bar(3)], 0, 0, {}, Some(3), false)
  {
  }

  lemma BarsAreOrdered()
    ensures ByStart([Bar(1), Bar(2), Bar(3)]) == [Bar(1), Bar(2), Bar(3)]
  {
  }

  lemma BarsAreComplete()
    ensures Count(TwoIntervals()) == 2 && Grid(1, 2, 2) == [1, 3]
    ensures Missing(TwoIntervals(), [1, 3], Intervals([Bar(1), Bar(2), Bar(3)])) == []
    ensures !SomePartial([Bar(1), Bar(2), Bar(3)])
  {
  }

  lemma {:induction false} OneKindIsOne<T(!new)>(s: seq<T>, x: T)
    requires forall i :: 0 <= i < |s| ==> s[i] == x
    ensures OrderedUnique(s) == if s == [] then [] else [x]
  {
    if s != [] {
      assert s == s[..|s| - 1] + [s[|s| - 1]];
      OneKindIsOne(s[..|s| - 1], x);
    }
  }

  lemma BarsShareLineage()
    ensures |OrderedUnique(AllLineage([Bar(1), Bar(2), Bar(3)]))| <= 1
  {
    hide OrderedUnique;
    var a, b, c := Bar(1), Bar(2), Bar(3);
    var e := LineageEntry(true, 0, 0, []);
    assert [a, b, c][1..] == [b, c] && [b, c][1..] == [c] && [c][1..] == [];
    assert AllLineage([c]) == [e] + AllLineage([]) == [e];
    assert AllLineage([b, c]) == [e] + [e];
    assert AllLineage([a, b, c]) == [e] + ([e] + [e]);
    OneKindIsOne(AllLineage([a, b, c]), e);
  }

  lemma BarReferences(start: int, rest: seq<Observation>)
    requires 0 < start
    ensures AllReferences([Bar(start)] + rest) == [0, 0] + AllReferences(rest)
  {
    var e := LineageEntry(true, 0, 0, []);
    assert [e][1..] == [] && ([Bar(start)] + rest)[1..] == rest;
    assert LineageReferences([e]) == [0] && NestedReferences([e]) == [];
  }

  lemma BarsShareReferences()
    ensures |OrderedUnique(AllReferences([Bar(1), Bar(2), Bar(3)]))| <= 1
  {
    hide OrderedUnique, LineageReferences, NestedReferences;
    BarReferences(3, []);
    BarReferences(2, [Bar(3)]);
    BarReferences(1, [Bar(2), Bar(3)]);
    assert [Bar(3)] + [] == [Bar(3)] && [Bar(2)] + [Bar(3)] == [Bar(2), Bar(3)];
    assert [Bar(1)] + [Bar(2), Bar(3)] == [Bar(1), Bar(2), Bar(3)];
    OneKindIsOne(AllReferences([Bar(1), Bar(2), Bar(3)]), 0);
  }

  /** Such a batch exists: two intervals of two units requested from 1 on, observed at 1, 2 and 3.
      Nothing is wrong with it and both requested intervals are there, yet there is no result. */
  lemma OffGridBatchIsRefused()
    ensures var r, observations := TwoIntervals(), [Bar(1), Bar(2), Bar(3)];
      var t := AbsorbAll(r, Start(), observations);
      && |observations| <= r.maximumRaw && Count(r) == 2 && StartsOf(observations) == [1, 2, 3]
      && !t.raised && Fits(Judge(r, t, 3))
      && Judge(r, t, 3).disposition == COMPLETE && Judge(r, t, 3).reasons == {}
      && Validate(r, observations) == None
  {
    hide AbsorbAll, ByStart, Missing, OrderedUnique, AllLineage, AllReferences, Count, Grid, SomePartial;
    var r, observations := TwoIntervals(), [Bar(1), Bar(2), Bar(3)];
    BarsAreAbsorbed();
    BarsAreOrdered();
    BarsAreComplete();
    BarsShareLineage();
    BarsShareReferences();
    ConstructorRefusesOnlyOffGrid(r, observations);
    assert StartsOf(observations)[1] == 2 && !OnGrid(r, 2);
    assert OffGrid(r, observations);
  }

  lemma TallyOfAll(r: Request, observations: seq<Observation>)
    requires !AbsorbAll(r, Start(), observations).raised
    ensures Tallied(r, AbsorbAll(r, Start(), observations), observations)
  {
    AbsorbAllKeepsTally(r, Start(), [], observations);
    assert [] + observations == observations;
  }

  /** A complete result tiles the requested range: its observations, in order, start one interval after
      the other from the requested start and end at the requested end, and all are complete. */
  lemma CompleteResultsTile(r: Request, observations: seq<Observation>)
    requires Validate(r, observations).Some? && Validate(r, observations).value.disposition == COMPLETE
    ensures var kept := Validate(r, observations).value.observations;
      && |kept| == Count(r)
      && (forall i :: 0 <= i < |kept| ==>
            && kept[i].start == r.start + i * r.series.interval && kept[i].series == r.series && kept[i].complete
            && kept[i].end == (if i + 1 < |kept| then kept[i + 1].start else r.end))
  {
    hide Acceptable, Fits, AbsorbAll, Tallied, Missing, Grid, ByStart, AllReferences, AllLineage, OrderedUnique, KeysAscend;
    hide WorstHealth, WorstFidelity, HealthRank, FidelityRank, Count;
    TallyOfAll(r, observations);
    var t := AbsorbAll(r, Start(), observations);
    SoftTally(r, t, observations);
    CompleteIsAcceptable(r, t, observations);
    CompleteCounts(r, t, observations);
    KeptBelongs(r, t, observations);
    var kept := ByStart(t.accepted);
    var g := Grid(r.start, r.series.interval, Count(r));
    forall i | 0 <= i < |kept|
      ensures kept[i].start == r.start + i * r.series.interval && kept[i].series == r.series && kept[i].complete
      ensures kept[i].end == (if i + 1 < |kept| then kept[i + 1].start else r.end)
    {
      TileAt(r, kept, i);
    }
  }

  lemma TileAt(r: Request, kept: seq<Observation>, i: nat)
    requires i < |kept| == Count(r) && StartsOf(kept) == Grid(r.start, r.series.interval, Count(r))
    requires forall o :: o in kept ==> o.series == r.series && o.complete
    ensures kept[i].start == r.start + i * r.series.interval && kept[i].series == r.series && kept[i].complete
    ensures kept[i].end == (if i + 1 < |kept| then kept[i + 1].start else r.end)
  {
    assert StartsOf(kept)[i] == kept[i].start && kept[i] in kept;
    assert (i + 1) * r.series.interval == i * r.series.interval + r.series.interval;
    assert i + 1 < |kept| ==> StartsOf(kept)[i + 1] == kept[i + 1].start;
  }
}
