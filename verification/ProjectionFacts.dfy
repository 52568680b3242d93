/** What a projection says of an instant, told by the segments and windows that contain it. */
module ProjectionFacts {
  import opened Prelude
  import opened CalendarMessages
  import opened SessionProjection

  predicate InSegment(s: Segment, t: int) { s.start <= t < s.end }

  predicate InWindow(w: Window, t: int) { w.start <= t < w.end }

  /** The first segment that contains `t`. */
  ghost predicate FirstSegment(p: Projection, t: int, s: Segment) {
    exists i :: 0 <= i < |p.segments| && p.segments[i] == s && InSegment(s, t)
      && forall j :: 0 <= j < i ==> !InSegment(p.segments[j], t)
  }

  ghost predicate InNoSegment(p: Projection, t: int) {
    forall s :: s in p.segments ==> !InSegment(s, t)
  }

  ghost predicate InNoWindow(p: Projection, t: int) {
    forall w :: w in p.windows ==> !InWindow(w, t)
  }

  /** The first window that contains `t`. */
  ghost predicate FirstWindow(p: Projection, t: int, w: Window) {
    exists i :: 0 <= i < |p.windows| && p.windows[i] == w && InWindow(w, t)
      && forall j :: 0 <= j < i ==> !InWindow(p.windows[j], t)
  }

  /** The first window that begins after `t`. */
  ghost predicate FirstAhead(p: Projection, t: int, w: Window) {
    exists i :: 0 <= i < |p.windows| && p.windows[i] == w && t < w.start
      && forall j :: 0 <= j < i ==> p.windows[j].start <= t
  }

  ghost predicate NoneAhead(p: Projection, t: int) {
    forall w :: w in p.windows ==> w.start <= t
  }

  /** How many of the windows contain `t`. */
  function Containing(windows: seq<Window>, t: int): nat {
    if windows == [] then 0 else (if InWindow(windows[0], t) then 1 else 0) + Containing(windows[1..], t)
  }

  lemma {:induction false} ActiveIsFirst(segments: seq<Segment>, t: int)
    ensures var a := ActiveSegment(segments, t);
      && (a.None? <==> forall s :: s in segments ==> !InSegment(s, t))
      && (a.Some? ==> exists i :: 0 <= i < |segments| && segments[i] == a.value && InSegment(a.value, t)
                        && forall j :: 0 <= j < i ==> !InSegment(segments[j], t))
  {
    if segments == [] || InSegment(segments[0], t) {
    } else {
      ActiveIsFirst(segments[1..], t);
      var a := ActiveSegment(segments[1..], t);
      if a.Some? {
        var i :| 0 <= i < |segments[1..]| && segments[1..][i] == a.value
          && forall j :: 0 <= j < i ==> !InSegment(segments[1..][j], t);
        assert segments[i + 1] == a.value;
        assert forall j :: 0 < j < i + 1 ==> segments[j] == segments[1..][j - 1];
      }
    }
  }

  lemma {:induction false} ActiveAreCounted(windows: seq<Window>, t: int)
    ensures |ActiveWindows(windows, t)| == Containing(windows, t)
    ensures forall w :: w in ActiveWindows(windows, t) <==> w in windows && InWindow(w, t)
  {
    if windows != [] {
      ActiveAreCounted(windows[1..], t);
      assert forall w :: w in windows <==> w == windows[0] || w in windows[1..];
    }
  }

  lemma {:induction false} FirstOfActive(windows: seq<Window>, t: int)
    requires ActiveWindows(windows, t) != []
    ensures exists i :: (
      0 <= i < |windows| && windows[i] == ActiveWindows(windows, t)[0] && InWindow(windows[i], t)
      && forall j :: 0 <= j < i ==> !InWindow(windows[j], t))
  {
    if !InWindow(windows[0], t) {
      FirstOfActive(windows[1..], t);
      var i :| 0 <= i < |windows[1..]| && windows[1..][i] == ActiveWindows(windows, t)[0] && InWindow(windows[1..][i], t)
        && forall j :: 0 <= j < i ==> !InWindow(windows[1..][j], t);
      assert windows[i + 1] == windows[1..][i];
      assert forall j :: 0 < j < i + 1 ==> windows[j] == windows[1..][j - 1];
    }
  }

  lemma {:induction false} FutureIsFirst(windows: seq<Window>, t: int)
    ensures var f := FutureWindow(windows, t);
      && (f.None? <==> forall w :: w in windows ==> w.start <= t)
      && (f.Some? ==> exists i :: 0 <= i < |windows| && windows[i] == f.value && t < f.value.start
                        && forall j :: 0 <= j < i ==> windows[j].start <= t)
  {
    if windows == [] || windows[0].start > t {
    } else {
      FutureIsFirst(windows[1..], t);
      var f := FutureWindow(windows[1..], t);
      if f.Some? {
        var i :| 0 <= i < |windows[1..]| && windows[1..][i] == f.value
          && forall j :: 0 <= j < i ==> windows[1..][j].start <= t;
        assert windows[i + 1] == f.value;
        assert forall j :: 0 < j < i + 1 ==> windows[j] == windows[1..][j - 1];
      }
    }
  }

  // Order by phase

  predicate PhasesAscend(windows: seq<Window>) {
    forall i, j :: 0 <= i < j < |windows| ==> windows[i].phase <= windows[j].phase
  }

  lemma {:induction false} InsertKeepsPhases(sorted: seq<Window>, w: Window)
    requires PhasesAscend(sorted)
    ensures PhasesAscend(InsertByPhase(sorted, w)) && |InsertByPhase(sorted, w)| == |sorted| + 1
    ensures forall x :: x in InsertByPhase(sorted, w) <==> x in sorted || x == w
  {
    if sorted == [] || w.phase <= sorted[0].phase {
    } else {
      InsertKeepsPhases(sorted[1..], w);
      var rest := InsertByPhase(sorted[1..], w);
      assert forall x :: x in sorted <==> x == sorted[0] || x in sorted[1..];
      forall i | 0 <= i < |rest| ensures sorted[0].phase <= rest[i].phase {
        assert rest[i] in rest;
      }
    }
  }

  lemma {:induction false} ByPhaseSorts(windows: seq<Window>)
    ensures PhasesAscend(ByPhase(windows)) && |ByPhase(windows)| == |windows|
    ensures forall x :: x in ByPhase(windows) <==> x in windows
  {
    if windows != [] {
      ByPhaseSorts(windows[1..]);
      InsertKeepsPhases(ByPhase(windows[1..]), windows[0]);
    }
  }

  // Facts

  /** What `f` says of the market, by the first segment that contains the instant. */
  ghost predicate MarketOf(p: Projection, t: int, f: Facts) {
    && (f.market == CLOSED <==> InNoSegment(p, t))
    && (f.market == OPEN <==> exists s :: FirstSegment(p, t, s) && s.open)
    && (f.market == BREAK <==> exists s :: FirstSegment(p, t, s) && !s.open)
  }

  /** The phases are those of the windows that contain the instant, one name each, in order. */
  ghost predicate PhasesOf(p: Projection, t: int, f: Facts) {
    && |f.phases| == Containing(p.windows, t)
    && (forall i, j :: 0 <= i < j < |f.phases| ==> f.phases[i] <= f.phases[j])
    && (forall x :: x in f.phases <==> exists w :: w in p.windows && InWindow(w, t) && w.phase == x)
  }

  /** The bounds are those of the only window that contains the instant, or else of the first segment. */
  ghost predicate BoundsOf(p: Projection, t: int, f: Facts) {
    if Containing(p.windows, t) == 1 then
      exists w :: w in p.windows && InWindow(w, t) && f.segmentOpen == Some(w.start) && f.segmentClose == Some(w.end)
    else if InNoSegment(p, t) then f.segmentOpen.None? && f.segmentClose.None?
    else exists s :: FirstSegment(p, t, s) && f.segmentOpen == Some(s.start) && f.segmentClose == Some(s.end)
  }

  /** The trade date is that of the first segment that contains the instant, or else of the first window
      that does, or else of the first window ahead. */
  ghost predicate DateOf(p: Projection, t: int, f: Facts) {
    if !InNoSegment(p, t) then exists s :: FirstSegment(p, t, s) && f.tradeDate == Some(s.tradeDate)
    else if !InNoWindow(p, t) then exists w :: FirstWindow(p, t, w) && f.tradeDate == Some(w.tradeDate)
    else if NoneAhead(p, t) then f.tradeDate.None?
    else exists w :: FirstAhead(p, t, w) && f.tradeDate == Some(w.tradeDate)
  }

  lemma SegmentFacts(p: Projection, t: int)
    ensures var a := ActiveSegment(p.segments, t);
      (a.None? <==> InNoSegment(p, t)) && forall s :: FirstSegment(p, t, s) <==> a == Some(s)
  {
    ActiveIsFirst(p.segments, t);
    forall s | FirstSegment(p, t, s) ensures ActiveSegment(p.segments, t) == Some(s) {
      var i :| 0 <= i < |p.segments| && p.segments[i] == s && InSegment(s, t)
        && forall j :: 0 <= j < i ==> !InSegment(p.segments[j], t);
      assert s in p.segments;
    }
  }

  lemma MarketIsTold(p: Projection, t: int)
    requires Evaluate(p, t).Evaluated?
    ensures MarketOf(p, t, Evaluate(p, t).facts)
  {
    hide FirstSegment, InNoSegment;
    SegmentFacts(p, t);
  }

  lemma PhasesAreTold(p: Projection, t: int)
    requires Evaluate(p, t).Evaluated?
    ensures PhasesOf(p, t, Evaluate(p, t).facts)
  {
    var active := ActiveWindows(p.windows, t);
    var sorted := ByPhase(active);
    ActiveAreCounted(p.windows, t);
    ByPhaseSorts(active);
    var phases := PhaseNames(sorted);
    forall x ensures x in phases <==> exists w :: w in p.windows && InWindow(w, t) && w.phase == x {
      if x in phases {
        var i :| 0 <= i < |phases| && phases[i] == x;
        assert sorted[i] in sorted;
      }
      if w :| w in p.windows && InWindow(w, t) && w.phase == x {
        assert w in sorted;
        var i :| 0 <= i < |sorted| && sorted[i] == w;
        assert phases[i] == x;
      }
    }
  }

  lemma BoundsAreTold(p: Projection, t: int)
    requires Evaluate(p, t).Evaluated?
    ensures BoundsOf(p, t, Evaluate(p, t).facts)
  {
    hide FirstSegment, InNoSegment, ActiveSegment, ActiveWindows, ByPhase, Containing;
    var active := ActiveWindows(p.windows, t);
    SegmentFacts(p, t);
    ActiveAreCounted(p.windows, t);
    ByPhaseSorts(active);
    if |active| == 1 { assert ByPhase(active)[0] in ByPhase(active); }
  }

  lemma WindowFacts(p: Projection, t: int)
    ensures var active := ActiveWindows(p.windows, t);
      (active == [] <==> InNoWindow(p, t)) && (active != [] ==> FirstWindow(p, t, active[0]))
  {
    ActiveAreCounted(p.windows, t);
    var active := ActiveWindows(p.windows, t);
    if active != [] {
      assert active[0] in active;
      FirstOfActive(p.windows, t);
    }
  }

  lemma AheadFacts(p: Projection, t: int)
    ensures var ahead := FutureWindow(p.windows, t);
      && (ahead.None? <==> NoneAhead(p, t)) && (ahead.Some? ==> FirstAhead(p, t, ahead.value))
  {
    FutureIsFirst(p.windows, t);
  }

  lemma DateIsTold(p: Projection, t: int)
    requires Evaluate(p, t).Evaluated?
    ensures DateOf(p, t, Evaluate(p, t).facts)
  {
    hide FirstSegment, InNoSegment, ActiveSegment, ActiveWindows, FutureWindow, FirstWindow, InNoWindow, FirstAhead, NoneAhead;
    SegmentFacts(p, t);
    WindowFacts(p, t);
    AheadFacts(p, t);
    assert Evaluate(p, t).facts.tradeDate == TradeDate(p, t);
  }

  /** Every evaluated instant is described by what contains it. */
  lemma FactsAreTold(p: Projection, t: int)
    requires Evaluate(p, t).Evaluated?
    ensures var f := Evaluate(p, t).facts;
      MarketOf(p, t, f) && PhasesOf(p, t, f) && BoundsOf(p, t, f) && DateOf(p, t, f)
  {
    MarketIsTold(p, t);
    PhasesAreTold(p, t);
    BoundsAreTold(p, t);
    DateIsTold(p, t);
  }

  /** An instant is evaluated exactly when it is covered and something is known to have begun by then. */
  lemma EvaluatedIff(p: Projection, t: int)
    ensures Evaluate(p, t).Evaluated? <==>
      p.Covers(t) && (p.effectiveFrom <= t || exists b :: b in Boundaries(p) && b <= t)
    ensures Evaluate(p, t) == Uncovered <==> !p.Covers(t)
  {
    if p.effectiveFrom <= t { assert p.effectiveFrom in Admitted(p, t); }
    if b :| b in Boundaries(p) && b <= t { assert b in Admitted(p, t); }
    if Admitted(p, t) != {} { Inhabited(Admitted(p, t)); }
  }
}
