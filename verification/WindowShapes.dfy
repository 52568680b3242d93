/** Which instants a resolved window covers, told by the session it belongs to. */
module WindowShapes {
  import opened Prelude
  import opened SessionProjection
  import opened ProjectionFacts
  import opened HistoricalWindows

  /** The instant lies in the resolved window, whose end is inclusive. */
  predicate InResolved(r: Resolution, t: int)
    requires r.Resolved?
  {
    r.start <= t <= r.end
  }

  predicate InSpan(start: int, endExclusive: int, t: int) { start <= t < endExclusive }

  /** The stretch of `seconds` that begins `offset` seconds after the start or the end of the session. */
  predicate InStretch(p: Parameters, w: Window, t: int)
    requires p.durationSeconds.Some?
  {
    var anchor := if p.anchor == Some(AtStart) then w.start else w.end;
    var from := anchor + (if p.offsetSeconds.Some? then p.offsetSeconds.value else 0) * SECOND;
    from <= t < from + p.durationSeconds.value * SECOND
  }

  /** What a window of this kind is of its session. A named slice is not confined to its session. */
  predicate InShape(kind: WindowKind, p: Parameters, w: Window, t: int)
    requires Supplied(p) == Expected(kind, p)
  {
    match kind
    case OPENING_RANGE =>
      if p.durationSeconds.Some? then InWindow(w, t) && InStretch(p, w, t)
      else InWindow(w, t) && p.durationMinutes.Some? && t < w.start + p.durationMinutes.value * MINUTE
    case POWER_HOUR =>
      if p.durationSeconds.Some? then InWindow(w, t) && InStretch(p, w, t)
      else InWindow(w, t) && p.durationMinutes.Some? && w.end - p.durationMinutes.value * MINUTE <= t
    case NAMED_PHASE_SLICE =>
      && p.startOffsetMinutes.Some? && p.endOffsetMinutes.Some?
      && w.start + p.startOffsetMinutes.value * MINUTE <= t < w.start + p.endOffsetMinutes.value * MINUTE
    case _ => InWindow(w, t)
  }

  lemma DurationsSupplied(p: Parameters)
    ensures DURATION_MINUTES in Supplied(p) <==> p.durationMinutes.Some?
    ensures DURATION_SECONDS in Supplied(p) <==> p.durationSeconds.Some?
  {
  }

  lemma OffsetsSupplied(p: Parameters)
    ensures START_OFFSET in Supplied(p) <==> p.startOffsetMinutes.Some?
    ensures END_OFFSET in Supplied(p) <==> p.endOffsetMinutes.Some?
  {
  }

  lemma BoundsSupplied(p: Parameters)
    ensures START_NS in Supplied(p) <==> p.startNs.Some?
    ensures END_NS in Supplied(p) <==> p.endNs.Some?
  {
  }

  lemma PhaseSupplied(p: Parameters)
    ensures PHASE in Supplied(p) <==> p.phase.Some?
    ensures SESSION_COUNT in Supplied(p) <==> p.sessionCount.Some?
  {
  }

  lemma ShapeCovers(kind: WindowKind, w: Window, p: Parameters, t: int)
    requires Supplied(p) == Expected(kind, p)
    ensures InSpan(Shape(kind, w, p).0, Shape(kind, w, p).1, t) <==> InShape(kind, p, w, t)
  {
    DurationsSupplied(p);
    OffsetsSupplied(p);
    hide Supplied;
  }

  // Resolved windows

  /** The resolved window covers what the shape of session `w` covers, up to the last completed boundary. */
  ghost predicate CoversShape(r: Resolution, kind: WindowKind, p: Parameters, w: Window, completed: int)
    requires Supplied(p) == Expected(kind, p)
  {
    r.Resolved? && forall t :: InResolved(r, t) <==> InShape(kind, p, w, t) && t < completed
  }

  /** Of the sessions of the trade date, the one that starts last; of those, the one that ends last. */
  ghost predicate IsCurrent(windows: seq<Window>, tradeDate: Id, w: Window) {
    && w in windows && w.tradeDate == tradeDate
    && forall v :: v in windows && v.tradeDate == tradeDate ==>
         v.start < w.start || (v.start == w.start && v.end <= w.end)
  }

  /** The sessions of the phase around `asOf`: of its trade date, a month before it and a day after. */
  ghost predicate Around(calendar: Projection, asOf: int, phase: Id, tradeDate: Id, windows: seq<Window>) {
    && Evaluate(calendar, asOf).Evaluated? && Evaluate(calendar, asOf).facts.tradeDate == Some(tradeDate)
    && forall w :: w in windows <==>
         w in calendar.windows && w.phase == phase && tradeDate - 31 <= w.tradeDate <= tradeDate + 1
  }

  lemma PhasesAreAround(calendar: Projection, asOf: int, phase: Id)
    requires PhaseWindows(calendar, asOf, phase).Phases?
    ensures var phases := PhaseWindows(calendar, asOf, phase);
      Around(calendar, asOf, phase, phases.tradeDate, phases.windows)
  {
  }

  lemma ClippedCovers(start: int, endExclusive: int, completed: int)
    requires Bounds(start, endExclusive, completed).Resolved?
    ensures var r := Bounds(start, endExclusive, completed);
      forall t :: InResolved(r, t) <==> InSpan(start, endExclusive, t) && t < completed
  {
  }

  /** A kind that is shaped out of the current session. */
  predicate OfCurrentSession(kind: WindowKind, p: Parameters) {
    && kind !in {PREVIOUS_RTH, PREVIOUS_GTH_OVERNIGHT, PREVIOUS_SESSIONS, RECENT_COMPLETED, ANCHORED_INTERVAL,
                 SYNCHRONIZED_INTERVAL}
    && !(kind == POWER_HOUR && p.fallback == Some(true))
  }

  lemma ShapedHasPhase(kind: WindowKind, p: Parameters)
    requires Supplied(p) == Expected(kind, p)
    requires kind !in {RECENT_COMPLETED, ANCHORED_INTERVAL, SYNCHRONIZED_INTERVAL}
    ensures p.phase.Some? && p.startNs.None?
  {
    BoundsSupplied(p);
    PhaseSupplied(p);
    hide Supplied;
  }

  /** What the calendar selects, once it resolves. */
  lemma ResolvedSelects(
      kind: WindowKind, calendar: Projection, interval: int, asOf: int, parameters: map<WindowKind, Parameters>)
    requires Resolve(kind, Some(calendar), interval, asOf, parameters).Resolved?
    requires kind !in {RECENT_COMPLETED, ANCHORED_INTERVAL, SYNCHRONIZED_INTERVAL}
    ensures 0 < interval && kind in parameters && Supplied(parameters[kind]) == Expected(kind, parameters[kind])
    ensures var p := parameters[kind]; var completed := CompletedBoundary(asOf, interval);
      && p.phase.Some? && PhaseWindows(calendar, asOf, p.phase.value).Phases?
      && var phases := PhaseWindows(calendar, asOf, p.phase.value);
         var chosen := Select(kind, p, phases.windows, phases.tradeDate, completed);
         && chosen.Chosen?
         && Resolve(kind, Some(calendar), interval, asOf, parameters) == Bounds(chosen.start, chosen.end, completed)
  {
    hide Supplied, Expected, Select, PhaseWindows, CompletedBoundary, Bounds, RecentDuration;
    ShapedHasPhase(kind, parameters[kind]);
  }

  lemma CurrentIsSelected(kind: WindowKind, p: Parameters, windows: seq<Window>, tradeDate: Id, completed: int)
    requires Supplied(p) == Expected(kind, p) && OfCurrentSession(kind, p)
    requires Select(kind, p, windows, tradeDate, completed).Chosen?
    ensures exists w :: (
      IsCurrent(windows, tradeDate, w)
      && Select(kind, p, windows, tradeDate, completed) == Chosen(Shape(kind, w, p).0, Shape(kind, w, p).1))
  {
    hide Supplied, Expected, Shape;
    var today := OfDates(windows, tradeDate, tradeDate);
    var w := LatestStart(today);
    assert IsCurrent(windows, tradeDate, w);
  }

  /** Every kind that is shaped out of a session covers just that shape of the current one. */
  lemma CurrentWindowsCoverTheirShape(
      kind: WindowKind, calendar: Projection, interval: int, asOf: int, parameters: map<WindowKind, Parameters>)
    requires Resolve(kind, Some(calendar), interval, asOf, parameters).Resolved?
    requires kind in parameters && OfCurrentSession(kind, parameters[kind])
    ensures 0 < interval && Supplied(parameters[kind]) == Expected(kind, parameters[kind])
    ensures parameters[kind].phase.Some?
    ensures exists tradeDate, windows, w ::
      && Around(calendar, asOf, parameters[kind].phase.value, tradeDate, windows) && IsCurrent(windows, tradeDate, w)
      && CoversShape(Resolve(kind, Some(calendar), interval, asOf, parameters), kind, parameters[kind], w,
                     CompletedBoundary(asOf, interval))
  {
    ResolvedSelects(kind, calendar, interval, asOf, parameters);
    hide Supplied, Expected, Select, PhaseWindows, CompletedBoundary, Resolve, Around, IsCurrent, InShape, Shape;
    var p, completed := parameters[kind], CompletedBoundary(asOf, interval);
    var phases := PhaseWindows(calendar, asOf, p.phase.value);
    PhasesAreAround(calendar, asOf, p.phase.value);
    CurrentIsSelected(kind, p, phases.windows, phases.tradeDate, completed);
    var w :| IsCurrent(phases.windows, phases.tradeDate, w)
      && Select(kind, p, phases.windows, phases.tradeDate, completed) == Chosen(Shape(kind, w, p).0, Shape(kind, w, p).1);
    ShapeIsCovered(kind, p, w, completed);
  }

  lemma ShapeIsCovered(kind: WindowKind, p: Parameters, w: Window, completed: int)
    requires Supplied(p) == Expected(kind, p)
    requires Bounds(Shape(kind, w, p).0, Shape(kind, w, p).1, completed).Resolved?
    ensures CoversShape(Bounds(Shape(kind, w, p).0, Shape(kind, w, p).1, completed), kind, p, w, completed)
  {
    hide Supplied, Expected, Shape, InShape, Bounds, InSpan;
    ClippedCovers(Shape(kind, w, p).0, Shape(kind, w, p).1, completed);
    forall t ensures InSpan(Shape(kind, w, p).0, Shape(kind, w, p).1, t) <==> InShape(kind, p, w, t) {
      ShapeCovers(kind, w, p, t);
    }
  }

  lemma CurrentIsUnique(windows: seq<Window>, tradeDate: Id, v: Window, w: Window)
    requires IsCurrent(windows, tradeDate, v) && IsCurrent(windows, tradeDate, w)
    ensures v.start == w.start && v.end == w.end
  {
  }

  lemma CurrentIsChosen(
      kind: WindowKind, p: Parameters, windows: seq<Window>, tradeDate: Id, completed: int, w: Window)
    requires Supplied(p) == Expected(kind, p) && OfCurrentSession(kind, p) && IsCurrent(windows, tradeDate, w)
    ensures Select(kind, p, windows, tradeDate, completed) == Chosen(Shape(kind, w, p).0, Shape(kind, w, p).1)
  {
    hide Supplied, Expected;
    var today := OfDates(windows, tradeDate, tradeDate);
    assert w in today;
    assert IsCurrent(windows, tradeDate, LatestStart(today));
    CurrentIsUnique(windows, tradeDate, LatestStart(today), w);
  }

  /** How a span is resolved once it is chosen, told by its instants. */
  lemma SpanOutcome(start: int, endExclusive: int, completed: int, interval: int)
    requires 0 < interval
    ensures var r := if endExclusive <= start then Refused(InvalidBounds)
                     else if start >= completed then Unavailable(FirstCompletedBoundary(start, interval))
                     else Bounds(start, endExclusive, completed);
      && (r.Unavailable? <==> InSpan(start, endExclusive, start)
                              && forall t :: InSpan(start, endExclusive, t) ==> completed <= t)
      && (r.Unavailable? ==> r.retryAt == FirstCompletedBoundary(start, interval))
      && (r.Resolved? <==> (exists t, u :: InSpan(start, endExclusive, t) && InSpan(start, endExclusive, u) && t < u < completed)
                           && forall t :: InSpan(start, endExclusive, t) ==> 0 <= t)
  {
    hide FirstCompletedBoundary;
    if start < endExclusive { assert InSpan(start, endExclusive, start); }
    if start + 1 < endExclusive { assert InSpan(start, endExclusive, start + 1); }
  }

  /** The outcome for a kind that is shaped out of the current session: unavailable exactly when all of the
      shape lies at or after the completed boundary, until its first instant is completed; resolved exactly
      when two of its instants lie before the boundary and none before the epoch; refused otherwise. */
  lemma CurrentOutcome(
      kind: WindowKind, calendar: Projection, interval: int, asOf: int, parameters: map<WindowKind, Parameters>, w: Window)
    requires 0 < interval && 0 <= asOf && 0 < CompletedBoundary(asOf, interval) && kind in parameters
    requires Supplied(parameters[kind]) == Expected(kind, parameters[kind]) && OfCurrentSession(kind, parameters[kind])
    requires parameters[kind].phase.Some?
    requires var phases := PhaseWindows(calendar, asOf, parameters[kind].phase.value);
      phases.Phases? && IsCurrent(phases.windows, phases.tradeDate, w)
    ensures var r, p := Resolve(kind, Some(calendar), interval, asOf, parameters), parameters[kind];
      var completed := CompletedBoundary(asOf, interval);
      && (r.Unavailable? <==>
            (exists t :: InShape(kind, p, w, t)) && forall t :: InShape(kind, p, w, t) ==> completed <= t)
      && (r.Unavailable? ==> exists t ::
            && InShape(kind, p, w, t) && (forall u :: InShape(kind, p, w, u) ==> t <= u)
            && r.retryAt == FirstCompletedBoundary(t, interval))
      && (r.Resolved? <==>
            (exists t, u :: InShape(kind, p, w, t) && InShape(kind, p, w, u) && t < u < completed)
            && forall t :: InShape(kind, p, w, t) ==> 0 <= t)
  {
    var p, completed := parameters[kind], CompletedBoundary(asOf, interval);
    var phases := PhaseWindows(calendar, asOf, p.phase.value);
    ShapedHasPhase(kind, p);
    CurrentIsChosen(kind, p, phases.windows, phases.tradeDate, completed, w);
    var (start, end) := Shape(kind, w, p);
    ChosenIsResolved(kind, calendar, interval, asOf, parameters, start, end);
    SpanOutcome(start, end, completed, interval);
    forall t ensures InSpan(start, end, t) <==> InShape(kind, p, w, t) { ShapeCovers(kind, w, p, t); }
    hide Supplied, Expected, Select, PhaseWindows, CompletedBoundary, Resolve, IsCurrent, InShape, Shape, Bounds,
      FirstCompletedBoundary, OfCurrentSession;
    if start < end {
      assert InSpan(start, end, start);
      assert forall u :: InSpan(start, end, u) ==> start <= u;
    }
  }

  lemma ChosenIsResolved(
      kind: WindowKind, calendar: Projection, interval: int, asOf: int, parameters: map<WindowKind, Parameters>,
      start: int, end: int)
    requires 0 < interval && 0 <= asOf && 0 < CompletedBoundary(asOf, interval) && kind in parameters
    requires Supplied(parameters[kind]) == Expected(kind, parameters[kind]) && OfCurrentSession(kind, parameters[kind])
    requires parameters[kind].phase.Some? && parameters[kind].startNs.None?
    requires var phases := PhaseWindows(calendar, asOf, parameters[kind].phase.value);
      && phases.Phases? && phases.windows != []
      && Select(kind, parameters[kind], phases.windows, phases.tradeDate, CompletedBoundary(asOf, interval))
         == Chosen(start, end)
    ensures var completed := CompletedBoundary(asOf, interval);
      Resolve(kind, Some(calendar), interval, asOf, parameters)
      == if end <= start then Refused(InvalidBounds)
         else if start >= completed then Unavailable(FirstCompletedBoundary(start, interval))
         else Bounds(start, end, completed)
  {
    hide Supplied, Expected, Select, PhaseWindows, CompletedBoundary, Bounds, FirstCompletedBoundary, RecentDuration;
  }

  /** The power hour that may fall back: of the sessions whose power hour had begun, the one whose power
      hour began last. */
  ghost predicate HasBegun(kind: WindowKind, p: Parameters, w: Window, completed: int)
    requires Supplied(p) == Expected(kind, p)
  {
    Shape(kind, w, p).0 < completed
  }

  lemma FallenBackCovers(
      calendar: Projection, interval: int, asOf: int, parameters: map<WindowKind, Parameters>)
    requires Resolve(POWER_HOUR, Some(calendar), interval, asOf, parameters).Resolved?
    requires POWER_HOUR in parameters && parameters[POWER_HOUR].fallback == Some(true)
    ensures 0 < interval && Supplied(parameters[POWER_HOUR]) == Expected(POWER_HOUR, parameters[POWER_HOUR])
    ensures parameters[POWER_HOUR].phase.Some?
    ensures var p, completed := parameters[POWER_HOUR], CompletedBoundary(asOf, interval);
      exists tradeDate, windows, w ::
        && Around(calendar, asOf, p.phase.value, tradeDate, windows)
        && w in windows && HasBegun(POWER_HOUR, p, w, completed)
        && (forall v :: v in windows && HasBegun(POWER_HOUR, p, v, completed) ==>
              Shape(POWER_HOUR, v, p).0 <= Shape(POWER_HOUR, w, p).0)
        && CoversShape(Resolve(POWER_HOUR, Some(calendar), interval, asOf, parameters), POWER_HOUR, p, w, completed)
  {
    ResolvedSelects(POWER_HOUR, calendar, interval, asOf, parameters);
    hide Supplied, Expected, PhaseWindows, CompletedBoundary, Resolve, Around, InShape, Shape, Bounds, CoversShape;
    var p, completed := parameters[POWER_HOUR], CompletedBoundary(asOf, interval);
    var phases := PhaseWindows(calendar, asOf, p.phase.value);
    PhasesAreAround(calendar, asOf, p.phase.value);
    var w := LatestShaped(StartedBy(phases.windows, completed, POWER_HOUR, p), POWER_HOUR, p);
    ShapeIsCovered(POWER_HOUR, p, w, completed);
  }

  /** An anchored or synchronized window covers exactly the given span, up to the completed boundary. */
  lemma AnchoredCovers(
      kind: WindowKind, calendar: Projection, interval: int, asOf: int, parameters: map<WindowKind, Parameters>)
    requires kind == ANCHORED_INTERVAL || kind == SYNCHRONIZED_INTERVAL
    requires Resolve(kind, Some(calendar), interval, asOf, parameters).Resolved?
    ensures 0 < interval && kind in parameters && parameters[kind].startNs.Some? && parameters[kind].endNs.Some?
    ensures var r, p := Resolve(kind, Some(calendar), interval, asOf, parameters), parameters[kind];
      forall t :: InResolved(r, t) <==>
        InSpan(p.startNs.value, p.endNs.value, t) && t < CompletedBoundary(asOf, interval)
  {
    hide Supplied, CompletedBoundary, Select, PhaseWindows, Bounds;
    var p := parameters[kind];
    BoundsSupplied(p);
    ClippedCovers(p.startNs.value, p.endNs.value, CompletedBoundary(asOf, interval));
  }

  /** A recent window covers exactly the last observations, or the last minutes, up to the completed
      boundary, whatever the calendar. */
  lemma RecentCovers(
      calendar: Option<Projection>, interval: int, asOf: int, parameters: map<WindowKind, Parameters>)
    requires Resolve(RECENT_COMPLETED, calendar, interval, asOf, parameters).Resolved?
    ensures 0 < interval && RECENT_COMPLETED in parameters
    ensures var p := parameters[RECENT_COMPLETED]; p.observationCount.Some? || p.durationMinutes.Some?
    ensures var r, p := Resolve(RECENT_COMPLETED, calendar, interval, asOf, parameters), parameters[RECENT_COMPLETED];
      var completed := CompletedBoundary(asOf, interval);
      var span := if p.observationCount.Some? then p.observationCount.value * interval
                  else p.durationMinutes.value * MINUTE;
      forall t :: InResolved(r, t) <==> InSpan(completed - span, completed, t)
  {
    var p := parameters[RECENT_COMPLETED];
    DurationsSupplied(p);
    hide Supplied, CompletedBoundary, Bounds;
    var completed := CompletedBoundary(asOf, interval);
    ClippedCovers(completed - RecentDuration(p, interval), completed, completed);
  }

  /** The last `n` completed sessions, in order of their ends. */
  ghost predicate AreLast(windows: seq<Window>, completed: int, n: int, done: seq<Window>) {
    && 1 <= n <= |done| == |CompletedBy(windows, completed)|
    && (forall w :: w in done <==> w in windows && w.end <= completed)
    && (forall i, j :: 0 <= i < j < |done| ==> done[i].end <= done[j].end)
  }

  lemma LastAreSelected(p: Parameters, windows: seq<Window>, tradeDate: Id, completed: int)
    requires Supplied(p) == Expected(PREVIOUS_SESSIONS, p) && p.sessionCount.Some?
    requires Select(PREVIOUS_SESSIONS, p, windows, tradeDate, completed).Chosen?
    ensures var done := ByEnd(CompletedBy(windows, completed));
      && AreLast(windows, completed, p.sessionCount.value, done) && done[|done| - 1].end <= completed
      && Select(PREVIOUS_SESSIONS, p, windows, tradeDate, completed)
         == Chosen(done[|done| - p.sessionCount.value].start, done[|done| - 1].end)
  {
    hide Supplied, Expected, ByEnd, CompletedBy, OfDates, StartedBy, LatestShaped, LatestStart, LatestEnd, Shape;
    var done := ByEnd(CompletedBy(windows, completed));
    assert done[|done| - 1] in done;
  }

  lemma CountIsSupplied(p: Parameters)
    requires Supplied(p) == Expected(PREVIOUS_SESSIONS, p)
    ensures p.sessionCount.Some?
  {
    PhaseSupplied(p);
    hide Supplied;
  }

  /** Previous sessions run from the start of the first of the last `n` completed sessions to the end of
      the last of them. */
  lemma PreviousSessionsRunThrough(
      calendar: Projection, interval: int, asOf: int, parameters: map<WindowKind, Parameters>)
    requires Resolve(PREVIOUS_SESSIONS, Some(calendar), interval, asOf, parameters).Resolved?
    ensures 0 < interval && PREVIOUS_SESSIONS in parameters && parameters[PREVIOUS_SESSIONS].phase.Some?
    ensures parameters[PREVIOUS_SESSIONS].sessionCount.Some?
    ensures var r := Resolve(PREVIOUS_SESSIONS, Some(calendar), interval, asOf, parameters);
      var p := parameters[PREVIOUS_SESSIONS];
      exists tradeDate, windows, done: seq<Window> ::
        && Around(calendar, asOf, p.phase.value, tradeDate, windows)
        && AreLast(windows, CompletedBoundary(asOf, interval), p.sessionCount.value, done)
        && r.start == done[|done| - p.sessionCount.value].start && r.end + 1 == done[|done| - 1].end
  {
    hide Supplied, Expected, PhaseWindows, CompletedBoundary, Resolve, Around, Select, AreLast, ByEnd;
    ResolvedSelects(PREVIOUS_SESSIONS, calendar, interval, asOf, parameters);
    var p := parameters[PREVIOUS_SESSIONS];
    CountIsSupplied(p);
    var phases := PhaseWindows(calendar, asOf, p.phase.value);
    PhasesAreAround(calendar, asOf, p.phase.value);
    LastAreSelected(p, phases.windows, phases.tradeDate, CompletedBoundary(asOf, interval));
  }
}
