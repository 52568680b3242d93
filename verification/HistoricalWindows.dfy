/** Symbolic historical windows resolved to exact nanosecond bounds that never look ahead. */
module HistoricalWindows {
  import opened Prelude
  import opened SessionProjection

  const MINUTE := 60_000_000_000
  const SECOND := 1_000_000_000

  datatype WindowKind =
    | PREVIOUS_RTH | PREVIOUS_GTH_OVERNIGHT | CURRENT_OVERNIGHT | CURRENT_RTH | CURRENT_GTH | CURB | PREMARKET
    | POWER_HOUR | OVERNIGHT | SESSION_TO_DATE | OPENING_RANGE | NAMED_PHASE_SLICE | PREVIOUS_SESSIONS
    | RECENT_COMPLETED | ANCHORED_INTERVAL | SYNCHRONIZED_INTERVAL

  datatype Anchor = AtStart | AtEnd

  datatype ParameterValues = ParameterValues(
    phase: Option<Id>,
    durationMinutes: Option<int>,
    startOffsetMinutes: Option<int>,
    endOffsetMinutes: Option<int>,
    sessionCount: Option<int>,
    startNs: Option<int>,
    endNs: Option<int>,
    observationCount: Option<int>,
    anchor: Option<Anchor>,
    offsetSeconds: Option<int>,
    durationSeconds: Option<int>,
    fallback: Option<bool>)

  predicate AtLeast(least: int, value: Option<int>) { value.Some? ==> least <= value.value }

  /** Window parameters, with the rules their constructor enforces. */
  type Parameters = p: ParameterValues |
    && AtLeast(1, p.durationMinutes) && AtLeast(0, p.startOffsetMinutes) && AtLeast(1, p.endOffsetMinutes)
    && AtLeast(1, p.sessionCount) && AtLeast(0, p.startNs) && AtLeast(0, p.endNs)
    && AtLeast(1, p.observationCount) && AtLeast(1, p.durationSeconds)
    witness ParameterValues(None, None, None, None, None, None, None, None, None, None, None, None)

  datatype Field =
    | PHASE | DURATION_MINUTES | START_OFFSET | END_OFFSET | SESSION_COUNT | START_NS | END_NS
    | OBSERVATION_COUNT | ANCHOR | OFFSET_SECONDS | DURATION_SECONDS | FALLBACK

  function Supplied(p: Parameters): set<Field> {
    (if p.phase.Some? then {PHASE} else {})
    + (if p.durationMinutes.Some? then {DURATION_MINUTES} else {})
    + (if p.startOffsetMinutes.Some? then {START_OFFSET} else {})
    + (if p.endOffsetMinutes.Some? then {END_OFFSET} else {})
    + (if p.sessionCount.Some? then {SESSION_COUNT} else {})
    + (if p.startNs.Some? then {START_NS} else {})
    + (if p.endNs.Some? then {END_NS} else {})
    + (if p.observationCount.Some? then {OBSERVATION_COUNT} else {})
    + (if p.anchor.Some? then {ANCHOR} else {})
    + (if p.offsetSeconds.Some? then {OFFSET_SECONDS} else {})
    + (if p.durationSeconds.Some? then {DURATION_SECONDS} else {})
    + (if p.fallback.Some? then {FALLBACK} else {})
  }

  function Expected(kind: WindowKind, p: Parameters): set<Field> {
    match kind
    case RECENT_COMPLETED => if p.observationCount.Some? then {OBSERVATION_COUNT} else {DURATION_MINUTES}
    case OPENING_RANGE =>
      if p.durationSeconds.Some? then {PHASE, ANCHOR, OFFSET_SECONDS, DURATION_SECONDS} else {PHASE, DURATION_MINUTES}
    case POWER_HOUR =>
      if p.durationSeconds.Some? && p.fallback.Some?
      then {PHASE, ANCHOR, OFFSET_SECONDS, DURATION_SECONDS, FALLBACK}
      else if p.durationSeconds.Some? then {PHASE, ANCHOR, OFFSET_SECONDS, DURATION_SECONDS}
      else {PHASE, DURATION_MINUTES}
    case NAMED_PHASE_SLICE => {PHASE, START_OFFSET, END_OFFSET}
    case PREVIOUS_SESSIONS => {PHASE, SESSION_COUNT}
    case ANCHORED_INTERVAL => {START_NS, END_NS}
    case SYNCHRONIZED_INTERVAL => {START_NS, END_NS}
    case _ => {PHASE}
  }

  datatype Problem =
    | BadInterval | NegativeAsOf | MissingParameters | WrongParameters | NoCompletedInterval | CalendarRequired
    | CalendarFailed | NoTradeDate | NoPhase | NoCompletedPhase | TooFewSessions | NoStartedWindow
    | InvalidBounds | Closed | DegenerateBounds

  /** `end` is inclusive. A window that has not begun names the instant from which it can be resolved. */
  datatype Resolution =
    | Resolved(start: int, end: int)
    | Unavailable(retryAt: int)
    | Refused(problem: Problem)

  /** The last whole interval boundary up to `asOf`. */
  function CompletedBoundary(asOf: int, interval: int): int
    requires 0 < interval
  {
    asOf - asOf % interval
  }

  function FirstCompletedBoundary(start: int, interval: int): int
    requires 0 < interval
  {
    (start / interval + 1) * interval
  }

  /** Clip to the completed boundary; the constructor of the bounds also refuses a window of one instant. */
  function Bounds(start: int, endExclusive: int, completed: int): Resolution {
    var end := Min(endExclusive, completed);
    if start < 0 || end <= start then Refused(Closed)
    else if end - 1 <= start then Refused(DegenerateBounds)
    else Resolved(start, end - 1)
  }

  // Choosing a session

  function OfPhase(windows: seq<Window>, phase: Id): (r: seq<Window>)
    ensures forall w :: w in r <==> w in windows && w.phase == phase
  {
    if windows == [] then []
    else if windows[0].phase == phase then [windows[0]] + OfPhase(windows[1..], phase)
    else OfPhase(windows[1..], phase)
  }

  function OfDates(windows: seq<Window>, first: Id, last: Id): (r: seq<Window>)
    ensures forall w :: w in r <==> w in windows && first <= w.tradeDate <= last
  {
    if windows == [] then []
    else if first <= windows[0].tradeDate <= last then [windows[0]] + OfDates(windows[1..], first, last)
    else OfDates(windows[1..], first, last)
  }

  function CompletedBy(windows: seq<Window>, completed: int): (r: seq<Window>)
    ensures forall w :: w in r <==> w in windows && w.end <= completed
  {
    if windows == [] then []
    else if windows[0].end <= completed then [windows[0]] + CompletedBy(windows[1..], completed)
    else CompletedBy(windows[1..], completed)
  }

  predicate LaterEnd(a: Window, b: Window) {
    a.end > b.end || (a.end == b.end && a.start > b.start)
  }

  /** The window with the latest end, then the latest start; the first of equals. */
  function LatestEnd(windows: seq<Window>): (r: Window)
    requires windows != []
    ensures r in windows && forall w :: w in windows ==> !LaterEnd(w, r)
  {
    if |windows| == 1 then windows[0]
    else
      var rest := LatestEnd(windows[1..]);
      assert forall w :: w in windows ==> w == windows[0] || w in windows[1..];
      if LaterEnd(rest, windows[0]) then rest else windows[0]
  }

  predicate LaterStart(a: Window, b: Window) {
    a.start > b.start || (a.start == b.start && a.end > b.end)
  }

  function LatestStart(windows: seq<Window>): (r: Window)
    requires windows != []
    ensures r in windows && forall w :: w in windows ==> !LaterStart(w, r)
  {
    if |windows| == 1 then windows[0]
    else
      var rest := LatestStart(windows[1..]);
      assert forall w :: w in windows ==> w == windows[0] || w in windows[1..];
      if LaterStart(rest, windows[0]) then rest else windows[0]
  }

  function InsertByEnd(sorted: seq<Window>, w: Window): (r: seq<Window>)
    ensures |r| == |sorted| + 1 && forall x :: x in r <==> x in sorted || x == w
    ensures EndsAscend(sorted) ==> EndsAscend(r)
  {
    if sorted == [] then [w]
    else if w.end <= sorted[0].end then
      [w] + sorted
    else
      assert sorted == [sorted[0]] + sorted[1..];
      var rest := InsertByEnd(sorted[1..], w);
      assert forall i :: 0 <= i < |rest| ==> rest[i] in sorted[1..] || rest[i] == w;
      assert EndsAscend(sorted) ==> forall x :: x in sorted[1..] ==> sorted[0].end <= x.end;
      [sorted[0]] + rest
  }

  predicate EndsAscend(windows: seq<Window>) {
    forall i, j :: 0 <= i < j < |windows| ==> windows[i].end <= windows[j].end
  }

  /** Stable order by end. */
  function ByEnd(windows: seq<Window>): (r: seq<Window>)
    ensures |r| == |windows| && (forall x :: x in r <==> x in windows) && EndsAscend(r)
  {
    if windows == [] then []
    else
      assert windows == [windows[0]] + windows[1..];
      InsertByEnd(ByEnd(windows[1..]), windows[0])
  }

  /** Where a phase-relative window begins and ends in a session. */
  function Shape(kind: WindowKind, w: Window, p: Parameters): (int, int)
    requires Supplied(p) == Expected(kind, p)
  {
    if p.durationSeconds.Some? then
      var anchor := if p.anchor == Some(AtStart) then w.start else w.end;
      var offset := if p.offsetSeconds.Some? then p.offsetSeconds.value else 0;
      var start := anchor + offset * SECOND;
      (Max(w.start, start), Min(w.end, start + p.durationSeconds.value * SECOND))
    else if kind == OPENING_RANGE && p.durationMinutes.Some? then
      (w.start, Min(w.start + p.durationMinutes.value * MINUTE, w.end))
    else if kind == POWER_HOUR && p.durationMinutes.Some? then
      (Max(w.start, w.end - p.durationMinutes.value * MINUTE), w.end)
    else if kind == NAMED_PHASE_SLICE && p.startOffsetMinutes.Some? && p.endOffsetMinutes.Some? then
      (w.start + p.startOffsetMinutes.value * MINUTE, w.start + p.endOffsetMinutes.value * MINUTE)
    else (w.start, w.end)
  }

  function StartedBy(windows: seq<Window>, completed: int, kind: WindowKind, p: Parameters): (r: seq<Window>)
    requires Supplied(p) == Expected(kind, p)
    ensures forall w :: w in r <==> w in windows && Shape(kind, w, p).0 < completed
  {
    if windows == [] then []
    else if Shape(kind, windows[0], p).0 < completed then [windows[0]] + StartedBy(windows[1..], completed, kind, p)
    else StartedBy(windows[1..], completed, kind, p)
  }

  function LatestShaped(windows: seq<Window>, kind: WindowKind, p: Parameters): (r: Window)
    requires windows != [] && Supplied(p) == Expected(kind, p)
    ensures r in windows && forall w :: w in windows ==> Shape(kind, w, p).0 <= Shape(kind, r, p).0
  {
    if |windows| == 1 then windows[0]
    else
      var rest := LatestShaped(windows[1..], kind, p);
      assert forall w :: w in windows ==> w == windows[0] || w in windows[1..];
      if Shape(kind, rest, p).0 > Shape(kind, windows[0], p).0 then rest else windows[0]
  }

  /** The start and exclusive end of a calendar window, before it is clipped. */
  function Select(
      kind: WindowKind, p: Parameters, windows: seq<Window>, tradeDate: Id, completed: int): Attempted
    requires Supplied(p) == Expected(kind, p)
  {
    if kind == PREVIOUS_RTH || kind == PREVIOUS_GTH_OVERNIGHT then
      var done := CompletedBy(windows, completed);
      if done == [] then No(NoCompletedPhase) else Chosen(LatestEnd(done).start, LatestEnd(done).end)
    else if kind == PREVIOUS_SESSIONS && p.sessionCount.Some? then
      var done := ByEnd(CompletedBy(windows, completed));
      if |done| < p.sessionCount.value then No(TooFewSessions)
      else Chosen(done[|done| - p.sessionCount.value].start, done[|done| - 1].end)
    else if kind == POWER_HOUR && p.fallback == Some(true) then
      var started := StartedBy(windows, completed, kind, p);
      if started == [] then No(NoStartedWindow)
      else
        var (start, end) := Shape(kind, LatestShaped(started, kind, p), p);
        Chosen(start, end)
    else
      var today := OfDates(windows, tradeDate, tradeDate);
      if today == [] then No(NoPhase)
      else
        var (start, end) := Shape(kind, LatestStart(today), p);
        Chosen(start, end)
  }

  datatype Attempted = Chosen(start: int, end: int) | No(problem: Problem)

  /** The windows of the phase near `asOf`: a month back and a day ahead of its trade date. */
  function PhaseWindows(calendar: Projection, asOf: int, phase: Id): Resolvable {
    match Evaluate(calendar, asOf)
    case Evaluated(facts) =>
      if facts.tradeDate.None? then Unresolvable(NoTradeDate)
      else
        var date := facts.tradeDate.value;
        Phases(date, OfPhase(OfDates(calendar.windows, date - 31, date + 1), phase))
    case _ => Unresolvable(CalendarFailed)
  }

  datatype Resolvable = Phases(tradeDate: Id, windows: seq<Window>) | Unresolvable(problem: Problem)

  function Resolve(
      kind: WindowKind, calendar: Option<Projection>, interval: int, asOf: int, parameters: map<WindowKind, Parameters>):
    Resolution
  {
    if interval <= 0 then Refused(BadInterval)
    else if asOf < 0 then Refused(NegativeAsOf)
    else if kind !in parameters then Refused(MissingParameters)
    else if Supplied(parameters[kind]) != Expected(kind, parameters[kind]) then Refused(WrongParameters)
    else
      var p := parameters[kind];
      var completed := CompletedBoundary(asOf, interval);
      if completed <= 0 then Refused(NoCompletedInterval)
      else if kind == RECENT_COMPLETED then Bounds(completed - RecentDuration(p, interval), completed, completed)
      else if calendar.None? then Refused(CalendarRequired)
      else if p.startNs.Some? && p.endNs.Some? then Bounds(p.startNs.value, p.endNs.value, completed)
      else if p.phase.None? then Refused(WrongParameters)
      else match PhaseWindows(calendar.value, asOf, p.phase.value)
        case Unresolvable(problem) => Refused(problem)
        case Phases(tradeDate, windows) =>
          if windows == [] then Refused(NoPhase)
          else match Select(kind, p, windows, tradeDate, completed)
            case No(problem) => Refused(problem)
            case Chosen(start, end) =>
              if end <= start then Refused(InvalidBounds)
              else if start >= completed then Unavailable(FirstCompletedBoundary(start, interval))
              else Bounds(start, end, completed)
  }

  function RecentDuration(p: Parameters, interval: int): int {
    if p.observationCount.Some? then p.observationCount.value * interval
    else if p.durationMinutes.Some? then p.durationMinutes.value * MINUTE
    else 0
  }

  // No look-ahead

  lemma BoundaryIsTheLastOne(asOf: int, interval: int)
    requires 0 < interval && 0 <= asOf
    ensures var c := CompletedBoundary(asOf, interval);
      0 <= c <= asOf < c + interval && c % interval == 0
  {
    var k := asOf / interval;
    assert asOf - asOf % interval == k * interval;
    MultipleHasNoRemainder(k, interval);
  }

  /** Every resolved window is non-empty, starts at or after the epoch, and ends before the last interval
      boundary that had been completed when it was resolved. */
  lemma ResolvedWindowsDoNotLookAhead(
      kind: WindowKind, calendar: Option<Projection>, interval: int, asOf: int, parameters: map<WindowKind, Parameters>)
    requires Resolve(kind, calendar, interval, asOf, parameters).Resolved?
    ensures var r := Resolve(kind, calendar, interval, asOf, parameters);
      && 0 < interval && 0 <= r.start < r.end < CompletedBoundary(asOf, interval) <= asOf
      && CompletedBoundary(asOf, interval) % interval == 0 && asOf < CompletedBoundary(asOf, interval) + interval
  {
    hide CompletedBoundary, Select, PhaseWindows, Supplied, Expected, RecentDuration;
    BoundaryIsTheLastOne(asOf, interval);
  }

  /** Asking for the `n` most recent observations gives exactly the last `n` whole intervals, and is
      refused exactly when that many have not passed since the epoch (or they amount to one instant). */
  lemma RecentSpansItsIntervals(
      calendar: Option<Projection>, interval: int, asOf: int, parameters: map<WindowKind, Parameters>, n: int)
    requires 0 < interval && 0 <= asOf && RECENT_COMPLETED in parameters
    requires Supplied(parameters[RECENT_COMPLETED]) == {OBSERVATION_COUNT}
    requires parameters[RECENT_COMPLETED].observationCount == Some(n)
    ensures var r := Resolve(RECENT_COMPLETED, calendar, interval, asOf, parameters);
      var completed := CompletedBoundary(asOf, interval);
      && (r.Resolved? <==> n * interval <= completed && n * interval != 1)
      && (r.Resolved? ==> r.end + 1 == completed && r.end + 1 - r.start == n * interval && r.start % interval == 0)
  {
    BoundaryIsTheLastOne(asOf, interval);
    var completed := CompletedBoundary(asOf, interval);
    var k := asOf / interval;
    assert completed == k * interval;
    assert completed - n * interval == (k - n) * interval;
    MultipleHasNoRemainder(k - n, interval);
    assert n * interval >= interval by { assert n >= 1; }
  }

  // Retry times

  lemma BoundariesAreMultiples(k: int, a: int, interval: int)
    requires 0 < interval
    ensures k * interval <= CompletedBoundary(a, interval) <==> k * interval <= a
  {
    var q := a / interval;
    assert CompletedBoundary(a, interval) == q * interval;
    MultiplesAscend(q + 1, k, interval);
    MultiplesAscend(k, q, interval);
  }

  /** The retry time of a window that has not begun is exact: by the clock, the window's start lies
      before the completed boundary from that instant on and not earlier. */
  lemma RetryTimeIsExact(start: int, interval: int, asOf: int)
    requires 0 < interval
    ensures start < CompletedBoundary(asOf, interval) <==> FirstCompletedBoundary(start, interval) <= asOf
  {
    var k := start / interval + 1;
    assert k * interval > start && (k - 1) * interval <= start;
    BoundariesAreMultiples(k, asOf, interval);
    var q := asOf / interval;
    var completed := CompletedBoundary(asOf, interval);
    assert completed == q * interval;
    MultiplesAscend(q, k - 1, interval);
    MultiplesAscend(k, q, interval);
  }

  /** An unavailable window is one whose start is still ahead, and the retry time it names lies ahead
      of the clock. */
  lemma UnavailableMeansAhead(
      kind: WindowKind, calendar: Option<Projection>, interval: int, asOf: int, parameters: map<WindowKind, Parameters>)
    requires Resolve(kind, calendar, interval, asOf, parameters).Unavailable?
    ensures exists start ::
      && CompletedBoundary(asOf, interval) <= start
      && Resolve(kind, calendar, interval, asOf, parameters).retryAt == FirstCompletedBoundary(start, interval)
    ensures asOf < Resolve(kind, calendar, interval, asOf, parameters).retryAt
  {
    hide CompletedBoundary, PhaseWindows, Select, FirstCompletedBoundary, Supplied, Expected, RecentDuration;
    var p := parameters[kind];
    var completed := CompletedBoundary(asOf, interval);
    var phases := PhaseWindows(calendar.value, asOf, p.phase.value);
    var chosen := Select(kind, p, phases.windows, phases.tradeDate, completed);
    RetryTimeIsExact(chosen.start, interval, asOf);
  }

  // Previous sessions

  lemma PhaseAlone(kind: WindowKind, p: Parameters)
    requires (kind == PREVIOUS_RTH || kind == PREVIOUS_GTH_OVERNIGHT) && Supplied(p) == Expected(kind, p)
    ensures p.phase.Some? && p.startNs.None?
  {
    assert START_NS !in Supplied(p) && PHASE in Supplied(p);
  }

  /** The previous-session windows are whole sessions of the phase that had ended, and no later one had. */
  lemma PreviousIsTheLastCompleted(
      kind: WindowKind, calendar: Projection, interval: int, asOf: int, parameters: map<WindowKind, Parameters>)
    requires kind == PREVIOUS_RTH || kind == PREVIOUS_GTH_OVERNIGHT
    requires Resolve(kind, Some(calendar), interval, asOf, parameters).Resolved?
    ensures parameters[kind].phase.Some?
    ensures var r := Resolve(kind, Some(calendar), interval, asOf, parameters);
      var phases := PhaseWindows(calendar, asOf, parameters[kind].phase.value);
      && phases.Phases?
      && (exists w :: w in phases.windows && r.start == w.start && r.end + 1 == w.end)
      && forall w :: w in phases.windows && w.end <= CompletedBoundary(asOf, interval) ==> w.end <= r.end + 1
  {
    hide CompletedBoundary, PhaseWindows, Supplied, Expected, RecentDuration;
    var p := parameters[kind];
    PhaseAlone(kind, p);
    var completed := CompletedBoundary(asOf, interval);
    var phases := PhaseWindows(calendar, asOf, p.phase.value);
    var done := CompletedBy(phases.windows, completed);
    var latest := LatestEnd(done);
    assert latest in phases.windows && latest.end <= completed;
    assert Select(kind, p, phases.windows, phases.tradeDate, completed) == Chosen(latest.start, latest.end);
  }
}
