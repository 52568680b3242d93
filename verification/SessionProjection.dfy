/** The session timeline that a calendar projection describes, for an arbitrary projection. */
module SessionProjection {
  import opened Prelude
  import opened CalendarMessages
  import P = CalendarProducer

  /** An exchange segment, OPEN or BREAK. Trade dates are day numbers. */
  datatype Segment = Segment(tradeDate: Id, open: bool, start: int, end: int)

  /** A configured product phase of one trade date. */
  datatype Window = Window(tradeDate: Id, phase: Id, start: int, end: int)

  /** A definition's schedule over a bounded coverage, effective from some instant on. */
  datatype Projection = Projection(
    scheduleVersion: Id, effectiveFrom: int, coverageStart: int, coverageEnd: int,
    segments: seq<Segment>, windows: seq<Window>)
  {
    predicate Covers(t: int) { coverageStart <= t < coverageEnd }
  }

  function ActiveSegment(segments: seq<Segment>, t: int): Option<Segment> {
    if segments == [] then None
    else if segments[0].start <= t < segments[0].end then Some(segments[0])
    else ActiveSegment(segments[1..], t)
  }

  /** The windows that hold at `t`, in projection order. */
  function ActiveWindows(windows: seq<Window>, t: int): seq<Window> {
    if windows == [] then []
    else if windows[0].start <= t < windows[0].end then [windows[0]] + ActiveWindows(windows[1..], t)
    else ActiveWindows(windows[1..], t)
  }

  function FutureWindow(windows: seq<Window>, t: int): Option<Window> {
    if windows == [] then None
    else if windows[0].start > t then Some(windows[0])
    else FutureWindow(windows[1..], t)
  }

  function InsertByPhase(sorted: seq<Window>, w: Window): seq<Window> {
    if sorted == [] || w.phase <= sorted[0].phase then [w] + sorted
    else [sorted[0]] + InsertByPhase(sorted[1..], w)
  }

  /** Stable order by phase name. */
  function ByPhase(windows: seq<Window>): (r: seq<Window>) {
    if windows == [] then [] else InsertByPhase(ByPhase(windows[1..]), windows[0])
  }

  function PhaseNames(windows: seq<Window>): seq<Id> {
    seq(|windows|, i requires 0 <= i < |windows| => windows[i].phase)
  }

  /** Every start and end the projection mentions. */
  function Boundaries(p: Projection): set<int> {
    (set s | s in p.segments :: s.start) + (set s | s in p.segments :: s.end)
    + (set w | w in p.windows :: w.start) + (set w | w in p.windows :: w.end)
  }

  function Later(p: Projection, t: int): set<int> {
    set b | b in Boundaries(p) && b > t
  }

  /** The instants up to `t` at which the state may have become what it is. */
  function Admitted(p: Projection, t: int): set<int> {
    (set b | b in Boundaries(p) && b <= t) + (if p.effectiveFrom <= t then {p.effectiveFrom} else {})
  }

  datatype Evaluation = Evaluated(facts: Facts) | Uncovered | BoundaryUnknown

  function TradeDate(p: Projection, t: int): Option<Id> {
    var segment := ActiveSegment(p.segments, t);
    var active := ActiveWindows(p.windows, t);
    var future := FutureWindow(p.windows, t);
    if segment.Some? then Some(segment.value.tradeDate)
    else if active != [] then Some(active[0].tradeDate)
    else if future.Some? then Some(future.value.tradeDate)
    else None
  }

  function Evaluate(p: Projection, t: int): Evaluation {
    if !p.Covers(t) then Uncovered
    else if Admitted(p, t) == {} then BoundaryUnknown
    else
      var segment := ActiveSegment(p.segments, t);
      var active := ByPhase(ActiveWindows(p.windows, t));
      Evaluated(Facts(
        TradeDate(p, t),
        PhaseNames(active),
        if segment.None? then CLOSED else if segment.value.open then OPEN else BREAK,
        if |active| == 1 then Some(active[0].start)
        else if segment.Some? then Some(segment.value.start) else None,
        if |active| == 1 then Some(active[0].end)
        else if segment.Some? then Some(segment.value.end) else None,
        if Later(p, t) == {} then None else Some(LeastOf(Later(p, t))),
        GreatestOf(Admitted(p, t))))
  }

  // Piecewise constancy

  /** No boundary, and not the activation of the definition, lies between `t` and `u`. */
  ghost predicate SameStretch(p: Projection, t: int, u: int) {
    && (forall b :: b in Boundaries(p) ==> (b <= t <==> b <= u))
    && (p.effectiveFrom <= t <==> p.effectiveFrom <= u)
  }

  lemma {:induction false} SegmentsAgree(segments: seq<Segment>, t: int, u: int)
    requires forall s :: s in segments ==> (s.start <= t <==> s.start <= u) && (s.end <= t <==> s.end <= u)
    ensures ActiveSegment(segments, t) == ActiveSegment(segments, u)
  {
    if segments != [] {
      assert segments[0] in segments;
      SegmentsAgree(segments[1..], t, u);
    }
  }

  lemma {:induction false} WindowsAgree(windows: seq<Window>, t: int, u: int)
    requires forall w :: w in windows ==> (w.start <= t <==> w.start <= u) && (w.end <= t <==> w.end <= u)
    ensures ActiveWindows(windows, t) == ActiveWindows(windows, u)
    ensures FutureWindow(windows, t) == FutureWindow(windows, u)
  {
    if windows != [] {
      assert windows[0] in windows;
      WindowsAgree(windows[1..], t, u);
    }
  }

  lemma StretchIsConstant(p: Projection, t: int, u: int)
    requires SameStretch(p, t, u) && p.Covers(t) && p.Covers(u)
    ensures Evaluate(p, t) == Evaluate(p, u)
  {
    forall s | s in p.segments ensures (s.start <= t <==> s.start <= u) && (s.end <= t <==> s.end <= u) {
      assert s.start in Boundaries(p) && s.end in Boundaries(p);
    }
    forall w | w in p.windows ensures (w.start <= t <==> w.start <= u) && (w.end <= t <==> w.end <= u) {
      assert w.start in Boundaries(p) && w.end in Boundaries(p);
    }
    SegmentsAgree(p.segments, t, u);
    WindowsAgree(p.windows, t, u);
    assert Later(p, t) == Later(p, u);
    assert Admitted(p, t) == Admitted(p, u);
  }

  /** An evaluated state holds at its own instant: it is effective no later, and changes only after. */
  lemma EvaluationBrackets(p: Projection, t: int)
    requires Evaluate(p, t).Evaluated?
    ensures var f := Evaluate(p, t).facts;
      && f.effectiveFrom <= t && f.effectiveFrom in Admitted(p, t)
      && (f.nextTransition.Some? ==> t < f.nextTransition.value && f.nextTransition.value in Boundaries(p))
      && (forall b :: b in Boundaries(p) ==>
            b <= f.effectiveFrom || (f.nextTransition.Some? && f.nextTransition.value <= b))
      && (p.effectiveFrom <= t ==> p.effectiveFrom <= f.effectiveFrom)
  {
    var f := Evaluate(p, t).facts;
    forall b | b in Boundaries(p)
      ensures b <= f.effectiveFrom || (f.nextTransition.Some? && f.nextTransition.value <= b)
    {
      if b <= t { assert b in Admitted(p, t); } else { assert b in Later(p, t); }
    }
    if p.effectiveFrom <= t { assert p.effectiveFrom in Admitted(p, t); }
  }

  /** `u` is covered and lies between the state's effective instant and its next transition. */
  predicate Within(p: Projection, f: Facts, u: int) {
    p.Covers(u) && f.effectiveFrom <= u && (f.nextTransition.Some? ==> u < f.nextTransition.value)
  }

  /** The definition becomes effective strictly inside the stretch after `t`. */
  predicate ActivatesInside(p: Projection, f: Facts, t: int) {
    t < p.effectiveFrom && Within(p, f, p.effectiveFrom)
  }

  lemma InsideIsConstant(p: Projection, t: int, u: int)
    requires Evaluate(p, t).Evaluated? && Within(p, Evaluate(p, t).facts, u)
    requires !ActivatesInside(p, Evaluate(p, t).facts, t)
    ensures Evaluate(p, u) == Evaluate(p, t)
  {
    var f := Evaluate(p, t).facts;
    EvaluationBrackets(p, t);
    assert SameStretch(p, t, u) by {
      forall b | b in Boundaries(p) ensures b <= t <==> b <= u { }
    }
    StretchIsConstant(p, t, u);
  }

  lemma ActivationChangesState(p: Projection, t: int)
    requires Evaluate(p, t).Evaluated? && ActivatesInside(p, Evaluate(p, t).facts, t)
    ensures Evaluate(p, p.effectiveFrom) != Evaluate(p, t)
  {
    EvaluationBrackets(p, t);
    var e := p.effectiveFrom;
    assert e in Admitted(p, e);
    assert forall b :: b in Admitted(p, e) ==> b <= e;
  }

  /** The evaluated state is the same over its whole stretch exactly when the definition does not become
      effective inside it; in particular always once the definition is effective. */
  lemma EvaluationIsPiecewiseConstant(p: Projection, t: int)
    requires Evaluate(p, t).Evaluated?
    ensures (forall u :: Within(p, Evaluate(p, t).facts, u) ==> Evaluate(p, u) == Evaluate(p, t))
       <==> !ActivatesInside(p, Evaluate(p, t).facts, t)
    ensures p.effectiveFrom <= t ==> !ActivatesInside(p, Evaluate(p, t).facts, t)
  {
    var f := Evaluate(p, t).facts;
    if ActivatesInside(p, f, t) {
      ActivationChangesState(p, t);
      assert Within(p, f, p.effectiveFrom);
    } else {
      forall u | Within(p, f, u) ensures Evaluate(p, u) == Evaluate(p, t) {
        InsideIsConstant(p, t, u);
      }
    }
  }

  /** One open segment from 0 to 10, under a definition that becomes effective at 5. */
  function LateDefinition(): Projection {
    Projection(0, 5, 0, 10, [Segment(1, true, 0, 10)], [])
  }

  /** Such a stretch exists: announced as unchanged from 0 up to 10, the state changes at 5. */
  lemma StateChangesInsideItsStretch()
    ensures var p := LateDefinition(); var before, after := Evaluate(p, 0), Evaluate(p, 5);
      && before.Evaluated? && before.facts.effectiveFrom == 0 && before.facts.nextTransition == Some(10)
      && ActivatesInside(p, before.facts, 0) && Within(p, before.facts, 5)
      && after.Evaluated? && after.facts == before.facts.(effectiveFrom := 5)
  {
    var p := LateDefinition();
    var s := p.segments[0];
    assert p.segments == [s] && s in p.segments && p.windows == [];
    assert Boundaries(p) == {0, 10};
    assert Admitted(p, 0) == {0} && Admitted(p, 5) == {0, 5};
    assert Later(p, 0) == {10} && Later(p, 5) == {10};
    assert ActiveWindows(p.windows, 0) == [] == ActiveWindows(p.windows, 5);
    assert GreatestOf({0, 5}) in {0, 5};
  }

  /** Stretches meet: what comes next is effective from exactly the announced instant. */
  lemma NextStretchStartsOnTime(p: Projection, t: int)
    requires Evaluate(p, t).Evaluated? && Evaluate(p, t).facts.nextTransition.Some?
    requires p.Covers(Evaluate(p, t).facts.nextTransition.value)
    requires p.effectiveFrom <= Evaluate(p, t).facts.nextTransition.value
    ensures var next := Evaluate(p, t).facts.nextTransition.value;
      Evaluate(p, next).Evaluated? && Evaluate(p, next).facts.effectiveFrom == next
  {
    EvaluationBrackets(p, t);
    var next := Evaluate(p, t).facts.nextTransition.value;
    assert next in Admitted(p, next);
    assert forall b :: b in Admitted(p, next) ==> b <= next;
  }

  // Sampling by the producer

  /** The producer evaluates this calendar by this projection. */
  ghost predicate Follows(config: P.Config, calendar: Id, p: Projection) {
    forall t :: config.evaluate(calendar, t) ==
      match Evaluate(p, t)
      case Evaluated(facts) => P.Evaluated(P.Snapshot(p.scheduleVersion, facts))
      case Uncovered => P.EvaluationBroken
      case BoundaryUnknown => P.BoundaryUnavailable
  }

  /** Sampling the calendar again before its next transition adds no revision; sampling it at or after
      that transition, when it yields a transition at all, publishes exactly the next one. */
  lemma RevisionsFollowTheTimeline(
      config: P.Config, s: P.State, calendar: Id, p: Projection, t: int, u: int, published: int, again: int)
    requires calendar in config.calendars && s.Paired() && Follows(config, calendar, p)
    requires P.UpdateCalendar(config, s, calendar, t, published).Held? && p.effectiveFrom <= t <= u
    ensures var first := P.UpdateCalendar(config, s, calendar, t, published);
      var second := P.UpdateCalendar(config, first.state, calendar, u, again);
      && Evaluate(p, t).Evaluated?
      && (Within(p, Evaluate(p, t).facts, u) ==>
            second.Held? && !second.published && second.transition == first.transition
            && second.state.Revision(calendar) == first.state.Revision(calendar))
      && (!Within(p, Evaluate(p, t).facts, u) && second.Held? ==>
            second.published && second.transition.revision == first.state.Revision(calendar) + 1)
  {
    var e := config.evaluate(calendar, t);
    var first := P.UpdateCalendar(config, s, calendar, t, published);
    assert Evaluate(p, t).Evaluated? && first.state.snapshots[calendar].facts == Evaluate(p, t).facts;
    EvaluationBrackets(p, t);
    if Within(p, Evaluate(p, t).facts, u) {
      InsideIsConstant(p, t, u);
    } else if Evaluate(p, u).Evaluated? {
      EvaluationBrackets(p, u);
      var next := Evaluate(p, t).facts.nextTransition.value;
      assert next in Boundaries(p) && next <= u;
      assert next <= Evaluate(p, u).facts.effectiveFrom;
    }
  }
}
