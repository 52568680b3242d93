/** Every published transition names what it replaced: read in order, a calendar's transitions tell all
    the facts that were ever shown for it, each different from the one before. */
module TransitionChain {
  import opened Prelude
  import opened CalendarMessages
  import opened CalendarProducer
  import opened ProducerHistory

  /** The first transition of a calendar replaces nothing; each other one replaces different facts, those of
      the transition numbered just before it. */
  ghost predicate Links(sent: set<Transition>, t: Transition) {
    if t.revision == 1 then t.previous.None? && t.previousRevision.None?
    else exists u ::
      && u in sent && u.calendarId == t.calendarId && u.revision + 1 == t.revision
      && t.previous == Some(u.facts) && t.previousRevision == Some(u.revision) && t.facts != u.facts
  }

  ghost predicate Linked(sent: set<Transition>) {
    forall t :: t in sent ==> Links(sent, t)
  }

  lemma AddingLinks(sent: set<Transition>, t: Transition)
    requires Linked(sent) && Links(sent, t)
    ensures Linked(sent + {t})
  {
    forall x | x in sent + {t} ensures Links(sent + {t}, x) {
      assert Links(sent, x);
    }
  }

  lemma NewTransitionLinks(
      config: Config, p: State, sent: set<Transition>, calendar: Id, snapshot: Snapshot, evaluatedAsOf: int,
      publishedAt: int)
    requires calendar in config.calendars && Numbered(config, p, sent)
    requires calendar in p.snapshots ==> p.snapshots[calendar].facts != snapshot.facts
    ensures Links(sent, NewTransition(config, p, calendar, snapshot, evaluatedAsOf, publishedAt))
  {
    hide OnePerRevision, NoneMissing;
    if calendar in p.transitions {
      var u := p.transitions[calendar];
      assert u in sent && u.calendarId == calendar && u.revision == p.Revision(calendar);
    }
  }

  /** `u` publishes at most one transition, and it links. */
  lemma UpdateLinks(
      config: Config, p: State, sent: set<Transition>, calendar: Id, evaluatedAsOf: int, publishedAt: int)
    requires calendar in config.calendars && Numbered(config, p, sent) && Linked(sent)
    ensures var u := UpdateCalendar(config, p, calendar, evaluatedAsOf, publishedAt);
      u.Held? && u.published ==> Linked(sent + {u.transition})
  {
    hide Linked, Links, Heads, InRange, OnePerRevision, NoneMissing;
    var u := UpdateCalendar(config, p, calendar, evaluatedAsOf, publishedAt);
    if u.Held? && u.published {
      var snapshot := config.evaluate(calendar, evaluatedAsOf).snapshot;
      NewTransitionLinks(config, p, sent, calendar, snapshot, evaluatedAsOf, publishedAt);
      AddingLinks(sent, u.transition);
    }
  }

  lemma SweepOneLinks(
      config: Config, p: State, sent: set<Transition>, sweep: Sweep, e: Expectation, cut: int, stamp: int)
    requires SweepInv(config, p, sent, sweep) && Linked(sent + Elements(sweep.published))
    ensures Linked(sent + Elements(SweepOne(config, sweep, e, cut, stamp).published))
  {
    hide Linked, Heads, InRange, OnePerRevision, NoneMissing, Genuine;
    var id := e.calendarId;
    if id in config.calendars && e.definition == config.calendars[id] {
      UpdateLinks(config, sweep.state, sent + Elements(sweep.published), id, cut, stamp);
      var u := UpdateCalendar(config, sweep.state, id, cut, stamp);
      if u.Held? && u.published {
        assert sent + Elements(sweep.published + [u.transition]) == sent + Elements(sweep.published) + {u.transition};
      }
    }
  }

  lemma {:induction false} SweepLinks(
      config: Config, p: State, sent: set<Transition>, sweep: Sweep, expectations: seq<Expectation>, cut: int, stamp: int)
    requires SweepInv(config, p, sent, sweep) && Linked(sent + Elements(sweep.published))
    ensures Linked(sent + Elements(SweepAll(config, sweep, expectations, cut, stamp).published))
    decreases |expectations|
  {
    hide Linked, SweepOne, Heads, InRange, OnePerRevision, NoneMissing, Genuine;
    if expectations != [] && !sweep.raised {
      SweepOneKeepsInv(config, p, sent, sweep, expectations[0], cut, stamp);
      SweepOneLinks(config, p, sent, sweep, expectations[0], cut, stamp);
      SweepLinks(config, p, sent, SweepOne(config, sweep, expectations[0], cut, stamp), expectations[1..], cut, stamp);
    }
  }

  lemma HandlingLinks(config: Config, p: State, sent: set<Transition>, request: Request, clock: Clock)
    requires Numbered(config, p, sent) && Linked(sent)
    ensures Linked(sent + Elements(HandleRequest(config, p, request, clock).published))
  {
    hide Numbered, Linked, AdmitRequest, Rejection, NotReady, BuildResponse;
    assert sent + Elements([]) == sent;
    var (q, admission) := AdmitRequest(config, p, request, clock.received);
    CyclesDoNotMatter(config, p, q, sent);
    if admission.Process? && clock.received <= request.deadline && q.ready {
      var start := Sweep(q, [], [], [], false);
      assert SweepInv(config, q, sent, start);
      SweepLinks(config, q, sent, start, request.expectations, clock.cut, clock.stamp);
    }
  }

  // Runs of the producer

  /** What a producer does: it becomes ready, samples a calendar, or handles a request. */
  datatype Act =
    | BecomeReady
    | Sample(calendar: Id, evaluatedAsOf: int, publishedAt: int)
    | Serve(request: Request, clock: Clock)

  /** The producer and everything it has published. */
  datatype Published = Published(state: State, sent: set<Transition>)

  ghost function Perform(config: Config, p: Published, act: Act): (q: Published)
    requires p.state.Paired()
    ensures q.state.Paired()
  {
    match act
    case BecomeReady => p.(state := p.state.(ready := true))
    case Sample(calendar, evaluatedAsOf, publishedAt) =>
      if calendar !in config.calendars then p
      else
        var u := UpdateCalendar(config, p.state, calendar, evaluatedAsOf, publishedAt);
        if u.Failed? then p
        else Published(u.state, if u.published then p.sent + {u.transition} else p.sent)
    case Serve(request, clock) =>
      var h := HandleRequest(config, p.state, request, clock);
      Published(h.state, p.sent + Elements(h.published))
  }

  ghost function PerformAll(config: Config, p: Published, acts: seq<Act>): (q: Published)
    requires p.state.Paired()
    ensures q.state.Paired()
    decreases |acts|
  {
    if acts == [] then p else PerformAll(config, Perform(config, p, acts[0]), acts[1..])
  }

  lemma ReadinessDoesNotMatter(config: Config, p: State, sent: set<Transition>)
    requires Numbered(config, p, sent)
    ensures Numbered(config, p.(ready := true), sent)
  {
    assert forall c :: p.(ready := true).Revision(c) == p.Revision(c);
  }

  lemma ActingLinks(config: Config, p: Published, act: Act)
    requires Numbered(config, p.state, p.sent) && Linked(p.sent)
    ensures var q := Perform(config, p, act); Numbered(config, q.state, q.sent) && Linked(q.sent)
  {
    hide Numbered, Linked, HandleRequest;
    match act
    case BecomeReady => ReadinessDoesNotMatter(config, p.state, p.sent);
    case Sample(calendar, evaluatedAsOf, publishedAt) =>
      if calendar in config.calendars {
        UpdateKeepsNumbering(config, p.state, p.sent, calendar, evaluatedAsOf, publishedAt);
        UpdateLinks(config, p.state, p.sent, calendar, evaluatedAsOf, publishedAt);
      }
    case Serve(request, clock) =>
      HandlingKeepsHistory(config, p.state, p.sent, request, clock);
      HandlingLinks(config, p.state, p.sent, request, clock);
  }

  lemma {:induction false} ActsLink(config: Config, p: Published, acts: seq<Act>)
    requires Numbered(config, p.state, p.sent) && Linked(p.sent)
    ensures var q := PerformAll(config, p, acts); Numbered(config, q.state, q.sent) && Linked(q.sent)
    decreases |acts|
  {
    if acts != [] {
      ActingLinks(config, p, acts[0]);
      hide Numbered, Linked, Perform;
      ActsLink(config, Perform(config, p, acts[0]), acts[1..]);
    }
  }

  /** Whatever a producer samples and answers, its published transitions form one chain per calendar. */
  lemma TransitionsFormChains(config: Config, acts: seq<Act>)
    ensures Linked(PerformAll(config, Published(State(false, map[], map[], map[], map[]), {}), acts).sent)
  {
    ActsLink(config, Published(State(false, map[], map[], map[], map[]), {}), acts);
  }
}
