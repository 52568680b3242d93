/** One consumer, one calendar and the values of their first exchange, for the runs that show what a
    caller cannot rely on. */
module SampleExchange {
  import opened Prelude
  import opened CalendarMessages
  import opened SessionStateDelivery

  const CALENDAR: Id := 7
  const REQUESTER: Id := 9
  const DEFINITION := Definition(1, 0, 0)
  const EXPECTED := [Expectation(CALENDAR, DEFINITION)]
  const POLICY: Policy := PolicyValues(1, 10, 2, 1, 100, 1, 1)
  const CYCLE := CycleId(REQUESTER, 1, 1)
  const FIRST := Request(CYCLE, RequestId(CYCLE, 1), 1, REQUESTER, 0, 0, EXPECTED, 1, 1, 11, 1)

  /** The market opens and closes in turn. */
  function FactsAt(t: int): Facts {
    Facts(None, [], if t % 2 == 1 then CLOSED else OPEN, None, None, None, 0)
  }

  /** The calendar's `n`th revision, published at time `n`. */
  function Published(n: int): Transition {
    Transition(
      EventId(0, CALENDAR, n), 0, 0, CALENDAR, 0, DEFINITION, FactsAt(n), if n > 1 then Some(FactsAt(n - 1)) else None,
      n, n, n, if n > 1 then Some(n - 1) else None)
  }

  /** The answer to the first attempt: revision 1 of the only calendar. */
  function Served(): Response {
    Response(
      CYCLE, RequestId(CYCLE, 1), 1, REQUESTER, 0, 0, [CALENDAR], [CalendarCurrentState(Published(1), 1)], [],
      1, 1, 11, 1, 1, 1, 1, 1, None)
  }

  function Opened(): State {
    StartCycle(Idle(REQUESTER, 0, 0, 1), EXPECTED, 1, POLICY).value
  }

  lemma ServedIsValid()
    ensures Served().Valid()
  {
    assert StateIds(Served().states) == [CALENDAR];
  }

  lemma FirstIsAdmitted()
    ensures JudgeSnapshot(Opened(), Served(), 1) == Returned(Admit)
  {
    assert ExpectationIds(EXPECTED) == [CALENDAR];
    var states := Served().states;
    assert states[1..] == [];
    assert FirstDefinitionMismatch(EXPECTED, states) == FirstDefinitionMismatch(EXPECTED, []) == None;
  }
}
