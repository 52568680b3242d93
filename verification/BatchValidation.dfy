/** Validation of one historical batch: which observations are kept, what is missing, and the verdict. */
module BatchValidation {
  import opened Prelude

  const MAXIMUM_LINEAGE := 64
  const MAXIMUM_REFERENCES := 256
  const MAXIMUM_INTERVALS := 15
  const MAXIMUM_RAW := 16

  datatype Series = Series(seriesId: Id, interval: int, rest: Id)

  datatype LineageEntry = LineageEntry(historical: bool, input: Id, observation: Id, references: seq<Id>)

  datatype Health = READY | WARMING | DEGRADED | STALE | UNAVAILABLE | UNSUPPORTED | FAILED

  datatype Fidelity = REPORTED | DERIVED | INFERRED | PARTIAL_FIDELITY | NO_FIDELITY

  /** `content` stands for constituents, prices and volume. */
  datatype ObservationValues = ObservationValues(
    series: Series, start: int, end: int, complete: bool, content: Id, revision: int, derived: bool,
    lineage: seq<LineageEntry>, references: seq<Id>)
  {
    function Key(): (Id, int, int) { (series.seriesId, start, end) }

    /** What two reports of one interval must agree on. */
    function Equivalence(): (Series, int, int, bool, Id, int, bool) {
      (series, start, end, complete, content, revision, derived)
    }

    /** Complete observations are ready and reported or derived; partial ones degraded and partial. */
    function Health(): Health { if complete then READY else DEGRADED }

    function Fidelity(): Fidelity {
      if !complete then PARTIAL_FIDELITY else if derived then DERIVED else REPORTED
    }
  }

  type Observation = o: ObservationValues | 0 < o.start && o.end - o.start == o.series.interval && 0 < o.series.interval
    witness ObservationValues(Series(0, 1, 0), 1, 2, true, 0, 1, false, [], [])

  datatype RequestValues = RequestValues(series: Series, input: Id, start: int, end: int, maximumRaw: int)

  /** A validation request, with the rules its constructor enforces. */
  type Request = r: RequestValues |
    && 0 < r.series.interval && 0 < r.start < r.end && (r.end - r.start) % r.series.interval == 0
    && (r.end - r.start) / r.series.interval <= r.maximumRaw <= MAXIMUM_RAW
    && (r.end - r.start) / r.series.interval <= MAXIMUM_INTERVALS
    witness RequestValues(Series(0, 1, 0), 0, 1, 2, 1)

  function Count(r: Request): (n: nat)
    ensures 0 < n && r.end == r.start + n * r.series.interval
  {
    assert r.end - r.start == ((r.end - r.start) / r.series.interval) * r.series.interval;
    (r.end - r.start) / r.series.interval
  }

  datatype Reason =
    | IDENTITY_MISMATCH | ORDERING_INVALID | OUTSIDE_REQUEST_BOUNDS | UNEQUAL_INTERVAL_CONFLICT | REVISION_REJECTED
    | MISSING_INTERVALS | PARTIAL_OBSERVATION | EMPTY_BATCH

  // One observation after another

  function OrderedUnique<T(==, !new)>(s: seq<T>): (r: seq<T>)
    ensures forall x :: x in r <==> x in s
    ensures Distinct(r)
  {
    if s == [] then []
    else
      assert s == s[..|s| - 1] + [s[|s| - 1]];
      var before := OrderedUnique(s[..|s| - 1]);
      if s[|s| - 1] in before then before else before + [s[|s| - 1]]
  }

  /** Earlier evidence first, each once. Raises when there is too much of it. */
  function MergeDuplicate(first: Observation, second: Observation): Option<Observation> {
    var lineage := OrderedUnique(first.lineage + second.lineage);
    var references := OrderedUnique(first.references + second.references);
    if |lineage| > MAXIMUM_LINEAGE || |references| > MAXIMUM_REFERENCES then None
    else Some(first.(lineage := lineage, references := references))
  }

  /** The kept observations are in order of first arrival, one per key. */
  datatype Tally = Tally(
    accepted: seq<Observation>, duplicates: nat, conflicts: nat, reasons: set<Reason>, priorStart: Option<int>,
    raised: bool)

  function Position(accepted: seq<Observation>, key: (Id, int, int)): (i: Option<nat>)
    ensures i.Some? ==> i.value < |accepted| && accepted[i.value].Key() == key
    ensures i.None? <==> forall j :: 0 <= j < |accepted| ==> accepted[j].Key() != key
  {
    if accepted == [] then None
    else if accepted[0].Key() == key then Some(0)
    else
      var rest := Position(accepted[1..], key);
      assert forall j :: 0 < j < |accepted| ==> accepted[j] == accepted[1..][j - 1];
      if rest.None? then None else Some(rest.value + 1)
  }

  predicate Identified(r: Request, o: Observation) {
    o.series == r.series && forall item :: item in o.lineage ==> item.historical && item.input == r.input
  }

  /** What is wrong with one observation, given where the one before it started. */
  function Faults(r: Request, o: Observation, prior: Option<int>): set<Reason> {
    (if !Identified(r, o) then {IDENTITY_MISMATCH} else {})
    + (if o.revision != 1 then {REVISION_REJECTED} else {})
    + (if o.start < r.start || o.end > r.end then {OUTSIDE_REQUEST_BOUNDS} else {})
    + (if prior.Some? && o.start < prior.value then {ORDERING_INVALID} else {})
  }

  function Absorb(r: Request, t: Tally, o: Observation): Tally {
    var marked := t.(reasons := t.reasons + Faults(r, o, t.priorStart), priorStart := Some(o.start));
    var i := Position(t.accepted, o.Key());
    if i.None? then marked.(accepted := t.accepted + [o])
    else if t.accepted[i.value].Equivalence() == o.Equivalence() then
      var merged := MergeDuplicate(t.accepted[i.value], o);
      if merged.None? then marked.(raised := true)
      else marked.(duplicates := t.duplicates + 1, accepted := t.accepted[i.value := merged.value])
    else marked.(conflicts := t.conflicts + 1, reasons := marked.reasons + {UNEQUAL_INTERVAL_CONFLICT})
  }

  function AbsorbAll(r: Request, t: Tally, observations: seq<Observation>): Tally
    decreases |observations|
  {
    if observations == [] || t.raised then t else AbsorbAll(r, Absorb(r, t, observations[0]), observations[1..])
  }

  function Start(): Tally { Tally([], 0, 0, {}, None, false) }

  // The verdict

  function Insert(sorted: seq<Observation>, o: Observation): seq<Observation> {
    if sorted == [] || o.start <= sorted[0].start then [o] + sorted
    else [sorted[0]] + Insert(sorted[1..], o)
  }

  /** Stable order by interval start. */
  function ByStart(observations: seq<Observation>): seq<Observation> {
    if observations == [] then [] else Insert(ByStart(observations[1..]), observations[0])
  }

  /** `n` consecutive interval starts. */
  function Grid(start: int, interval: int, n: nat): (g: seq<int>)
    ensures |g| == n && forall i :: 0 <= i < n ==> g[i] == start + i * interval
  {
    seq(n, i requires 0 <= i < n => start + i * interval)
  }

  function StartsOf(observations: seq<Observation>): (s: seq<int>)
    ensures |s| == |observations| && forall i :: 0 <= i < |s| ==> s[i] == observations[i].start
  {
    seq(|observations|, i requires 0 <= i < |observations| => observations[i].start)
  }

  function Intervals(observations: seq<Observation>): set<(int, int)> {
    set o | o in observations :: (o.start, o.end)
  }

  /** The requested interval starts nothing was observed for. */
  function Missing(r: Request, starts: seq<int>, observed: set<(int, int)>): (m: seq<int>)
    ensures forall s :: s in m <==> s in starts && (s, s + r.series.interval) !in observed
  {
    if starts == [] then []
    else if (starts[0], starts[0] + r.series.interval) in observed then Missing(r, starts[1..], observed)
    else [starts[0]] + Missing(r, starts[1..], observed)
  }

  datatype Disposition = COMPLETE | PARTIAL | REJECTED

  const HARD := {IDENTITY_MISMATCH, ORDERING_INVALID, OUTSIDE_REQUEST_BOUNDS, UNEQUAL_INTERVAL_CONFLICT, REVISION_REJECTED}

  datatype Result = Result(
    disposition: Disposition,
    raw: nat,
    unique: nat,
    duplicates: nat,
    conflicts: nat,
    missing: seq<int>,
    health: Health,
    fidelity: Fidelity,
    lineage: seq<LineageEntry>,
    references: seq<Id>,
    reasons: set<Reason>,
    observations: seq<Observation>)

  function HealthRank(h: Health): int {
    match h
    case READY => 0 case WARMING => 1 case DEGRADED => 2 case STALE => 3 case UNAVAILABLE => 4
    case UNSUPPORTED => 5 case FAILED => 6
  }

  function FidelityRank(f: Fidelity): int {
    match f
    case REPORTED => 0 case DERIVED => 1 case INFERRED => 2 case PARTIAL_FIDELITY => 3 case NO_FIDELITY => 4
  }

  function WorstHealth(observations: seq<Observation>): Health
    requires observations != []
  {
    if |observations| == 1 then observations[0].Health()
    else
      var rest := WorstHealth(observations[1..]);
      if HealthRank(rest) > HealthRank(observations[0].Health()) then rest else observations[0].Health()
  }

  function WorstFidelity(observations: seq<Observation>): Fidelity
    requires observations != []
  {
    if |observations| == 1 then observations[0].Fidelity()
    else
      var rest := WorstFidelity(observations[1..]);
      if FidelityRank(rest) > FidelityRank(observations[0].Fidelity()) then rest else observations[0].Fidelity()
  }

  function AllLineage(observations: seq<Observation>): seq<LineageEntry> {
    if observations == [] then [] else observations[0].lineage + AllLineage(observations[1..])
  }

  function LineageReferences(lineage: seq<LineageEntry>): seq<Id> {
    if lineage == [] then [] else [lineage[0].observation] + LineageReferences(lineage[1..])
  }

  function NestedReferences(lineage: seq<LineageEntry>): seq<Id> {
    if lineage == [] then [] else lineage[0].references + NestedReferences(lineage[1..])
  }

  function AllReferences(observations: seq<Observation>): seq<Id> {
    if observations == [] then []
    else
      var o := observations[0];
      o.references + LineageReferences(o.lineage) + NestedReferences(o.lineage) + AllReferences(observations[1..])
  }

  function Reasons(t: Tally, missing: seq<int>, partial: bool, empty: bool): set<Reason> {
    t.reasons + (if missing != [] then {MISSING_INTERVALS} else {}) + (if partial then {PARTIAL_OBSERVATION} else {})
    + (if empty then {EMPTY_BATCH} else {})
  }

  predicate SomePartial(observations: seq<Observation>) {
    exists o :: o in observations && !o.complete
  }

  /** The result before its constructor looks at it. */
  function Judge(r: Request, t: Tally, raw: nat): Result {
    var ordered := ByStart(t.accepted);
    var missing := Missing(r, Grid(r.start, r.series.interval, Count(r)), Intervals(ordered));
    var partial := SomePartial(ordered);
    var reasons := Reasons(t, missing, partial, raw == 0);
    var disposition := if reasons * HARD != {} then REJECTED
                       else if missing != [] || partial || raw == 0 then PARTIAL else COMPLETE;
    var health := if ordered == [] then UNAVAILABLE else WorstHealth(ordered);
    var fidelity := if ordered == [] then NO_FIDELITY else WorstFidelity(ordered);
    Result(
      disposition, raw, |t.accepted|, t.duplicates, t.conflicts, missing,
      if disposition == REJECTED then FAILED
      else if disposition == PARTIAL && HealthRank(health) < HealthRank(DEGRADED) then DEGRADED else health,
      if disposition == REJECTED then NO_FIDELITY
      else if disposition == PARTIAL && FidelityRank(fidelity) < FidelityRank(PARTIAL_FIDELITY) then PARTIAL_FIDELITY
      else fidelity,
      OrderedUnique(AllLineage(ordered)), OrderedUnique(AllReferences(ordered)), reasons,
      if disposition == REJECTED then [] else ordered)
  }

  /** The evidence fits the payload bounds. */
  predicate Fits(result: Result) {
    |result.lineage| <= MAXIMUM_LINEAGE && |result.references| <= MAXIMUM_REFERENCES
  }

  predicate KeysAscend(observations: seq<Observation>) {
    forall i, j :: 0 <= i < j < |observations| ==>
      observations[i].start < observations[j].start
      || (observations[i].start == observations[j].start
          && (observations[i].end < observations[j].end
              || (observations[i].end == observations[j].end
                  && observations[i].series.seriesId < observations[j].series.seriesId)))
  }

  predicate Ascend(starts: seq<int>) {
    forall i, j :: 0 <= i < j < |starts| ==> starts[i] < starts[j]
  }

  /** The rules of the result's constructor. */
  predicate Acceptable(r: Request, result: Result) {
    && result.raw == result.unique + result.duplicates + result.conflicts
    && Ascend(result.missing)
    && (forall s :: s in result.missing ==> 0 < s && r.start <= s && s + r.series.interval <= r.end)
    && KeysAscend(result.observations)
    && (forall o :: o in result.observations ==> o.series == r.series && r.start <= o.start && o.end <= r.end)
    && (if result.disposition == REJECTED then result.observations == [] else |result.observations| == result.unique)
    && match result.disposition
       case COMPLETE =>
         && result.unique == Count(r) && result.missing == [] && result.conflicts == 0 && result.reasons == {}
         && result.health == READY && result.fidelity in {REPORTED, DERIVED}
       case PARTIAL =>
         && result.reasons != {}
         && (if result.observations != [] then result.health == DEGRADED && result.fidelity == PARTIAL_FIDELITY
             else result.health == UNAVAILABLE && result.fidelity == NO_FIDELITY)
       case REJECTED => result.health == FAILED && result.fidelity == NO_FIDELITY && result.reasons != {}
  }

  /** Nothing is returned when the batch is too large, the evidence does not fit, or the constructor refuses. */
  function Validate(r: Request, observations: seq<Observation>): Option<Result> {
    if |observations| > r.maximumRaw then None
    else
      var t := AbsorbAll(r, Start(), observations);
      if t.raised then None
      else
        var result := Judge(r, t, |observations|);
        if Fits(result) && Acceptable(r, result) then Some(result) else None
  }

  /** The loop as the program runs it. */
  method ValidateBatch(r: Request, observations: seq<Observation>) returns (result: Option<Result>)
    ensures result == Validate(r, observations)
  {
    if |observations| > r.maximumRaw { return None; }
    var accepted: seq<Observation> := [];
    var duplicates: nat, conflicts: nat := 0, 0;
    var reasons: set<Reason> := {};
    var priorStart: Option<int> := None;
    for i := 0 to |observations|
      invariant AbsorbAll(r, Start(), observations) ==
                AbsorbAll(r, Tally(accepted, duplicates, conflicts, reasons, priorStart, false), observations[i..])
    {
      var o := observations[i];
      ghost var t := Tally(accepted, duplicates, conflicts, reasons, priorStart, false);
      assert observations[i..][1..] == observations[i + 1..] && observations[i..][0] == o;
      reasons := reasons + Faults(r, o, priorStart);
      priorStart := Some(o.start);
      var at := Position(accepted, o.Key());
      if at.None? {
        accepted := accepted + [o];
      } else if accepted[at.value].Equivalence() == o.Equivalence() {
        var merged := MergeDuplicate(accepted[at.value], o);
        if merged.None? { return None; }
        duplicates := duplicates + 1;
        accepted := accepted[at.value := merged.value];
      } else {
        conflicts := conflicts + 1;
        reasons := reasons + {UNEQUAL_INTERVAL_CONFLICT};
      }
      assert Absorb(r, t, o) == Tally(accepted, duplicates, conflicts, reasons, priorStart, false);
    }
    assert observations[|observations|..] == [];
    var judged := Judge(r, Tally(accepted, duplicates, conflicts, reasons, priorStart, false), |observations|);
    return if Fits(judged) && Acceptable(r, judged) then Some(judged) else None;
  }
}
