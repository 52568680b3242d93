/** Compiling capability needs into shared provider requests, whatever order they are given in. */
module DependencyCompiler {
  import opened Prelude
  import E = HistoricalExecution

  datatype Requirement = Requirement(
    kind: Id, selector: Id, window: Id, minimum: int, maximum: int, parameters: Id)

  datatype Binding = Binding(
    consumer: Id, instrument: Id, capability: Id, version: int, requirements: seq<Requirement>, purpose: Id,
    priority: int)

  /** What two needs must agree on to share one provider request. */
  datatype Key = Key(
    instrument: Id, kind: Id, selector: Id, start: int, end: int, limit: int, parameters: Id)

  datatype Span = Span(start: int, end: int)

  /** `digest` names a request by its key. */
  datatype Context = Context(
    maximumRequests: int, maximumPerRequest: int, maximumTotal: int, bounds: map<(Id, Id), Span>, digest: Key -> Id)

  /** One requirement of one binding. */
  datatype Use = Use(binding: Binding, index: nat)

  datatype Group = Group(key: Key, window: Id, priority: int, dependencies: seq<E.Dependency>)

  datatype Request = Request(id: Id, group: Group)

  datatype Problem = TooManyObservations | UnresolvedWindow | TooManyRequests | BudgetExceeded

  datatype Compiled = Compiled(requests: seq<Request>) | Rejected(problem: Problem)

  // Order of bindings

  predicate Precedes(a: Binding, b: Binding) {
    || a.instrument < b.instrument
    || (a.instrument == b.instrument
        && (|| a.capability < b.capability
            || (a.capability == b.capability
                && (a.version < b.version || (a.version == b.version && a.consumer < b.consumer)))))
  }

  predicate SameSortKey(a: Binding, b: Binding) {
    a.instrument == b.instrument && a.capability == b.capability && a.version == b.version && a.consumer == b.consumer
  }

  function InsertBinding(sorted: seq<Binding>, b: Binding): seq<Binding> {
    if sorted == [] || !Precedes(sorted[0], b) then [b] + sorted
    else [sorted[0]] + InsertBinding(sorted[1..], b)
  }

  /** Stable order by instrument, capability, version and consumer. */
  function SortBindings(bindings: seq<Binding>): seq<Binding> {
    if bindings == [] then [] else InsertBinding(SortBindings(bindings[1..]), bindings[0])
  }

  function UsesOf(b: Binding, from: nat): seq<Use>
    requires from <= |b.requirements|
    decreases |b.requirements| - from
  {
    if from == |b.requirements| then [] else [Use(b, from)] + UsesOf(b, from + 1)
  }

  function Uses(bindings: seq<Binding>): seq<Use> {
    if bindings == [] then [] else UsesOf(bindings[0], 0) + Uses(bindings[1..])
  }

  // Grouping

  predicate Valid(use: Use) { use.index < |use.binding.requirements| }

  datatype Candidate = Candidate(key: Key, window: Id, priority: int, dependency: E.Dependency) | Bad(problem: Problem)

  function CandidateOf(c: Context, use: Use): Candidate
    requires Valid(use)
  {
    var b := use.binding;
    var q := b.requirements[use.index];
    if q.maximum > c.maximumPerRequest then Bad(TooManyObservations)
    else if (b.instrument, q.window) !in c.bounds then Bad(UnresolvedWindow)
    else
      var span := c.bounds[(b.instrument, q.window)];
      Candidate(
        Key(b.instrument, q.kind, q.selector, span.start, span.end, q.maximum, q.parameters), q.window, b.priority,
        E.Dependency(b.consumer, b.capability, b.version, use.index, q.minimum, b.purpose))
  }

  function Position(groups: seq<Group>, key: Key): (i: Option<nat>)
    ensures i.Some? ==> i.value < |groups| && groups[i.value].key == key
    ensures i.None? ==> forall j :: 0 <= j < |groups| ==> groups[j].key != key
  {
    if groups == [] then None
    else if groups[0].key == key then Some(0)
    else
      var rest := Position(groups[1..], key);
      assert forall j :: 0 < j < |groups| ==> groups[j] == groups[1..][j - 1];
      if rest.None? then None else Some(rest.value + 1)
  }

  /** The first need of a key fixes its window; later ones add their dependency and may raise the priority. */
  function AddTo(groups: seq<Group>, candidate: Candidate): seq<Group>
    requires candidate.Candidate?
  {
    var i := Position(groups, candidate.key);
    if i.None? then groups + [Group(candidate.key, candidate.window, candidate.priority, [candidate.dependency])]
    else
      var g := groups[i.value];
      groups[i.value := g.(dependencies := g.dependencies + [candidate.dependency],
                          priority := Max(g.priority, candidate.priority))]
  }

  datatype Grouping = Grouped(groups: seq<Group>) | Failed(problem: Problem)

  function GroupAll(c: Context, groups: seq<Group>, uses: seq<Use>): Grouping
    requires forall u :: u in uses ==> Valid(u)
    decreases |uses|
  {
    if uses == [] then Grouped(groups)
    else
      assert uses[0] in uses;
      match CandidateOf(c, uses[0])
      case Bad(problem) => Failed(problem)
      case Candidate(_, _, _, _) => GroupAll(c, AddTo(groups, CandidateOf(c, uses[0])), uses[1..])
  }

  function TotalLimit(groups: seq<Group>): int {
    if groups == [] then 0 else groups[0].key.limit + TotalLimit(groups[1..])
  }

  function InsertDependency(sorted: seq<E.Dependency>, d: E.Dependency): seq<E.Dependency> {
    if sorted == [] || !E.Before(sorted[0], d) then [d] + sorted
    else [sorted[0]] + InsertDependency(sorted[1..], d)
  }

  function SortDependencies(s: seq<E.Dependency>): seq<E.Dependency> {
    if s == [] then [] else InsertDependency(SortDependencies(s[1..]), s[0])
  }

  predicate Ahead(a: Request, b: Request) {
    a.group.priority > b.group.priority || (a.group.priority == b.group.priority && a.id < b.id)
  }

  function InsertRequest(sorted: seq<Request>, q: Request): seq<Request> {
    if sorted == [] || !Ahead(sorted[0], q) then [q] + sorted
    else [sorted[0]] + InsertRequest(sorted[1..], q)
  }

  /** The requests, highest priority first, then by id. */
  function Finish(c: Context, groups: seq<Group>): seq<Request> {
    if groups == [] then []
    else
      var g := groups[0];
      InsertRequest(Finish(c, groups[1..]), Request(c.digest(g.key), g.(dependencies := SortDependencies(g.dependencies))))
  }

  lemma {:induction false} UsesAreValid(bindings: seq<Binding>)
    ensures forall u :: u in Uses(bindings) ==> Valid(u) && u.binding in bindings
  {
    if bindings != [] {
      UsesAreValid(bindings[1..]);
      OwnUsesAreValid(bindings[0], 0);
    }
  }

  lemma {:induction false} OwnUsesAreValid(b: Binding, from: nat)
    requires from <= |b.requirements|
    ensures forall u :: u in UsesOf(b, from) ==> Valid(u) && u.binding == b
    decreases |b.requirements| - from
  {
    if from < |b.requirements| { OwnUsesAreValid(b, from + 1); }
  }

  function Compile(c: Context, bindings: seq<Binding>): Compiled {
    UsesAreValid(SortBindings(bindings));
    match GroupAll(c, [], Uses(SortBindings(bindings)))
    case Failed(problem) => Rejected(problem)
    case Grouped(groups) =>
      if |groups| > c.maximumRequests then Rejected(TooManyRequests)
      else if TotalLimit(groups) > c.maximumTotal then Rejected(BudgetExceeded)
      else Compiled(Finish(c, groups))
  }

  /** The program's nested loops over one dictionary. */
  method CompileRequests(c: Context, bindings: seq<Binding>) returns (result: Compiled)
    ensures result == Compile(c, bindings)
  {
    var sorted := SortBindings(bindings);
    UsesAreValid(sorted);
    var groups: seq<Group> := [];
    for i := 0 to |sorted|
      invariant forall u :: u in Uses(sorted[i..]) ==> Valid(u)
      invariant GroupAll(c, groups, Uses(sorted[i..])) == GroupAll(c, [], Uses(sorted))
    {
      var b := sorted[i];
      assert sorted[i..][1..] == sorted[i + 1..] && sorted[i..][0] == b;
      for k := 0 to |b.requirements|
        invariant forall u :: u in UsesOf(b, k) + Uses(sorted[i + 1..]) ==> Valid(u)
        invariant GroupAll(c, groups, UsesOf(b, k) + Uses(sorted[i + 1..])) == GroupAll(c, [], Uses(sorted))
      {
        var use := Use(b, k);
        ghost var rest := UsesOf(b, k + 1) + Uses(sorted[i + 1..]);
        assert UsesOf(b, k) + Uses(sorted[i + 1..]) == [use] + rest;
        assert ([use] + rest)[1..] == rest && ([use] + rest)[0] == use;
        var candidate := CandidateOf(c, use);
        if candidate.Bad? { return Rejected(candidate.problem); }
        groups := AddTo(groups, candidate);
      }
      assert UsesOf(b, |b.requirements|) + Uses(sorted[i + 1..]) == Uses(sorted[i + 1..]);
    }
    assert sorted[|sorted|..] == [];
    if |groups| > c.maximumRequests { return Rejected(TooManyRequests); }
    if TotalLimit(groups) > c.maximumTotal { return Rejected(BudgetExceeded); }
    return Compiled(Finish(c, groups));
  }
}
