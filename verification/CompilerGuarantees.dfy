/** Every need is placed exactly once, budgets hold, and the order of the bindings does not matter. */
module CompilerGuarantees {
  import opened Prelude
  import opened DependencyCompiler
  import E = HistoricalExecution

  // Counting

  function Occurrences(s: seq<E.Dependency>, d: E.Dependency): nat {
    if s == [] then 0 else (if s[0] == d then 1 else 0) + Occurrences(s[1..], d)
  }

  /** How often the needs put dependency `d` under `key`. */
  function Needs(c: Context, uses: seq<Use>, key: Key, d: E.Dependency): nat
    requires forall u :: u in uses ==> Valid(u)
  {
    if uses == [] then 0
    else
      assert uses[0] in uses;
      var candidate := CandidateOf(c, uses[0]);
      (if candidate.Candidate? && candidate.key == key && candidate.dependency == d then 1 else 0)
      + Needs(c, uses[1..], key, d)
  }

  /** The dependencies gathered under `key`; none when there is no such group. */
  function Under(groups: seq<Group>, key: Key): seq<E.Dependency> {
    var i := Position(groups, key);
    if i.None? then [] else groups[i.value].dependencies
  }

  ghost predicate DistinctKeys(groups: seq<Group>) {
    forall i, j :: 0 <= i < j < |groups| ==> groups[i].key != groups[j].key
  }

  lemma {:induction false} OccurrencesAppend(s: seq<E.Dependency>, e: E.Dependency, d: E.Dependency)
    ensures Occurrences(s + [e], d) == Occurrences(s, d) + (if e == d then 1 else 0)
  {
    if s == [] {
      assert s + [e] == [e] && [e][1..] == [];
    } else {
      assert (s + [e])[1..] == s[1..] + [e];
      OccurrencesAppend(s[1..], e, d);
    }
  }

  lemma PositionFinds(groups: seq<Group>, i: nat)
    requires i < |groups| && DistinctKeys(groups)
    ensures Position(groups, groups[i].key) == Some(i)
  {
  }

  lemma AddingKeepsKeys(groups: seq<Group>, candidate: Candidate)
    requires candidate.Candidate? && DistinctKeys(groups)
    ensures DistinctKeys(AddTo(groups, candidate))
  {
  }

  lemma AddingCounts(groups: seq<Group>, candidate: Candidate, key: Key, d: E.Dependency)
    requires candidate.Candidate? && DistinctKeys(groups)
    ensures Occurrences(Under(AddTo(groups, candidate), key), d) == Occurrences(Under(groups, key), d)
      + (if candidate.key == key && candidate.dependency == d then 1 else 0)
  {
    var next := AddTo(groups, candidate);
    AddingKeepsKeys(groups, candidate);
    var at := Position(groups, candidate.key);
    OccurrencesAppend(Under(groups, candidate.key), candidate.dependency, d);
    if at.None? {
      PositionFinds(next, |groups|);
      assert Under(next, candidate.key) == [candidate.dependency];
      assert [] + [candidate.dependency] == [candidate.dependency];
    } else {
      PositionFinds(next, at.value);
    }
    if key != candidate.key {
      var i := Position(groups, key);
      if i.Some? {
        assert next[i.value] == groups[i.value];
        PositionFinds(next, i.value);
      } else {
        KeyStaysAbsent(groups, candidate, key);
      }
    }
  }

  lemma KeyStaysAbsent(groups: seq<Group>, candidate: Candidate, key: Key)
    requires candidate.Candidate? && key != candidate.key && Position(groups, key).None?
    ensures Position(AddTo(groups, candidate), key).None?
  {
    var next := AddTo(groups, candidate);
    assert forall j :: 0 <= j < |next| ==>
      next[j].key == (if j < |groups| then groups[j].key else candidate.key);
  }

  lemma {:induction false} GroupingCounts(c: Context, groups: seq<Group>, uses: seq<Use>, key: Key, d: E.Dependency)
    requires (forall u :: u in uses ==> Valid(u)) && DistinctKeys(groups) && GroupAll(c, groups, uses).Grouped?
    ensures var end := GroupAll(c, groups, uses).groups;
      && DistinctKeys(end)
      && Occurrences(Under(end, key), d) == Occurrences(Under(groups, key), d) + Needs(c, uses, key, d)
    decreases |uses|
  {
    if uses != [] {
      assert uses[0] in uses;
      var candidate := CandidateOf(c, uses[0]);
      AddingKeepsKeys(groups, candidate);
      AddingCounts(groups, candidate, key, d);
      GroupingCounts(c, AddTo(groups, candidate), uses[1..], key, d);
    }
  }

  // Needs do not depend on the order of the bindings

  lemma {:induction false} NeedsAppend(c: Context, a: seq<Use>, b: seq<Use>, key: Key, d: E.Dependency)
    requires (forall u :: u in a ==> Valid(u)) && forall u :: u in b ==> Valid(u)
    ensures forall u :: u in a + b ==> Valid(u)
    ensures Needs(c, a + b, key, d) == Needs(c, a, key, d) + Needs(c, b, key, d)
  {
    if a == [] {
      assert a + b == b;
    } else {
      assert (a + b)[1..] == a[1..] + b && (a + b)[0] == a[0];
      NeedsAppend(c, a[1..], b, key, d);
    }
  }

  /** How often the bindings put dependency `d` under `key`. */
  function Asked(c: Context, bindings: seq<Binding>, key: Key, d: E.Dependency): nat {
    UsesAreValid(bindings);
    Needs(c, Uses(bindings), key, d)
  }

  lemma AskedAdds(c: Context, b: Binding, rest: seq<Binding>, key: Key, d: E.Dependency)
    ensures Asked(c, [b] + rest, key, d) == Asked(c, [b], key, d) + Asked(c, rest, key, d)
  {
    OwnUsesAreValid(b, 0);
    UsesAreValid(rest);
    assert ([b] + rest)[1..] == rest && [b][1..] == [];
    assert Uses([b]) == UsesOf(b, 0) + [] == UsesOf(b, 0);
    assert Uses([b] + rest) == UsesOf(b, 0) + Uses(rest);
    NeedsAppend(c, UsesOf(b, 0), Uses(rest), key, d);
  }

  lemma {:induction false} InsertKeepsAsked(c: Context, sorted: seq<Binding>, b: Binding, key: Key, d: E.Dependency)
    ensures Asked(c, InsertBinding(sorted, b), key, d) == Asked(c, [b], key, d) + Asked(c, sorted, key, d)
  {
    AskedAdds(c, b, sorted, key, d);
    if sorted != [] && Precedes(sorted[0], b) {
      InsertKeepsAsked(c, sorted[1..], b, key, d);
      AskedAdds(c, sorted[0], InsertBinding(sorted[1..], b), key, d);
      AskedAdds(c, sorted[0], sorted[1..], key, d);
      assert sorted == [sorted[0]] + sorted[1..];
    }
  }

  lemma {:induction false} SortKeepsAsked(c: Context, bindings: seq<Binding>, key: Key, d: E.Dependency)
    ensures Asked(c, SortBindings(bindings), key, d) == Asked(c, bindings, key, d)
  {
    if bindings != [] {
      SortKeepsAsked(c, bindings[1..], key, d);
      InsertKeepsAsked(c, SortBindings(bindings[1..]), bindings[0], key, d);
      AskedAdds(c, bindings[0], bindings[1..], key, d);
      assert bindings == [bindings[0]] + bindings[1..];
    }
  }

  // The finished requests

  lemma {:induction false} InsertDependencyCounts(sorted: seq<E.Dependency>, e: E.Dependency, d: E.Dependency)
    ensures Occurrences(InsertDependency(sorted, e), d) == Occurrences(sorted, d) + (if e == d then 1 else 0)
  {
    if sorted == [] || !E.Before(sorted[0], e) {
      assert ([e] + sorted)[1..] == sorted;
    } else {
      InsertDependencyCounts(sorted[1..], e, d);
      var rest := InsertDependency(sorted[1..], e);
      assert ([sorted[0]] + rest)[1..] == rest;
    }
  }

  lemma {:induction false} SortedDependenciesCount(s: seq<E.Dependency>, d: E.Dependency)
    ensures Occurrences(SortDependencies(s), d) == Occurrences(s, d)
  {
    if s != [] {
      SortedDependenciesCount(s[1..], d);
      InsertDependencyCounts(SortDependencies(s[1..]), s[0], d);
    }
  }

  lemma {:induction false} InsertRequestHolds(sorted: seq<Request>, q: Request)
    ensures |InsertRequest(sorted, q)| == |sorted| + 1
    ensures forall x :: x in InsertRequest(sorted, q) <==> x in sorted || x == q
  {
    if sorted != [] && Ahead(sorted[0], q) {
      InsertRequestHolds(sorted[1..], q);
      assert sorted == [sorted[0]] + sorted[1..];
    }
  }

  function FinishedOf(c: Context, g: Group): Request {
    Request(c.digest(g.key), g.(dependencies := SortDependencies(g.dependencies)))
  }

  lemma {:induction false} FinishHolds(c: Context, groups: seq<Group>)
    ensures |Finish(c, groups)| == |groups|
    ensures forall x :: x in Finish(c, groups) <==> exists g :: g in groups && x == FinishedOf(c, g)
  {
    if groups != [] {
      FinishHolds(c, groups[1..]);
      InsertRequestHolds(Finish(c, groups[1..]), FinishedOf(c, groups[0]));
      assert groups == [groups[0]] + groups[1..];
      forall x ensures x in Finish(c, groups) <==> exists g :: g in groups && x == FinishedOf(c, g) {
        if x in Finish(c, groups) {
          if x == FinishedOf(c, groups[0]) { assert groups[0] in groups; }
          else {
            var g :| g in groups[1..] && x == FinishedOf(c, g);
            assert g in groups;
          }
        }
        if exists g :: g in groups && x == FinishedOf(c, g) {
          var g :| g in groups && x == FinishedOf(c, g);
          assert g == groups[0] || g in groups[1..];
        }
      }
    }
  }

  ghost predicate OneRequestPerKey(s: seq<Request>) {
    forall i, j :: 0 <= i < j < |s| ==> s[i].group.key != s[j].group.key
  }

  lemma {:induction false} InsertKeepsKeysApart(sorted: seq<Request>, q: Request)
    requires OneRequestPerKey(sorted) && forall x :: x in sorted ==> x.group.key != q.group.key
    ensures OneRequestPerKey(InsertRequest(sorted, q))
  {
    if sorted == [] || !Ahead(sorted[0], q) {
      assert forall i :: 0 <= i < |sorted| ==> sorted[i].group.key != q.group.key;
    } else {
      assert sorted[0] in sorted && forall x :: x in sorted[1..] ==> x in sorted;
      InsertKeepsKeysApart(sorted[1..], q);
      InsertRequestHolds(sorted[1..], q);
      var rest := InsertRequest(sorted[1..], q);
      forall i | 0 <= i < |rest| ensures sorted[0].group.key != rest[i].group.key {
        assert rest[i] in rest;
        assert forall x :: x in sorted[1..] ==> x.group.key != sorted[0].group.key;
      }
    }
  }

  lemma {:induction false} FinishKeepsKeysApart(c: Context, groups: seq<Group>)
    requires DistinctKeys(groups)
    ensures OneRequestPerKey(Finish(c, groups))
  {
    if groups != [] {
      var rest := groups[1..];
      assert forall i :: 0 <= i < |rest| ==> rest[i] == groups[i + 1];
      FinishKeepsKeysApart(c, rest);
      FinishHolds(c, rest);
      forall x | x in Finish(c, rest) ensures x.group.key != groups[0].key {
        var g :| g in rest && x == FinishedOf(c, g);
        var i :| 0 <= i < |rest| && rest[i] == g;
        assert groups[i + 1].key != groups[0].key;
      }
      InsertKeepsKeysApart(Finish(c, rest), FinishedOf(c, groups[0]));
    }
  }

  ghost predicate InRequestOrder(s: seq<Request>) {
    forall i, j :: 0 <= i < j < |s| ==> !Ahead(s[j], s[i])
  }

  lemma {:induction false} InsertRequestSorts(sorted: seq<Request>, q: Request)
    requires InRequestOrder(sorted)
    ensures InRequestOrder(InsertRequest(sorted, q))
  {
    if sorted == [] {
    } else if !Ahead(sorted[0], q) {
      assert forall i :: 0 <= i < |sorted| ==> !Ahead(sorted[i], q);
    } else {
      InsertRequestSorts(sorted[1..], q);
      InsertRequestHolds(sorted[1..], q);
      var rest := InsertRequest(sorted[1..], q);
      forall i | 0 <= i < |rest| ensures !Ahead(rest[i], sorted[0]) {
        assert rest[i] in rest;
        assert forall x :: x in sorted[1..] ==> !Ahead(x, sorted[0]);
      }
    }
  }

  lemma {:induction false} FinishSorts(c: Context, groups: seq<Group>)
    ensures InRequestOrder(Finish(c, groups))
  {
    if groups != [] {
      FinishSorts(c, groups[1..]);
      InsertRequestSorts(Finish(c, groups[1..]), FinishedOf(c, groups[0]));
    }
  }

  // Placement

  /** Every need is placed exactly once, under its own key: in the request of each key each dependency
      occurs exactly as often as the bindings ask for it there, and no key has two requests. */
  lemma EveryNeedIsPlacedOnce(c: Context, bindings: seq<Binding>, key: Key, d: E.Dependency)
    requires Compile(c, bindings).Compiled?
    ensures var requests := Compile(c, bindings).requests;
      && (forall q :: q in requests && q.group.key == key ==>
            Occurrences(q.group.dependencies, d) == Asked(c, bindings, key, d) && q.id == c.digest(key))
      && (Asked(c, bindings, key, d) > 0 ==> exists q :: q in requests && q.group.key == key)
      && OneRequestPerKey(requests) && InRequestOrder(requests)
  {
    var sorted := SortBindings(bindings);
    UsesAreValid(sorted);
    var groups := GroupAll(c, [], Uses(sorted)).groups;
    GroupingCounts(c, [], Uses(sorted), key, d);
    SortKeepsAsked(c, bindings, key, d);
    FinishHolds(c, groups);
    FinishSorts(c, groups);
    FinishKeepsKeysApart(c, groups);
    forall q | q in Finish(c, groups) && q.group.key == key
      ensures Occurrences(q.group.dependencies, d) == Asked(c, bindings, key, d) && q.id == c.digest(key)
    {
      var g :| g in groups && q == FinishedOf(c, g);
      var i :| 0 <= i < |groups| && groups[i] == g;
      PositionFinds(groups, i);
      SortedDependenciesCount(g.dependencies, d);
    }
    if Asked(c, bindings, key, d) > 0 {
      var i := Position(groups, key);
      assert groups[i.value] in groups;
      assert FinishedOf(c, groups[i.value]) in Finish(c, groups);
    }
  }

  /** Different keys have different names, as the program's digest is meant to provide. */
  ghost predicate NamesKeysApart(c: Context) {
    forall k, m :: c.digest(k) == c.digest(m) ==> k == m
  }

  /** With names that tell keys apart, no two requests of a plan share an id, and the order of the plan
      is strict: by priority, then by id. */
  lemma RequestIdsAreDistinct(c: Context, bindings: seq<Binding>)
    requires Compile(c, bindings).Compiled? && NamesKeysApart(c)
    ensures var requests := Compile(c, bindings).requests;
      forall i, j :: 0 <= i < j < |requests| ==> requests[i].id != requests[j].id && Ahead(requests[i], requests[j])
  {
    var requests := Compile(c, bindings).requests;
    forall i, j | 0 <= i < j < |requests| ensures requests[i].id != requests[j].id && Ahead(requests[i], requests[j]) {
      var d := E.Dependency(0, 0, 0, 0, 0, 0);
      EveryNeedIsPlacedOnce(c, bindings, requests[i].group.key, d);
      EveryNeedIsPlacedOnce(c, bindings, requests[j].group.key, d);
      assert requests[i] in requests && requests[j] in requests;
    }
  }

  // Priorities and budgets

  /** Group `g` has the highest priority among the uses of its key, and its limit fits. */
  ghost predicate Priced(c: Context, seen: seq<Use>, g: Group) {
    && (forall u :: u in seen && Valid(u) && Contributes(c, u, g.key) ==> u.binding.priority <= g.priority)
    && (exists u :: u in seen && Valid(u) && Contributes(c, u, g.key) && u.binding.priority == g.priority)
    && g.key.limit <= c.maximumPerRequest
  }

  ghost predicate Contributes(c: Context, u: Use, key: Key)
    requires Valid(u)
  {
    CandidateOf(c, u).Candidate? && CandidateOf(c, u).key == key
  }

  ghost predicate AllPriced(c: Context, seen: seq<Use>, groups: seq<Group>) {
    && (forall g :: g in groups ==> Priced(c, seen, g))
    && (forall u :: u in seen && Valid(u) && CandidateOf(c, u).Candidate? ==>
          Position(groups, CandidateOf(c, u).key).Some?)
  }

  lemma AddingPrices(c: Context, seen: seq<Use>, groups: seq<Group>, u: Use)
    requires Valid(u) && CandidateOf(c, u).Candidate? && AllPriced(c, seen, groups) && DistinctKeys(groups)
    ensures AllPriced(c, seen + [u], AddTo(groups, CandidateOf(c, u)))
  {
    var candidate := CandidateOf(c, u);
    var next := AddTo(groups, candidate);
    var more := seen + [u];
    var at := Position(groups, candidate.key);
    AddingKeepsKeys(groups, candidate);
    forall g | g in next ensures Priced(c, more, g) {
      var i :| 0 <= i < |next| && next[i] == g;
      if i < |groups| && (at.None? || i != at.value) {
        assert groups[i] in groups && Priced(c, seen, groups[i]);
        OthersStayPriced(c, seen, u, g);
      } else if at.Some? {
        assert groups[i] in groups && Priced(c, seen, groups[i]);
        JoinedIsPriced(c, seen, u, groups[i], g);
      } else {
        assert forall v :: v in seen && Valid(v) && CandidateOf(c, v).Candidate? ==> CandidateOf(c, v).key != candidate.key;
        assert u in more;
      }
    }
    forall v | v in more && Valid(v) && CandidateOf(c, v).Candidate? ensures Position(next, CandidateOf(c, v).key).Some? {
      var key := CandidateOf(c, v).key;
      if key == candidate.key {
        PositionFinds(next, if at.Some? then at.value else |groups|);
      } else {
        var j := Position(groups, key).value;
        assert next[j] == groups[j];
        PositionFinds(next, j);
      }
    }
  }

  lemma OthersStayPriced(c: Context, seen: seq<Use>, u: Use, g: Group)
    requires Valid(u) && Priced(c, seen, g) && !Contributes(c, u, g.key)
    ensures Priced(c, seen + [u], g)
  {
    var v :| v in seen && Valid(v) && Contributes(c, v, g.key) && v.binding.priority == g.priority;
    assert v in seen + [u];
  }

  lemma JoinedIsPriced(c: Context, seen: seq<Use>, u: Use, before: Group, g: Group)
    requires Valid(u) && Priced(c, seen, before) && Contributes(c, u, g.key) && g.key == before.key
    requires g.priority == Max(before.priority, u.binding.priority)
    ensures Priced(c, seen + [u], g)
  {
    var v :| v in seen && Valid(v) && Contributes(c, v, g.key) && v.binding.priority == before.priority;
    var more := seen + [u];
    assert v in more && u in more;
    assert if before.priority < u.binding.priority then u.binding.priority == g.priority else v.binding.priority == g.priority;
  }

  lemma {:induction false} GroupingPrices(c: Context, seen: seq<Use>, groups: seq<Group>, uses: seq<Use>)
    requires (forall u :: u in uses ==> Valid(u)) && DistinctKeys(groups) && AllPriced(c, seen, groups)
    requires GroupAll(c, groups, uses).Grouped?
    ensures AllPriced(c, seen + uses, GroupAll(c, groups, uses).groups)
    decreases |uses|
  {
    if uses == [] {
      assert seen + uses == seen;
    } else {
      assert uses[0] in uses;
      hide AllPriced, AddTo, CandidateOf, DistinctKeys;
      AddingPrices(c, seen, groups, uses[0]);
      AddingKeepsKeys(groups, CandidateOf(c, uses[0]));
      GroupingPrices(c, seen + [uses[0]], AddTo(groups, CandidateOf(c, uses[0])), uses[1..]);
      assert seen + [uses[0]] + uses[1..] == seen + uses;
    }
  }

  function TotalOf(requests: seq<Request>): int {
    if requests == [] then 0 else requests[0].group.key.limit + TotalOf(requests[1..])
  }

  lemma {:induction false} InsertRequestTotals(sorted: seq<Request>, q: Request)
    ensures TotalOf(InsertRequest(sorted, q)) == TotalOf(sorted) + q.group.key.limit
  {
    if sorted == [] || !Ahead(sorted[0], q) {
      assert ([q] + sorted)[1..] == sorted;
    } else {
      InsertRequestTotals(sorted[1..], q);
      var rest := InsertRequest(sorted[1..], q);
      assert ([sorted[0]] + rest)[1..] == rest;
    }
  }

  lemma {:induction false} FinishTotals(c: Context, groups: seq<Group>)
    ensures TotalOf(Finish(c, groups)) == TotalLimit(groups)
  {
    if groups != [] {
      FinishTotals(c, groups[1..]);
      InsertRequestTotals(Finish(c, groups[1..]), FinishedOf(c, groups[0]));
    }
  }

  /** A compiled plan respects all three budgets, and each request has the highest priority among the
      needs it serves. */
  lemma PlansAreWithinBudget(c: Context, bindings: seq<Binding>)
    requires Compile(c, bindings).Compiled?
    ensures var requests := Compile(c, bindings).requests;
      && |requests| <= c.maximumRequests && TotalOf(requests) <= c.maximumTotal
      && forall q :: q in requests ==>
           q.group.key.limit <= c.maximumPerRequest && Priced(c, Uses(SortBindings(bindings)), q.group)
  {
    var sorted := SortBindings(bindings);
    UsesAreValid(sorted);
    var groups := GroupAll(c, [], Uses(sorted)).groups;
    GroupingPrices(c, [], [], Uses(sorted));
    assert [] + Uses(sorted) == Uses(sorted);
    FinishHolds(c, groups);
    FinishTotals(c, groups);
    forall q | q in Finish(c, groups)
      ensures q.group.key.limit <= c.maximumPerRequest && Priced(c, Uses(sorted), q.group)
    {
      var g :| g in groups && q == FinishedOf(c, g);
      assert Priced(c, Uses(sorted), g);
      SamePriceSame(c, Uses(sorted), g, q.group);
    }
  }

  lemma SamePriceSame(c: Context, seen: seq<Use>, g: Group, h: Group)
    requires Priced(c, seen, g) && h.key == g.key && h.priority == g.priority
    ensures Priced(c, seen, h)
  {
  }

  // Order of the bindings

  ghost predicate DistinctSortKeys(bindings: seq<Binding>) {
    forall i, j :: 0 <= i < j < |bindings| ==> !SameSortKey(bindings[i], bindings[j])
  }

  ghost predicate Sorted(bindings: seq<Binding>) {
    forall i, j :: 0 <= i < j < |bindings| ==> Precedes(bindings[i], bindings[j])
  }

  lemma {:induction false} InsertBindingHolds(sorted: seq<Binding>, b: Binding)
    ensures |InsertBinding(sorted, b)| == |sorted| + 1
    ensures forall x :: x in InsertBinding(sorted, b) <==> x in sorted || x == b
  {
    if sorted != [] && Precedes(sorted[0], b) {
      InsertBindingHolds(sorted[1..], b);
      assert sorted == [sorted[0]] + sorted[1..];
    }
  }

  lemma {:induction false} SortBindingsHolds(bindings: seq<Binding>)
    ensures |SortBindings(bindings)| == |bindings|
    ensures forall x :: x in SortBindings(bindings) <==> x in bindings
  {
    if bindings != [] {
      SortBindingsHolds(bindings[1..]);
      InsertBindingHolds(SortBindings(bindings[1..]), bindings[0]);
      assert bindings == [bindings[0]] + bindings[1..];
    }
  }

  lemma {:induction false} InsertBindingSorts(sorted: seq<Binding>, b: Binding)
    requires Sorted(sorted) && forall x :: x in sorted ==> !SameSortKey(x, b)
    ensures Sorted(InsertBinding(sorted, b))
  {
    if sorted == [] {
    } else if !Precedes(sorted[0], b) {
      assert sorted[0] in sorted && Precedes(b, sorted[0]);
      assert forall i :: 0 <= i < |sorted| ==> Precedes(b, sorted[i]);
    } else {
      assert forall x :: x in sorted[1..] ==> x in sorted;
      InsertBindingSorts(sorted[1..], b);
      InsertBindingHolds(sorted[1..], b);
      var rest := InsertBinding(sorted[1..], b);
      forall i | 0 <= i < |rest| ensures Precedes(sorted[0], rest[i]) {
        assert rest[i] in rest;
        assert forall x :: x in sorted[1..] ==> Precedes(sorted[0], x);
      }
    }
  }

  lemma {:induction false} SortBindingsSorts(bindings: seq<Binding>)
    requires DistinctSortKeys(bindings)
    ensures Sorted(SortBindings(bindings))
  {
    if bindings != [] {
      var rest := bindings[1..];
      assert forall i :: 0 <= i < |rest| ==> rest[i] == bindings[i + 1];
      SortBindingsSorts(rest);
      SortBindingsHolds(rest);
      InsertBindingSorts(SortBindings(rest), bindings[0]);
    }
  }

  lemma {:induction false} SortedIsDetermined(a: seq<Binding>, b: seq<Binding>)
    requires Sorted(a) && Sorted(b) && |a| == |b| && forall x :: x in a <==> x in b
    ensures a == b
  {
    if a != [] {
      assert a[0] in b && b[0] in a;
      assert a[0] == b[0];
      forall x ensures x in a[1..] <==> x in b[1..] {
        assert x in a[1..] <==> x in a && x != a[0];
        assert x in b[1..] <==> x in b && x != b[0];
      }
      SortedIsDetermined(a[1..], b[1..]);
      assert a == [a[0]] + a[1..] && b == [b[0]] + b[1..];
    }
  }

  /** Bindings with distinct sort keys compile to the same plan, or to the same refusal, in any order. */
  lemma OrderOfBindingsIsIrrelevant(c: Context, a: seq<Binding>, b: seq<Binding>)
    requires DistinctSortKeys(a) && DistinctSortKeys(b) && |a| == |b| && forall x :: x in a <==> x in b
    ensures Compile(c, a) == Compile(c, b)
  {
    SortBindingsSorts(a);
    SortBindingsSorts(b);
    SortBindingsHolds(a);
    SortBindingsHolds(b);
    SortedIsDetermined(SortBindings(a), SortBindings(b));
  }
}
