/** What each request of a plan asks for, told by the requirements and the resolved windows; and exactly
    when there is no plan. */
module PlanContents {
  import opened Prelude
  import opened DependencyCompiler
  import opened CompilerGuarantees
  import E = HistoricalExecution

  /** The requirement `k` of binding `b` has a window, and asks for no more than a request may. */
  predicate Resolvable(c: Context, b: Binding, k: nat) {
    && k < |b.requirements| && b.requirements[k].maximum <= c.maximumPerRequest
    && (b.instrument, b.requirements[k].window) in c.bounds
  }

  /** The key asks for what the requirement does, over its resolved window. */
  predicate AsksFor(c: Context, b: Binding, k: nat, key: Key) {
    && Resolvable(c, b, k)
    && var need := b.requirements[k]; var span := c.bounds[(b.instrument, need.window)];
       && key.instrument == b.instrument && key.kind == need.kind && key.selector == need.selector
       && key.start == span.start && key.end == span.end && key.limit == need.maximum
       && key.parameters == need.parameters
  }

  /** The dependency is that of the requirement. */
  predicate StandsFor(b: Binding, k: nat, d: E.Dependency) {
    && k < |b.requirements|
    && d.consumer == b.consumer && d.capability == b.capability && d.version == b.version && d.index == k
    && d.minimum == b.requirements[k].minimum && d.purpose == b.purpose
  }

  /** Some requirement of the bindings asks for the key and is what the dependency stands for. */
  ghost predicate Needed(c: Context, bindings: seq<Binding>, key: Key, d: E.Dependency) {
    exists b: Binding, k: nat :: b in bindings && AsksFor(c, b, k, key) && StandsFor(b, k, d)
  }

  lemma CandidateMeans(c: Context, u: Use)
    requires Valid(u)
    ensures CandidateOf(c, u).Candidate? <==> Resolvable(c, u.binding, u.index)
    ensures CandidateOf(c, u).Candidate? ==>
      var candidate := CandidateOf(c, u);
      && (forall key :: AsksFor(c, u.binding, u.index, key) <==> key == candidate.key)
      && (forall d :: StandsFor(u.binding, u.index, d) <==> d == candidate.dependency)
      && candidate.window == u.binding.requirements[u.index].window && candidate.priority == u.binding.priority
    ensures CandidateOf(c, u).Bad? ==>
      CandidateOf(c, u).problem ==
        if u.binding.requirements[u.index].maximum > c.maximumPerRequest then TooManyObservations else UnresolvedWindow
  {
  }

  // Uses

  lemma {:induction false} OwnUses(b: Binding, from: nat)
    requires from <= |b.requirements|
    ensures forall u :: u in UsesOf(b, from) <==> u.binding == b && from <= u.index < |b.requirements|
    decreases |b.requirements| - from
  {
    if from < |b.requirements| {
      OwnUses(b, from + 1);
      assert forall u :: u in UsesOf(b, from) <==> u == Use(b, from) || u in UsesOf(b, from + 1);
    }
  }

  lemma {:induction false} UsesAreAll(bindings: seq<Binding>)
    ensures forall u :: u in Uses(bindings) <==> u.binding in bindings && Valid(u)
  {
    if bindings != [] {
      OwnUses(bindings[0], 0);
      UsesAreAll(bindings[1..]);
      assert forall b :: b in bindings <==> b == bindings[0] || b in bindings[1..];
    }
  }

  lemma SortedUses(bindings: seq<Binding>)
    ensures forall u :: u in Uses(SortBindings(bindings)) <==> u.binding in bindings && Valid(u)
  {
    SortBindingsHolds(bindings);
    UsesAreAll(SortBindings(bindings));
  }

  /** The use puts its dependency under the key. */
  ghost predicate Puts(c: Context, u: Use, key: Key, d: E.Dependency) {
    Valid(u) && AsksFor(c, u.binding, u.index, key) && StandsFor(u.binding, u.index, d)
  }

  lemma NeededMeansPut(c: Context, bindings: seq<Binding>, key: Key, d: E.Dependency)
    ensures Needed(c, bindings, key, d) <==> exists u :: u in Uses(SortBindings(bindings)) && Puts(c, u, key, d)
  {
    SortedUses(bindings);
    if Needed(c, bindings, key, d) {
      var b: Binding, k: nat :| b in bindings && AsksFor(c, b, k, key) && StandsFor(b, k, d);
      assert Puts(c, Use(b, k), key, d);
    }
    if u :| u in Uses(SortBindings(bindings)) && Puts(c, u, key, d) {
      assert AsksFor(c, u.binding, u.index, key) && StandsFor(u.binding, u.index, d);
    }
  }

  // Groups

  /** The group holds exactly the dependencies the uses put under its key, and some use gave it its window. */
  ghost predicate Filled(c: Context, seen: seq<Use>, g: Group) {
    && (forall d :: d in g.dependencies <==> exists u :: u in seen && Puts(c, u, g.key, d))
    && g.dependencies != []
    && exists u :: u in seen && Valid(u) && AsksFor(c, u.binding, u.index, g.key)
                   && u.binding.requirements[u.index].window == g.window
  }

  /** Every use so far has its group, and every group is filled by them. */
  ghost predicate AllFilled(c: Context, seen: seq<Use>, groups: seq<Group>) {
    && DistinctKeys(groups)
    && (forall i :: 0 <= i < |groups| ==> Filled(c, seen, groups[i]))
    && (forall u :: u in seen ==>
          Valid(u) && Resolvable(c, u.binding, u.index)
          && exists i :: 0 <= i < |groups| && AsksFor(c, u.binding, u.index, groups[i].key))
  }

  lemma PutsMeans(c: Context, u: Use, key: Key, d: E.Dependency)
    requires Valid(u) && CandidateOf(c, u).Candidate?
    ensures Puts(c, u, key, d) <==> key == CandidateOf(c, u).key && d == CandidateOf(c, u).dependency
  {
    CandidateMeans(c, u);
  }

  /** A group that the next use does not ask for stays as it was filled. */
  lemma OthersStayFilled(c: Context, seen: seq<Use>, u: Use, g: Group)
    requires Filled(c, seen, g) && Valid(u) && CandidateOf(c, u).Candidate? && CandidateOf(c, u).key != g.key
    ensures Filled(c, seen + [u], g)
  {
    forall d ensures d in g.dependencies <==> exists v :: v in seen + [u] && Puts(c, v, g.key, d) {
      PutsMeans(c, u, g.key, d);
      if v :| v in seen && Puts(c, v, g.key, d) { assert v in seen + [u]; }
    }
    var v :| v in seen && Valid(v) && AsksFor(c, v.binding, v.index, g.key)
      && v.binding.requirements[v.index].window == g.window;
    assert v in seen + [u];
  }

  /** The group that the next use asks for gains its dependency. */
  lemma JoinedIsFilled(c: Context, seen: seq<Use>, u: Use, g: Group, h: Group)
    requires Filled(c, seen, g) && Valid(u) && CandidateOf(c, u).Candidate? && CandidateOf(c, u).key == g.key
    requires h.key == g.key && h.window == g.window && h.dependencies == g.dependencies + [CandidateOf(c, u).dependency]
    ensures Filled(c, seen + [u], h)
  {
    forall d ensures d in h.dependencies <==> exists v :: v in seen + [u] && Puts(c, v, h.key, d) {
      PutsMeans(c, u, h.key, d);
      assert u in seen + [u];
      if v :| v in seen && Puts(c, v, h.key, d) { assert v in seen + [u]; }
    }
    var v :| v in seen && Valid(v) && AsksFor(c, v.binding, v.index, g.key)
      && v.binding.requirements[v.index].window == g.window;
    assert v in seen + [u];
  }

  lemma FirstIsFilled(c: Context, seen: seq<Use>, u: Use, g: Group)
    requires Valid(u) && CandidateOf(c, u).Candidate?
    requires var candidate := CandidateOf(c, u);
      g.key == candidate.key && g.window == candidate.window && g.dependencies == [candidate.dependency]
    requires forall v :: v in seen ==> Valid(v) && !AsksFor(c, v.binding, v.index, g.key)
    ensures Filled(c, seen + [u], g)
  {
    CandidateMeans(c, u);
    assert u in seen + [u];
    forall d ensures d in g.dependencies <==> exists v :: v in seen + [u] && Puts(c, v, g.key, d) {
      PutsMeans(c, u, g.key, d);
    }
  }

  lemma OneKey(c: Context, b: Binding, k: nat, x: Key, y: Key)
    ensures AsksFor(c, b, k, x) && AsksFor(c, b, k, y) ==> x == y
  {
  }

  lemma GroupsStayFilled(c: Context, seen: seq<Use>, groups: seq<Group>, u: Use, i: nat)
    requires AllFilled(c, seen, groups) && Valid(u) && CandidateOf(c, u).Candidate?
    requires i < |AddTo(groups, CandidateOf(c, u))|
    ensures Filled(c, seen + [u], AddTo(groups, CandidateOf(c, u))[i])
  {
    hide Filled, AsksFor, CandidateOf;
    var candidate := CandidateOf(c, u);
    var next := AddTo(groups, candidate);
    var at := Position(groups, candidate.key);
    if at.None? && i == |groups| {
      forall v | v in seen ensures Valid(v) && !AsksFor(c, v.binding, v.index, candidate.key) {
        NobodyAsked(c, groups, v, candidate.key);
      }
      FirstIsFilled(c, seen, u, next[i]);
    } else if at == Some(i) {
      JoinedIsFilled(c, seen, u, groups[i], next[i]);
    } else {
      OtherGroup(groups, candidate, i);
      OthersStayFilled(c, seen, u, groups[i]);
    }
  }

  lemma OtherGroup(groups: seq<Group>, candidate: Candidate, i: nat)
    requires candidate.Candidate? && DistinctKeys(groups) && i < |AddTo(groups, candidate)|
    requires Position(groups, candidate.key) != Some(i) && (Position(groups, candidate.key).None? ==> i < |groups|)
    ensures i < |groups| && AddTo(groups, candidate)[i] == groups[i] && groups[i].key != candidate.key
  {
  }

  lemma UseIsGrouped(c: Context, seen: seq<Use>, groups: seq<Group>, u: Use, v: Use)
    requires AllFilled(c, seen, groups) && Valid(u) && CandidateOf(c, u).Candidate? && v in seen + [u]
    ensures Valid(v) && Resolvable(c, v.binding, v.index)
    ensures var next := AddTo(groups, CandidateOf(c, u));
      exists i :: 0 <= i < |next| && AsksFor(c, v.binding, v.index, next[i].key)
  {
    hide Filled, AsksFor, CandidateOf, Resolvable;
    var candidate := CandidateOf(c, u);
    var next := AddTo(groups, candidate);
    CandidateMeans(c, u);
    KeysStay(groups, candidate);
    if v in seen {
      var i :| 0 <= i < |groups| && AsksFor(c, v.binding, v.index, groups[i].key);
      assert next[i].key == groups[i].key;
    } else {
      var at := Position(groups, candidate.key);
      var i := if at.None? then |groups| else at.value;
      assert next[i].key == candidate.key;
    }
  }

  lemma AddingFills(c: Context, seen: seq<Use>, groups: seq<Group>, u: Use)
    requires AllFilled(c, seen, groups) && Valid(u) && CandidateOf(c, u).Candidate?
    ensures AllFilled(c, seen + [u], AddTo(groups, CandidateOf(c, u)))
  {
    var next := AddTo(groups, CandidateOf(c, u));
    AddingKeepsKeys(groups, CandidateOf(c, u));
    forall i | 0 <= i < |next| ensures Filled(c, seen + [u], next[i]) {
      GroupsStayFilled(c, seen, groups, u, i);
    }
    forall v | v in seen + [u]
      ensures Valid(v) && Resolvable(c, v.binding, v.index)
      ensures exists i :: 0 <= i < |next| && AsksFor(c, v.binding, v.index, next[i].key)
    {
      UseIsGrouped(c, seen, groups, u, v);
    }
    hide Filled, AsksFor, CandidateOf, Resolvable, AddTo;
  }

  lemma KeysStay(groups: seq<Group>, candidate: Candidate)
    requires candidate.Candidate?
    ensures |groups| <= |AddTo(groups, candidate)|
    ensures forall i :: 0 <= i < |groups| ==> AddTo(groups, candidate)[i].key == groups[i].key
  {
  }

  lemma NobodyAsked(c: Context, groups: seq<Group>, v: Use, key: Key)
    requires Position(groups, key).None?
    requires exists i :: 0 <= i < |groups| && AsksFor(c, v.binding, v.index, groups[i].key)
    ensures !AsksFor(c, v.binding, v.index, key)
  {
    var i :| 0 <= i < |groups| && AsksFor(c, v.binding, v.index, groups[i].key);
    OneKey(c, v.binding, v.index, key, groups[i].key);
  }

  lemma OneByOne(seen: seq<Use>, u: Use, rest: seq<Use>)
    ensures seen + [u] + rest == seen + ([u] + rest)
    ensures forall v :: v in [u] + rest <==> v == u || v in rest
  {
  }

  lemma {:induction false} GroupingFills(c: Context, seen: seq<Use>, groups: seq<Group>, uses: seq<Use>)
    requires AllFilled(c, seen, groups) && forall u :: u in uses ==> Valid(u)
    ensures GroupAll(c, groups, uses).Grouped? ==> AllFilled(c, seen + uses, GroupAll(c, groups, uses).groups)
    ensures GroupAll(c, groups, uses).Grouped? <==> forall u :: u in uses ==> Resolvable(c, u.binding, u.index)
    ensures GroupAll(c, groups, uses).Failed? ==>
      var problem := GroupAll(c, groups, uses).problem;
      && problem in {TooManyObservations, UnresolvedWindow}
      && exists u :: u in uses && CandidateOf(c, u) == Bad(problem)
    decreases |uses|
  {
    if uses == [] {
      assert seen + uses == seen;
    } else {
      var u := uses[0];
      assert u in uses;
      CandidateMeans(c, u);
      OneByOne(seen, u, uses[1..]);
      assert uses == [u] + uses[1..];
      hide AllFilled, Resolvable, CandidateOf, AddTo;
      if CandidateOf(c, u).Candidate? {
        AddingFills(c, seen, groups, u);
        GroupingFills(c, seen + [u], AddTo(groups, CandidateOf(c, u)), uses[1..]);
      }
    }
  }

  // Plans

  /** The keys the requirements ask for. */
  ghost function KeysAsked(c: Context, bindings: seq<Binding>): (keys: set<Key>)
    ensures forall key :: key in keys <==> exists b: Binding, k: nat :: b in bindings && AsksFor(c, b, k, key)
  {
    var keys := set u | u in Uses(bindings) && Valid(u) && CandidateOf(c, u).Candidate? :: CandidateOf(c, u).key;
    UsesAreAll(bindings);
    assert forall key :: key in keys <==> exists b: Binding, k: nat :: b in bindings && AsksFor(c, b, k, key) by {
      forall key ensures key in keys <==> exists b: Binding, k: nat :: b in bindings && AsksFor(c, b, k, key) {
        if key in keys {
          var u :| u in Uses(bindings) && Valid(u) && CandidateOf(c, u).Candidate? && CandidateOf(c, u).key == key;
          CandidateMeans(c, u);
          assert AsksFor(c, u.binding, u.index, key);
        }
        if b: Binding, k: nat :| b in bindings && AsksFor(c, b, k, key) {
          CandidateMeans(c, Use(b, k));
        }
      }
    }
    keys
  }

  /** Every requirement has a window and asks for no more than a request may. */
  ghost predicate AllResolvable(c: Context, bindings: seq<Binding>) {
    forall b, k: nat :: b in bindings && k < |b.requirements| ==> Resolvable(c, b, k)
  }

  ghost function LimitSum(keys: set<Key>): int
    decreases |keys|
  {
    if keys == {} then 0 else var key :| key in keys; key.limit + LimitSum(keys - {key})
  }

  lemma {:induction false} SumWithout(keys: set<Key>, key: Key)
    requires key in keys
    ensures LimitSum(keys) == key.limit + LimitSum(keys - {key})
    decreases |keys|
  {
    var first :| first in keys && LimitSum(keys) == first.limit + LimitSum(keys - {first});
    if first != key {
      SumWithout(keys - {first}, key);
      SumWithout(keys - {key}, first);
      assert keys - {first} - {key} == keys - {key} - {first};
    }
  }

  function KeySet(groups: seq<Group>): set<Key> {
    set g | g in groups :: g.key
  }

  lemma FirstKeyIsNew(groups: seq<Group>)
    requires groups != [] && DistinctKeys(groups)
    ensures DistinctKeys(groups[1..]) && groups[0].key !in KeySet(groups[1..])
    ensures KeySet(groups) == KeySet(groups[1..]) + {groups[0].key}
  {
    var rest := groups[1..];
    assert forall i :: 0 <= i < |rest| ==> rest[i] == groups[i + 1];
    assert forall g :: g in groups <==> g == groups[0] || g in rest;
  }

  lemma {:induction false} KeysAreCounted(groups: seq<Group>)
    requires DistinctKeys(groups)
    ensures |KeySet(groups)| == |groups| && LimitSum(KeySet(groups)) == TotalLimit(groups)
  {
    if groups == [] {
      assert KeySet(groups) == {};
    } else {
      FirstKeyIsNew(groups);
      hide DistinctKeys, KeySet, LimitSum;
      KeysAreCounted(groups[1..]);
      SumWithout(KeySet(groups), groups[0].key);
      assert KeySet(groups) - {groups[0].key} == KeySet(groups[1..]);
    }
  }

  /** The groups of all needs, once they can be formed. */
  lemma GroupsOfAll(c: Context, bindings: seq<Binding>)
    ensures forall u :: u in Uses(SortBindings(bindings)) ==> Valid(u)
    ensures var grouping := GroupAll(c, [], Uses(SortBindings(bindings)));
      && (grouping.Grouped? <==> AllResolvable(c, bindings))
      && (grouping.Grouped? ==>
            AllFilled(c, Uses(SortBindings(bindings)), grouping.groups) && KeySet(grouping.groups) == KeysAsked(c, bindings))
      && (grouping.Failed? ==> grouping.problem in {TooManyObservations, UnresolvedWindow})
  {
    var uses := Uses(SortBindings(bindings));
    SortedUses(bindings);
    GroupingFills(c, [], [], uses);
    assert [] + uses == uses;
    ResolvableUses(c, bindings);
    var grouping := GroupAll(c, [], uses);
    if grouping.Grouped? { KeysOfGroups(c, bindings, grouping.groups); }
  }

  lemma ResolvableUses(c: Context, bindings: seq<Binding>)
    ensures (forall u :: u in Uses(SortBindings(bindings)) ==> Resolvable(c, u.binding, u.index)) <==>
            AllResolvable(c, bindings)
  {
    SortedUses(bindings);
    if forall u :: u in Uses(SortBindings(bindings)) ==> Resolvable(c, u.binding, u.index) {
      forall b, k: nat | b in bindings && k < |b.requirements| ensures Resolvable(c, b, k) {
        assert Use(b, k) in Uses(SortBindings(bindings));
      }
    }
  }

  lemma GroupKeyIsAsked(c: Context, bindings: seq<Binding>, g: Group)
    requires Filled(c, Uses(SortBindings(bindings)), g)
    ensures g.key in KeysAsked(c, bindings)
  {
    hide KeysAsked, AsksFor;
    SortedUses(bindings);
    var u :| u in Uses(SortBindings(bindings)) && Valid(u) && AsksFor(c, u.binding, u.index, g.key);
    assert u.binding in bindings;
  }

  lemma AskedKeyIsGrouped(c: Context, bindings: seq<Binding>, groups: seq<Group>, b: Binding, k: nat, key: Key)
    requires AllFilled(c, Uses(SortBindings(bindings)), groups) && b in bindings && AsksFor(c, b, k, key)
    ensures key in KeySet(groups)
  {
    hide Filled;
    SortedUses(bindings);
    assert Use(b, k) in Uses(SortBindings(bindings));
    var i :| 0 <= i < |groups| && AsksFor(c, b, k, groups[i].key);
    OneKey(c, b, k, key, groups[i].key);
    assert groups[i] in groups;
  }

  lemma KeysOfGroups(c: Context, bindings: seq<Binding>, groups: seq<Group>)
    requires AllFilled(c, Uses(SortBindings(bindings)), groups)
    ensures KeySet(groups) == KeysAsked(c, bindings)
  {
    hide AsksFor, Filled, KeysAsked, Uses, SortBindings;
    forall key | key in KeySet(groups) ensures key in KeysAsked(c, bindings) {
      var i :| 0 <= i < |groups| && groups[i].key == key;
      GroupKeyIsAsked(c, bindings, groups[i]);
    }
    forall key | key in KeysAsked(c, bindings) ensures key in KeySet(groups) {
      var b: Binding, k: nat :| b in bindings && AsksFor(c, b, k, key);
      AskedKeyIsGrouped(c, bindings, groups, b, k, key);
    }
  }

  /** Exactly when there is a plan, and why there is none. */
  lemma PlanIff(c: Context, bindings: seq<Binding>)
    ensures var plan := Compile(c, bindings); var keys := KeysAsked(c, bindings);
      && (plan.Compiled? <==>
            AllResolvable(c, bindings) && |keys| <= c.maximumRequests && LimitSum(keys) <= c.maximumTotal)
      && (plan == Rejected(TooManyRequests) <==> AllResolvable(c, bindings) && |keys| > c.maximumRequests)
      && (plan == Rejected(BudgetExceeded) <==>
            AllResolvable(c, bindings) && |keys| <= c.maximumRequests && LimitSum(keys) > c.maximumTotal)
  {
    GroupsOfAll(c, bindings);
    hide AllFilled, GroupAll, KeysAsked, AllResolvable, LimitSum, Finish;
    var grouping := GroupAll(c, [], Uses(SortBindings(bindings)));
    if grouping.Grouped? {
      FilledAreDistinct(c, Uses(SortBindings(bindings)), grouping.groups);
      KeysAreCounted(grouping.groups);
    }
  }

  lemma FilledAreDistinct(c: Context, seen: seq<Use>, groups: seq<Group>)
    requires AllFilled(c, seen, groups)
    ensures DistinctKeys(groups)
  {
  }

  /** The request of a filled group: exactly the needed dependencies, under the key they ask for. */
  ghost predicate Follows(c: Context, bindings: seq<Binding>, q: Request) {
    && q.id == c.digest(q.group.key) && q.group.dependencies != []
    && (forall d :: d in q.group.dependencies <==> Needed(c, bindings, q.group.key, d))
    && exists b: Binding, k: nat :: b in bindings && AsksFor(c, b, k, q.group.key) && b.requirements[k].window == q.group.window
  }

  lemma FilledFollows(c: Context, bindings: seq<Binding>, g: Group)
    requires Filled(c, Uses(SortBindings(bindings)), g)
    ensures Follows(c, bindings, FinishedOf(c, g))
  {
    var q := FinishedOf(c, g);
    SortedUses(bindings);
    SortedDependenciesHold(g.dependencies);
    forall d ensures d in q.group.dependencies <==> Needed(c, bindings, q.group.key, d) {
      NeededMeansPut(c, bindings, g.key, d);
    }
    var u :| u in Uses(SortBindings(bindings)) && Valid(u) && AsksFor(c, u.binding, u.index, g.key)
      && u.binding.requirements[u.index].window == g.window;
    assert u.binding in bindings;
  }

  lemma {:induction false} InsertedDependencyHolds(sorted: seq<E.Dependency>, e: E.Dependency)
    ensures forall d :: d in InsertDependency(sorted, e) <==> d == e || d in sorted
  {
    if sorted != [] && E.Before(sorted[0], e) {
      InsertedDependencyHolds(sorted[1..], e);
      assert forall d :: d in sorted <==> d == sorted[0] || d in sorted[1..];
    }
  }

  lemma {:induction false} SortedDependenciesHold(s: seq<E.Dependency>)
    ensures forall d :: d in SortDependencies(s) <==> d in s
    ensures s != [] ==> SortDependencies(s) != []
  {
    if s != [] {
      SortedDependenciesHold(s[1..]);
      InsertedDependencyHolds(SortDependencies(s[1..]), s[0]);
      assert s[0] in SortDependencies(s);
    }
  }

  /** Some request of the plan asks for what the requirement does. */
  ghost predicate Served(c: Context, requests: seq<Request>, b: Binding, k: nat) {
    exists q :: q in requests && AsksFor(c, b, k, q.group.key)
  }

  lemma GroupedIsServed(c: Context, seen: seq<Use>, groups: seq<Group>, u: Use)
    requires AllFilled(c, seen, groups) && u in seen
    ensures Served(c, Finish(c, groups), u.binding, u.index)
  {
    hide Filled, AsksFor;
    FinishHolds(c, groups);
    var i :| 0 <= i < |groups| && AsksFor(c, u.binding, u.index, groups[i].key);
    assert groups[i] in groups && FinishedOf(c, groups[i]) in Finish(c, groups);
  }

  lemma FinishedFollow(c: Context, bindings: seq<Binding>, groups: seq<Group>, q: Request)
    requires AllFilled(c, Uses(SortBindings(bindings)), groups) && q in Finish(c, groups)
    ensures Follows(c, bindings, q)
  {
    hide Filled, Follows;
    FinishHolds(c, groups);
    var g :| g in groups && q == FinishedOf(c, g);
    FilledFollows(c, bindings, g);
  }

  /** Each request of a plan asks for what its requirements do, over their resolved windows, and lists
      exactly the dependencies that stand for them; and every requirement has its request. */
  lemma PlansFollowTheNeeds(c: Context, bindings: seq<Binding>)
    requires Compile(c, bindings).Compiled?
    ensures var requests := Compile(c, bindings).requests;
      && (forall q :: q in requests ==> Follows(c, bindings, q))
      && (forall b, k: nat :: b in bindings && k < |b.requirements| ==> Served(c, requests, b, k))
  {
    hide AllFilled, Follows, Served, Finish;
    GroupsOfAll(c, bindings);
    var groups := GroupAll(c, [], Uses(SortBindings(bindings))).groups;
    SortedUses(bindings);
    forall q | q in Finish(c, groups) ensures Follows(c, bindings, q) { FinishedFollow(c, bindings, groups, q); }
    forall b, k: nat | b in bindings && k < |b.requirements| ensures Served(c, Finish(c, groups), b, k) {
      GroupedIsServed(c, Uses(SortBindings(bindings)), groups, Use(b, k));
    }
  }

  lemma {:induction false} InsertedDependencySorts(sorted: seq<E.Dependency>, e: E.Dependency)
    requires E.InOrder(sorted)
    ensures E.InOrder(InsertDependency(sorted, e))
  {
    if sorted == [] {
    } else if !E.Before(sorted[0], e) {
      assert forall i :: 0 < i < |sorted| ==> !E.Before(sorted[i], sorted[0]);
    } else {
      InsertedDependencySorts(sorted[1..], e);
      InsertedDependencyHolds(sorted[1..], e);
      var rest := InsertDependency(sorted[1..], e);
      forall i | 0 <= i < |rest| ensures !E.Before(rest[i], sorted[0]) {
        assert rest[i] in rest;
      }
    }
  }

  lemma {:induction false} SortedDependenciesAscend(s: seq<E.Dependency>)
    ensures E.InOrder(SortDependencies(s))
  {
    if s != [] {
      SortedDependenciesAscend(s[1..]);
      InsertedDependencySorts(SortDependencies(s[1..]), s[0]);
    }
  }

  /** The dependencies of each request are listed by consumer, capability, version and index. */
  lemma DependenciesAreInOrder(c: Context, bindings: seq<Binding>)
    requires Compile(c, bindings).Compiled?
    ensures forall q :: q in Compile(c, bindings).requests ==> E.InOrder(q.group.dependencies)
  {
    hide Finish, SortDependencies, E.InOrder, GroupAll;
    UsesAreValid(SortBindings(bindings));
    var groups := GroupAll(c, [], Uses(SortBindings(bindings))).groups;
    FinishHolds(c, groups);
    forall q | q in Finish(c, groups) ensures E.InOrder(q.group.dependencies) {
      var g :| g in groups && q == FinishedOf(c, g);
      SortedDependenciesAscend(g.dependencies);
    }
  }
}
