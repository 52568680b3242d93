/** Rejection of cyclic entity definitions by depth-first search. */
module EntityCycles {
  import opened Prelude

  datatype Key = Key(entityType: Id, version: int)

  /** Each registered definition with the definitions it depends on; all of those are registered. */
  type Definitions = d: map<Key, seq<Key>> | Closed(d) witness map[]

  predicate Closed(d: map<Key, seq<Key>>) {
    forall k, e :: k in d && e in d[k] ==> e in d
  }

  ghost predicate IsPath(d: Definitions, p: seq<Key>) {
    (forall i :: 0 <= i < |p| ==> p[i] in d) && forall i :: 0 <= i < |p| - 1 ==> p[i + 1] in d[p[i]]
  }

  ghost predicate IsCycle(d: Definitions, p: seq<Key>) {
    p != [] && IsPath(d, p) && p[0] in d[p[|p| - 1]]
  }

  ghost predicate HasCycle(d: Definitions) {
    exists p :: IsCycle(d, p)
  }

  /** Every definition in `order` comes after everything it depends on. */
  ghost predicate DependenciesFirst(d: Definitions, order: seq<Key>) {
    && Distinct(order)
    && forall i :: 0 <= i < |order| ==> order[i] in d && forall e :: e in d[order[i]] ==> e in order[..i]
  }

  lemma AppendingKeepsOrder(d: Definitions, order: seq<Key>, key: Key)
    requires DependenciesFirst(d, order) && key in d && key !in order && forall e :: e in d[key] ==> e in order
    ensures DependenciesFirst(d, order + [key])
  {
    var longer := order + [key];
    forall i | 0 <= i < |longer| ensures longer[i] in d && forall e :: e in d[longer[i]] ==> e in longer[..i] {
      assert longer[..i] == order[..i];
      assert i == |order| ==> order[..i] == order;
    }
  }

  lemma ExtendingKeepsPath(d: Definitions, p: seq<Key>, key: Key)
    requires IsPath(d, p) && key in d && (p != [] ==> key in d[p[|p| - 1]])
    ensures IsPath(d, p + [key])
  {
  }

  // An order excludes cycles

  ghost function Rank(order: seq<Key>, k: Key): (i: nat)
    requires k in order
    ensures i < |order| && order[i] == k
  {
    var i :| 0 <= i < |order| && order[i] == k;
    i
  }

  lemma DependencyRanksLower(d: Definitions, order: seq<Key>, k: Key, e: Key)
    requires DependenciesFirst(d, order) && k in order && e in d[k]
    ensures e in order && Rank(order, e) < Rank(order, k)
  {
    var i := Rank(order, k);
    assert e in order[..i];
    var j :| 0 <= j < i && order[..i][j] == e;
    assert order[j] == e;
  }

  lemma {:induction false} RanksFall(d: Definitions, order: seq<Key>, p: seq<Key>, i: nat)
    requires DependenciesFirst(d, order) && IsPath(d, p) && i < |p| && p[0] in order
    ensures p[i] in order && Rank(order, p[i]) + i <= Rank(order, p[0])
  {
    if i > 0 {
      RanksFall(d, order, p, i - 1);
      DependencyRanksLower(d, order, p[i - 1], p[i]);
    }
  }

  lemma OrderExcludesCycles(d: Definitions, order: seq<Key>)
    requires DependenciesFirst(d, order) && forall k :: k in d ==> k in order
    ensures !HasCycle(d)
  {
    forall p ensures !IsCycle(d, p) {
      if p != [] && IsPath(d, p) {
        RanksFall(d, order, p, |p| - 1);
        if p[0] in d[p[|p| - 1]] {
          DependencyRanksLower(d, order, p[|p| - 1], p[0]);
        }
      }
    }
  }

  /** The search, with its two working sets. `path` is the chain of calls in progress and `order` the
      definitions in the order they were finished. */
  class Search {
    const definitions: Definitions
    var visiting: set<Key>
    var visited: set<Key>
    ghost var path: seq<Key>
    ghost var order: seq<Key>

    constructor (definitions: Definitions)
      ensures this.definitions == definitions && Valid() && visiting == {} && path == []
    {
      this.definitions := definitions;
      visiting, visited, path, order := {}, {}, [], [];
    }

    ghost predicate Valid()
      reads this
    {
      && IsPath(definitions, path) && DependenciesFirst(definitions, order)
      && (forall k :: k in visiting <==> k in path)
      && (forall k :: k in visited <==> k in order)
      && visiting !! visited && visiting <= definitions.Keys
    }

    lemma MeetingThePathIsACycle(key: Key)
      requires Valid() && key in visiting && path != [] && key in definitions[path[|path| - 1]]
      ensures HasCycle(definitions)
    {
      var j :| 0 <= j < |path| && path[j] == key;
      assert IsCycle(definitions, path[j..]);
    }

    /** `cycle` is the program's exception. */
    method Visit(key: Key) returns (cycle: bool)
      requires Valid() && key in definitions
      requires path != [] ==> key in definitions[path[|path| - 1]]
      requires path == [] ==> visiting == {}
      modifies this
      ensures cycle ==> HasCycle(definitions)
      ensures !cycle ==>
        && Valid() && visiting == old(visiting) && path == old(path)
        && key in visited && old(visited) <= visited
      decreases |definitions.Keys - visiting|
    {
      if key in visiting {
        MeetingThePathIsACycle(key);
        return true;
      }
      if key in visited { return false; }
      Enter(key);
      for i := 0 to |definitions[key]|
        invariant Valid() && visiting == old(visiting) + {key} && path == old(path) + [key]
        invariant key !in visited && old(visited) <= visited
        invariant forall j :: 0 <= j < i ==> definitions[key][j] in visited
      {
        SubsetIsSmaller(definitions.Keys - visiting, definitions.Keys - old(visiting));
        var below := Visit(definitions[key][i]);
        if below { return true; }
      }
      Leave(key);
      assert path == old(path) && visiting == old(visiting);
      return false;
    }

    method Enter(key: Key)
      requires Valid() && key in definitions && key !in visiting && key !in visited
      requires path != [] ==> key in definitions[path[|path| - 1]]
      modifies this`visiting, this`path
      ensures Valid() && visiting == old(visiting) + {key} && path == old(path) + [key]
    {
      ExtendingKeepsPath(definitions, path, key);
      visiting := visiting + {key};
      path := path + [key];
    }

    method Leave(key: Key)
      requires Valid() && path != [] && path[|path| - 1] == key && key !in path[..|path| - 1]
      requires forall e :: e in definitions[key] ==> e in visited
      modifies this
      ensures Valid() && visiting == old(visiting) - {key} && visited == old(visited) + {key}
      ensures path == old(path)[..|old(path)| - 1] && order == old(order) + [key]
    {
      assert path == path[..|path| - 1] + [key];
      AppendingKeepsOrder(definitions, order, key);
      visiting := visiting - {key};
      visited := visited + {key};
      path := path[..|path| - 1];
      order := order + [key];
    }
  }

  lemma SubsetIsSmaller(a: set<Key>, b: set<Key>)
    requires a < b
    ensures |a| < |b|
  {
    var rest := b - a;
    assert b == a + rest && rest != {};
    assert |b| == |a| + |rest|;
  }

  /** A registry is rejected exactly when its definitions depend on each other in a cycle; otherwise
      they can all be listed with dependencies first. */
  method RejectEntityCycles(definitions: Definitions, keys: seq<Key>) returns (cycle: bool, ghost order: seq<Key>)
    requires forall k :: k in keys <==> k in definitions
    ensures cycle <==> HasCycle(definitions)
    ensures !cycle ==> DependenciesFirst(definitions, order) && forall k :: k in order <==> k in definitions
  {
    var search := new Search(definitions);
    order := [];
    for i := 0 to |keys|
      invariant fresh(search) && search.definitions == definitions
      invariant search.Valid() && search.visiting == {} && search.path == []
      invariant forall j :: 0 <= j < i ==> keys[j] in search.visited
    {
      cycle := search.Visit(keys[i]);
      if cycle { return; }
    }
    OrderExcludesCycles(definitions, search.order);
    return false, search.order;
  }
}
