/** Small shared vocabulary. */
module Prelude {

  /** A textual identity. The program only tests identities for equality and sorts by them, so any
      totally ordered type serves; integers keep both operations. */
  type Id = int

  datatype Option<+T> = None | Some(value: T)

  /** The outcome of a call that may raise. A raising call leaves its inputs as they were. */
  datatype Attempt<+T> = Returned(value: T) | Raised(error: Error)

  datatype Error =
    | PolicyMismatch
    | NegativeTime
    | InvalidPopulation
    | NotWaiting
    | MissingStart
    | MissingCycle

  function Max(a: int, b: int): int { if a < b then b else a }

  function Min(a: int, b: int): int { if a < b then a else b }

  predicate Distinct<T(==)>(s: seq<T>) {
    forall i, j :: 0 <= i < j < |s| ==> s[i] != s[j]
  }

  lemma Inhabited(ids: set<Id>)
    requires ids != {}
    ensures exists id :: id in ids
  {
    if forall id :: id !in ids {
      assert false;
    }
  }

  /** The smallest of some ids. */
  function LeastOf(ids: set<Id>): (id: Id)
    requires ids != {}
    ensures id in ids && forall other :: other in ids ==> id <= other
  {
    LeastExists(ids);
    var id :| id in ids && forall other :: other in ids ==> id <= other;
    id
  }

  lemma {:induction false} LeastExists(ids: set<Id>)
    requires ids != {}
    ensures exists id :: id in ids && forall other :: other in ids ==> id <= other
    decreases |ids|
  {
    Inhabited(ids);
    var some :| some in ids;
    var rest := ids - {some};
    assert ids == rest + {some};
    if rest != {} {
      LeastExists(rest);
      var best :| best in rest && forall other :: other in rest ==> best <= other;
      var least := if some <= best then some else best;
      assert least in ids && forall other :: other in ids ==> least <= other;
    } else {
      assert forall other :: other in ids ==> some <= other;
    }
  }

  /** A set of ids in ascending order. */
  function Ascending(ids: set<Id>): (r: seq<Id>)
    ensures forall id :: id in r <==> id in ids
    ensures Distinct(r) && forall i :: 0 <= i < |r| ==> r[i] in ids
    decreases |ids|
  {
    if ids == {} then []
    else
      var least := LeastOf(ids);
      [least] + Ascending(ids - {least})
  }

  /** The largest of some ids. */
  function GreatestOf(ids: set<Id>): (id: Id)
    requires ids != {}
    ensures id in ids && forall other :: other in ids ==> other <= id
  {
    GreatestExists(ids);
    var id :| id in ids && forall other :: other in ids ==> other <= id;
    id
  }

  lemma {:induction false} GreatestExists(ids: set<Id>)
    requires ids != {}
    ensures exists id :: id in ids && forall other :: other in ids ==> other <= id
    decreases |ids|
  {
    Inhabited(ids);
    var some :| some in ids;
    var rest := ids - {some};
    assert ids == rest + {some};
    if rest != {} {
      GreatestExists(rest);
      var best :| best in rest && forall other :: other in rest ==> other <= best;
      var greatest := if best <= some then some else best;
      assert greatest in ids && forall other :: other in ids ==> other <= greatest;
    } else {
      assert forall other :: other in ids ==> other <= some;
    }
  }

  lemma MultipleHasNoRemainder(k: int, interval: int)
    requires 0 < interval
    ensures (k * interval) % interval == 0
  {
    var r := (k * interval) % interval;
    var q := (k * interval) / interval;
    assert k * interval == q * interval + r;
    assert (k - q) * interval == r;
    MultiplesAscend(1, k - q, interval);
    MultiplesAscend(k - q, -1, interval);
  }

  lemma MultiplesAscend(a: int, b: int, interval: int)
    requires 0 < interval
    ensures a <= b ==> a * interval <= b * interval
  {
    if a <= b { assert (b - a) * interval >= 0; }
  }
}
