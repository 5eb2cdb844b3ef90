/** Result and option types shared by every module. */
module Basics {

  datatype Option<+T> = None | Some(value: T)

  /** A computed value, or the error that stopped the computation. */
  datatype Result<+T, +E> = Ok(value: T) | Err(error: E) {

    predicate IsFailure() {
      Err?
    }

    function PropagateFailure<U>(): Result<U, E>
      requires Err?
    {
      Err(error)
    }

    function Extract(): T
      requires Ok?
    {
      value
    }
  }

  /** An element of a non-empty set. */
  lemma {:induction false} Inhabitant<T>(s: set<T>) returns (x: T)
    requires s != {}
    ensures x in s
  {
    x :| x in s;
  }

  /** A key under which a value is stored. */
  lemma {:induction false} KeyOfValue<K, V>(m: map<K, V>, v: V) returns (k: K)
    requires v in m.Values
    ensures k in m && m[k] == v
  {
    k :| k in m && m[k] == v;
  }

  /** Sets with the same elements are equal. */
  lemma {:induction false} SameElements<T>(a: set<T>, b: set<T>)
    requires (forall c | c in a :: c in b) && forall c | c in b :: c in a
    ensures a == b
  {}

  /** A listing of exactly these elements. */
  ghost predicate Lists<T(!new)>(order: seq<T>, s: set<T>) {
    forall x :: x in order <==> x in s
  }

  lemma {:induction false} ListedAt<T(!new)>(order: seq<T>, s: set<T>, k: nat)
    requires Lists(order, s) && k < |order|
    ensures order[k] in s
  {
    assert order[k] in order;
  }

  lemma {:induction false} ListedPosition<T(!new)>(order: seq<T>, s: set<T>, x: T) returns (k: nat)
    requires Lists(order, s) && x in s
    ensures k < |order| && order[k] == x
  {
    assert x in order;
    k :| 0 <= k < |order| && order[k] == x;
  }

  lemma {:induction false} EmptySet<T>(s: set<T>)
    requires forall x :: x !in s
    ensures s == {}
  {}

  /** A listing without repetition has as many positions as there are elements. */
  lemma {:induction false} CountListed<T(!new)>(order: seq<T>, s: set<T>)
    requires Lists(order, s) && forall i, j | 0 <= i < j < |order| :: order[i] != order[j]
    ensures |s| == |order|
  {
    if order == [] {
      EmptySet(s);
    } else {
      var before, last := order[..|order| - 1], order[|order| - 1];
      assert order == before + [last] && last !in before;
      forall x ensures x in before <==> x in s - {last} {
        assert x in order <==> x in before || x == last;
      }
      CountListed(before, s - {last});
      assert last in order;
    }
  }
}
