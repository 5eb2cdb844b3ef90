/** Python's `sorted` on distinct integers. */
module Sorting {

  import opened Basics

  lemma {:induction false} MinimumExists(s: set<int>)
    requires s != {}
    ensures exists m :: m in s && forall x | x in s :: m <= x
  {
    var y := Inhabitant(s);
    if s - {y} == {} {
      assert s == {y};
    } else {
      MinimumExists(s - {y});
      var m :| m in s - {y} && forall x | x in s - {y} :: m <= x;
      var least := if m < y then m else y;
      assert least in s;
      forall x | x in s ensures least <= x {
        if x != y { assert x in s - {y}; }
      }
    }
  }

  function Minimum(s: set<int>): (m: int)
    requires s != {}
    ensures m in s && forall x | x in s :: m <= x
  {
    MinimumExists(s);
    var m :| m in s && forall x | x in s :: m <= x;
    m
  }

  lemma {:induction false} MaximumExists(s: set<int>)
    requires s != {}
    ensures exists m :: m in s && forall x | x in s :: x <= m
  {
    var y := Inhabitant(s);
    if s - {y} == {} {
      assert s == {y};
    } else {
      MaximumExists(s - {y});
      var m :| m in s - {y} && forall x | x in s - {y} :: x <= m;
      var greatest := if m > y then m else y;
      assert greatest in s;
      forall x | x in s ensures x <= greatest {
        if x != y { assert x in s - {y}; }
      }
    }
  }

  function Maximum(s: set<int>): (m: int)
    requires s != {}
    ensures m in s && forall x | x in s :: x <= m
  {
    MaximumExists(s);
    var m :| m in s && forall x | x in s :: x <= m;
    m
  }

  predicate Increasing(s: seq<int>) {
    forall i, j | 0 <= i < j < |s| :: s[i] < s[j]
  }

  /** The elements of a finite set in increasing order. */
  function Sorted(s: set<int>): (r: seq<int>)
    ensures forall x :: x in r <==> x in s
    ensures Increasing(r) && |r| == |s|
  {
    if s == {} then [] else [Minimum(s)] + Sorted(s - {Minimum(s)})
  }

  /** How many elements of a set are smaller than a number. */
  function CountBelow(s: set<int>, x: int): nat {
    |set y | y in s && y < x|
  }

  lemma {:induction false} BelowWithoutMinimum(s: set<int>, m: int, x: int)
    requires m in s && (forall y | y in s :: m <= y) && x != m && x in s
    ensures CountBelow(s, x) == CountBelow(s - {m}, x) + 1
  {
    assert (set y | y in s && y < x) == (set y | y in s - {m} && y < x) + {m};
  }

  lemma {:induction false} NoneBelowMinimum(s: set<int>, m: int)
    requires forall y | y in s :: m <= y
    ensures CountBelow(s, m) == 0
  {
    assert (set y | y in s && y < m) == {};
  }

  /** The position of an element in increasing order is the number of smaller elements. */
  lemma {:induction false} PositionOf(s: set<int>, x: int)
    requires x in s
    ensures CountBelow(s, x) < |s| && Sorted(s)[CountBelow(s, x)] == x
  {
    var m := Minimum(s);
    assert Sorted(s) == [m] + Sorted(s - {m});
    if x == m {
      NoneBelowMinimum(s, m);
    } else {
      PositionOf(s - {m}, x);
      BelowWithoutMinimum(s, m, x);
    }
  }
}
