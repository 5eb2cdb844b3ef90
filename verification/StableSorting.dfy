/** Python's stable `sorted` with a numeric key that may be infinite. */
module StableSorting {
  datatype Key = Finite(v: real) | Infinite

  predicate Leq(a: Key, b: Key) {
    b.Infinite? || (a.Finite? && a.v <= b.v)
  }

  datatype Ranked<+T> = Ranked(key: Key, item: T)

  function Insert<T>(x: Ranked<T>, s: seq<Ranked<T>>): (r: seq<Ranked<T>>) {
    if s == [] then [x]
    else if Leq(x.key, s[0].key) then [x] + s
    else [s[0]] + Insert(x, s[1..])
  }

  function StableSort<T>(s: seq<Ranked<T>>): (r: seq<Ranked<T>>) {
    if s == [] then [] else Insert(s[0], StableSort(s[1..]))
  }

  predicate Ordered<T>(s: seq<Ranked<T>>) {
    forall i, j | 0 <= i < j < |s| :: Leq(s[i].key, s[j].key)
  }

  lemma {:induction false} InsertAdds<T>(x: Ranked<T>, s: seq<Ranked<T>>)
    ensures multiset(Insert(x, s)) == multiset(s) + multiset{x}
  {
    if s != [] && !Leq(x.key, s[0].key) {
      InsertAdds(x, s[1..]);
      assert s == [s[0]] + s[1..];
    }
  }

  lemma {:induction false} InsertKeepsOrder<T>(x: Ranked<T>, s: seq<Ranked<T>>)
    requires Ordered(s)
    ensures Ordered(Insert(x, s))
  {
    if s != [] && !Leq(x.key, s[0].key) {
      InsertKeepsOrder(x, s[1..]);
      InsertAdds(x, s[1..]);
      var rest := Insert(x, s[1..]);
      forall j | 0 <= j < |rest| ensures Leq(s[0].key, rest[j].key) {
        assert rest[j] in multiset(rest);
        assert rest[j] == x || rest[j] in multiset(s[1..]);
      }
    }
  }

  /** The result is ordered, and has the same elements. */
  lemma {:induction false} SortOrders<T>(s: seq<Ranked<T>>)
    ensures Ordered(StableSort(s)) && multiset(StableSort(s)) == multiset(s)
    ensures |StableSort(s)| == |s|
  {
    if s != [] {
      SortOrders(s[1..]);
      InsertKeepsOrder(s[0], StableSort(s[1..]));
      InsertAdds(s[0], StableSort(s[1..]));
      assert s == [s[0]] + s[1..];
      assert |multiset(StableSort(s))| == |multiset(s)|;
    }
  }

  lemma {:induction false} SortMembers<T>(s: seq<Ranked<T>>)
    ensures |StableSort(s)| == |s|
    ensures forall i | 0 <= i < |s| :: StableSort(s)[i] in s
    ensures forall i | 0 <= i < |s| :: s[i] in StableSort(s)
  {
    SortOrders(s);
    forall i | 0 <= i < |s| ensures StableSort(s)[i] in s && s[i] in StableSort(s) {
      assert StableSort(s)[i] in multiset(StableSort(s));
      assert s[i] in multiset(s);
    }
  }

  function WithKey<T>(s: seq<Ranked<T>>, key: Key): seq<Ranked<T>> {
    if s == [] then [] else (if s[0].key == key then [s[0]] else []) + WithKey(s[1..], key)
  }

  lemma {:induction false} InsertIsStable<T>(x: Ranked<T>, s: seq<Ranked<T>>, key: Key)
    requires Ordered(s)
    ensures WithKey(Insert(x, s), key) == (if x.key == key then [x] else []) + WithKey(s, key)
  {
    if s == [] {
      assert [x][1..] == [];
    } else if Leq(x.key, s[0].key) {
      assert ([x] + s)[1..] == s;
    } else {
      InsertIsStable(x, s[1..], key);
      assert ([s[0]] + Insert(x, s[1..]))[1..] == Insert(x, s[1..]);
    }
  }

  /** Elements with equal keys keep their order. */
  lemma {:induction false} SortIsStable<T>(s: seq<Ranked<T>>, key: Key)
    ensures WithKey(StableSort(s), key) == WithKey(s, key)
  {
    if s != [] {
      SortIsStable(s[1..], key);
      SortOrders(s[1..]);
      InsertIsStable(s[0], StableSort(s[1..]), key);
    }
  }

  /** The position of the first element with the least key. */
  function FirstLeast<T>(s: seq<Ranked<T>>): (k: nat)
    requires s != []
    ensures k < |s| && forall i | 0 <= i < |s| :: Leq(s[k].key, s[i].key)
    ensures forall i | 0 <= i < k :: !Leq(s[i].key, s[k].key)
  {
    if |s| == 1 then 0
    else
      var k := FirstLeast(s[1..]);
      assert forall i | 0 < i < |s| :: s[i] == s[1..][i - 1];
      if Leq(s[0].key, s[1 + k].key) then 0 else 1 + k
  }

  lemma {:induction false} InsertFirst<T>(x: Ranked<T>, s: seq<Ranked<T>>)
    ensures Insert(x, s) != []
    ensures Insert(x, s)[0] == if s == [] || Leq(x.key, s[0].key) then x else s[0]
  {}

  /** `sorted(...)[0]` is the first of the least elements. */
  lemma {:induction false} SortFirst<T>(s: seq<Ranked<T>>)
    requires s != []
    ensures StableSort(s) != [] && StableSort(s)[0] == s[FirstLeast(s)]
  {
    InsertFirst(s[0], StableSort(s[1..]));
    if |s| > 1 {
      SortFirst(s[1..]);
    }
  }
}
