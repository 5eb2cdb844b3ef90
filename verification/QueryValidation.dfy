/** The merging loop of `validate_queries`: results in completion order, duplicates rejected through `seen`. */
module QueryValidation {

  datatype Query = Query(text: string)

  /** A generated query with its id and the index of its complexity. */
  datatype Item = Item(id: int, query: Query, complexity: nat)

  /** The outcome of validating one query on its own. */
  datatype Checked = Checked(item: Item, ok: bool)

  predicate DistinctIds(results: seq<Checked>) {
    forall i, j | 0 <= i < j < |results| :: results[i].item.id != results[j].item.id
  }

  /** Some earlier result accepted the same query text. */
  predicate AlreadyOk(results: seq<Checked>, n: nat, q: Query)
    requires n <= |results|
  {
    exists j | 0 <= j < n :: results[j].ok && results[j].item.query == q
  }

  /** The first successful result for a query that was not seen before. */
  predicate FirstOk(seen: set<Query>, results: seq<Checked>, i: nat)
    requires i < |results|
  {
    results[i].ok && results[i].item.query !in seen && !AlreadyOk(results, i, results[i].item.query)
  }

  /** The verdicts by id, and everything seen so far, after the first `n` results. */
  ghost predicate Merged(seen: set<Query>, results: seq<Checked>, n: nat, verdicts: map<int, bool>, now: set<Query>)
    requires n <= |results|
  {
    && (forall i | 0 <= i < n :: results[i].item.id in verdicts && verdicts[results[i].item.id] == FirstOk(seen, results, i))
    && (forall id | id in verdicts :: HasResult(results, n, id))
    && forall q :: q in now <==> q in seen || AlreadyOk(results, n, q)
  }

  predicate HasResult(results: seq<Checked>, n: nat, id: int)
    requires n <= |results|
  {
    exists i | 0 <= i < n :: results[i].item.id == id
  }

  lemma {:induction false} NextMerged(seen: set<Query>, results: seq<Checked>, n: nat, verdicts: map<int, bool>, now: set<Query>)
    requires n < |results| && DistinctIds(results) && Merged(seen, results, n, verdicts, now)
    ensures
      var r := results[n];
      var valid := r.ok && r.item.query !in now;
      Merged(seen, results, n + 1, verdicts[r.item.id := valid], if valid then now + {r.item.query} else now)
  {
    var r := results[n];
    var valid := r.ok && r.item.query !in now;
    var next := verdicts[r.item.id := valid];
    forall i | 0 <= i < n + 1 ensures results[i].item.id in next && next[results[i].item.id] == FirstOk(seen, results, i) {
      assert i < n ==> results[i].item.id != r.item.id;
    }
    forall id | id in next ensures HasResult(results, n + 1, id) {
      if id != r.item.id { assert HasResult(results, n, id); }
    }
    forall q ensures AlreadyOk(results, n + 1, q) <==> AlreadyOk(results, n, q) || (r.ok && r.item.query == q) {}
  }

  /** The loop over completed futures. */
  method MergeResults(seen: set<Query>, results: seq<Checked>) returns (verdicts: map<int, bool>, now: set<Query>)
    requires DistinctIds(results)
    ensures Merged(seen, results, |results|, verdicts, now)
  {
    verdicts, now := map[], seen;
    var i := 0;
    while i < |results|
      invariant 0 <= i <= |results| && Merged(seen, results, i, verdicts, now)
    {
      NextMerged(seen, results, i, verdicts, now);
      var r := results[i];
      var valid := r.ok && r.item.query !in now;
      if valid {
        now := now + {r.item.query};
      }
      verdicts := verdicts[r.item.id := valid];
      i := i + 1;
    }
  }

  /** What was seen does not depend on the order of completion. */
  lemma {:induction false} SeenIsOrderIndependent(seen: set<Query>, p: seq<Checked>, q: seq<Checked>,
                                                  verdicts1: map<int, bool>, now1: set<Query>, verdicts2: map<int, bool>, now2: set<Query>)
    requires multiset(p) == multiset(q)
    requires Merged(seen, p, |p|, verdicts1, now1) && Merged(seen, q, |q|, verdicts2, now2)
    ensures now1 == now2
  {
    forall x ensures x in now1 <==> x in now2 {
      if AlreadyOk(p, |p|, x) { OkMoves(p, q, x); }
      if AlreadyOk(q, |q|, x) { OkMoves(q, p, x); }
    }
  }

  lemma {:induction false} OkMoves(p: seq<Checked>, q: seq<Checked>, x: Query)
    requires multiset(p) == multiset(q) && AlreadyOk(p, |p|, x)
    ensures AlreadyOk(q, |q|, x)
  {
    var j :| 0 <= j < |p| && p[j].ok && p[j].item.query == x;
    assert p[j] in multiset(q);
    assert p[j] in q;
  }

  // ----- The valid queries of a step -----

  /** Validation covers generated items only, each at most once. */
  ghost predicate Covers(generated: seq<Item>, results: seq<Checked>) {
    && DistinctIds(results)
    && (forall i, j | 0 <= i < j < |generated| :: generated[i].id != generated[j].id)
    && forall r | 0 <= r < |results| :: results[r].item in generated
  }

  /** `valid_entries`: the generated items that were found valid, in the order of generation. */
  function ValidEntries(generated: seq<Item>, verdicts: map<int, bool>, n: nat): seq<Item>
    requires n <= |generated|
  {
    if n == 0 then []
    else ValidEntries(generated, verdicts, n - 1) +
         if generated[n - 1].id in verdicts && verdicts[generated[n - 1].id] then [generated[n - 1]] else []
  }

  lemma {:induction false} EntryPosition(generated: seq<Item>, verdicts: map<int, bool>, n: nat, x: Item) returns (a: nat)
    requires n <= |generated| && x in ValidEntries(generated, verdicts, n)
    ensures a < n && generated[a] == x && x.id in verdicts && verdicts[x.id]
  {
    if generated[n - 1] == x && x.id in verdicts && verdicts[x.id] {
      a := n - 1;
    } else {
      a := EntryPosition(generated, verdicts, n - 1, x);
    }
  }

  ghost predicate DistinctQueries(entries: seq<Item>) {
    forall i, j | 0 <= i < j < |entries| :: entries[i].query != entries[j].query
  }

  /** A valid item stems from the first successful result of its query. */
  lemma {:induction false} ValidIsFirst(seen: set<Query>, generated: seq<Item>, results: seq<Checked>, verdicts: map<int, bool>, now: set<Query>, x: Item)
    returns (i: nat)
    requires Covers(generated, results) && Merged(seen, results, |results|, verdicts, now)
    requires x in generated && x.id in verdicts && verdicts[x.id]
    ensures i < |results| && results[i].item == x && FirstOk(seen, results, i)
  {
    assert HasResult(results, |results|, x.id);
    i :| 0 <= i < |results| && results[i].item.id == x.id;
    var a :| 0 <= a < |generated| && generated[a] == x;
    var b :| 0 <= b < |generated| && generated[b] == results[i].item;
    assert a == b;
  }

  lemma {:induction false} LaterIsNotFirst(seen: set<Query>, results: seq<Checked>, i: nat, j: nat)
    requires i < j < |results| && results[i].ok && results[i].item.query == results[j].item.query
    ensures !FirstOk(seen, results, j)
  {
    assert AlreadyOk(results, j, results[j].item.query);
  }

  lemma {:induction false} FirstOkUnique(seen: set<Query>, results: seq<Checked>, i: nat, j: nat)
    requires i < |results| && j < |results| && FirstOk(seen, results, i) && FirstOk(seen, results, j)
    requires results[i].item.query == results[j].item.query
    ensures i == j
  {
    if i < j { LaterIsNotFirst(seen, results, i, j); }
    if j < i { LaterIsNotFirst(seen, results, j, i); }
  }

  predicate IsValidItem(verdicts: map<int, bool>, x: Item) {
    x.id in verdicts && verdicts[x.id]
  }

  /** A valid item was not seen before, is remembered, and is the only one of its query. */
  ghost predicate ItemIsNew(seen: set<Query>, generated: seq<Item>, verdicts: map<int, bool>, now: set<Query>, x: Item) {
    && x.query !in seen && x.query in now
    && forall b | 0 <= b < |generated| && IsValidItem(verdicts, generated[b]) :: generated[b] == x || generated[b].query != x.query
  }

  ghost predicate ItemsAreNew(seen: set<Query>, generated: seq<Item>, verdicts: map<int, bool>, now: set<Query>) {
    forall a | 0 <= a < |generated| && IsValidItem(verdicts, generated[a]) :: ItemIsNew(seen, generated, verdicts, now, generated[a])
  }

  lemma {:induction false} ValidIsRemembered(seen: set<Query>, generated: seq<Item>, results: seq<Checked>, verdicts: map<int, bool>, now: set<Query>, x: Item)
    requires Covers(generated, results) && Merged(seen, results, |results|, verdicts, now)
    requires x in generated && IsValidItem(verdicts, x)
    ensures x.query !in seen && x.query in now
  {
    var i := ValidIsFirst(seen, generated, results, verdicts, now, x);
    assert AlreadyOk(results, |results|, x.query);
  }

  lemma {:induction false} TwoValidDiffer(seen: set<Query>, generated: seq<Item>, results: seq<Checked>, verdicts: map<int, bool>, now: set<Query>, x: Item, y: Item)
    requires Covers(generated, results) && Merged(seen, results, |results|, verdicts, now)
    requires x in generated && IsValidItem(verdicts, x) && y in generated && IsValidItem(verdicts, y)
    ensures x == y || x.query != y.query
  {
    var i := ValidIsFirst(seen, generated, results, verdicts, now, x);
    var j := ValidIsFirst(seen, generated, results, verdicts, now, y);
    if x.query == y.query {
      FirstOkUnique(seen, results, i, j);
    }
  }

  lemma {:induction false} MergedItemsAreNew(seen: set<Query>, generated: seq<Item>, results: seq<Checked>, verdicts: map<int, bool>, now: set<Query>)
    requires Covers(generated, results) && Merged(seen, results, |results|, verdicts, now)
    ensures ItemsAreNew(seen, generated, verdicts, now)
  {
    forall a | 0 <= a < |generated| && IsValidItem(verdicts, generated[a])
      ensures ItemIsNew(seen, generated, verdicts, now, generated[a])
    {
      ValidIsRemembered(seen, generated, results, verdicts, now, generated[a]);
      forall b | 0 <= b < |generated| && IsValidItem(verdicts, generated[b])
        ensures generated[b] == generated[a] || generated[b].query != generated[a].query
      {
        TwoValidDiffer(seen, generated, results, verdicts, now, generated[a], generated[b]);
      }
    }
  }

  ghost predicate DistinctItems(generated: seq<Item>) {
    forall a, b | 0 <= a < b < |generated| :: generated[a].id != generated[b].id
  }

  /** The last of the first `n` items differs in its query from every valid one before it. */
  lemma {:induction false} LastEntryIsNew(seen: set<Query>, generated: seq<Item>, verdicts: map<int, bool>, now: set<Query>, n: nat, x: Item)
    requires DistinctItems(generated) && ItemsAreNew(seen, generated, verdicts, now) && 0 < n <= |generated|
    requires IsValidItem(verdicts, generated[n - 1]) && x in ValidEntries(generated, verdicts, n - 1)
    ensures x.query != generated[n - 1].query
  {
    var a := EntryPosition(generated, verdicts, n - 1, x);
    assert generated[a].id != generated[n - 1].id;
    assert ItemIsNew(seen, generated, verdicts, now, generated[a]);
  }

  lemma {:induction false} AppendDistinct(before: seq<Item>, last: Item)
    requires DistinctQueries(before) && forall x | x in before :: x.query != last.query
    ensures DistinctQueries(before + [last])
  {
    assert forall k | 0 <= k < |before| :: before[k] in before;
  }

  lemma {:induction false} NewEntries(seen: set<Query>, generated: seq<Item>, verdicts: map<int, bool>, now: set<Query>, n: nat)
    requires DistinctItems(generated) && ItemsAreNew(seen, generated, verdicts, now) && n <= |generated|
    ensures DistinctQueries(ValidEntries(generated, verdicts, n))
    ensures forall x | x in ValidEntries(generated, verdicts, n) :: x.query !in seen && x.query in now
  {
    if n > 0 {
      NewEntries(seen, generated, verdicts, now, n - 1);
      if IsValidItem(verdicts, generated[n - 1]) {
        assert ItemIsNew(seen, generated, verdicts, now, generated[n - 1]);
        forall x | x in ValidEntries(generated, verdicts, n - 1) ensures x.query != generated[n - 1].query {
          LastEntryIsNew(seen, generated, verdicts, now, n, x);
        }
        AppendDistinct(ValidEntries(generated, verdicts, n - 1), generated[n - 1]);
      }
    }
  }

  /** No query is found valid twice, none was seen before, and all are remembered. */
  lemma {:induction false} ValidEntriesAreNew(seen: set<Query>, generated: seq<Item>, results: seq<Checked>, verdicts: map<int, bool>, now: set<Query>, n: nat)
    requires Covers(generated, results) && Merged(seen, results, |results|, verdicts, now) && n <= |generated|
    ensures DistinctQueries(ValidEntries(generated, verdicts, n))
    ensures forall x | x in ValidEntries(generated, verdicts, n) :: x.query !in seen && x.query in now
  {
    MergedItemsAreNew(seen, generated, results, verdicts, now);
    NewEntries(seen, generated, verdicts, now, n);
  }

  /** The generated item at `a` passed, as the first successful check of a query that was new. */
  ghost predicate PassedFirst(seen: set<Query>, generated: seq<Item>, results: seq<Checked>, a: nat)
    requires a < |generated|
  {
    exists i | 0 <= i < |results| :: results[i].item == generated[a] && FirstOk(seen, results, i)
  }

  lemma {:induction false} ValidIffPassedFirst(seen: set<Query>, generated: seq<Item>, results: seq<Checked>, verdicts: map<int, bool>, now: set<Query>, a: nat)
    requires Covers(generated, results) && Merged(seen, results, |results|, verdicts, now) && a < |generated|
    ensures IsValidItem(verdicts, generated[a]) <==> PassedFirst(seen, generated, results, a)
  {
    if IsValidItem(verdicts, generated[a]) {
      var i := ValidIsFirst(seen, generated, results, verdicts, now, generated[a]);
    }
  }

  /** The valid items, one more generated item at a time. */
  lemma {:induction false} ValidEntriesGrow(generated: seq<Item>, verdicts: map<int, bool>, m: nat, n: nat)
    requires m <= n <= |generated|
    ensures ValidEntries(generated, verdicts, m) <= ValidEntries(generated, verdicts, n)
  {
    if m < n {
      ValidEntriesGrow(generated, verdicts, m, n - 1);
    }
  }

  lemma {:induction false} ValidStands(generated: seq<Item>, verdicts: map<int, bool>, a: nat)
    requires a < |generated| && IsValidItem(verdicts, generated[a])
    ensures ValidEntries(generated, verdicts, a) + [generated[a]] <= ValidEntries(generated, verdicts, |generated|)
  {
    ValidEntriesGrow(generated, verdicts, a + 1, |generated|);
  }

  lemma {:induction false} InvalidIsOut(generated: seq<Item>, verdicts: map<int, bool>, x: Item)
    requires !IsValidItem(verdicts, x)
    ensures x !in ValidEntries(generated, verdicts, |generated|)
  {
    if x in ValidEntries(generated, verdicts, |generated|) {
      var b := EntryPosition(generated, verdicts, |generated|, x);
    }
  }

  /**
    Which items are valid, and where they stand: an item follows the valid ones
    generated before it, if and only if its check was the first to succeed for
    a query that was not seen.
   */
  lemma {:induction false} ValidEntriesAre(seen: set<Query>, generated: seq<Item>, results: seq<Checked>, verdicts: map<int, bool>, now: set<Query>, a: nat)
    requires Covers(generated, results) && Merged(seen, results, |results|, verdicts, now) && a < |generated|
    ensures
      var earlier, all := ValidEntries(generated, verdicts, a), ValidEntries(generated, verdicts, |generated|);
      && (PassedFirst(seen, generated, results, a) ==> earlier + [generated[a]] <= all)
      && (!PassedFirst(seen, generated, results, a) ==> generated[a] !in all)
  {
    ValidIffPassedFirst(seen, generated, results, verdicts, now, a);
    if IsValidItem(verdicts, generated[a]) {
      ValidStands(generated, verdicts, a);
    } else {
      InvalidIsOut(generated, verdicts, generated[a]);
    }
  }

  /** Nothing else is valid. */
  lemma {:induction false} OnlyGeneratedAreValid(generated: seq<Item>, verdicts: map<int, bool>, x: Item)
    requires x in ValidEntries(generated, verdicts, |generated|)
    ensures x in generated
  {
    var a := EntryPosition(generated, verdicts, |generated|, x);
  }
}
