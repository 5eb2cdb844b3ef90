/**
  The bounded pool inside `evaluate_sampled_plans`: futures complete in any
  order, `wait` hands back any of the finished ones, and `harvest` records them.
 */
module WorkPool {
  import opened Basics

  /** A future, by the number of its submission. */
  datatype Future = Future(number: nat)

  /** What is known about the futures: the bound, and that each is in flight or was harvested, never both. */
  ghost predicate FuturesOk(limit: nat, inflight: set<Future>, harvested: set<Future>, submitted: nat) {
    && 0 < limit && |inflight| <= limit
    && (forall f | f in inflight :: f !in harvested)
    && forall f :: f in inflight || f in harvested <==> f.number < submitted
  }

  lemma {:induction false} FutureHarvested(limit: nat, inflight: set<Future>, harvested: set<Future>, submitted: nat, f: Future)
    requires FuturesOk(limit, inflight, harvested, submitted) && f in inflight
    ensures FuturesOk(limit, inflight - {f}, harvested + {f}, submitted)
  {}

  lemma {:induction false} FutureSubmitted(limit: nat, inflight: set<Future>, harvested: set<Future>, submitted: nat)
    requires FuturesOk(limit, inflight, harvested, submitted) && |inflight| < limit
    ensures Future(submitted) !in inflight
    ensures FuturesOk(limit, inflight + {Future(submitted)}, harvested, submitted + 1)
  {}

  /** A future stands for one key, and a pending key for one future. */
  ghost predicate Inverse<K>(inflight: set<Future>, metadata: map<Future, K>, ticket: map<K, Future>) {
    && (forall f :: f in inflight <==> f in metadata)
    && (forall f | f in metadata :: metadata[f] in ticket && ticket[metadata[f]] == f)
    && (forall k | k in ticket :: ticket[k] in metadata && metadata[ticket[k]] == k)
  }

  lemma {:induction false} InverseWithout<K>(inflight: set<Future>, metadata: map<Future, K>, ticket: map<K, Future>, f: Future)
    requires Inverse(inflight, metadata, ticket) && f in metadata
    ensures Inverse(inflight - {f}, metadata - {f}, ticket - {metadata[f]})
  {}

  lemma {:induction false} InverseWith<K>(inflight: set<Future>, metadata: map<Future, K>, ticket: map<K, Future>, f: Future, k: K)
    requires Inverse(inflight, metadata, ticket) && f !in inflight && k !in ticket
    ensures Inverse(inflight + {f}, metadata[f := k], ticket[k := f])
  {}

  /** Every recorded verdict is the expected one, and no key has two verdicts or is still pending. */
  ghost predicate VerdictsOk<K, V>(expected: map<K, V>, failed: V, ticket: map<K, Future>, results: map<K, V>, errors: set<K>) {
    && (forall k | k in results :: k in expected && results[k] == expected[k] && k !in errors && k !in ticket)
    && (forall k | k in errors :: k in expected && expected[k] == failed && k !in ticket)
  }

  lemma {:induction false} VerdictReturned<K, V>(expected: map<K, V>, failed: V, ticket: map<K, Future>, results: map<K, V>, errors: set<K>, k: K, v: V)
    requires VerdictsOk(expected, failed, ticket, results, errors) && k in ticket && k in expected && expected[k] == v
    ensures VerdictsOk(expected, failed, ticket - {k}, results[k := v], errors)
  {}

  lemma {:induction false} VerdictRaised<K, V>(expected: map<K, V>, failed: V, ticket: map<K, Future>, results: map<K, V>, errors: set<K>, k: K)
    requires VerdictsOk(expected, failed, ticket, results, errors) && k in ticket && k in expected && expected[k] == failed
    ensures VerdictsOk(expected, failed, ticket - {k}, results, errors + {k})
  {}

  class Pool<K(==, !new), V> {
    const limit: nat
    const answer: K -> Option<V>            // what the evaluation of a key returns; None if it raises
    ghost const failed: V                   // the verdict on an evaluation that raises
    ghost const expected: map<K, V>
    var inflight: set<Future>
    var metadata: map<Future, K>
    var results: map<K, V>
    var errors: set<K>
    var submitted: nat
    ghost var harvested: set<Future>
    ghost var ticket: map<K, Future>           // the future of every pending key

    constructor (maxWorkers: nat, answer: K -> Option<V>, ghost failed: V, ghost expected: map<K, V>)
      requires maxWorkers >= 1
      ensures this.answer == answer && this.failed == failed && this.expected == expected && limit == 2 * maxWorkers
      ensures Valid() && results == map[] && errors == {} && inflight == {} && forall k :: !Handled(k)
    {
      this.answer, this.failed, this.expected, limit := answer, failed, expected, 2 * maxWorkers;
      inflight, metadata, results, errors, submitted := {}, map[], map[], {}, 0;
      harvested, ticket := {}, map[];
    }

    ghost predicate Answers(k: K) {
      k in expected && expected[k] == match answer(k) case Some(v) => v case None => failed
    }

    ghost predicate Valid()
      reads this
    {
      && FuturesOk(limit, inflight, harvested, submitted)
      && Inverse(inflight, metadata, ticket) && (forall k | k in ticket :: Answers(k))
      && VerdictsOk(expected, failed, ticket, results, errors)
    }

    /** The keys that have a verdict or a future. */
    ghost predicate Handled(k: K)
      reads this
    {
      k in results || k in errors || k in ticket
    }

    /** No key is lost or won. */
    twostate predicate HandledKept()
      reads this
    {
      forall k :: Handled(k) <==> old(Handled(k))
    }

    /** `future_to_metadata.pop`: the future leaves the pool. */
    method Pop(f: Future)
      requires Valid() && f in inflight
      modifies this`inflight, this`metadata, this`harvested, this`ticket
      ensures FuturesOk(limit, inflight, harvested, submitted) && Inverse(inflight, metadata, ticket)
      ensures inflight == old(inflight) - {f} && harvested == old(harvested) + {f}
      ensures ticket == old(ticket) - {old(metadata)[f]}
    {
      FutureHarvested(limit, inflight, harvested, submitted, f);
      InverseWithout(inflight, metadata, ticket, f);
      ticket := ticket - {metadata[f]};
      metadata := metadata - {f};
      inflight := inflight - {f};
      harvested := harvested + {f};
    }

    /** One round of the loop in `harvest`. */
    method HarvestOne(f: Future)
      requires Valid() && f in inflight
      modifies this
      ensures Valid() && HandledKept() && submitted == old(submitted)
      ensures inflight == old(inflight) - {f} && harvested == old(harvested) + {f}
    {
      var k := metadata[f];
      assert k in ticket && Answers(k);
      Pop(f);
      Record(k, old(ticket));
    }

    /** The future's result, or its exception. */
    method Record(k: K, ghost before: map<K, Future>)
      requires VerdictsOk(expected, failed, before, results, errors) && k in before && Answers(k)
      modifies this`results, this`errors
      ensures VerdictsOk(expected, failed, before - {k}, results, errors)
      ensures forall j :: j in results || j in errors <==> old(j in results) || old(j in errors) || j == k
    {
      match answer(k) {
        case Some(v) =>
          VerdictReturned(expected, failed, before, results, errors, k, v);
          results := results[k := v];
        case None =>
          VerdictRaised(expected, failed, before, results, errors, k);
          errors := errors + {k};
      }
    }

    /** Wait until some futures are done, whichever complete first, and harvest exactly these. */
    method WaitAndHarvest()
      requires Valid() && inflight != {}
      modifies this
      ensures Valid() && HandledKept() && submitted == old(submitted)
      ensures |inflight| < |old(inflight)|
    {
      NonEmptySubset(inflight);
      var done :| done <= inflight && done != {};
      ghost var before := inflight;
      var todo := done;
      while todo != {}
        invariant Valid() && HandledKept() && submitted == old(submitted)
        invariant todo <= done && forall f :: f in inflight <==> f in before && (f in todo || f !in done)
        decreases todo
      {
        var f :| f in todo;
        HarvestOne(f);
        todo := todo - {f};
      }
      var first := Inhabitant(done);
      assert first in before && first !in inflight;
      Smaller(inflight, before);
    }

    /** Wait while the pool is full. */
    method WaitForRoom()
      requires Valid()
      modifies this
      ensures Valid() && HandledKept() && submitted == old(submitted) && |inflight| < limit
    {
      while |inflight| >= limit
        invariant Valid() && HandledKept() && submitted == old(submitted)
        decreases |inflight|
      {
        WaitAndHarvest();
      }
    }

    method Enqueue(k: K)
      requires Valid() && Answers(k) && !Handled(k) && |inflight| < limit
      modifies this`inflight, this`metadata, this`submitted, this`ticket
      ensures Valid() && submitted == old(submitted) + 1
      ensures forall j :: Handled(j) <==> old(Handled(j)) || j == k
    {
      var future := Future(submitted);
      FutureSubmitted(limit, inflight, harvested, submitted);
      InverseWith(inflight, metadata, ticket, future, k);
      metadata := metadata[future := k];
      ticket := ticket[k := future];
      inflight := inflight + {future};
      submitted := submitted + 1;
    }

    /** Submit one evaluation, waiting first while the pool is full. */
    method Submit(k: K)
      requires Valid() && Answers(k) && !Handled(k)
      modifies this
      ensures Valid() && submitted == old(submitted) + 1
      ensures forall j :: Handled(j) <==> old(Handled(j)) || j == k
    {
      WaitForRoom();
      Enqueue(k);
    }

    /** A verdict that needs no evaluation. */
    method RecordResult(k: K, v: V)
      requires Valid() && !Handled(k) && k in expected && expected[k] == v
      modifies this`results
      ensures Valid() && forall j :: Handled(j) <==> old(Handled(j)) || j == k
    {
      results := results[k := v];
    }

    method RecordError(k: K)
      requires Valid() && !Handled(k) && k in expected && expected[k] == failed
      modifies this`errors
      ensures Valid() && forall j :: Handled(j) <==> old(Handled(j)) || j == k
    {
      errors := errors + {k};
    }

    /** Wait for everything: each future that was ever submitted has been harvested, exactly once. */
    method Drain()
      requires Valid()
      modifies this
      ensures Valid() && HandledKept() && inflight == {}
      ensures forall f :: f in harvested <==> f.number < submitted
      ensures forall k :: Handled(k) <==> k in results || k in errors
    {
      while inflight != {}
        invariant Valid() && HandledKept() && submitted == old(submitted)
        decreases |inflight|
      {
        WaitAndHarvest();
      }
      assert ticket == map[];
    }
  }

  lemma {:induction false} NonEmptySubset<T>(s: set<T>)
    requires s != {}
    ensures exists t :: t <= s && t != {}
  {
    assert s <= s && s != {};
  }

  lemma {:induction false} Smaller<T>(a: set<T>, b: set<T>)
    requires a < b
    ensures |a| < |b|
  {
    if a != {} {
      var x := Inhabitant(a);
      Smaller(a - {x}, b - {x});
    } else {
      var x := Inhabitant(b);
      assert b == (b - {x}) + {x};
    }
  }
}
