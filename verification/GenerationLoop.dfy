/** `run_query_generation`: generate, validate and accept until the target distribution is met. */
module GenerationLoop {
  import opened Basics
  import opened Quotas
  import opened QueryValidation

  // ----- The request of a step -----

  function Power(b: real, n: nat): real {
    if n == 0 then 1.0 else b * Power(b, n - 1)
  }

  /** The oversampling multiplier of a step. */
  function Multiplier(cap: real, step: nat): real
    requires step >= 1
  {
    if cap < Power(1.5, step - 1) then cap else Power(1.5, step - 1)
  }

  /** `need_n`: how many queries a step asks for. */
  function NeedN(remainingTotal: int, multiplier: real): (n: int)
    ensures n >= 1
  {
    var n := Truncate(remainingTotal as real * multiplier);
    if n < 1 then 1 else n
  }

  predicate NonNegative(xs: seq<int>) {
    forall i | 0 <= i < |xs| :: xs[i] >= 0
  }

  function Weights(remaining: seq<int>): (r: seq<real>)
    ensures |r| == |remaining| && forall i | 0 <= i < |r| :: r[i] == remaining[i] as real
  {
    seq(|remaining|, i requires 0 <= i < |remaining| => remaining[i] as real)
  }

  lemma {:induction false} WeightSum(remaining: seq<int>)
    ensures RealSum(Weights(remaining)) == Sum(remaining) as real
  {
    if remaining != [] {
      WeightSum(remaining[1..]);
      assert Weights(remaining)[1..] == Weights(remaining[1..]);
    }
  }

  lemma {:induction false} PowerAtLeastOne(n: nat)
    ensures Power(1.5, n) >= 1.0
  {
    if n > 0 {
      PowerAtLeastOne(n - 1);
    }
  }

  lemma {:induction false} ScaledFloor(total: int, multiplier: real)
    requires total >= 1
    ensures NeedN(total, multiplier) >= total <==> multiplier >= 1.0 || total == 1
  {
    if multiplier >= 1.0 {
      assert total as real * multiplier >= total as real * 1.0;
    } else {
      assert total as real * multiplier < total as real * 1.0;
    }
  }

  lemma {:induction false} SumBelow(a: seq<int>, b: seq<int>)
    requires |a| == |b| && forall i | 0 <= i < |a| :: a[i] >= b[i]
    ensures Sum(a) >= Sum(b)
  {
    if a != [] {
      SumBelow(a[1..], b[1..]);
    }
  }

  lemma {:induction false} ShareAtLeast(need: int, part: int, total: int)
    requires need >= total >= 1 && part >= 0
    ensures (need as real * (part as real / total as real)).Floor >= part
  {
    var share := part as real / total as real;
    assert share >= 0.0 && total as real * share == part as real;
    assert need as real * share >= total as real * share;
  }

  lemma {:induction false} QuotaCovers(remaining: seq<int>, need: int, c: nat)
    requires NonNegative(remaining) && need >= Sum(remaining) >= 1 && c < |remaining|
    ensures RealSum(Weights(remaining)) > 0.0 && Raw(Weights(remaining), need)[c].Floor >= remaining[c]
  {
    WeightSum(remaining);
    ShareAtLeast(need, remaining[c], Sum(remaining));
  }

  lemma {:induction false} RemainingAllocatable(remaining: seq<int>, need: int)
    requires NonNegative(remaining) && Sum(remaining) >= 1 && need >= 1
    ensures Allocatable(Weights(remaining), need)
  {
    WeightSum(remaining);
  }

  /** The allocation over the remaining counts, and when it covers each of them. */
  lemma {:induction false} AllocationCoversIff(remaining: seq<int>, need: int)
    requires NonNegative(remaining) && Sum(remaining) >= 1 && need >= 1
    ensures Allocate(Weights(remaining), need).Ok? && |Allocate(Weights(remaining), need).value| == |remaining|
    ensures (forall c | 0 <= c < |remaining| :: Allocate(Weights(remaining), need).value[c] >= remaining[c])
            <==> need >= Sum(remaining)
  {
    RemainingAllocatable(remaining, need);
    AllocationIsFair(Weights(remaining), need);
    var request := Allocate(Weights(remaining), need).value;
    if need >= Sum(remaining) {
      forall c | 0 <= c < |remaining| ensures request[c] >= remaining[c] {
        QuotaCovers(remaining, need, c);
      }
    }
    if forall c | 0 <= c < |remaining| :: request[c] >= remaining[c] {
      SumBelow(request, remaining);
    }
  }

  /**
    A step asks for at least what remains of every complexity if and only if the
    oversampling cap is at least 1 or a single query remains.
   */
  lemma {:induction false} RequestCoversRemainingIff(remaining: seq<int>, cap: real, step: nat)
    requires NonNegative(remaining) && Sum(remaining) >= 1 && step >= 1
    ensures
      var request := Allocate(Weights(remaining), NeedN(Sum(remaining), Multiplier(cap, step)));
      && request.Ok? && |request.value| == |remaining|
      && ((forall c | 0 <= c < |remaining| :: request.value[c] >= remaining[c]) <==> cap >= 1.0 || Sum(remaining) == 1)
  {
    PowerAtLeastOne(step - 1);
    ScaledFloor(Sum(remaining), Multiplier(cap, step));
    AllocationCoversIff(remaining, NeedN(Sum(remaining), Multiplier(cap, step)));
  }

  /**
    The size of a step's request: what remains, multiplied by 1.5 for every step
    but the first, as far as the cap allows, rounded down, and at least 1.
   */
  lemma {:induction false} RequestSize(total: int, cap: real, step: nat)
    requires total >= 1 && cap >= 0.0 && step >= 1
    ensures Multiplier(cap, 1) == if cap < 1.0 then cap else 1.0
    ensures Multiplier(cap, step + 1) ==
            if Multiplier(cap, step) < cap then (if cap < 1.5 * Multiplier(cap, step) then cap else 1.5 * Multiplier(cap, step)) else cap
    ensures
      var need, exact := NeedN(total, Multiplier(cap, step)), total as real * Multiplier(cap, step);
      if exact < 1.0 then need == 1 else need as real <= exact < need as real + 1.0
  {
    assert Power(1.5, 0) == 1.0;
    assert Power(1.5, step) == 1.5 * Power(1.5, step - 1);
    PowerAtLeastOne(step - 1);
    NonNegativeProduct(total as real, Multiplier(cap, step));
  }

  lemma {:induction false} NonNegativeProduct(a: real, b: real)
    requires a >= 0.0 && b >= 0.0
    ensures a * b >= 0.0
  {}

  // ----- Counting -----

  function CountOf(meta: seq<nat>, c: nat): nat {
    if meta == [] then 0 else (if meta[0] == c then 1 else 0) + CountOf(meta[1..], c)
  }

  lemma {:induction false} CountAppend(meta: seq<nat>, x: nat, c: nat)
    ensures CountOf(meta + [x], c) == CountOf(meta, c) + if x == c then 1 else 0
  {
    if meta == [] {
      assert [x][1..] == [];
    } else {
      assert (meta + [x])[1..] == meta[1..] + [x];
      CountAppend(meta[1..], x, c);
    }
  }

  predicate Distinct(qs: seq<Query>) {
    forall i, j | 0 <= i < j < |qs| :: qs[i] != qs[j]
  }

  /** What is missing plus what was accepted is the target, complexity by complexity. */
  ghost predicate Balanced(target: seq<int>, remaining: seq<int>, meta: seq<nat>) {
    && |remaining| == |target| && NonNegative(remaining)
    && forall c | 0 <= c < |target| :: remaining[c] + CountOf(meta, c) == target[c]
  }

  /** From position `start` on every query differs from all before it. */
  ghost predicate NewFrom(queries: seq<Query>, start: nat) {
    forall i, j | 0 <= i < j < |queries| && start <= j :: queries[i] != queries[j]
  }

  /**
    The collected queries: aligned with the metadata, all seen, and new from
    `start` on.  A resumed file may repeat queries and name complexities outside
    the distribution.
   */
  ghost predicate Collected(queries: seq<Query>, meta: seq<nat>, seen: set<Query>, start: nat) {
    && |queries| == |meta| && start <= |queries| && NewFrom(queries, start)
    && forall i | 0 <= i < |queries| :: queries[i] in seen
  }

  /** If the resumed queries were pairwise distinct, all are. */
  lemma {:induction false} NewFromDistinct(queries: seq<Query>, start: nat)
    requires start <= |queries| && NewFrom(queries, start) && Distinct(queries[..start])
    ensures Distinct(queries)
  {
    forall i, j | 0 <= i < j < |queries| ensures queries[i] != queries[j] {
      if j < start { assert queries[..start][i] != queries[..start][j]; }
    }
  }

  lemma {:induction false} TakeOne(target: seq<int>, remaining: seq<int>, meta: seq<nat>, c: nat)
    requires Balanced(target, remaining, meta) && c < |target| && remaining[c] > 0
    ensures Balanced(target, remaining[c := remaining[c] - 1], meta + [c])
  {
    forall d | 0 <= d < |target|
      ensures remaining[c := remaining[c] - 1][d] + CountOf(meta + [c], d) == target[d]
    {
      CountAppend(meta, c, d);
    }
  }

  lemma {:induction false} AllMet(remaining: seq<int>)
    requires NonNegative(remaining)
    ensures Sum(remaining) >= 0 && (Sum(remaining) == 0 <==> forall c | 0 <= c < |remaining| :: remaining[c] == 0)
  {
    if remaining != [] {
      AllMet(remaining[1..]);
      assert forall c | 0 < c < |remaining| :: remaining[c] == remaining[1..][c - 1];
    }
  }

  // ----- Choosing -----

  /** The valid queries of one complexity, in the order of generation. */
  function CandidatesOf(entries: seq<Item>, c: nat): (r: seq<Query>)
    ensures forall q :: q in r ==> exists i | 0 <= i < |entries| :: entries[i].query == q && entries[i].complexity == c
  {
    if entries == [] then []
    else
      var rest := CandidatesOf(entries[1..], c);
      assert forall i | 0 <= i < |entries[1..]| :: entries[1..][i] == entries[i + 1];
      (if entries[0].complexity == c then [entries[0].query] else []) + rest
  }

  lemma {:induction false} CandidatesDistinct(entries: seq<Item>, c: nat)
    requires DistinctQueries(entries)
    ensures Distinct(CandidatesOf(entries, c))
  {
    if entries != [] {
      CandidatesDistinct(entries[1..], c);
      var rest := CandidatesOf(entries[1..], c);
      forall k | 0 <= k < |rest| ensures rest[k] != entries[0].query {
        assert rest[k] in rest;
        var i :| 0 <= i < |entries[1..]| && entries[1..][i].query == rest[k] && entries[1..][i].complexity == c;
        assert entries[1..][i] == entries[i + 1];
      }
    }
  }

  /** `random.sample`: any `need` of the candidates. */
  predicate IsSample(chosen: seq<Query>, candidates: seq<Query>, need: nat) {
    |chosen| == need && Distinct(chosen) && forall k | 0 <= k < |chosen| :: chosen[k] in candidates
  }

  lemma {:induction false} PrefixIsSample(candidates: seq<Query>, need: nat)
    requires Distinct(candidates) && need <= |candidates|
    ensures IsSample(candidates[..need], candidates, need)
  {}

  /** All candidates, or a random sample of them if there are more than needed. */
  method Choose(candidates: seq<Query>, need: nat) returns (chosen: seq<Query>)
    requires Distinct(candidates)
    ensures IsSample(chosen, candidates, if |candidates| <= need then |candidates| else need)
    ensures |candidates| <= need ==> chosen == candidates
  {
    chosen := candidates;
    if |candidates| > need {
      PrefixIsSample(candidates, need);
      chosen :| IsSample(chosen, candidates, need);
    }
  }

  /** The queries that may still be accepted in this step: valid entries of the complexities from `c` on. */
  ghost predicate StillNew(queries: seq<Query>, entries: seq<Item>, c: nat) {
    forall k, i | 0 <= k < |queries| && 0 <= i < |entries| && entries[i].complexity >= c :: queries[k] != entries[i].query
  }

  /** What generation and validation bring in one step. */
  datatype StepWorld = StepWorld(generated: seq<Item>, completed: seq<Checked>)

  /** Generated ids are distinct, complexities are requested ones, and validation covers generated items. */
  ghost predicate WorldOk(w: StepWorld, n: nat) {
    Covers(w.generated, w.completed) && forall i | 0 <= i < |w.generated| :: w.generated[i].complexity < n
  }

  ghost predicate AllWorldsOk(world: nat -> StepWorld, n: nat) {
    forall s: nat :: WorldOk(world(s), n)
  }

  datatype GenerationError = TooManySteps | NoProgress

  /** What a step may accept: distinct valid entries of known complexities, all of them seen. */
  ghost predicate Acceptable(entries: seq<Item>, seen: set<Query>, n: nat) {
    DistinctQueries(entries) && forall i | 0 <= i < |entries| :: entries[i].query in seen && entries[i].complexity < n
  }

  /** How many candidates of a complexity are accepted: all of them, or as many as are needed. */
  function Taken(remaining: seq<int>, entries: seq<Item>, c: nat): int
    requires c < |remaining|
  {
    if |CandidatesOf(entries, c)| <= remaining[c] then |CandidatesOf(entries, c)| else remaining[c]
  }

  ghost predicate FromEntry(entries: seq<Item>, c: nat, q: Query) {
    exists i | 0 <= i < |entries| :: entries[i].query == q && entries[i].complexity == c
  }

  /** From position `n` on, every accepted query is a valid entry of the complexity recorded for it. */
  ghost predicate FromEntries(queries: seq<Query>, meta: seq<nat>, entries: seq<Item>, n: nat) {
    |queries| == |meta| && forall k | n <= k < |queries| :: FromEntry(entries, meta[k], queries[k])
  }

  /** No valid entry of this complexity was passed over. */
  ghost predicate NoneLeft(queries: seq<Query>, entries: seq<Item>, c: nat) {
    forall i | 0 <= i < |entries| && entries[i].complexity == c :: entries[i].query in queries
  }

  lemma {:induction false} CandidatesComplete(entries: seq<Item>, c: nat, queries: seq<Query>)
    requires forall q | q in CandidatesOf(entries, c) :: q in queries
    ensures NoneLeft(queries, entries, c)
  {
    if entries != [] {
      CandidatesComplete(entries[1..], c, queries);
      forall i | 0 <= i < |entries| && entries[i].complexity == c ensures entries[i].query in queries {
        if i > 0 { assert entries[1..][i - 1] == entries[i]; }
        else { assert entries[0].query in CandidatesOf(entries, c); }
      }
    }
  }

  lemma {:induction false} NoneLeftLater(queries: seq<Query>, later: seq<Query>, entries: seq<Item>, c: nat)
    requires NoneLeft(queries, entries, c) && queries <= later
    ensures NoneLeft(later, entries, c)
  {}

  /**
    The result of one step: of every complexity as many valid entries as possible
    were accepted, and all of them where the target is still not met.
   */
  ghost predicate StepAccepts(before: seq<int>, after: seq<int>, queries: seq<Query>, meta: seq<nat>, n: nat, entries: seq<Item>) {
    && |before| == |after| && FromEntries(queries, meta, entries, n)
    && (forall c | 0 <= c < |before| :: after[c] == before[c] - Taken(before, entries, c))
    && forall c | 0 <= c < |before| && after[c] > 0 :: NoneLeft(queries, entries, c)
  }

  /** A query that was generated for complexity `c` in step `s` and passed validation there. */
  ghost predicate PassedIn(w: StepWorld, q: Query, c: nat) {
    exists j | 0 <= j < |w.completed| :: w.completed[j].ok && w.completed[j].item in w.generated
                                         && w.completed[j].item.query == q && w.completed[j].item.complexity == c
  }

  /** From position `n` on, every query passed in this step. */
  ghost predicate NewPassed(w: StepWorld, queries: seq<Query>, meta: seq<nat>, n: nat) {
    |queries| == |meta| && forall k | n <= k < |queries| :: PassedIn(w, queries[k], meta[k])
  }

  ghost predicate PassedBetween(world: nat -> StepWorld, first: nat, end: nat, q: Query, c: nat) {
    exists s: nat :: first <= s < end && PassedIn(world(s), q, c)
  }

  /** From position `n` on, every query passed validation in one of the steps, under its recorded complexity. */
  ghost predicate AllPassed(world: nat -> StepWorld, first: nat, end: nat, queries: seq<Query>, meta: seq<nat>, n: nat) {
    |queries| == |meta| && forall k | n <= k < |queries| :: PassedBetween(world, first, end, queries[k], meta[k])
  }

  class GenerationRun {
    const target: seq<int>
    const start: nat  // the number of queries at the start of the run
    var remaining: seq<int>
    var finalQueries: seq<Query>
    var finalMeta: seq<nat>
    var seen: set<Query>
    var step: nat

    ghost predicate Valid()
      reads this
    {
      step >= 1 && Balanced(target, remaining, finalMeta) && Collected(finalQueries, finalMeta, seen, start)
    }

    /** Start, or resume with queries that do not exceed the target. */
    constructor (target: seq<int>, queries: seq<Query>, meta: seq<nat>, firstStep: nat)
      requires firstStep >= 1 && |queries| == |meta|
      requires forall c | 0 <= c < |target| :: CountOf(meta, c) <= target[c]
      ensures Valid() && this.target == target && start == |queries| && step == firstStep
      ensures finalQueries == queries && finalMeta == meta
    {
      this.target, start, step := target, |queries|, firstStep;
      remaining := seq(|target|, c requires 0 <= c < |target| => target[c] - CountOf(meta, c));
      finalQueries, finalMeta := queries, meta;
      seen := set q | q in queries;
    }

    /** Append one chosen query. */
    method Append(q: Query, c: nat)
      requires Valid() && c < |target| && remaining[c] > 0 && q in seen && q !in finalQueries
      modifies this`remaining, this`finalQueries, this`finalMeta
      ensures Valid() && finalQueries == old(finalQueries) + [q] && finalMeta == old(finalMeta) + [c]
      ensures remaining == old(remaining)[c := old(remaining)[c] - 1]
    {
      TakeOne(target, remaining, finalMeta, c);
      remaining := remaining[c := remaining[c] - 1];
      finalQueries, finalMeta := finalQueries + [q], finalMeta + [c];
    }

    /** Append the chosen queries, one after the other. */
    method AppendAll(chosen: seq<Query>, c: nat)
      requires Valid() && c < |target| && |chosen| <= remaining[c] && Distinct(chosen)
      requires forall k | 0 <= k < |chosen| :: chosen[k] in seen && chosen[k] !in finalQueries
      modifies this`remaining, this`finalQueries, this`finalMeta
      ensures Valid() && finalQueries == old(finalQueries) + chosen && old(finalMeta) <= finalMeta
      ensures forall k | |old(finalQueries)| <= k < |finalQueries| :: finalMeta[k] == c
      ensures remaining == old(remaining)[c := old(remaining)[c] - |chosen|]
    {
      var j := 0;
      while j < |chosen|
        invariant 0 <= j <= |chosen| && Valid() && finalQueries == old(finalQueries) + chosen[..j]
        invariant remaining == old(remaining)[c := old(remaining)[c] - j] && old(finalMeta) <= finalMeta
        invariant forall k | |old(finalQueries)| <= k < |finalMeta| :: finalMeta[k] == c
      {
        NotYetChosen(old(finalQueries), chosen, j);
        Append(chosen[j], c);
        j := j + 1;
      }
    }

    /** Choose among the candidates of one complexity and accept the chosen ones. */
    method AcceptFor(c: nat, entries: seq<Item>) returns (accepted: nat)
      requires Valid() && c < |target| && Acceptable(entries, seen, |target|) && StillNew(finalQueries, entries, c)
      modifies this`remaining, this`finalQueries, this`finalMeta
      ensures Valid() && StillNew(finalQueries, entries, c + 1) && old(finalQueries) <= finalQueries
      ensures old(finalMeta) <= finalMeta
      ensures |finalQueries| == |old(finalQueries)| + accepted && accepted == Taken(old(remaining), entries, c)
      ensures remaining == old(remaining)[c := old(remaining)[c] - accepted]
      ensures FromEntries(finalQueries, finalMeta, entries, |old(finalQueries)|)
      ensures remaining[c] > 0 ==> NoneLeft(finalQueries, entries, c)
    {
      var need := remaining[c];
      CandidatesDistinct(entries, c);
      var chosen := Choose(CandidatesOf(entries, c), need);
      ghost var before := finalQueries;
      CandidatesAreNew(before, entries, c, chosen);
      AppendAll(chosen, c);
      accepted := |chosen|;
      AfterChoice(before, entries, c, chosen);
      if |chosen| < need {
        ChoiceLeavesNone(before, entries, c, chosen);
      }
    }

    /** The acceptance loop of one step, over all complexities. */
    method AcceptAll(entries: seq<Item>) returns (accepted: nat)
      requires Valid() && Acceptable(entries, seen, |target|) && StillNew(finalQueries, entries, 0)
      modifies this`remaining, this`finalQueries, this`finalMeta
      ensures Valid() && old(finalQueries) <= finalQueries && |finalQueries| == |old(finalQueries)| + accepted
      ensures forall d | 0 <= d < |target| :: remaining[d] == old(remaining)[d] - Taken(old(remaining), entries, d)
      ensures FromEntries(finalQueries, finalMeta, entries, |old(finalQueries)|) && old(finalMeta) <= finalMeta
      ensures forall d | 0 <= d < |target| && remaining[d] > 0 :: NoneLeft(finalQueries, entries, d)
    {
      accepted := 0;
      var c := 0;
      while c < |target|
        invariant 0 <= c <= |target| && Valid() && StillNew(finalQueries, entries, c)
        invariant old(finalQueries) <= finalQueries && |finalQueries| == |old(finalQueries)| + accepted
        invariant forall d | 0 <= d < |target| ::
                    remaining[d] == if d < c then old(remaining)[d] - Taken(old(remaining), entries, d) else old(remaining)[d]
        invariant FromEntries(finalQueries, finalMeta, entries, |old(finalQueries)|) && old(finalMeta) <= finalMeta
        invariant forall d | 0 <= d < c && remaining[d] > 0 :: NoneLeft(finalQueries, entries, d)
      {
        ghost var before := finalQueries;
        var n := AcceptFor(c, entries);
        forall d | 0 <= d < c && remaining[d] > 0 ensures NoneLeft(finalQueries, entries, d) {
          NoneLeftLater(before, finalQueries, entries, d);
        }
        accepted := accepted + n;
        c := c + 1;
      }
    }

    /** One iteration of the generation loop, after the query generation. */
    method RunStep(w: StepWorld) returns (accepted: nat)
      requires Valid() && WorldOk(w, |target|)
      modifies this
      ensures Valid() && step == old(step) + 1 && old(finalQueries) <= finalQueries && old(seen) <= seen
      ensures |finalQueries| == |old(finalQueries)| + accepted && old(finalMeta) <= finalMeta
      ensures NewPassed(w, finalQueries, finalMeta, |old(finalQueries)|)
      ensures accepted == 0 ==> remaining == old(remaining)
      ensures exists verdicts ::
                && Merged(old(seen), w.completed, |w.completed|, verdicts, seen)
                && StepAccepts(old(remaining), remaining, finalQueries, finalMeta, |old(finalQueries)|,
                               ValidEntries(w.generated, verdicts, |w.generated|))
    {
      var verdicts, now := MergeResults(seen, w.completed);
      var entries := ValidEntries(w.generated, verdicts, |w.generated|);
      EntriesAcceptable(seen, finalQueries, w, verdicts, now, |target|);
      seen := now;
      accepted := AcceptAll(entries);
      AcceptedPassed(old(seen), w, verdicts, now, finalQueries, finalMeta, |old(finalQueries)|);
      if accepted == 0 {
        assert finalMeta == old(finalMeta);
        NothingTaken(target, old(remaining), remaining, finalMeta);
      }
      step := step + 1;
    }

    /** What a step asks for: its oversampled size, in proportion to what remains. */
    method RequestCounts(cap: real) returns (request: seq<int>)
      requires Valid() && Sum(remaining) > 0
      ensures Ok(request) == Allocate(Weights(remaining), NeedN(Sum(remaining), Multiplier(cap, step)))
      ensures |request| == |target| && Sum(request) == NeedN(Sum(remaining), Multiplier(cap, step))
    {
      var need := NeedN(Sum(remaining), Multiplier(cap, step));
      var r := AllocateTargets(Weights(remaining), need);
      RemainingAllocatable(remaining, need);
      AllocationIsFair(Weights(remaining), need);
      request := r.value;
    }

    /** The body of the loop: request, generate, validate, accept. */
    method OneStep(cap: real, world: nat -> StepWorld, ghost first: nat, ghost n: nat) returns (accepted: nat)
      requires Valid() && AllWorldsOk(world, |target|) && Sum(remaining) > 0
      requires first <= step && n <= |finalQueries| && AllPassed(world, first, step, finalQueries, finalMeta, n)
      modifies this
      ensures Valid() && step == old(step) + 1 && old(finalQueries) <= finalQueries
      ensures |finalQueries| == |old(finalQueries)| + accepted && (accepted == 0 ==> remaining == old(remaining))
      ensures AllPassed(world, first, step, finalQueries, finalMeta, n)
    {
      var request := RequestCounts(cap);
      assert WorldOk(world(step), |target|);
      accepted := RunStep(world(step));
      PassedStep(world, first, old(step), old(finalQueries), old(finalMeta), finalQueries, finalMeta, n);
    }

    /**
      `run_query_generation`: ends within `maxSteps`, and a normal exit has met
      the target distribution exactly, with pairwise distinct queries that passed
      validation in one of the steps.  `gained` is what the last step accepted.
     */
    method Run(maxSteps: nat, cap: real, world: nat -> StepWorld)
      returns (error: Option<GenerationError>, ghost gained: Option<nat>)
      requires Valid() && AllWorldsOk(world, |target|)
      modifies this
      ensures Valid() && old(finalQueries) <= finalQueries
      ensures old(step) <= step && (step <= old(step) || step <= maxSteps + 1)
      ensures AllPassed(world, old(step), step, finalQueries, finalMeta, |old(finalQueries)|)
      ensures error.None? ==> forall c | 0 <= c < |target| :: CountOf(finalMeta, c) == target[c]
      ensures error.Some? ==> step > maxSteps && exists c | 0 <= c < |target| :: CountOf(finalMeta, c) < target[c]
      ensures error.Some? ==> (error == Some(NoProgress) <==> gained == Some(0))
      ensures gained.None? <==> step == old(step)
    {
      error, gained := None, None;
      AllMet(remaining);
      while Sum(remaining) > 0
        invariant Valid() && old(finalQueries) <= finalQueries && Sum(remaining) >= 0
        invariant old(step) <= step && (step <= old(step) || step <= maxSteps + 1)
        invariant AllPassed(world, old(step), step, finalQueries, finalMeta, |old(finalQueries)|)
        invariant (gained.None? <==> step == old(step)) && (gained == Some(0) ==> step <= maxSteps)
        decreases maxSteps + 1 - step
      {
        if step > maxSteps {
          AllMet(remaining);
          return Some(TooManySteps), gained;
        }
        var accepted := OneStep(cap, world, old(step), |old(finalQueries)|);
        gained := Some(accepted);
        AllMet(remaining);
        if accepted == 0 && step - 1 >= maxSteps {
          return Some(NoProgress), gained;
        }
      }
      AllMet(remaining);
    }
  }

  /** How a call ends: refused, with the saved queries, or after the loop. */
  datatype Status = Refused | AlreadyComplete | Finished(error: Option<GenerationError>)

  /**
    Resume from saved queries and run.  They are refused if some complexity has
    more of them than its target; if there are as many as requested in all, they
    are returned as they are.
   */
  method ResumeAndRun(target: seq<int>, nQueries: int, queries: seq<Query>, meta: seq<nat>, firstStep: nat,
                      maxSteps: nat, cap: real, world: nat -> StepWorld)
    returns (status: Status, finalQueries: seq<Query>, finalMeta: seq<nat>)
    requires firstStep >= 1 && |queries| == |meta| && AllWorldsOk(world, |target|)
    ensures status.Refused? <==> exists c | 0 <= c < |target| :: CountOf(meta, c) > target[c]
    ensures !status.Refused? ==> (status.AlreadyComplete? <==> |meta| >= nQueries)
    ensures !status.Finished? ==> finalQueries == queries && finalMeta == meta
    ensures queries <= finalQueries && |finalQueries| == |finalMeta| && NewFrom(finalQueries, |queries|)
    ensures status.Finished? ==> exists end: nat :: AllPassed(world, firstStep, end, finalQueries, finalMeta, |queries|)
    ensures status == Finished(None) ==> forall c | 0 <= c < |target| :: CountOf(finalMeta, c) == target[c]
    ensures status.Finished? && status.error.Some? ==> exists c | 0 <= c < |target| :: CountOf(finalMeta, c) < target[c]
    ensures status.AlreadyComplete? && Sum(target) == nQueries ==>
              ((forall c | 0 <= c < |target| :: CountOf(finalMeta, c) == target[c]) <==> Sum(Counts(meta, |target|)) == nQueries)
    ensures Distinct(queries) ==> Distinct(finalQueries)
  {
    if exists c | 0 <= c < |target| :: CountOf(meta, c) > target[c] {
      return Refused, queries, meta;
    }
    if |meta| >= nQueries {
      if Sum(target) == nQueries { SavedMeetTargetIff(target, nQueries, meta); }
      return AlreadyComplete, queries, meta;
    }
    var run := new GenerationRun(target, queries, meta, firstStep);
    var error, _ := run.Run(maxSteps, cap, world);
    if Distinct(queries) {
      assert run.finalQueries[..|queries|] == queries;
      NewFromDistinct(run.finalQueries, |queries|);
    }
    return Finished(error), run.finalQueries, run.finalMeta;
  }

  // ----- Lemmas about one step -----

  lemma {:induction false} EntriesAcceptable(seen: set<Query>, queries: seq<Query>, w: StepWorld, verdicts: map<int, bool>, now: set<Query>, n: nat)
    requires WorldOk(w, n) && Merged(seen, w.completed, |w.completed|, verdicts, now)
    requires forall i | 0 <= i < |queries| :: queries[i] in seen
    ensures Acceptable(ValidEntries(w.generated, verdicts, |w.generated|), now, n)
    ensures StillNew(queries, ValidEntries(w.generated, verdicts, |w.generated|), 0)
    ensures seen <= now
  {
    var entries := ValidEntries(w.generated, verdicts, |w.generated|);
    ValidEntriesAreNew(seen, w.generated, w.completed, verdicts, now, |w.generated|);
    forall i | 0 <= i < |entries| ensures entries[i].query in now && entries[i].query !in seen && entries[i].complexity < n {
      assert entries[i] in entries;
      var a := EntryPosition(w.generated, verdicts, |w.generated|, entries[i]);
    }
  }

  lemma {:induction false} ChoiceLeavesNone(before: seq<Query>, entries: seq<Item>, c: nat, chosen: seq<Query>)
    requires chosen == CandidatesOf(entries, c)
    ensures NoneLeft(before + chosen, entries, c)
  {
    CandidatesComplete(entries, c, before + chosen);
  }

  /** A valid entry passed validation. */
  lemma {:induction false} EntryPassed(seen: set<Query>, w: StepWorld, verdicts: map<int, bool>, now: set<Query>, c: nat, q: Query)
    requires Covers(w.generated, w.completed) && Merged(seen, w.completed, |w.completed|, verdicts, now)
    requires FromEntry(ValidEntries(w.generated, verdicts, |w.generated|), c, q)
    ensures PassedIn(w, q, c)
  {
    var entries := ValidEntries(w.generated, verdicts, |w.generated|);
    var i :| 0 <= i < |entries| && entries[i].query == q && entries[i].complexity == c;
    assert entries[i] in entries;
    var a := EntryPosition(w.generated, verdicts, |w.generated|, entries[i]);
    var j := ValidIsFirst(seen, w.generated, w.completed, verdicts, now, entries[i]);
  }

  lemma {:induction false} AcceptedPassed(seen: set<Query>, w: StepWorld, verdicts: map<int, bool>, now: set<Query>,
                                          queries: seq<Query>, meta: seq<nat>, n: nat)
    requires Covers(w.generated, w.completed) && Merged(seen, w.completed, |w.completed|, verdicts, now)
    requires FromEntries(queries, meta, ValidEntries(w.generated, verdicts, |w.generated|), n)
    ensures NewPassed(w, queries, meta, n)
  {
    forall k | n <= k < |queries| ensures PassedIn(w, queries[k], meta[k]) {
      EntryPassed(seen, w, verdicts, now, meta[k], queries[k]);
    }
  }

  lemma {:induction false} PassedStep(world: nat -> StepWorld, first: nat, step: nat, before: seq<Query>, metaBefore: seq<nat>,
                                      queries: seq<Query>, meta: seq<nat>, n: nat)
    requires first <= step && AllPassed(world, first, step, before, metaBefore, n) && n <= |before|
    requires before <= queries && metaBefore <= meta && |queries| == |meta|
    requires NewPassed(world(step), queries, meta, |before|)
    ensures AllPassed(world, first, step + 1, queries, meta, n)
  {
    forall k | n <= k < |queries| ensures PassedBetween(world, first, step + 1, queries[k], meta[k]) {
      if k < |before| {
        assert PassedBetween(world, first, step, before[k], metaBefore[k]);
        var s: nat :| first <= s < step && PassedIn(world(s), before[k], metaBefore[k]);
        assert PassedIn(world(s), queries[k], meta[k]);
      } else {
        assert PassedIn(world(step), queries[k], meta[k]);
      }
    }
  }

  lemma {:induction false} NothingTaken(target: seq<int>, before: seq<int>, after: seq<int>, meta: seq<nat>)
    requires Balanced(target, before, meta) && Balanced(target, after, meta)
    ensures before == after
  {
    forall c | 0 <= c < |before| ensures before[c] == after[c] {
      assert target[c] == before[c] + CountOf(meta, c);
    }
  }

  lemma {:induction false} CandidatesAreNew(queries: seq<Query>, entries: seq<Item>, c: nat, chosen: seq<Query>)
    requires StillNew(queries, entries, c) && forall k | 0 <= k < |chosen| :: chosen[k] in CandidatesOf(entries, c)
    ensures forall k | 0 <= k < |chosen| :: chosen[k] !in queries
    ensures forall k | 0 <= k < |chosen| :: FromEntry(entries, c, chosen[k])
  {
    forall k | 0 <= k < |chosen| ensures chosen[k] !in queries && FromEntry(entries, c, chosen[k]) {
      assert chosen[k] in CandidatesOf(entries, c);
      var i :| 0 <= i < |entries| && entries[i].query == chosen[k] && entries[i].complexity == c;
    }
  }

  lemma {:induction false} NotYetChosen(before: seq<Query>, chosen: seq<Query>, j: nat)
    requires j < |chosen| && Distinct(chosen) && forall k | 0 <= k < |chosen| :: chosen[k] !in before
    ensures chosen[j] !in before + chosen[..j]
    ensures before + chosen[..j] + [chosen[j]] == before + chosen[..j + 1]
  {
    assert chosen[..j + 1] == chosen[..j] + [chosen[j]];
  }

  lemma {:induction false} AfterChoice(before: seq<Query>, entries: seq<Item>, c: nat, chosen: seq<Query>)
    requires DistinctQueries(entries) && StillNew(before, entries, c)
    requires forall k | 0 <= k < |chosen| :: FromEntry(entries, c, chosen[k])
    ensures StillNew(before + chosen, entries, c + 1)
  {
    forall k, i | 0 <= k < |before + chosen| && 0 <= i < |entries| && entries[i].complexity >= c + 1
      ensures (before + chosen)[k] != entries[i].query
    {
      if k >= |before| {
        assert FromEntry(entries, c, chosen[k - |before|]);
      }
    }
  }

  // ----- The whole distribution -----

  function Counts(meta: seq<nat>, n: nat): (r: seq<int>)
    ensures |r| == n && forall c | 0 <= c < n :: r[c] == CountOf(meta, c)
  {
    seq(n, c requires 0 <= c < n => CountOf(meta, c))
  }

  lemma {:induction false} SumZero(xs: seq<int>)
    requires forall i | 0 <= i < |xs| :: xs[i] == 0
    ensures Sum(xs) == 0
  {
    if xs != [] {
      SumZero(xs[1..]);
    }
  }

  lemma {:induction false} CountsSum(meta: seq<nat>, n: nat)
    requires forall i | 0 <= i < |meta| :: meta[i] < n
    ensures Sum(Counts(meta, n)) == |meta|
  {
    if meta == [] {
      SumZero(Counts(meta, n));
    } else {
      CountsSum(meta[1..], n);
      var rest := Counts(meta[1..], n);
      SumUpdate(rest, meta[0]);
      assert Counts(meta, n) == rest[meta[0] := rest[meta[0]] + 1];
    }
  }

  /** When every count meets its target, there are exactly as many queries as requested. */
  lemma {:induction false} MetDistributionIsComplete(ws: seq<real>, total: int, meta: seq<nat>)
    requires Allocatable(ws, total) && forall i | 0 <= i < |meta| :: meta[i] < |ws|
    requires Allocate(ws, total).Ok? && |Allocate(ws, total).value| == |ws|
    requires forall c | 0 <= c < |ws| :: CountOf(meta, c) == Allocate(ws, total).value[c]
    ensures |meta| == total
  {
    AllocationIsFair(ws, total);
    CountsSum(meta, |ws|);
    assert Counts(meta, |ws|) == Allocate(ws, total).value;
  }

  lemma {:induction false} SumStrict(a: seq<int>, b: seq<int>)
    requires |a| == |b| && (forall i | 0 <= i < |a| :: a[i] <= b[i]) && Sum(a) == Sum(b)
    ensures a == b
  {
    if a != [] {
      SumBelow(b[1..], a[1..]);
      SumStrict(a[1..], b[1..]);
      assert a == [a[0]] + a[1..] && b == [b[0]] + b[1..];
    }
  }

  /**
    Saved queries that exceed no target meet all of them if and only if as many
    as requested are of complexities in the distribution.  The early return
    counts the others as well.
   */
  lemma {:induction false} SavedMeetTargetIff(target: seq<int>, nQueries: int, meta: seq<nat>)
    requires Sum(target) == nQueries && forall c | 0 <= c < |target| :: CountOf(meta, c) <= target[c]
    ensures (forall c | 0 <= c < |target| :: CountOf(meta, c) == target[c]) <==> Sum(Counts(meta, |target|)) == nQueries
  {
    var counts := Counts(meta, |target|);
    if Sum(counts) == nQueries {
      SumStrict(counts, target);
    }
    if forall c | 0 <= c < |target| :: CountOf(meta, c) == target[c] {
      assert counts == target;
    }
  }

  /** A saved query outside the distribution makes the early return miss the target: one of complexity 1, where one of 0 was requested. */
  method StrangerCompletesTooEarly(q: Query, firstStep: nat, maxSteps: nat, cap: real, world: nat -> StepWorld)
    returns (status: Status, finalMeta: seq<nat>)
    requires firstStep >= 1 && AllWorldsOk(world, 1)
    ensures status.AlreadyComplete? && finalMeta == [1] && CountOf(finalMeta, 0) == 0
  {
    var finalQueries;
    assert [1][1..] == [];
    assert CountOf([1], 0) == 0;
    status, finalQueries, finalMeta := ResumeAndRun([1], 1, [q], [1], firstStep, maxSteps, cap, world);
  }
}
