/** `evaluate_sampled_plans`: the verdict on every sampled plan. */
module SampleEvaluation {
  import opened Basics
  import opened Json
  import opened SampleTree
  import opened WorkPool
  import Patching = JsonPatch

  /** Query index and sample index. */
  datatype Key = Key(query: nat, sample: nat)

  /** How an evaluation ends: with readings, with a reported error, or with an exception. */
  datatype Outcome = Benchmarked(metrics: map<string, real>) | Rejected | Raised

  /** The fields that an evaluation overwrites, error messages aside. */
  datatype Verdict = Verdict(valid: bool, stats: Option<Stats>)

  const INVALID := Verdict(false, None)

  /** What happens to a sample before anything is submitted. */
  datatype Route = AlreadyInvalid | Inherits | Unappliable | Remote(patches: Patch)

  function RouteOf(plan: Json, s: Sample): Route {
    if !s.valid then AlreadyInvalid
    else if s.patches.None? then Unappliable
    else if s.patches.value == [] then Inherits
    else if Patching.Apply(plan, Arr(s.upstream + s.patches.value)).Err? then Unappliable
    else Remote(s.upstream + s.patches.value)
  }

  /** `validate_evaluate_plan_wrapper` on the plan with these patches; no answer when it raises. */
  function Evaluated(patches: Patch, outcome: Outcome): Option<Verdict> {
    match outcome
    case Benchmarked(metrics) => Some(Verdict(true, Some(Stats(patches, metrics))))
    case Rejected => Some(INVALID)
    case Raised => None
  }

  /** The one verdict on a sample, whatever the order of completion. */
  function VerdictOf(plan: Json, s: Sample, outcome: Outcome): Verdict {
    match RouteOf(plan, s)
    case Inherits => Verdict(true, s.upstreamStats)
    case Remote(patches) => (match Evaluated(patches, outcome) case Some(v) => v case None => INVALID)
    case _ => INVALID
  }

  function Update(s: Sample, v: Verdict): Sample {
    s.(valid := v.valid, stats := v.stats)
  }

  function Judged(plan: Json, s: Sample, outcome: Outcome): Sample {
    Update(s, VerdictOf(plan, s, outcome))
  }

  /** A valid verdict implies that there are patches, and a measurement of the patched plan unless they are empty. */
  lemma {:induction false} ValidHasPatches(plan: Json, s: Sample, outcome: Outcome)
    requires Judged(plan, s, outcome).valid
    ensures s.valid && s.patches.Some?
    ensures
      if s.patches.value == [] then Judged(plan, s, outcome).stats == s.upstreamStats
      else
        && Patching.Apply(plan, Arr(s.upstream + s.patches.value)).Ok?
        && Judged(plan, s, outcome).stats.Some?
        && Judged(plan, s, outcome).stats.value.measuredOn == s.upstream + s.patches.value
  {}

  /** All sampled plans, the base plan of each query, and how every evaluation would end. */
  datatype Batch = Batch(plans: map<nat, Json>, samples: map<Key, Sample>, outcomes: Key -> Outcome)

  predicate Complete(b: Batch) {
    forall k | k in b.samples :: k.query in b.plans
  }

  function RouteAt(b: Batch, k: Key): Route
    requires Complete(b) && k in b.samples
  {
    RouteOf(b.plans[k.query], b.samples[k])
  }

  function Answer(b: Batch, k: Key): Option<Verdict>
    requires Complete(b)
  {
    if k in b.samples && RouteAt(b, k).Remote? then Evaluated(RouteAt(b, k).patches, b.outcomes(k)) else None
  }

  function Verdicts(b: Batch): map<Key, Verdict>
    requires Complete(b)
  {
    map k | k in b.samples :: VerdictOf(b.plans[k.query], b.samples[k], b.outcomes(k))
  }

  /** The pool evaluates this batch. */
  ghost predicate Serves(pool: Pool<Key, Verdict>, b: Batch)
    requires Complete(b)
  {
    && pool.failed == INVALID && pool.expected == Verdicts(b)
    && forall k :: pool.answer(k) == Answer(b, k)
  }

  /** One round of the submission loop, for a sample that is not invalid already; only patches that apply are measured. */
  method Dispatch(pool: Pool<Key, Verdict>, b: Batch, k: Key)
    requires Complete(b) && Serves(pool, b) && pool.Valid()
    requires k in b.samples && b.samples[k].valid && !pool.Handled(k)
    modifies pool
    ensures pool.Valid() && forall j :: pool.Handled(j) <==> old(pool.Handled(j)) || j == k
    ensures pool.submitted == old(pool.submitted) + if RouteAt(b, k).Remote? then 1 else 0
  {
    var route := RouteAt(b, k);
    match route {
      case Inherits => pool.RecordResult(k, Verdict(true, b.samples[k].upstreamStats));
      case Remote(_) => pool.Submit(k);
      case _ => pool.RecordError(k);
    }
  }

  /** The last two loops: write the verdicts back. */
  method WriteBack(samples: map<Key, Sample>, results: map<Key, Verdict>, errors: set<Key>) returns (r: map<Key, Sample>)
    requires forall k | k in results :: k in samples && k !in errors
    requires forall k | k in errors :: k in samples
    ensures r.Keys == samples.Keys
    ensures forall k | k in samples ::
              r[k] == if k in results then Update(samples[k], results[k])
                      else if k in errors then Update(samples[k], INVALID)
                      else samples[k]
  {
    r := samples;
    var todo := results.Keys;
    while todo != {}
      invariant todo <= results.Keys && r.Keys == samples.Keys
      invariant forall k | k in samples :: r[k] == if k in results && k !in todo then Update(samples[k], results[k]) else samples[k]
    {
      var k :| k in todo;
      r := r[k := Update(r[k], results[k])];
      todo := todo - {k};
    }
    todo := errors;
    while todo != {}
      invariant todo <= errors && r.Keys == samples.Keys
      invariant forall k | k in samples ::
                  r[k] == if k in results then Update(samples[k], results[k])
                          else if k in errors && k !in todo then Update(samples[k], INVALID)
                          else samples[k]
    {
      var k :| k in todo;
      r := r[k := Update(r[k], INVALID)];
      todo := todo - {k};
    }
  }

  /** The samples with the invalid ones among `done` rewritten, as the submission loop does in place. */
  ghost predicate Skipped(b: Batch, current: map<Key, Sample>, done: set<Key>) {
    && current.Keys == b.samples.Keys
    && forall k | k in b.samples ::
         current[k] == if k in done && !b.samples[k].valid then Update(b.samples[k], INVALID) else b.samples[k]
  }

  ghost predicate ListsKeys(order: seq<Key>, b: Batch) {
    && (forall k :: k in order <==> k in b.samples)
    && forall i, j | 0 <= i < j < |order| :: order[i] != order[j]
  }

  /** What the submission loop has done after the keys in `done`. */
  ghost predicate Submitted(pool: Pool<Key, Verdict>, b: Batch, current: map<Key, Sample>, done: set<Key>)
    reads pool
  {
    && pool.Valid() && done <= b.samples.Keys && Skipped(b, current, done)
    && forall k :: pool.Handled(k) <==> k in done && b.samples[k].valid
  }

  /** One round of the submission loop. */
  method SubmitNext(pool: Pool<Key, Verdict>, b: Batch, k: Key, current: map<Key, Sample>, ghost done: set<Key>)
    returns (next: map<Key, Sample>)
    requires Complete(b) && Serves(pool, b) && Submitted(pool, b, current, done)
    requires k in b.samples && k !in done
    modifies pool
    ensures Submitted(pool, b, next, done + {k})
  {
    if !b.samples[k].valid {
      next := current[k := Update(current[k], INVALID)];
    } else {
      Dispatch(pool, b, k);
      next := current;
    }
  }

  ghost function Prefix(order: seq<Key>, i: nat): (r: set<Key>)
    requires i <= |order|
    ensures forall k :: k in r <==> k in order[..i]
  {
    set k | k in order[..i]
  }

  lemma {:induction false} PrefixNext(order: seq<Key>, b: Batch, i: nat)
    requires i < |order| && ListsKeys(order, b)
    ensures order[i] in b.samples && order[i] !in Prefix(order, i) && Prefix(order, i + 1) == Prefix(order, i) + {order[i]}
  {
    assert order[..i + 1] == order[..i] + [order[i]];
    assert order[i] in order;
  }

  /** The submission loop. */
  method SubmitAll(pool: Pool<Key, Verdict>, b: Batch, order: seq<Key>) returns (current: map<Key, Sample>)
    requires Complete(b) && ListsKeys(order, b) && Serves(pool, b) && pool.Valid() && forall k :: !pool.Handled(k)
    modifies pool
    ensures Submitted(pool, b, current, b.samples.Keys)
  {
    current := b.samples;
    var i := 0;
    while i < |order|
      invariant 0 <= i <= |order|
      invariant Submitted(pool, b, current, Prefix(order, i))
    {
      PrefixNext(order, b, i);
      current := SubmitNext(pool, b, order[i], current, Prefix(order, i));
      i := i + 1;
    }
    assert order[..i] == order;
    assert Prefix(order, i) == b.samples.Keys;
  }

  lemma {:induction false} InvalidStaysInvalid(plan: Json, s: Sample, outcome: Outcome)
    requires !s.valid
    ensures Judged(plan, s, outcome) == Update(s, INVALID)
  {}

  /** Writing back the recorded verdicts gives the judged samples. */
  lemma {:induction false} AllJudged(b: Batch, current: map<Key, Sample>, results: map<Key, Verdict>, errors: set<Key>, k: Key)
    requires Complete(b) && Skipped(b, current, b.samples.Keys) && k in b.samples
    requires k in results || k in errors <==> b.samples[k].valid
    requires k in results ==> results[k] == Verdicts(b)[k]
    requires k in errors ==> Verdicts(b)[k] == INVALID
    ensures Judged(b.plans[k.query], b.samples[k], b.outcomes(k)) ==
            if k in results then Update(current[k], results[k])
            else if k in errors then Update(current[k], INVALID)
            else current[k]
  {
    if !b.samples[k].valid {
      InvalidStaysInvalid(b.plans[k.query], b.samples[k], b.outcomes(k));
    }
  }

  /**
    `evaluate_sampled_plans`: for every submission order, pool size and order of
    completion, every sample gets its one verdict.
   */
  method EvaluateSampledPlans(b: Batch, order: seq<Key>, maxWorkers: int) returns (r: Option<map<Key, Sample>>)
    requires Complete(b) && ListsKeys(order, b)
    ensures r.Some? <==> maxWorkers >= 1
    ensures r.Some? ==>
              && r.value.Keys == b.samples.Keys
              && forall k | k in b.samples :: r.value[k] == Judged(b.plans[k.query], b.samples[k], b.outcomes(k))
  {
    if maxWorkers < 1 {
      return None;
    }
    var pool := new Pool<Key, Verdict>(maxWorkers, k => Answer(b, k), INVALID, Verdicts(b));
    var current := SubmitAll(pool, b, order);
    pool.Drain();
    var written := WriteBack(current, pool.results, pool.errors);
    forall k | k in b.samples ensures written[k] == Judged(b.plans[k.query], b.samples[k], b.outcomes(k)) {
      assert pool.Handled(k) <==> k in pool.results || k in pool.errors;
      AllJudged(b, current, pool.results, pool.errors, k);
    }
    return Some(written);
  }
}
