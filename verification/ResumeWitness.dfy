/** A run of the sampler whose measurements show from which state each step was sampled. */
module ResumeWitness {
  import opened Basics
  import opened Json
  import opened SampleTree
  import opened BaseSelection
  import opened SampleEvaluation
  import opened SampleRuns
  import opened ResumeReplay
  import opened ResumeSchedule
  import opened ResumeRisk
  import opened ResumeProvenance
  import Patching = JsonPatch

  // ----- Steps of one sample -----

  /** The patch that puts the base plan in the place of what is there. */
  function Reset(plan: Json): Json {
    Obj([Field("op", Str("add")), Field("path", Str("")), Field("value", plan)])
  }

  lemma {:induction false} ResetMembers(plan: Json)
    ensures HasKey(Reset(plan).fields, "op") && GetField(Reset(plan).fields, "op") == Str("add")
    ensures HasKey(Reset(plan).fields, "path") && GetField(Reset(plan).fields, "path") == Str("")
    ensures HasKey(Reset(plan).fields, "value") && GetField(Reset(plan).fields, "value") == plan
  {
    var fs := Reset(plan).fields;
    assert fs[0].key == "op" && fs[1].key == "path" && fs[2].key == "value";
    assert |"op"| == 2 && |"path"| == 4 && |"value"| == 5;
    assert fs[1..][0] == fs[1] && fs[1..][1..][0] == fs[2];
  }

  lemma {:induction false} ResetApplies(plan: Json, doc: Json)
    ensures Patching.Apply(doc, Arr([Reset(plan)])) == Ok(plan)
  {
    ResetMembers(plan);
    assert Patching.Split("") == Ok([]);
    assert Patching.AddOp(doc, Reset(plan).fields) == Ok(plan);
    assert Patching.ApplyOp(doc, Reset(plan)) == Ok(plan);
    assert [Reset(plan)][1..] == [];
    assert Patching.ApplyOps(plan, []) == Ok(plan);
    assert Patching.ApplyOps(doc, [Reset(plan)]) == Ok(plan);
  }

  /** One sample in every step, taken from the sample of the step before. */
  function OnePerStep(plan: Json): Settings {
    Settings(plan, None, PstEvol, 1, "")
  }

  /** What is sampled in step `k`: a patch in step `i`, and none in any other. */
  function PatchesAt(plan: Json, i: int, k: int): Patch {
    if k == i then [Reset(plan)] else []
  }

  function GeneratedAt(plan: Json, i: int, k: int): Generated {
    Generated(Some(PatchesAt(plan, i, k)), false)
  }

  /** The model patches the plan in step `i` only, and all evaluations succeed. */
  ghost function Answering(plan: Json, i: int): World {
    World((k: int, nodes: seq<Node>, b: nat, s: nat) => GeneratedAt(plan, i, k),
          (k: int, samples: Sampled, x: nat) => Benchmarked(map[]),
          (k: int, nodes: seq<Node>) => [])
  }

  /** The sampler, with these answers. */
  ghost function Marking(plan: Json, i: int): Producer {
    Sampler(OnePerStep(plan), Answering(plan, i))
  }

  /** Only the last node is `is_last`. */
  predicate Spine(nodes: seq<Node>) {
    IsTree(nodes) && LastFrom(nodes, |nodes| - 1)
  }

  lemma {:induction false} LastIsOnlyCandidate(nodes: seq<Node>, s: Strategy)
    requires nodes != [] && LastFrom(nodes, |nodes| - 1) && s.start.OfLast? && !s.fromValidOnly
    ensures Candidates(nodes, s, |nodes|) == [|nodes| - 1]
  {
    var r := Candidates(nodes, s, |nodes|);
    LastCandidates(nodes, s, |nodes| - 1, |nodes|);
    CandidatesAre(nodes, s, |nodes|);
    assert r[0] in r;
  }

  lemma {:induction false} LastIsSelected(plan: Json, k: nat, nodes: seq<Node>)
    requires nodes != [] && LastFrom(nodes, |nodes| - 1) && 1 <= k && (k == 1 ==> |nodes| == 1)
    ensures Selected(nodes, StrategyAt(OnePerStep(plan), k)) == Ok([|nodes| - 1])
    ensures PerBaseAt(OnePerStep(plan), k) == 1
  {
    if k > 1 {
      LastIsOnlyCandidate(nodes, StrategyAt(OnePerStep(plan), k));
    }
  }

  lemma {:induction false} OneBase(nodes: seq<Node>, s: Strategy, x: nat)
    requires IsTree(nodes) && x < |nodes| && Selected(nodes, s) == Ok([x])
    ensures Bases(nodes, s) == Ok([BaseAt(nodes, x)])
  {
    assert BasesAt(nodes, [x]) == [BaseAt(nodes, x)];
  }

  lemma {:induction false} OneSample(base: Base, gs: seq<seq<Generated>>, g: Generated)
    requires |gs| == 1 && gs[0] == [g]
    ensures SampleAll([base], gs) == [SampleFrom(base, g)]
  {
    assert [base][1..] == [] && gs[1..] == [];
    assert SampleAll([], []) == [];
    assert SamplesFrom(base, [g]) == [SampleFrom(base, g)];
  }

  lemma {:induction false} MarkingGenerates(plan: Json, i: int, k: nat, nodes: seq<Node>)
    requires CanSample(OnePerStep(plan), k, nodes) && |Bases(nodes, StrategyAt(OnePerStep(plan), k)).value| == 1
    requires PerBaseAt(OnePerStep(plan), k) == 1
    ensures
      var gs := GeneratedFor(OnePerStep(plan), Answering(plan, i), k, nodes);
      |gs| == 1 && gs[0] == [GeneratedAt(plan, i, k)]
  {
    assert Answering(plan, i).generate(k, nodes, 0, 0) == GeneratedAt(plan, i, k);
  }

  lemma {:induction false} MarkingSamples(plan: Json, i: int, k: nat, nodes: seq<Node>)
    requires Spine(nodes) && 1 <= k && (k == 1 ==> |nodes| == 1)
    ensures CanSample(OnePerStep(plan), k, nodes)
    ensures Marking(plan, i).sample(k, nodes) == [SampleFrom(BaseAt(nodes, |nodes| - 1), GeneratedAt(plan, i, k))]
  {
    LastIsSelected(plan, k, nodes);
    OneBase(nodes, StrategyAt(OnePerStep(plan), k), |nodes| - 1);
    MarkingGenerates(plan, i, k, nodes);
    OneSample(BaseAt(nodes, |nodes| - 1), GeneratedFor(OnePerStep(plan), Answering(plan, i), k, nodes), GeneratedAt(plan, i, k));
    assert Marking(plan, i).sample(k, nodes) == SamplesOf(OnePerStep(plan), Answering(plan, i), k, nodes);
  }

  lemma {:induction false} MarkingEvaluates(plan: Json, i: int, k: int, s: Sample)
    ensures Marking(plan, i).evaluate(k, [s]) == [Judged(plan, s, Benchmarked(map[]))]
  {
    assert Marking(plan, i).evaluate(k, [s]) == EvaluationOf(plan, Answering(plan, i), k, [s]);
    assert Answering(plan, i).outcome(k, [s], 0) == Benchmarked(map[]);
  }

  /** A file with one valid sample of the last node: unpatched, it inherits the measurement of that node if it is valid. */
  predicate IsStepFile(i: int, k: int, nodes: seq<Node>, file: Evaluated)
    requires IsTree(nodes)
  {
    && |file| == 1 && file[0].valid && file[0].patches.Some?
    && file[0].parent == nodes[|nodes| - 1].id
    && (if k == i then file[0].patches.value != [] && file[0].stats.Some? && file[0].stats.value.measuredOn != []
        else file[0].patches.value == [] && (nodes[|nodes| - 1].valid ==> file[0].stats == nodes[|nodes| - 1].stats))
  }

  /** A successful evaluation of a patched sample measures its patches. */
  lemma {:induction false} PatchedIsMeasured(plan: Json, s: Sample, p: Patch)
    requires s.valid && s.patches == Some(p) && p != [] && s.upstream == [] && Patching.Apply(plan, Arr(p)).Ok?
    ensures Judged(plan, s, Benchmarked(map[])) == s.(stats := Some(Stats(p, map[])))
  {
    assert [] + p == p;
    assert RouteOf(plan, s) == Remote(p);
  }

  /** A sample without patches inherits the measurement. */
  lemma {:induction false} UnpatchedInherits(plan: Json, s: Sample)
    requires s.valid && s.patches == Some([])
    ensures Judged(plan, s, Benchmarked(map[])) == s.(stats := s.upstreamStats)
  {}

  lemma {:induction false} JudgedIsStepFile(plan: Json, i: int, k: int, nodes: seq<Node>)
    requires IsTree(nodes) && (k == i ==> Upstream(nodes, |nodes| - 1, false) == [])
    ensures IsStepFile(i, k, nodes, [Judged(plan, SampleFrom(BaseAt(nodes, |nodes| - 1), GeneratedAt(plan, i, k)), Benchmarked(map[]))])
  {
    var s := SampleFrom(BaseAt(nodes, |nodes| - 1), GeneratedAt(plan, i, k));
    if k == i {
      ResetApplies(plan, plan);
      PatchedIsMeasured(plan, s, [Reset(plan)]);
    } else {
      UnpatchedInherits(plan, s);
    }
  }

  lemma {:induction false} MarkingMakes(plan: Json, i: int, k: nat, nodes: seq<Node>)
    requires Spine(nodes) && 1 <= k && (k == 1 ==> |nodes| == 1)
    requires k == i ==> Upstream(nodes, |nodes| - 1, false) == []
    ensures IsStepFile(i, k, nodes, Marking(plan, i).evaluate(k, Marking(plan, i).sample(k, nodes)))
  {
    MarkingSamples(plan, i, k, nodes);
    MarkingEvaluates(plan, i, k, SampleFrom(BaseAt(nodes, |nodes| - 1), GeneratedAt(plan, i, k)));
    JudgedIsStepFile(plan, i, k, nodes);
  }

  // ----- Trees of such samples -----

  /** Below the root no node has patches. */
  predicate Unpatched(nodes: seq<Node>, n: nat) {
    forall x | 0 < x < |nodes| && x <= n :: nodes[x].patches == Some([])
  }

  lemma {:induction false} UnpatchedUpstream(nodes: seq<Node>, n: nat, k: nat)
    requires IsTree(nodes) && Unpatched(nodes, n) && k < |nodes| && k <= n
    ensures Upstream(nodes, k, false) == []
    decreases k
  {
    if k > 0 {
      assert IsChild(nodes, k);
      UnpatchedUpstream(nodes, n, ParentAt(nodes[k]));
    }
  }

  /** A file attaches to the tree it was made on, and to any tree that is as long. */
  lemma {:induction false} SpineGrows(i: int, k: int, a: seq<Node>, b: seq<Node>, file: Evaluated)
    requires IsTree(a) && IsStepFile(i, k, a, file) && Spine(b) && |a| <= |b|
    ensures Spine(Grown(b, file))
  {
    var last := |a| - 1;
    RootIsFirst(a, last);
    assert last > 0 ==> IsChild(a, last);
    assert Attaches(b, file[0]) && AllAttach(b, file);
    GrownIsTree(b, file);
    GrownLast(b, file, |b| - 1);
  }

  // ----- Files and states -----

  ghost predicate AllProduce(runs: seq<Invocation>, produce: Producer) {
    forall x | 0 <= x < |runs| :: runs[x].produce == produce
  }

  /** The file of step `k + 1` on the state with these losses. */
  ghost predicate FileAt(i: int, base: seq<Node>, evaluated: map<int, Evaluated>, lost: set<int>, k: nat)
    requires HasSteps(evaluated, k + 1)
  {
    var nodes := LiveFold(base, evaluated, lost, k);
    IsTree(nodes) && IsStepFile(i, k + 1, nodes, evaluated[k + 1])
  }

  /** The files of the first `n` steps. */
  ghost predicate FilesUpTo(i: int, base: seq<Node>, evaluated: map<int, Evaluated>, madeOn: seq<set<int>>, n: nat)
    requires n <= |madeOn| && HasSteps(evaluated, |madeOn|)
  {
    forall k | 0 <= k < n :: FileAt(i, base, evaluated, madeOn[k], k)
  }

  ghost predicate Singles(evaluated: map<int, Evaluated>, n: nat) {
    forall k | 1 <= k <= n :: k in evaluated && |evaluated[k]| == 1
  }

  lemma {:induction false} FilesAreSingle(i: int, base: seq<Node>, evaluated: map<int, Evaluated>, madeOn: seq<set<int>>, n: nat)
    requires n <= |madeOn| && HasSteps(evaluated, |madeOn|) && FilesUpTo(i, base, evaluated, madeOn, n)
    ensures Singles(evaluated, n)
  {
    forall k | 1 <= k <= n ensures |evaluated[k]| == 1 {
      assert FileAt(i, base, evaluated, madeOn[k - 1], k - 1);
    }
  }

  lemma {:induction false} LiveSize(base: seq<Node>, evaluated: map<int, Evaluated>, lost: set<int>, k: nat)
    requires |base| == 1 && Singles(evaluated, k) && HasSteps(evaluated, k)
    ensures |LiveFold(base, evaluated, lost, k)| == 1 + CountKept(lost, k)
  {
    if k > 0 {
      LiveSize(base, evaluated, lost, k - 1);
    }
  }

  /** While every step comes behind its parent, states are spines. */
  lemma {:induction false} LiveIsSpine(i: int, base: seq<Node>, evaluated: map<int, Evaluated>, madeOn: seq<set<int>>, lost: set<int>, k: nat)
    requires |base| == 1 && Spine(base) && k <= |madeOn| && HasSteps(evaluated, |madeOn|)
    requires FilesUpTo(i, base, evaluated, madeOn, k) && Attached(madeOn, lost, k)
    ensures Spine(LiveFold(base, evaluated, lost, k))
    decreases k
  {
    if k > 0 {
      LiveIsSpine(i, base, evaluated, madeOn, lost, k - 1);
      if k !in lost {
        FilesAreSingle(i, base, evaluated, madeOn, k);
        LiveSize(base, evaluated, lost, k - 1);
        LiveSize(base, evaluated, madeOn[k - 1], k - 1);
        assert FileAt(i, base, evaluated, madeOn[k - 1], k - 1);
        SpineGrows(i, k, LiveFold(base, evaluated, madeOn[k - 1], k - 1), LiveFold(base, evaluated, lost, k - 1), evaluated[k]);
      }
    }
  }

  /** Before step `i` no state has patches. */
  lemma {:induction false} LiveIsUnpatched(i: int, base: seq<Node>, evaluated: map<int, Evaluated>, madeOn: seq<set<int>>, lost: set<int>, k: nat)
    requires |base| == 1 && k < i && k <= |madeOn| && HasSteps(evaluated, |madeOn|) && FilesUpTo(i, base, evaluated, madeOn, k)
    ensures Unpatched(LiveFold(base, evaluated, lost, k), |LiveFold(base, evaluated, lost, k)|)
    decreases k
  {
    if k > 0 {
      LiveIsUnpatched(i, base, evaluated, madeOn, lost, k - 1);
      assert FileAt(i, base, evaluated, madeOn[k - 1], k - 1);
      GrownIsUnpatched(LiveFold(base, evaluated, lost, k - 1), evaluated[k]);
    }
  }

  lemma {:induction false} GrownIsUnpatched(nodes: seq<Node>, file: Evaluated)
    requires Unpatched(nodes, |nodes|) && |file| == 1 && file[0].patches == Some([])
    ensures Unpatched(Grown(nodes, file), |nodes| + 1)
  {
    var r := Grown(nodes, file);
    forall x | 0 < x < |r| ensures r[x].patches == Some([]) {
      if x < |nodes| {
        assert r[x] == Updated(nodes[x], file);
      } else {
        assert r[x] == NewNode(file[0], x);
      }
    }
  }

  lemma {:induction false} MarkingMade(plan: Json, i: int, runs: seq<Invocation>, k: int, nodes: seq<Node>, file: Evaluated)
    requires AllProduce(runs, Marking(plan, i)) && MadeBy(runs, k, nodes, file)
    ensures file == Marking(plan, i).evaluate(k, Marking(plan, i).sample(k, nodes))
  {
    var x, samples :| 0 <= x < |runs| && SampledBy(runs, k, nodes, samples) && runs[x].produce.evaluate(k, samples) == file;
    var y :| 0 <= y < |runs| && runs[y].produce.sample(k, nodes) == samples;
  }

  /** The marking sampler makes such files, on trees. */
  lemma {:induction false} NextFile(plan: Json, i: int, base: seq<Node>, evaluated: map<int, Evaluated>, p: Progress, runs: seq<Invocation>, k: nat)
    requires |base| == 1 && Spine(base) && AllProduce(runs, Marking(plan, i)) && Followable(p) && k < p.done
    requires HasSteps(evaluated, p.done) && History(base, evaluated, p.madeOn, runs) && FilesUpTo(i, base, evaluated, p.madeOn, k)
    ensures FileAt(i, base, evaluated, p.madeOn[k], k)
  {
    var nodes := LiveFold(base, evaluated, p.madeOn[k], k);
    LiveIsSpine(i, base, evaluated, p.madeOn, p.madeOn[k], k);
    if k + 1 == i {
      LiveIsUnpatched(i, base, evaluated, p.madeOn, p.madeOn[k], k);
      UnpatchedUpstream(nodes, |nodes|, |nodes| - 1);
    }
    assert MadeAt(base, evaluated, p.madeOn[k], runs, k);
    MarkingMade(plan, i, runs, k + 1, nodes, evaluated[k + 1]);
    MarkingMakes(plan, i, k + 1, nodes);
  }

  lemma {:induction false} AllFiles(plan: Json, i: int, base: seq<Node>, evaluated: map<int, Evaluated>, p: Progress, runs: seq<Invocation>, n: nat)
    requires |base| == 1 && Spine(base) && AllProduce(runs, Marking(plan, i)) && Followable(p) && n <= p.done
    requires HasSteps(evaluated, p.done) && History(base, evaluated, p.madeOn, runs)
    ensures FilesUpTo(i, base, evaluated, p.madeOn, n)
    decreases n
  {
    if n > 0 {
      AllFiles(plan, i, base, evaluated, p, runs, n - 1);
      NextFile(plan, i, base, evaluated, p, runs, n - 1);
    }
  }

  // ----- The misattributed sample -----

  lemma {:induction false} LossesAddNothing(base: seq<Node>, evaluated: map<int, Evaluated>, lost: set<int>, i: nat, k: nat)
    requires i <= k && HasSteps(evaluated, k) && forall x | i < x <= k :: x in lost
    ensures LiveFold(base, evaluated, lost, k) == LiveFold(base, evaluated, lost, i)
    decreases k
  {
    if i < k {
      LossesAddNothing(base, evaluated, lost, i, k - 1);
    }
  }

  /** A sample without patches that claims to have been measured on some. */
  predicate Claims(s: Sample, p: nat) {
    s.parent == Some(p) && s.valid && s.patches == Some([]) && s.stats.Some? && s.stats.value.measuredOn != []
  }

  /** The last node of a state is that of the last step it holds. */
  lemma {:induction false} LastNode(base: seq<Node>, evaluated: map<int, Evaluated>, lost: set<int>, i: nat, k: nat)
    requires |base| == 1 && HasSteps(evaluated, k) && Singles(evaluated, k) && LastKept(lost, i, k)
    ensures
      var nodes, p := LiveFold(base, evaluated, lost, k), CountKept(lost, k);
      |nodes| == p + 1 && nodes[p] == NewNode(evaluated[i][0], p)
  {
    LossesAddNothing(base, evaluated, lost, i, k);
    LiveSize(base, evaluated, lost, i - 1);
    LiveSize(base, evaluated, lost, k);
    LastKeptCount(lost, i, k);
    var before := LiveFold(base, evaluated, lost, i - 1);
    assert Grown(before, evaluated[i])[|before|] == NewNode(evaluated[i][0], |before|);
  }

  /** A step behind a patched one inherits its measurement. */
  lemma {:induction false} StepInherits(i: int, k: int, nodes: seq<Node>, file: Evaluated, patched: Sample, p: nat)
    requires IsTree(nodes) && IsStepFile(i, k, nodes, file) && k != i
    requires |nodes| == p + 1 && nodes[p] == NewNode(patched, p)
    requires patched.valid && patched.stats.Some? && patched.stats.value.measuredOn != []
    ensures |file| == 1 && Claims(file[0], p)
  {}

  /** The sample behind step `k` inherits the measurement of step `i`, the last one that its source held. */
  lemma {:induction false} InheritedSample(i: nat, base: seq<Node>, evaluated: map<int, Evaluated>, madeOn: seq<set<int>>, k: nat)
    requires |base| == 1 && k < |madeOn| && HasSteps(evaluated, |madeOn|) && FilesUpTo(i, base, evaluated, madeOn, k + 1)
    requires LastKept(madeOn[k], i, k)
    ensures |evaluated[k + 1]| == 1 && Claims(evaluated[k + 1][0], CountKept(madeOn[k], k))
  {
    var lost := madeOn[k];
    FilesAreSingle(i, base, evaluated, madeOn, k + 1);
    LastNode(base, evaluated, lost, i, k);
    assert FileAt(i, base, evaluated, madeOn[i - 1], i - 1) && FileAt(i, base, evaluated, lost, k);
    StepInherits(i, k + 1, LiveFold(base, evaluated, lost, k), evaluated[k + 1], evaluated[i][0], CountKept(lost, k));
  }

  predicate SameSample(n: Node, s: Sample) {
    n.parent == s.parent && n.patches == s.patches && n.valid == s.valid && n.stats == s.stats
  }

  /** Where a sample does not come behind its parent there is no tree; where its ancestors have no patches, the claim is false. */
  lemma {:induction false} ClaimIsFalse(nodes: seq<Node>, s: Sample, p: nat, k: nat)
    requires Claims(s, p) && 0 < k < |nodes| && SameSample(nodes[k], s) && (p < k ==> Unpatched(nodes, p)) && 1 <= p
    ensures !Provenance(nodes)
  {
    if IsTree(nodes) {
      assert IsChild(nodes, k);
      UnpatchedUpstream(nodes, p, p);
      assert Upstream(nodes, k, false) == [] + [];
      assert !MeasuredAt(nodes, k);
    }
  }

  /** The node of a step that is there, in any later state. */
  lemma {:induction false} NodeOfStep(base: seq<Node>, evaluated: map<int, Evaluated>, lost: set<int>, k: nat, n: nat)
    requires |base| == 1 && k < n && Singles(evaluated, n) && HasSteps(evaluated, n) && k + 1 !in lost
    ensures
      var nodes, x := LiveFold(base, evaluated, lost, n), 1 + CountKept(lost, k);
      x < |nodes| && SameSample(nodes[x], evaluated[k + 1][0])
  {
    var joined, nodes, x := LiveFold(base, evaluated, lost, k + 1), LiveFold(base, evaluated, lost, n), 1 + CountKept(lost, k);
    LiveSize(base, evaluated, lost, k);
    assert joined[x] == NewNode(evaluated[k + 1][0], x);
    LiveExtends(base, evaluated, lost, k + 1, n);
    assert joined[x].(isLast := false, isLeaf := false) == nodes[x].(isLast := false, isLeaf := false);
  }

  /** Up to `q` nothing is lost, so that the nodes up to `p` are those of the steps up to `p`, all of them without patches. */
  lemma {:induction false} FirstAreUnpatched(i: nat, base: seq<Node>, evaluated: map<int, Evaluated>, madeOn: seq<set<int>>, lost: set<int>, q: nat, k: nat, p: nat)
    requires |base| == 1 && HasSteps(evaluated, |madeOn|) && FilesUpTo(i, base, evaluated, madeOn, |madeOn|)
    requires TailOnly(lost, q, k) && k <= |madeOn| && p <= q && p < i
    ensures Unpatched(LiveFold(base, evaluated, lost, |madeOn|), p)
  {
    var nodes := LiveFold(base, evaluated, lost, |madeOn|);
    FilesAreSingle(i, base, evaluated, madeOn, |madeOn|);
    forall x | 0 < x < |nodes| && x <= p ensures nodes[x].patches == Some([]) {
      assert TailOnly(lost, x - 1, x - 1);
      TailCount(lost, x - 1, x - 1);
      NodeOfStep(base, evaluated, lost, x - 1, |madeOn|);
      assert FileAt(i, base, evaluated, madeOn[x - 1], x - 1);
    }
  }

  lemma {:induction false} RiskMisattributes(i: nat, base: seq<Node>, evaluated: map<int, Evaluated>, p: Progress, k: nat)
    requires |base| == 1 && WellJoined(p) && HasSteps(evaluated, p.done) && FilesUpTo(i, base, evaluated, p.madeOn, p.done)
    requires RiskyAt(p, k) && LastKept(p.madeOn[k], i, k)
    ensures !Provenance(LiveFold(base, evaluated, p.lost, p.done))
  {
    var a, nodes := p.madeOn[k], LiveFold(base, evaluated, p.lost, p.done);
    if AgreeUpTo(a, p.lost, k) {
      AgreeingIsStart(a, p.lost, k);
    }
    assert Joins(a, p.lost, k);
    var q :| TailOnly(p.lost, q, k);
    RiskIsShift(a, p.lost, q, i, k);
    TailCount(p.lost, q, k);
    FilesAreSingle(i, base, evaluated, p.madeOn, p.done);
    InheritedSample(i, base, evaluated, p.madeOn, k);
    NodeOfStep(base, evaluated, p.lost, k, p.done);
    if CountKept(a, k) <= q {
      FirstAreUnpatched(i, base, evaluated, p.madeOn, p.lost, q, k, CountKept(a, k));
    }
    ClaimIsFalse(nodes, evaluated[k + 1][0], CountKept(a, k), 1 + q);
  }

  lemma {:induction false} AgreeingIsStart(a: set<int>, b: set<int>, k: int)
    requires AgreeUpTo(a, b, k)
    ensures StartOf(a, b, k)
  {}
}
