/** What a schedule of resumed runs completes and loses, and what its files were sampled from. */
module ResumeSchedule {
  import opened Basics
  import opened SampleTree
  import opened ResumeReplay
  import opened ResumeLoss

  // ----- Schedules -----

  function Beyond(n: int, m: int): (r: set<int>)
    ensures forall s :: s in r <==> n < s <= m
    decreases m - n
  {
    if m <= n then {} else Beyond(n, m - 1) + {m}
  }

  /**
    The completed steps; those among them that the state lacks; and for each
    completed step, and for the next one if its sampled file exists already, the
    steps that were lacking in the state it was sampled from.
   */
  datatype Progress = Progress(done: nat, lost: set<int>, madeOn: seq<set<int>>, pending: Option<set<int>>)

  /** What the next step is evaluated on: an existing sampled file is reused. */
  function Source(p: Progress): set<int> {
    if p.pending.Some? then p.pending.value else p.lost
  }

  /** The next step is sampled, evaluated and accumulated. */
  function OneMore(p: Progress): Progress {
    Progress(p.done + 1, p.lost, p.madeOn + [Source(p)], None)
  }

  /** The step loop. */
  function Stepped(p: Progress, nSteps: int, crash: Crash): Progress
    decreases nSteps - p.done
  {
    if p.done >= nSteps || crash == BeforeSampled(p.done + 1) then p
    else if crash == BeforeEvaluated(p.done + 1) then p.(pending := Some(Source(p)))
    else if crash == BeforeAccumulated(p.done + 1) then OneMore(p).(lost := p.lost + {p.done + 1})
    else Stepped(OneMore(p), nSteps, crash)
  }

  function AfterRun(p: Progress, r: Invocation): Progress {
    if r.nSteps < p.done then p.(lost := Beyond(Replayed(p.done, r.nSteps, r.crash), p.done)) else Stepped(p, r.nSteps, r.crash)
  }

  /** What a sequence of runs makes of an empty directory. */
  function ProgressOf(runs: seq<Invocation>): Progress {
    if runs == [] then Progress(0, {}, [], None) else AfterRun(ProgressOf(runs[..|runs| - 1]), runs[|runs| - 1])
  }

  /** The same step counts and crashes, whoever produces the steps. */
  predicate SameSchedule(a: seq<Invocation>, b: seq<Invocation>) {
    |a| == |b| && forall i | 0 <= i < |a| :: a[i].nSteps == b[i].nSteps && a[i].crash == b[i].crash
  }

  lemma {:induction false} SameScheduleSameProgress(a: seq<Invocation>, b: seq<Invocation>)
    requires SameSchedule(a, b)
    ensures ProgressOf(a) == ProgressOf(b)
    decreases |a|
  {
    if a != [] {
      SameScheduleSameProgress(a[..|a| - 1], b[..|b| - 1]);
    }
  }

  predicate AgreeUpTo(a: set<int>, b: set<int>, k: int) {
    forall s | 1 <= s <= k :: s in a <==> s in b
  }

  /** Only completed steps are lost. */
  predicate LossesDone(p: Progress) {
    |p.madeOn| == p.done && forall s | s in p.lost :: 1 <= s <= p.done
  }

  /** Every step was sampled from the state that it joined. */
  predicate Straight(p: Progress) {
    && LossesDone(p)
    && (forall k | 0 <= k < p.done :: AgreeUpTo(p.madeOn[k], p.lost, k))
    && (p.pending.Some? ==> AgreeUpTo(p.pending.value, p.lost, p.done))
  }

  lemma {:induction false} SteppedStaysStraight(p: Progress, nSteps: int, crash: Crash)
    requires Straight(p)
    ensures Straight(Stepped(p, nSteps, crash)) && Stepped(p, nSteps, crash).done <= (if p.done < nSteps then nSteps else p.done)
    decreases nSteps - p.done
  {
    if p.done < nSteps {
      SteppedStaysStraight(OneMore(p), nSteps, crash);
    }
  }

  /**
    While no run asks for fewer steps than before, each step is evaluated on the
    state that it was sampled from, also when its sampled file is reused.
   */
  lemma {:induction false} NondecreasingIsStraight(runs: seq<Invocation>)
    requires Nondecreasing(runs)
    ensures Straight(ProgressOf(runs))
    ensures ProgressOf(runs).done <= if runs == [] then 0 else runs[|runs| - 1].nSteps
    decreases |runs|
  {
    if runs != [] {
      var init := runs[..|runs| - 1];
      assert forall i | 0 <= i < |init| :: init[i] == runs[i];
      NondecreasingIsStraight(init);
      SteppedStaysStraight(ProgressOf(init), runs[|runs| - 1].nSteps, runs[|runs| - 1].crash);
    }
  }

  lemma {:induction false} BenignSteps(p: Progress, nSteps: int, crash: Crash)
    requires Benign(crash)
    ensures Stepped(p, nSteps, crash).lost == p.lost
    decreases nSteps - p.done
  {
    if p.done < nSteps {
      BenignSteps(OneMore(p), nSteps, crash);
    }
  }

  /** And without a crash before an accumulation no step is lost. */
  lemma {:induction false} BenignLosesNothing(runs: seq<Invocation>)
    requires Nondecreasing(runs) && AllBenign(runs)
    ensures ProgressOf(runs).lost == {}
    decreases |runs|
  {
    if runs != [] {
      var init, last := runs[..|runs| - 1], runs[|runs| - 1];
      assert forall i | 0 <= i < |init| :: init[i] == runs[i];
      BenignLosesNothing(init);
      NondecreasingIsStraight(init);
      assert Benign(last.crash);
      BenignSteps(ProgressOf(init), last.nSteps, last.crash);
    }
  }

  // ----- The state while the runs go on -----

  /** The state after the steps `1..k`, of which the lost ones were not accumulated. */
  function LiveFold(base: seq<Node>, evaluated: map<int, Evaluated>, lost: set<int>, k: nat): seq<Node>
    requires HasSteps(evaluated, k)
  {
    if k == 0 then base
    else if k in lost then LiveFold(base, evaluated, lost, k - 1)
    else Grown(LiveFold(base, evaluated, lost, k - 1), evaluated[k])
  }

  /** It reads the files and losses up to `k` only. */
  lemma {:induction false} LiveReads(base: seq<Node>, a: map<int, Evaluated>, b: map<int, Evaluated>, lostA: set<int>, lostB: set<int>, k: nat)
    requires HasSteps(a, k) && HasSteps(b, k) && AgreeUpTo(lostA, lostB, k)
    requires forall i | 1 <= i <= k :: a[i] == b[i]
    ensures LiveFold(base, a, lostA, k) == LiveFold(base, b, lostB, k)
  {
    if k > 0 {
      LiveReads(base, a, b, lostA, lostB, k - 1);
    }
  }

  /** Without losses it is the replayed state. */
  lemma {:induction false} NothingLostIsFold(base: seq<Node>, evaluated: map<int, Evaluated>, lost: set<int>, k: nat)
    requires HasSteps(evaluated, k) && forall s | 1 <= s <= k :: s !in lost
    ensures LiveFold(base, evaluated, lost, k) == Fold(base, evaluated, k)
  {
    if k > 0 {
      NothingLostIsFold(base, evaluated, lost, k - 1);
    }
  }

  /** With all steps from `n` on lost it is the replayed state of `n` steps. */
  lemma {:induction false} TailLostIsFold(base: seq<Node>, evaluated: map<int, Evaluated>, n: nat, m: nat, k: nat)
    requires n <= k <= m && HasSteps(evaluated, k)
    ensures LiveFold(base, evaluated, Beyond(n, m), k) == Fold(base, evaluated, n)
  {
    if k > n {
      TailLostIsFold(base, evaluated, n, m, k - 1);
    } else {
      NothingLostIsFold(base, evaluated, Beyond(n, m), k);
    }
  }

  /** One of the runs can have sampled this file from this state. */
  ghost predicate SampledBy(runs: seq<Invocation>, k: int, nodes: seq<Node>, samples: Sampled) {
    exists i | 0 <= i < |runs| :: runs[i].produce.sample(k, nodes) == samples
  }

  /** One of the runs can have made this file from such a sampled file, possibly of another run. */
  ghost predicate MadeBy(runs: seq<Invocation>, k: int, nodes: seq<Node>, file: Evaluated) {
    exists i, samples | 0 <= i < |runs| && SampledBy(runs, k, nodes, samples) :: runs[i].produce.evaluate(k, samples) == file
  }

  /** The file of step `k + 1` was sampled from the state with these losses. */
  ghost predicate MadeAt(base: seq<Node>, evaluated: map<int, Evaluated>, lost: set<int>, runs: seq<Invocation>, k: nat)
    requires HasSteps(evaluated, k + 1)
  {
    MadeBy(runs, k + 1, LiveFold(base, evaluated, lost, k), evaluated[k + 1])
  }

  ghost predicate History(base: seq<Node>, evaluated: map<int, Evaluated>, madeOn: seq<set<int>>, runs: seq<Invocation>)
    requires HasSteps(evaluated, |madeOn|)
  {
    forall k | 0 <= k < |madeOn| :: MadeAt(base, evaluated, madeOn[k], runs, k)
  }

  /** The sampled files: none beyond the next step, and that one exactly if it is pending. */
  ghost predicate PendingIs(base: seq<Node>, d: Disk, p: Progress, runs: seq<Invocation>)
    requires HasSteps(d.evaluated, p.done)
  {
    && (forall s | s in d.sampled :: s <= p.done + 1)
    && (p.done + 1 in d.sampled <==> p.pending.Some?)
    && (p.pending.Some? ==>
          SampledBy(runs, p.done + 1, LiveFold(base, d.evaluated, p.pending.value, p.done), d.sampled[p.done + 1]))
  }

  /** The directory holds what the schedule says. */
  ghost predicate Live(base: seq<Node>, d: Disk, p: Progress, runs: seq<Invocation>) {
    && Completed(d.evaluated, p.done) && HasSteps(d.evaluated, p.done) && LossesDone(p)
    && History(base, d.evaluated, p.madeOn, runs) && PendingIs(base, d, p, runs)
    && d.final == Some(LiveFold(base, d.evaluated, p.lost, p.done))
  }

  // ----- Runs -----

  lemma {:induction false} HistoryNext(base: seq<Node>, a: map<int, Evaluated>, madeOn: seq<set<int>>, lost: set<int>, runs: seq<Invocation>, file: Evaluated)
    requires Completed(a, |madeOn|) && HasSteps(a, |madeOn|) && History(base, a, madeOn, runs)
    requires MadeBy(runs, |madeOn| + 1, LiveFold(base, a, lost, |madeOn|), file)
    ensures HasSteps(a[|madeOn| + 1 := file], |madeOn| + 1)
    ensures History(base, a[|madeOn| + 1 := file], madeOn + [lost], runs)
  {
    var b, after := a[|madeOn| + 1 := file], madeOn + [lost];
    forall k | 0 <= k < |after| ensures MadeAt(base, b, after[k], runs, k) {
      LiveReads(base, a, b, after[k], after[k], k);
      if k < |madeOn| { assert MadeAt(base, a, madeOn[k], runs, k); }
    }
  }

  /** The sampled file of the next step, a new one or the pending one. */
  lemma {:induction false} SampleIsPending(base: seq<Node>, d: Disk, p: Progress, runs: seq<Invocation>)
    requires runs != [] && Live(base, d, p, runs)
    ensures
      var s := WithSampled(d, p.done + 1, true, runs[|runs| - 1].produce);
      Live(base, s, p.(pending := Some(Source(p))), runs)
  {
    var produce := runs[|runs| - 1].produce;
    assert SampledBy(runs, p.done + 1, d.final.value, produce.sample(p.done + 1, d.final.value));
  }

  /** Evaluating the pending file; the step is accumulated, or lost. */
  lemma {:induction false} PendingIsEvaluated(base: seq<Node>, d: Disk, p: Progress, runs: seq<Invocation>, file: Evaluated, lost: set<int>)
    requires Live(base, d, p, runs) && p.pending.Some? && lost in {p.lost, p.lost + {p.done + 1}}
    requires MadeBy(runs, p.done + 1, LiveFold(base, d.evaluated, p.pending.value, p.done), file)
    ensures
      var final := if lost == p.lost then Grown(d.final.value, file) else d.final.value;
      Live(base, Disk(Some(final), d.sampled, d.evaluated[p.done + 1 := file]), OneMore(p).(lost := lost), runs)
  {
    var files := d.evaluated[p.done + 1 := file];
    NextCompleted(d.evaluated, p.done, file);
    HistoryNext(base, d.evaluated, p.madeOn, p.pending.value, runs, file);
    LiveReads(base, d.evaluated, files, p.lost, lost, p.done);
  }

  /** One step of the last run, up to its evaluated file. */
  lemma {:induction false} StepIsLive(base: seq<Node>, d: Disk, p: Progress, runs: seq<Invocation>)
    requires runs != [] && Live(base, d, p, runs)
    ensures
      var k, produce := p.done + 1, runs[|runs| - 1].produce;
      && Live(base, WithStep(d, k, true, produce), OneMore(p).(lost := p.lost + {k}), runs)
      && Live(base, AfterStep(WithStep(d, k, true, produce), k), OneMore(p), runs)
  {
    var k, produce := p.done + 1, runs[|runs| - 1].produce;
    var s := WithSampled(d, k, true, produce);
    var q := p.(pending := Some(Source(p)));
    SampleIsPending(base, d, p, runs);
    var file := produce.evaluate(k, s.sampled[k]);
    assert MadeBy(runs, k, LiveFold(base, s.evaluated, q.pending.value, q.done), file);
    assert WithStep(d, k, true, produce) == s.(evaluated := s.evaluated[k := file]);
    PendingIsEvaluated(base, s, q, runs, file, p.lost);
    PendingIsEvaluated(base, s, q, runs, file, p.lost + {k});
  }

  /** The step loop of the last run. */
  lemma {:induction false} LoopIsLive(base: seq<Node>, d: Disk, p: Progress, runs: seq<Invocation>)
    requires runs != [] && Live(base, d, p, runs) && p.done <= runs[|runs| - 1].nSteps
    ensures
      var last := runs[|runs| - 1];
      Live(base, RunFrom(d, p.done + 1, last.nSteps, true, last.produce, last.crash), AfterRun(p, last), runs)
    decreases runs[|runs| - 1].nSteps - p.done
  {
    var last, k := runs[|runs| - 1], p.done + 1;
    if k <= last.nSteps && last.crash != BeforeSampled(k) {
      if last.crash == BeforeEvaluated(k) {
        SampleIsPending(base, d, p, runs);
      } else {
        StepIsLive(base, d, p, runs);
        if last.crash != BeforeAccumulated(k) {
          LoopIsLive(base, AfterStep(WithStep(d, k, true, last.produce), k), OneMore(p), runs);
        }
      }
    }
  }

  lemma {:induction false} SampledByMore(runs: seq<Invocation>, k: int, nodes: seq<Node>, samples: Sampled)
    requires runs != [] && SampledBy(runs[..|runs| - 1], k, nodes, samples)
    ensures SampledBy(runs, k, nodes, samples)
  {
    var init := runs[..|runs| - 1];
    var i :| 0 <= i < |init| && init[i].produce.sample(k, nodes) == samples;
    assert runs[i] == init[i];
  }

  lemma {:induction false} MadeByMore(runs: seq<Invocation>, k: int, nodes: seq<Node>, file: Evaluated)
    requires runs != [] && MadeBy(runs[..|runs| - 1], k, nodes, file)
    ensures MadeBy(runs, k, nodes, file)
  {
    var init := runs[..|runs| - 1];
    var i, samples :| 0 <= i < |init| && SampledBy(init, k, nodes, samples) && init[i].produce.evaluate(k, samples) == file;
    SampledByMore(runs, k, nodes, samples);
    assert runs[i] == init[i];
  }

  /** What the earlier runs have left, seen from the last one. */
  lemma {:induction false} LiveInMore(base: seq<Node>, d: Disk, p: Progress, runs: seq<Invocation>)
    requires runs != [] && Live(base, d, p, runs[..|runs| - 1])
    ensures Live(base, d, p, runs)
  {
    forall k | 0 <= k < |p.madeOn| ensures MadeAt(base, d.evaluated, p.madeOn[k], runs, k) {
      assert MadeAt(base, d.evaluated, p.madeOn[k], runs[..|runs| - 1], k);
      MadeByMore(runs, k + 1, LiveFold(base, d.evaluated, p.madeOn[k], k), d.evaluated[k + 1]);
    }
    if p.pending.Some? {
      SampledByMore(runs, p.done + 1, LiveFold(base, d.evaluated, p.pending.value, p.done), d.sampled[p.done + 1]);
    }
  }

  predicate IsEmptyDir(d: Disk) {
    d.final.None? && d.sampled == map[] && d.evaluated == map[]
  }

  lemma {:induction false} RebuildIsLive(base: seq<Node>, d: Disk, p: Progress, runs: seq<Invocation>, r: Invocation)
    requires Completed(d.evaluated, p.done) && HasSteps(d.evaluated, p.done) && |p.madeOn| == p.done
    requires History(base, d.evaluated, p.madeOn, runs) && PendingIs(base, d, p, runs) && r.nSteps < p.done
    ensures
      var after := Ran(base, d, r.nSteps, true, r.produce, r.crash);
      after.Some? && Live(base, after.value, AfterRun(p, r), runs)
  {
    RebuildIsFold(base, d, p.done, r.nSteps, r.produce, r.crash);
    TailLostIsFold(base, d.evaluated, Replayed(p.done, r.nSteps, r.crash), p.done, p.done);
  }

  lemma {:induction false} FirstRunIsLive(base: seq<Node>, run: Invocation)
    ensures
      var after := Ran(base, EMPTY_DIR, run.nSteps, true, run.produce, run.crash);
      after.Some? && Live(base, after.value, AfterRun(ProgressOf([]), run), [run])
  {
    assert Completed(EMPTY_DIR.evaluated, 0);
    if run.nSteps < 0 {
      RebuildIsLive(base, EMPTY_DIR, ProgressOf([]), [run], run);
    } else {
      NothingIsCut(EMPTY_DIR, 0, run.nSteps, run.crash);
      RanIs(base, EMPTY_DIR, 0, run.nSteps, run.produce, run.crash);
      LoopIsLive(base, Resumed(base, EMPTY_DIR, 0), ProgressOf([]), [run]);
    }
  }

  lemma {:induction false} NextRunIsLive(base: seq<Node>, before: Disk, p: Progress, runs: seq<Invocation>)
    requires runs != [] && Live(base, before, p, runs[..|runs| - 1])
    ensures
      var last := runs[|runs| - 1];
      var after := Ran(base, before, last.nSteps, true, last.produce, last.crash);
      after.Some? && Live(base, after.value, AfterRun(p, last), runs)
  {
    var last := runs[|runs| - 1];
    LiveInMore(base, before, p, runs);
    if last.nSteps < p.done {
      RebuildIsLive(base, before, p, runs, last);
    } else {
      BehindRuns(base, before, p.done, last.nSteps, last.produce, last.crash);
      LoopIsLive(base, before, p, runs);
    }
  }

  /**
    From an empty directory, after any sequence of runs the schedule alone tells
    which steps have files and which of them the state lacks, and from a state
    with which losses the samples of each step were taken, reused sampled files
    included.
   */
  lemma {:induction false} RunsAreLive(base: seq<Node>, runs: seq<Invocation>)
    requires runs != []
    ensures RanAll(base, EMPTY_DIR, runs).Some?
    ensures Live(base, RanAll(base, EMPTY_DIR, runs).value, ProgressOf(runs), runs)
    decreases |runs|
  {
    var init, last := runs[..|runs| - 1], runs[|runs| - 1];
    if init == [] {
      assert runs == [last];
      FirstRunIsLive(base, last);
    } else {
      RunsAreLive(base, init);
      NextRunIsLive(base, RanAll(base, EMPTY_DIR, init).value, ProgressOf(init), runs);
    }
  }

  // ----- What the state lacks -----

  predicate Holds(evaluated: map<int, Evaluated>, k: int) {
    k in evaluated && evaluated[k] != []
  }

  /** Some lost step up to `n` holds samples. */
  ghost predicate LosesSamples(evaluated: map<int, Evaluated>, lost: set<int>, n: int) {
    exists j :: 1 <= j <= n && j in lost && Holds(evaluated, j)
  }

  /** Nothing was lost: the replayed state is the live one. */
  lemma {:induction false} ReplayedIsLive(base: seq<Node>, evaluated: map<int, Evaluated>, lost: set<int>, n: nat)
    requires HasSteps(evaluated, n) && !LosesSamples(evaluated, lost, n)
    ensures Fold(base, evaluated, n) == LiveFold(base, evaluated, lost, n)
  {
    if n > 0 {
      assert !LosesSamples(evaluated, lost, n - 1);
      ReplayedIsLive(base, evaluated, lost, n - 1);
      assert n in lost ==> !Holds(evaluated, n);
      GrownByNothing(Fold(base, evaluated, n - 1));
    }
  }

  lemma {:induction false} LossIsShorter(base: seq<Node>, evaluated: map<int, Evaluated>, lost: set<int>, n: nat)
    requires HasSteps(evaluated, n)
    ensures |LiveFold(base, evaluated, lost, n)| <= |Fold(base, evaluated, n)|
    ensures LosesSamples(evaluated, lost, n) ==> |LiveFold(base, evaluated, lost, n)| < |Fold(base, evaluated, n)|
  {
    if n > 0 {
      LossIsShorter(base, evaluated, lost, n - 1);
      assert LosesSamples(evaluated, lost, n) ==> (n in lost && Holds(evaluated, n)) || LosesSamples(evaluated, lost, n - 1);
    }
  }

  /**
    After any sequence of runs, with any step counts and crashes, the state is
    the fold over all completed steps if and only if the steps that the schedule
    leaves out hold no samples.
   */
  lemma {:induction false} StateIsFoldIff(base: seq<Node>, runs: seq<Invocation>)
    requires runs != []
    ensures
      var after, p := RanAll(base, EMPTY_DIR, runs), ProgressOf(runs);
      && after.Some? && after.value.final.Some? && Completed(after.value.evaluated, p.done) && HasSteps(after.value.evaluated, p.done)
      && (after.value.final.value == Fold(base, after.value.evaluated, p.done) <==>
          !LosesSamples(after.value.evaluated, p.lost, p.done))
  {
    RunsAreLive(base, runs);
    var d, p := RanAll(base, EMPTY_DIR, runs).value, ProgressOf(runs);
    if LosesSamples(d.evaluated, p.lost, p.done) {
      LossIsShorter(base, d.evaluated, p.lost, p.done);
    } else {
      ReplayedIsLive(base, d.evaluated, p.lost, p.done);
    }
  }
}
