/** `run_sampling_steps`: the step loop, and rebuilding the state from the artifacts of earlier runs. */
module ResumeReplay {
  import opened Basics
  import opened Sorting
  import opened SampleTree

  /** The samples of one step, as its `sampled_plans.json` holds them. */
  type Sampled = seq<Sample>

  /** The same after the evaluation, in `evaluated_sampled_plans.json`. */
  type Evaluated = seq<Sample>

  /** The sampling directory: the accumulated state, if it was written, and the sampled and the evaluated files by step. */
  datatype Disk = Disk(final: Option<seq<Node>>, sampled: map<int, Sampled>, evaluated: map<int, Evaluated>)

  const EMPTY_DIR := Disk(None, map[], map[])

  /**
    Where a run can be cut off: before it has written the sampled file of a step,
    the evaluated file, or the new state; or when a rebuild has replayed only some
    of the files.
   */
  datatype Crash =
    NoCrash | BeforeSampled(step: int) | BeforeEvaluated(step: int) | BeforeAccumulated(step: int) | WhileRebuilding(replayed: nat)

  /** What sampling makes of the accumulated state, and evaluation of the sampled file. */
  datatype Producer = Producer(sample: (int, seq<Node>) -> Sampled, evaluate: (int, Sampled) -> Evaluated)

  // ----- The run as a function of the disk -----

  /** `max(completed_steps)`, or 0. */
  function MaxCompleted(evaluated: map<int, Evaluated>): int {
    if evaluated.Keys == {} then 0 else Maximum(evaluated.Keys)
  }

  function RebuildLimit(evaluated: map<int, Evaluated>, nSteps: int): int {
    var m := MaxCompleted(evaluated);
    if nSteps >= 0 && nSteps < m then nSteps else m
  }

  predicate HasSteps(evaluated: map<int, Evaluated>, limit: int) {
    forall k | 1 <= k <= limit :: k in evaluated
  }

  /** The state after accumulating the files of steps `1..k`. */
  function Fold(base: seq<Node>, evaluated: map<int, Evaluated>, k: nat): seq<Node>
    requires HasSteps(evaluated, k)
  {
    if k == 0 then base else Grown(Fold(base, evaluated, k - 1), evaluated[k])
  }

  /** The sampled file of step `k`: an existing one is reused on resume, whatever state it was sampled from. */
  function WithSampled(d: Disk, k: int, resume: bool, produce: Producer): (r: Disk)
    requires d.final.Some?
    ensures k in r.sampled && r.final == d.final && r.evaluated == d.evaluated
  {
    if resume && k in d.sampled then d else d.(sampled := d.sampled[k := produce.sample(k, d.final.value)])
  }

  /** The evaluated file of step `k`, which is reused likewise. */
  function WithEvaluated(d: Disk, k: int, resume: bool, produce: Producer): (r: Disk)
    requires k in d.sampled
    ensures k in r.evaluated && r.final == d.final
  {
    if resume && k in d.evaluated then d else d.(evaluated := d.evaluated[k := produce.evaluate(k, d.sampled[k])])
  }

  /** Both files of step `k`. */
  function WithStep(d: Disk, k: int, resume: bool, produce: Producer): (r: Disk)
    requires d.final.Some?
    ensures k in r.evaluated && r.final == d.final
  {
    WithEvaluated(WithSampled(d, k, resume, produce), k, resume, produce)
  }

  /** The accumulation of the evaluated file. */
  function AfterStep(d: Disk, k: int): Disk
    requires d.final.Some? && k in d.evaluated
  {
    d.(final := Some(Grown(d.final.value, d.evaluated[k])))
  }

  /** The steps `k..nSteps`. */
  function RunFrom(d: Disk, k: int, nSteps: int, resume: bool, produce: Producer, crash: Crash): Disk
    requires d.final.Some?
    decreases nSteps - k + 1
  {
    if k > nSteps || crash == BeforeSampled(k) then d
    else if crash == BeforeEvaluated(k) then WithSampled(d, k, resume, produce)
    else if crash == BeforeAccumulated(k) then WithStep(d, k, resume, produce)
    else RunFrom(AfterStep(WithStep(d, k, resume, produce), k), k + 1, nSteps, resume, produce, crash)
  }

  predicate MustRebuild(d: Disk, nSteps: int) {
    d.final.None? || nSteps < MaxCompleted(d.evaluated)
  }

  /** The rebuild is cut off. */
  predicate RebuildCut(d: Disk, nSteps: int, crash: Crash) {
    MustRebuild(d, nSteps) && crash.WhileRebuilding? && crash.replayed < RebuildLimit(d.evaluated, nSteps)
  }

  /** The disk before the step loop, or when the rebuild was cut off; `None` is the error about a missing file. */
  function Started(base: seq<Node>, d: Disk, nSteps: int, resume: bool, crash: Crash): Option<Disk> {
    if !resume then Some(d.(final := Some(base)))
    else if !MustRebuild(d, nSteps) then Some(d)
    else
      var limit := if RebuildCut(d, nSteps, crash) then crash.replayed else RebuildLimit(d.evaluated, nSteps);
      if !HasSteps(d.evaluated, limit) then None
      else if limit < 0 then Some(d.(final := Some(base)))
      else Some(d.(final := Some(Fold(base, d.evaluated, limit))))
  }

  /** A whole run. */
  function Ran(base: seq<Node>, d: Disk, nSteps: int, resume: bool, produce: Producer, crash: Crash): Option<Disk> {
    var started := Started(base, d, nSteps, resume, crash);
    if started.None? || (resume && RebuildCut(d, nSteps, crash)) then started
    else Some(RunFrom(started.value, RebuildLimit(d.evaluated, nSteps) + 1, nSteps, resume, produce, crash))
  }

  // ----- The run step by step -----

  /** The first step that a rebuild does not find. */
  ghost predicate StopsBefore(evaluated: map<int, Evaluated>, limit: int, k: int) {
    1 <= k <= limit && k !in evaluated && HasSteps(evaluated, k - 1)
  }

  /** The state file once the steps before `k` are replayed: it is written after each of them. */
  function ReplayedBefore(base: seq<Node>, evaluated: map<int, Evaluated>, k: int, before: Option<seq<Node>>): Option<seq<Node>>
    requires HasSteps(evaluated, k - 1)
  {
    if k <= 1 then before else Some(Fold(base, evaluated, k - 1))
  }

  class SamplingDir {
    const base: seq<Node>
    var final: Option<seq<Node>>
    var sampled: map<int, Sampled>
    var evaluated: map<int, Evaluated>

    constructor (base: seq<Node>, d: Disk)
      ensures this.base == base && Contents() == d
    {
      this.base, final, sampled, evaluated := base, d.final, d.sampled, d.evaluated;
    }

    function Contents(): Disk
      reads this
    {
      Disk(final, sampled, evaluated)
    }

    /** Replay the evaluated files of the steps `1..limit`. */
    method Rebuild(limit: int) returns (ok: bool)
      modifies this`final
      ensures ok <==> HasSteps(evaluated, limit)
      ensures ok ==> final == Some(if limit < 0 then base else Fold(base, evaluated, limit))
      ensures !ok ==> exists k :: StopsBefore(evaluated, limit, k) && final == ReplayedBefore(base, evaluated, k, old(final))
    {
      var state, k := base, 1;
      while k <= limit
        invariant 1 <= k <= (if limit < 0 then 0 else limit) + 1 && HasSteps(evaluated, k - 1) && state == Fold(base, evaluated, k - 1)
        invariant final == ReplayedBefore(base, evaluated, k, old(final))
      {
        if k !in evaluated {
          return false;
        }
        state := Grown(state, evaluated[k]);
        final := Some(state);
        k := k + 1;
      }
      final := Some(state);
      return true;
    }

    /** `_run_step`; false when the run was cut off. */
    method RunStep(k: int, resume: bool, produce: Producer, crash: Crash) returns (finished: bool)
      requires final.Some?
      modifies this
      ensures final.Some? && (finished <==> crash != BeforeSampled(k) && crash != BeforeEvaluated(k) && crash != BeforeAccumulated(k))
      ensures Contents() == (
                if crash == BeforeSampled(k) then old(Contents())
                else if crash == BeforeEvaluated(k) then WithSampled(old(Contents()), k, resume, produce)
                else if crash == BeforeAccumulated(k) then WithStep(old(Contents()), k, resume, produce)
                else AfterStep(WithStep(old(Contents()), k, resume, produce), k))
    {
      if crash == BeforeSampled(k) {
        return false;
      }
      if !(resume && k in sampled) {
        sampled := sampled[k := produce.sample(k, final.value)];
      }
      if crash == BeforeEvaluated(k) {
        return false;
      }
      if !(resume && k in evaluated) {
        evaluated := evaluated[k := produce.evaluate(k, sampled[k])];
      }
      if crash == BeforeAccumulated(k) {
        return false;
      }
      final := Some(Grown(final.value, evaluated[k]));
      return true;
    }

    /** What happens before the step loop. */
    method Begin(nSteps: int, resume: bool, crash: Crash) returns (ok: bool)
      modifies this`final
      ensures ok <==> Started(base, old(Contents()), nSteps, resume, crash).Some?
      ensures ok ==> Contents() == Started(base, old(Contents()), nSteps, resume, crash).value
    {
      ok := true;
      if !resume {
        final := Some(base);
      } else if MustRebuild(Contents(), nSteps) {
        ok := Rebuild(if RebuildCut(Contents(), nSteps, crash) then crash.replayed else RebuildLimit(evaluated, nSteps));
      }
    }

    /** The step loop. */
    method RunSteps(first: int, nSteps: int, resume: bool, produce: Producer, crash: Crash)
      requires final.Some?
      modifies this
      ensures Contents() == RunFrom(old(Contents()), first, nSteps, resume, produce, crash)
    {
      var k := first;
      while k <= nSteps
        invariant final.Some?
        invariant RunFrom(old(Contents()), first, nSteps, resume, produce, crash) ==
                  RunFrom(Contents(), k, nSteps, resume, produce, crash)
      {
        ghost var before := Contents();
        var finished := RunStep(k, resume, produce, crash);
        if !finished {
          return;
        }
        OneStepOn(before, k, nSteps, resume, produce, crash);
        k := k + 1;
      }
    }

    /** `run_sampling_steps`. */
    method RunSamplingSteps(nSteps: int, resume: bool, produce: Producer, crash: Crash) returns (ok: bool)
      modifies this
      ensures ok <==> Ran(base, old(Contents()), nSteps, resume, produce, crash).Some?
      ensures ok ==> Contents() == Ran(base, old(Contents()), nSteps, resume, produce, crash).value
    {
      ghost var before := Contents();
      var limit, cut := RebuildLimit(evaluated, nSteps), resume && RebuildCut(Contents(), nSteps, crash);
      ok := Begin(nSteps, resume, crash);
      if ok && !cut {
        ghost var started := Contents();
        RunSteps(limit + 1, nSteps, resume, produce, crash);
        StartedRuns(base, before, nSteps, resume, produce, crash, started);
      }
    }
  }

  lemma {:induction false} OneStepOn(d: Disk, k: int, nSteps: int, resume: bool, produce: Producer, crash: Crash)
    requires d.final.Some? && k <= nSteps
    requires crash != BeforeSampled(k) && crash != BeforeEvaluated(k) && crash != BeforeAccumulated(k)
    ensures RunFrom(d, k, nSteps, resume, produce, crash) ==
            RunFrom(AfterStep(WithStep(d, k, resume, produce), k), k + 1, nSteps, resume, produce, crash)
  {}

  lemma {:induction false} CutAtOnce(d: Disk, k: int, nSteps: int, resume: bool, produce: Producer, crash: Crash)
    requires d.final.Some? && k <= nSteps && crash == BeforeAccumulated(k)
    ensures RunFrom(d, k, nSteps, resume, produce, crash) == WithStep(d, k, resume, produce)
  {}

  /** The loop ends before it evaluates step `k`. */
  predicate StopsAt(k: int, nSteps: int, crash: Crash) {
    k > nSteps || crash == BeforeSampled(k) || crash == BeforeEvaluated(k)
  }

  lemma {:induction false} RunStops(d: Disk, k: int, nSteps: int, resume: bool, produce: Producer, crash: Crash)
    requires d.final.Some? && StopsAt(k, nSteps, crash)
    ensures
      var r := RunFrom(d, k, nSteps, resume, produce, crash);
      r.final == d.final && r.evaluated == d.evaluated
  {}

  lemma {:induction false} StartedRuns(base: seq<Node>, d: Disk, nSteps: int, resume: bool, produce: Producer, crash: Crash, started: Disk)
    requires Started(base, d, nSteps, resume, crash) == Some(started) && started.final.Some?
    requires !(resume && RebuildCut(d, nSteps, crash))
    ensures Ran(base, d, nSteps, resume, produce, crash) ==
            Some(RunFrom(started, RebuildLimit(d.evaluated, nSteps) + 1, nSteps, resume, produce, crash))
  {}

  /** Where there are no files yet, `resume` makes no difference to the steps. */
  lemma {:induction false} NewStepsIgnoreResume(d: Disk, k: int, nSteps: int, produce: Producer, crash: Crash)
    requires d.final.Some? && forall s | s >= k :: s !in d.sampled && s !in d.evaluated
    ensures RunFrom(d, k, nSteps, false, produce, crash) == RunFrom(d, k, nSteps, true, produce, crash)
    decreases nSteps - k + 1
  {
    if !StopsAt(k, nSteps, crash) && crash != BeforeAccumulated(k) {
      var next := AfterStep(WithStep(d, k, true, produce), k);
      assert WithStep(d, k, false, produce) == WithStep(d, k, true, produce);
      NewStepsIgnoreResume(next, k + 1, nSteps, produce, crash);
    }
  }

  /** A first run without `resume` is a resumed run of the empty directory. */
  lemma {:induction false} FirstRunNeedsNoResume(base: seq<Node>, nSteps: int, produce: Producer, crash: Crash)
    ensures Ran(base, EMPTY_DIR, nSteps, false, produce, crash) == Ran(base, EMPTY_DIR, nSteps, true, produce, crash)
  {
    assert MaxCompleted(EMPTY_DIR.evaluated) == 0;
    NewStepsIgnoreResume(Disk(Some(base), map[], map[]), 1, nSteps, produce, crash);
  }

  // ----- Replay -----

  /** The steps with an evaluated file are `1..m`. */
  ghost predicate Completed(evaluated: map<int, Evaluated>, m: nat) {
    forall k :: k in evaluated <==> 1 <= k <= m
  }

  /** The accumulated state is the fold over all completed steps. */
  ghost predicate Consistent(base: seq<Node>, d: Disk, m: nat) {
    && Completed(d.evaluated, m) && HasSteps(d.evaluated, m)
    && (d.final.Some? ==> d.final.value == Fold(base, d.evaluated, m))
  }

  lemma {:induction false} MaxIs(evaluated: map<int, Evaluated>, m: nat)
    requires Completed(evaluated, m)
    ensures MaxCompleted(evaluated) == m
  {
    if m == 0 {
      forall k ensures k !in evaluated.Keys {
        assert k in evaluated <==> 1 <= k <= m;
      }
      EmptySet(evaluated.Keys);
    } else {
      assert m in evaluated.Keys;
    }
  }

  /** The fold reads the files up to `k` only. */
  lemma {:induction false} FoldReads(base: seq<Node>, a: map<int, Evaluated>, b: map<int, Evaluated>, k: nat)
    requires HasSteps(a, k) && HasSteps(b, k) && forall i | 1 <= i <= k :: a[i] == b[i]
    ensures Fold(base, a, k) == Fold(base, b, k)
  {
    if k > 0 {
      FoldReads(base, a, b, k - 1);
    }
  }

  predicate Benign(crash: Crash) {
    !crash.BeforeAccumulated?
  }

  /** A crash that can leave out steps, but loses none. */
  predicate StopsEarly(crash: Crash) {
    crash.BeforeSampled? || crash.BeforeEvaluated?
  }

  /** The crash falls between the evaluated file and the accumulation of a step that the run takes. */
  predicate CutsOff(crash: Crash, m: int, nSteps: int) {
    crash.BeforeAccumulated? && m < crash.step <= nSteps
  }

  lemma {:induction false} NextCompleted(evaluated: map<int, Evaluated>, m: nat, file: Evaluated)
    requires Completed(evaluated, m)
    ensures Completed(evaluated[m + 1 := file], m + 1) && HasSteps(evaluated[m + 1 := file], m + 1)
  {}

  /** The step after the completed ones adds its file, and nothing else that a fold reads. */
  lemma {:induction false} StepAdds(base: seq<Node>, d: Disk, m: nat, resume: bool, produce: Producer)
    requires Completed(d.evaluated, m) && HasSteps(d.evaluated, m) && d.final.Some?
    ensures
      var e := WithStep(d, m + 1, resume, produce).evaluated;
      && Completed(e, m + 1) && HasSteps(e, m + 1) && Fold(base, e, m) == Fold(base, d.evaluated, m)
      && e == d.evaluated[m + 1 := e[m + 1]]
  {
    var e := WithStep(d, m + 1, resume, produce).evaluated;
    assert m + 1 !in d.evaluated;
    NextCompleted(d.evaluated, m, e[m + 1]);
    FoldReads(base, d.evaluated, e, m);
  }

  /** The files of the steps `1..m` are the same. */
  ghost predicate KeepsFiles(a: map<int, Evaluated>, b: map<int, Evaluated>, m: nat) {
    HasSteps(a, m) && HasSteps(b, m) && forall k | 1 <= k <= m :: a[k] == b[k]
  }

  lemma {:induction false} StepKeepsConsistent(base: seq<Node>, d: Disk, m: nat, resume: bool, produce: Producer)
    requires Consistent(base, d, m) && d.final.Some?
    ensures
      var next := AfterStep(WithStep(d, m + 1, resume, produce), m + 1);
      Consistent(base, next, m + 1) && KeepsFiles(d.evaluated, next.evaluated, m)
  {
    StepAdds(base, d, m, resume, produce);
  }

  /** The step loop keeps the state in line with the files, unless it is cut off between the two. */
  lemma {:induction false} LoopKeepsConsistent(base: seq<Node>, d: Disk, m: nat, nSteps: int, resume: bool, produce: Producer, crash: Crash)
    returns (n: nat)
    requires Consistent(base, d, m) && d.final.Some? && !CutsOff(crash, m, nSteps)
    ensures
      var r := RunFrom(d, m + 1, nSteps, resume, produce, crash);
      && Consistent(base, r, n) && r.final.Some? && m <= n && (m <= nSteps ==> n <= nSteps)
      && (!StopsEarly(crash) && m <= nSteps ==> n == nSteps)
      && KeepsFiles(d.evaluated, r.evaluated, m)
    decreases nSteps - m
  {
    if StopsAt(m + 1, nSteps, crash) {
      RunStops(d, m + 1, nSteps, resume, produce, crash);
      n := m;
    } else {
      var next := AfterStep(WithStep(d, m + 1, resume, produce), m + 1);
      StepKeepsConsistent(base, d, m, resume, produce);
      OneStepOn(d, m + 1, nSteps, resume, produce, crash);
      n := LoopKeepsConsistent(base, next, m + 1, nSteps, resume, produce, crash);
      FilesKept(d.evaluated, next.evaluated, RunFrom(next, m + 2, nSteps, resume, produce, crash).evaluated, m);
    }
  }

  lemma {:induction false} FilesKept(a: map<int, Evaluated>, b: map<int, Evaluated>, c: map<int, Evaluated>, m: nat)
    requires KeepsFiles(a, b, m) && KeepsFiles(b, c, m + 1)
    ensures KeepsFiles(a, c, m)
  {}

  /** A run that asks for at least the completed steps rebuilds only from a lost state file. */
  lemma {:induction false} NothingIsCut(d: Disk, m: nat, nSteps: int, crash: Crash)
    requires Completed(d.evaluated, m) && m <= nSteps && (d.final.Some? || m == 0)
    ensures !RebuildCut(d, nSteps, crash)
  {
    MaxIs(d.evaluated, m);
  }

  lemma {:induction false} RanIs(base: seq<Node>, d: Disk, m: nat, nSteps: int, produce: Producer, crash: Crash)
    requires Consistent(base, d, m) && m <= nSteps && !RebuildCut(d, nSteps, crash)
    ensures Ran(base, d, nSteps, true, produce, crash) ==
            Some(RunFrom(Resumed(base, d, m), m + 1, nSteps, true, produce, crash))
  {
    MaxIs(d.evaluated, m);
    assert Started(base, d, nSteps, true, crash) == Some(Resumed(base, d, m));
  }

  /** The disk at the start of a run's step loop. */
  function Resumed(base: seq<Node>, d: Disk, m: nat): (r: Disk)
    requires HasSteps(d.evaluated, m)
    ensures r.final.Some?
  {
    d.(final := Some(Fold(base, d.evaluated, m)))
  }

  /**
    A resumed run that asks for no fewer steps than were completed, and is cut
    off neither between an evaluated file and its accumulation nor in a rebuild,
    ends with the state folded over all completed steps; the old files are kept.
   */
  lemma {:induction false} ResumeIsFold(base: seq<Node>, d: Disk, m: nat, nSteps: int, produce: Producer, crash: Crash) returns (n: nat)
    requires Consistent(base, d, m) && m <= nSteps && !CutsOff(crash, m, nSteps) && !RebuildCut(d, nSteps, crash)
    ensures
      var r := Ran(base, d, nSteps, true, produce, crash);
      && r.Some? && Consistent(base, r.value, n) && r.value.final.Some? && m <= n <= nSteps
      && (!StopsEarly(crash) ==> n == nSteps)
      && forall k | 1 <= k <= m :: r.value.evaluated[k] == d.evaluated[k]
  {
    RanIs(base, d, m, nSteps, produce, crash);
    n := LoopKeepsConsistent(base, Resumed(base, d, m), m, nSteps, true, produce, crash);
  }

  /** How many of `m` completed steps a rebuild for `nSteps` replays: all, if the number is negative; fewer, if it is cut off. */
  function Replayed(m: nat, nSteps: int, crash: Crash): (r: nat)
    ensures r <= m
  {
    var kept: nat := if 0 <= nSteps < m then nSteps else m;
    if crash.WhileRebuilding? && crash.replayed < kept then crash.replayed else kept
  }

  /** Whatever the accumulated file holds, asking for fewer steps rebuilds exactly that many, unless it is cut off. */
  lemma {:induction false} RebuildIsFold(base: seq<Node>, d: Disk, m: nat, nSteps: int, produce: Producer, crash: Crash)
    requires Completed(d.evaluated, m) && HasSteps(d.evaluated, m) && (nSteps < m || (d.final.None? && RebuildCut(d, nSteps, crash)))
    ensures Ran(base, d, nSteps, true, produce, crash) ==
            Some(d.(final := Some(Fold(base, d.evaluated, Replayed(m, nSteps, crash)))))
  {
    MaxIs(d.evaluated, m);
  }

  /** One invocation in a sequence of resumed runs. */
  datatype Invocation = Invocation(nSteps: int, produce: Producer, crash: Crash)

  function RanAll(base: seq<Node>, d: Disk, runs: seq<Invocation>): Option<Disk> {
    if runs == [] then Some(d)
    else
      var before := RanAll(base, d, runs[..|runs| - 1]);
      var last := runs[|runs| - 1];
      if before.None? then None else Ran(base, before.value, last.nSteps, true, last.produce, last.crash)
  }

  predicate Nondecreasing(runs: seq<Invocation>) {
    && (forall i | 0 <= i < |runs| :: 0 <= runs[i].nSteps)
    && forall i, j | 0 <= i < j < |runs| :: runs[i].nSteps <= runs[j].nSteps
  }

  predicate AllBenign(runs: seq<Invocation>) {
    forall i | 0 <= i < |runs| :: Benign(runs[i].crash)
  }

  /**
    Replay.  From an empty directory, after any sequence of runs with
    nondecreasing step counts and no crash between an evaluated file and its
    accumulation, the state is the fold over all completed steps.
   */
  lemma {:induction false} RunsAreReplayable(base: seq<Node>, runs: seq<Invocation>) returns (n: nat)
    requires Nondecreasing(runs) && AllBenign(runs)
    ensures RanAll(base, EMPTY_DIR, runs).Some?
    ensures Consistent(base, RanAll(base, EMPTY_DIR, runs).value, n)
    ensures n <= if runs == [] then 0 else runs[|runs| - 1].nSteps
    ensures runs != [] ==> RanAll(base, EMPTY_DIR, runs).value.final == Some(Fold(base, RanAll(base, EMPTY_DIR, runs).value.evaluated, n))
    ensures runs != [] && runs[|runs| - 1].crash.NoCrash? ==> n == runs[|runs| - 1].nSteps
    decreases |runs|
  {
    if runs == [] {
      n := 0;
    } else {
      var init, last := runs[..|runs| - 1], runs[|runs| - 1];
      assert forall i | 0 <= i < |init| :: init[i] == runs[i];
      var m := RunsAreReplayable(base, init);
      assert init != [] ==> init[|init| - 1].nSteps <= last.nSteps;
      var before := RanAll(base, EMPTY_DIR, init).value;
      assert init == [] ==> m == 0;
      NothingIsCut(before, m, last.nSteps, last.crash);
      n := ResumeIsFold(base, before, m, last.nSteps, last.produce, last.crash);
    }
  }
}
