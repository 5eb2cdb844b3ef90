/** Exactly which runs keep the accumulated state in line with the evaluated files. */
module ResumeLoss {
  import opened Basics
  import opened SampleTree
  import opened ResumeReplay

  // ----- Sizes of folds -----

  lemma {:induction false} GrownByNothing(nodes: seq<Node>)
    ensures Grown(nodes, []) == nodes
  {
    var r := Grown(nodes, []);
    assert forall k | 0 <= k < |nodes| :: r[k] == nodes[k];
  }

  /** A fold over more files is longer, unless all additional files are empty: then it is the same. */
  lemma {:induction false} FoldGap(base: seq<Node>, evaluated: map<int, Evaluated>, n: nat, m: nat)
    requires n <= m && HasSteps(evaluated, m)
    ensures HasSteps(evaluated, n) && |Fold(base, evaluated, n)| <= |Fold(base, evaluated, m)|
    ensures (forall k | n < k <= m :: evaluated[k] == []) ==> Fold(base, evaluated, n) == Fold(base, evaluated, m)
    ensures (exists k | n < k <= m :: evaluated[k] != []) ==> |Fold(base, evaluated, n)| < |Fold(base, evaluated, m)|
    decreases m
  {
    if n < m {
      FoldGap(base, evaluated, n, m - 1);
      GrownByNothing(Fold(base, evaluated, m - 1));
    }
  }

  lemma {:induction false} CompletedOnce(evaluated: map<int, Evaluated>, m: nat, n: nat)
    requires Completed(evaluated, m) && Completed(evaluated, n)
    ensures m == n
  {
    MaxIs(evaluated, m);
    MaxIs(evaluated, n);
  }

  // ----- One run -----

  /** The state misses samples of the completed steps. */
  ghost predicate Behind(base: seq<Node>, d: Disk, m: nat) {
    && Completed(d.evaluated, m) && HasSteps(d.evaluated, m)
    && d.final.Some? && |d.final.value| < |Fold(base, d.evaluated, m)|
  }

  lemma {:induction false} BehindIsNotConsistent(base: seq<Node>, d: Disk, m: nat, n: nat)
    requires Behind(base, d, m)
    ensures !Consistent(base, d, n)
  {
    if Consistent(base, d, n) {
      CompletedOnce(d.evaluated, m, n);
    }
  }

  /** The step loop never catches up. */
  lemma {:induction false} LoopStaysBehind(base: seq<Node>, d: Disk, m: nat, nSteps: int, produce: Producer, crash: Crash) returns (n: nat)
    requires Behind(base, d, m)
    ensures Behind(base, RunFrom(d, m + 1, nSteps, true, produce, crash), n) && m <= n && (m <= nSteps ==> n <= nSteps)
    decreases nSteps - m
  {
    if StopsAt(m + 1, nSteps, crash) {
      RunStops(d, m + 1, nSteps, true, produce, crash);
      n := m;
    } else {
      var e := WithStep(d, m + 1, true, produce);
      StepAdds(base, d, m, true, produce);
      if crash == BeforeAccumulated(m + 1) {
        n := m + 1;
      } else {
        n := LoopStaysBehind(base, AfterStep(e, m + 1), m + 1, nSteps, produce, crash);
      }
    }
  }

  /** A run that is cut off leaves the file of the step, and the state of the steps before it. */
  lemma {:induction false} LoopIsCutOff(base: seq<Node>, d: Disk, m: nat, nSteps: int, produce: Producer, crash: Crash)
    requires Consistent(base, d, m) && d.final.Some? && CutsOff(crash, m, nSteps)
    ensures
      var r := RunFrom(d, m + 1, nSteps, true, produce, crash);
      && Completed(r.evaluated, crash.step) && HasSteps(r.evaluated, crash.step)
      && r.final == Some(Fold(base, r.evaluated, crash.step - 1))
    decreases nSteps - m
  {
    if crash.step > m + 1 {
      StepKeepsConsistent(base, d, m, true, produce);
      OneStepOn(d, m + 1, nSteps, true, produce, crash);
      LoopIsCutOff(base, AfterStep(WithStep(d, m + 1, true, produce), m + 1), m + 1, nSteps, produce, crash);
    } else {
      CutAtOnce(d, m + 1, nSteps, true, produce, crash);
      StepAdds(base, d, m, true, produce);
    }
  }

  /** The run is cut off after the evaluated file of a step, and that file holds samples. */
  ghost predicate LosesStep(after: Disk, crash: Crash, m: int, nSteps: int) {
    CutsOff(crash, m, nSteps) && crash.step in after.evaluated && after.evaluated[crash.step] != []
  }

  /** The run is cut off while it rebuilds a lost state file, before a file that holds samples. */
  ghost predicate LosesReplay(d: Disk, crash: Crash, m: int, nSteps: int) {
    RebuildCut(d, nSteps, crash) && exists k :: crash.replayed < k <= m && k in d.evaluated && d.evaluated[k] != []
  }

  lemma {:induction false} CutRebuildLeaves(base: seq<Node>, d: Disk, m: nat, nSteps: int, produce: Producer, crash: Crash)
    requires Consistent(base, d, m) && m <= nSteps && RebuildCut(d, nSteps, crash)
    ensures
      var after := Ran(base, d, nSteps, true, produce, crash);
      && after.Some? && after.value.final.Some?
      && (!LosesReplay(d, crash, m, nSteps) ==> Consistent(base, after.value, m))
      && (LosesReplay(d, crash, m, nSteps) ==> Behind(base, after.value, m))
  {
    MaxIs(d.evaluated, m);
    RebuildIsFold(base, d, m, nSteps, produce, crash);
    FoldGap(base, d.evaluated, crash.replayed, m);
  }

  lemma {:induction false} CutLoopLeaves(base: seq<Node>, d: Disk, m: nat, nSteps: int, produce: Producer, crash: Crash)
    requires Consistent(base, d, m) && m <= nSteps && CutsOff(crash, m, nSteps)
    ensures
      var after := Ran(base, d, nSteps, true, produce, crash);
      && after.Some? && after.value.final.Some? && crash.step in after.value.evaluated
      && (!LosesStep(after.value, crash, m, nSteps) ==> Consistent(base, after.value, crash.step))
      && (LosesStep(after.value, crash, m, nSteps) ==> Behind(base, after.value, crash.step))
  {
    RanIs(base, d, m, nSteps, produce, crash);
    LoopIsCutOff(base, Resumed(base, d, m), m, nSteps, produce, crash);
    FoldGap(base, Ran(base, d, nSteps, true, produce, crash).value.evaluated, crash.step - 1, crash.step);
  }

  /** What a run that asks for at least the completed steps leaves: a consistent state, or one that misses samples. */
  lemma {:induction false} RunLeaves(base: seq<Node>, d: Disk, m: nat, nSteps: int, produce: Producer, crash: Crash) returns (n: nat)
    requires Consistent(base, d, m) && m <= nSteps
    ensures
      var after := Ran(base, d, nSteps, true, produce, crash);
      && after.Some? && after.value.final.Some? && m <= n <= nSteps
      && (CutsOff(crash, m, nSteps) ==> crash.step in after.value.evaluated)
      && (!LosesStep(after.value, crash, m, nSteps) && !LosesReplay(d, crash, m, nSteps) ==> Consistent(base, after.value, n))
      && (LosesStep(after.value, crash, m, nSteps) || LosesReplay(d, crash, m, nSteps) ==> Behind(base, after.value, n))
  {
    if RebuildCut(d, nSteps, crash) {
      CutRebuildLeaves(base, d, m, nSteps, produce, crash);
      n := m;
    } else if CutsOff(crash, m, nSteps) {
      CutLoopLeaves(base, d, m, nSteps, produce, crash);
      n := crash.step;
    } else {
      n := ResumeIsFold(base, d, m, nSteps, produce, crash);
    }
  }

  /**
    A resumed run that asks for at least the completed steps leaves the state
    folded over all completed steps if and only if it is cut off neither between
    a file with samples and its accumulation, nor, while it rebuilds a lost state
    file, before a file with samples.
   */
  lemma {:induction false} RunIsConsistentIff(base: seq<Node>, d: Disk, m: nat, nSteps: int, produce: Producer, crash: Crash)
    requires Consistent(base, d, m) && m <= nSteps
    ensures
      var after := Ran(base, d, nSteps, true, produce, crash);
      && after.Some? && (CutsOff(crash, m, nSteps) ==> crash.step in after.value.evaluated)
      && ((exists n: nat :: Consistent(base, after.value, n)) <==>
          !LosesStep(after.value, crash, m, nSteps) && !LosesReplay(d, crash, m, nSteps))
  {
    var n := RunLeaves(base, d, m, nSteps, produce, crash);
    var after := Ran(base, d, nSteps, true, produce, crash).value;
    if LosesStep(after, crash, m, nSteps) || LosesReplay(d, crash, m, nSteps) {
      forall k: nat ensures !Consistent(base, after, k) {
        BehindIsNotConsistent(base, after, n, k);
      }
    }
  }

  /**
    A run that asks for fewer steps than were completed leaves the state folded
    over all completed steps if and only if the files that it leaves out are
    empty; with a negative number of steps it leaves none out, unless it is cut
    off.
   */
  lemma {:induction false} ShrunkIsConsistentIff(base: seq<Node>, d: Disk, m: nat, nSteps: int, produce: Producer, crash: Crash)
    requires Completed(d.evaluated, m) && HasSteps(d.evaluated, m) && nSteps < m
    ensures
      var after := Ran(base, d, nSteps, true, produce, crash);
      && after.Some?
      && ((exists n: nat :: Consistent(base, after.value, n)) <==>
          forall k | Replayed(m, nSteps, crash) < k <= m :: d.evaluated[k] == [])
  {
    var kept := Replayed(m, nSteps, crash);
    RebuildIsFold(base, d, m, nSteps, produce, crash);
    FoldGap(base, d.evaluated, kept, m);
    var after := Ran(base, d, nSteps, true, produce, crash).value;
    if forall k | kept < k <= m :: d.evaluated[k] == [] {
      assert Consistent(base, after, m);
    } else {
      assert Behind(base, after, m);
      forall n: nat ensures !Consistent(base, after, n) {
        BehindIsNotConsistent(base, after, m, n);
      }
    }
  }

  // ----- A loss is permanent -----

  lemma {:induction false} BehindRuns(base: seq<Node>, d: Disk, m: nat, nSteps: int, produce: Producer, crash: Crash)
    requires Completed(d.evaluated, m) && d.final.Some? && m <= nSteps
    ensures Ran(base, d, nSteps, true, produce, crash) == Some(RunFrom(d, m + 1, nSteps, true, produce, crash))
  {
    MaxIs(d.evaluated, m);
    assert !MustRebuild(d, nSteps) && !RebuildCut(d, nSteps, crash);
    StartedRuns(base, d, nSteps, true, produce, crash, d);
  }

  lemma {:induction false} RunStaysBehind(base: seq<Node>, d: Disk, m: nat, nSteps: int, produce: Producer, crash: Crash) returns (n: nat)
    requires Behind(base, d, m) && m <= nSteps
    ensures
      var after := Ran(base, d, nSteps, true, produce, crash);
      after.Some? && Behind(base, after.value, n) && m <= n <= nSteps
  {
    BehindRuns(base, d, m, nSteps, produce, crash);
    n := LoopStaysBehind(base, d, m, nSteps, produce, crash);
  }

  /** Runs that never ask for fewer steps do not catch up, crashes or not. */
  lemma {:induction false} RunsStayBehind(base: seq<Node>, d: Disk, m: nat, runs: seq<Invocation>) returns (n: nat)
    requires Behind(base, d, m) && Nondecreasing(runs) && (runs != [] ==> m <= runs[0].nSteps)
    ensures RanAll(base, d, runs).Some? && Behind(base, RanAll(base, d, runs).value, n)
    ensures if runs == [] then n == m else m <= n <= runs[|runs| - 1].nSteps
    decreases |runs|
  {
    if runs == [] {
      n := m;
    } else {
      var init, last := runs[..|runs| - 1], runs[|runs| - 1];
      assert forall i | 0 <= i < |init| :: init[i] == runs[i];
      n := RunsStayBehind(base, d, m, init);
      assert if init == [] then last == runs[0] else init[|init| - 1].nSteps <= last.nSteps && init[0] == runs[0];
      n := RunStaysBehind(base, RanAll(base, d, init).value, n, last.nSteps, last.produce, last.crash);
    }
  }

  /**
    A crash between the evaluated file of any step and its accumulation loses
    the step, if it has samples, and a crash in a rebuild the steps that it had
    not replayed: no later sequence of runs with nondecreasing step counts brings
    them back.
   */
  lemma {:induction false} CrashLosesStep(base: seq<Node>, d: Disk, m: nat, nSteps: int, produce: Producer, crash: Crash, later: seq<Invocation>)
    requires Consistent(base, d, m) && m <= nSteps && Nondecreasing(later) && (later != [] ==> nSteps <= later[0].nSteps)
    requires
      var after := Ran(base, d, nSteps, true, produce, crash);
      after.Some? && (LosesStep(after.value, crash, m, nSteps) || LosesReplay(d, crash, m, nSteps))
    ensures
      var after := RanAll(base, Ran(base, d, nSteps, true, produce, crash).value, later);
      after.Some? && forall n: nat :: !Consistent(base, after.value, n)
  {
    var k := RunLeaves(base, d, m, nSteps, produce, crash);
    var crashed := Ran(base, d, nSteps, true, produce, crash).value;
    var l := RunsStayBehind(base, crashed, k, later);
    forall n: nat ensures !Consistent(base, RanAll(base, crashed, later).value, n) {
      BehindIsNotConsistent(base, RanAll(base, crashed, later).value, l, n);
    }
  }

  /**
    Asking for fewer steps leaves out the samples of the others, also when the
    rebuild is cut off, and asking for at least all of them again does not bring
    these back.
   */
  lemma {:induction false} ShrinkingLosesSteps(base: seq<Node>, d: Disk, m: nat, nSteps: int, produce: Producer, crash: Crash, later: seq<Invocation>)
    requires Completed(d.evaluated, m) && HasSteps(d.evaluated, m) && nSteps < m
    requires exists k | Replayed(m, nSteps, crash) < k <= m :: d.evaluated[k] != []
    requires Nondecreasing(later) && (later != [] ==> m <= later[0].nSteps)
    ensures
      var shrunk := Ran(base, d, nSteps, true, produce, crash);
      && shrunk.Some? && RanAll(base, shrunk.value, later).Some?
      && forall n: nat :: !Consistent(base, RanAll(base, shrunk.value, later).value, n)
  {
    RebuildIsFold(base, d, m, nSteps, produce, crash);
    FoldGap(base, d.evaluated, Replayed(m, nSteps, crash), m);
    var shrunk := Ran(base, d, nSteps, true, produce, crash).value;
    assert Behind(base, shrunk, m);
    var l := RunsStayBehind(base, shrunk, m, later);
    forall n: nat ensures !Consistent(base, RanAll(base, shrunk, later).value, n) {
      BehindIsNotConsistent(base, RanAll(base, shrunk, later).value, l, n);
    }
  }

  // ----- Sequences of runs -----

  /** Whether some run of the sequence loses a step. */
  ghost predicate SomeRunLoses(base: seq<Node>, d: Disk, runs: seq<Invocation>) {
    runs != [] && (SomeRunLoses(base, d, runs[..|runs| - 1]) || LastRunLoses(base, d, runs))
  }

  ghost predicate LastRunLoses(base: seq<Node>, d: Disk, runs: seq<Invocation>)
    requires runs != []
  {
    var last := runs[|runs| - 1];
    var before, after := RanAll(base, d, runs[..|runs| - 1]), RanAll(base, d, runs);
    before.Some? && after.Some? && LosesStep(after.value, last.crash, MaxCompleted(before.value.evaluated), last.nSteps)
  }

  /** From an empty directory, a nondecreasing sequence is consistent until a run loses a step, and behind from then on. */
  lemma {:induction false} RunsLeave(base: seq<Node>, runs: seq<Invocation>) returns (n: nat)
    requires Nondecreasing(runs)
    ensures
      var after := RanAll(base, EMPTY_DIR, runs);
      && after.Some? && n <= (if runs == [] then 0 else runs[|runs| - 1].nSteps)
      && (runs != [] ==> after.value.final.Some?)
      && (!SomeRunLoses(base, EMPTY_DIR, runs) ==> Consistent(base, after.value, n))
      && (SomeRunLoses(base, EMPTY_DIR, runs) ==> Behind(base, after.value, n))
    decreases |runs|
  {
    var empty := EMPTY_DIR;
    if runs == [] {
      n := 0;
    } else {
      var init, last := runs[..|runs| - 1], runs[|runs| - 1];
      assert forall i | 0 <= i < |init| :: init[i] == runs[i];
      var m := RunsLeave(base, init);
      assert init != [] ==> init[|init| - 1].nSteps <= last.nSteps;
      var before := RanAll(base, empty, init).value;
      MaxIs(before.evaluated, m);
      NothingIsCut(before, m, last.nSteps, last.crash);
      if SomeRunLoses(base, empty, init) {
        n := RunStaysBehind(base, before, m, last.nSteps, last.produce, last.crash);
      } else {
        n := RunLeaves(base, before, m, last.nSteps, last.produce, last.crash);
      }
    }
  }

  /**
    Replay, exactly.  From an empty directory, after any sequence of runs with
    nondecreasing step counts the state is the fold over all completed steps if
    and only if no run was cut off between a file with samples and its
    accumulation.
   */
  lemma {:induction false} RunsAreReplayableIff(base: seq<Node>, runs: seq<Invocation>)
    requires Nondecreasing(runs)
    ensures
      var after := RanAll(base, EMPTY_DIR, runs);
      && after.Some?
      && ((exists n: nat :: Consistent(base, after.value, n)) <==> !SomeRunLoses(base, EMPTY_DIR, runs))
  {
    var n := RunsLeave(base, runs);
    var after := RanAll(base, EMPTY_DIR, runs).value;
    if SomeRunLoses(base, EMPTY_DIR, runs) {
      forall k: nat ensures !Consistent(base, after, k) {
        BehindIsNotConsistent(base, after, n, k);
      }
    }
  }
}
