/**
  `ensure_local_data` as a protocol of any number of processes: the lock, the
  private temporary directory and the atomic rename.
 */
module GenerateOnce {

  /** What a directory holds: nothing yet, some of the files, no files, or the whole data set. */
  datatype Content = Nothing | Partial | Empty | Complete

  /**
    Where a process is.  `Cleaning` carries whether the rename succeeded;
    `Returned` is the normal return, `Threw` an exception, `Crashed` a kill.
   */
  datatype Pc = Entry | AtLock | Recheck | Generating | Generated | Cleaning(renamed: bool) | Returned | Threw | Crashed

  /** A process with its temporary directory. */
  datatype Process = Process(pc: Pc, tmp: Content)

  /** The shared state; `renames` counts the successful renames into place. */
  datatype State = State(procs: seq<Process>, folder: Content, holder: int, renames: nat)

  const FREE := -1

  /**
    Whether the platform has POSIX locks, whether the dataset is one that can be
    generated, and whether its generation returns normally only with all files
    or with none.  The conversion of the JOB data skips missing tables, so its
    generation can return with some of the files.
   */
  datatype Setting = Setting(locking: bool, supported: bool, allOrNone: bool)

  function Move(s: State, p: nat, to: Process): State
    requires p < |s.procs|
  {
    s.(procs := s.procs[p := to])
  }

  /** A process that leaves the critical section, or the program, gives up the lock. */
  function Release(s: State, p: nat): State {
    if s.holder == p then s.(holder := FREE) else s
  }

  ghost predicate Enter(setting: Setting, s: State, p: nat, t: State)
    requires p < |s.procs|
  {
    && s.procs[p].pc.Entry?
    && t == Move(s, p, s.procs[p].(pc :=
              if s.folder != Nothing then Returned else if setting.supported then AtLock else Threw))
  }

  ghost predicate Lock(setting: Setting, s: State, p: nat, t: State)
    requires p < |s.procs|
  {
    && s.procs[p].pc.AtLock? && (setting.locking ==> s.holder == FREE)
    && t == Move(s, p, s.procs[p].(pc := Recheck)).(holder := if setting.locking then p else s.holder)
  }

  ghost predicate CheckAgain(s: State, p: nat, t: State)
    requires p < |s.procs|
  {
    && s.procs[p].pc.Recheck?
    && t == if s.folder != Nothing then Release(Move(s, p, s.procs[p].(pc := Returned)), p)
            else Move(s, p, Process(Generating, Partial))
  }

  /** What generation can return with. */
  predicate CanGenerate(setting: Setting, c: Content) {
    c == Complete || c == Empty || (c == Partial && !setting.allOrNone)
  }

  /** Generation returns, or it throws. */
  ghost predicate Generate(setting: Setting, s: State, p: nat, t: State)
    requires p < |s.procs|
  {
    && s.procs[p].pc.Generating?
    && (t == Move(s, p, s.procs[p].(pc := Cleaning(false)))
        || exists c | CanGenerate(setting, c) :: t == Move(s, p, Process(Generated, c)))
  }

  /** Check for files, then rename; a rename onto a folder with files fails. */
  ghost predicate Rename(s: State, p: nat, t: State)
    requires p < |s.procs|
  {
    && s.procs[p].pc.Generated?
    && t == if s.procs[p].tmp == Empty || s.folder != Nothing then Move(s, p, s.procs[p].(pc := Cleaning(false)))
            else Move(s, p, Process(Cleaning(true), Nothing)).(folder := s.procs[p].tmp, renames := s.renames + 1)
  }

  ghost predicate CleanUp(s: State, p: nat, t: State)
    requires p < |s.procs|
  {
    && s.procs[p].pc.Cleaning?
    && t == Release(Move(s, p, Process(if s.procs[p].pc.renamed then Returned else Threw, Nothing)), p)
  }

  /** A crash leaves the temporary directory behind; the system releases the lock. */
  ghost predicate Crash(s: State, p: nat, t: State)
    requires p < |s.procs|
  {
    && !s.procs[p].pc.Returned? && !s.procs[p].pc.Threw?
    && t == Release(Move(s, p, s.procs[p].(pc := Crashed)), p)
  }

  ghost predicate Next(setting: Setting, s: State, p: nat, t: State) {
    && p < |s.procs|
    && (Enter(setting, s, p, t) || Lock(setting, s, p, t) || CheckAgain(s, p, t) || Generate(setting, s, p, t)
        || Rename(s, p, t) || CleanUp(s, p, t) || Crash(s, p, t))
  }

  /** Any number of processes about to start, with no data or complete data in place. */
  ghost predicate Init(s: State) {
    && s.holder == FREE && s.renames == 0 && (s.folder == Nothing || s.folder == Complete)
    && forall p | 0 <= p < |s.procs| :: s.procs[p] == Process(Entry, Nothing)
  }

  ghost predicate IsTrace(setting: Setting, trace: seq<State>) {
    && trace != [] && Init(trace[0])
    && forall i | 0 < i < |trace| :: StepsTo(setting, trace, i)
  }

  ghost predicate StepsTo(setting: Setting, trace: seq<State>, i: nat)
    requires 0 < i < |trace|
  {
    SomeoneMoves(setting, trace[i - 1], trace[i])
  }

  ghost predicate SomeoneMoves(setting: Setting, s: State, t: State) {
    exists p: nat :: Next(setting, s, p, t)
  }

  // ----- Invariants -----

  predicate Visible(c: Content) {
    c != Nothing && c != Empty
  }

  /** What is known about one process. */
  ghost predicate ProcessOk(setting: Setting, s: State, p: nat)
    requires p < |s.procs|
  {
    var proc := s.procs[p];
    && (proc.pc.Generated? ==> CanGenerate(setting, proc.tmp))
    && (proc.pc.Returned? || proc.pc == Cleaning(true) ==> Visible(s.folder))
    && (!setting.supported ==> proc.pc.Entry? || proc.pc.Returned? || proc.pc.Threw? || proc.pc.Crashed?)
  }

  /** The folder is as at the start, or generated and renamed into place once. */
  ghost predicate FolderOk(setting: Setting, s: State, initial: Content) {
    || (s.folder == initial && s.renames == 0)
    || (initial == Nothing && Visible(s.folder) && CanGenerate(setting, s.folder) && s.renames == 1 && setting.supported)
  }

  ghost predicate Safe(setting: Setting, s: State, initial: Content) {
    && (forall p | 0 <= p < |s.procs| :: ProcessOk(setting, s, p))
    && (initial == Nothing || initial == Complete) && FolderOk(setting, s, initial)
  }

  /** How a step can change the folder. */
  ghost predicate FolderStep(setting: Setting, s: State, p: nat, t: State)
    requires p < |s.procs|
  {
    || (t.folder == s.folder && t.renames == s.renames)
    || (s.folder == Nothing && s.procs[p].pc.Generated? && t.folder == s.procs[p].tmp && s.procs[p].tmp != Empty
        && t.renames == s.renames + 1)
  }

  lemma {:induction false} NextChangesFolder(setting: Setting, s: State, p: nat, t: State)
    requires Next(setting, s, p, t)
    ensures FolderStep(setting, s, p, t)
    ensures |t.procs| == |s.procs| && forall q | 0 <= q < |s.procs| && q != p :: t.procs[q] == s.procs[q]
  {}

  lemma {:induction false} MovedProcessOk(setting: Setting, s: State, p: nat, t: State)
    requires Next(setting, s, p, t) && ProcessOk(setting, s, p) && p < |t.procs| && s.folder != Empty
    ensures ProcessOk(setting, t, p)
  {}

  lemma {:induction false} NextKeepsSafe(setting: Setting, s: State, p: nat, t: State, initial: Content)
    requires Safe(setting, s, initial) && Next(setting, s, p, t)
    ensures Safe(setting, t, initial)
  {
    assert ProcessOk(setting, s, p);
    NextChangesFolder(setting, s, p, t);
    forall q | 0 <= q < |t.procs| ensures ProcessOk(setting, t, q) {
      assert ProcessOk(setting, s, q);
      if q == p { MovedProcessOk(setting, s, p, t); }
    }
  }

  lemma {:induction false} TracesAreSafe(setting: Setting, trace: seq<State>, i: nat)
    requires IsTrace(setting, trace) && i < |trace|
    ensures Safe(setting, trace[i], trace[0].folder)
    decreases i
  {
    if i > 0 {
      TracesAreSafe(setting, trace, i - 1);
      assert StepsTo(setting, trace, i);
      var p: nat :| Next(setting, trace[i - 1], p, trace[i]);
      NextKeepsSafe(setting, trace[i - 1], p, trace[i], trace[0].folder);
    }
  }

  /**
    For any number of processes, interleaving and crash points, with or without
    locks: at most one rename into place succeeds, and a process that returns
    normally leaves a visible folder.
   */
  lemma {:induction false} FolderIsRenamedOnce(setting: Setting, trace: seq<State>, i: nat)
    requires IsTrace(setting, trace) && i < |trace|
    ensures trace[i].renames <= 1
    ensures forall p | 0 <= p < |trace[i].procs| :: trace[i].procs[p].pc.Returned? ==> Visible(trace[i].folder)
  {
    TracesAreSafe(setting, trace, i);
    forall p | 0 <= p < |trace[i].procs| ensures trace[i].procs[p].pc.Returned? ==> Visible(trace[i].folder) {
      assert ProcessOk(setting, trace[i], p);
    }
  }

  /** A visible folder was there from the start, or is what some generation returned. */
  lemma {:induction false} FolderWasGenerated(setting: Setting, trace: seq<State>, i: nat)
    requires IsTrace(setting, trace) && i < |trace|
    ensures trace[i].folder == trace[0].folder || exists j, p | 0 <= j < i && 0 <= p < |trace[j].procs| ::
              trace[j].procs[p] == Process(Generated, trace[i].folder)
    decreases i
  {
    if i > 0 {
      FolderWasGenerated(setting, trace, i - 1);
      assert StepsTo(setting, trace, i);
      var p: nat :| Next(setting, trace[i - 1], p, trace[i]);
      NextChangesFolder(setting, trace[i - 1], p, trace[i]);
      if trace[i].folder != trace[i - 1].folder {
        assert trace[i - 1].procs[p] == Process(Generated, trace[i].folder);
      }
    }
  }

  /** Once visible, the folder never changes. */
  lemma {:induction false} FolderIsStable(setting: Setting, trace: seq<State>, i: nat, j: nat)
    requires IsTrace(setting, trace) && i <= j < |trace| && trace[i].folder != Nothing
    ensures trace[j].folder == trace[i].folder
    decreases j
  {
    if i < j {
      FolderIsStable(setting, trace, i, j - 1);
      assert StepsTo(setting, trace, j);
      var p: nat :| Next(setting, trace[j - 1], p, trace[j]);
      NextChangesFolder(setting, trace[j - 1], p, trace[j]);
    }
  }

  predicate FolderComplete(s: State) {
    s.folder == Nothing || s.folder == Complete
  }

  ghost predicate AlwaysComplete(setting: Setting) {
    forall trace, i: nat | IsTrace(setting, trace) && i < |trace| :: FolderComplete(trace[i])
  }

  /**
    A visible folder is complete, in every run of any number of processes, if
    and only if generation never returns with some of the files only.
   */
  lemma {:induction false} FolderIsCompleteIff(setting: Setting)
    ensures AlwaysComplete(setting) <==> setting.allOrNone || !setting.supported
  {
    if setting.allOrNone || !setting.supported {
      forall trace, i: nat | IsTrace(setting, trace) && i < |trace| ensures FolderComplete(trace[i]) {
        TracesAreSafe(setting, trace, i);
      }
    } else {
      PartialFolderIsVisible(setting);
      var trace := PartialRun(setting);
      assert IsTrace(setting, trace) && 5 < |trace| && !FolderComplete(trace[5]);
    }
  }

  function One(pc: Pc, tmp: Content, folder: Content, holder: int, renames: nat): State {
    State([Process(pc, tmp)], folder, holder, renames)
  }

  /** A single process whose generation returns with some of the files. */
  function PartialRun(setting: Setting): seq<State> {
    var h := if setting.locking then 0 else FREE;
    [ One(Entry, Nothing, Nothing, FREE, 0),
      One(AtLock, Nothing, Nothing, FREE, 0),
      One(Recheck, Nothing, Nothing, h, 0),
      One(Generating, Partial, Nothing, h, 0),
      One(Generated, Partial, Nothing, h, 0),
      One(Cleaning(true), Nothing, Partial, h, 1),
      One(Returned, Nothing, Partial, FREE, 1) ]
  }

  lemma {:induction false} PartialFolderIsVisible(setting: Setting)
    requires setting.supported && !setting.allOrNone
    ensures IsTrace(setting, PartialRun(setting))
    ensures PartialRun(setting)[5].folder == Partial && PartialRun(setting)[6].procs[0].pc.Returned?
  {
    var trace := PartialRun(setting);
    assert CanGenerate(setting, Partial);
    forall i | 0 < i < |trace| ensures StepsTo(setting, trace, i) {
      assert Next(setting, trace[i - 1], 0, trace[i]);
    }
  }

  predicate InCritical(pc: Pc) {
    pc.Recheck? || pc.Generating? || pc.Generated? || pc.Cleaning?
  }

  predicate BeforeRename(pc: Pc) {
    pc.Generating? || pc.Generated?
  }

  /** With locks, whoever is in the critical section holds the lock, and generates only while there is no folder. */
  ghost predicate Exclusive(s: State) {
    forall p | 0 <= p < |s.procs| ::
      && (InCritical(s.procs[p].pc) ==> s.holder == p)
      && (BeforeRename(s.procs[p].pc) ==> s.folder == Nothing)
  }

  lemma {:induction false} NextKeepsExclusive(setting: Setting, s: State, p: nat, t: State)
    requires setting.locking && Exclusive(s) && Next(setting, s, p, t)
    ensures Exclusive(t)
  {
    assert |t.procs| == |s.procs| && forall q | 0 <= q < |s.procs| && q != p :: t.procs[q] == s.procs[q];
  }

  /**
    With locks data is generated once: two processes are never in the critical
    section together, and a process that is about to rename finds no folder, so
    a rename of generated data never fails.
   */
  lemma {:induction false} LockedGenerationIsNeverWasted(setting: Setting, trace: seq<State>, i: nat, p: nat, q: nat)
    requires setting.locking && IsTrace(setting, trace) && i < |trace| && p < |trace[i].procs| && q < |trace[i].procs|
    ensures InCritical(trace[i].procs[p].pc) && InCritical(trace[i].procs[q].pc) ==> p == q
    ensures trace[i].procs[p].pc.Generated? ==> trace[i].folder == Nothing
    ensures Exclusive(trace[i])
    decreases i
  {
    if i > 0 {
      assert StepsTo(setting, trace, i);
      var r: nat :| Next(setting, trace[i - 1], r, trace[i]);
      assert |trace[i].procs| == |trace[i - 1].procs|;
      LockedGenerationIsNeverWasted(setting, trace, i - 1, p, q);
      NextKeepsExclusive(setting, trace[i - 1], r, trace[i]);
    }
  }

  // ----- Without locks -----

  function Two(a: Process, b: Process, folder: Content, renames: nat): State {
    State([a, b], folder, FREE, renames)
  }

  /** A run of two processes without locks. */
  function WastefulRun(): seq<State> {
    var full := Process(Generated, Complete);
    [ Two(Process(Entry, Nothing), Process(Entry, Nothing), Nothing, 0),
      Two(Process(AtLock, Nothing), Process(Entry, Nothing), Nothing, 0),
      Two(Process(AtLock, Nothing), Process(AtLock, Nothing), Nothing, 0),
      Two(Process(Recheck, Nothing), Process(AtLock, Nothing), Nothing, 0),
      Two(Process(Recheck, Nothing), Process(Recheck, Nothing), Nothing, 0),
      Two(Process(Generating, Partial), Process(Recheck, Nothing), Nothing, 0),
      Two(Process(Generating, Partial), Process(Generating, Partial), Nothing, 0),
      Two(full, Process(Generating, Partial), Nothing, 0),
      Two(full, full, Nothing, 0),
      Two(Process(Cleaning(true), Nothing), full, Complete, 1),
      Two(Process(Cleaning(true), Nothing), Process(Cleaning(false), Complete), Complete, 1),
      Two(Process(Cleaning(true), Nothing), Process(Threw, Nothing), Complete, 1) ]
  }

  /** Without locks the second process can generate everything and still throw, although the data is there. */
  lemma {:induction false} UnlockedProcessCanThrow(setting: Setting)
    requires !setting.locking && setting.supported
    ensures IsTrace(setting, WastefulRun())
    ensures
      var last := WastefulRun()[|WastefulRun()| - 1];
      last.folder == Complete && last.procs[1].pc.Threw?
  {
    var trace := WastefulRun();
    var movers: seq<nat> := [0, 0, 1, 0, 1, 0, 1, 0, 1, 0, 1, 1];
    assert CanGenerate(setting, Complete);
    forall i | 0 < i < |trace| ensures StepsTo(setting, trace, i) {
      assert Next(setting, trace[i - 1], movers[i], trace[i]);
    }
  }

  /** Whoever has generated data finds no folder, so that its rename succeeds, unless there is nothing to rename. */
  ghost predicate Unwasted(s: State) {
    forall p | 0 <= p < |s.procs| :: s.procs[p].pc.Generated? ==> s.folder == Nothing
  }

  ghost predicate NeverWasted(setting: Setting) {
    forall trace, i: nat | IsTrace(setting, trace) && i < |trace| :: Unwasted(trace[i])
  }

  /**
    In every run of any number of processes whoever has generated data finds no
    folder, if and only if there are locks, or nothing is ever generated.
   */
  lemma {:induction false} GenerationIsNeverWastedIff(setting: Setting)
    ensures NeverWasted(setting) <==> setting.locking || !setting.supported
  {
    if setting.locking || !setting.supported {
      forall trace: seq<State>, i: nat | IsTrace(setting, trace) && i < |trace| ensures Unwasted(trace[i]) {
        forall p | 0 <= p < |trace[i].procs| ensures trace[i].procs[p].pc.Generated? ==> trace[i].folder == Nothing {
          if setting.locking {
            LockedGenerationIsNeverWasted(setting, trace, i, p, p);
          } else {
            TracesAreSafe(setting, trace, i);
            assert ProcessOk(setting, trace[i], p);
          }
        }
      }
    } else {
      var trace := WastefulRun();
      UnlockedProcessCanThrow(setting);
      assert IsTrace(setting, trace) && 9 < |trace| && trace[9].procs[1].pc.Generated?;
      assert !Unwasted(trace[9]);
    }
  }
}
