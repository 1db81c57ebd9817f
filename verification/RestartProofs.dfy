/** Work units that persist their state, crash anywhere and are started again
    (agent/reconcile.py together with agent/cycle.py and agent/workunit.py). */
module RestartProofs {
  import opened Prelude
  import opened TaskGraph
  import opened Spec
  import opened State
  import opened Select
  import opened Validation
  import opened Cycle
  import opened CycleProofs
  import opened WorkUnit
  import opened WorkUnitProofs
  import opened TamperProofs
  import GateProofs

  /** The contents the state file takes on, in order, during one persisted `run_work_unit`. */
  function DiskTrail(spec: TaskSpec, requireClean: bool, file: StateFile, w: World): seq<ExecutionState>
    requires spec.tasks != []
  {
    match PrepareState(spec, true, file)
    case Err(_) => []
    case Ok(prepared) =>
      [prepared.state] + if prepared.action == Block then [] else RunAll(spec, requireClean, prepared.state, w).saved
  }

  /** The state file after a start that finished or died after its `n`-th write. */
  function FileAfter(file: StateFile, trail: seq<ExecutionState>, n: nat): StateFile
    requires n <= |trail|
  {
    if n == 0 then file else Saved(trail[n - 1])
  }

  /** One start of the work unit: what it meets, and after how many writes it ended or died. */
  datatype Start = Start(requireClean: bool, world: World, writes: nat)

  function TrailOf(spec: TaskSpec, file: StateFile, start: Start): seq<ExecutionState>
    requires spec.tasks != []
  {
    DiskTrail(spec, start.requireClean, file, start.world)
  }

  function TasksLeft(spec: TaskSpec, st: ExecutionState): nat {
    if |st.completedTasks| <= |spec.tasks| then |spec.tasks| - |st.completedTasks| else 0
  }

  /** The state file is tampered with where the rounds of this start look, and last seen as `seen`: a
      condition on what the start meets, not on what it returns. */
  ghost predicate Tampers(spec: TaskSpec, file: StateFile, start: Start, seen: Fingerprint) {
    match PrepareState(spec, true, file)
    case Err(_) => false
    case Ok(prepared) =>
      && prepared.action != Block
      && Meddled(spec, start.requireClean && prepared.state.completedTasks == [], TasksLeft(spec, prepared.state),
                 prepared.state.repairAttempts, start.world, 0, 0, seen)
  }

  /** The start got as far as the round or attempt at which the file was last seen as `seen`. */
  ghost predicate Edited(spec: TaskSpec, file: StateFile, start: Start, seen: Fingerprint)
    requires spec.tasks != []
  {
    start.writes == |TrailOf(spec, file, start)| && Tampers(spec, file, start, seen)
  }

  /** A state file that has the fingerprint; what a regular file holds is anybody's guess. */
  predicate Shows(seen: Fingerprint, file: StateFile) {
    match seen
    case Absent => file == NoFile
    case Irregular(_) => file == IrregularFile
    case RegularFile(_) => file.Saved? || file == UnreadableFile
  }

  /** What a start may leave in the state file: its last write, or the file as it was edited, for an
      edit is reported and never undone. */
  ghost predicate Leaves(spec: TaskSpec, file: StateFile, start: Start, after: StateFile)
    requires spec.tasks != []
  {
    && start.writes <= |TrailOf(spec, file, start)|
    && (after == FileAfter(file, TrailOf(spec, file, start), start.writes)
        || exists seen :: Edited(spec, file, start, seen) && Shows(seen, after))
  }

  /** Any number of starts, each ending or dying after any write, beginning without a state file. */
  ghost predicate History(spec: TaskSpec, starts: seq<Start>, files: seq<StateFile>)
    requires spec.tasks != []
  {
    && |files| == |starts| + 1 && files[0] == NoFile
    && forall i :: 0 <= i < |starts| ==> Leaves(spec, files[i], starts[i], files[i + 1])
  }

  ghost predicate SafeFile(spec: TaskSpec, file: StateFile) {
    file == NoFile || (file.Saved? && Safe(spec, file.state))
  }

  function CompletedIn(file: StateFile): seq<string> {
    if file.Saved? then file.state.completedTasks else []
  }

  /** A FAILED state whose tasks are all completed: its retry has nothing left to implement. */
  ghost predicate DeadRetry(spec: TaskSpec, st: ExecutionState) {
    st.status == FAILED && AllDone(spec.tasks, st.completedTasks)
  }

  /** Preparation keeps the completed tasks and leads to a state the rounds may start from, a final
      failure being the one exception. */
  lemma PrepareKeeps(spec: TaskSpec, st: ExecutionState)
    requires Wellformed(spec) && Safe(spec, st)
    ensures var p := PreparePersisted(spec, st);
            && p.Ok? && Safe(spec, p.value.state)
            && p.value.state.completedTasks == st.completedTasks
            && p.value.state.repairAttempts <= st.repairAttempts
            && (p.value.action == Block <==> st.status in {ESCALATED, SCOPE_VIOLATION})
            && (p.value.action != Block && !DeadRetry(spec, st) ==> Startable(spec, p.value.state))
            && (DeadRetry(spec, st) ==> p.value.action == Retry && p.value.state == st.(status := RUNNING))
  {
    assert Ids(spec.tasks)[0] in Ids(spec.tasks);
  }

  lemma NothingLeft(spec: TaskSpec, st: ExecutionState)
    requires Wellformed(spec) && Safe(spec, st) && AllDone(spec.tasks, st.completedTasks)
    ensures NextTask(spec.tasks, st.completedTasks, st.currentTask) == Ok(None)
  {
    SelectorNeverBlocks(spec.tasks, st.completedTasks, st.currentTask);
  }

  /** The retry of a final failure is refused before anything is saved or Codex is called. */
  lemma DeadRetryStops(spec: TaskSpec, requireClean: bool, st: ExecutionState, w: World)
    requires Wellformed(spec) && Safe(spec, st) && AllDone(spec.tasks, st.completedTasks) && st.status == RUNNING
    ensures var run := RunAll(spec, requireClean, st, w);
            && run.saved == [] && run.calls == 0
            && (run.result == Err(ILLEGAL_TRANSITION) <==> !w.round(0).stateFile.Irregular?)
  {
    hide Safe, AllDone, Accepted;
    NothingLeft(spec, st);
    RoundsUnfold(spec, requireClean, st, w, 0, 0, |spec.tasks| + 2);
  }

  /** When a persisted start is refused as an illegal transition: exactly when the state file holds
      a final failure (and is a regular file). */
  lemma RefusedExactlyOnDeadRetry(spec: TaskSpec, requireClean: bool, st: ExecutionState, w: World)
    requires Wellformed(spec) && Safe(spec, st)
    requires PreparePersisted(spec, st).Ok? && PreparePersisted(spec, st).value.action != Block
    ensures (RunAll(spec, requireClean, PreparePersisted(spec, st).value.state, w).result == Err(ILLEGAL_TRANSITION))
            <==> (DeadRetry(spec, st) && !w.round(0).stateFile.Irregular?)
  {
    PrepareKeeps(spec, st);
    var start := PreparePersisted(spec, st).value.state;
    if DeadRetry(spec, st) {
      DeadRetryStops(spec, requireClean, start, w);
    } else {
      RoundsStart(spec, requireClean, start, w);
    }
  }

  lemma StartableRoom(spec: TaskSpec, st: ExecutionState)
    requires Wellformed(spec) && Startable(spec, st)
    ensures Open(spec, st) <= |spec.tasks| && spec.tasks != []
  {
    OpenBounds(spec, st);
  }

  lemma RoundsStart(spec: TaskSpec, requireClean: bool, st: ExecutionState, w: World)
    requires Wellformed(spec) && Startable(spec, st)
    ensures UnitSound(spec, st, RunAll(spec, requireClean, st, w))
  {
    hide UnitSound, Rounds, Startable, Wellformed;
    StartableRoom(spec, st);
    RoundsKeep(spec, requireClean, st, w, 0, 0, |spec.tasks| + 2);
  }

  /** The refusal leaves RUNNING in the state file, and the start after it does verify: recovery
      turns RUNNING with completed tasks into TASK_COMPLETED. */
  lemma SecondRetryVerifies(spec: TaskSpec, st: ExecutionState)
    requires Wellformed(spec) && Safe(spec, st) && DeadRetry(spec, st)
    ensures var refused := PreparePersisted(spec, st).value.state;
            && PreparePersisted(spec, refused).Ok?
            && PreparePersisted(spec, refused).value.action == Continue
            && PreparePersisted(spec, refused).value.state == st.(status := TASK_COMPLETED)
            && Startable(spec, PreparePersisted(spec, refused).value.state)
            && NextTask(spec.tasks, st.completedTasks, st.currentTask) == Ok(None)
  {
    assert Ids(spec.tasks)[0] in Ids(spec.tasks);
    NothingLeft(spec, st);
  }

  /** Every content of the state file during one start is safe and extends the completed tasks. */
  lemma TrailOnDisk(spec: TaskSpec, requireClean: bool, file: StateFile, w: World, n: nat)
    requires Wellformed(spec) && SafeFile(spec, file)
    requires n <= |DiskTrail(spec, requireClean, file, w)|
    ensures var after := FileAfter(file, DiskTrail(spec, requireClean, file, w), n);
            SafeFile(spec, after) && CompletedIn(file) <= CompletedIn(after) && (file.Saved? ==> after.Saved?)
  {
    hide *;
    HasTasks(spec);
    TrailShape(spec, requireClean, file, w, n);
    if n > 0 {
      PreparedStart(spec, file);
      var st := PrepareState(spec, true, file).value.state;
      if n > 1 {
        var run := RunAll(spec, requireClean, st, w);
        if Startable(spec, st) {
          RoundsStart(spec, requireClean, st, w);
          SoundTrail(spec, st, run);
        } else {
          RunningRetry(spec, requireClean, st, w);
          NothingSaved(spec, st, run);
        }
        TrailAt(spec, st, run.saved, n - 2);
        FileKept(spec, file, st, run.saved[n - 2]);
      } else {
        FileKept(spec, file, st, st);
      }
    } else {
      SameFileKept(file);
    }
  }

  lemma HasTasks(spec: TaskSpec)
    requires Wellformed(spec)
    ensures spec.tasks != []
  {
  }

  lemma TrailShape(spec: TaskSpec, requireClean: bool, file: StateFile, w: World, n: nat)
    requires spec.tasks != [] && n <= |DiskTrail(spec, requireClean, file, w)|
    ensures var after := FileAfter(file, DiskTrail(spec, requireClean, file, w), n);
            var prepared := PrepareState(spec, true, file);
            && (n == 0 ==> after == file)
            && (n > 0 ==> prepared.Ok?)
            && (n == 1 ==> after == Saved(prepared.value.state))
            && (n > 1 ==>
                  && prepared.value.action != Block
                  && n - 2 < |RunAll(spec, requireClean, prepared.value.state, w).saved|
                  && after == Saved(RunAll(spec, requireClean, prepared.value.state, w).saved[n - 2]))
  {
    hide RunAll, PrepareState;
  }

  /** A start that is not blocked: startable, or the retry of a final failure. */
  lemma PreparedStart(spec: TaskSpec, file: StateFile)
    requires Wellformed(spec) && SafeFile(spec, file)
    ensures var prepared := PrepareState(spec, true, file);
            && prepared.Ok? && Safe(spec, prepared.value.state)
            && prepared.value.state.completedTasks == CompletedIn(file)
            && (prepared.value.action != Block ==>
                  Startable(spec, prepared.value.state)
                  || (AllDone(spec.tasks, prepared.value.state.completedTasks) &&
                      prepared.value.state.status == RUNNING))
  {
    FreshIsStartable(spec);
    if file.Saved? {
      PrepareKeeps(spec, file.state);
    }
    hide PreparePersisted, AllDone, Orderly, Consistent;
  }

  lemma SoundTrail(spec: TaskSpec, st: ExecutionState, run: Run)
    requires UnitSound(spec, st, run)
    ensures Trail(spec, st, run.saved)
  {
  }

  lemma NothingSaved(spec: TaskSpec, st: ExecutionState, run: Run)
    requires run.saved == []
    ensures Trail(spec, st, run.saved)
  {
  }

  lemma FileKept(spec: TaskSpec, file: StateFile, st: ExecutionState, later: ExecutionState)
    requires Safe(spec, later) && st.completedTasks == CompletedIn(file) && st.completedTasks <= later.completedTasks
    ensures SafeFile(spec, Saved(later)) && CompletedIn(file) <= CompletedIn(Saved(later))
  {
    hide Safe;
  }

  lemma SameFileKept(file: StateFile)
    ensures CompletedIn(file) <= CompletedIn(file)
  {
  }

  lemma RunningRetry(spec: TaskSpec, requireClean: bool, st: ExecutionState, w: World)
    requires Wellformed(spec) && Safe(spec, st) && AllDone(spec.tasks, st.completedTasks) && st.status == RUNNING
    ensures RunAll(spec, requireClean, st, w).saved == []
  {
    DeadRetryStops(spec, requireClean, st, w);
  }

  /** `after` is an orderly state file that keeps what `before` had completed. */
  ghost predicate Kept(spec: TaskSpec, before: StateFile, after: StateFile) {
    SafeFile(spec, after) && CompletedIn(before) <= CompletedIn(after) && (before.Saved? ==> after.Saved?)
  }

  /** No edit, or one that could lose nothing: the file is removed, and there was none before. */
  ghost predicate Spares(spec: TaskSpec, file: StateFile, start: Start)
    requires spec.tasks != []
  {
    forall seen :: Edited(spec, file, start, seen) ==> seen == Absent && file == NoFile
  }

  /** Exactly when a start keeps the progress in the state file, whatever it leaves there: when no
      attempt it comes to touches the file and no round finds it irregular (a removed file that was
      not there before aside). */
  lemma StartKeepsExactly(spec: TaskSpec, file: StateFile, start: Start)
    requires Wellformed(spec) && SafeFile(spec, file)
    requires spec.tasks != [] && start.writes <= |TrailOf(spec, file, start)|
    ensures (forall after :: Leaves(spec, file, start, after) ==> Kept(spec, file, after)) <==>
        Spares(spec, file, start)
  {
    TrailOnDisk(spec, start.requireClean, file, start.world, start.writes);
    hide Edited, DiskTrail, Safe, FileAfter;
    if seen :| Edited(spec, file, start, seen) && !(seen == Absent && file == NoFile) {
      var after := match seen
        case Absent => NoFile
        case Irregular(_) => IrregularFile
        case RegularFile(_) => UnreadableFile;
      assert Shows(seen, after) && Leaves(spec, file, start, after) && !Kept(spec, file, after);
    }
  }

  /** The condition is the run's own verdict: its rounds end on a tampered file exactly when the world
      meddles with it. */
  lemma TamperedExactly(spec: TaskSpec, file: StateFile, start: Start)
    requires Wellformed(spec) && SafeFile(spec, file) && spec.tasks != []
    requires PrepareState(spec, true, file).value.action != Block
    ensures PrepareState(spec, true, file).Ok?
    ensures FoundTampered(RunAll(spec, start.requireClean, PrepareState(spec, true, file).value.state,
        start.world)) <==>
            exists seen :: Tampers(spec, file, start, seen)
  {
    hide *;
    PreparedStart(spec, file);
    var st := PrepareState(spec, true, file).value.state;
    if Startable(spec, st) {
      StartVerdict(spec, start.requireClean, st, start.world);
    } else {
      DeadVerdict(spec, start.requireClean, st, start.world);
    }
    TampersMeans(spec, file, start);
  }

  lemma StartVerdict(spec: TaskSpec, requireClean: bool, st: ExecutionState, w: World)
    requires Wellformed(spec) && Startable(spec, st) && spec.tasks != []
    ensures FoundTampered(RunAll(spec, requireClean, st, w)) <==>
            MeddledAtAll(spec, requireClean && st.completedTasks == [], TasksLeft(spec, st), st.repairAttempts, w, 0, 0)
  {
    hide *;
    GateProofs.StartableBounds(spec, st);
    StartableRoom(spec, st);
    LeftIsOpen(spec, st);
    RunAllIs(spec, requireClean, st, w);
    RoundsMeddled(spec, requireClean, st, w, 0, 0, |spec.tasks| + 2);
  }

  lemma LeftIsOpen(spec: TaskSpec, st: ExecutionState)
    requires Open(spec, st) >= 0
    ensures TasksLeft(spec, st) == Open(spec, st)
  {
  }

  /** The retry of a final failure looks at the file once, before it is refused. */
  lemma DeadVerdict(spec: TaskSpec, requireClean: bool, st: ExecutionState, w: World)
    requires Wellformed(spec) && Safe(spec, st) && spec.tasks != []
    requires AllDone(spec.tasks, st.completedTasks) && st.status == RUNNING
    ensures FoundTampered(RunAll(spec, requireClean, st, w)) <==>
            MeddledAtAll(spec, requireClean && st.completedTasks == [], TasksLeft(spec, st), st.repairAttempts, w, 0, 0)
  {
    GateProofs.AllDoneNoneOpen(spec, st);
    NothingLeft(spec, st);
    RoundsUnfold(spec, requireClean, st, w, 0, 0, |spec.tasks| + 2);
    MeddledUnfold(spec, requireClean && st.completedTasks == [], 0, st.repairAttempts, w, 0, 0);
    FinalIsHonest(st, w.round(0).finalChecks);
    GateProofs.FinalGate(st, w.round(0).finalChecks);
    hide Safe, AllDone, Accepted, NextTask, MeddledAtAll, Rounds, FinalVerify;
  }

  lemma TampersMeans(spec: TaskSpec, file: StateFile, start: Start)
    requires PrepareState(spec, true, file).Ok? && PrepareState(spec, true, file).value.action != Block
    ensures var st := PrepareState(spec, true, file).value.state;
            (exists seen :: Tampers(spec, file, start, seen)) <==>
            MeddledAtAll(spec, start.requireClean &&
                st.completedTasks == [], TasksLeft(spec, st), st.repairAttempts, start.world, 0, 0)
  {
    hide Meddled, PrepareState;
    var st := PrepareState(spec, true, file).value.state;
    var guarded, left, used := start.requireClean && st.completedTasks == [], TasksLeft(spec, st), st.repairAttempts;
    if seen :| Meddled(spec, guarded, left, used, start.world, 0, 0, seen) {
      assert Tampers(spec, file, start, seen);
    }
    if seen :| Tampers(spec, file, start, seen) {
      assert Meddled(spec, guarded, left, used, start.world, 0, 0, seen);
    }
  }

  /** Over any history of starts and crashes in which no start comes to an edit of the state file, that
      file is always orderly (completed tasks are spec tasks, none twice, each after its dependencies)
      and completed tasks are never lost or reordered. */
  lemma {:induction false} HistoryKeepsProgress(spec: TaskSpec, starts: seq<Start>, files: seq<StateFile>, i: nat,
      j: nat)
    requires Wellformed(spec) && spec.tasks != [] && History(spec, starts, files) && i <= j < |files|
    requires forall m :: 0 <= m < j ==> Spares(spec, files[m], starts[m])
    ensures SafeFile(spec, files[i]) && SafeFile(spec, files[j])
    ensures Orderly(spec.tasks, CompletedIn(files[j]))
    ensures CompletedIn(files[i]) <= CompletedIn(files[j])
    ensures files[i].Saved? ==> files[j].Saved?
    decreases j
  {
    HistoryStep(spec, starts, files, j);
    hide *;
    if j == 0 {
      EmptyFileSafe(spec);
    } else {
      HistoryKeepsProgress(spec, starts, files, if i == j then j - 1 else i, j - 1);
      OneStart(spec, files[j - 1], starts[j - 1], files[j]);
    }
    SafeIsOrderly(spec, files[j]);
  }

  lemma EmptyFileSafe(spec: TaskSpec)
    ensures SafeFile(spec, NoFile)
  {
  }

  lemma HistoryStep(spec: TaskSpec, starts: seq<Start>, files: seq<StateFile>, j: nat)
    requires spec.tasks != [] && History(spec, starts, files) && j < |files|
    ensures |files| == |starts| + 1
    ensures if j == 0 then files[0] == NoFile else Leaves(spec, files[j - 1], starts[j - 1], files[j])
  {
    hide Leaves;
    if j > 0 {
      var i := j - 1;
      assert Leaves(spec, files[i], starts[i], files[i + 1]);
    }
  }

  lemma SafeIsOrderly(spec: TaskSpec, file: StateFile)
    requires SafeFile(spec, file)
    ensures Orderly(spec.tasks, CompletedIn(file))
  {
  }

  lemma OneStart(spec: TaskSpec, before: StateFile, start: Start, after: StateFile)
    requires Wellformed(spec) && spec.tasks != [] && SafeFile(spec, before)
    requires Leaves(spec, before, start, after) && Spares(spec, before, start)
    ensures SafeFile(spec, after) && CompletedIn(before) <= CompletedIn(after) && (before.Saved? ==> after.Saved?)
  {
    assert start.writes <= |TrailOf(spec, before, start)|;
    StartKeepsExactly(spec, before, start);
    assert Kept(spec, before, after) by { hide Kept, Spares, Leaves; }
    hide Leaves, Spares, SafeFile;
  }

  /** No attempt changes the state file, and it is a regular file whenever it is looked at. */
  ghost predicate Untouched(w: World) {
    && (forall k: nat :: !Touched(w.attempt(k)))
    && (forall c: nat :: !w.round(c).stateFile.Irregular?)
  }

  lemma {:induction false} UntouchedNotMeddled(spec: TaskSpec, guarded: bool, left: nat, used: nat, w: World, c: nat,
      k: nat,
      seen: Fingerprint)
    requires Untouched(w)
    ensures !Meddled(spec, guarded, left, used, w, c, k, seen)
    decreases left
  {
    hide GateProofs.Takes, Touched, LastSeen;
    if left > 0 {
      forall n: nat | GateProofs.Takes(spec, used, w, k, n)
        ensures !Meddled(spec, false, left - 1, used + n, w, c + 1, k + n + 1, seen)
      {
        UntouchedNotMeddled(spec, false, left - 1, used + n, w, c + 1, k + n + 1, seen);
      }
    }
  }

  /** As long as nobody touches the state file, every start spares it. */
  lemma UntouchedIsSpared(spec: TaskSpec, file: StateFile, start: Start)
    requires spec.tasks != [] && Untouched(start.world)
    ensures Spares(spec, file, start)
  {
    var prepared := PrepareState(spec, true, file);
    hide PrepareState, DiskTrail, Meddled, Untouched;
    if prepared.Ok? {
      var st := prepared.value.state;
      forall seen ensures !Tampers(spec, file, start, seen) {
        UntouchedNotMeddled(spec, start.requireClean && st.completedTasks == [], TasksLeft(spec, st), st.repairAttempts,
                            start.world, 0, 0, seen);
      }
    }
  }

  /** Where a run stood, on disk, when it found the state file tampered with: what it saved last is
      never the violation it reports. */
  ghost predicate StillGoing(run: Run, st: ExecutionState) {
    FoundTampered(run) ==>
      End(st, run.saved).status in {PENDING, RUNNING, IMPLEMENTING, VALIDATING, TASK_COMPLETED, FINAL_VALIDATING}
  }

  lemma SavedFirst(run: Run, st: ExecutionState, next: ExecutionState)
    requires StillGoing(run, next)
    ensures StillGoing(run.AfterSaving(next), st)
  {
  }

  lemma {:induction false} ImplementGoing(spec: TaskSpec, task: SpecTask, st: ExecutionState, w: World, k: nat)
    requires st.status == IMPLEMENTING
    ensures StillGoing(Implement(spec, task, st, w, k), st)
    decreases RemainingRepairs(spec.repairAttemptLimit, st.repairAttempts), 2
  {
    hide ApplyTransition, AfterCodex;
    AfterCodexGoing(spec, task, st, w, k);
  }

  lemma {:induction false} AfterCodexGoing(spec: TaskSpec, task: SpecTask, st: ExecutionState, w: World, k: nat)
    requires st.status == IMPLEMENTING
    ensures StillGoing(AfterCodex(spec, task, st, w, k), st)
    decreases RemainingRepairs(spec.repairAttemptLimit, st.repairAttempts), 1
  {
    hide ClassifyOutput, ValidateAndMaybeRepair;
    var next := ApplyTransition(st, VALIDATING, Changes(currentTask := Some(task.id))).value;
    ValidateGoing(spec, task, next, w, k);
    SavedFirst(ValidateAndMaybeRepair(spec, task, next, w, k), st, next);
  }

  lemma {:induction false} ValidateGoing(spec: TaskSpec, task: SpecTask, st: ExecutionState, w: World, k: nat)
    requires st.status == VALIDATING
    ensures StillGoing(ValidateAndMaybeRepair(spec, task, st, w, k), st)
    decreases RemainingRepairs(spec.repairAttemptLimit, st.repairAttempts), 0
  {
    hide Implement, Records, FirstFailed, ClassifyOutput, StillGoing;
    forall next: ExecutionState | next.status == IMPLEMENTING && next.repairAttempts == st.repairAttempts + 1 &&
        CanAttemptRepair(spec.repairAttemptLimit, st.repairAttempts)
      ensures StillGoing(Implement(spec, task, next, w, k + 1).AfterSaving(next), st)
    {
      ImplementGoing(spec, task, next, w, k + 1);
      SavedFirst(Implement(spec, task, next, w, k + 1), st, next);
    }
    OtherCodeGoing(ValidateAndMaybeRepair(spec, task, st, w, k), st);
  }

  lemma OtherCodeGoing(run: Run, st: ExecutionState)
    ensures !FoundTampered(run) ==> StillGoing(run, st)
  {
  }

  lemma RoundGoing(spec: TaskSpec, requireClean: bool, st: ExecutionState, w: World, c: nat, k: nat)
    requires spec.tasks != [] && st.status in {PENDING, RUNNING, TASK_COMPLETED, FINAL_VALIDATING}
    ensures StillGoing(RunTaskCycle(spec, requireClean, st, w, c, k), st)
  {
    hide NextTask, Implement, Records, FirstFailed, ClassifyOutput;
    var selected := NextTask(spec.tasks, st.completedTasks, st.currentTask);
    if selected.Ok? && selected.value.Some? && EnterImplementing(st, selected.value.value).Ok? {
      var next := EnterImplementing(st, selected.value.value).value;
      ImplementGoing(spec, selected.value.value, next, w, k);
      SavedFirst(Implement(spec, selected.value.value, next, w, k), st, next);
    }
  }

  lemma GoingThen(st: ExecutionState, run: Run, rest: Run)
    requires run.result.Ok? && run.result.value.state == End(st, run.saved) && StillGoing(rest, run.result.value.state)
    ensures StillGoing(Then(run, rest), st)
  {
  }

  lemma {:induction false} RoundsGoing(spec: TaskSpec, requireClean: bool, st: ExecutionState, w: World, c: nat,
      k: nat, bound: nat)
    requires Wellformed(spec) && Startable(spec, st) && spec.tasks != [] && bound > 0
    ensures StillGoing(Rounds(spec, requireClean, st, w, c, k, bound), st)
    decreases bound
  {
    hide *;
    StartableStatus(spec, st);
    RoundsUnfold(spec, requireClean, st, w, c, k, bound);
    RoundGoing(spec, requireClean, st, w, c, k);
    RoundKeeps(spec, requireClean, st, w, c, k);
    var run := RunTaskCycle(spec, requireClean, st, w, c, k);
    if run.result.Ok? && run.result.value.outcome == TaskCompleted {
      NextStart(spec, st, run);
      var next := run.result.value.state;
      var rest := Rounds(spec, requireClean, next, w, c + 1, k + run.calls, bound - 1);
      if bound > 1 {
        RoundsGoing(spec, requireClean, next, w, c + 1, k + run.calls, bound - 1);
      } else {
        OutOfRounds(spec, requireClean, next, w, c + 1, k + run.calls);
      }
      CompletedSavedLast(spec, st, run);
      GoingThen(st, run, rest);
    }
  }

  lemma StartableStatus(spec: TaskSpec, st: ExecutionState)
    requires Startable(spec, st)
    ensures st.status in {PENDING, RUNNING, TASK_COMPLETED, FINAL_VALIDATING}
  {
    hide Safe, AllDone;
  }

  lemma OutOfRounds(spec: TaskSpec, requireClean: bool, st: ExecutionState, w: World, c: nat, k: nat)
    requires spec.tasks != []
    ensures StillGoing(Rounds(spec, requireClean, st, w, c, k, 0), st)
  {
  }

  lemma CompletedSavedLast(spec: TaskSpec, st: ExecutionState, run: Run)
    requires RoundSound(spec, st, run) && run.result.Ok? && run.result.value.outcome == TaskCompleted
    ensures run.result.value.state == End(st, run.saved)
  {
  }

  /** A detected edit is reported but not recorded: what the start itself last wrote carries no
      violation, so the next start is not blocked by it. */
  lemma EditIsNotRecorded(spec: TaskSpec, file: StateFile, start: Start)
    requires Wellformed(spec) && SafeFile(spec, file) && spec.tasks != [] &&
        (exists seen :: Edited(spec, file, start, seen))
    ensures var last := FileAfter(file, TrailOf(spec, file, start), start.writes);
            && last.Saved? && Leaves(spec, file, start, last) && Kept(spec, file, last)
            && PrepareState(spec, true, last).Ok? && PrepareState(spec, true, last).value.action != Block
  {
    hide *;
    EditedTrail(spec, file, start);
    TrailOnDisk(spec, start.requireClean, file, start.world, start.writes);
    EditedGoing(spec, file, start);
    var st := PrepareState(spec, true, file).value.state;
    GoingMeans(RunAll(spec, start.requireClean, st, start.world), st);
    NotBlocked(spec, End(st, RunAll(spec, start.requireClean, st, start.world).saved));
    LastIsLeft(spec, file, start);
  }

  lemma EditedTrail(spec: TaskSpec, file: StateFile, start: Start)
    requires spec.tasks != [] && (exists seen :: Edited(spec, file, start, seen))
    ensures var st := PrepareState(spec, true, file).value.state;
            && PrepareState(spec, true, file).Ok? && PrepareState(spec, true, file).value.action != Block
            && (exists seen :: Tampers(spec, file, start, seen)) && start.writes <= |TrailOf(spec, file, start)|
            && start.writes <= |DiskTrail(spec, start.requireClean, file, start.world)|
            && TrailOf(spec, file, start) == DiskTrail(spec, start.requireClean, file, start.world)
            && FileAfter(file, TrailOf(spec, file, start), start.writes) ==
                 Saved(End(st, RunAll(spec, start.requireClean, st, start.world).saved))
  {
    hide PrepareState, Meddled, RunAll;
    var st := PrepareState(spec, true, file).value.state;
    var run := RunAll(spec, start.requireClean, st, start.world);
    assert TrailOf(spec, file, start) == [st] + run.saved;
  }

  lemma NotBlocked(spec: TaskSpec, st: ExecutionState)
    requires Wellformed(spec) && SafeFile(spec, Saved(st))
    requires st.status in {PENDING, RUNNING, IMPLEMENTING, VALIDATING, TASK_COMPLETED, FINAL_VALIDATING}
    ensures PrepareState(spec, true, Saved(st)).Ok? && PrepareState(spec, true, Saved(st)).value.action != Block
  {
    PrepareKeeps(spec, st);
  }

  lemma LastIsLeft(spec: TaskSpec, file: StateFile, start: Start)
    requires spec.tasks != [] && start.writes <= |TrailOf(spec, file, start)|
    ensures var last := FileAfter(file, TrailOf(spec, file, start), start.writes);
            && Leaves(spec, file, start, last)
            && (Kept(spec, file, last) <==>
                  SafeFile(spec, last) && CompletedIn(file) <= CompletedIn(last) && (file.Saved? ==> last.Saved?))
  {
    hide Edited, TrailOf, SafeFile;
  }

  lemma EditedGoing(spec: TaskSpec, file: StateFile, start: Start)
    requires Wellformed(spec) && SafeFile(spec, file) && spec.tasks != [] &&
        (exists seen :: Tampers(spec, file, start, seen))
    ensures var st := PrepareState(spec, true, file).value.state;
            var run := RunAll(spec, start.requireClean, st, start.world);
            FoundTampered(run) && StillGoing(run, st)
  {
    hide *;
    SomeTampering(spec, file, start);
    PreparedStart(spec, file);
    TamperedExactly(spec, file, start);
    HasTasks(spec);
    var st := PrepareState(spec, true, file).value.state;
    var run := RunAll(spec, start.requireClean, st, start.world);
    if Startable(spec, st) {
      RoundsGoing(spec, start.requireClean, st, start.world, 0, 0, |spec.tasks| + 2);
      RunAllIs(spec, start.requireClean, st, start.world);
    } else {
      RunningRetry(spec, start.requireClean, st, start.world);
      NothingSavedGoing(run, st);
    }
  }

  lemma SomeTampering(spec: TaskSpec, file: StateFile, start: Start)
    requires exists seen :: Tampers(spec, file, start, seen)
    ensures PrepareState(spec, true, file).Ok? && PrepareState(spec, true, file).value.action != Block
  {
    hide PrepareState, Meddled;
  }

  lemma RunAllIs(spec: TaskSpec, requireClean: bool, st: ExecutionState, w: World)
    requires spec.tasks != []
    ensures RunAll(spec, requireClean, st, w) == Rounds(spec, requireClean, st, w, 0, 0, |spec.tasks| + 2)
  {
    hide Rounds;
  }

  lemma NothingSavedGoing(run: Run, st: ExecutionState)
    requires run.saved == [] && st.status == RUNNING
    ensures StillGoing(run, st)
  {
  }

  lemma GoingMeans(run: Run, st: ExecutionState)
    requires FoundTampered(run) && StillGoing(run, st)
    ensures End(st, run.saved).status in {PENDING, RUNNING, IMPLEMENTING, VALIDATING, TASK_COMPLETED, FINAL_VALIDATING}
  {
    hide FoundTampered;
  }

  /** With a task completed and one open, an attempt that touches the state file can cost the
      completed one: the start is edited, and leaves a file that keeps nothing. */
  lemma EditLosesProgress(spec: TaskSpec, st: ExecutionState, requireClean: bool, w: World)
    requires Wellformed(spec) && Safe(spec, st) && spec.tasks != []
    requires st.status == TASK_COMPLETED && st.completedTasks != [] && !AllDone(spec.tasks, st.completedTasks)
    requires !w.round(0).stateFile.Irregular? && Touched(w.attempt(0))
    ensures var start := Start(requireClean, w, |DiskTrail(spec, requireClean, Saved(st), w)|);
            && Edited(spec, Saved(st), start, LastSeen(w.attempt(0)))
            && exists after :: Leaves(spec, Saved(st), start, after) && !Kept(spec, Saved(st), after)
  {
    var start := Start(requireClean, w, |DiskTrail(spec, requireClean, Saved(st), w)|);
    var seen := LastSeen(w.attempt(0));
    OpenBounds(spec, st);
    assert PrepareState(spec, true, Saved(st)) == Ok(Prepared(Continue, st));
    assert TasksLeft(spec, st) > 0;
    hide AllDone, Safe, Wellformed, DiskTrail, LastSeen, Touched;
    assert Hits(spec, st.repairAttempts, w, 0, 0);
    assert Meddled(spec, requireClean &&
        st.completedTasks == [], TasksLeft(spec, st), st.repairAttempts, w, 0, 0, seen);
    assert Edited(spec, Saved(st), start, seen);
    hide Meddled, Edited, PrepareState;
    StartKeepsExactly(spec, Saved(st), start);
    assert !Spares(spec, Saved(st), start);
  }

  /** A concrete one: "a" is completed, Codex removes the state file while it works on "b", and the
      file that is left knows of no completed task. */
  lemma RemovedFileForgets(spec: TaskSpec)
    requires spec.tasks == [SpecTask("a", []), SpecTask("b", [])]
    ensures var st := ExecutionState(spec.id, TASK_COMPLETED, Some("a"), ["a"], 0, None, Some(true), spec.targetBranch);
            var start := Start(true, RemovingWorld(), |DiskTrail(spec, true, Saved(st), RemovingWorld())|);
            && Wellformed(spec) && SafeFile(spec, Saved(st)) && Leaves(spec, Saved(st), start, NoFile)
            && CompletedIn(Saved(st)) == ["a"] && CompletedIn(NoFile) == []
  {
    var st := ExecutionState(spec.id, TASK_COMPLETED, Some("a"), ["a"], 0, None, Some(true), spec.targetBranch);
    var start := Start(true, RemovingWorld(), |DiskTrail(spec, true, Saved(st), RemovingWorld())|);
    HalfDone(spec, st);
    RemovingTouches();
    hide Edited, DiskTrail, Safe, Wellformed, AllDone, RemovingWorld, Touched, LastSeen;
    EditLosesProgress(spec, st, true, RemovingWorld());
    assert Shows(Absent, NoFile);
  }

  lemma HalfDone(spec: TaskSpec, st: ExecutionState)
    requires spec.tasks == [SpecTask("a", []), SpecTask("b", [])]
    requires st == ExecutionState(spec.id, TASK_COMPLETED, Some("a"), ["a"], 0, None, Some(true), spec.targetBranch)
    ensures Wellformed(spec) && Safe(spec, st) && !AllDone(spec.tasks, st.completedTasks)
  {
    var ids := Ids(spec.tasks);
    assert ids == ["a", "b"] && "b" in ids && "b" !in st.completedTasks;
    assert Topological(spec.tasks, ids);
  }

  lemma RemovingTouches()
    ensures var a := RemovingWorld().attempt(0); Touched(a) && LastSeen(a) == Absent
    ensures !RemovingWorld().round(0).stateFile.Irregular?
  {
  }

  function RemovingWorld(): World {
    World(_ => Attempt(RegularFile(0), Exited(0), Absent, Absent, true, true, OutputText(false, false), []),
          _ => Round(RegularFile(0), false, []))
  }
}
