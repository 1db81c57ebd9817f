/** Guarantees of a whole work unit run, for every world. */
module WorkUnitProofs {
  import opened Prelude
  import opened TaskGraph
  import opened Spec
  import opened State
  import opened Select
  import opened Validation
  import opened Cycle
  import opened CycleProofs
  import opened WorkUnit

  /** States a round may start from: a checkpoint, or a retry that still has work to do. */
  ghost predicate Startable(spec: TaskSpec, st: ExecutionState) {
    && Safe(spec, st)
    && st.status in {PENDING, RUNNING, TASK_COMPLETED, FINAL_VALIDATING}
    && (st.status == RUNNING ==> !AllDone(spec.tasks, st.completedTasks))
  }

  /** What one round keeps. */
  ghost predicate RoundSound(spec: TaskSpec, st: ExecutionState, run: Run) {
    && Trail(spec, st, run.saved)
    && run.calls <= RemainingRepairs(spec.repairAttemptLimit, st.repairAttempts) + 1
    && (run.calls > 0 ==> !AllDone(spec.tasks, st.completedTasks))
    && match run.result {
         case Err(e) => FromOutside(e)
         case Ok(r) =>
           && ValidCycleResult(r) && Agree(r) && Safe(spec, r.state)
           && st.repairAttempts <= r.state.repairAttempts <= Max(spec.repairAttemptLimit, st.repairAttempts)
           && run.calls <= r.state.repairAttempts - st.repairAttempts + 1
           && (r.outcome == FinalVerificationPassed ==> AllDone(spec.tasks, r.state.completedTasks))
           && (r.outcome != TaskCompleted ==> r.state.completedTasks == st.completedTasks)
           && (r.outcome == TaskCompleted ==>
                 && !AllDone(spec.tasks, st.completedTasks)
                 && (exists id :: id !in st.completedTasks && r.state.completedTasks == st.completedTasks + [id])
                 && r.state == End(st, run.saved) && r.state.status == TASK_COMPLETED
                 && run.calls == r.state.repairAttempts - st.repairAttempts + 1)
       }
  }

  lemma ShortTrails(spec: TaskSpec, a: ExecutionState, b: ExecutionState, c: ExecutionState)
    requires Edge(spec, a, b) && Edge(spec, b, c)
    ensures Trail(spec, a, []) && Trail(spec, b, [c]) && Trail(spec, a, [b]) && Trail(spec, a, [b, c])
  {
    hide Edge;
    assert [b][1..] == [] && [c][1..] == [] && [b, c][1..] == [c];
  }

  /** The states of a final verification: it enters FINAL_VALIDATING unless it is already there, and
      stays there or fails. */
  lemma FinalEdges(spec: TaskSpec, st: ExecutionState, target: ExecutionStatus, with: Changes)
    requires Safe(spec, st) && AllDone(spec.tasks, st.completedTasks)
    requires st.status in {TASK_COMPLETED, FINAL_VALIDATING} && target in {FAILED, ESCALATED}
    requires with.currentTask.None? && with.completedTasks.None? && with.repairAttempts.None?
    ensures var current := st.(status := FINAL_VALIDATING);
            && Edge(spec, st, current) && Edge(spec, current, current)
            && ApplyTransition(current, target, with).Ok?
            && Edge(spec, current, ApplyTransition(current, target, with).value)
  {
  }

  /** A final verification saves `saved` and ends without another task. */
  lemma FinalRun(spec: TaskSpec, st: ExecutionState, run: Run)
    requires Safe(spec, st) && AllDone(spec.tasks, st.completedTasks)
    requires Trail(spec, st, run.saved) && run.calls == 0
    requires run.result.Err? ==> FromOutside(run.result.error)
    requires run.result.Ok? ==>
               && ValidCycleResult(run.result.value) && Agree(run.result.value) && Safe(spec, run.result.value.state)
               && run.result.value.outcome != TaskCompleted
               && run.result.value.state.completedTasks == st.completedTasks
               && run.result.value.state.repairAttempts == st.repairAttempts
    ensures RoundSound(spec, st, run)
  {
    hide Trail, Safe, AllDone;
  }

  lemma FinalVerifySound(spec: TaskSpec, st: ExecutionState, checks: seq<CommandRun>)
    requires Wellformed(spec) && Safe(spec, st) && AllDone(spec.tasks, st.completedTasks)
    requires st.status in {TASK_COMPLETED, FINAL_VALIDATING}
    ensures RoundSound(spec, st, FinalVerify(st, checks))
  {
    hide Edge, Trail, Records, FirstFailed, ClassifyOutput, AllDone, Orderly, Consistent, RoundSound, Accepted;
    var current := st.(status := FINAL_VALIDATING);
    var run := FinalVerify(st, checks);
    FinalEdges(spec, st, FAILED, Changes());
    ShortTrails(spec, st, current, current);
    ShortTrails(spec, current, current, current);
    var checked := RunValidation(checks);
    if checked.Ok? && FirstFailed(checked.value).Some? {
      var failed := FirstFailed(checked.value).value;
      var with := Changes(lastValidation := Some(failed.command), lastResult := Some(false));
      var target := FailureStatus(ClassifyValidation(failed).value);
      FinalEdges(spec, st, target, with);
      var end := ApplyTransition(current, target, with).value;
      ShortTrails(spec, st, current, end);
      assert run.saved == if st.status == TASK_COMPLETED then [current, end] else [end];
    } else if checked.Ok? {
      assert run.saved == if st.status == TASK_COMPLETED then [current, current] else [current];
    } else {
      assert run.saved == if st.status == TASK_COMPLETED then [current] else [];
    }
    FinalRun(spec, st, run);
  }

  /** With everything completed, a startable state is a checkpoint. */
  lemma DoneAtCheckpoint(spec: TaskSpec, st: ExecutionState)
    requires Wellformed(spec) && Startable(spec, st) && AllDone(spec.tasks, st.completedTasks)
    ensures Safe(spec, st) && st.status in {TASK_COMPLETED, FINAL_VALIDATING}
  {
    assert Ids(spec.tasks)[0] in Ids(spec.tasks);
  }

  lemma RoundKeeps(spec: TaskSpec, requireClean: bool, st: ExecutionState, w: World, c: nat, k: nat)
    requires Wellformed(spec) && Startable(spec, st)
    ensures RoundSound(spec, st, RunTaskCycle(spec, requireClean, st, w, c, k))
  {
    hide Implement, AfterCodex, ValidateAndMaybeRepair, FinalVerify, NextTask, RoundSound, EnterImplementing,
        TamperedResult, Stop;
    SelectorNeverBlocks(spec.tasks, st.completedTasks, st.currentTask);
    hide Safe, Topological;
    var selected := NextTask(spec.tasks, st.completedTasks, st.currentTask).value;
    if w.round(c).stateFile.Irregular? {
      TamperedAtStart(spec, if selected.Some? then selected.value else spec.tasks[0], st);
    } else if selected.None? {
      DoneAtCheckpoint(spec, st);
      FinalVerifySound(spec, st, w.round(c).finalChecks);
    } else if requireClean && st.completedTasks == [] && w.round(c).dirty {
      StoppedAtStart(spec, st, AgentError(PolicyViolation, DirtyWorktree));
    } else {
      ImplementRound(spec, selected.value, st, w, k);
    }
  }

  lemma StoppedAtStart(spec: TaskSpec, st: ExecutionState, e: AgentError)
    requires FromOutside(e)
    ensures RoundSound(spec, st, Stop(e))
  {
  }

  lemma TamperedAtStart(spec: TaskSpec, task: SpecTask, st: ExecutionState)
    requires Startable(spec, st)
    ensures RoundSound(spec, st, TamperedResult(task, st))
  {
  }

  lemma ImplementRound(spec: TaskSpec, task: SpecTask, st: ExecutionState, w: World, k: nat)
    requires Wellformed(spec) && Startable(spec, st)
    requires task in spec.tasks && task.id !in st.completedTasks && Ready(task, st.completedTasks)
    ensures EnterImplementing(st, task).Ok?
    ensures RoundSound(spec, st, Implement(spec, task, EnterImplementing(st, task).value, w, k)
                                 .AfterSaving(EnterImplementing(st, task).value))
  {
    hide Implement, AfterCodex, ValidateAndMaybeRepair, Distinct, DependenciesFirst, Topological;
    var next := EnterImplementing(st, task).value;
    SelectedMayStart(spec, task, st, next);
    ImplementSound(spec, task, next, w, k);
    WorkingHasOpenTask(spec, task, next);
    var run := Implement(spec, task, next, w, k);
    assert Edge(spec, st, next);
    assert ([next] + run.saved)[1..] == run.saved;
  }

  lemma SelectedMayStart(spec: TaskSpec, task: SpecTask, st: ExecutionState, next: ExecutionState)
    requires Wellformed(spec) && Startable(spec, st)
    requires task in spec.tasks && task.id !in st.completedTasks && Ready(task, st.completedTasks)
    requires EnterImplementing(st, task) == Ok(next)
    ensures Working(spec, task, next)
  {
    var n :| 0 <= n < |spec.tasks| && spec.tasks[n] == task;
    assert Ids(spec.tasks)[n] in Ids(spec.tasks);
    forall t | t in spec.tasks && t.id == task.id ensures Ready(t, st.completedTasks) {
      var m :| 0 <= m < |spec.tasks| && spec.tasks[m] == t;
      assert Ids(spec.tasks)[m] == Ids(spec.tasks)[n];
    }
  }

  /** Spec ids that are not completed yet, counted with the help of the whole list. */
  function Open(spec: TaskSpec, st: ExecutionState): int {
    |spec.tasks| - |st.completedTasks|
  }

  lemma OpenBounds(spec: TaskSpec, st: ExecutionState)
    requires Wellformed(spec) && Safe(spec, st)
    ensures 0 <= Open(spec, st) <= |spec.tasks|
    ensures !AllDone(spec.tasks, st.completedTasks) ==> Open(spec, st) > 0
  {
    var ids := Ids(spec.tasks);
    var all := set id | id in ids;
    SizeFromDistinct(ids);
    DistinctBound(st.completedTasks, all);
    if !AllDone(spec.tasks, st.completedTasks) {
      var x :| x in ids && x !in st.completedTasks;
      DistinctBound(st.completedTasks, all - {x});
    }
  }

  /** Everything guaranteed of the rounds of one work unit run that starts from `st`. */
  ghost predicate UnitSound(spec: TaskSpec, st: ExecutionState, run: Run) {
    && Trail(spec, st, run.saved)
    && run.calls <= Open(spec, st) + RemainingRepairs(spec.repairAttemptLimit, st.repairAttempts)
    && match run.result {
         case Err(e) => FromOutside(e)
         case Ok(r) =>
           && ValidCycleResult(r) && Agree(r) && Safe(spec, r.state)
           && r.outcome != TaskCompleted
           && st.completedTasks <= r.state.completedTasks
           && st.repairAttempts <= r.state.repairAttempts <= Max(spec.repairAttemptLimit, st.repairAttempts)
           && (r.outcome == FinalVerificationPassed ==> AllDone(spec.tasks, r.state.completedTasks))
           && run.calls <= |r.state.completedTasks| - |st.completedTasks| +
               r.state.repairAttempts - st.repairAttempts + 1
       }
  }

  lemma LastRound(spec: TaskSpec, st: ExecutionState, run: Run)
    requires Wellformed(spec) && Startable(spec, st) && RoundSound(spec, st, run)
    requires run.result.Ok? ==> run.result.value.outcome != TaskCompleted
    ensures UnitSound(spec, st, run)
  {
    OpenBounds(spec, st);
  }

  lemma StartHasRoom(spec: TaskSpec, st: ExecutionState, bound: nat)
    requires Wellformed(spec) && Startable(spec, st) && bound > Open(spec, st)
    ensures bound > 0 && spec.tasks != []
  {
    OpenBounds(spec, st);
  }

  lemma NextStart(spec: TaskSpec, st: ExecutionState, run: Run)
    requires Wellformed(spec) && Startable(spec, st) && RoundSound(spec, st, run)
    requires run.result.Ok? && run.result.value.outcome == TaskCompleted
    ensures Startable(spec, run.result.value.state)
    ensures Open(spec, run.result.value.state) == Open(spec, st) - 1
  {
  }

  lemma OneMoreRound(spec: TaskSpec, st: ExecutionState, run: Run, rest: Run)
    requires Wellformed(spec) && Startable(spec, st) && RoundSound(spec, st, run)
    requires run.result.Ok? && run.result.value.outcome == TaskCompleted
    requires UnitSound(spec, run.result.value.state, rest)
    ensures UnitSound(spec, st, Then(run, rest))
  {
    TrailConcat(spec, st, run.saved, rest.saved);
  }

  /** With two more rounds to spare than open tasks the loop never runs into its bound. */
  lemma {:induction false} RoundsKeep(spec: TaskSpec, requireClean: bool, st: ExecutionState, w: World, c: nat,
      k: nat, bound: nat)
    requires Wellformed(spec) && Startable(spec, st) && bound > Open(spec, st)
    ensures UnitSound(spec, st, Rounds(spec, requireClean, st, w, c, k, bound))
    decreases bound
  {
    hide *;
    StartHasRoom(spec, st, bound);
    RoundKeeps(spec, requireClean, st, w, c, k);
    var run := RunTaskCycle(spec, requireClean, st, w, c, k);
    RoundsUnfold(spec, requireClean, st, w, c, k, bound);
    if run.result.Ok? && run.result.value.outcome == TaskCompleted {
      var next := run.result.value.state;
      NextStart(spec, st, run);
      RoundsKeep(spec, requireClean, next, w, c + 1, k + run.calls, bound - 1);
      var rest := Rounds(spec, requireClean, next, w, c + 1, k + run.calls, bound - 1);
      OneMoreRound(spec, st, run, rest);
    } else {
      LastRound(spec, st, run);
    }
  }

  lemma FreshIsStartable(spec: TaskSpec)
    requires Wellformed(spec)
    ensures Startable(spec, NewExecutionState(spec))
  {
  }

  lemma FreshRounds(spec: TaskSpec, requireClean: bool, w: World)
    requires Wellformed(spec)
    ensures var st := NewExecutionState(spec);
            && spec.tasks != [] && Startable(spec, st) && Open(spec, st) == |spec.tasks|
            && st.completedTasks == [] && st.repairAttempts == 0
            && RunAll(spec, requireClean, st, w) == Rounds(spec, requireClean, st, w, 0, 0, |spec.tasks| + 2)
  {
    FreshIsStartable(spec);
    hide Rounds, Startable;
  }

  /** From a fresh state, whatever Codex, the commands and the file system do: the run ends within
      the loop bound, no transition is illegal, the selector never blocks, every result validates,
      success means that all tasks were completed, and Codex is invoked at most once per task plus
      once per repair the spec allows. */
  lemma FreshRun(spec: TaskSpec, requireClean: bool, w: World)
    requires Wellformed(spec)
    ensures var run := RunAll(spec, requireClean, NewExecutionState(spec), w);
            && UnitSound(spec, NewExecutionState(spec), run)
            && run.calls <= |spec.tasks| + spec.repairAttemptLimit
            && (run.result.Err? ==> FromOutside(run.result.error))
            && (run.result.Ok? ==> run.result.value.state.repairAttempts <= spec.repairAttemptLimit)
            && (run.result.Ok? && run.result.value.outcome == FinalVerificationPassed ==>
                  AllDone(spec.tasks, run.result.value.state.completedTasks))
  {
    hide *;
    FreshRounds(spec, requireClean, w);
    RoundsKeep(spec, requireClean, NewExecutionState(spec), w, 0, 0, |spec.tasks| + 2);
    FreshBounds(spec, NewExecutionState(spec), RunAll(spec, requireClean, NewExecutionState(spec), w));
  }

  lemma FreshBounds(spec: TaskSpec, st: ExecutionState, run: Run)
    requires UnitSound(spec, st, run) && Open(spec, st) == |spec.tasks| && st.repairAttempts == 0
    ensures run.calls <= |spec.tasks| + spec.repairAttemptLimit
    ensures run.result.Err? ==> FromOutside(run.result.error)
    ensures run.result.Ok? ==>
              && run.result.value.state.repairAttempts <= spec.repairAttemptLimit
              && (run.result.value.outcome == FinalVerificationPassed ==>
                    AllDone(spec.tasks, run.result.value.state.completedTasks))
  {
    hide Trail, Safe, AllDone, Agree, ValidCycleResult, FromOutside;
  }
}
