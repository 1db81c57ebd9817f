/** In which order a work unit lists its completed tasks (agent/select.py, agent/cycle.py). */
module OrderProofs {
  import opened Prelude
  import opened TaskGraph
  import opened Spec
  import opened State
  import opened Select
  import opened Validation
  import opened Cycle
  import opened CycleProofs
  import opened WorkUnit
  import opened WorkUnitProofs
  import GateProofs

  /** Every dependency is defined before the task that needs it. */
  ghost predicate DefinedInOrder(spec: TaskSpec) {
    DependenciesFirst(spec.tasks, Ids(spec.tasks))
  }

  /** Completed in definition order so far, with no task under way. */
  ghost predicate InOrder(spec: TaskSpec, st: ExecutionState) {
    && st.completedTasks <= Ids(spec.tasks)
    && (st.currentTask.Some? ==> st.currentTask.value in st.completedTasks)
  }

  lemma {:induction false} FirstReadyAt(tasks: seq<SpecTask>, completed: seq<string>, n: nat)
    requires n < |tasks| && tasks[n].id !in completed && Ready(tasks[n], completed)
    requires forall i :: 0 <= i < n ==> tasks[i].id in completed
    ensures FirstReady(tasks, completed) == Some(tasks[n])
    decreases n
  {
    if n > 0 {
      FirstReadyAt(tasks[1..], completed, n - 1);
    }
  }

  /** The selector takes the tasks in definition order. */
  lemma NextInOrder(spec: TaskSpec, st: ExecutionState)
    requires UniqueIds(spec.tasks) && DefinedInOrder(spec) && InOrder(spec, st) && |st.completedTasks| < |spec.tasks|
    ensures NextTask(spec.tasks, st.completedTasks, st.currentTask) == Ok(Some(spec.tasks[|st.completedTasks|]))
  {
    var ids, done := Ids(spec.tasks), st.completedTasks;
    var n := |done|;
    assert done == ids[..n];
    forall i | 0 <= i < n ensures spec.tasks[i].id in done { assert done[i] == ids[i]; }
    assert spec.tasks[n].id == ids[n] && spec.tasks[n] in spec.tasks;
    forall d | d in spec.tasks[n].dependsOn ensures d in done { assert d in ids[..n]; }
    FirstReadyAt(spec.tasks, done, n);
    forall x | x in done ensures x in ids {
    }
  }

  /** A round that completes a task is an implementing one, of the selected task. */
  lemma CompletingRound(spec: TaskSpec, requireClean: bool, st: ExecutionState, w: World, c: nat, k: nat)
    requires spec.tasks != [] && GateProofs.Completed(RunTaskCycle(spec, requireClean, st, w, c, k))
    ensures var selected := NextTask(spec.tasks, st.completedTasks, st.currentTask);
            && selected.Ok? && selected.value.Some? && EnterImplementing(st, selected.value.value).Ok?
            && var next := EnterImplementing(st, selected.value.value).value;
               RunTaskCycle(spec, requireClean, st, w, c, k) ==
                   Implement(spec, selected.value.value, next, w, k).AfterSaving(next)
  {
    GateProofs.FinalGate(st, w.round(c).finalChecks);
    hide NextTask, Implement, FinalVerify, EnterImplementing;
  }

  lemma RoundInOrder(spec: TaskSpec, requireClean: bool, st: ExecutionState, w: World, c: nat, k: nat)
    requires Wellformed(spec) && Startable(spec, st) && spec.tasks != [] && DefinedInOrder(spec) && InOrder(spec, st)
    requires GateProofs.Completed(RunTaskCycle(spec, requireClean, st, w, c, k))
    ensures InOrder(spec, RunTaskCycle(spec, requireClean, st, w, c, k).result.value.state)
  {
    CompletingRound(spec, requireClean, st, w, c, k);
    SelectedOpen(spec, st);
    var task := NextTask(spec.tasks, st.completedTasks, st.currentTask).value.value;
    hide NextTask, Implement, DefinedInOrder, Startable, Wellformed, EnterImplementing, RunTaskCycle;
    ImplementedRound(spec, task, st, w, k);
    assert Ids(spec.tasks)[..|st.completedTasks| + 1] == Ids(spec.tasks)[..|st.completedTasks|] + [task.id];
  }

  lemma SelectedOpen(spec: TaskSpec, st: ExecutionState)
    requires Wellformed(spec) && Startable(spec, st) && DefinedInOrder(spec) && InOrder(spec, st)
    requires NextTask(spec.tasks, st.completedTasks, st.currentTask).Ok?
    requires NextTask(spec.tasks, st.completedTasks, st.currentTask).value.Some?
    ensures var task := NextTask(spec.tasks, st.completedTasks, st.currentTask).value.value;
            && |st.completedTasks| < |spec.tasks| && task == spec.tasks[|st.completedTasks|]
            && task in spec.tasks && task.id !in st.completedTasks && Ready(task, st.completedTasks)
  {
    SelectorNeverBlocks(spec.tasks, st.completedTasks, st.currentTask);
    if |st.completedTasks| < |spec.tasks| {
      NextInOrder(spec, st);
    }
    hide NextTask, DefinedInOrder, Topological;
  }

  lemma ImplementedRound(spec: TaskSpec, task: SpecTask, st: ExecutionState, w: World, k: nat)
    requires Wellformed(spec) && Startable(spec, st)
    requires task in spec.tasks && task.id !in st.completedTasks && Ready(task, st.completedTasks)
    ensures EnterImplementing(st, task).Ok?
    ensures var run := Implement(spec, task, EnterImplementing(st, task).value, w, k);
            GateProofs.Completed(run) ==>
              run.result.value.state.completedTasks == st.completedTasks + [task.id]
              && run.result.value.state.currentTask == Some(task.id)
  {
    ImplementRound(spec, task, st, w, k);
    var next := EnterImplementing(st, task).value;
    SelectedMayStart(spec, task, st, next);
    ImplementSound(spec, task, next, w, k);
    assert next.completedTasks == st.completedTasks;
    hide Implement, Working, Trail, Safe;
  }

  lemma FinishedInOrder(spec: TaskSpec, st: ExecutionState)
    requires UniqueIds(spec.tasks) && InOrder(spec, st) && AllDone(spec.tasks, st.completedTasks)
    ensures st.completedTasks == Ids(spec.tasks)
  {
    var done := set x | x in st.completedTasks;
    DistinctBound(Ids(spec.tasks), done);
    SetOfSeqBound(st.completedTasks);
  }

  lemma {:induction false} RoundsInOrder(spec: TaskSpec, requireClean: bool, st: ExecutionState, w: World, c: nat,
      k: nat, bound: nat)
    requires Wellformed(spec) && Startable(spec, st) && spec.tasks != [] && DefinedInOrder(spec) && InOrder(spec, st)
    requires var run := Rounds(spec, requireClean, st, w, c, k, bound);
             run.result.Ok? && run.result.value.outcome == FinalVerificationPassed
    ensures Rounds(spec, requireClean, st, w, c, k, bound).result.value.state.completedTasks == Ids(spec.tasks)
    decreases bound
  {
    hide *;
    GateProofs.PassedHasRoom(spec, requireClean, st, w, c, k, bound);
    RoundKeeps(spec, requireClean, st, w, c, k);
    RoundsUnfold(spec, requireClean, st, w, c, k, bound);
    var run := RunTaskCycle(spec, requireClean, st, w, c, k);
    if run.result.Ok? && run.result.value.outcome == TaskCompleted {
      NextStart(spec, st, run);
      GateProofs.CompletedMeans(run);
      RoundInOrder(spec, requireClean, st, w, c, k);
      var next := run.result.value.state;
      GateProofs.ThenMeans(run, Rounds(spec, requireClean, next, w, c + 1, k + run.calls, bound - 1));
      RoundsInOrder(spec, requireClean, next, w, c + 1, k + run.calls, bound - 1);
    } else {
      PassedInOrder(spec, st, run);
    }
  }

  lemma PassedInOrder(spec: TaskSpec, st: ExecutionState, run: Run)
    requires Wellformed(spec) && RoundSound(spec, st, run) && InOrder(spec, st)
    requires run.result.Ok? && run.result.value.outcome == FinalVerificationPassed
    ensures run.result.value.state.completedTasks == Ids(spec.tasks)
  {
    FinishedInOrder(spec, st);
  }

  /** A passing fresh run lists its tasks as the spec does exactly when the spec defines every
      dependency before the task that needs it. */
  lemma DefinitionOrderExactly(spec: TaskSpec, requireClean: bool, w: World)
    requires Wellformed(spec)
    requires var run := RunAll(spec, requireClean, NewExecutionState(spec), w);
             run.result.Ok? && run.result.value.outcome == FinalVerificationPassed
    ensures RunAll(spec, requireClean, NewExecutionState(spec), w).result.value.state.completedTasks == Ids(spec.tasks)
            <==> DefinedInOrder(spec)
  {
    FreshRun(spec, requireClean, w);
    FreshIsStartable(spec);
    assert InOrder(spec, NewExecutionState(spec));
    hide Rounds, Startable, InOrder, Trail, Wellformed;
    if DefinedInOrder(spec) {
      RoundsInOrder(spec, requireClean, NewExecutionState(spec), w, 0, 0, |spec.tasks| + 2);
    }
  }

  const TWISTED := [SpecTask("a", ["b"]), SpecTask("b", [])]

  /** Nothing goes wrong: Codex changes something in scope and every command passes. */
  function SmoothWorld(): World {
    var passing := [Record(ValidationRecord("test", true, Some(0), false, false, OutputText(false, false)))];
    World(_ => Attempt(Absent, Exited(0), Absent, Absent, true, true, OutputText(false, false), passing),
          _ => Round(Absent, false, passing))
  }

  lemma TwistedAccepted()
    ensures Accepted(TWISTED) && !DependenciesFirst(TWISTED, Ids(TWISTED))
    ensures Ids(TWISTED) == ["a", "b"]
  {
    var ids := Ids(TWISTED);
    assert ids == ["a", "b"];
    var order := ["b", "a"];
    assert TWISTED[0] in TWISTED && "b" in TWISTED[0].dependsOn;
    assert order[..1] == ["b"];
    assert Topological(TWISTED, order);
    assert ids[..0] == [];
    assert "b" !in ids[..0];
  }

  lemma {:induction false} SmoothEarns(spec: TaskSpec, guarded: bool, left: nat, used: nat, c: nat, k: nat)
    ensures GateProofs.Earns(spec, guarded, left, used, SmoothWorld(), c, k)
    decreases left
  {
    if left > 0 {
      assert GateProofs.Takes(spec, used, SmoothWorld(), k, 0);
      SmoothEarns(spec, false, left - 1, used, c + 1, k + 1);
    }
  }

  /** An accepted spec whose tasks are not defined in order, and its run in a world where nothing
      goes wrong: it passes, and lists "b" before "a". */
  lemma DefinedOutOfOrder(spec: TaskSpec, requireClean: bool)
    requires spec.tasks == TWISTED
    ensures var run := RunAll(spec, requireClean, NewExecutionState(spec), SmoothWorld());
            Wellformed(spec) && GateProofs.Passed(run) && run.result.value.state.completedTasks == ["b", "a"]
  {
    TwistedAccepted();
    SmoothEarns(spec, requireClean, 2, 0, 0, 0);
    GateProofs.PassExactly(spec, requireClean, SmoothWorld());
    FreshRun(spec, requireClean, SmoothWorld());
    var run := RunAll(spec, requireClean, NewExecutionState(spec), SmoothWorld());
    GateProofs.PassedMeans(run);
    hide RunAll, GateProofs.Earns;
    TwistedOrder(run.result.value.state.completedTasks);
  }

  lemma TwistedOrder(completed: seq<string>)
    requires Orderly(TWISTED, completed) && AllDone(TWISTED, completed)
    ensures completed == ["b", "a"]
  {
    TwistedAccepted();
    DistinctBound(completed, {"a", "b"});
    assert "a" in Ids(TWISTED) && "b" in Ids(TWISTED);
    var i :| 0 <= i < |completed| && completed[i] == "a";
    assert TWISTED[0] in TWISTED && "b" in TWISTED[0].dependsOn;
    assert "b" in completed[..i];
    forall x | x in completed ensures x == "a" || x == "b" { assert x in Ids(TWISTED); }
  }
}
