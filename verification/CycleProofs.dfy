/** What one task cycle keeps, for every world. */
module CycleProofs {
  import opened Prelude
  import opened TaskGraph
  import opened Spec
  import opened State
  import opened Select
  import opened Validation
  import opened Cycle

  /** Completed tasks are spec tasks, none twice, each after everything it depends on. */
  ghost predicate Orderly(tasks: seq<SpecTask>, completed: seq<string>) {
    && Distinct(completed)
    && (forall x :: x in completed ==> x in Ids(tasks))
    && DependenciesFirst(tasks, completed)
  }

  /** The invariant of every state the work unit computes or saves. */
  ghost predicate Safe(spec: TaskSpec, st: ExecutionState) {
    && st.taskId == spec.id && st.branch == spec.targetBranch
    && Orderly(spec.tasks, st.completedTasks)
    && Consistent(spec.tasks, st.completedTasks, st.currentTask)
    && (st.status == PENDING ==> st.completedTasks == [] && st.currentTask == None)
    && (st.status == FINAL_VALIDATING ==> AllDone(spec.tasks, st.completedTasks))
    && (st.status in {IMPLEMENTING, VALIDATING} ==> !AllDone(spec.tasks, st.completedTasks))
    && st.status in {PENDING, RUNNING, IMPLEMENTING, VALIDATING, TASK_COMPLETED, FINAL_VALIDATING,
                     SCOPE_VIOLATION, FAILED, ESCALATED}
  }

  function Max(a: nat, b: nat): nat { if a < b then b else a }

  /** From one saved state to the next: a table edge (PENDING reaches IMPLEMENTING through RUNNING
      before anything is saved; a passed final verification saves its state once more), at most one
      task more, repairs within the budget. */
  ghost predicate Edge(spec: TaskSpec, a: ExecutionState, b: ExecutionState) {
    && Safe(spec, b)
    && (b.status in AllowedFrom(a.status) || (a.status == PENDING && b.status == IMPLEMENTING) || b == a)
    && (b.completedTasks == a.completedTasks ||
        (a.status == VALIDATING && b.status == TASK_COMPLETED && |b.completedTasks| == |a.completedTasks| + 1
         && a.completedTasks <= b.completedTasks))
    && a.repairAttempts <= b.repairAttempts <= Max(spec.repairAttemptLimit, a.repairAttempts)
  }

  ghost predicate Trail(spec: TaskSpec, from: ExecutionState, saved: seq<ExecutionState>)
    decreases |saved|
  {
    saved == [] || (Edge(spec, from, saved[0]) && Trail(spec, saved[0], saved[1..]))
  }

  function End(from: ExecutionState, saved: seq<ExecutionState>): ExecutionState {
    if saved == [] then from else saved[|saved| - 1]
  }

  lemma {:induction false} TrailConcat(spec: TaskSpec, from: ExecutionState, s: seq<ExecutionState>,
      t: seq<ExecutionState>)
    requires Trail(spec, from, s) && Trail(spec, End(from, s), t)
    ensures Trail(spec, from, s + t)
    decreases |s|
  {
    hide Edge;
    if s == [] {
      assert s + t == t;
    } else {
      TrailConcat(spec, s[0], s[1..], t);
      assert (s + t)[1..] == s[1..] + t;
    }
  }

  /** Every state of a trail is safe and carries the earlier completed tasks as a prefix. */
  lemma {:induction false} TrailAt(spec: TaskSpec, from: ExecutionState, saved: seq<ExecutionState>, i: nat)
    requires Trail(spec, from, saved) && i < |saved|
    ensures Safe(spec, saved[i]) && from.completedTasks <= saved[i].completedTasks
    ensures from.repairAttempts <= saved[i].repairAttempts <= Max(spec.repairAttemptLimit, from.repairAttempts)
    decreases |saved|
  {
    if i > 0 {
      TrailAt(spec, saved[0], saved[1..], i - 1);
    }
  }

  /** Errors that only a collaborator can cause: a raising command or Codex, a spec without
      validation commands, a dirty tree. */
  predicate FromOutside(e: AgentError) {
    e.code.Other? || e.code == NoValidationCommands || e.code == DirtyWorktree
  }

  /** Outcome and status tell the same story. */
  predicate Agree(r: CycleResult) {
    && r.repairAttempts == r.state.repairAttempts
    && (r.outcome == TaskCompleted <==> r.state.status == TASK_COMPLETED && r.code != Some(Tampered))
    && (r.outcome == CycleFailed <==> r.state.status == FAILED && r.code != Some(Tampered))
    && (r.outcome == CycleEscalated <==> r.state.status == ESCALATED && r.code != Some(Tampered))
    && (r.outcome == FinalVerificationPassed <==> r.state.status == FINAL_VALIDATING && r.code != Some(Tampered))
  }

  /** `task` is being worked on in state `st`. */
  ghost predicate Working(spec: TaskSpec, task: SpecTask, st: ExecutionState) {
    && Wellformed(spec) && Safe(spec, st)
    && task in spec.tasks && st.currentTask == Some(task.id)
    && task.id !in st.completedTasks && Ready(task, st.completedTasks)
  }

  /** What a run of the cycle keeps when it starts from `st` with `own` Codex calls of its own
      besides those that repairs pay for. */
  ghost predicate Sound(spec: TaskSpec, task: SpecTask, st: ExecutionState, run: Run, own: nat) {
    && Trail(spec, st, run.saved)
    && run.calls <= RemainingRepairs(spec.repairAttemptLimit, st.repairAttempts) + own
    && match run.result {
         case Err(e) => FromOutside(e)
         case Ok(r) =>
           && ValidCycleResult(r) && Agree(r) && Safe(spec, r.state)
           && r.outcome != FinalVerificationPassed
           && st.repairAttempts <= r.state.repairAttempts <= Max(spec.repairAttemptLimit, st.repairAttempts)
           && run.calls <= r.state.repairAttempts - st.repairAttempts + own
           && (r.outcome != TaskCompleted ==> r.state.completedTasks == st.completedTasks)
           && (r.outcome == TaskCompleted ==>
                 && r.state.completedTasks == st.completedTasks + [task.id] && r.state.currentTask == Some(task.id)
                 && run.saved != [] && r.state == End(st, run.saved)
                 && run.calls == r.state.repairAttempts - st.repairAttempts + own)
       }
  }

  /** Appending a ready task keeps the order of completed tasks. */
  lemma OrderlyAppend(tasks: seq<SpecTask>, completed: seq<string>, task: SpecTask)
    requires UniqueIds(tasks) && Orderly(tasks, completed)
    requires task in tasks && task.id !in completed && Ready(task, completed)
    ensures Orderly(tasks, completed + [task.id])
  {
    var longer := completed + [task.id];
    var n :| 0 <= n < |tasks| && tasks[n] == task;
    assert Ids(tasks)[n] in Ids(tasks);
    forall i, t, d | 0 <= i < |longer| && t in tasks && t.id == longer[i] && d in t.dependsOn
      ensures d in longer[..i]
    {
      if i < |completed| {
        assert longer[..i] == completed[..i];
      } else {
        var m :| 0 <= m < |tasks| && tasks[m] == t;
        assert Ids(tasks)[m] == Ids(tasks)[n];
        assert longer[..i] == completed;
      }
    }
  }

  lemma WorkingHasOpenTask(spec: TaskSpec, task: SpecTask, st: ExecutionState)
    requires Working(spec, task, st)
    ensures !AllDone(spec.tasks, st.completedTasks) && task.id in Ids(spec.tasks)
  {
    var n :| 0 <= n < |spec.tasks| && spec.tasks[n] == task;
    assert Ids(spec.tasks)[n] == task.id;
  }

  lemma TamperedSound(spec: TaskSpec, task: SpecTask, st: ExecutionState)
    requires Working(spec, task, st) && st.status in {IMPLEMENTING, VALIDATING}
    ensures Sound(spec, task, st, TamperedResult(task, st), 0)
    ensures Sound(spec, task, st, TamperedResult(task, st).AfterCall(), 1)
  {
  }

  lemma Prepend(spec: TaskSpec, task: SpecTask, st: ExecutionState, next: ExecutionState, run: Run, own: nat, more: nat)
    requires Edge(spec, st, next) && next.completedTasks == st.completedTasks
    requires Sound(spec, task, next, run, own) && next.repairAttempts == st.repairAttempts + more
    requires more <= 1 && (more == 1 ==> own == 1 && st.repairAttempts < spec.repairAttemptLimit)
    ensures Sound(spec, task, st, run.AfterSaving(next), own - more)
  {
    var saved := [next] + run.saved;
    assert saved[1..] == run.saved;
  }

  /** A branch that ends the work unit. */
  lemma ConcludeSound(spec: TaskSpec, task: SpecTask, st: ExecutionState, target: ExecutionStatus, with: Changes,
                      outcome: CycleOutcome, cause: FailureClass, message: Message, code: Option<ResultCode>)
    requires Working(spec, task, st) && st.status in {IMPLEMENTING, VALIDATING}
    requires with.currentTask == Some(task.id) && with.completedTasks.None? && with.repairAttempts.None?
    requires code != Some(Tampered) && (message == LimitReached ==> code == Some(RepairAttemptLimit))
    requires || (target == SCOPE_VIOLATION && outcome == CycleScopeViolation && cause == NeedsEscalation)
             || (target == FailureStatus(cause) && outcome == FailureOutcome(cause))
    ensures Sound(spec, task, st, Conclude(st, target, with, outcome, Some(task.id), Some(cause), message, code), 0)
  {
    WorkingHasOpenTask(spec, task, st);
    var run := Conclude(st, target, with, outcome, Some(task.id), Some(cause), message, code);
    assert run.saved[1..] == [];
    assert Edge(spec, st, run.saved[0]);
  }

  /** The branch that completes the task. */
  lemma CompleteSound(spec: TaskSpec, task: SpecTask, st: ExecutionState, command: string)
    requires Working(spec, task, st) && st.status == VALIDATING
    ensures Sound(spec, task, st,
                  Conclude(st, TASK_COMPLETED,
                           Changes(Some(task.id), Some(st.completedTasks + [task.id]), None, Some(command), Some(true)),
                           TaskCompleted, Some(task.id), None), 0)
  {
    OrderlyAppend(spec.tasks, st.completedTasks, task);
    WorkingHasOpenTask(spec, task, st);
    var run := Conclude(st, TASK_COMPLETED,
                        Changes(Some(task.id), Some(st.completedTasks + [task.id]), None, Some(command), Some(true)),
                        TaskCompleted, Some(task.id), None);
    assert run.saved[1..] == [];
    assert Edge(spec, st, run.saved[0]);
  }

  /** Entering validation, and entering another repair. */
  lemma EnterValidating(spec: TaskSpec, task: SpecTask, st: ExecutionState, next: ExecutionState)
    requires Working(spec, task, st) && st.status == IMPLEMENTING
    requires ApplyTransition(st, VALIDATING, Changes(currentTask := Some(task.id))) == Ok(next)
    ensures Working(spec, task, next) && Edge(spec, st, next)
    ensures next.status == VALIDATING && next.completedTasks == st.completedTasks &&
        next.repairAttempts == st.repairAttempts
  {
    WorkingHasOpenTask(spec, task, st);
  }

  lemma EnterRepair(spec: TaskSpec, task: SpecTask, st: ExecutionState, command: string, next: ExecutionState)
    requires Working(spec, task, st) && st.status == VALIDATING && st.repairAttempts < spec.repairAttemptLimit
    requires ApplyTransition(st, IMPLEMENTING,
               Changes(Some(task.id), None, Some(st.repairAttempts + 1), Some(command), Some(false))) == Ok(next)
    ensures Working(spec, task, next) && Edge(spec, st, next)
    ensures next.status == IMPLEMENTING && next.completedTasks == st.completedTasks &&
        next.repairAttempts == st.repairAttempts + 1
  {
    WorkingHasOpenTask(spec, task, st);
  }

  lemma {:induction false} ImplementSound(spec: TaskSpec, task: SpecTask, st: ExecutionState, w: World, k: nat)
    requires Working(spec, task, st) && st.status == IMPLEMENTING
    ensures Sound(spec, task, st, Implement(spec, task, st, w, k), 1)
    decreases RemainingRepairs(spec.repairAttemptLimit, st.repairAttempts), 2
  {
    hide Working;
    TamperedSound(spec, task, st);
    AfterCodexSound(spec, task, st, w, k);
  }

  lemma {:induction false} AfterCodexSound(spec: TaskSpec, task: SpecTask, st: ExecutionState, w: World, k: nat)
    requires Working(spec, task, st) && st.status == IMPLEMENTING
    ensures Sound(spec, task, st, AfterCodex(spec, task, st, w, k), 0)
    decreases RemainingRepairs(spec.repairAttemptLimit, st.repairAttempts), 1
  {
    hide Working, Sound, Edge;
    var a := w.attempt(k);
    var mine := Changes(currentTask := Some(task.id));
    var failing := mine.(lastResult := Some(false));
    if a.before != a.atScope {
      TamperedSound(spec, task, st);
    } else if !a.scopeAllowed {
      ConcludeSound(spec, task, st, SCOPE_VIOLATION, failing, CycleScopeViolation, NeedsEscalation, OtherMessage, None);
    } else if a.codex.Exited? && a.codex.exitCode != 0 && !a.changed {
      var c := ClassifyOutput(a.codexOutput, false, Some(a.codex.exitCode));
      ConcludeSound(spec, task, st, FailureStatus(c), failing, FailureOutcome(c), c, OtherMessage, None);
    } else {
      var next := ApplyTransition(st, VALIDATING, mine).value;
      EnterValidating(spec, task, st, next);
      ValidateSound(spec, task, next, w, k);
      Prepend(spec, task, st, next, ValidateAndMaybeRepair(spec, task, next, w, k), 0, 0);
    }
  }

  lemma {:induction false} ValidateSound(spec: TaskSpec, task: SpecTask, st: ExecutionState, w: World, k: nat)
    requires Working(spec, task, st) && st.status == VALIDATING
    ensures Sound(spec, task, st, ValidateAndMaybeRepair(spec, task, st, w, k), 0)
    decreases RemainingRepairs(spec.repairAttemptLimit, st.repairAttempts), 0
  {
    hide Working, Sound, Edge, Conclude, Implement, Records, ClassifyOutput, FirstFailed;
    var checked := RunValidation(w.attempt(k).checks);
    if checked.Err? {
      StopSound(spec, task, st, checked.error);
    } else {
      var failed := FirstFailed(checked.value);
      if failed.None? {
        NotYetCompleted(spec, task, st);
        CompleteSound(spec, task, st, checked.value[|checked.value| - 1].command);
      } else {
        var seen := Changes(currentTask := Some(task.id), lastValidation := Some(failed.value.command),
            lastResult := Some(false));
        var c := ClassifyValidation(failed.value).value;
        if c != AgentRepairable {
          ConcludeSound(spec, task, st, FailureStatus(c), seen, FailureOutcome(c), c, OtherMessage, None);
        } else if !CanAttemptRepair(spec.repairAttemptLimit, st.repairAttempts) {
          ConcludeSound(spec, task, st, ESCALATED, seen, CycleEscalated, c, LimitReached, Some(RepairAttemptLimit));
        } else {
          var next := ApplyTransition(st, IMPLEMENTING, seen.(repairAttempts := Some(st.repairAttempts + 1))).value;
          EnterRepair(spec, task, st, failed.value.command, next);
          ImplementSound(spec, task, next, w, k + 1);
          Prepend(spec, task, st, next, Implement(spec, task, next, w, k + 1), 1, 1);
        }
      }
    }
  }

  lemma StopSound(spec: TaskSpec, task: SpecTask, st: ExecutionState, e: AgentError)
    requires FromOutside(e)
    ensures Sound(spec, task, st, Stop(e), 0)
  {
  }

  lemma NotYetCompleted(spec: TaskSpec, task: SpecTask, st: ExecutionState)
    requires Working(spec, task, st)
    ensures task.id !in st.completedTasks
  {
  }
}
