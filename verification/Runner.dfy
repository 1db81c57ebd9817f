/** The work unit as the program runs it: local state rebound step by step, every transition
    written to the state file before the next effect (agent/cycle.py, agent/workunit.py).  Each
    method is proved to do exactly what the function of the same name in `Cycle` says. */
module Runner {
  import opened Prelude
  import opened TaskGraph
  import opened Spec
  import opened State
  import opened Select
  import opened Validation
  import opened Cycle
  import opened WorkUnit

  class WorkUnitRunner {
    const spec: TaskSpec
    const requireClean: bool
    const persistState: bool
    const world: World
    var disk: StateFile                   // the state file as this program last wrote it
    var codexCalls: nat
    var rounds: nat
    ghost var saved: seq<ExecutionState>  // every state handed to `persist`, oldest first

    constructor (spec: TaskSpec, requireClean: bool, persistState: bool, world: World, disk: StateFile)
      requires spec.tasks != []
      ensures this.spec == spec && this.requireClean == requireClean && this.persistState == persistState
      ensures this.world == world && this.disk == disk && codexCalls == 0 && rounds == 0 && saved == []
    {
      this.spec, this.requireClean, this.persistState, this.world := spec, requireClean, persistState, world;
      this.disk, codexCalls, rounds, saved := disk, 0, 0, [];
    }

    /** Since a moment with the given history, exactly `run` has happened. */
    ghost predicate Since(saved0: seq<ExecutionState>, calls0: nat, disk0: StateFile, run: Run)
      reads this
    {
      && saved == saved0 + run.saved
      && codexCalls == calls0 + run.calls
      && disk == if persistState && run.saved != [] then Saved(run.saved[|run.saved| - 1]) else disk0
    }

    lemma SinceNothing(saved0: seq<ExecutionState>, calls0: nat, disk0: StateFile, run: Run)
      requires saved == saved0 && codexCalls == calls0 && disk == disk0 && run.saved == [] && run.calls == 0
      ensures Since(saved0, calls0, disk0, run)
    {
      assert saved0 + [] == saved0;
    }

    lemma SinceSave(saved0: seq<ExecutionState>, calls0: nat, disk0: StateFile, state: ExecutionState, run: Run)
      requires Since(saved0 + [state], calls0, if persistState then Saved(state) else disk0, run)
      ensures Since(saved0, calls0, disk0, run.AfterSaving(state))
    {
      assert saved0 + [state] + run.saved == saved0 + ([state] + run.saved);
    }

    /** `persist`, called only when states are persisted; `saved` records it either way. */
    method Save(state: ExecutionState)
      modifies this`disk, this`saved
      ensures saved == old(saved) + [state]
      ensures disk == if persistState then Saved(state) else old(disk)
    {
      if persistState {
        disk := Saved(state);
      }
      saved := saved + [state];
    }

    method Implement(task: SpecTask, start: ExecutionState) returns (r: Result<CycleResult, AgentError>)
      modifies this`disk, this`saved, this`codexCalls
      ensures var run := Cycle.Implement(spec, task, start, world, old(codexCalls));
              r == run.result && Since(old(saved), old(codexCalls), old(disk), run)
      decreases RemainingRepairs(spec.repairAttemptLimit, start.repairAttempts), 2
    {
      ghost var run := Cycle.Implement(spec, task, start, world, codexCalls);
      var attempt := world.attempt(codexCalls);
      if attempt.before.Irregular? {
        SinceNothing(saved, codexCalls, disk, run);
        return TamperedResult(task, start).result;
      }
      codexCalls := codexCalls + 1;
      assert old(saved) + [] == old(saved);
      if attempt.before != attempt.afterCodex {
        return TamperedResult(task, start).result;
      }
      match attempt.codex {
        case Raised(category, name) =>
          return Err(AgentError(category, Other(name)));
        case Exited(_) =>
          r := AfterCodex(task, start);
      }
    }

    method AfterCodex(task: SpecTask, start: ExecutionState) returns (r: Result<CycleResult, AgentError>)
      requires codexCalls > 0
      modifies this`disk, this`saved, this`codexCalls
      ensures var run := Cycle.AfterCodex(spec, task, start, world, old(codexCalls) - 1);
              r == run.result && Since(old(saved), old(codexCalls), old(disk), run)
      decreases RemainingRepairs(spec.repairAttemptLimit, start.repairAttempts), 1
    {
      hide Cycle.ValidateAndMaybeRepair, Conclude, ClassifyOutput, AllowedFrom;
      ghost var run := Cycle.AfterCodex(spec, task, start, world, codexCalls - 1);
      var attempt := world.attempt(codexCalls - 1);
      var mine := Changes(currentTask := Some(task.id));
      if attempt.before != attempt.atScope {
        SinceNothing(saved, codexCalls, disk, run);
        return TamperedResult(task, start).result;
      }
      if !attempt.scopeAllowed {
        r := Finish(start, SCOPE_VIOLATION, mine.(lastResult := Some(false)), CycleScopeViolation, Some(task.id),
            Some(NeedsEscalation));
        return;
      }
      if attempt.codex.Exited? && attempt.codex.exitCode != 0 && !attempt.changed {
        var cause := ClassifyOutput(attempt.codexOutput, false, Some(attempt.codex.exitCode));
        r := Finish(start, FailureStatus(cause), mine.(lastResult := Some(false)), FailureOutcome(cause),
            Some(task.id), Some(cause));
        return;
      }
      var next := ApplyTransition(start, VALIDATING, mine);
      if next.Err? {
        SinceNothing(saved, codexCalls, disk, run);
        return Err(next.error);
      }
      Save(next.value);
      r := ValidateAndMaybeRepair(task, next.value);
      SinceSave(old(saved), old(codexCalls), old(disk), next.value,
                Cycle.ValidateAndMaybeRepair(spec, task, next.value, world, old(codexCalls) - 1));
    }

    method ValidateAndMaybeRepair(task: SpecTask, start: ExecutionState) returns (r: Result<CycleResult, AgentError>)
      requires codexCalls > 0
      modifies this`disk, this`saved, this`codexCalls
      ensures var run := Cycle.ValidateAndMaybeRepair(spec, task, start, world, old(codexCalls) - 1);
              r == run.result && Since(old(saved), old(codexCalls), old(disk), run)
      decreases RemainingRepairs(spec.repairAttemptLimit, start.repairAttempts), 0
    {
      hide Cycle.Implement, Conclude, Records, ClassifyOutput, AllowedFrom;
      ghost var run := Cycle.ValidateAndMaybeRepair(spec, task, start, world, codexCalls - 1);
      var checked := RunValidationText(world.attempt(codexCalls - 1).checks);
      if checked.Err? {
        SinceNothing(saved, codexCalls, disk, run);
        return Err(checked.error);
      }
      var records := checked.value;
      var failed := FirstFailed(records);
      if failed.None? {
        var completed := start.completedTasks;
        if task.id !in completed {
          completed := completed + [task.id];
        }
        r := Finish(start, TASK_COMPLETED,
                    Changes(Some(task.id), Some(completed), None, Some(records[|records| - 1].command), Some(true)),
                    TaskCompleted, Some(task.id), None);
        return;
      }
      var seen := Changes(currentTask := Some(task.id), lastValidation := Some(failed.value.command),
          lastResult := Some(false));
      var cause := ClassifyValidation(failed.value).value;
      if cause == EnvFailure {
        r := Finish(start, FAILED, seen, CycleFailed, Some(task.id), Some(cause));
        return;
      }
      if cause == NeedsEscalation {
        r := Finish(start, ESCALATED, seen, CycleEscalated, Some(task.id), Some(cause));
        return;
      }
      if !CanAttemptRepair(spec.repairAttemptLimit, start.repairAttempts) {
        r := Finish(start, ESCALATED, seen, CycleEscalated, Some(task.id), Some(cause), LimitReached,
            Some(RepairAttemptLimit));
        return;
      }
      var next := ApplyTransition(start, IMPLEMENTING, seen.(repairAttempts := Some(start.repairAttempts + 1)));
      if next.Err? {
        SinceNothing(saved, codexCalls, disk, run);
        return Err(next.error);
      }
      Save(next.value);
      r := Implement(task, next.value);
      SinceSave(old(saved), old(codexCalls), old(disk), next.value,
                Cycle.Implement(spec, task, next.value, world, old(codexCalls)));
    }

    /** Transition, save, report. */
    method Finish(start: ExecutionState, target: ExecutionStatus, with: Changes, outcome: CycleOutcome,
                  taskId: Option<string>, failureClass: Option<FailureClass>,
                  message: Message := OtherMessage, code: Option<ResultCode> := None)
      returns (r: Result<CycleResult, AgentError>)
      modifies this`disk, this`saved
      ensures var run := Conclude(start, target, with, outcome, taskId, failureClass, message, code);
              r == run.result && Since(old(saved), old(codexCalls), old(disk), run)
    {
      ghost var run := Conclude(start, target, with, outcome, taskId, failureClass, message, code);
      var next := ApplyTransition(start, target, with);
      if next.Err? {
        SinceNothing(saved, codexCalls, disk, run);
        return Err(next.error);
      }
      Save(next.value);
      r := Build(CycleResult(outcome, taskId, next.value, failureClass, next.value.repairAttempts, message, code));
    }

    method FinalVerifyIfReady(start: ExecutionState, checks: seq<CommandRun>)
      returns (r: Result<CycleResult, AgentError>)
      modifies this`disk, this`saved
      ensures var run := FinalVerify(start, checks);
              r == run.result && Since(old(saved), old(codexCalls), old(disk), run)
    {
      ghost var run := FinalVerify(start, checks);
      var current := start;
      if current.status == TASK_COMPLETED {
        current := current.(status := FINAL_VALIDATING);
        Save(current);
      }
      assert old(saved) + [] == old(saved);
      if current.status != FINAL_VALIDATING {
        return Err(ILLEGAL_TRANSITION);
      }
      var checked := RunValidationText(checks);
      if checked.Err? {
        return Err(checked.error);
      }
      var failed := FirstFailed(checked.value);
      if failed.None? {
        Save(current);
        assert saved == old(saved) + run.saved;
        return Build(CycleResult(FinalVerificationPassed, None, current, None, current.repairAttempts, OtherMessage,
            None));
      }
      var cause := ClassifyValidation(failed.value).value;
      r := Finish(current, FailureStatus(cause),
                  Changes(lastValidation := Some(failed.value.command), lastResult := Some(false)),
                  FailureOutcome(cause), None, Some(cause));
      assert saved == old(saved) + run.saved;
    }

    method RunTaskCycle(start: ExecutionState) returns (r: Result<CycleResult, AgentError>)
      requires spec.tasks != []
      modifies this
      ensures rounds == old(rounds) + 1
      ensures var run := Cycle.RunTaskCycle(spec, requireClean, start, world, old(rounds), old(codexCalls));
              r == run.result && Since(old(saved), old(codexCalls), old(disk), run)
    {
      ghost var run := Cycle.RunTaskCycle(spec, requireClean, start, world, rounds, codexCalls);
      var round := world.round(rounds);
      rounds := rounds + 1;
      assert old(saved) + [] == old(saved);
      var selected := SelectNextTask(spec, start);
      if selected.Err? {
        return Err(selected.error);
      }
      if round.stateFile.Irregular? {
        return TamperedResult(if selected.value.Some? then selected.value.value else spec.tasks[0], start).result;
      }
      if selected.value.None? {
        r := FinalVerifyIfReady(start, round.finalChecks);
        return;
      }
      var task := selected.value.value;
      if requireClean && start.completedTasks == [] && round.dirty {
        return Err(AgentError(PolicyViolation, DirtyWorktree));
      }
      var next := EnterImplementing(start, task);
      if next.Err? {
        return Err(next.error);
      }
      Save(next.value);
      r := Implement(task, next.value);
      SinceSave(old(saved), old(codexCalls), old(disk), next.value,
                Cycle.Implement(spec, task, next.value, world, old(codexCalls)));
    }

    /** The bounded loop of `run_work_unit`. */
    method RunWorkUnit(start: ExecutionState) returns (r: Result<CycleResult, AgentError>)
      requires spec.tasks != [] && rounds == 0 && codexCalls == 0 && saved == []
      modifies this
      ensures var run := RunAll(spec, requireClean, start, world);
              r == run.result && Since([], 0, old(disk), run)
    {
      hide Cycle.RunTaskCycle, Rounds;
      var current := start;
      var limit := |spec.tasks| + 2;
      ghost var so := Stop(LOOP_BOUND_EXCEEDED);
      ThenStart(Rounds(spec, requireClean, start, world, 0, 0, limit));
      for i := 0 to limit
        invariant rounds == i
        invariant Since([], 0, old(disk), so)
        invariant RunAll(spec, requireClean, start, world) ==
                    Then(so, Rounds(spec, requireClean, current, world, i, so.calls, limit - i))
      {
        ghost var step := Cycle.RunTaskCycle(spec, requireClean, current, world, i, so.calls);
        RoundsUnfold(spec, requireClean, current, world, i, so.calls, limit - i);
        var last := RunTaskCycle(current);
        SinceThen(old(disk), so, step);
        if last.Err? || last.value.outcome != TaskCompleted {
          return last;
        }
        ThenAssociates(so, step, Rounds(spec, requireClean, last.value.state, world, i + 1,
                                       so.calls + step.calls, limit - i - 1));
        current := last.value.state;
        so := Then(so, step);
      }
      RoundsEnd(spec, requireClean, current, world, limit, so.calls);
      ThenStop(so);
      r := Err(LOOP_BOUND_EXCEEDED);
    }

    lemma SinceThen(disk0: StateFile, so: Run, step: Run)
      requires saved == so.saved + step.saved && codexCalls == so.calls + step.calls
      requires disk == if persistState && step.saved != [] then Saved(step.saved[|step.saved| - 1])
                       else if persistState && so.saved != [] then Saved(so.saved[|so.saved| - 1]) else disk0
      ensures Since([], 0, disk0, Then(so, step))
    {
      assert [] + (so.saved + step.saved) == so.saved + step.saved;
    }
  }

  lemma ThenAssociates(a: Run, b: Run, c: Run)
    ensures Then(a, Then(b, c)) == Then(Then(a, b), c)
  {
    assert a.saved + (b.saved + c.saved) == a.saved + b.saved + c.saved;
  }

  lemma ThenStart(a: Run)
    ensures Then(Stop(LOOP_BOUND_EXCEEDED), a) == a
  {
    assert [] + a.saved == a.saved;
  }

  lemma RoundsEnd(spec: TaskSpec, requireClean: bool, st: ExecutionState, w: World, c: nat, k: nat)
    requires spec.tasks != []
    ensures Rounds(spec, requireClean, st, w, c, k, 0) == Stop(LOOP_BOUND_EXCEEDED)
  {
  }

  lemma ThenStop(a: Run)
    ensures Then(a, Stop(LOOP_BOUND_EXCEEDED)) == Run(Err(LOOP_BOUND_EXCEEDED), a.saved, a.calls)
  {
    assert a.saved + [] == a.saved;
  }
}
