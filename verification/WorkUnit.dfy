/** Preparing a work unit and running all its tasks (agent/reconcile.py, agent/workunit.py). */
module WorkUnit {
  import opened Prelude
  import opened TaskGraph
  import opened Spec
  import opened State
  import opened Select
  import opened Validation
  import opened Cycle

  /** The state file as `prepare_execution_state` finds it. */
  datatype StateFile = NoFile | IrregularFile | UnreadableFile | Saved(state: ExecutionState)

  datatype Action = Continue | Retry | Block
  datatype Prepared = Prepared(action: Action, state: ExecutionState)

  /** `_recover_in_flight` */
  function RecoverInFlight(st: ExecutionState): ExecutionState {
    if st.status == FINAL_VALIDATING then st
    else if st.completedTasks != [] then st.(status := TASK_COMPLETED)
    else st.(status := PENDING, currentTask := None, repairAttempts := 0)
  }

  /** `_prepare_persisted_state` */
  function PreparePersisted(spec: TaskSpec, st: ExecutionState): Result<Prepared, AgentError> {
    if st.taskId != spec.id then Err(AgentError(EscalationRequired, UnsafeReconcile))
    else if st.branch != spec.targetBranch then Err(AgentError(EscalationRequired, StateBranchMismatch))
    else match st.status
      case ESCALATED | SCOPE_VIOLATION | INVALID_SPEC | COMPLETED => Ok(Prepared(Block, st))
      case PR_CREATED => Ok(Prepared(Continue, NewExecutionState(spec)))
      case FAILED =>
        var running :- ApplyTransition(st, RUNNING, Changes());
        Ok(Prepared(Retry, running))
      case RUNNING | IMPLEMENTING | VALIDATING | FINAL_VALIDATING => Ok(Prepared(Continue, RecoverInFlight(st)))
      case PENDING | TASK_COMPLETED | IN_REVIEW | READY_FOR_HUMAN => Ok(Prepared(Continue, st))
  }

  /** `prepare_execution_state`; with `persist` every success is also written to the state file. */
  function PrepareState(spec: TaskSpec, persist: bool, file: StateFile): Result<Prepared, AgentError> {
    if !persist then Ok(Prepared(Continue, NewExecutionState(spec)))
    else match file
      case IrregularFile => Err(AgentError(PolicyViolation, StateTampered))
      case UnreadableFile => Err(AgentError(InvalidInput, Other("")))
      case NoFile => Ok(Prepared(Continue, NewExecutionState(spec)))
      case Saved(st) => PreparePersisted(spec, st)
  }

  const LOOP_BOUND_EXCEEDED := AgentError(EscalationRequired, UnsafeReconcile)

  /** Two runs one after the other, the second from where the first ended. */
  function Then(first: Run, second: Run): Run {
    Run(second.result, first.saved + second.saved, first.calls + second.calls)
  }

  /** The rounds of `run_work_unit` from round `c` on: `bound` of them may still be started. */
  function Rounds(spec: TaskSpec, requireClean: bool, st: ExecutionState, w: World, c: nat, k: nat, bound: nat): Run
    requires spec.tasks != []
    decreases bound
  {
    if bound == 0 then Stop(LOOP_BOUND_EXCEEDED)
    else
      var run := RunTaskCycle(spec, requireClean, st, w, c, k);
      if run.result.Ok? && run.result.value.outcome == TaskCompleted then
        Then(run, Rounds(spec, requireClean, run.result.value.state, w, c + 1, k + run.calls, bound - 1))
      else run
  }

  lemma RoundsUnfold(spec: TaskSpec, requireClean: bool, st: ExecutionState, w: World, c: nat, k: nat, bound: nat)
    requires spec.tasks != [] && bound > 0
    ensures var run := RunTaskCycle(spec, requireClean, st, w, c, k);
            Rounds(spec, requireClean, st, w, c, k, bound) ==
              if run.result.Ok? && run.result.value.outcome == TaskCompleted then
                Then(run, Rounds(spec, requireClean, run.result.value.state, w, c + 1, k + run.calls, bound - 1))
              else run
  {
    hide RunTaskCycle;
  }

  /** The loop of `run_work_unit`: at most `len(tasks) + 2` rounds. */
  function RunAll(spec: TaskSpec, requireClean: bool, st: ExecutionState, w: World): Run
    requires spec.tasks != []
  {
    Rounds(spec, requireClean, st, w, 0, 0, |spec.tasks| + 2)
  }
}
