/** The execution state and its table of legal transitions (agent/state.py). */
module State {
  import opened Prelude
  import opened Spec

  datatype ExecutionStatus =
    | PENDING | RUNNING | IMPLEMENTING | VALIDATING | TASK_COMPLETED | FINAL_VALIDATING
    | PR_CREATED | IN_REVIEW | READY_FOR_HUMAN | COMPLETED
    | INVALID_SPEC | SCOPE_VIOLATION | FAILED | ESCALATED

  datatype ExecutionState = ExecutionState(
    taskId: string,
    status: ExecutionStatus,
    currentTask: Option<string>,
    completedTasks: seq<string>,
    repairAttempts: nat,
    lastValidation: Option<string>,
    lastResult: Option<bool>,       // PASSED is true, FAILED is false
    branch: string)

  /** ALLOWED_TRANSITIONS */
  function AllowedFrom(status: ExecutionStatus): set<ExecutionStatus> {
    match status
    case PENDING => {RUNNING, INVALID_SPEC}
    case RUNNING => {IMPLEMENTING, INVALID_SPEC, FAILED, ESCALATED}
    case IMPLEMENTING => {VALIDATING, SCOPE_VIOLATION, FAILED, ESCALATED}
    case VALIDATING => {TASK_COMPLETED, IMPLEMENTING, SCOPE_VIOLATION, FAILED, ESCALATED}
    case TASK_COMPLETED => {IMPLEMENTING, FINAL_VALIDATING, FAILED, ESCALATED}
    case FINAL_VALIDATING => {PR_CREATED, FAILED, ESCALATED}
    case PR_CREATED => {IN_REVIEW, FAILED, ESCALATED}
    case IN_REVIEW => {READY_FOR_HUMAN, IMPLEMENTING, FAILED, ESCALATED}
    case READY_FOR_HUMAN => {COMPLETED}
    case FAILED => {RUNNING}
    case COMPLETED | INVALID_SPEC | SCOPE_VIOLATION | ESCALATED => {}
  }

  /** The optional keyword arguments of `apply_transition`; None leaves the field alone. */
  datatype Changes = Changes(
    currentTask: Option<string> := None,
    completedTasks: Option<seq<string>> := None,
    repairAttempts: Option<nat> := None,
    lastValidation: Option<string> := None,
    lastResult: Option<bool> := None)

  const ILLEGAL_TRANSITION := AgentError(PolicyViolation, InvalidTransition)

  /** `apply_transition` */
  function ApplyTransition(current: ExecutionState, target: ExecutionStatus, with: Changes)
    : Result<ExecutionState, AgentError>
  {
    if target !in AllowedFrom(current.status) then
      Err(ILLEGAL_TRANSITION)
    else
      Ok(current.(status := target,
                  currentTask := if with.currentTask.Some? then with.currentTask else current.currentTask,
                  completedTasks := if with.completedTasks.Some? then
                      with.completedTasks.value else current.completedTasks,
                  repairAttempts := if with.repairAttempts.Some? then
                      with.repairAttempts.value else current.repairAttempts,
                  lastValidation := if with.lastValidation.Some? then with.lastValidation else current.lastValidation,
                  lastResult := if with.lastResult.Some? then with.lastResult else current.lastResult))
  }

  /** `new_execution_state` */
  function NewExecutionState(spec: TaskSpec): ExecutionState {
    ExecutionState(spec.id, PENDING, None, [], 0, None, None, spec.targetBranch)
  }
}
