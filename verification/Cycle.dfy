/** One task cycle: Codex, scope, validation, bounded repair (agent/cycle.py).
    Everything the environment decides is an answer of a `World`, so a statement for every world is
    a statement for every behaviour of Codex, Git, the validation commands and the file system. */
module Cycle {
  import opened Prelude
  import opened TaskGraph
  import opened Spec
  import opened State
  import opened Select
  import opened Validation

  /** agent/state.py, `fingerprint_state_file`. */
  datatype Fingerprint = Absent | RegularFile(digest: int) | Irregular(target: int)

  datatype CodexRun = Raised(category: ErrorCategory, name: string) | Exited(exitCode: int)

  /** Everything observed around one Codex invocation. */
  datatype Attempt = Attempt(
    before: Fingerprint,        // taken before Codex starts
    codex: CodexRun,
    afterCodex: Fingerprint,    // taken as soon as Codex returns or raises
    atScope: Fingerprint,       // taken again before the scope check
    scopeAllowed: bool,
    changed: bool,              // some path in scope was changed
    codexOutput: OutputText,
    checks: seq<CommandRun>)    // what the task's validation commands would do

  /** Everything else observed by one call of `run_task_cycle`. */
  datatype Round = Round(stateFile: Fingerprint, dirty: bool, finalChecks: seq<CommandRun>)

  datatype World = World(attempt: nat -> Attempt, round: nat -> Round)

  datatype CycleOutcome =
    TaskCompleted | FinalVerificationPassed | CycleFailed | CycleEscalated | CycleScopeViolation

  datatype Message = LimitReached | OtherMessage
  datatype ResultCode = RepairAttemptLimit | Tampered

  datatype CycleResult = CycleResult(
    outcome: CycleOutcome,
    taskId: Option<string>,
    state: ExecutionState,
    failureClass: Option<FailureClass>,
    repairAttempts: nat,
    message: Message,
    code: Option<ResultCode>)

  /** `validate_cycle_result` */
  predicate ValidCycleResult(r: CycleResult) {
    match r.outcome
    case TaskCompleted | FinalVerificationPassed => r.failureClass.None? && r.code.None?
    case CycleFailed => r.failureClass == Some(EnvFailure)
    case CycleEscalated =>
      && (r.failureClass == Some(AgentRepairable) || r.failureClass == Some(NeedsEscalation))
      && (r.failureClass == Some(AgentRepairable) && r.message == LimitReached ==> r.code == Some(RepairAttemptLimit))
    case CycleScopeViolation => r.failureClass == Some(NeedsEscalation)
  }

  /** What a piece of the cycle did: its result, the states it saved, the Codex calls it made. */
  datatype Run = Run(result: Result<CycleResult, AgentError>, saved: seq<ExecutionState>, calls: nat) {
    function AfterSaving(state: ExecutionState): Run { this.(saved := [state] + saved) }
    function AfterCall(): Run { this.(calls := calls + 1) }
  }

  function Stop(error: AgentError): Run { Run(Err(error), [], 0) }

  /** A `CycleResult` checks itself when it is built. */
  function Build(r: CycleResult): Result<CycleResult, AgentError> {
    if ValidCycleResult(r) then Ok(r) else Err(AgentError(InvalidInput, InvalidCycleResult))
  }

  /** Transition, save, report: how every branch of the cycle ends. */
  function Conclude(st: ExecutionState, target: ExecutionStatus, with: Changes, outcome: CycleOutcome,
                    taskId: Option<string>, failureClass: Option<FailureClass>,
                    message: Message := OtherMessage, code: Option<ResultCode> := None): Run
  {
    match ApplyTransition(st, target, with)
    case Err(e) => Stop(e)
    case Ok(next) =>
      Run(Build(CycleResult(outcome, taskId, next, failureClass, next.repairAttempts, message, code)), [next], 0)
  }

  function FailureStatus(c: FailureClass): ExecutionStatus {
    if c == EnvFailure then FAILED else ESCALATED
  }

  function FailureOutcome(c: FailureClass): CycleOutcome {
    if c == EnvFailure then CycleFailed else CycleEscalated
  }

  /** `_state_tampered_result`: an illegal transition is swallowed here, and nothing is saved. */
  function TamperedResult(task: SpecTask, st: ExecutionState): Run {
    var next := ApplyTransition(st, SCOPE_VIOLATION, Changes(currentTask := Some(task.id), lastResult := Some(false)));
    var state := if next.Ok? then next.value else st;
    Run(Build(CycleResult(CycleScopeViolation, Some(task.id), state, Some(NeedsEscalation),
                          state.repairAttempts, OtherMessage, Some(Tampered))), [], 0)
  }

  /** agent/repair.py */
  function RemainingRepairs(limit: nat, used: nat): nat { if used <= limit then limit - used else 0 }
  predicate CanAttemptRepair(limit: nat, used: nat) { RemainingRepairs(limit, used) > 0 }

  /** `_enter_implementing` */
  function EnterImplementing(st: ExecutionState, task: SpecTask): Result<ExecutionState, AgentError> {
    var mine := Changes(currentTask := Some(task.id));
    match st.status
    case PENDING =>
      var running :- ApplyTransition(st, RUNNING, mine);
      ApplyTransition(running, IMPLEMENTING, Changes())
    case RUNNING | TASK_COMPLETED | VALIDATING => ApplyTransition(st, IMPLEMENTING, mine)
    case IMPLEMENTING => Ok(st)
    case _ => Err(ILLEGAL_TRANSITION)
  }

  /** Preflight fingerprint, Codex, fingerprint again, then `_after_codex`.  `k` numbers the Codex
      invocations of the whole work unit. */
  function Implement(spec: TaskSpec, task: SpecTask, st: ExecutionState, w: World, k: nat): Run
    decreases RemainingRepairs(spec.repairAttemptLimit, st.repairAttempts), 2
  {
    var a := w.attempt(k);
    if a.before.Irregular? then TamperedResult(task, st)
    else if a.before != a.afterCodex then TamperedResult(task, st).AfterCall()
    else match a.codex
      case Raised(category, name) => Stop(AgentError(category, Other(name))).AfterCall()
      case Exited(_) => AfterCodex(spec, task, st, w, k).AfterCall()
  }

  /** `_after_codex` */
  function AfterCodex(spec: TaskSpec, task: SpecTask, st: ExecutionState, w: World, k: nat): Run
    decreases RemainingRepairs(spec.repairAttemptLimit, st.repairAttempts), 1
  {
    var a := w.attempt(k);
    var mine := Changes(currentTask := Some(task.id));
    if a.before != a.atScope then TamperedResult(task, st)
    else if !a.scopeAllowed then
      Conclude(st, SCOPE_VIOLATION, mine.(lastResult := Some(false)), CycleScopeViolation, Some(task.id),
          Some(NeedsEscalation))
    else if a.codex.Exited? && a.codex.exitCode != 0 && !a.changed then
      var c := ClassifyOutput(a.codexOutput, false, Some(a.codex.exitCode));
      Conclude(st, FailureStatus(c), mine.(lastResult := Some(false)), FailureOutcome(c), Some(task.id), Some(c))
    else match ApplyTransition(st, VALIDATING, mine)
      case Err(e) => Stop(e)
      case Ok(next) => ValidateAndMaybeRepair(spec, task, next, w, k).AfterSaving(next)
  }

  /** `_validate_and_maybe_repair` */
  function ValidateAndMaybeRepair(spec: TaskSpec, task: SpecTask, st: ExecutionState, w: World, k: nat): Run
    decreases RemainingRepairs(spec.repairAttemptLimit, st.repairAttempts), 0
  {
    match RunValidation(w.attempt(k).checks)
    case Err(e) => Stop(e)
    case Ok(records) =>
      var failed := FirstFailed(records);
      if failed.None? then
        var completed := if task.id in st.completedTasks then st.completedTasks else st.completedTasks + [task.id];
        Conclude(st, TASK_COMPLETED,
                 Changes(Some(task.id), Some(completed), None, Some(records[|records| - 1].command), Some(true)),
                 TaskCompleted, Some(task.id), None)
      else
        var seen := Changes(currentTask := Some(task.id), lastValidation := Some(failed.value.command),
            lastResult := Some(false));
        match ClassifyValidation(failed.value).value
        case EnvFailure => Conclude(st, FAILED, seen, CycleFailed, Some(task.id), Some(EnvFailure))
        case NeedsEscalation => Conclude(st, ESCALATED, seen, CycleEscalated, Some(task.id), Some(NeedsEscalation))
        case AgentRepairable =>
          if !CanAttemptRepair(spec.repairAttemptLimit, st.repairAttempts) then
            Conclude(st, ESCALATED, seen, CycleEscalated, Some(task.id), Some(AgentRepairable), LimitReached,
                Some(RepairAttemptLimit))
          else match ApplyTransition(st, IMPLEMENTING, seen.(repairAttempts := Some(st.repairAttempts + 1)))
            case Err(e) => Stop(e)
            case Ok(next) => Implement(spec, task, next, w, k + 1).AfterSaving(next)
  }

  /** `_final_verify_if_ready` */
  function FinalVerify(st: ExecutionState, checks: seq<CommandRun>): Run {
    match if st.status == TASK_COMPLETED then ApplyTransition(st, FINAL_VALIDATING, Changes()) else Ok(st)
    case Err(e) => Stop(e)
    case Ok(current) =>
      var entered := if st.status == TASK_COMPLETED then [current] else [];
      if current.status != FINAL_VALIDATING then Stop(ILLEGAL_TRANSITION)
      else match RunValidation(checks)
        case Err(e) => Run(Err(e), entered, 0)
        case Ok(records) =>
          var failed := FirstFailed(records);
          if failed.None? then
            Run(Build(CycleResult(FinalVerificationPassed, None, current, None, current.repairAttempts, OtherMessage,
                None)), entered + [current], 0)
          else
            var c := ClassifyValidation(failed.value).value;
            var end := Conclude(current, FailureStatus(c),
                                Changes(lastValidation := Some(failed.value.command), lastResult := Some(false)),
                                FailureOutcome(c), None, Some(c));
            end.(saved := entered + end.saved)
  }

  /** `run_task_cycle` for a state handed in by the caller: the `c`-th round, with `k` Codex
      invocations made before it. */
  function RunTaskCycle(spec: TaskSpec, requireClean: bool, st: ExecutionState, w: World, c: nat, k: nat): Run
    requires spec.tasks != []
  {
    var selected := NextTask(spec.tasks, st.completedTasks, st.currentTask);
    if w.round(c).stateFile.Irregular? then
      match selected
      case Err(e) => Stop(e)
      case Ok(task) => TamperedResult(if task.Some? then task.value else spec.tasks[0], st)
    else
      match selected
      case Err(e) => Stop(e)
      case Ok(None) => FinalVerify(st, w.round(c).finalChecks)
      case Ok(Some(task)) =>
        if requireClean && st.completedTasks == [] &&
            w.round(c).dirty then Stop(AgentError(PolicyViolation, DirtyWorktree))
        else match EnterImplementing(st, task)
          case Err(e) => Stop(e)
          case Ok(next) => Implement(spec, task, next, w, k).AfterSaving(next)
  }
}
