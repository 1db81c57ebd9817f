/** Work unit reports and delivery results (agent/workunit.py, agent/delivery.py). */
module Reports {
  import opened Prelude
  import opened TaskGraph
  import opened Spec
  import opened State
  import opened Cycle
  import opened WorkUnit

  datatype UnitOutcome = UnitPassed | UnitFailed | UnitEscalated | UnitScopeViolation | UnitInvalidSpec | UnitCompleted

  /** What of a `WorkUnitReport` its validation looks at; a code of None is a missing one. */
  datatype Report = Report(
    outcome: UnitOutcome,
    branch: string,
    state: ExecutionState,
    completedTasks: seq<string>,
    repairAttempts: nat,
    finalVerificationPassed: bool,
    validationPassed: bool,
    scopeAllowed: bool,
    failureClass: Option<FailureClass>,
    code: Option<ErrorCode>)

  const NO_CODE := ErrorCode.Other("")

  /** `derived_compat_booleans` */
  function DerivedBooleans(outcome: UnitOutcome): (bool, bool, bool) {
    if outcome == UnitPassed then (true, true, true)
    else if outcome == UnitScopeViolation then (false, false, false)
    else (false, false, true)
  }

  /** The failure class each outcome demands; the reconcile outcomes take any. */
  predicate ClassFits(outcome: UnitOutcome, failureClass: Option<FailureClass>, code: Option<ErrorCode>) {
    match outcome
    case UnitInvalidSpec | UnitCompleted => true
    case UnitPassed => failureClass == None && code == None
    case UnitFailed => failureClass == Some(EnvFailure)
    case UnitEscalated => failureClass == Some(AgentRepairable) || failureClass == Some(NeedsEscalation)
    case UnitScopeViolation => failureClass == Some(NeedsEscalation)
  }

  /** The part of validation that needs the spec. */
  predicate TasksFit(r: Report, spec: TaskSpec) {
    && (forall x :: x in r.completedTasks ==> x in Ids(spec.tasks))
    && (r.outcome == UnitPassed ==> forall x :: x in Ids(spec.tasks) ==> x in r.completedTasks)
  }

  /** `validate_work_unit_report` */
  predicate ValidReport(r: Report, spec: Option<TaskSpec>) {
    && r.code != Some(NO_CODE)
    && (r.finalVerificationPassed, r.validationPassed, r.scopeAllowed) == DerivedBooleans(r.outcome)
    && r.completedTasks == r.state.completedTasks && r.repairAttempts == r.state.repairAttempts &&
        r.branch == r.state.branch
    && Distinct(r.completedTasks)
    && (spec.Some? ==> TasksFit(r, spec.value))
    && ClassFits(r.outcome, r.failureClass, r.code)
  }

  /** `_build_work_unit_report`: the report checks itself, and then again against the spec's tasks. */
  function BuildReport(spec: TaskSpec, outcome: UnitOutcome, branch: string, st: ExecutionState,
                       failureClass: Option<FailureClass>, code: Option<ErrorCode>, checkTasks: bool)
    : Result<Report, AgentError>
  {
    var derived := DerivedBooleans(outcome);
    var r := Report(outcome, branch, st, st.completedTasks, st.repairAttempts, derived.0, derived.1, derived.2,
        failureClass, code);
    if ValidReport(r, if checkTasks then Some(spec) else None) then Ok(r)
    else Err(AgentError(InvalidInput, InvalidWorkUnitReport))
  }

  /** `work_unit_outcome_from_cycle` */
  function OutcomeOf(outcome: CycleOutcome): Option<UnitOutcome> {
    match outcome
    case FinalVerificationPassed => Some(UnitPassed)
    case CycleFailed => Some(UnitFailed)
    case CycleEscalated => Some(UnitEscalated)
    case CycleScopeViolation => Some(UnitScopeViolation)
    case TaskCompleted => None
  }

  function CodeOf(code: Option<ResultCode>): Option<ErrorCode> {
    match code
    case None => None
    case Some(RepairAttemptLimit) => Some(ErrorCode.Other("REPAIR_ATTEMPT_LIMIT"))
    case Some(Tampered) => Some(StateTampered)
  }

  function ErrorCodeOf(e: AgentError): Option<ErrorCode> {
    if e.code == NO_CODE then None else Some(e.code)
  }

  /** `report_from_cycle` */
  function ReportFromCycle(spec: TaskSpec, last: CycleResult): Result<Report, AgentError> {
    match OutcomeOf(last.outcome)
    case None => Err(AgentError(InternalFailure, UnsupportedCycleOutcome))
    case Some(outcome) => BuildReport(spec, outcome, spec.targetBranch, last.state, last.failureClass,
        CodeOf(last.code), true)
  }

  /** `report_from_reconcile`, for a state that blocks the run. */
  function ReportFromReconcile(spec: TaskSpec, st: ExecutionState): Result<Report, AgentError> {
    match st.status
    case ESCALATED => BuildReport(spec, UnitEscalated, spec.targetBranch, st, Some(NeedsEscalation), None, true)
    case SCOPE_VIOLATION => BuildReport(spec, UnitScopeViolation, spec.targetBranch, st, Some(NeedsEscalation), None,
        true)
    case INVALID_SPEC => BuildReport(spec, UnitInvalidSpec, spec.targetBranch, st, None, None, true)
    case COMPLETED => BuildReport(spec, UnitCompleted, spec.targetBranch, st, None, None, true)
    case FAILED => BuildReport(spec, UnitFailed, spec.targetBranch, st, Some(EnvFailure), None, true)
    case _ => Err(AgentError(InvalidInput, InvalidWorkUnitReport))
  }

  /** `report_from_preparation_error` */
  function ReportFromPreparationError(spec: TaskSpec, st: ExecutionState, e: AgentError): Result<Report, AgentError> {
    if e.code == StateTampered then
      BuildReport(spec, UnitScopeViolation, spec.targetBranch, st, Some(NeedsEscalation), Some(StateTampered), true)
    else if e.code == StateBranchMismatch || e.code == UnsafeReconcile then
      BuildReport(spec, UnitEscalated, st.branch, st, Some(NeedsEscalation), Some(e.code), false)
    else
      BuildReport(spec, UnitFailed, st.branch, st, Some(EnvFailure), ErrorCodeOf(e), false)
  }

  /** The state `run_work_unit` reports when preparation raised. */
  function StateAfterError(spec: TaskSpec, persist: bool, file: StateFile, e: AgentError): ExecutionState {
    if persist && e.code != StateTampered && file.Saved? then file.state else NewExecutionState(spec)
  }

  /** `run_work_unit`: the report it returns, or the error it raises. */
  function RunWorkUnit(spec: TaskSpec, persist: bool, file: StateFile, requireClean: bool, w: World)
    : Result<Report, AgentError>
    requires spec.tasks != []
  {
    match PrepareState(spec, persist, file)
    case Err(e) => ReportFromPreparationError(spec, StateAfterError(spec, persist, file, e), e)
    case Ok(Prepared(Block, st)) => ReportFromReconcile(spec, st)
    case Ok(Prepared(_, st)) =>
      var last :- RunAll(spec, requireClean, st, w).result;
      ReportFromCycle(spec, last)
  }

  datatype DeliveryOutcome = PullCreated | DeliveryFailed | DeliveryEscalated

  datatype DeliveryResult = DeliveryResult(outcome: DeliveryOutcome, failureClass: Option<FailureClass>,
      code: Option<ErrorCode>)

  /** `validate_delivery_result` */
  predicate ValidDelivery(d: DeliveryResult) {
    && d.code != Some(NO_CODE)
    && match d.outcome
       case PullCreated => d.failureClass == None
       case DeliveryFailed => d.failureClass == Some(EnvFailure)
       case DeliveryEscalated => d.failureClass == Some(NeedsEscalation)
  }

  function DeliveryOf(cause: FailureClass, code: Option<ErrorCode>): DeliveryResult {
    DeliveryResult(if cause == EnvFailure then DeliveryFailed else DeliveryEscalated, Some(cause), code)
  }

  /** `_report_failure` */
  function ReportFailure(r: Report): DeliveryResult {
    DeliveryOf(if r.outcome == UnitFailed ||
        r.failureClass == Some(EnvFailure) then EnvFailure else NeedsEscalation, r.code)
  }

  /** `_failure_result` for an error of the control plane. */
  function FailureResult(fault: Fault, code: Option<ErrorCode>): DeliveryResult {
    DeliveryOf(if fault == Unavailable then EnvFailure else NeedsEscalation, code)
  }
}
