/** Every report and every delivery result is valid, and FAILED means the same at each level. */
module ReportProofs {
  import opened Prelude
  import opened TaskGraph
  import opened Spec
  import opened State
  import opened Select
  import opened Cycle
  import opened CycleProofs
  import opened WorkUnit
  import opened WorkUnitProofs
  import opened RestartProofs
  import opened Reports

  const LIMIT_CODE := ErrorCode.Other("REPAIR_ATTEMPT_LIMIT")

  /** FAILED is exactly an environment failure. */
  predicate FailedIsOutage(r: Report) {
    r.outcome == UnitFailed <==> r.failureClass == Some(EnvFailure)
  }

  /** Two duplicate-free lists with the same elements are permutations of each other. */
  lemma {:induction false} DistinctPermutation(s: seq<string>, t: seq<string>)
    requires Distinct(s) && Distinct(t) && forall x :: x in s <==> x in t
    ensures multiset(s) == multiset(t)
  {
    forall x ensures multiset(s)[x] == multiset(t)[x] {
      DistinctCount(s, x);
      DistinctCount(t, x);
    }
  }

  lemma {:induction false} DistinctCount(s: seq<string>, x: string)
    requires Distinct(s)
    ensures multiset(s)[x] == if x in s then 1 else 0
    decreases |s|
  {
    if s != [] {
      var init, last := s[..|s| - 1], s[|s| - 1];
      assert s == init + [last];
      DistinctCount(init, x);
    }
  }

  /** Exactly when a report can be built: the branch is the state's, no completed task repeats, a code
      is not empty, checked tasks are known (and on success all completed), and the class is the one of
      the outcome. */
  lemma BuildExactly(spec: TaskSpec, outcome: UnitOutcome, branch: string, st: ExecutionState,
      failureClass: Option<FailureClass>, code: Option<ErrorCode>, checkTasks: bool)
    ensures BuildReport(spec, outcome, branch, st, failureClass, code, checkTasks).Ok? <==>
            && branch == st.branch && code != Some(ErrorCode.Other(""))
            && (forall i, j :: 0 <= i < j < |st.completedTasks| ==> st.completedTasks[i] != st.completedTasks[j])
            && (checkTasks ==> forall x :: x in st.completedTasks ==> x in Ids(spec.tasks))
            && (checkTasks && outcome == UnitPassed ==> AllDone(spec.tasks, st.completedTasks))
            && (outcome == UnitPassed ==> failureClass == None && code == None)
            && (outcome == UnitFailed ==> failureClass == Some(EnvFailure))
            && (outcome == UnitEscalated ==>
                  failureClass == Some(AgentRepairable) || failureClass == Some(NeedsEscalation))
            && (outcome == UnitScopeViolation ==> failureClass == Some(NeedsEscalation))
  {
  }

  /** A report of a cycle result that a sound run ends with. */
  lemma CycleReportValid(spec: TaskSpec, last: CycleResult)
    requires Wellformed(spec) && ValidCycleResult(last) && Safe(spec, last.state) && last.outcome != TaskCompleted
    requires last.outcome == FinalVerificationPassed ==> AllDone(spec.tasks, last.state.completedTasks)
    ensures ReportFromCycle(spec, last).Ok?
    ensures var r := ReportFromCycle(spec, last).value;
            && ValidReport(r, Some(spec)) && FailedIsOutage(r)
            && (r.outcome == UnitPassed <==> last.outcome == FinalVerificationPassed)
            && (r.outcome == UnitFailed <==> last.outcome == CycleFailed)
            && (r.outcome == UnitScopeViolation <==> last.outcome == CycleScopeViolation)
            && (r.outcome == UnitEscalated <==> last.outcome == CycleEscalated)
            && (r.finalVerificationPassed <==> last.outcome == FinalVerificationPassed)
            && (r.validationPassed <==> last.outcome == FinalVerificationPassed)
            && (r.scopeAllowed <==> last.outcome != CycleScopeViolation)
            && r.branch == spec.targetBranch && r.state == last.state && r.failureClass == last.failureClass
            && r.completedTasks == last.state.completedTasks && r.repairAttempts == last.state.repairAttempts
            && (r.code == None <==> last.code == None)
            && (r.code == Some(LIMIT_CODE) <==> last.code == Some(RepairAttemptLimit))
            && (r.code == Some(StateTampered) <==> last.code == Some(Tampered))
            && (r.outcome == UnitPassed ==> multiset(r.completedTasks) == multiset(Ids(spec.tasks)))
  {
    hide Topological, DependenciesFirst;
    if last.outcome == FinalVerificationPassed {
      DistinctPermutation(last.state.completedTasks, Ids(spec.tasks));
    }
  }

  /** What a report of `run_work_unit` guarantees to the delivery that reads it. */
  ghost predicate Trustworthy(spec: TaskSpec, r: Report) {
    && ValidReport(r, Some(spec)) && FailedIsOutage(r)
    && (r.outcome == UnitPassed ==> multiset(r.completedTasks) == multiset(Ids(spec.tasks)))
  }

  /** What a preparation that refuses or blocks is reported as. */
  lemma StoppedStartReported(spec: TaskSpec, persist: bool, file: StateFile, requireClean: bool, w: World)
    requires Wellformed(spec)
    requires PrepareState(spec, persist, file).Err? || PrepareState(spec, persist, file).value.action == Block
    ensures var stopped := PrepareState(spec, persist, file);
            var st := if stopped.Err? then StateAfterError(spec, persist, file, stopped.error) else stopped.value.state;
            var result := RunWorkUnit(spec, persist, file, requireClean, w);
            && (result.Ok? <==> Distinct(st.completedTasks)
                                && (stopped.Ok? ==> forall x :: x in st.completedTasks ==> x in Ids(spec.tasks)))
            && (result.Ok? ==> ValidReport(result.value, None) && FailedIsOutage(result.value)
                               && result.value.outcome != UnitPassed &&
                                   result.value.completedTasks == st.completedTasks)
            && (result.Err? ==> result.error == AgentError(InvalidInput, InvalidWorkUnitReport))
  {
    hide *;
    StoppedBranch(spec, persist, file, requireClean, w);
    var stopped := PrepareState(spec, persist, file);
    if stopped.Err? {
      RefusedReport(spec, StateAfterError(spec, persist, file, stopped.error), stopped.error);
    } else {
      BlockingReport(spec, stopped.value.state);
    }
  }

  lemma StoppedBranch(spec: TaskSpec, persist: bool, file: StateFile, requireClean: bool, w: World)
    requires Wellformed(spec)
    requires PrepareState(spec, persist, file).Err? || PrepareState(spec, persist, file).value.action == Block
    ensures spec.tasks != []
    ensures match PrepareState(spec, persist, file)
            case Err(e) =>
              var st := StateAfterError(spec, persist, file, e);
              && RunWorkUnit(spec, persist, file, requireClean, w) == ReportFromPreparationError(spec, st, e)
              && (e.code == StateTampered ==> st == NewExecutionState(spec))
            case Ok(Prepared(_, st)) =>
              && RunWorkUnit(spec, persist, file, requireClean, w) == ReportFromReconcile(spec, st)
              && st.status in {ESCALATED, SCOPE_VIOLATION, INVALID_SPEC, COMPLETED} && st.branch == spec.targetBranch
  {
    hide Accepted, RunAll, ReportFromPreparationError, ReportFromReconcile, RecoverInFlight;
  }

  lemma RefusedReport(spec: TaskSpec, st: ExecutionState, e: AgentError)
    requires e.code == StateTampered ==> st == NewExecutionState(spec)
    ensures var result := ReportFromPreparationError(spec, st, e);
            && (result.Ok? <==> Distinct(st.completedTasks))
            && (result.Ok? ==> ValidReport(result.value, None) && FailedIsOutage(result.value)
                               && result.value.outcome != UnitPassed &&
                                   result.value.completedTasks == st.completedTasks)
            && (result.Err? ==> result.error == AgentError(InvalidInput, InvalidWorkUnitReport))
  {
  }

  lemma BlockingReport(spec: TaskSpec, st: ExecutionState)
    requires st.status in {ESCALATED, SCOPE_VIOLATION, INVALID_SPEC, COMPLETED} && st.branch == spec.targetBranch
    ensures var result := ReportFromReconcile(spec, st);
            && (result.Ok? <==> Distinct(st.completedTasks) && forall x :: x in st.completedTasks ==>
                x in Ids(spec.tasks))
            && (result.Ok? ==> ValidReport(result.value, None) && FailedIsOutage(result.value)
                               && result.value.outcome != UnitPassed &&
                                   result.value.completedTasks == st.completedTasks)
            && (result.Err? ==> result.error == AgentError(InvalidInput, InvalidWorkUnitReport))
  {
  }

  /** Every start, fresh or on a state file this work unit wrote, ends in a valid report whose
      FAILED means an outage and whose success lists exactly the spec's tasks; or in an error that
      came from outside; or, on the retry of a final failure, in the refused transition. */
  lemma UnitReportsValid(spec: TaskSpec, persist: bool, file: StateFile, requireClean: bool, w: World)
    requires Wellformed(spec) && (persist ==> SafeFile(spec, file))
    ensures match RunWorkUnit(spec, persist, file, requireClean, w)
            case Ok(r) => Trustworthy(spec, r)
            case Err(e) =>
              || FromOutside(e)
              || (e == ILLEGAL_TRANSITION && persist && file.Saved? && DeadRetry(spec, file.state))
  {
    hide RunAll, Accepted, Safe, Trustworthy, AllDone;
    var prepared := PrepareState(spec, persist, file);
    if persist && file.Saved? {
      var st := file.state;
      PrepareKeeps(spec, st);
      if prepared.value.action == Block {
        BlockedReport(spec, st);
      } else if DeadRetry(spec, st) {
        DeadRetryReport(spec, requireClean, prepared.value.state, w);
      } else {
        StartReport(spec, requireClean, prepared.value.state, w);
      }
    } else {
      FreshIsStartable(spec);
      StartReport(spec, requireClean, prepared.value.state, w);
    }
  }

  lemma BlockedReport(spec: TaskSpec, st: ExecutionState)
    requires Safe(spec, st) && st.status in {ESCALATED, SCOPE_VIOLATION}
    ensures ReportFromReconcile(spec, st).Ok? && Trustworthy(spec, ReportFromReconcile(spec, st).value)
  {
    hide DependenciesFirst;
  }

  lemma StartReport(spec: TaskSpec, requireClean: bool, st: ExecutionState, w: World)
    requires Wellformed(spec) && Startable(spec, st)
    ensures match RunAll(spec, requireClean, st, w).result
            case Err(e) => FromOutside(e)
            case Ok(last) => ReportFromCycle(spec, last).Ok? && Trustworthy(spec, ReportFromCycle(spec, last).value)
  {
    RoundsStart(spec, requireClean, st, w);
    hide RunAll, Safe, Startable, Accepted, AllDone, Trail;
    var run := RunAll(spec, requireClean, st, w);
    if run.result.Ok? {
      CycleReportValid(spec, run.result.value);
    }
  }

  lemma DeadRetryReport(spec: TaskSpec, requireClean: bool, st: ExecutionState, w: World)
    requires Wellformed(spec) && Safe(spec, st) && AllDone(spec.tasks, st.completedTasks) && st.status == RUNNING
    ensures match RunAll(spec, requireClean, st, w).result
            case Err(e) => e == ILLEGAL_TRANSITION
            case Ok(last) => ReportFromCycle(spec, last).Ok? && Trustworthy(spec, ReportFromCycle(spec, last).value)
  {
    NothingLeft(spec, st);
    RoundsUnfold(spec, requireClean, st, w, 0, 0, |spec.tasks| + 2);
    hide Safe, AllDone, Accepted, NextTask;
    var run := RunAll(spec, requireClean, st, w);
    if run.result.Ok? {
      CycleReportValid(spec, run.result.value);
    }
  }

  /** Delivery refuses an unsuccessful report with a valid result, and calls it FAILED exactly for
      an environment failure. */
  lemma RefusalIsValid(r: Report, spec: Option<TaskSpec>)
    requires ValidReport(r, spec) && r.outcome != UnitPassed
    ensures ValidDelivery(ReportFailure(r))
    ensures ReportFailure(r).outcome == DeliveryFailed <==> r.failureClass == Some(EnvFailure)
    ensures ReportFailure(r).outcome != PullCreated && ReportFailure(r).code == r.code
    ensures FailedIsOutage(r) ==> (ReportFailure(r).outcome == DeliveryFailed <==> r.outcome == UnitFailed)
    ensures !FailedIsOutage(r) ==> r.outcome == UnitInvalidSpec || r.outcome == UnitCompleted
  {
  }

  /** So is the delivery result of any error, FAILED exactly for an outage. */
  lemma ErrorIsValid(fault: Fault, code: Option<ErrorCode>)
    ensures ValidDelivery(FailureResult(fault, code)) <==> code != Some(NO_CODE)
    ensures FailureResult(fault, code).outcome == DeliveryFailed <==> fault == Unavailable
    ensures FailureResult(fault, code).outcome == DeliveryEscalated <==> fault == Refused
    ensures FailureResult(fault, code).code == code
  {
  }

  /** FAILED at the last cycle, in the report and in the refused delivery are the same thing: an
      environment failure. */
  lemma FailedAtEveryLevel(spec: TaskSpec, requireClean: bool, st: ExecutionState, w: World)
    requires Wellformed(spec) && Startable(spec, st)
    requires RunAll(spec, requireClean, st, w).result.Ok?
    ensures var last := RunAll(spec, requireClean, st, w).result.value;
            && ReportFromCycle(spec, last).Ok?
            && var r := ReportFromCycle(spec, last).value;
               && (last.outcome == CycleFailed <==> last.failureClass == Some(EnvFailure))
               && (r.outcome == UnitFailed <==> last.outcome == CycleFailed)
               && (r.failureClass == Some(EnvFailure) <==> r.outcome == UnitFailed)
               && (r.outcome == UnitPassed <==> last.outcome == FinalVerificationPassed)
               && (r.outcome != UnitPassed ==>
                     ValidDelivery(ReportFailure(r)) &&
                         (ReportFailure(r).outcome == DeliveryFailed <==> r.outcome == UnitFailed))
  {
    RoundsStart(spec, requireClean, st, w);
    hide RunAll, Safe, Startable, Accepted, AllDone, Trail;
    var last := RunAll(spec, requireClean, st, w).result.value;
    CycleReportValid(spec, last);
    var r := ReportFromCycle(spec, last).value;
    if r.outcome != UnitPassed {
      RefusalIsValid(r, Some(spec));
    }
  }
}
