/** What the next start of a work unit does with what it finds on disk, and what it reports
    (agent/reconcile.py, agent/workunit.py). */
module StartProofs {
  import opened Prelude
  import opened TaskGraph
  import opened Spec
  import opened State
  import opened Cycle
  import opened CycleProofs
  import opened WorkUnit
  import opened WorkUnitProofs
  import opened GateProofs
  import opened TamperProofs
  import opened RestartProofs
  import opened VerdictProofs
  import opened Reports
  import opened ReportProofs

  predicate InFlight(status: ExecutionStatus) { status in {RUNNING, IMPLEMENTING, VALIDATING} }

  predicate Blocking(status: ExecutionStatus) { status in {ESCALATED, SCOPE_VIOLATION, INVALID_SPEC, COMPLETED} }

  /** The persisted state is of this work unit and branch. */
  predicate Ours(spec: TaskSpec, st: ExecutionState) { st.taskId == spec.id && st.branch == spec.targetBranch }

  /** Every answer of preparing a persisted state: refused for another work unit or branch, blocked for
      four statuses, retried for a failure with everything kept; a run that died in flight goes on
      from its last completed task, or starts over with its whole budget when there is none. */
  lemma PrepareExactly(spec: TaskSpec, st: ExecutionState)
    ensures var r := PreparePersisted(spec, st);
            && (r.Ok? <==> Ours(spec, st))
            && (r == Err(AgentError(EscalationRequired, UnsafeReconcile)) <==> st.taskId != spec.id)
            && (r == Err(AgentError(EscalationRequired, StateBranchMismatch)) <==>
                  st.taskId == spec.id && st.branch != spec.targetBranch)
            && (Ours(spec, st) ==>
                  && (r.value.action == Block <==> Blocking(st.status))
                  && (r.value.action == Retry <==> st.status == FAILED)
                  && r.value.state ==
                       if st.status == FAILED then st.(status := RUNNING)
                       else if InFlight(st.status) && st.completedTasks == [] then
                         st.(status := PENDING, currentTask := None, repairAttempts := 0)
                       else if InFlight(st.status) then st.(status := TASK_COMPLETED)
                       else if st.status == PR_CREATED then NewExecutionState(spec)
                       else st)
  {
  }

  /** The repairs already counted against the budget of the next start. */
  function CarriedRepairs(st: ExecutionState): nat {
    if InFlight(st.status) && st.completedTasks == [] then 0 else st.repairAttempts
  }

  /** A start from a state file that a run of this work unit left, whatever it died of: decided task by
      task from the tasks still open, with the budget that is left; one that died in flight before its
      first completed task is decided like a fresh one. */
  lemma StartDecided(spec: TaskSpec, requireClean: bool, st: ExecutionState, w: World)
    requires Wellformed(spec) && Safe(spec, st) && !Blocking(st.status) && !DeadRetry(spec, st)
    ensures PreparePersisted(spec, st).Ok? && |st.completedTasks| <= |spec.tasks|
    ensures FinishAnswers(
              FinishOf(spec, requireClean && st.completedTasks == [], |spec.tasks| - |st.completedTasks|,
                       CarriedRepairs(st), w, 0, 0),
              RunAll(spec, requireClean, PreparePersisted(spec, st).value.state, w).result)
  {
    var start := PreparePersisted(spec, st).value.state;
    hide *;
    StartFacts(spec, st);
    AsStartDecided(spec, requireClean, start, w, st.completedTasks, CarriedRepairs(st));
  }

  lemma AsStartDecided(spec: TaskSpec, requireClean: bool, start: ExecutionState, w: World, done: seq<string>,
      used: nat)
    requires Wellformed(spec) && Startable(spec, start) && spec.tasks != []
    requires start.completedTasks == done && start.repairAttempts == used && |done| <= |spec.tasks|
    ensures FinishAnswers(FinishOf(spec, requireClean && done == [], |spec.tasks| - |done|, used, w, 0, 0),
                          RunAll(spec, requireClean, start, w).result)
  {
    assert Open(spec, start) == |spec.tasks| - |done|;
    hide *;
    StartableDecided(spec, requireClean, start, w);
  }

  lemma StartableDecided(spec: TaskSpec, requireClean: bool, st: ExecutionState, w: World)
    requires Wellformed(spec) && Startable(spec, st)
    ensures spec.tasks != [] && Open(spec, st) >= 0
    ensures FinishAnswers(FinishOf(spec, requireClean &&
        st.completedTasks == [], Open(spec, st), st.repairAttempts, w, 0, 0),
                          RunAll(spec, requireClean, st, w).result)
  {
    hide *;
    RunAllRounds(spec, requireClean, st, w);
    RoundsDecided(spec, requireClean, st, w, 0, 0, |spec.tasks| + 2);
  }

  lemma StartFacts(spec: TaskSpec, st: ExecutionState)
    requires Wellformed(spec) && Safe(spec, st) && !Blocking(st.status) && !DeadRetry(spec, st)
    ensures PreparePersisted(spec, st).Ok? && spec.tasks != []
    ensures var start := PreparePersisted(spec, st).value.state;
            && Startable(spec, start) && start.completedTasks == st.completedTasks
            && start.repairAttempts == CarriedRepairs(st)
            && |st.completedTasks| <= |spec.tasks|
  {
    PrepareKeeps(spec, st);
    PrepareExactly(spec, st);
    OpenBounds(spec, st);
    assert Ours(spec, st) && spec.tasks != [] && st.status != PR_CREATED;
    hide PreparePersisted, Safe, DeadRetry, Startable, Wellformed;
  }

  lemma RunAllRounds(spec: TaskSpec, requireClean: bool, st: ExecutionState, w: World)
    requires Wellformed(spec) && Startable(spec, st)
    ensures RunAll(spec, requireClean, st, w) == Rounds(spec, requireClean, st, w, 0, 0, |spec.tasks| + 2)
    ensures spec.tasks != [] && |spec.tasks| + 2 > Open(spec, st) >= 0
  {
    StartableRoom(spec, st);
    StartableBounds(spec, st);
    hide Rounds, Startable;
  }

  /** What a start that ends at `finish` reports. */
  ghost predicate ReportedAs(finish: Finish, r: Result<Report, AgentError>) {
    match finish
    case AtFile => r.Ok? && r.value.outcome == UnitScopeViolation && r.value.code == Some(StateTampered)
    case AtGuard => r == Err(AgentError(PolicyViolation, DirtyWorktree))
    case AtAttempt(a) =>
      && (r.Err? <==> Interrupted(a))
      && (r.Ok? ==>
            && (r.value.outcome == UnitFailed <==> FailsByOutage(a))
            && (r.value.outcome == UnitEscalated <==> FailsForHuman(a) || Repairable(a))
            && (r.value.outcome == UnitScopeViolation <==> Touched(a) || OutOfScope(a))
            && (r.value.scopeAllowed <==> !Touched(a) && !OutOfScope(a))
            && r.value.outcome != UnitPassed && !r.value.finalVerificationPassed && !r.value.validationPassed
            && (r.value.code == Some(LIMIT_CODE) <==> Repairable(a))
            && (r.value.code == Some(StateTampered) <==> Touched(a)))
    case AtChecks(checks) =>
      && (r.Err? <==> NoVerdict(checks))
      && (r.Ok? ==>
            && (r.value.outcome == UnitPassed <==> AllPass(checks))
            && (r.value.outcome == UnitFailed <==> BreaksByOutage(checks))
            && (r.value.outcome == UnitEscalated <==> BreaksForHuman(checks) || BreaksForRepair(checks))
            && (r.value.finalVerificationPassed <==> AllPass(checks))
            && (r.value.validationPassed <==> AllPass(checks))
            && r.value.scopeAllowed && r.value.code == None)
  }

  lemma ReportedFinish(spec: TaskSpec, finish: Finish, result: Result<CycleResult, AgentError>)
    requires FinishAnswers(finish, result)
    requires result.Ok? ==> ReportFromCycle(spec, result.value).Ok? && result.value.outcome != TaskCompleted
    requires result.Ok? ==> SameVerdict(result.value, ReportFromCycle(spec, result.value).value)
    ensures ReportedAs(finish, match result case Ok(last) => ReportFromCycle(spec, last) case Err(e) => Err(e))
  {
    if finish.AtChecks? {
      ChecksAnswer(finish.checks);
    }
    hide ReportFromCycle, Interrupted, FailsByOutage, FailsForHuman, Repairable, Touched, OutOfScope, NoVerdict,
        AllPass, BreaksByOutage, BreaksForHuman, BreaksForRepair;
  }

  /** The report says what the last cycle result says. */
  predicate SameVerdict(last: CycleResult, r: Report) {
    && (r.outcome == UnitPassed <==> last.outcome == FinalVerificationPassed)
    && (r.outcome == UnitFailed <==> last.outcome == CycleFailed)
    && (r.outcome == UnitScopeViolation <==> last.outcome == CycleScopeViolation)
    && (r.outcome == UnitEscalated <==> last.outcome == CycleEscalated)
    && (r.finalVerificationPassed <==> last.outcome == FinalVerificationPassed)
    && (r.validationPassed <==> last.outcome == FinalVerificationPassed)
    && (r.scopeAllowed <==> last.outcome != CycleScopeViolation)
    && (r.code == None <==> last.code == None)
    && (r.code == Some(LIMIT_CODE) <==> last.code == Some(RepairAttemptLimit))
    && (r.code == Some(StateTampered) <==> last.code == Some(Tampered))
  }

  lemma LastReported(spec: TaskSpec, requireClean: bool, st: ExecutionState, w: World)
    requires Wellformed(spec) && Startable(spec, st)
    ensures match RunAll(spec, requireClean, st, w).result
            case Err(_) => true
            case Ok(last) =>
              && last.outcome != TaskCompleted && ReportFromCycle(spec, last).Ok?
              && SameVerdict(last, ReportFromCycle(spec, last).value)
  {
    RoundsStart(spec, requireClean, st, w);
    hide RunAll, Safe, Startable, Accepted, AllDone, Trail, ReportFromCycle;
    var run := RunAll(spec, requireClean, st, w);
    if run.result.Ok? {
      CycleReportValid(spec, run.result.value);
    }
  }

  /** The state of a start that prepares without being stopped, and the open tasks and used repairs. */
  ghost predicate Goes(spec: TaskSpec, persist: bool, file: StateFile) {
    !persist || file == NoFile
    || (file.Saved? && Safe(spec, file.state) && !Blocking(file.state.status) && !DeadRetry(spec, file.state))
  }

  function Before(persist: bool, file: StateFile): seq<string> {
    if persist && file.Saved? then file.state.completedTasks else []
  }

  function Used(persist: bool, file: StateFile): nat {
    if persist && file.Saved? then CarriedRepairs(file.state) else 0
  }

  function StartState(spec: TaskSpec, persist: bool, file: StateFile): ExecutionState {
    if persist && file.Saved? && PreparePersisted(spec, file.state).Ok? then
      PreparePersisted(spec, file.state).value.state
    else NewExecutionState(spec)
  }

  lemma StartsAt(spec: TaskSpec, persist: bool, file: StateFile)
    requires Wellformed(spec) && Goes(spec, persist, file)
    ensures Startable(spec, StartState(spec, persist, file)) && spec.tasks != []
    ensures PrepareState(spec, persist, file).Ok? && PrepareState(spec, persist, file).value.action != Block
    ensures PrepareState(spec, persist, file).value.state == StartState(spec, persist, file)
  {
    if persist && file.Saved? {
      PrepareKeeps(spec, file.state);
      PrepareExactly(spec, file.state);
    } else {
      FreshIsStartable(spec);
    }
    hide Startable, Safe, PreparePersisted, DeadRetry, Accepted;
  }

  lemma StartFinishes(spec: TaskSpec, persist: bool, file: StateFile, requireClean: bool, w: World)
    requires Wellformed(spec) && Goes(spec, persist, file) && spec.tasks != []
    ensures var done := Before(persist, file);
            && |done| <= |spec.tasks|
            && FinishAnswers(FinishOf(spec, requireClean &&
                done == [], |spec.tasks| - |done|, Used(persist, file), w, 0, 0),
                             RunAll(spec, requireClean, StartState(spec, persist, file), w).result)
  {
    hide *;
    StartMeans(spec, persist, file);
    if persist && file.Saved? {
      StartDecided(spec, requireClean, file.state, w);
    } else {
      FreshDecided(spec, requireClean, w);
    }
  }

  lemma StartMeans(spec: TaskSpec, persist: bool, file: StateFile)
    requires Goes(spec, persist, file)
    ensures if persist && file.Saved? then
              var st := file.state;
              && Safe(spec, st) && !Blocking(st.status) && !DeadRetry(spec, st)
              && Before(persist, file) == st.completedTasks && Used(persist, file) == CarriedRepairs(st)
              && (PreparePersisted(spec, st).Ok? ==>
                    StartState(spec, persist, file) == PreparePersisted(spec, st).value.state)
            else
              Before(persist, file) == [] && Used(persist, file) == 0
              && StartState(spec, persist, file) == NewExecutionState(spec)
  {
    hide Safe, PreparePersisted, DeadRetry, CarriedRepairs, NewExecutionState;
  }

  lemma UnitShape(spec: TaskSpec, persist: bool, file: StateFile, requireClean: bool, w: World)
    requires spec.tasks != []
    requires PrepareState(spec, persist, file).Ok? && PrepareState(spec, persist, file).value.action != Block
    ensures RunWorkUnit(spec, persist, file, requireClean, w) ==
              match RunAll(spec, requireClean, PrepareState(spec, persist, file).value.state, w).result
              case Ok(last) => ReportFromCycle(spec, last)
              case Err(e) => Err(e)
  {
    hide PrepareState, RunAll, ReportFromCycle, ReportFromReconcile, ReportFromPreparationError;
  }

  /** What every start reports, fresh or from any state file a run of this work unit left. */
  lemma StartReported(spec: TaskSpec, persist: bool, file: StateFile, requireClean: bool, w: World)
    requires Wellformed(spec) && Goes(spec, persist, file)
    ensures spec.tasks != [] && |Before(persist, file)| <= |spec.tasks|
    ensures var done := Before(persist, file);
            ReportedAs(FinishOf(spec, requireClean && done == [], |spec.tasks| - |done|, Used(persist, file), w, 0, 0),
                       RunWorkUnit(spec, persist, file, requireClean, w))
  {
    hide *;
    StartsAt(spec, persist, file);
    StartFinishes(spec, persist, file, requireClean, w);
    UnitShape(spec, persist, file, requireClean, w);
    var st := StartState(spec, persist, file);
    LastReported(spec, requireClean, st, w);
    var done := Before(persist, file);
    ReportedFinish(spec, FinishOf(spec, requireClean &&
        done == [], |spec.tasks| - |done|, Used(persist, file), w, 0, 0),
                   RunAll(spec, requireClean, st, w).result);
  }

  /** A start that is stopped before anything runs, and what it is stopped by. */
  predicate Stopped(spec: TaskSpec, persist: bool, file: StateFile) {
    && persist
    && (file.IrregularFile? || file.UnreadableFile?
        || (file.Saved? && (!Ours(spec, file.state) || Blocking(file.state.status))))
  }

  /** Outcome and code of the report about it. */
  function StopOutcome(spec: TaskSpec, file: StateFile): (UnitOutcome, Option<ErrorCode>) {
    match file
    case IrregularFile => (UnitScopeViolation, Some(StateTampered))
    case NoFile | UnreadableFile => (UnitFailed, None)
    case Saved(st) =>
      if st.taskId != spec.id then (UnitEscalated, Some(UnsafeReconcile))
      else if st.branch != spec.targetBranch then (UnitEscalated, Some(StateBranchMismatch))
      else
        match st.status
        case SCOPE_VIOLATION => (UnitScopeViolation, None)
        case INVALID_SPEC => (UnitInvalidSpec, None)
        case COMPLETED => (UnitCompleted, None)
        case _ => (UnitEscalated, None)
  }

  /** Exactly when preparing stops a start, and what the report then says. */
  lemma StoppedExactly(spec: TaskSpec, persist: bool, file: StateFile, requireClean: bool, w: World)
    requires Wellformed(spec)
    ensures var p := PrepareState(spec, persist, file);
            p.Err? || p.value.action == Block <==> Stopped(spec, persist, file)
    ensures spec.tasks != []
    ensures Stopped(spec, persist, file) && RunWorkUnit(spec, persist, file, requireClean, w).Ok? ==>
              var r := RunWorkUnit(spec, persist, file, requireClean, w).value;
              && (r.outcome, r.code) == StopOutcome(spec, file)
              && r.state == (if file.Saved? then file.state else NewExecutionState(spec))
              && r.branch == r.state.branch
              && (r.scopeAllowed <==> r.outcome != UnitScopeViolation)
              && !r.finalVerificationPassed && !r.validationPassed
  {
    if persist && file.Saved? {
      PrepareExactly(spec, file.state);
    }
    hide Accepted, RunAll, PreparePersisted;
  }
}
