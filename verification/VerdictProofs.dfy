/** What a task cycle and a whole work unit answer, told from what they observe (agent/cycle.py,
    agent/classify.py). */
module VerdictProofs {
  import opened Prelude
  import opened TaskGraph
  import opened Spec
  import opened State
  import opened Select
  import opened Validation
  import opened Cycle
  import opened CycleProofs
  import opened WorkUnit
  import opened WorkUnitProofs
  import opened GateProofs
  import opened TamperProofs

  /** The command ran into its time limit, or its output blames the environment. */
  predicate Outage(run: CommandRun) {
    && run.Record? && !Passes(run) && !run.record.denied
    && (run.record.timedOut || run.record.output.environmentPhrase)
  }

  /** The command was denied; or it failed in a way that neither the environment nor a repair explains:
      by its output, as no known tool, or without an exit code. */
  predicate NeedsHuman(run: CommandRun) {
    && run.Record? && !Passes(run)
    && (|| run.record.denied
        || (&& !run.record.timedOut && !run.record.output.environmentPhrase
            && (|| run.record.output.escalationMarker || !run.record.repairableBinary
                || run.record.exitCode == None)))
  }

  /** Command `n` is the first that does not pass. */
  predicate FirstBad(runs: seq<CommandRun>, n: nat) {
    n < |runs| && !Passes(runs[n]) && forall i :: 0 <= i < n ==> Passes(runs[i])
  }

  predicate BreaksByOutage(runs: seq<CommandRun>) { exists n ::
      0 <= n < |runs| && FirstBad(runs, n) && Outage(runs[n]) }
  predicate BreaksForHuman(runs: seq<CommandRun>) { exists n ::
      0 <= n < |runs| && FirstBad(runs, n) && NeedsHuman(runs[n]) }
  predicate BreaksForRepair(runs: seq<CommandRun>) { exists n ::
      0 <= n < |runs| && FirstBad(runs, n) && PlainFailure(runs[n]) }

  /** There is nothing to run, or a command raises before any has failed. */
  predicate NoVerdict(runs: seq<CommandRun>) {
    runs == [] || exists n :: 0 <= n < |runs| && FirstBad(runs, n) && runs[n].Raises?
  }

  lemma {:induction false} FirstBadExists(runs: seq<CommandRun>) returns (n: nat)
    ensures n <= |runs| && forall i :: 0 <= i < n ==> Passes(runs[i])
    ensures n < |runs| ==> FirstBad(runs, n)
  {
    n := 0;
    while n < |runs| && Passes(runs[n])
      invariant n <= |runs| && forall i :: 0 <= i < n ==> Passes(runs[i])
    {
      n := n + 1;
    }
  }

  lemma FirstBadUnique(runs: seq<CommandRun>, m: nat, n: nat)
    requires FirstBad(runs, m) && FirstBad(runs, n)
    ensures m == n
  {
  }

  /** The records end at the first command that does not pass. */
  lemma {:induction false} RecordsAt(runs: seq<CommandRun>, n: nat)
    requires FirstBad(runs, n)
    ensures runs[n].Raises? ==> Records(runs).Err?
    ensures runs[n].Record? ==>
              Records(runs).Ok? && FirstFailed(Records(runs).value) == Some(runs[n].record)
    decreases n
  {
    if n > 0 {
      assert Passes(runs[0]);
      RecordsAt(runs[1..], n - 1);
    }
  }

  /** Validation ends in exactly one of five ways. */
  lemma ChecksAnswer(runs: seq<CommandRun>)
    ensures RunValidation(runs).Err? <==> NoVerdict(runs)
    ensures RunValidation(runs).Ok? ==>
              var failed := FirstFailed(RunValidation(runs).value);
              && (failed.None? <==> AllPass(runs))
              && (failed.Some? && ClassifyValidation(failed.value) == Some(EnvFailure) <==> BreaksByOutage(runs))
              && (failed.Some? && ClassifyValidation(failed.value) == Some(NeedsEscalation) <==> BreaksForHuman(runs))
              && (failed.Some? && ClassifyValidation(failed.value) == Some(AgentRepairable) <==> BreaksForRepair(runs))
    ensures NoVerdict(runs) ==>
              !AllPass(runs) && !BreaksByOutage(runs) && !BreaksForHuman(runs) && !BreaksForRepair(runs)
    ensures NoVerdict(runs) || AllPass(runs) || BreaksByOutage(runs) || BreaksForHuman(runs) || BreaksForRepair(runs)
  {
    var n := FirstBadExists(runs);
    if n < |runs| {
      RecordsAt(runs, n);
      forall m | 0 <= m < |runs| && FirstBad(runs, m) ensures m == n { FirstBadUnique(runs, m, n); }
      OneClass(runs[n]);
      hide Records, FirstFailed, ClassifyValidation, FirstBad, Outage, NeedsHuman, PlainFailure, Passes;
      assert !AllPass(runs) by { FirstBadFails(runs, n); }
    } else {
      forall m | 0 <= m < |runs| ensures !FirstBad(runs, m) {
      }
      ChecksExactly(runs);
      hide Records, FirstFailed, ClassifyValidation, FirstBad, Outage, NeedsHuman, PlainFailure, Passes;
    }
  }

  lemma FirstBadFails(runs: seq<CommandRun>, n: nat)
    requires FirstBad(runs, n)
    ensures !AllPass(runs)
  {
  }

  /** The class of a record that did not pass. */
  lemma OneClass(run: CommandRun)
    ensures run.Record? && !Passes(run) ==>
              && (ClassifyValidation(run.record) == Some(EnvFailure) <==> Outage(run))
              && (ClassifyValidation(run.record) == Some(NeedsEscalation) <==> NeedsHuman(run))
              && (ClassifyValidation(run.record) == Some(AgentRepairable) <==> PlainFailure(run))
    ensures run.Raises? ==> !Outage(run) && !NeedsHuman(run) && !PlainFailure(run)
    ensures PlainFailure(run) || NeedsHuman(run) || Outage(run) ==> run.Record?
    ensures Passes(run) || run.Raises? || PlainFailure(run) || NeedsHuman(run) || Outage(run)
  {
  }

  /** Codex ran, left the state file alone, and left the scope. */
  predicate OutOfScope(a: Attempt) {
    !Touched(a) && a.codex.Exited? && !a.scopeAllowed
  }

  /** Codex reported an error and changed nothing. */
  predicate EmptyHanded(a: Attempt) {
    !Touched(a) && a.codex.Exited? && a.scopeAllowed && a.codex.exitCode != 0 && !a.changed
  }

  /** The attempt fails for an outage. */
  predicate FailsByOutage(a: Attempt) {
    || (EmptyHanded(a) && a.codexOutput.environmentPhrase)
    || (Calm(a) && BreaksByOutage(a.checks))
  }

  /** The attempt fails in a way only a human can settle. */
  predicate FailsForHuman(a: Attempt) {
    || (EmptyHanded(a) && !a.codexOutput.environmentPhrase)
    || (Calm(a) && BreaksForHuman(a.checks))
  }

  /** Codex, or a command, raises before there is anything to judge; or there are no commands. */
  predicate Interrupted(a: Attempt) {
    || (!Touched(a) && a.codex.Raised?)
    || (Calm(a) && NoVerdict(a.checks))
  }

  /** How many attempts, from `k` on, fail plainly and are repaired within the budget: the next one
      decides. */
  function Repaired(spec: TaskSpec, used: nat, w: World, k: nat): nat
    decreases RemainingRepairs(spec.repairAttemptLimit, used)
  {
    if Repairable(w.attempt(k)) &&
        CanAttemptRepair(spec.repairAttemptLimit, used) then 1 + Repaired(spec, used + 1, w, k + 1)
    else 0
  }

  /** They are within the budget, and the deciding attempt fails plainly only when it is spent. */
  lemma {:induction false} RepairedMeans(spec: TaskSpec, used: nat, w: World, k: nat)
    ensures var n := Repaired(spec, used, w, k);
            && (n > 0 ==> used + n <= spec.repairAttemptLimit)
            && (forall j :: k <= j < k + n ==> Repairable(w.attempt(j)))
            && (Repairable(w.attempt(k + n)) ==> used + n >= spec.repairAttemptLimit)
    decreases RemainingRepairs(spec.repairAttemptLimit, used)
  {
    hide Repairable;
    if Repairable(w.attempt(k)) && CanAttemptRepair(spec.repairAttemptLimit, used) {
      RepairedMeans(spec, used + 1, w, k + 1);
    }
  }

  /** What the deciding attempt makes of a task: completed exactly for a good attempt, failed exactly
      for an outage, escalated exactly for a human or a plain failure with the budget spent (which
      alone carries the limit code), a scope violation exactly outside the scope or on a touched
      state file, and an error exactly when something raised. */
  ghost predicate Answers(a: Attempt, r: Result<CycleResult, AgentError>) {
    && (r.Err? <==> Interrupted(a))
    && (r.Ok? ==>
          && (r.value.outcome == TaskCompleted <==> Good(a))
          && (r.value.outcome == CycleFailed <==> FailsByOutage(a))
          && (r.value.outcome == CycleEscalated <==> FailsForHuman(a) || Repairable(a))
          && (r.value.outcome == CycleScopeViolation <==> Touched(a) || OutOfScope(a))
          && r.value.outcome != FinalVerificationPassed
          && (r.value.code == Some(RepairAttemptLimit) <==> Repairable(a))
          && (r.value.code == Some(Tampered) <==> Touched(a))
          && (r.value.failureClass == Some(AgentRepairable) <==> Repairable(a))
          && (r.value.failureClass == Some(EnvFailure) <==> FailsByOutage(a))
          && (r.value.failureClass == None <==> Good(a)))
  }

  /** An attempt is of exactly one kind. */
  lemma AttemptKinds(a: Attempt)
    ensures || Touched(a) || Interrupted(a) || OutOfScope(a) || FailsByOutage(a) || FailsForHuman(a) || Good(a) ||
        Repairable(a)
    ensures Touched(a) ==> !Calm(a) && !Interrupted(a) && !OutOfScope(a) && !EmptyHanded(a)
    ensures Calm(a) ==> !OutOfScope(a) && !EmptyHanded(a) && a.codex.Exited?
    ensures Calm(a) || OutOfScope(a) || EmptyHanded(a) || Touched(a) || (!Touched(a) && a.codex.Raised?)
  {
    ChecksAnswer(a.checks);
    hide BreaksByOutage, BreaksForHuman, AllPass, NoVerdict, Records, FirstFailed, ClassifyOutput;
    RepairableIs(a);
  }

  lemma RepairableIs(a: Attempt)
    ensures Repairable(a) <==> Calm(a) && BreaksForRepair(a.checks)
  {
    hide Calm;
    PlainIs(a.checks);
  }

  lemma PlainIs(runs: seq<CommandRun>)
    ensures BreaksPlainly(runs) <==> BreaksForRepair(runs)
  {
    if BreaksPlainly(runs) {
      var n :| 0 <= n < |runs| && PlainFailure(runs[n]) && forall i :: 0 <= i < n ==> Passes(runs[i]);
      assert FirstBad(runs, n);
    }
    if BreaksForRepair(runs) {
      var n :| 0 <= n < |runs| && FirstBad(runs, n) && PlainFailure(runs[n]);
      assert PlainFailure(runs[n]);
    }
  }

  /** The validation command that a state remembers: the first that did not pass, else the last. */
  predicate Remembered(runs: seq<CommandRun>, command: Option<string>) {
    exists n :: 0 <= n < |runs| && (FirstBad(runs, n) || (AllPass(runs) && n == |runs| - 1))
      && runs[n].Record? && command == Some(runs[n].record.command)
  }

  /** What the answered state holds: the task, the repairs used, whether it went well, and the deciding
      command. */
  ghost predicate Holds(task: SpecTask, used: nat, a: Attempt, r: Result<CycleResult, AgentError>) {
    r.Ok? ==>
      && r.value.taskId == Some(task.id) && r.value.state.currentTask == Some(task.id)
      && r.value.repairAttempts == used && r.value.state.repairAttempts == used
      && r.value.state.lastResult == Some(Good(a))
      && (Calm(a) ==> Remembered(a.checks, r.value.state.lastValidation))
  }

  /** The deciding attempt is `n` repairs on, and the run does as it says; `made` of its Codex calls
      were made before. */
  ghost predicate Decided(spec: TaskSpec, task: SpecTask, used: nat, w: World, k: nat, run: Run, made: nat) {
    var n := Repaired(spec, used, w, k);
    var a := w.attempt(k + n);
    && Answers(a, run.result) && Holds(task, used + n, a, run.result)
    && run.calls + made == n + (if a.before.Irregular? then 0 else 1)
  }

  lemma DecidedSaving(spec: TaskSpec, task: SpecTask, used: nat, w: World, k: nat, run: Run, made: nat,
      next: ExecutionState)
    requires Decided(spec, task, used, w, k, run, made)
    ensures Decided(spec, task, used, w, k, run.AfterSaving(next), made)
  {
    hide Answers, Holds, Repaired;
  }

  lemma DecidedCalling(spec: TaskSpec, task: SpecTask, used: nat, w: World, k: nat, run: Run)
    requires Decided(spec, task, used, w, k, run, 1)
    ensures Decided(spec, task, used, w, k, run.AfterCall(), 0)
  {
    hide Answers, Holds, Repaired;
  }

  lemma DecidedLater(spec: TaskSpec, task: SpecTask, used: nat, w: World, k: nat, run: Run, next: ExecutionState)
    requires Repairable(w.attempt(k)) && CanAttemptRepair(spec.repairAttemptLimit, used)
    requires Decided(spec, task, used + 1, w, k + 1, run, 0)
    ensures Decided(spec, task, used, w, k, run.AfterSaving(next), 1)
  {
    hide Answers, Holds, Repairable;
  }

  /** The deciding attempt is the first one. */
  lemma DecidedNow(spec: TaskSpec, task: SpecTask, used: nat, w: World, k: nat, run: Run, made: nat)
    requires !(Repairable(w.attempt(k)) && CanAttemptRepair(spec.repairAttemptLimit, used))
    requires Answers(w.attempt(k), run.result) && Holds(task, used, w.attempt(k), run.result)
    requires run.calls + made == if w.attempt(k).before.Irregular? then 0 else 1
    ensures Decided(spec, task, used, w, k, run, made)
  {
    hide Answers, Holds, Repairable;
  }

  lemma TouchedAnswer(spec: TaskSpec, task: SpecTask, st: ExecutionState, w: World, k: nat, made: nat)
    requires st.status == IMPLEMENTING && Touched(w.attempt(k)) &&
        made == (if w.attempt(k).before.Irregular? then 0 else 1)
    ensures Decided(spec, task, st.repairAttempts, w, k, TamperedResult(task, st), made)
  {
    var a := w.attempt(k);
    AttemptKinds(a);
    hide Touched, Calm, BreaksByOutage, BreaksForHuman, AllPass, NoVerdict, BreaksPlainly;
    DecidedNow(spec, task, st.repairAttempts, w, k, TamperedResult(task, st), made);
  }

  lemma {:induction false} ImplementDecided(spec: TaskSpec, task: SpecTask, st: ExecutionState, w: World, k: nat)
    requires st.status == IMPLEMENTING
    ensures Decided(spec, task, st.repairAttempts, w, k, Implement(spec, task, st, w, k), 0)
    decreases RemainingRepairs(spec.repairAttemptLimit, st.repairAttempts), 2
  {
    var a := w.attempt(k);
    var run := Implement(spec, task, st, w, k);
    AttemptKinds(a);
    hide Decided, Calm, BreaksByOutage, BreaksForHuman, AllPass, NoVerdict, BreaksPlainly, AfterCodex,
        ApplyTransition, TamperedResult;
    if a.before.Irregular? {
      TouchedAnswer(spec, task, st, w, k, 0);
    } else if a.before != a.afterCodex {
      TouchedAnswer(spec, task, st, w, k, 1);
      DecidedCalling(spec, task, st.repairAttempts, w, k, TamperedResult(task, st));
    } else if a.codex.Raised? {
      RaisedIsInterrupted(a);
      DecidedNow(spec, task, st.repairAttempts, w, k, run, 0);
    } else {
      AfterCodexDecided(spec, task, st, w, k);
      DecidedCalling(spec, task, st.repairAttempts, w, k, AfterCodex(spec, task, st, w, k));
    }
  }

  lemma RaisedIsInterrupted(a: Attempt)
    requires !Touched(a) && a.codex.Raised?
    ensures Interrupted(a) && !Repairable(a)
  {
  }

  lemma {:induction false} AfterCodexDecided(spec: TaskSpec, task: SpecTask, st: ExecutionState, w: World, k: nat)
    requires st.status == IMPLEMENTING
    requires var a := w.attempt(k); !a.before.Irregular? && a.before == a.afterCodex && a.codex.Exited?
    ensures Decided(spec, task, st.repairAttempts, w, k, AfterCodex(spec, task, st, w, k), 1)
    decreases RemainingRepairs(spec.repairAttemptLimit, st.repairAttempts), 1
  {
    var a := w.attempt(k);
    var run := AfterCodex(spec, task, st, w, k);
    AttemptKinds(a);
    hide Decided, BreaksByOutage, BreaksForHuman, AllPass, NoVerdict, BreaksPlainly, ValidateAndMaybeRepair;
    if a.before != a.atScope {
      TouchedAnswer(spec, task, st, w, k, 1);
    } else if Calm(a) {
      var next := ApplyTransition(st, VALIDATING, Changes(currentTask := Some(task.id))).value;
      ValidateDecided(spec, task, next, w, k);
      DecidedSaving(spec, task, st.repairAttempts, w, k, ValidateAndMaybeRepair(spec, task, next, w, k), 1, next);
    } else {
      DecidedNow(spec, task, st.repairAttempts, w, k, run, 1);
    }
  }

  lemma {:induction false} ValidateDecided(spec: TaskSpec, task: SpecTask, st: ExecutionState, w: World, k: nat)
    requires st.status == VALIDATING && Calm(w.attempt(k))
    ensures Decided(spec, task, st.repairAttempts, w, k, ValidateAndMaybeRepair(spec, task, st, w, k), 1)
    decreases RemainingRepairs(spec.repairAttemptLimit, st.repairAttempts), 0
  {
    var a := w.attempt(k);
    var run := ValidateAndMaybeRepair(spec, task, st, w, k);
    hide *;
    if Repairable(a) && CanAttemptRepair(spec.repairAttemptLimit, st.repairAttempts) {
      RepairStep(spec, task, st, w, k);
      var next := RepairState(task, st, a);
      BudgetFalls(spec, st.repairAttempts);
      ImplementDecided(spec, task, next, w, k + 1);
      DecidedLater(spec, task, st.repairAttempts, w, k, Implement(spec, task, next, w, k + 1), next);
    } else {
      ValidateOnce(spec, task, st, w, k);
      ValidateAnswers(a, run.result);
      ValidateHolds(task, a, st.repairAttempts, run.result);
      CalmIsRegular(a);
      DecidedNow(spec, task, st.repairAttempts, w, k, run, 1);
    }
  }

  lemma BudgetFalls(spec: TaskSpec, used: nat)
    requires CanAttemptRepair(spec.repairAttemptLimit, used)
    ensures RemainingRepairs(spec.repairAttemptLimit, used + 1) < RemainingRepairs(spec.repairAttemptLimit, used)
  {
  }

  function RepairState(task: SpecTask, st: ExecutionState, a: Attempt): ExecutionState
    requires RunValidation(a.checks).Ok? && FirstFailed(RunValidation(a.checks).value).Some? && st.status == VALIDATING
  {
    var failed := FirstFailed(RunValidation(a.checks).value).value;
    ApplyTransition(st, IMPLEMENTING,
      Changes(Some(task.id), None, Some(st.repairAttempts + 1), Some(failed.command), Some(false))).value
  }

  lemma RepairStep(spec: TaskSpec, task: SpecTask, st: ExecutionState, w: World, k: nat)
    requires st.status == VALIDATING && Repairable(w.attempt(k)) &&
        CanAttemptRepair(spec.repairAttemptLimit, st.repairAttempts)
    ensures RunValidation(w.attempt(k).checks).Ok? && FirstFailed(RunValidation(w.attempt(k).checks).value).Some?
    ensures var next := RepairState(task, st, w.attempt(k));
            && next.status == IMPLEMENTING && next.repairAttempts == st.repairAttempts + 1
            && ValidateAndMaybeRepair(spec, task, st, w, k) == Implement(spec, task, next, w, k + 1).AfterSaving(next)
  {
    RepairableIs(w.attempt(k));
    ChecksAnswer(w.attempt(k).checks);
    hide RunValidation, FirstFailed, ClassifyValidation, BreaksForRepair, BreaksByOutage, BreaksForHuman, NoVerdict,
        AllPass,
         Repairable, Implement, Conclude, Calm;
  }

  /** Validation that leads to no repair: the result by the class of the failure. */
  ghost predicate Concluded(task: SpecTask, a: Attempt, used: nat, r: Result<CycleResult, AgentError>) {
    var checked := RunValidation(a.checks);
    && (checked.Err? <==> r.Err?)
    && (checked.Ok? ==>
          var failed := FirstFailed(checked.value);
          && checked.value != []
          && r.value.taskId == Some(task.id) && r.value.state.currentTask == Some(task.id)
          && r.value.repairAttempts == used && r.value.state.repairAttempts == used
          && r.value.state.lastResult == Some(failed.None?)
          && r.value.state.lastValidation ==
               Some(if failed.None? then checked.value[|checked.value| - 1].command else failed.value.command)
          && (failed.None? ==>
                r.value.outcome == TaskCompleted && r.value.failureClass == None && r.value.code == None)
          && (failed.Some? ==>
                var c := ClassifyValidation(failed.value);
                && c.Some? && r.value.failureClass == c
                && r.value.outcome == (if c == Some(EnvFailure) then CycleFailed else CycleEscalated)
                && r.value.code == (if c == Some(AgentRepairable) then Some(RepairAttemptLimit) else None)))
  }

  lemma ValidateOnce(spec: TaskSpec, task: SpecTask, st: ExecutionState, w: World, k: nat)
    requires st.status == VALIDATING && Calm(w.attempt(k))
    requires !(Repairable(w.attempt(k)) && CanAttemptRepair(spec.repairAttemptLimit, st.repairAttempts))
    ensures var run := ValidateAndMaybeRepair(spec, task, st, w, k);
            run.calls == 0 && Concluded(task, w.attempt(k), st.repairAttempts, run.result)
  {
    var a := w.attempt(k);
    hide RunValidation, Records, FirstFailed, ClassifyValidation, Implement, ClassifyOutput, Repairable, Calm,
        BreaksForRepair;
    SpentWhenPlain(a);
    if RunValidation(a.checks).Ok? {
      SomeRecords(a.checks);
    }
    var failed := if RunValidation(a.checks).Ok? then FirstFailed(RunValidation(a.checks).value) else None;
    if failed.Some? {
      FailedHasClass(a.checks);
    }
  }

  lemma SpentWhenPlain(a: Attempt)
    requires Calm(a)
    ensures (RunValidation(a.checks).Ok? && FirstFailed(RunValidation(a.checks).value).Some?
             && ClassifyValidation(FirstFailed(RunValidation(a.checks).value).value) == Some(AgentRepairable)) ==>
                 Repairable(a)
  {
    RepairableIs(a);
    ChecksAnswer(a.checks);
    hide RunValidation, FirstFailed, ClassifyValidation, Calm, Repairable;
  }

  lemma SomeRecords(runs: seq<CommandRun>)
    requires RunValidation(runs).Ok?
    ensures RunValidation(runs).value != []
  {
  }

  lemma FailedHasClass(runs: seq<CommandRun>)
    requires RunValidation(runs).Ok? && FirstFailed(RunValidation(runs).value).Some?
    ensures ClassifyValidation(FirstFailed(RunValidation(runs).value).value).Some?
  {
    hide Records, ClassifyOutput;
  }

  lemma ValidateAnswers(a: Attempt, r: Result<CycleResult, AgentError>)
    requires Calm(a) && exists task, used :: Concluded(task, a, used, r)
    ensures Answers(a, r)
  {
    var task, used :| Concluded(task, a, used, r);
    AttemptKinds(a);
    RepairableIs(a);
    ChecksAnswer(a.checks);
    hide RunValidation, FirstFailed, ClassifyValidation, BreaksForRepair, BreaksByOutage, BreaksForHuman, NoVerdict,
        AllPass,
         Repairable, Calm, BreaksPlainly;
  }

  lemma ValidateHolds(task: SpecTask, a: Attempt, used: nat, r: Result<CycleResult, AgentError>)
    requires Calm(a) && Concluded(task, a, used, r)
    ensures Holds(task, used, a, r)
  {
    ChecksAnswer(a.checks);
    if RunValidation(a.checks).Ok? {
      CommandRemembered(a.checks);
    }
    hide RunValidation, FirstFailed, ClassifyValidation, BreaksForRepair, BreaksByOutage, BreaksForHuman, NoVerdict,
        AllPass,
         Calm, Remembered;
  }

  lemma CalmIsRegular(a: Attempt)
    ensures Calm(a) ==> !a.before.Irregular?
  {
  }

  lemma CommandRemembered(runs: seq<CommandRun>)
    requires RunValidation(runs).Ok?
    ensures var records := RunValidation(runs).value;
            && records != []
            && (FirstFailed(records).None? ==> Remembered(runs, Some(records[|records| - 1].command)))
            && (FirstFailed(records).Some? ==> Remembered(runs, Some(FirstFailed(records).value.command)))
  {
    var records := RunValidation(runs).value;
    ChecksExactly(runs);
    var n := FirstBadExists(runs);
    if n < |runs| {
      RecordsAt(runs, n);
    } else {
      assert |records| == |runs| && runs[|runs| - 1] == Record(records[|records| - 1]);
    }
  }

  /** What a task being implemented comes to: the first attempt that is not repaired decides. */
  lemma CycleDecided(spec: TaskSpec, task: SpecTask, st: ExecutionState, w: World, k: nat)
    requires st.status == IMPLEMENTING
    ensures var run := Implement(spec, task, st, w, k);
            var n := Repaired(spec, st.repairAttempts, w, k);
            var a := w.attempt(k + n);
            && Answers(a, run.result) && Holds(task, st.repairAttempts + n, a, run.result)
            && run.calls == n + (if a.before.Irregular? then 0 else 1)
  {
    hide *;
    ImplementDecided(spec, task, st, w, k);
    DecidedMeans(spec, task, st.repairAttempts, w, k, Implement(spec, task, st, w, k));
  }

  lemma DecidedMeans(spec: TaskSpec, task: SpecTask, used: nat, w: World, k: nat, run: Run)
    requires Decided(spec, task, used, w, k, run, 0)
    ensures var n := Repaired(spec, used, w, k);
            var a := w.attempt(k + n);
            && Answers(a, run.result) && Holds(task, used + n, a, run.result)
            && run.calls == n + (if a.before.Irregular? then 0 else 1)
  {
    hide Answers, Holds, Repaired;
  }

  /** What final verification answers: passed exactly when every check passes, failed exactly when the
      first that does not is an outage, escalated exactly when it is anything else that ran. */
  ghost predicate FinalAnswers(checks: seq<CommandRun>, r: Result<CycleResult, AgentError>) {
    && (r.Err? <==> NoVerdict(checks))
    && (r.Ok? ==>
          && (r.value.outcome == FinalVerificationPassed <==> AllPass(checks))
          && (r.value.outcome == CycleFailed <==> BreaksByOutage(checks))
          && (r.value.outcome == CycleEscalated <==> BreaksForHuman(checks) || BreaksForRepair(checks))
          && (r.value.failureClass == None <==> AllPass(checks))
          && (r.value.failureClass == Some(EnvFailure) <==> BreaksByOutage(checks))
          && (r.value.failureClass == Some(AgentRepairable) <==> BreaksForRepair(checks))
          && r.value.code == None && r.value.taskId == None
          && (!AllPass(checks) ==>
                r.value.state.lastResult == Some(false) && Remembered(checks, r.value.state.lastValidation)))
  }

  lemma FinalDecided(st: ExecutionState, checks: seq<CommandRun>)
    ensures if st.status == TASK_COMPLETED || st.status == FINAL_VALIDATING then
              FinalAnswers(checks, FinalVerify(st, checks).result)
            else FinalVerify(st, checks).result == Err(ILLEGAL_TRANSITION)
  {
    hide *;
    FinalOnce(st, checks);
    FinalFromShape(checks, FinalVerify(st, checks).result);
  }

  ghost predicate FinalShape(checks: seq<CommandRun>, r: Result<CycleResult, AgentError>) {
    var checked := RunValidation(checks);
    && (checked.Err? <==> r.Err?)
    && (checked.Ok? ==>
          var failed := FirstFailed(checked.value);
          && r.value.code == None && r.value.taskId == None
          && (failed.None? ==> r.value.outcome == FinalVerificationPassed && r.value.failureClass == None)
          && (failed.Some? ==>
                var c := ClassifyValidation(failed.value);
                && c.Some? && r.value.failureClass == c
                && r.value.outcome == (if c == Some(EnvFailure) then CycleFailed else CycleEscalated)
                && r.value.state.lastResult == Some(false) &&
                    r.value.state.lastValidation == Some(failed.value.command)))
  }

  lemma FinalOnce(st: ExecutionState, checks: seq<CommandRun>)
    ensures if st.status == TASK_COMPLETED ||
        st.status == FINAL_VALIDATING then FinalShape(checks, FinalVerify(st, checks).result)
            else FinalVerify(st, checks).result == Err(ILLEGAL_TRANSITION)
  {
    hide RunValidation, FirstFailed, ClassifyValidation, Records, ClassifyOutput;
    if RunValidation(checks).Ok? && FirstFailed(RunValidation(checks).value).Some? {
      FailedHasClass(checks);
    }
  }

  lemma FinalFromShape(checks: seq<CommandRun>, r: Result<CycleResult, AgentError>)
    ensures FinalShape(checks, r) ==> FinalAnswers(checks, r)
  {
    ChecksAnswer(checks);
    if RunValidation(checks).Ok? {
      CommandRemembered(checks);
    }
    hide RunValidation, FirstFailed, ClassifyValidation, BreaksForRepair, BreaksByOutage, BreaksForHuman, NoVerdict,
        AllPass,
         Remembered;
  }

  /** Where a work unit ends: on an irregular state file, at the clean-tree guard, at an attempt, or at
      its final checks. */
  datatype Finish = AtFile | AtGuard | AtAttempt(a: Attempt) | AtChecks(checks: seq<CommandRun>)

  /** The end of a work unit with `left` open tasks: task after task, the deciding attempt must be good. */
  function FinishOf(spec: TaskSpec, guarded: bool, left: nat, used: nat, w: World, c: nat, k: nat): Finish
    decreases left
  {
    if w.round(c).stateFile.Irregular? then AtFile
    else if left == 0 then AtChecks(w.round(c).finalChecks)
    else if guarded && w.round(c).dirty then AtGuard
    else
      var n := Repaired(spec, used, w, k);
      if Good(w.attempt(k + n)) then FinishOf(spec, false, left - 1, used + n, w, c + 1, k + n + 1)
      else AtAttempt(w.attempt(k + n))
  }

  ghost predicate FinishAnswers(finish: Finish, r: Result<CycleResult, AgentError>) {
    match finish
    case AtFile => r.Ok? && r.value.outcome == CycleScopeViolation && r.value.code == Some(Tampered)
    case AtGuard => r == Err(AgentError(PolicyViolation, DirtyWorktree))
    case AtAttempt(a) => Answers(a, r)
    case AtChecks(checks) => FinalAnswers(checks, r)
  }

  /** One round with nothing left to do. */
  lemma LastRoundDecided(spec: TaskSpec, requireClean: bool, st: ExecutionState, w: World, c: nat, k: nat)
    requires Wellformed(spec) && Startable(spec, st) && spec.tasks != [] && AllDone(spec.tasks, st.completedTasks)
    ensures var run := RunTaskCycle(spec, requireClean, st, w, c, k);
            && !Completed(run)
            && FinishAnswers(if w.round(c).stateFile.Irregular? then
                AtFile else AtChecks(w.round(c).finalChecks), run.result)
  {
    SelectorNeverBlocks(spec.tasks, st.completedTasks, st.currentTask);
    DoneAtCheckpoint(spec, st);
    FinalDecided(st, w.round(c).finalChecks);
    FinalGate(st, w.round(c).finalChecks);
    hide NextTask, FinalVerify, Safe, AllDone, Accepted, FinalAnswers, Implement;
  }

  /** One round with a task open: guarded, tampered with, or decided by its deciding attempt. */
  lemma OpenRoundDecided(spec: TaskSpec, requireClean: bool, st: ExecutionState, w: World, c: nat, k: nat)
    requires Wellformed(spec) && Startable(spec, st) && spec.tasks != [] && !AllDone(spec.tasks, st.completedTasks)
    ensures var run := RunTaskCycle(spec, requireClean, st, w, c, k);
            var n := Repaired(spec, st.repairAttempts, w, k);
            if w.round(c).stateFile.Irregular? then FinishAnswers(AtFile, run.result)
            else if requireClean && st.completedTasks == [] && w.round(c).dirty then FinishAnswers(AtGuard, run.result)
            else && Answers(w.attempt(k + n), run.result)
                 && (Completed(run) <==> Good(w.attempt(k + n))) && (Completed(run) ==> run.calls == n + 1)
  {
    SelectorNeverBlocks(spec.tasks, st.completedTasks, st.currentTask);
    var task := NextTask(spec.tasks, st.completedTasks, st.currentTask).value.value;
    EnteredDecided(spec, task, st, w, k);
    hide NextTask, FinalVerify, Safe, AllDone, Accepted, Implement, EnterImplementing, Answers, Repaired, Good;
  }

  lemma EnteredDecided(spec: TaskSpec, task: SpecTask, st: ExecutionState, w: World, k: nat)
    requires Wellformed(spec) && Startable(spec, st)
    requires task in spec.tasks && task.id !in st.completedTasks && Ready(task, st.completedTasks)
    ensures EnterImplementing(st, task).Ok?
    ensures var next := EnterImplementing(st, task).value;
            var run := Implement(spec, task, next, w, k).AfterSaving(next);
            var n := Repaired(spec, st.repairAttempts, w, k);
            && Answers(w.attempt(k + n), run.result)
            && (Completed(run) <==> Good(w.attempt(k + n))) && (Completed(run) ==> run.calls == n + 1)
  {
    hide *;
    ImplementRound(spec, task, st, w, k);
    EnteredState(spec, task, st);
    var next := EnterImplementing(st, task).value;
    CycleDecided(spec, task, next, w, k);
    var run := Implement(spec, task, next, w, k);
    GoodAnswers(w.attempt(k + Repaired(spec, st.repairAttempts, w, k)), run);
    SavingKeeps(run, next);
  }

  lemma EnteredState(spec: TaskSpec, task: SpecTask, st: ExecutionState)
    requires Startable(spec, st) && EnterImplementing(st, task).Ok?
    ensures EnterImplementing(st, task).value.status == IMPLEMENTING
    ensures EnterImplementing(st, task).value.repairAttempts == st.repairAttempts
  {
    hide Safe, AllDone;
  }

  lemma SavingKeeps(run: Run, next: ExecutionState)
    ensures var saved := run.AfterSaving(next);
            saved.result == run.result && saved.calls == run.calls && (Completed(saved) <==> Completed(run))
  {
  }

  lemma GoodAnswers(a: Attempt, run: Run)
    requires Answers(a, run.result)
    ensures Completed(run) <==> Good(a)
    ensures Good(a) ==> !a.before.Irregular?
  {
    ChecksAnswer(a.checks);
    hide NoVerdict, AllPass, RunValidation, BreaksByOutage, BreaksForHuman, BreaksForRepair, BreaksPlainly;
  }

  /** A work unit answers as the place where it ends says. */
  lemma {:induction false} RoundsDecided(spec: TaskSpec, requireClean: bool, st: ExecutionState, w: World, c: nat,
      k: nat,
      bound: nat)
    requires Wellformed(spec) && Startable(spec, st) && spec.tasks != [] && bound > Open(spec, st) >= 0
    ensures FinishAnswers(FinishOf(spec, requireClean &&
        st.completedTasks == [], Open(spec, st), st.repairAttempts, w, c, k),
                          Rounds(spec, requireClean, st, w, c, k, bound).result)
    decreases bound
  {
    hide *;
    StartableBounds(spec, st);
    RoundsUnfold(spec, requireClean, st, w, c, k, bound);
    RoundKeeps(spec, requireClean, st, w, c, k);
    var run := RunTaskCycle(spec, requireClean, st, w, c, k);
    CompletedMeans(run);
    FinishUnfold(spec, requireClean && st.completedTasks == [], Open(spec, st), st.repairAttempts, w, c, k);
    if AllDone(spec.tasks, st.completedTasks) {
      LastRoundDecided(spec, requireClean, st, w, c, k);
    } else {
      OpenRoundDecided(spec, requireClean, st, w, c, k);
      AttemptAnswers(w.attempt(k + Repaired(spec, st.repairAttempts, w, k)), run);
      if Completed(run) {
        var next := run.result.value.state;
        AfterCompleted(spec, st, run);
        NextStart(spec, st, run);
        ThenMeans(run, Rounds(spec, requireClean, next, w, c + 1, k + run.calls, bound - 1));
        StartableBounds(spec, next);
        NothingElseCompletes(run);
        RoundsDecided(spec, requireClean, next, w, c + 1, k + run.calls, bound - 1);
      }
    }
  }

  lemma FinishUnfold(spec: TaskSpec, guarded: bool, left: nat, used: nat, w: World, c: nat, k: nat)
    ensures var n := Repaired(spec, used, w, k);
            FinishOf(spec, guarded, left, used, w, c, k) ==
              if w.round(c).stateFile.Irregular? then AtFile
              else if left == 0 then AtChecks(w.round(c).finalChecks)
              else if guarded && w.round(c).dirty then AtGuard
              else if Good(w.attempt(k + n)) then FinishOf(spec, false, left - 1, used + n, w, c + 1, k + n + 1)
              else AtAttempt(w.attempt(k + n))
  {
    hide Repaired, Good;
  }

  lemma AttemptAnswers(a: Attempt, run: Run)
    ensures FinishAnswers(AtAttempt(a), run.result) <==> Answers(a, run.result)
  {
    hide Answers;
  }

  lemma NothingElseCompletes(run: Run)
    requires Completed(run)
    ensures !FinishAnswers(AtFile, run.result) && !FinishAnswers(AtGuard, run.result)
  {
  }

  /** So does a fresh work unit: its outcome is a matter of what it observes. */
  lemma FreshDecided(spec: TaskSpec, requireClean: bool, w: World)
    requires Wellformed(spec)
    ensures FinishAnswers(FinishOf(spec, requireClean, |spec.tasks|, 0, w, 0, 0),
                          RunAll(spec, requireClean, NewExecutionState(spec), w).result)
  {
    hide *;
    FreshRounds(spec, requireClean, w);
    RoundsDecided(spec, requireClean, NewExecutionState(spec), w, 0, 0, |spec.tasks| + 2);
  }
}
