/** What it takes to complete a task and to pass a work unit (agent/cycle.py, agent/workunit.py). */
module GateProofs {
  import opened Prelude
  import opened TaskGraph
  import opened Spec
  import opened State
  import opened Select
  import opened Validation
  import opened Cycle
  import opened CycleProofs
  import opened WorkUnit
  import opened WorkUnitProofs

  /** Codex returned, left the state file alone and stayed in scope; if it reported an error, it
      changed something all the same. */
  predicate Calm(a: Attempt) {
    && !a.before.Irregular? && a.afterCodex == a.before && a.atScope == a.before
    && a.codex.Exited? && a.scopeAllowed && (a.codex.exitCode == 0 || a.changed)
  }

  /** The command was allowed, ended in time and exited with 0. */
  predicate Passes(run: CommandRun) {
    run.Record? && !run.record.denied && !run.record.timedOut && run.record.exitCode == Some(0)
  }

  predicate AllPass(runs: seq<CommandRun>) {
    runs != [] && forall i :: 0 <= i < |runs| ==> Passes(runs[i])
  }

  /** A build or test tool exited with an error, and its output blames neither the environment nor
      a rule. */
  predicate PlainFailure(run: CommandRun) {
    && run.Record? && !run.record.denied && !run.record.timedOut && run.record.repairableBinary
    && run.record.exitCode.Some? && run.record.exitCode.value != 0
    && !run.record.output.environmentPhrase && !run.record.output.escalationMarker
  }

  /** The first command that does not pass fails plainly. */
  predicate BreaksPlainly(runs: seq<CommandRun>) {
    exists n :: 0 <= n < |runs| && PlainFailure(runs[n]) && forall i :: 0 <= i < n ==> Passes(runs[i])
  }

  predicate Good(a: Attempt) { Calm(a) && AllPass(a.checks) }
  predicate Repairable(a: Attempt) { Calm(a) && BreaksPlainly(a.checks) }

  lemma {:induction false} ChecksExactly(runs: seq<CommandRun>)
    ensures (Records(runs).Ok? && FirstFailed(Records(runs).value).None?) <==>
        forall i :: 0 <= i < |runs| ==> Passes(runs[i])
    ensures (Records(runs).Ok? && FirstFailed(Records(runs).value).Some?
             && ClassifyValidation(FirstFailed(Records(runs).value).value) == Some(AgentRepairable)) <==>
                 BreaksPlainly(runs)
    decreases |runs|
  {
    if runs != [] {
      ChecksExactly(runs[1..]);
      if Passes(runs[0]) {
        BreaksLater(runs);
        assert (forall i :: 0 <= i < |runs| ==> Passes(runs[i])) <==>
            forall i :: 0 <= i < |runs[1..]| ==> Passes(runs[1..][i]) by {
          forall i | 0 < i < |runs| ensures Passes(runs[i]) <==> Passes(runs[1..][i - 1]) {
          }
        }
      } else {
        BreaksFirst(runs);
      }
    }
  }

  lemma BreaksLater(runs: seq<CommandRun>)
    requires runs != [] && Passes(runs[0])
    ensures BreaksPlainly(runs) <==> BreaksPlainly(runs[1..])
  {
    if BreaksPlainly(runs) {
      var n :| 0 <= n < |runs| && PlainFailure(runs[n]) && forall i :: 0 <= i < n ==> Passes(runs[i]);
      assert PlainFailure(runs[1..][n - 1]);
    }
    if BreaksPlainly(runs[1..]) {
      var n :| 0 <= n < |runs[1..]| && PlainFailure(runs[1..][n]) && forall i :: 0 <= i < n ==> Passes(runs[1..][i]);
      assert PlainFailure(runs[n + 1]);
      forall i | 0 <= i < n + 1 ensures Passes(runs[i]) {
        if i > 0 { assert Passes(runs[1..][i - 1]); }
      }
    }
  }

  lemma BreaksFirst(runs: seq<CommandRun>)
    requires runs != [] && !Passes(runs[0])
    ensures BreaksPlainly(runs) <==> PlainFailure(runs[0])
  {
  }

  predicate Completed(run: Run) {
    run.result.Ok? && run.result.value.outcome == TaskCompleted
  }

  /** `n` repairs lead from attempt `k` to a good one: every attempt before it could be repaired, and
      the budget allows them. */
  predicate Takes(spec: TaskSpec, used: nat, w: World, k: nat, n: nat) {
    && n <= RemainingRepairs(spec.repairAttemptLimit, used)
    && (forall j :: k <= j < k + n ==> Repairable(w.attempt(j)))
    && Good(w.attempt(k + n))
  }

  /** A run that completes the task exactly when some number of repairs leads there, that number
      being `calls` less the attempt's own. */
  ghost predicate Gated(spec: TaskSpec, used: nat, w: World, k: nat, run: Run, own: nat) {
    && (Completed(run) ==> run.calls >= own && Takes(spec, used, w, k, run.calls - own))
    && (forall n: nat :: Takes(spec, used, w, k, n) ==> Completed(run) && run.calls == n + own)
    && (run.result.Ok? ==> run.result.value.outcome != FinalVerificationPassed)
  }

  lemma GoodIsNotRepairable(a: Attempt)
    ensures !(Good(a) && Repairable(a))
  {
  }

  lemma TakesNow(spec: TaskSpec, used: nat, w: World, k: nat, n: nat)
    ensures n == 0 ==> (Takes(spec, used, w, k, n) <==> Good(w.attempt(k)))
    ensures n > 0 && Takes(spec, used, w, k, n) ==>
              && Repairable(w.attempt(k)) && CanAttemptRepair(spec.repairAttemptLimit, used)
              && Takes(spec, used + 1, w, k + 1, n - 1)
    ensures (&& Repairable(w.attempt(k)) && CanAttemptRepair(spec.repairAttemptLimit, used)
             && Takes(spec, used + 1, w, k + 1, n)) ==> Takes(spec, used, w, k, n + 1)
  {
    hide Good, Repairable;
  }

  /** An attempt that is neither good nor repaired completes nothing. */
  lemma NotTaken(spec: TaskSpec, used: nat, w: World, k: nat, run: Run, own: nat)
    requires run.result.Ok? ==>
               run.result.value.outcome != TaskCompleted && run.result.value.outcome != FinalVerificationPassed
    requires !Good(w.attempt(k)) && !(Repairable(w.attempt(k)) && CanAttemptRepair(spec.repairAttemptLimit, used))
    ensures Gated(spec, used, w, k, run, own)
  {
    hide Takes, Good, Repairable;
    forall n: nat ensures !Takes(spec, used, w, k, n) {
      TakesNow(spec, used, w, k, n);
    }
  }

  lemma TakenNow(spec: TaskSpec, used: nat, w: World, k: nat, run: Run, own: nat)
    requires Good(w.attempt(k)) && Completed(run) && run.calls == own
    ensures Gated(spec, used, w, k, run, own)
  {
    hide Takes, Good, Repairable;
    GoodIsNotRepairable(w.attempt(k));
    TakesNow(spec, used, w, k, 0);
    forall n: nat | Takes(spec, used, w, k, n) ensures n == 0 {
      TakesNow(spec, used, w, k, n);
    }
  }

  lemma TakenLater(spec: TaskSpec, used: nat, w: World, k: nat, next: ExecutionState, run: Run)
    requires Repairable(w.attempt(k)) && CanAttemptRepair(spec.repairAttemptLimit, used)
    requires Gated(spec, used + 1, w, k + 1, run, 1)
    ensures Gated(spec, used, w, k, run.AfterSaving(next), 0)
  {
    hide Takes, Good, Repairable;
    GoodIsNotRepairable(w.attempt(k));
    if Completed(run) {
      TakesNow(spec, used, w, k, run.calls - 1);
    }
    forall n: nat | Takes(spec, used, w, k, n) ensures n > 0 && Takes(spec, used + 1, w, k + 1, n - 1) {
      TakesNow(spec, used, w, k, n);
    }
  }

  lemma {:induction false} ImplementGate(spec: TaskSpec, task: SpecTask, st: ExecutionState, w: World, k: nat)
    requires st.status == IMPLEMENTING
    ensures Gated(spec, st.repairAttempts, w, k, Implement(spec, task, st, w, k), 1)
    decreases RemainingRepairs(spec.repairAttemptLimit, st.repairAttempts), 2
  {
    hide Takes, AllPass, BreaksPlainly, AfterCodex, ApplyTransition;
    var a := w.attempt(k);
    if a.before.Irregular? || a.before != a.afterCodex || a.codex.Raised? {
      NotTaken(spec, st.repairAttempts, w, k, Implement(spec, task, st, w, k), 1);
    } else {
      AfterCodexGate(spec, task, st, w, k);
    }
  }

  lemma {:induction false} AfterCodexGate(spec: TaskSpec, task: SpecTask, st: ExecutionState, w: World, k: nat)
    requires st.status == IMPLEMENTING
    requires var a := w.attempt(k); !a.before.Irregular? && a.before == a.afterCodex && a.codex.Exited?
    ensures Gated(spec, st.repairAttempts, w, k, AfterCodex(spec, task, st, w, k), 0)
    decreases RemainingRepairs(spec.repairAttemptLimit, st.repairAttempts), 1
  {
    hide Takes, AllPass, BreaksPlainly, ValidateAndMaybeRepair;
    if Calm(w.attempt(k)) {
      var next := ApplyTransition(st, VALIDATING, Changes(currentTask := Some(task.id))).value;
      ValidateGate(spec, task, next, w, k);
    } else {
      NotTaken(spec, st.repairAttempts, w, k, AfterCodex(spec, task, st, w, k), 0);
    }
  }

  lemma {:induction false} ValidateGate(spec: TaskSpec, task: SpecTask, st: ExecutionState, w: World, k: nat)
    requires st.status == VALIDATING && Calm(w.attempt(k))
    ensures Gated(spec, st.repairAttempts, w, k, ValidateAndMaybeRepair(spec, task, st, w, k), 0)
    decreases RemainingRepairs(spec.repairAttemptLimit, st.repairAttempts), 0
  {
    var checks := w.attempt(k).checks;
    ChecksExactly(checks);
    hide Takes, BreaksPlainly, Records, FirstFailed, ClassifyOutput, Implement, Gated, Calm;
    var run := ValidateAndMaybeRepair(spec, task, st, w, k);
    if AllPass(checks) {
      TakenNow(spec, st.repairAttempts, w, k, run, 0);
    } else if BreaksPlainly(checks) && CanAttemptRepair(spec.repairAttemptLimit, st.repairAttempts) {
      var failed := FirstFailed(Records(checks).value).value;
      var next := ApplyTransition(st, IMPLEMENTING,
                    Changes(Some(task.id), None, Some(st.repairAttempts + 1), Some(failed.command), Some(false))).value;
      ImplementGate(spec, task, next, w, k + 1);
      TakenLater(spec, st.repairAttempts, w, k, next, Implement(spec, task, next, w, k + 1));
    } else {
      NotTaken(spec, st.repairAttempts, w, k, run, 0);
    }
  }

  /** A task that is being implemented is completed exactly when, after some number of attempts that
      fail plainly and within the repair budget, an attempt leaves the state file alone, stays in
      scope and passes every validation command; and Codex was called just that often. */
  lemma CompletedExactly(spec: TaskSpec, task: SpecTask, st: ExecutionState, w: World, k: nat)
    requires st.status == IMPLEMENTING
    ensures var run := Implement(spec, task, st, w, k);
            && (Completed(run) <==> exists n: nat :: Takes(spec, st.repairAttempts, w, k, n))
            && (Completed(run) ==> run.calls > 0 && Takes(spec, st.repairAttempts, w, k, run.calls - 1))
  {
    ImplementGate(spec, task, st, w, k);
    hide Takes, Implement;
  }

  /** One good attempt for each entry, in order, among the `calls` attempts from `k` on. */
  predicate Evidence(w: World, k: nat, calls: nat, when: seq<nat>) {
    && (forall i :: 0 <= i < |when| ==> k <= when[i] < k + calls && Good(w.attempt(when[i])))
    && (forall i, j :: 0 <= i < j < |when| ==> when[i] < when[j])
  }

  lemma EvidenceFirst(w: World, k: nat, calls: nat, more: nat, rest: seq<nat>)
    requires calls > 0 && Good(w.attempt(k + calls - 1)) && Evidence(w, k + calls, more, rest)
    ensures Evidence(w, k, calls + more, [k + calls - 1] + rest)
  {
    hide Good;
  }

  /** What a round shows: the state file was regular; a completed task had its good attempt; a pass
      had all final checks pass. */
  lemma RoundGate(spec: TaskSpec, requireClean: bool, st: ExecutionState, w: World, c: nat, k: nat)
    requires spec.tasks != []
    ensures var run := RunTaskCycle(spec, requireClean, st, w, c, k);
            && (Completed(run) ==>
                  run.calls > 0 && Good(w.attempt(k + run.calls - 1)) && !w.round(c).stateFile.Irregular?)
            && (run.result.Ok? && run.result.value.outcome == FinalVerificationPassed ==>
                  AllPass(w.round(c).finalChecks) && !w.round(c).stateFile.Irregular? && run.calls == 0)
  {
    hide Implement, NextTask, Good, FinalVerify;
    FinalGate(st, w.round(c).finalChecks);
    var selected := NextTask(spec.tasks, st.completedTasks, st.currentTask);
    if selected.Ok? && selected.value.Some? && EnterImplementing(st, selected.value.value).Ok? {
      var next := EnterImplementing(st, selected.value.value).value;
      EnteredGate(spec, selected.value.value, next, w, k);
    }
  }

  lemma EnteredGate(spec: TaskSpec, task: SpecTask, next: ExecutionState, w: World, k: nat)
    requires next.status == IMPLEMENTING
    ensures var run := Implement(spec, task, next, w, k).AfterSaving(next);
            && (Completed(run) ==> run.calls > 0 && Good(w.attempt(k + run.calls - 1)))
            && (run.result.Ok? ==> run.result.value.outcome != FinalVerificationPassed)
  {
    ImplementGate(spec, task, next, w, k);
    hide Implement, Good;
  }

  /** Final verification passes exactly when the state allows it and every final check passes. */
  lemma FinalGate(st: ExecutionState, checks: seq<CommandRun>)
    ensures var run := FinalVerify(st, checks);
            && !Completed(run) && run.calls == 0
            && (run.result.Ok? && run.result.value.outcome == FinalVerificationPassed <==>
                (st.status == TASK_COMPLETED || st.status == FINAL_VALIDATING) && AllPass(checks))
  {
    ChecksExactly(checks);
    hide Records, FirstFailed, ClassifyOutput, BreaksPlainly;
  }

  lemma AllDoneNoneOpen(spec: TaskSpec, st: ExecutionState)
    requires Wellformed(spec) && Safe(spec, st) && AllDone(spec.tasks, st.completedTasks)
    ensures Open(spec, st) == 0
  {
    OpenBounds(spec, st);
    var done := set x | x in st.completedTasks;
    DistinctBound(Ids(spec.tasks), done);
    SetOfSeqBound(st.completedTasks);
  }

  /** A passing run of the remaining rounds: a good attempt for every open task, then a final
      verification whose checks all pass; the state file stayed regular throughout. */
  lemma {:induction false} RoundsGate(spec: TaskSpec, requireClean: bool, st: ExecutionState, w: World, c: nat,
      k: nat, bound: nat)
    returns (when: seq<nat>)
    requires Wellformed(spec) && Startable(spec, st) && spec.tasks != []
    requires var run := Rounds(spec, requireClean, st, w, c, k, bound);
             run.result.Ok? && run.result.value.outcome == FinalVerificationPassed
    ensures |when| == Open(spec, st)
    ensures Evidence(w, k, Rounds(spec, requireClean, st, w, c, k, bound).calls, when)
    ensures AllPass(w.round(c + |when|).finalChecks)
    ensures forall r :: c <= r <= c + |when| ==> !w.round(r).stateFile.Irregular?
    decreases bound
  {
    hide *;
    PassedHasRoom(spec, requireClean, st, w, c, k, bound);
    RoundKeeps(spec, requireClean, st, w, c, k);
    RoundGate(spec, requireClean, st, w, c, k);
    RoundsUnfold(spec, requireClean, st, w, c, k, bound);
    var run := RunTaskCycle(spec, requireClean, st, w, c, k);
    if run.result.Ok? && run.result.value.outcome == TaskCompleted {
      var next := run.result.value.state;
      NextStart(spec, st, run);
      ThenMeans(run, Rounds(spec, requireClean, next, w, c + 1, k + run.calls, bound - 1));
      var rest := RoundsGate(spec, requireClean, next, w, c + 1, k + run.calls, bound - 1);
      var more := Rounds(spec, requireClean, next, w, c + 1, k + run.calls, bound - 1).calls;
      CompletedMeans(run);
      EvidenceFirst(w, k, run.calls, more, rest);
      when := [k + run.calls - 1] + rest;
    } else {
      PassedNoneOpen(spec, st, run);
      when := [];
      NoEvidence(w, k, run.calls);
    }
  }

  lemma PassedHasRoom(spec: TaskSpec, requireClean: bool, st: ExecutionState, w: World, c: nat, k: nat, bound: nat)
    requires spec.tasks != [] && Rounds(spec, requireClean, st, w, c, k, bound).result.Ok?
    ensures bound > 0
  {
    hide RunTaskCycle;
  }

  lemma ThenMeans(first: Run, second: Run)
    ensures Then(first, second).result == second.result && Then(first, second).calls == first.calls + second.calls
  {
  }

  lemma NoEvidence(w: World, k: nat, calls: nat)
    ensures Evidence(w, k, calls, [])
  {
  }

  lemma CompletedMeans(run: Run)
    ensures Completed(run) <==> run.result.Ok? && run.result.value.outcome == TaskCompleted
  {
  }

  lemma PassedNoneOpen(spec: TaskSpec, st: ExecutionState, run: Run)
    requires Wellformed(spec) && Startable(spec, st) && RoundSound(spec, st, run)
    requires run.result.Ok? && run.result.value.outcome == FinalVerificationPassed
    ensures Open(spec, st) == 0
  {
    AllDoneNoneOpen(spec, run.result.value.state);
  }

  /** FINAL_VERIFICATION_PASSED of a fresh work unit is earned: for every task of the spec there was
      an attempt, later than the one for the task before, that stayed in scope, left the state file
      alone and passed all its validation commands, and after them every final check passed. */
  lemma PassIsEarned(spec: TaskSpec, requireClean: bool, w: World) returns (when: seq<nat>)
    requires Wellformed(spec)
    requires var run := RunAll(spec, requireClean, NewExecutionState(spec), w);
             run.result.Ok? && run.result.value.outcome == FinalVerificationPassed
    ensures |when| == |spec.tasks|
    ensures Evidence(w, 0, RunAll(spec, requireClean, NewExecutionState(spec), w).calls, when)
    ensures AllPass(w.round(|spec.tasks|).finalChecks)
    ensures forall r :: 0 <= r <= |spec.tasks| ==> !w.round(r).stateFile.Irregular?
  {
    FreshIsStartable(spec);
    hide Rounds, Startable, Evidence, AllPass;
    when := RoundsGate(spec, requireClean, NewExecutionState(spec), w, 0, 0, |spec.tasks| + 2);
  }

  /** What a work unit with `left` open tasks needs from round `c` and attempt `k` on: a regular state
      file in every round; for each task, after repairs that the remaining budget allows, a good
      attempt; and in the end final checks that all pass.  `guarded` asks for a clean tree first. */
  ghost predicate Earns(spec: TaskSpec, guarded: bool, left: nat, used: nat, w: World, c: nat, k: nat)
    decreases left
  {
    && !w.round(c).stateFile.Irregular?
    && (if left == 0 then AllPass(w.round(c).finalChecks)
        else && !(guarded && w.round(c).dirty)
             && exists n: nat :: Takes(spec, used, w, k, n) &&
                 Earns(spec, false, left - 1, used + n, w, c + 1, k + n + 1))
  }

  predicate Passed(run: Run) {
    run.result.Ok? && run.result.value.outcome == FinalVerificationPassed
  }

  /** A round with an open task completes one exactly when its guard lets it start and the attempts
      lead to a good one; a round without passes exactly when the final checks do. */
  lemma RoundExactly(spec: TaskSpec, requireClean: bool, st: ExecutionState, w: World, c: nat, k: nat)
    requires Wellformed(spec) && Startable(spec, st) && spec.tasks != []
    ensures var run := RunTaskCycle(spec, requireClean, st, w, c, k);
            var guarded := requireClean && st.completedTasks == [];
            && (AllDone(spec.tasks, st.completedTasks) ==>
                  && !Completed(run)
                  && (Passed(run) <==> !w.round(c).stateFile.Irregular? && AllPass(w.round(c).finalChecks)))
            && (!AllDone(spec.tasks, st.completedTasks) ==>
                  && !Passed(run)
                  && (!w.round(c).stateFile.Irregular? && !(guarded && w.round(c).dirty) ==>
                        forall n: nat :: Takes(spec, st.repairAttempts, w, k, n) ==>
                            Completed(run) && run.calls == n + 1)
                  && (Completed(run) ==>
                        && !w.round(c).stateFile.Irregular? && !(guarded && w.round(c).dirty)
                        && run.calls > 0 && Takes(spec, st.repairAttempts, w, k, run.calls - 1)))
  {
    FinalGate(st, w.round(c).finalChecks);
    SelectorNeverBlocks(spec.tasks, st.completedTasks, st.currentTask);
    if AllDone(spec.tasks, st.completedTasks) {
      DoneAtCheckpoint(spec, st);
      hide NextTask, Implement, FinalVerify, Safe, AllDone, Accepted, AllPass;
    } else {
      var task := NextTask(spec.tasks, st.completedTasks, st.currentTask).value.value;
      EnteredExactly(spec, task, st, w, k);
      hide NextTask, Implement, FinalVerify, Safe, AllDone, Accepted, AllPass, EnterImplementing, Takes;
    }
  }

  lemma EnteredExactly(spec: TaskSpec, task: SpecTask, st: ExecutionState, w: World, k: nat)
    requires Wellformed(spec) && Startable(spec, st)
    requires task in spec.tasks && task.id !in st.completedTasks && Ready(task, st.completedTasks)
    ensures EnterImplementing(st, task).Ok?
    ensures var next := EnterImplementing(st, task).value;
            Gated(spec, st.repairAttempts, w, k, Implement(spec, task, next, w, k).AfterSaving(next), 1)
  {
    ImplementRound(spec, task, st, w, k);
    var next := EnterImplementing(st, task).value;
    SelectedMayStart(spec, task, st, next);
    assert next.status == IMPLEMENTING && next.repairAttempts == st.repairAttempts;
    hide *;
    ImplementGate(spec, task, next, w, k);
    GatedSaving(spec, st.repairAttempts, w, k, Implement(spec, task, next, w, k), next);
  }

  lemma GatedSaving(spec: TaskSpec, used: nat, w: World, k: nat, run: Run, next: ExecutionState)
    requires Gated(spec, used, w, k, run, 1)
    ensures Gated(spec, used, w, k, run.AfterSaving(next), 1)
  {
    hide Takes;
  }

  /** After a completed task the guard is gone and its repairs are used. */
  lemma AfterCompleted(spec: TaskSpec, st: ExecutionState, run: Run)
    requires RoundSound(spec, st, run) && Completed(run)
    ensures run.calls > 0 && run.result.value.state.repairAttempts == st.repairAttempts + run.calls - 1
    ensures run.result.value.state.completedTasks != [] && !AllDone(spec.tasks, st.completedTasks)
  {
    hide Trail, Safe, AllDone;
  }

  lemma EarnsUnfold(spec: TaskSpec, guarded: bool, left: nat, used: nat, w: World, c: nat, k: nat)
    ensures Earns(spec, guarded, left, used, w, c, k) <==>
              (&& !w.round(c).stateFile.Irregular?
               && (if left == 0 then AllPass(w.round(c).finalChecks)
                   else && !(guarded && w.round(c).dirty)
                        && exists n: nat :: Takes(spec, used, w, k, n) &&
                            Earns(spec, false, left - 1, used + n, w, c + 1, k + n + 1)))
  {
    hide Takes, AllPass;
  }

  /** The remaining rounds pass exactly when the world earns it. */
  lemma {:induction false} RoundsExactly(spec: TaskSpec, requireClean: bool, st: ExecutionState, w: World, c: nat,
      k: nat, bound: nat)
    requires Wellformed(spec) && Startable(spec, st) && spec.tasks != [] && bound > Open(spec, st) >= 0
    ensures Passed(Rounds(spec, requireClean, st, w, c, k, bound)) <==>
            Earns(spec, requireClean && st.completedTasks == [], Open(spec, st), st.repairAttempts, w, c, k)
    decreases bound
  {
    hide *;
    StartableBounds(spec, st);
    RoundsUnfold(spec, requireClean, st, w, c, k, bound);
    RoundExactly(spec, requireClean, st, w, c, k);
    RoundKeeps(spec, requireClean, st, w, c, k);
    var run := RunTaskCycle(spec, requireClean, st, w, c, k);
    CompletedMeans(run);
    PassedMeans(run);
    EarnsUnfold(spec, requireClean && st.completedTasks == [], Open(spec, st), st.repairAttempts, w, c, k);
    if Completed(run) {
      var next := run.result.value.state;
      AfterCompleted(spec, st, run);
      NextStart(spec, st, run);
      var rest := Rounds(spec, requireClean, next, w, c + 1, k + run.calls, bound - 1);
      ThenMeans(run, rest);
      PassedMeans(rest);
      PassedMeans(Then(run, rest));
      StartableBounds(spec, next);
      RoundsExactly(spec, requireClean, next, w, c + 1, k + run.calls, bound - 1);
    }
  }

  lemma PassedMeans(run: Run)
    ensures Passed(run) <==> run.result.Ok? && run.result.value.outcome == FinalVerificationPassed
  {
  }

  lemma StartableBounds(spec: TaskSpec, st: ExecutionState)
    requires Wellformed(spec) && Startable(spec, st)
    ensures Open(spec, st) >= 0 && (Open(spec, st) == 0 <==> AllDone(spec.tasks, st.completedTasks))
  {
    OpenBounds(spec, st);
    if AllDone(spec.tasks, st.completedTasks) {
      AllDoneNoneOpen(spec, st);
    }
  }

  /** Exactly when a fresh work unit ends in FINAL_VERIFICATION_PASSED. */
  lemma PassExactly(spec: TaskSpec, requireClean: bool, w: World)
    requires Wellformed(spec)
    ensures Passed(RunAll(spec, requireClean, NewExecutionState(spec), w)) <==>
            Earns(spec, requireClean, |spec.tasks|, 0, w, 0, 0)
  {
    hide *;
    FreshRounds(spec, requireClean, w);
    RoundsExactly(spec, requireClean, NewExecutionState(spec), w, 0, 0, |spec.tasks| + 2);
  }
}
