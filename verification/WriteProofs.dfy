/** What a task cycle writes to the state file, write by write, told from what it observes
    (agent/cycle.py). */
module WriteProofs {
  import opened Prelude
  import opened TaskGraph
  import opened Spec
  import opened State
  import opened Validation
  import opened Cycle
  import opened GateProofs
  import opened TamperProofs
  import opened VerdictProofs

  /** What a write says about the run: how far it is and what it has used of the budget. */
  datatype Mark = Mark(status: ExecutionStatus, repairs: nat)

  function Marks(saved: seq<ExecutionState>): (r: seq<Mark>)
    ensures |r| == |saved|
    ensures forall i :: 0 <= i < |saved| ==> r[i] == Mark(saved[i].status, saved[i].repairAttempts)
  {
    seq(|saved|, i requires 0 <= i < |saved| => Mark(saved[i].status, saved[i].repairAttempts))
  }

  /** `n` repairs: each is counted before Codex is called for it. */
  function RepairMarks(used: nat, n: nat): seq<Mark>
    decreases n
  {
    if n == 0 then [] else [Mark(VALIDATING, used), Mark(IMPLEMENTING, used + 1)] + RepairMarks(used + 1, n - 1)
  }

  /** The writes of the attempt that decides. */
  function LastMarks(a: Attempt, used: nat): seq<Mark> {
    if Touched(a) || a.codex.Raised? then []
    else if OutOfScope(a) then [Mark(SCOPE_VIOLATION, used)]
    else if EmptyHanded(a) then [Mark(if a.codexOutput.environmentPhrase then FAILED else ESCALATED, used)]
    else if NoVerdict(a.checks) then [Mark(VALIDATING, used)]
    else if AllPass(a.checks) then [Mark(VALIDATING, used), Mark(TASK_COMPLETED, used)]
    else if BreaksByOutage(a.checks) then [Mark(VALIDATING, used), Mark(FAILED, used)]
    else [Mark(VALIDATING, used), Mark(ESCALATED, used)]
  }

  /** All writes of a task, and the answer is the last of them unless the state file was touched. */
  ghost predicate Wrote(spec: TaskSpec, used: nat, w: World, k: nat, first: seq<Mark>, run: Run) {
    var n := Repaired(spec, used, w, k);
    && first + Marks(run.saved) == RepairMarks(used, n) + LastMarks(w.attempt(k + n), used + n)
    && (run.result.Ok? && !Touched(w.attempt(k + n)) ==>
          run.saved != [] && run.saved[|run.saved| - 1] == run.result.value.state)
  }

  lemma MarksMore(next: ExecutionState, saved: seq<ExecutionState>)
    ensures Marks([next] + saved) == [Mark(next.status, next.repairAttempts)] + Marks(saved)
  {
  }

  /** The first attempt decides. */
  lemma WroteNow(spec: TaskSpec, used: nat, w: World, k: nat, first: seq<Mark>, run: Run)
    requires !(Repairable(w.attempt(k)) && CanAttemptRepair(spec.repairAttemptLimit, used))
    requires first + Marks(run.saved) == LastMarks(w.attempt(k), used)
    requires run.result.Ok? && !Touched(w.attempt(k)) ==>
               run.saved != [] && run.saved[|run.saved| - 1] == run.result.value.state
    ensures Wrote(spec, used, w, k, first, run)
  {
    hide Repairable, Touched, LastMarks, Marks;
    assert RepairMarks(used, 0) + LastMarks(w.attempt(k), used) == LastMarks(w.attempt(k), used);
  }

  lemma WroteCalling(spec: TaskSpec, used: nat, w: World, k: nat, first: seq<Mark>, run: Run)
    requires Wrote(spec, used, w, k, first, run)
    ensures Wrote(spec, used, w, k, first, run.AfterCall())
  {
    hide Repaired, Touched, LastMarks, Marks, RepairMarks;
  }

  /** The state that is saved on the way into validation. */
  lemma WroteValidating(spec: TaskSpec, w: World, k: nat, next: ExecutionState, run: Run)
    requires next.status == VALIDATING
    requires Wrote(spec, next.repairAttempts, w, k, [Mark(VALIDATING, next.repairAttempts)], run)
    requires run.result.Ok? ==> run.saved != [] || Touched(w.attempt(k + Repaired(spec, next.repairAttempts, w, k)))
    ensures Wrote(spec, next.repairAttempts, w, k, [], run.AfterSaving(next))
  {
    MarksMore(next, run.saved);
    hide Repaired, Touched, LastMarks, Marks, RepairMarks;
    assert [] + Marks([next] + run.saved) == Marks([next] + run.saved);
  }

  /** A repair, and what comes after it. */
  lemma WroteRepair(spec: TaskSpec, used: nat, w: World, k: nat, next: ExecutionState, run: Run)
    requires Repairable(w.attempt(k)) && CanAttemptRepair(spec.repairAttemptLimit, used)
    requires next.status == IMPLEMENTING && next.repairAttempts == used + 1
    requires Wrote(spec, used + 1, w, k + 1, [], run)
    ensures Wrote(spec, used, w, k, [Mark(VALIDATING, used)], run.AfterSaving(next))
  {
    hide *;
    OneRepairMore(spec, used, w, k);
    WroteThen(spec, used + 1, w, k + 1, run);
    var n := Repaired(spec, used + 1, w, k + 1);
    MarksMore(next, run.saved);
    OneMoreRepair(used, n, Marks(run.saved), LastMarks(w.attempt(k + 1 + n), used + 1 + n));
    WroteIs(spec, used, w, k, n + 1, [Mark(VALIDATING, used)], next, run);
  }

  lemma OneRepairMore(spec: TaskSpec, used: nat, w: World, k: nat)
    requires Repairable(w.attempt(k)) && CanAttemptRepair(spec.repairAttemptLimit, used)
    ensures Repaired(spec, used, w, k) == Repaired(spec, used + 1, w, k + 1) + 1
  {
    hide Repairable;
  }

  lemma WroteThen(spec: TaskSpec, used: nat, w: World, k: nat, run: Run)
    requires Wrote(spec, used, w, k, [], run)
    ensures var n := Repaired(spec, used, w, k);
            && [] + Marks(run.saved) == RepairMarks(used, n) + LastMarks(w.attempt(k + n), used + n)
            && (run.result.Ok? && !Touched(w.attempt(k + n)) ==>
                  run.saved != [] && run.saved[|run.saved| - 1] == run.result.value.state)
  {
    hide Repaired, Touched, LastMarks, Marks, RepairMarks;
  }

  lemma WroteIs(spec: TaskSpec, used: nat, w: World, k: nat, n: nat, first: seq<Mark>, next: ExecutionState, run: Run)
    requires Repaired(spec, used, w, k) == n
    requires first + Marks([next] + run.saved) == RepairMarks(used, n) + LastMarks(w.attempt(k + n), used + n)
    requires run.result.Ok? && !Touched(w.attempt(k + n)) ==>
               run.saved != [] && run.saved[|run.saved| - 1] == run.result.value.state
    ensures Wrote(spec, used, w, k, first, run.AfterSaving(next))
  {
    hide Repaired, Touched, LastMarks, Marks, RepairMarks;
    assert run.AfterSaving(next).saved == [next] + run.saved;
  }

  lemma OneMoreRepair(used: nat, n: nat, marks: seq<Mark>, last: seq<Mark>)
    requires [] + marks == RepairMarks(used + 1, n) + last
    ensures [Mark(VALIDATING, used)] + ([Mark(IMPLEMENTING, used + 1)] + marks) == RepairMarks(used, n + 1) + last
  {
    assert marks == RepairMarks(used + 1, n) + last;
    assert RepairMarks(used, n + 1) ==
        [Mark(VALIDATING, used), Mark(IMPLEMENTING, used + 1)] + RepairMarks(used + 1, n);
  }

  lemma TouchedWrites(spec: TaskSpec, task: SpecTask, st: ExecutionState, w: World, k: nat)
    requires Touched(w.attempt(k))
    ensures Wrote(spec, st.repairAttempts, w, k, [], TamperedResult(task, st))
  {
    var a := w.attempt(k);
    AttemptKinds(a);
    TouchedPlain(a);
    hide Touched, Calm, BreaksByOutage, BreaksForHuman, AllPass, NoVerdict, BreaksPlainly, Repairable;
    WroteNow(spec, st.repairAttempts, w, k, [], TamperedResult(task, st));
  }

  lemma TouchedPlain(a: Attempt)
    requires Touched(a)
    ensures !Repairable(a)
  {
  }

  lemma {:induction false} ImplementWrites(spec: TaskSpec, task: SpecTask, st: ExecutionState, w: World, k: nat)
    requires st.status == IMPLEMENTING
    ensures Wrote(spec, st.repairAttempts, w, k, [], Implement(spec, task, st, w, k))
    decreases RemainingRepairs(spec.repairAttemptLimit, st.repairAttempts), 2
  {
    var a := w.attempt(k);
    var run := Implement(spec, task, st, w, k);
    hide Wrote, Calm, BreaksByOutage, BreaksForHuman, AllPass, NoVerdict, BreaksPlainly, AfterCodex, ApplyTransition,
        TamperedResult, LastMarks, Marks;
    if a.before.Irregular? {
      TouchedWrites(spec, task, st, w, k);
    } else if a.before != a.afterCodex {
      TouchedWrites(spec, task, st, w, k);
      WroteCalling(spec, st.repairAttempts, w, k, [], TamperedResult(task, st));
    } else if a.codex.Raised? {
      RaisedIsInterrupted(a);
      RaisedWrites(spec, st.repairAttempts, w, k, run);
    } else {
      AfterCodexWrites(spec, task, st, w, k);
      WroteCalling(spec, st.repairAttempts, w, k, [], AfterCodex(spec, task, st, w, k));
    }
  }

  lemma RaisedWrites(spec: TaskSpec, used: nat, w: World, k: nat, run: Run)
    requires w.attempt(k).codex.Raised? && run.saved == [] && run.result.Err? && !Repairable(w.attempt(k))
    ensures Wrote(spec, used, w, k, [], run)
  {
    hide Repairable, Touched;
    assert [] + Marks(run.saved) == LastMarks(w.attempt(k), used);
    WroteNow(spec, used, w, k, [], run);
  }

  lemma {:induction false} AfterCodexWrites(spec: TaskSpec, task: SpecTask, st: ExecutionState, w: World, k: nat)
    requires st.status == IMPLEMENTING
    requires var a := w.attempt(k); !a.before.Irregular? && a.before == a.afterCodex && a.codex.Exited?
    ensures Wrote(spec, st.repairAttempts, w, k, [], AfterCodex(spec, task, st, w, k))
    decreases RemainingRepairs(spec.repairAttemptLimit, st.repairAttempts), 1
  {
    var a := w.attempt(k);
    var run := AfterCodex(spec, task, st, w, k);
    AttemptKinds(a);
    if a.before != a.atScope {
      hide Wrote, AfterCodex, LastMarks, Marks;
      TouchedWrites(spec, task, st, w, k);
    } else if Calm(a) {
      hide Wrote, LastMarks, Marks, BreaksByOutage, BreaksForHuman, AllPass, NoVerdict, BreaksPlainly,
          ValidateAndMaybeRepair;
      var next := ApplyTransition(st, VALIDATING, Changes(currentTask := Some(task.id))).value;
      ValidateWrites(spec, task, next, w, k);
      WroteValidating(spec, w, k, next, ValidateAndMaybeRepair(spec, task, next, w, k));
    } else {
      hide Wrote, BreaksByOutage, BreaksForHuman, AllPass, NoVerdict, BreaksPlainly, ValidateAndMaybeRepair,
          RepairMarks;
      assert Marks(run.saved) == LastMarks(a, st.repairAttempts);
      assert [] + Marks(run.saved) == Marks(run.saved);
      WroteNow(spec, st.repairAttempts, w, k, [], run);
    }
  }

  lemma {:induction false} ValidateWrites(spec: TaskSpec, task: SpecTask, st: ExecutionState, w: World, k: nat)
    requires st.status == VALIDATING && Calm(w.attempt(k))
    ensures Wrote(spec, st.repairAttempts, w, k, [Mark(VALIDATING, st.repairAttempts)],
                  ValidateAndMaybeRepair(spec, task, st, w, k))
    ensures ValidateAndMaybeRepair(spec, task, st, w, k).result.Ok? ==>
        ValidateAndMaybeRepair(spec, task, st, w, k).saved != []
    decreases RemainingRepairs(spec.repairAttemptLimit, st.repairAttempts), 0
  {
    var a := w.attempt(k);
    var run := ValidateAndMaybeRepair(spec, task, st, w, k);
    hide *;
    if Repairable(a) && CanAttemptRepair(spec.repairAttemptLimit, st.repairAttempts) {
      RepairStep(spec, task, st, w, k);
      var next := RepairState(task, st, a);
      BudgetFalls(spec, st.repairAttempts);
      ImplementWrites(spec, task, next, w, k + 1);
      WroteRepair(spec, st.repairAttempts, w, k, next, Implement(spec, task, next, w, k + 1));
      SavedSomething(next, Implement(spec, task, next, w, k + 1));
    } else {
      LastValidationWrites(spec, task, st, w, k);
      WroteNow(spec, st.repairAttempts, w, k, [Mark(VALIDATING, st.repairAttempts)], run);
    }
  }

  lemma SavedSomething(next: ExecutionState, run: Run)
    ensures run.AfterSaving(next).saved != []
  {
  }

  /** Validation that leads to no repair writes its answer, if it has one. */
  ghost predicate Closes(a: Attempt, used: nat, run: Run) {
    var checked := RunValidation(a.checks);
    if checked.Err? then run.saved == [] && run.result.Err?
    else
      && run.result.Ok? && run.saved == [run.result.value.state] && run.result.value.state.repairAttempts == used
      && run.result.value.state.status ==
           var failed := FirstFailed(checked.value);
           if failed.None? then TASK_COMPLETED
           else if ClassifyValidation(failed.value) == Some(EnvFailure) then FAILED
           else ESCALATED
  }

  lemma ValidationCloses(spec: TaskSpec, task: SpecTask, st: ExecutionState, w: World, k: nat)
    requires st.status == VALIDATING && Calm(w.attempt(k))
    requires !(Repairable(w.attempt(k)) && CanAttemptRepair(spec.repairAttemptLimit, st.repairAttempts))
    ensures Closes(w.attempt(k), st.repairAttempts, ValidateAndMaybeRepair(spec, task, st, w, k))
  {
    var a := w.attempt(k);
    hide RunValidation, Records, FirstFailed, ClassifyValidation, Implement, ClassifyOutput, Repairable, Calm;
    SpentWhenPlain(a);
    if RunValidation(a.checks).Ok? {
      SomeRecords(a.checks);
    }
    var failed := if RunValidation(a.checks).Ok? then FirstFailed(RunValidation(a.checks).value) else None;
    if failed.Some? {
      FailedHasClass(a.checks);
    }
  }

  lemma CalmMarks(a: Attempt, used: nat)
    requires Calm(a)
    ensures LastMarks(a, used) ==
              if NoVerdict(a.checks) then [Mark(VALIDATING, used)]
              else [Mark(VALIDATING, used),
                    Mark(if AllPass(a.checks) then TASK_COMPLETED
                         else if BreaksByOutage(a.checks) then FAILED else ESCALATED, used)]
  {
    AttemptKinds(a);
    hide NoVerdict, AllPass, BreaksByOutage, BreaksForHuman, BreaksPlainly;
  }

  lemma ClosingMarks(a: Attempt, used: nat, run: Run)
    requires Calm(a) && Closes(a, used, run)
    ensures [Mark(VALIDATING, used)] + Marks(run.saved) == LastMarks(a, used)
    ensures run.result.Ok? ==> run.saved != [] && run.saved[|run.saved| - 1] == run.result.value.state
  {
    CalmMarks(a, used);
    ChecksAnswer(a.checks);
    hide NoVerdict, AllPass, BreaksByOutage, BreaksForHuman, BreaksForRepair, LastMarks, RunValidation, FirstFailed,
        ClassifyValidation, Calm;
  }

  lemma LastValidationWrites(spec: TaskSpec, task: SpecTask, st: ExecutionState, w: World, k: nat)
    requires st.status == VALIDATING && Calm(w.attempt(k))
    requires !(Repairable(w.attempt(k)) && CanAttemptRepair(spec.repairAttemptLimit, st.repairAttempts))
    ensures var run := ValidateAndMaybeRepair(spec, task, st, w, k);
            && [Mark(VALIDATING, st.repairAttempts)] + Marks(run.saved) == LastMarks(w.attempt(k), st.repairAttempts)
            && (run.result.Ok? ==> run.saved != [] && run.saved[|run.saved| - 1] == run.result.value.state)
  {
    hide *;
    ValidationCloses(spec, task, st, w, k);
    ClosingMarks(w.attempt(k), st.repairAttempts, ValidateAndMaybeRepair(spec, task, st, w, k));
  }

  /** Everything a task writes while it is implemented: for each repaired attempt that it is being
      validated and, one repair more counted before Codex is called again, implemented; then what the
      deciding attempt comes to, which is the state in the answer. */
  lemma WritesExactly(spec: TaskSpec, task: SpecTask, st: ExecutionState, w: World, k: nat)
    requires st.status == IMPLEMENTING
    ensures var run := Implement(spec, task, st, w, k);
            var n := Repaired(spec, st.repairAttempts, w, k);
            var a := w.attempt(k + n);
            && Marks(run.saved) == RepairMarks(st.repairAttempts, n) + LastMarks(a, st.repairAttempts + n)
            && (run.result.Ok? && !Touched(a) ==>
                  run.saved != [] && run.saved[|run.saved| - 1] == run.result.value.state)
  {
    hide *;
    ImplementWrites(spec, task, st, w, k);
    WroteMeans(spec, st.repairAttempts, w, k, Implement(spec, task, st, w, k));
  }

  lemma WroteMeans(spec: TaskSpec, used: nat, w: World, k: nat, run: Run)
    requires Wrote(spec, used, w, k, [], run)
    ensures var n := Repaired(spec, used, w, k);
            var a := w.attempt(k + n);
            && Marks(run.saved) == RepairMarks(used, n) + LastMarks(a, used + n)
            && (run.result.Ok? && !Touched(a) ==>
                  run.saved != [] && run.saved[|run.saved| - 1] == run.result.value.state)
  {
    hide Marks, RepairMarks, LastMarks, Repaired, Touched;
    NothingFirst(Marks(run.saved));
  }

  lemma NothingFirst(marks: seq<Mark>)
    ensures [] + marks == marks
  {
  }

  /** Final verification writes that it starts, and its answer, if it has one. */
  ghost predicate FinalCloses(st: ExecutionState, checks: seq<CommandRun>, run: Run) {
    var checked := RunValidation(checks);
    var entered := if st.status == TASK_COMPLETED then [st.(status := FINAL_VALIDATING)] else [];
    if checked.Err? then run.saved == entered && run.result.Err?
    else
      && run.result.Ok? && run.saved == entered + [run.result.value.state]
      && run.result.value.state.repairAttempts == st.repairAttempts
      && run.result.value.state.status ==
           var failed := FirstFailed(checked.value);
           if failed.None? then FINAL_VALIDATING
           else if ClassifyValidation(failed.value) == Some(EnvFailure) then FAILED
           else ESCALATED
  }

  lemma FinalVerifyCloses(st: ExecutionState, checks: seq<CommandRun>)
    requires st.status == TASK_COMPLETED || st.status == FINAL_VALIDATING
    ensures FinalCloses(st, checks, FinalVerify(st, checks))
  {
    hide RunValidation, FirstFailed, ClassifyValidation, Records, ClassifyOutput;
    if RunValidation(checks).Ok? && FirstFailed(RunValidation(checks).value).Some? {
      FailedHasClass(checks);
    }
  }

  /** The writes of final verification. */
  function FinalMarks(st: ExecutionState, checks: seq<CommandRun>): seq<Mark> {
    (if st.status == TASK_COMPLETED then [Mark(FINAL_VALIDATING, st.repairAttempts)] else [])
    + (if NoVerdict(checks) then []
       else [Mark(if AllPass(checks) then FINAL_VALIDATING
                  else if BreaksByOutage(checks) then FAILED else ESCALATED, st.repairAttempts)])
  }

  lemma FinalClosingMarks(st: ExecutionState, checks: seq<CommandRun>, run: Run)
    requires FinalCloses(st, checks, run)
    ensures Marks(run.saved) == FinalMarks(st, checks)
    ensures run.result.Ok? ==> run.saved != [] && run.saved[|run.saved| - 1] == run.result.value.state
  {
    ChecksAnswer(checks);
    hide RunValidation, FirstFailed, ClassifyValidation, NoVerdict, AllPass, BreaksByOutage, BreaksForHuman,
        BreaksForRepair;
  }

  /** And everything final verification writes, the answer last. */
  lemma FinalWrites(st: ExecutionState, checks: seq<CommandRun>)
    requires st.status == TASK_COMPLETED || st.status == FINAL_VALIDATING
    ensures var run := FinalVerify(st, checks);
            && Marks(run.saved) == FinalMarks(st, checks)
            && (run.result.Ok? ==> run.saved != [] && run.saved[|run.saved| - 1] == run.result.value.state)
  {
    hide *;
    FinalVerifyCloses(st, checks);
    FinalClosingMarks(st, checks, FinalVerify(st, checks));
  }
}
