/** When a work unit finds its state file tampered with, told from what it observes (agent/cycle.py). */
module TamperProofs {
  import opened Prelude
  import opened TaskGraph
  import opened Spec
  import opened State
  import opened Select
  import opened Validation
  import opened Cycle
  import opened CycleProofs
  import opened WorkUnit
  import opened WorkUnitProofs
  import opened GateProofs

  /** The state file is no regular file before the attempt, or the attempt changes it: while Codex
      runs, or, when Codex returns, before the scope check. */
  predicate Touched(a: Attempt) {
    a.before.Irregular? || a.afterCodex != a.before || (a.codex.Exited? && a.atScope != a.before)
  }

  /** The state file as the attempt last saw it. */
  function LastSeen(a: Attempt): Fingerprint {
    if a.before.Irregular? then a.before else if a.afterCodex != a.before then a.afterCodex else a.atScope
  }

  /** `n` repairs lead from attempt `k` to one that touches the state file. */
  predicate Hits(spec: TaskSpec, used: nat, w: World, k: nat, n: nat) {
    && n <= RemainingRepairs(spec.repairAttemptLimit, used)
    && (forall j :: k <= j < k + n ==> Repairable(w.attempt(j)))
    && Touched(w.attempt(k + n))
  }

  predicate FoundTampered(run: Run) {
    run.result.Ok? && run.result.value.code == Some(Tampered)
  }

  ghost predicate Struck(spec: TaskSpec, used: nat, w: World, k: nat, run: Run) {
    FoundTampered(run) <==> exists n: nat :: Hits(spec, used, w, k, n)
  }

  lemma HitsNow(spec: TaskSpec, used: nat, w: World, k: nat, n: nat)
    ensures Hits(spec, used, w, k, n) ==>
              if n == 0 then Touched(w.attempt(k))
              else Repairable(w.attempt(k)) && CanAttemptRepair(spec.repairAttemptLimit, used)
                   && Hits(spec, used + 1, w, k + 1, n - 1)
    ensures Touched(w.attempt(k)) ==> Hits(spec, used, w, k, 0)
    ensures (Repairable(w.attempt(k)) && CanAttemptRepair(spec.repairAttemptLimit, used)
             && Hits(spec, used + 1, w, k + 1, n)) ==> Hits(spec, used, w, k, n + 1)
  {
    hide Repairable, Touched;
  }

  lemma TouchedIsNotCalm(a: Attempt)
    ensures !(Touched(a) && Calm(a))
  {
  }

  lemma StruckNow(spec: TaskSpec, used: nat, w: World, k: nat, run: Run)
    requires FoundTampered(run) && Touched(w.attempt(k))
    ensures Struck(spec, used, w, k, run)
  {
    HitsNow(spec, used, w, k, 0);
    hide Hits, Touched, FoundTampered;
  }

  /** An attempt that neither touches the file nor is repaired leads to no tampering. */
  lemma NotStruck(spec: TaskSpec, used: nat, w: World, k: nat, run: Run)
    requires !FoundTampered(run) && !Touched(w.attempt(k))
    requires !(Repairable(w.attempt(k)) && CanAttemptRepair(spec.repairAttemptLimit, used))
    ensures Struck(spec, used, w, k, run)
  {
    hide Hits, Touched, FoundTampered, Repairable;
    forall n: nat ensures !Hits(spec, used, w, k, n) {
      HitsNow(spec, used, w, k, n);
    }
  }

  lemma StruckLater(spec: TaskSpec, used: nat, w: World, k: nat, run: Run, saved: Run)
    requires Repairable(w.attempt(k)) && CanAttemptRepair(spec.repairAttemptLimit, used)
    requires Struck(spec, used + 1, w, k + 1, run) && saved.result == run.result
    ensures Struck(spec, used, w, k, saved)
  {
    TouchedIsNotCalm(w.attempt(k));
    assert Calm(w.attempt(k));
    hide Hits, Touched, Repairable, Calm;
    if n: nat :| Hits(spec, used, w, k, n) {
      HitsNow(spec, used, w, k, n);
    }
    var used', k' := used + 1, k + 1;
    if n: nat :| Hits(spec, used', w, k', n) {
      HitsNow(spec, used, w, k, n);
    }
  }

  lemma SameVerdict(spec: TaskSpec, used: nat, w: World, k: nat, run: Run, other: Run)
    requires Struck(spec, used, w, k, run) && other.result == run.result
    ensures Struck(spec, used, w, k, other)
  {
    hide Hits;
  }

  lemma {:induction false} ImplementStruck(spec: TaskSpec, task: SpecTask, st: ExecutionState, w: World, k: nat)
    requires st.status == IMPLEMENTING
    ensures Struck(spec, st.repairAttempts, w, k, Implement(spec, task, st, w, k))
    decreases RemainingRepairs(spec.repairAttemptLimit, st.repairAttempts), 2
  {
    hide Struck, AllPass, BreaksPlainly, AfterCodex, ApplyTransition, Hits;
    var a := w.attempt(k);
    var run := Implement(spec, task, st, w, k);
    if a.before.Irregular? || a.before != a.afterCodex {
      StruckNow(spec, st.repairAttempts, w, k, run);
    } else if a.codex.Raised? {
      NotStruck(spec, st.repairAttempts, w, k, run);
    } else {
      AfterCodexStruck(spec, task, st, w, k);
      SameVerdict(spec, st.repairAttempts, w, k, AfterCodex(spec, task, st, w, k), run);
    }
  }

  lemma {:induction false} AfterCodexStruck(spec: TaskSpec, task: SpecTask, st: ExecutionState, w: World, k: nat)
    requires st.status == IMPLEMENTING
    requires var a := w.attempt(k); !a.before.Irregular? && a.before == a.afterCodex && a.codex.Exited?
    ensures Struck(spec, st.repairAttempts, w, k, AfterCodex(spec, task, st, w, k))
    decreases RemainingRepairs(spec.repairAttemptLimit, st.repairAttempts), 1
  {
    hide Struck, AllPass, BreaksPlainly, ValidateAndMaybeRepair, Hits;
    var a := w.attempt(k);
    var run := AfterCodex(spec, task, st, w, k);
    if a.before != a.atScope {
      StruckNow(spec, st.repairAttempts, w, k, run);
    } else if Calm(a) {
      var next := ApplyTransition(st, VALIDATING, Changes(currentTask := Some(task.id))).value;
      ValidateStruck(spec, task, next, w, k);
      SameVerdict(spec, st.repairAttempts, w, k, ValidateAndMaybeRepair(spec, task, next, w, k), run);
    } else {
      NotStruck(spec, st.repairAttempts, w, k, run);
    }
  }

  lemma {:induction false} ValidateStruck(spec: TaskSpec, task: SpecTask, st: ExecutionState, w: World, k: nat)
    requires st.status == VALIDATING && Calm(w.attempt(k))
    ensures Struck(spec, st.repairAttempts, w, k, ValidateAndMaybeRepair(spec, task, st, w, k))
    decreases RemainingRepairs(spec.repairAttemptLimit, st.repairAttempts), 0
  {
    var checks := w.attempt(k).checks;
    ChecksExactly(checks);
    TouchedIsNotCalm(w.attempt(k));
    hide Struck, Hits, BreaksPlainly, AllPass, Records, FirstFailed, ClassifyOutput, Implement, Touched, Calm;
    var run := ValidateAndMaybeRepair(spec, task, st, w, k);
    if BreaksPlainly(checks) && CanAttemptRepair(spec.repairAttemptLimit, st.repairAttempts) {
      var failed := FirstFailed(Records(checks).value).value;
      var next := ApplyTransition(st, IMPLEMENTING,
                    Changes(Some(task.id), None, Some(st.repairAttempts + 1), Some(failed.command), Some(false))).value;
      ImplementStruck(spec, task, next, w, k + 1);
      StruckLater(spec, st.repairAttempts, w, k, Implement(spec, task, next, w, k + 1), run);
    } else {
      NotStruck(spec, st.repairAttempts, w, k, run);
    }
  }

  /** In a work unit with `left` open tasks, from round `c` and attempt `k` on, the state file is found
      to be `seen`: irregular at the start of a round, or touched by an attempt that the rounds,
      completing task after task, come to. */
  ghost predicate Meddled(spec: TaskSpec, guarded: bool, left: nat, used: nat, w: World, c: nat, k: nat,
      seen: Fingerprint)
    decreases left
  {
    if w.round(c).stateFile.Irregular? then seen == w.round(c).stateFile
    else
      && left > 0 && !(guarded && w.round(c).dirty)
      && (|| (exists n: nat :: Hits(spec, used, w, k, n) && seen == LastSeen(w.attempt(k + n)))
          || (exists n: nat ::
                Takes(spec, used, w, k, n) && Meddled(spec, false, left - 1, used + n, w, c + 1, k + n + 1, seen)))
  }

  ghost predicate MeddledAtAll(spec: TaskSpec, guarded: bool, left: nat, used: nat, w: World, c: nat, k: nat) {
    exists seen :: Meddled(spec, guarded, left, used, w, c, k, seen)
  }

  /** What one round observes of it. */
  lemma RoundStruck(spec: TaskSpec, requireClean: bool, st: ExecutionState, w: World, c: nat, k: nat)
    requires Wellformed(spec) && Startable(spec, st) && spec.tasks != []
    ensures FoundTampered(RunTaskCycle(spec, requireClean, st, w, c, k)) <==>
            (|| w.round(c).stateFile.Irregular?
             || (&& !AllDone(spec.tasks, st.completedTasks) &&
                 !(requireClean && st.completedTasks == [] && w.round(c).dirty)
                 && exists n: nat :: Hits(spec, st.repairAttempts, w, k, n)))
  {
    SelectorNeverBlocks(spec.tasks, st.completedTasks, st.currentTask);
    FinalIsHonest(st, w.round(c).finalChecks);
    if !AllDone(spec.tasks, st.completedTasks) {
      EnteredStruck(spec, NextTask(spec.tasks, st.completedTasks, st.currentTask).value.value, st, w, k);
    }
    hide NextTask, Implement, FinalVerify, Safe, AllDone, Accepted, EnterImplementing, Hits;
  }

  lemma FinalIsHonest(st: ExecutionState, checks: seq<CommandRun>)
    ensures !FoundTampered(FinalVerify(st, checks))
  {
    hide Records, FirstFailed, ClassifyOutput;
  }

  lemma EnteredStruck(spec: TaskSpec, task: SpecTask, st: ExecutionState, w: World, k: nat)
    requires Wellformed(spec) && Startable(spec, st)
    requires task in spec.tasks && task.id !in st.completedTasks && Ready(task, st.completedTasks)
    ensures EnterImplementing(st, task).Ok?
    ensures var next := EnterImplementing(st, task).value;
            Struck(spec, st.repairAttempts, w, k, Implement(spec, task, next, w, k).AfterSaving(next))
  {
    ImplementRound(spec, task, st, w, k);
    var next := EnterImplementing(st, task).value;
    SelectedMayStart(spec, task, st, next);
    assert next.status == IMPLEMENTING && next.repairAttempts == st.repairAttempts;
    var run := Implement(spec, task, next, w, k);
    assert run.AfterSaving(next).result == run.result;
    hide *;
    ImplementStruck(spec, task, next, w, k);
    SameVerdict(spec, st.repairAttempts, w, k, run, run.AfterSaving(next));
  }

  lemma MeddledUnfold(spec: TaskSpec, guarded: bool, left: nat, used: nat, w: World, c: nat, k: nat)
    ensures MeddledAtAll(spec, guarded, left, used, w, c, k) <==>
            (|| w.round(c).stateFile.Irregular?
             || (&& left > 0 && !(guarded && w.round(c).dirty)
                 && (|| (exists n: nat :: Hits(spec, used, w, k, n))
                     || (exists n: nat :: Takes(spec, used, w, k, n)
                                          && MeddledAtAll(spec, false, left - 1, used + n, w, c + 1, k + n + 1)))))
  {
    hide Hits, Takes, LastSeen;
    if w.round(c).stateFile.Irregular? {
      assert Meddled(spec, guarded, left, used, w, c, k, w.round(c).stateFile);
    } else if left > 0 && !(guarded && w.round(c).dirty) {
      if seen :| Meddled(spec, guarded, left, used, w, c, k, seen) {
        if n: nat :| Takes(spec, used, w, k, n) && Meddled(spec, false, left - 1, used + n, w, c + 1, k + n + 1, seen) {
          assert MeddledAtAll(spec, false, left - 1, used + n, w, c + 1, k + n + 1);
        }
      }
      if n: nat :| Hits(spec, used, w, k, n) {
        assert Meddled(spec, guarded, left, used, w, c, k, LastSeen(w.attempt(k + n)));
      }
      if n: nat :| Takes(spec, used, w, k, n) && MeddledAtAll(spec, false, left - 1, used + n, w, c + 1, k + n + 1) {
        var left', used', c', k' := left - 1, used + n, c + 1, k + n + 1;
        var seen :| Meddled(spec, false, left', used', w, c', k', seen);
        assert Meddled(spec, guarded, left, used, w, c, k, seen);
      }
    }
  }

  /** The remaining rounds end on a tampered state file exactly when the world meddles with it where
      they look. */
  lemma {:induction false} RoundsMeddled(spec: TaskSpec, requireClean: bool, st: ExecutionState, w: World, c: nat,
      k: nat,
      bound: nat)
    requires Wellformed(spec) && Startable(spec, st) && spec.tasks != [] && bound > Open(spec, st) >= 0
    ensures FoundTampered(Rounds(spec, requireClean, st, w, c, k, bound)) <==>
            MeddledAtAll(spec, requireClean && st.completedTasks == [], Open(spec, st), st.repairAttempts, w, c, k)
    decreases bound
  {
    hide *;
    StartableBounds(spec, st);
    RoundsUnfold(spec, requireClean, st, w, c, k, bound);
    RoundExactly(spec, requireClean, st, w, c, k);
    RoundStruck(spec, requireClean, st, w, c, k);
    RoundKeeps(spec, requireClean, st, w, c, k);
    var run := RunTaskCycle(spec, requireClean, st, w, c, k);
    CompletedMeans(run);
    MeddledUnfold(spec, requireClean && st.completedTasks == [], Open(spec, st), st.repairAttempts, w, c, k);
    if Completed(run) {
      var next := run.result.value.state;
      AfterCompleted(spec, st, run);
      NextStart(spec, st, run);
      var rest := Rounds(spec, requireClean, next, w, c + 1, k + run.calls, bound - 1);
      ThenMeans(run, rest);
      FoundThen(run, rest);
      CompletedIsHonest(spec, st, run);
      StartableBounds(spec, next);
      RoundsMeddled(spec, requireClean, next, w, c + 1, k + run.calls, bound - 1);
    }
  }

  lemma FoundThen(run: Run, rest: Run)
    ensures FoundTampered(Then(run, rest)) <==> FoundTampered(rest)
  {
  }

  lemma CompletedIsHonest(spec: TaskSpec, st: ExecutionState, run: Run)
    requires RoundSound(spec, st, run) && Completed(run)
    ensures !FoundTampered(run)
  {
    hide Trail, Safe, AllDone;
  }
}
