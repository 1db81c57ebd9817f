/** Option and Result, the orchestrator's error values, and failure classes. */
module Prelude {

  datatype Option<+T> = None | Some(value: T)

  datatype Result<+T, +E> = Ok(value: T) | Err(error: E) {
    predicate IsFailure() { Err? }

    function PropagateFailure<U>(): Result<U, E>
      requires Err?
    {
      Err(error)
    }

    function Extract(): T
      requires Ok?
    {
      value
    }
  }

  /** agent/errors.py: the category of a typed orchestrator failure. */
  datatype ErrorCategory =
    InvalidInput | EnvironmentFailure | PolicyViolation | EscalationRequired | InternalFailure

  /** The `code` of an error.  The codes the model decides on are named one by one;
      every other code that a collaborator can raise is `Other`. */
  datatype ErrorCode =
    | InvalidSpec
    | InvalidState
    | DependencyBlocked
    | InvalidTransition
    | UnsafeReconcile
    | StateBranchMismatch
    | StateTampered
    | DirtyWorktree
    | NoValidationCommands
    | UnsupportedCycleOutcome
    | InvalidCycleResult
    | InvalidWorkUnitReport
    | Other(name: string)

  datatype AgentError = AgentError(category: ErrorCategory, code: ErrorCode)

  /** agent/classify.py: what a failed command means for the orchestrator. */
  datatype FailureClass = AgentRepairable | EnvFailure | NeedsEscalation

  /** agent/policy.py, `classify_control_plane_error`: an outage may be retried (FAILED), everything
      else needs a human (ESCALATED). */
  datatype Fault = Unavailable | Refused

  /** No element occurs twice. */
  predicate Distinct<T(==)>(s: seq<T>) {
    forall i, j :: 0 <= i < j < |s| ==> s[i] != s[j]
  }

  lemma ConcatAssociates<T>(a: seq<T>, b: seq<T>, c: seq<T>)
    ensures a + (b + c) == a + b + c
  {
  }

  /** A duplicate-free list drawn from a finite set is no longer than the set. */
  lemma {:induction false} DistinctBound<T>(s: seq<T>, universe: set<T>)
    requires Distinct(s)
    requires forall x :: x in s ==> x in universe
    ensures |s| <= |universe|
    decreases |s|
  {
    if s == [] {
    } else {
      var last := s[|s| - 1];
      var init := s[..|s| - 1];
      assert forall x :: x in init ==> x in s && x != last;
      DistinctBound(init, universe - {last});
    }
  }
}
