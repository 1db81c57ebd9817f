/** What the table of legal transitions guarantees about every way through it (agent/state.py). */
module TransitionProofs {
  import opened State

  /** The statuses from which a status is entered: the table read the other way. */
  function EnteredFrom(status: ExecutionStatus): set<ExecutionStatus> {
    match status
    case PENDING => {}
    case RUNNING => {PENDING, FAILED}
    case IMPLEMENTING => {RUNNING, VALIDATING, TASK_COMPLETED, IN_REVIEW}
    case VALIDATING => {IMPLEMENTING}
    case TASK_COMPLETED => {VALIDATING}
    case FINAL_VALIDATING => {TASK_COMPLETED}
    case PR_CREATED => {FINAL_VALIDATING}
    case IN_REVIEW => {PR_CREATED}
    case READY_FOR_HUMAN => {IN_REVIEW}
    case COMPLETED => {READY_FOR_HUMAN}
    case INVALID_SPEC => {PENDING, RUNNING}
    case SCOPE_VIOLATION => {IMPLEMENTING, VALIDATING}
    case FAILED | ESCALATED =>
      {RUNNING, IMPLEMENTING, VALIDATING, TASK_COMPLETED, FINAL_VALIDATING, PR_CREATED, IN_REVIEW}
  }

  lemma TableBothWays(a: ExecutionStatus, b: ExecutionStatus)
    ensures b in AllowedFrom(a) <==> a in EnteredFrom(b)
  {
  }

  /** Any number of legal transitions in a row. */
  predicate Way(way: seq<ExecutionStatus>) {
    forall i :: 0 < i < |way| ==> way[i] in AllowedFrom(way[i - 1])
  }

  lemma Came(way: seq<ExecutionStatus>, i: nat)
    requires Way(way) && 0 < i < |way|
    ensures way[i - 1] in EnteredFrom(way[i])
  {
    TableBothWays(way[i - 1], way[i]);
  }

  /** A pull request is created only straight after a task was implemented, validated and completed and
      everything was verified once more. */
  lemma CreatedIsEarned(way: seq<ExecutionStatus>, i: nat)
    requires Way(way) && i < |way| && way[0] == PENDING && way[i] == PR_CREATED
    ensures i >= 4 && way[i - 4..i] == [IMPLEMENTING, VALIDATING, TASK_COMPLETED, FINAL_VALIDATING]
  {
    hide AllowedFrom;
    Came(way, i);
    Came(way, i - 1);
    Came(way, i - 2);
    Came(way, i - 3);
  }

  /** And a work unit is completed only by way of its pull request, the review and a human. */
  lemma CompletedIsEarned(way: seq<ExecutionStatus>, i: nat)
    requires Way(way) && i < |way| && way[0] == PENDING && way[i] == COMPLETED
    ensures i >= 7 && way[i - 3..i] == [PR_CREATED, IN_REVIEW, READY_FOR_HUMAN]
    ensures way[i - 7..i - 3] == [IMPLEMENTING, VALIDATING, TASK_COMPLETED, FINAL_VALIDATING]
  {
    hide AllowedFrom;
    Came(way, i);
    Came(way, i - 1);
    Came(way, i - 2);
    CreatedIsEarned(way, i - 3);
  }

  /** Nothing follows a verdict for a human or a completed unit, and only a retry follows a failure. */
  lemma VerdictsStay(way: seq<ExecutionStatus>, i: nat)
    requires Way(way) && i < |way|
    ensures way[i] in {ESCALATED, SCOPE_VIOLATION, INVALID_SPEC, COMPLETED} ==> i == |way| - 1
    ensures way[i] == FAILED && i + 1 < |way| ==> way[i + 1] == RUNNING
  {
    if i + 1 < |way| {
      assert way[i + 1] in AllowedFrom(way[i + 1 - 1]);
    }
  }
}
