/** The part of a Task Spec the orchestrator decides on (agent/spec.py). */
module Spec {
  import opened Prelude
  import opened TaskGraph

  datatype TaskSpec = TaskSpec(
    id: string,
    baseBranch: string,
    targetBranch: string,
    repairAttemptLimit: nat,
    reviewAttemptLimit: nat,
    tasks: seq<SpecTask>,
    sourcePath: string,     // "" while the spec is not bound to a path
    specSha256: string)

  datatype WorkUnitIdentity = WorkUnitIdentity(
    specId: string, specPath: string, specSha256: string, baseBranch: string, targetBranch: string)

  /** `work_unit_identity`: refused until path and digest are bound. */
  function IdentityOf(spec: TaskSpec): Result<WorkUnitIdentity, AgentError> {
    if spec.sourcePath == "" || spec.specSha256 == "" then
      Err(AgentError(EscalationRequired, Other("SPEC_IDENTITY_MISMATCH")))
    else
      Ok(WorkUnitIdentity(spec.id, spec.sourcePath, spec.specSha256, spec.baseBranch, spec.targetBranch))
  }

  /** What parsing guarantees of a spec: the schema asks for a task, the graph check for an order. */
  ghost predicate Wellformed(spec: TaskSpec) {
    spec.tasks != [] && Accepted(spec.tasks)
  }

  ghost predicate AllDone(tasks: seq<SpecTask>, completed: seq<string>) {
    forall x :: x in Ids(tasks) ==> x in completed
  }
}
