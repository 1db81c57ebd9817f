# Verified model of the task orchestrator

The orchestrator runs the tasks of a Task Spec through an external coding agent (Codex) with bounded
repair, delivers the result as one commit and one pull request, and then converges an asynchronous
code review. Little of it is I/O; what lies between the I/O calls is a set of state machines and
fail-closed protocols. This project models them in Dafny and proves what they guarantee. Everything
the outside world decides (Codex, validation commands, Git, GitHub, the classifier, the clock, the
file system) is an argument of the model, so a statement holds for every behaviour of it except where
the statement itself or "Left out" names a condition.

`dafny verify dfyconfig.toml` checks the whole project.

## How it is organised

Four connected pieces, each an executable model and the proofs about it.

* **Work unit.** `TaskGraph` (the depth-first check of the dependency graph, as a class over its two
  node sets), `Select`, `State`, `Validation`, `Cycle` and `WorkUnit` say what one task cycle and one
  whole run compute: the result, the states saved, the Codex calls made. `Runner` is the imperative
  program, a class that owns the state file and the counters and is proved to do exactly that.
  `TransitionProofs` is about every way through the table of transitions, `CycleProofs` and
  `WorkUnitProofs` hold the invariants of a run, `GateProofs` what it takes to complete a task and
  to pass, `TamperProofs` when the state file is found tampered with, `VerdictProofs` which
  observations lead to which verdict, `WriteProofs` every write to the state file, `OrderProofs`
  the order of completed tasks, `RestartProofs` what survives crashes and restarts, `Reports` and
  `ReportProofs` the reports and delivery results built from it, `StartProofs` what the next start
  does and reports.
* **Delivery.** `PrMarker` (the marker in the pull request body and the decision to reuse), `GitWrite`
  (a private clone and a shared remote, as classes), `Delivery` (any number of runs interleaved effect
  by effect on one branch) and `DeliveryProofs`.
* **Review loop.** `ReviewPolicy`, `ReviewHub` (the tracking comment and the labels on the pull
  request) and `ReviewLoop` (one run as a function of what it observes, giving its outcome and, in
  order, everything it asks and writes). `ReviewRunner` is the imperative program proved to have
  exactly these effects. `ReviewHistory` covers histories of runs with crashes; `OutcomeProofs`
  says which outcome a run has and `RecordProofs` what it writes and asks; `ReviewProofs`,
  `ReadyProofs`, `RepairProofs` and `Convergence` cover what the decisions mean.
* **Codecs and resolvers.** `PyText`, `PyInt`, `CommentKeys` (the text operations), `ReviewTrack`
  (the printer and parser of the tracking comment), `CodecProofs` and `MarkerProofs` (which texts
  the two comment parsers read), `Terminal` and `TerminalProofs` (the "latest evidence wins"
  resolver and its hand-kept duplicate in the end-to-end harness), `TerminalKinds` (what its
  answer says about the checks and statuses as GitHub sent them), `SpecPath` (the path-segment
  collapser and canonical spec paths).

A function that models a step has no contract of its own where a contract would only repeat it: the
method that carries the step out in place is proved equal to it, and the lemmas state what it means.

## What the proofs found

* **A final failure cannot be retried directly.** A persisted FAILED state whose tasks are all
  completed is retried as RUNNING, and final verification then refuses the transition
  (agent/cycle.py:374-382, agent/reconcile.py:148-153). `RefusedExactlyOnDeadRetry` shows this is the
  only persisted start that is refused, `SecondRetryVerifies` that the start after it does verify.
* **Equal commits made within one second are one commit.** Two deliveries of the same change then
  both get past the push, the second finding everything up to date (`TwinsBothPass`), and both end
  with the one pull request (`TwinsShareOnePull`). `OneDelivery` says that only one commit
  arrives; `AtMostOnePusherExactly` says when only one run does, whatever the schedule: exactly
  when, of the runs whose report passed and whose commit extends the branch, none makes the commit
  of another or builds on it. For independent reports that means that no two of them make the same
  commit.
* **A pull request lost after the push stays lost.** A delivery that dies between push and
  `create_pull` is not made good by repeating it: under every schedule the branch stays where it is
  and no pull request is opened (`LostPullRequestStays`, `DiedAfterPush`). `RepeatExactly` gives every
  end of an undisturbed repetition: with a pull request exactly when one of the same work unit is open,
  or none is, the report passed, and the branch is absent or stands on the report's base.
* **A detected edit of the state file is reported but not recorded.** The run ends as a scope violation
  and saves nothing, so the next persisted start reads whatever the edit left and is not blocked by it
  (`EditIsNotRecorded`), and completed tasks can be lost (`RemovedFileForgets`). `StartKeepsExactly`: a
  start keeps the recorded progress exactly when no attempt it comes to touches the file and no round
  finds it irregular; `RoundsMeddled` ties that condition, which speaks of the observed fingerprints
  only, to the verdict of the run.
* **The two terminal resolvers agree exactly under usable configurations** (a non-empty actor without
  white space at its ends and a slug that is not blank): `AlignedExactly` is an equivalence, with a
  concrete disagreement for every configuration that is not usable.
* **White space inside a path survives.** `"d/a /"` canonicalizes to `"d/a "`, which does not count as
  canonical (`InnerSpaceSurvives`). `ResultCanonicalExactly` says for which paths the result does
  count: the segment that the path ends on, once every later `..` has taken its segment away, must not
  end in white space, and the spec directory must neither start with white space nor be a drive.
* **A cap of zero never converges.** With `max_comments_per_run` 0 and one candidate, every run stays
  in review (`ZeroCapNeverConverges`); quiet feedback converges exactly when the cap is not zero or
  nothing is pending (`ConvergesExactly`).
* **A decision settles a head only if the tracking comment was bound to it.** A run that fails before
  saving leaves a sticky label that the next run does not honour. `SettledExactly` gives the condition
  in terms of what the run meets (`WillSave`).
* **Completed tasks are in dependency order, which need not be the order of the spec.** A task defined
  before its dependency completes after it. `DefinitionOrderExactly` shows that a passing run lists the
  tasks as the spec does exactly when every dependency is defined before the task that needs it.
* **Reports of hand-edited states can raise.** A state file with a repeated or unknown completed task
  makes building the report itself fail (`StoppedStartReported` says exactly when).
* **A crash before the first completed task gives the repair budget back.** The next start forgets the
  repairs of a run that died in flight with nothing completed, and is decided like a fresh one; after a
  completed task, or for the retry of a failure, the repairs used stay used (`StartDecided`).

## Model

| member | source | states |
|---|---|---|
| TaskGraph.AssertTaskGraph | agent/spec.py:576-602 | terminates on every task list and accepts exactly those with unique ids, known dependencies and no cycle; acceptance comes with a topological order, a cycle error with a real cycle, and the first failing check is the one reported |
| TaskGraph.GraphCheck.Dfs | agent/spec.py:587-602 | the recursive visit either leaves the open nodes as they were and the node visited, or returns an open node and a cycle through it |
| TaskGraph.OrderExcludesCycle | agent/spec.py:587-602 | a topological order and a cycle exclude each other |
| Select.SelectNextTask | agent/select.py:14-61 | the loop with early return and the list of blocked tasks decides as the specification function does |
| Select.MissingExactly | agent/select.py:10-11 | filters place by place: the dependencies that are not completed, in their order and as often as they are named |
| Select.SelectorNeverBlocks | agent/select.py:14-61 | on an accepted graph a consistent state is never reported DEPENDENCY_BLOCKED, the selected task is open and ready, and nothing is selected exactly when everything is completed |
| Select.SelectsExactly | agent/select.py:14-61 | on any task list and state: INVALID_STATE exactly for an unknown id; a task under way is the only candidate, DEPENDENCY_BLOCKED exactly while a dependency of it is open; else the first workable task, DEPENDENCY_BLOCKED exactly when tasks are open and none is workable, nothing exactly when all are completed |
| Validation.RunValidationText | agent/validation.py:221-244 | the loop with early break leaves the records up to and including the first command that does not pass |
| Validation.FailureIsLast | agent/validation.py:221-244 | a validation run fails at its last record or nowhere |
| Validation.ClassifyValidation | agent/classify.py:73-85 | no class exactly for a record that passed; an environment failure exactly for a timeout or an environment phrase of a command that was not denied; agent-repairable exactly for a plain error exit of a known tool |
| Runner.WorkUnitRunner.Save | agent/cycle.py:221-224 | a state is written to the state file exactly when states are persisted (see Left out for a refused write) |
| Runner.WorkUnitRunner.Implement | agent/cycle.py:848-873 | the attempt with its fingerprints changes the state file, the log and the Codex counter exactly as modelled |
| Runner.WorkUnitRunner.AfterCodex | agent/cycle.py:450-561 | tamper, scope and exit-code checks in order, then validation: result, saved states and calls as modelled |
| Runner.WorkUnitRunner.ValidateAndMaybeRepair | agent/cycle.py:587-823 | completion, failure by class, or one more repair: result, saved states and calls as modelled; the mutual recursion ends because the remaining budget falls |
| Runner.WorkUnitRunner.FinalVerifyIfReady | agent/cycle.py:365-428 | final verification as modelled, with its two saves |
| Runner.WorkUnitRunner.RunTaskCycle | agent/cycle.py:257-362 | one round as modelled |
| Runner.WorkUnitRunner.RunWorkUnit | agent/workunit.py:587-617 | the bounded loop equals the recursive specification: result, every state written, every Codex call |
| CycleProofs.ImplementSound | agent/cycle.py:257-362 | from a task being worked on: every saved state follows by a legal edge and is safe, errors come from outside only, the result validates and agrees with its state, repairs stay in the budget, Codex calls equal repairs plus one on completion |
| CycleProofs.AfterCodexSound | agent/cycle.py:450-561 | the same after Codex returned, without the attempt's own call |
| CycleProofs.ValidateSound | agent/cycle.py:587-823 | the same from validation on |
| CycleProofs.OrderlyAppend | agent/cycle.py:618-632 | completing a ready task keeps the completed list duplicate-free and each task after its dependencies |
| CycleProofs.TrailAt | agent/state.py:152-215 | along any trail of saved states completed tasks are only appended, repairs only grow, and neither leaves its bounds |
| TransitionProofs.CreatedIsEarned | agent/state.py:152-215 | on any way of legal transitions from PENDING, PR_CREATED comes straight after implementing, validating, completing a task and the final validation |
| TransitionProofs.CompletedIsEarned | agent/state.py:152-215 | and COMPLETED straight after that, the pull request, the review and a human |
| TransitionProofs.VerdictsStay | agent/state.py:152-215 | nothing follows ESCALATED, SCOPE_VIOLATION, INVALID_SPEC or COMPLETED, and only RUNNING follows FAILED |
| WorkUnitProofs.RoundKeeps | agent/cycle.py:257-362 | one round from a startable state: no illegal transition, one new task exactly when the outcome is TASK_COMPLETED, calls paid for by the task and the repairs |
| WorkUnitProofs.FinalVerifySound | agent/cycle.py:365-428 | with everything completed, final verification only takes legal edges and adds nothing |
| WorkUnitProofs.RoundsKeep | agent/workunit.py:587-617 | with more rounds left than open tasks the "exceeded task loop bound" branch is unreachable |
| WorkUnitProofs.FreshRun | agent/workunit.py:519-650 | for every world: every transition is legal, the selector never blocks, every result validates, passing means all tasks completed, and Codex is called at most once per task plus repair_attempt_limit times |
| GateProofs.ChecksExactly | agent/validation.py:221-244 | validation passes exactly when every command does, and its failure is agent-repairable exactly when the first failing command is a plain failure of a build or test tool |
| GateProofs.CompletedExactly | agent/cycle.py:450-823 | a task is completed exactly when, after repairable attempts within the budget, one attempt leaves the state file alone, stays in scope and passes every command; Codex is called exactly that often |
| GateProofs.FinalGate | agent/cycle.py:365-428 | final verification passes exactly from TASK_COMPLETED or FINAL_VALIDATING with every final check passing |
| GateProofs.RoundsExactly | agent/workunit.py:587-617 | the remaining rounds pass exactly when every round has a regular state file, every open task its attempts within the remaining budget, and the final checks all pass |
| GateProofs.PassExactly | agent/workunit.py:519-650 | exactly when a fresh work unit ends in FINAL_VERIFICATION_PASSED, in terms of what it observes |
| GateProofs.PassIsEarned | agent/workunit.py:587-617 | FINAL_VERIFICATION_PASSED implies a good attempt for every task, one after the other, then passing final checks, with a regular state file in every round |
| VerdictProofs.ChecksAnswer | agent/classify.py:73-105 | validation ends in exactly one of five ways, told from its commands: no verdict (nothing to run, or one raises), all pass, or the first that does not pass is an outage (undenied, timed out or with an environment phrase), a case for a human (denied, escalation marker, unknown tool, no error exit) or a plain failure |
| VerdictProofs.RepairedMeans | agent/cycle.py:764-823 | the repaired attempts before the deciding one are plain failures within the budget, and the deciding one is a plain failure only when the budget is spent |
| VerdictProofs.CycleDecided | agent/cycle.py:450-823 | the first attempt that is not repaired decides the task: FAILED exactly for an outage (of Codex that changed nothing, or of the first bad command), ESCALATED exactly for a case for a human or a plain failure with the budget spent (which alone carries REPAIR_ATTEMPT_LIMIT), SCOPE_VIOLATION exactly outside the scope or on a touched state file, completed exactly for a good attempt, an error exactly when something raised; with task, repairs, last result and last command |
| VerdictProofs.FinalDecided | agent/cycle.py:365-428 | final verification passes exactly when every check does, FAILED exactly when the first that does not is an outage, ESCALATED exactly for any other failure, an error exactly when there is no verdict; from any other status the transition is refused |
| VerdictProofs.RoundsDecided | agent/workunit.py:587-617 | from any startable state the remaining rounds answer as the place where they end does: an irregular state file, the clean-tree guard, a deciding attempt that is not good, or the final checks |
| VerdictProofs.FreshDecided | agent/workunit.py:519-650 | the same for a whole fresh work unit: its outcome, class and code are functions of what it observes |
| WriteProofs.WritesExactly | agent/cycle.py:450-823 | every write of a task, in order, with its status and repair count: each repair is counted on disk before Codex is called for it, and the last write is the answered state unless the state file was touched |
| WriteProofs.FinalWrites | agent/cycle.py:365-428 | every write of final verification, the answered state last |
| OrderProofs.DefinitionOrderExactly | agent/select.py:45-61 | a passing fresh run lists exactly the spec's tasks in the spec's order if and only if every dependency is defined before the task that needs it |
| OrderProofs.DefinedOutOfOrder | agent/spec.py:576-602 | an accepted spec and a run of it that passes and completes the later-defined task first |
| RestartProofs.PrepareKeeps | agent/reconcile.py:122-178 | preparing a persisted state keeps the completed tasks, blocks exactly on ESCALATED and SCOPE_VIOLATION, and leads to a startable state except for a final failure |
| RestartProofs.DeadRetryStops | agent/cycle.py:374-382 | the retry of a final failure is refused before anything is saved or Codex is called |
| RestartProofs.RefusedExactlyOnDeadRetry | agent/reconcile.py:148-153 | a persisted start is refused as an illegal transition exactly for a FAILED state with all tasks completed (and a regular state file) |
| RestartProofs.SecondRetryVerifies | agent/reconcile.py:163-178 | the start after the refused one recovers to TASK_COMPLETED and goes on to final verification |
| RestartProofs.TrailOnDisk | agent/reconcile.py:71-95 | what one persisted start writes to the state file is, at every write, safe and extends the completed tasks |
| TamperProofs.ImplementStruck | agent/cycle.py:848-925 | an attempt chain ends in STATE_TAMPERED exactly when repairable attempts within the budget lead to one that touches the state file |
| TamperProofs.RoundsMeddled | agent/cycle.py:826-925 | the remaining rounds end in STATE_TAMPERED exactly when, in the fingerprints observed, a round finds the file irregular or they come to an attempt that touches it |
| RestartProofs.TamperedExactly | agent/cycle.py:826-925 | the same for a whole persisted start, the retry of a final failure included |
| RestartProofs.StartKeepsExactly | agent/cycle.py:848-925 | whatever a start may leave in the state file keeps the progress exactly when no attempt it comes to touches the file and no round finds it irregular (the removal of a file that did not exist aside) |
| RestartProofs.UntouchedIsSpared | agent/cycle.py:826-882 | as long as no attempt touches the state file and it is a regular file, every start spares it |
| RestartProofs.EditLosesProgress | agent/cycle.py:848-925 | with a task completed and one open, an attempt that touches the file can cost the completed task |
| RestartProofs.RemovedFileForgets | agent/cycle.py:848-925 | a concrete spec, state and world in which it does |
| RestartProofs.EditIsNotRecorded | agent/cycle.py:885-925 | a detected edit is not saved: the last write of the start carries no violation and does not block the next start |
| RestartProofs.HistoryKeepsProgress | agent/reconcile.py:71-178 | over any number of starts and crashes at any write, each of which spares the state file, completed tasks are duplicate-free, known, in dependency order, and never lost or reordered |
| StartProofs.PrepareExactly | agent/reconcile.py:122-178 | every answer on a persisted state: refused exactly for another work unit or branch, blocked exactly for four statuses, retried exactly for FAILED with everything kept; a run that died in flight goes on from its last completed task, or starts over with the whole budget when there is none |
| StartProofs.StartDecided | agent/reconcile.py:71-178 | a start from any state file a run left is decided by what it observes, from the tasks still open and the repairs still counted; one that died in flight with nothing completed is decided like a fresh one |
| StartProofs.StartReported | agent/workunit.py:519-650 | what every such start, and every fresh one, reports: outcome, code and the three booleans in terms of what was observed |
| StartProofs.StoppedExactly | agent/workunit.py:371-450 | exactly when a start is stopped before anything runs, and the outcome, code, state and branch of its report: an irregular file is SCOPE_VIOLATION with STATE_TAMPERED, an unreadable one FAILED, another unit or branch ESCALATED with its code, a blocking status its own outcome |
| ReportProofs.CycleReportValid | agent/workunit.py:346-368 | the report of a run's last cycle result is valid against the spec, has the outcome, class, code, branch and state of that result (SCOPE_VIOLATION and ESCALATED each exactly for their own), both verification booleans exactly on a pass, scope_allowed false exactly on a scope violation, and on success lists a permutation of the spec's tasks |
| ReportProofs.UnitReportsValid | agent/workunit.py:156-237 | every start, fresh or on its own state file, ends in a valid report, an error from outside, or the refused transition of a final failure |
| ReportProofs.StoppedStartReported | agent/workunit.py:371-450 | for any state file, a refused or blocked start is reported exactly when its completed tasks do not repeat (and, when blocked, are known); otherwise building the report raises |
| ReportProofs.RefusalIsValid | agent/delivery.py:410-436 | the delivery result of any valid unsuccessful report is valid, carries its code, and is FAILED exactly for an environment failure |
| ReportProofs.ErrorIsValid | agent/delivery.py:439-462 | the delivery result of any control-plane error is valid (unless its code is the empty string), carries the code, FAILED exactly for an outage and ESCALATED exactly otherwise |
| ReportProofs.FailedAtEveryLevel | agent/delivery.py:98-133 | FAILED means the same for the last cycle, the report and the refused delivery: an environment failure |
| PrMarker.ParseWorkUnitMarker | agent/pr.py:37-67 | the loop over the marker's lines reads the specified fields |
| PrMarker.ParseBuilt | agent/pr.py:22-67 | a marker reads back to its identity, whatever text follows it |
| MarkerProofs.MarkerParsesExactly | agent/pr.py:37-67 | for any body: it is read as a marker exactly when no marker field is given a value twice in its block and name and branches are there; every other line is passed over, and the marker holds exactly what the lines give |
| PrMarker.MatchesOwnIdentity | agent/pr.py:111-130 | a spec matches a marker exactly when all five identity fields agree |
| PrMarker.ReuseExactlySameIdentity | agent/reconcile.py:98-119 | a pull request opened for one spec is reused by exactly the specs with the same five identity fields |
| PrMarker.ReconcileExactly | agent/reconcile.py:98-119 | every answer on any open pull requests: create exactly with none; reuse exactly with one between the spec's target and base branch whose marker carries all five fields; UNSAFE_RECONCILE exactly with several; WORK_UNIT_PR_MISMATCH exactly when branches, name or marker differ; SPEC_IDENTITY_MISMATCH exactly when only path or digest do |
| GitWrite.AncestorsComparable | agent/gitwrite.py:298-317 | on a branch that only grows by fast-forward, two commits of it are comparable |
| GitWrite.Remote.Receive | agent/gitwrite.py:298-317 | the remote takes a push exactly when it is a fast-forward, and never loses history |
| GitWrite.Clone.FetchRemoteBranch | agent/gitwrite.py:90-95 | a fetch moves the tracking ref only when the remote answers and has the branch |
| GitWrite.Clone.CheckoutExistingBranch | agent/gitwrite.py:98-117 | checks out the fetched branch, else the local one, else fails |
| GitWrite.Clone.CheckoutDeliveryParent | agent/gitwrite.py:129-164 | refuses an unknown base, succeeds only on the base commit, and refuses a remote branch that stands anywhere else, also when somebody pushes between its two fetches |
| GitWrite.Clone.CommitPaths | agent/gitwrite.py:249-278 | makes one commit on HEAD exactly when paths are named and git commits; without paths, or with nothing to commit, there is none; a failing commit leaves the clone alone |
| GitWrite.Clone.PushBranch | agent/gitwrite.py:298-317 | moves the remote branch exactly on a fast-forward that the server takes; refused exactly when it would rewrite history or the server declines it, failed on an outage even when the push went through |
| DeliveryProofs.StepRunKeeps | agent/delivery.py:282-402 | one effect of one run keeps its position's invariant; only the push writes the branch, and only with the run's own commit |
| DeliveryProofs.NothingIsRewritten | agent/delivery.py:282-402 | under every schedule the branch is only extended, at most one pull request is open, and what a run with a passed report pushed stays on the branch |
| DeliveryProofs.TipIsLastPush | agent/delivery.py:312-359 | under every schedule the branch tip is the commit of the last accepted push, or the initial tip if there was none; only runs with a passed report push |
| DeliveryProofs.PastPushIsListed | agent/delivery.py:352-359 | a run that stands past its push has had it accepted |
| DeliveryProofs.PushersShareHistory | agent/delivery.py:352-359 | two pushes accepted at any two times are of comparable commits |
| DeliveryProofs.OneDelivery | agent/delivery.py:282-402 | over a whole schedule all accepted pushes are of one and the same commit on its report's base, whatever becomes of the runs: at most one delivery commit reaches the branch |
| DeliveryProofs.AtMostOnePusher | agent/delivery.py:282-402 | if of the runs that may push (passed report, commit extends the branch) none builds on another's commit, at most one push is accepted over a whole schedule, counting pushes whose answer is lost and runs that fail afterwards |
| DeliveryProofs.AtMostOnePusherExactly | agent/delivery.py:282-402 | for runs in fresh clones that condition is also necessary: at most one push under every schedule if and only if it holds; for independent reports, if and only if no two runs that may push make the same commit |
| DeliveryProofs.BothPush | agent/gitwrite.py:129-164 | two such runs, one building on the other's commit or making the same, have a schedule in which both pushes are accepted |
| DeliveryProofs.CallersPushed | agent/delivery.py:359-383 | only a run whose push was accepted calls create_pull, and each at most once |
| DeliveryProofs.AtMostOneCaller | agent/delivery.py:359-383 | under the condition of AtMostOnePusher, at most one run ever calls create_pull |
| DeliveryProofs.PusherExcludesOthers | agent/delivery.py:282-402 | under the condition of AtMostOnePusher, once one run stands past its push no other run ever does, even after the first has failed |
| DeliveryProofs.TipStays | agent/gitwrite.py:129-164 | once a delivery commit is the tip it stays the tip: no second one |
| DeliveryProofs.LateRunNeverPushes | agent/gitwrite.py:298-317 | a commit on the branch that a run does not build on keeps that run from ever standing past its push |
| DeliveryProofs.MovedBranchEscalates | agent/gitwrite.py:129-164 | under every schedule such a run's push is never accepted, and if it ends, it ends failed, escalated, or by reusing a pull request |
| DeliveryProofs.OffBaseEnds | agent/gitwrite.py:143-150 | a run that fetched the branch off its base waits under every schedule for its own next effect, which ends it, escalated unless the effect breaks |
| DeliveryProofs.LostPullRequestStays | agent/delivery.py:282-402 | under every schedule, with a commit on the branch, no open pull request and no run with a passed report that builds on the commit, the branch does not move, no pull request is opened and no run delivers |
| DeliveryProofs.DiedAfterPush | agent/delivery.py:359-383 | under the condition of AtMostOnePusher, a delivery whose push went through and whose answer was lost leaves exactly that behind |
| DeliveryProofs.RepeatExactly | agent/delivery.py:282-402 | every end of an undisturbed delivery in any clone: a pull request of the same work unit is reused, any other escalates; with none open a report that did not pass ends FAILED or ESCALATED as it says, and one that did opens a pull request, numbered, with its commit as the branch tip, exactly when the branch is absent or stands on the base |
| DeliveryProofs.RejectedRecovers | agent/delivery.py:375-388 | after a 422, in every world and weather in which the effect happens: PR_CREATED with the run's commit and number n exactly when pull request n is open and of the same work unit, FAILED exactly when none is open, ESCALATED otherwise |
| DeliveryProofs.DisturbedEffect | agent/delivery.py:352-388 | an effect that does not happen ends its run and changes nothing; one whose answer is lost leaves the pushed tip or the opened pull request; a run is rejected exactly when one is open or the server refuses |
| DeliveryProofs.SecondTakesFirst | agent/delivery.py:375-402 | of two runs past the push the first opens the pull request and the second, rejected, ends with the same one |
| DeliveryProofs.TwinsBothPass | agent/gitwrite.py:249-278 | the concrete schedule in which two equal commits both get past the push |
| DeliveryProofs.TwinsShareOnePull | agent/delivery.py:375-402 | and then both end with one and the same pull request and commit |
| ReviewPolicy.DecisionMeaning | agent/review_policy.py:22-88 | exactly non-actionable feedback is ignored; exactly confident actionable feedback on named paths in scope, with repair enabled, is fixed |
| ReviewHub.LabelIsExclusive | agent/labels.py:55-66 | applying a status label leaves exactly that exclusive label and changes nothing else |
| ReviewHub.PullRequest.ApplyStatusLabel | agent/labels.py:55-66 | the add-then-remove loop reaches that state |
| ReviewHub.PullRequest.PersistReviewTrack | agent/review_loop.py:789-804 | creates the tracking comment once, afterwards only updates it |
| ReviewHub.MergeProcessed | agent/review_track.py:158-180 | the appending loop computes the merged list |
| ReviewHub.MergedMeaning | agent/review_track.py:158-180 | merging extends the processed list by exactly the new identities and repeats none |
| ReviewHub.MergedExactly | agent/review_track.py:158-180 | identities are taken one after the other, each appended unless it is listed already |
| ReviewRunner.FilterItems | agent/review_loop.py:337-375 | the filtering loop fills the three lists as specified |
| ReviewRunner.Reviewer.ClassifyBatch | agent/review_loop.py:404-459 | the classifying loop asks item by item and stops at the first answer that is no opinion |
| ReviewRunner.Reviewer.Converged | agent/review_loop.py:824-852 | convergence check and ready label with exactly the specified effects |
| ReviewRunner.Reviewer.Evaluated | agent/review_loop.py:337-536 | evaluation of the feedback with exactly the specified effects |
| ReviewRunner.Reviewer.RunReview | agent/review_loop.py:222-264 | a whole run has exactly the outcome and the writes, in order, of the specification function |
| ReviewHistory.SortedExactly | agent/review_filter.py:59-81 | each list of the filtering loop holds exactly the items with its reasons |
| ReviewHistory.LoadsCurrent | agent/review_loop.py:743-786 | under the invariant the tracking comment loads as the track it was rendered from |
| ReviewHistory.ReviewAllowed | agent/review_loop.py:267-536 | every write of a run keeps the invariant: one comment, attempts within the limit, a saved attempt before each Codex call, nothing processed forgotten |
| ReviewHistory.EventKeeps | agent/review_loop.py:222-264 | the same for a run cut off after any write, and for its failure handling cut off after any write |
| ReviewHistory.HistoryKeepsTrack | agent/review_loop.py:500-526 | over any history: at most one tracking comment, review_attempts within both limits, repair calls within review_attempts, the processed list growing and duplicate-free |
| OutcomeProofs.CandidatesExactly | agent/review_filter.py:59-81 | the candidates are exactly the unprocessed comments of the configured actor about this head, on no path or on an existing one in scope |
| OutcomeProofs.EvaluatesExactly | agent/review_loop.py:337-536 | looking at the feedback has each of the five outcomes exactly in its case, told from the comments, the opinions, the attempts used and the fix |
| OutcomeProofs.OutcomeExactly | agent/review_loop.py:267-536 | which outcome a run has that is not answered by a settled head: FAILED exactly for an outage (no API head, the spec, the classifier, the fix), ESCALATED exactly for heads that differ, a refusal, a skipped, failed or ambiguous review, a forbidden path, a failed or unsettled classification, or no attempt left, and likewise for the other three |
| OutcomeProofs.StickyAnswers | agent/review_loop.py:861-895 | a settled head gives its answer again and nothing is done; of stacked labels failed comes before escalated before ready |
| OutcomeProofs.BadTrackingEscalates | agent/review_loop.py:743-786 | several tracking comments, or one that is foreign, unreadable or of another work unit, escalate the run and nothing is saved |
| RecordProofs.RecordsExactly | agent/review_loop.py:337-536 | what the tracking comment says after a run: unchanged, or exactly these identities more, one attempt more exactly for a repair, bound to the head unless the pull request stays in review |
| RecordProofs.AddedExactly | agent/review_loop.py:337-459 | whose identities are added: those about another head or on a path that is gone, and those on forbidden paths, or the whole batch, or the item on which the classifier failed |
| RecordProofs.AskedExactly | agent/review_loop.py:404-459 | the classifier is asked about nothing, or about the batch in order up to the first item without an opinion |
| ReviewProofs.ReviewEnds | agent/review_loop.py:861-974 | a run that does anything leaves exactly the label of its outcome; a final outcome that saved the track bound it to the head |
| ReviewProofs.SavesExactly | agent/review_loop.py:267-536 | exactly when a run saves the track, told from what it meets: no failed first check, an undecided head, and an escalating review or a completed one in which no classifier call raises first |
| ReviewProofs.SettledExactly | agent/review_loop.py:861-895 | a ready, escalated or failed answer makes every later run on the head answer the same and do nothing, exactly when the run is one that saves the track or the track was bound to the head before |
| ReadyProofs.ReadyShape | agent/review_loop.py:391-498 | the only way evaluation ends ready: nothing forbidden, the whole batch non-actionable, save, then converge |
| ReadyProofs.ReadyMeans | agent/review_loop.py:281-402 | READY_FOR_HUMAN means equal heads, a completed review on that head, every comment on the head processed, and everything newly processed outdated, without a path, or non-actionable; without calling Codex |
| RepairProofs.DecisionsMean | agent/review_loop.py:461-477 | nothing escalates exactly when each item is fixable or ignorable; something is fixed exactly when an item is fixable |
| RepairProofs.RepairExactly | agent/review_loop.py:500-518 | exactly when a run calls Codex: undecided head, completed review, nothing forbidden, batch fixable or ignorable with one fixable, an attempt left under both limits |
| Convergence.HandledExactly | agent/review_loop.py:337-402 | of the unprocessed comments a run handles exactly those passed over and those in its batch |
| Convergence.Residue | agent/review_loop.py:377-402 | the next run finds exactly the candidates beyond the batch |
| Convergence.FreshReviewable | agent/review_loop.py:861-872 | an unseen pull request with quiet feedback is where convergence starts |
| Convergence.StepMore | agent/review_loop.py:477-490 | a run with candidates left over stays in review and takes exactly its batch away |
| Convergence.StepLast | agent/review_loop.py:491-498 | a run whose batch takes every candidate ends ready |
| Convergence.ConvergesInBatches | agent/review_loop.py:377-498 | exactly max(1, ceil(N / cap)) runs are needed: all but the last in review, the last ready |
| Convergence.ZeroCapNeverConverges | agent/review_loop.py:377-402 | with cap 0 and a candidate every run stays in review |
| Convergence.ConvergesExactly | agent/review_loop.py:377-498 | quiet feedback converges exactly when the cap is not zero or nothing is pending |
| PyInt.ParseDecimal | agent/review_track.py:73-155 | the attempt counter reads back as written |
| PyText.SplitUnlines | agent/review_track.py:73-134 | splitting into lines undoes writing lines |
| PyText.ReadBlock | agent/review_track.py:73-85 | a written comment block reads back, whatever follows it |
| PyText.FieldLine | agent/review_track.py:96-116 | a written `key: value` line splits back into key and value |
| ReviewTrack.ParseReviewTrack | agent/review_track.py:73-134 | the parsing loop computes the specified track |
| ReviewTrack.RenderReviewTrack | agent/review_track.py:137-155 | the printing loop computes the specified text |
| ReviewTrack.ParseRender | agent/review_track.py:73-155 | parsing the printed form of a printable track gives it back |
| ReviewTrack.ParsedIsPrintable | agent/review_track.py:73-155 | whatever comment a track was parsed from, printing and parsing it again gives the same track |
| ReviewTrack.PrintableExactly | agent/review_track.py:73-155 | the printable tracks are exactly those that some comment carries |
| CodecProofs.BlockExactly | agent/review_track.py:73-85 | the block that is read is exactly the text between the first start marker and the first `-->` after it |
| CodecProofs.TrackParsesExactly | agent/review_track.py:73-134 | for any text: it is read as a track exactly when every line of its block is blank, a heading, an identity in a processed section, or a field with a known key that no earlier field has, the version is 2, the five identity fields are given and the attempts are a natural number; and the track is what these lines say |
| Terminal.SortedLastDecides | agent/review_terminal.py:203-210 | the last entry of the stable sort is the one maximal in (timestamp, id), ties to the later one |
| Terminal.ResolveCodeRabbitTerminal | agent/review_terminal.py:177-210 | the two loops and the in-place sort compute the specified answer |
| TerminalProofs.LatestWins | agent/review_terminal.py:177-210 | NONE exactly when nothing matches; otherwise the answer is the maximal matching entry, ties to the later one in checks-then-statuses |
| TerminalKinds.ItemMeans | agent/review_terminal.py:213-314 | a check or status, by its raw fields, counts and shows at most one state: for a check by status and conclusion, for a status by state and description |
| TerminalKinds.SquashMeans | agent/review_terminal.py:303-314 | before a description is searched, white space between two words becomes one blank and words stay as they are |
| TerminalKinds.KindExactly | agent/review_terminal.py:177-314 | NONE exactly when nothing that counts shows anything; otherwise the state that the latest such item shows, latest in text order of its timestamp, then by number, then by position |
| TerminalProofs.OrderIrrelevant | agent/review_terminal.py:177-210 | permuting or repeating the inputs changes nothing when the keys identify the matching entries |
| TerminalProofs.ExtraCheckIgnored | agent/review_terminal.py:213-245 | one more check changes nothing when it is for another head or app, or older than the deciding entry |
| TerminalProofs.ExtraStatusIgnored | agent/review_terminal.py:220-267 | the same for one more commit status |
| HarnessTerminal.SameAnswer | agent/integration-tests/github-review-e2e/harness/coderabbit_terminal.py:40-185 | under a usable configuration both resolvers give the same answer on every input with trimmed logins |
| HarnessTerminal.BlankSlugDiffers | agent/integration-tests/github-review-e2e/harness/coderabbit_terminal.py:85-109 | a blank slug makes them disagree on some input |
| HarnessTerminal.UntrimmedActorDiffers | agent/integration-tests/github-review-e2e/harness/coderabbit_terminal.py:112-138 | a blank or untrimmed actor makes them disagree on some input |
| HarnessTerminal.AlignedExactly | agent/integration-tests/github-review-e2e/harness/coderabbit_terminal.py:40-185 | the duplicate agrees with production everywhere exactly under usable configurations |
| SpecPath.CollapsePathSegments | agent/spec.py:272-286 | the push-and-pop loop computes the specified collapse |
| SpecPath.CollapseExactly | agent/spec.py:272-286 | collapsing succeeds exactly when no prefix has more `..` than ordinary segments, and leaves as many segments as the balance |
| SpecPath.ParentUndoes | agent/spec.py:272-286 | an ordinary segment is appended, a following `..` takes exactly it away again, and `.` or nothing is passed over |
| SpecPath.CollapsedSegments | agent/spec.py:272-286 | no empty, `.` or `..` segment and no backslash is left |
| SpecPath.CollapseIdempotent | agent/spec.py:272-286 | collapsing twice is collapsing once |
| SpecPath.CollapseComposes | agent/spec.py:272-286 | the first part of a path may be collapsed before the rest is appended |
| SpecPath.CanonicalExactlyFixed | agent/spec.py:163-175 | the canonical paths are exactly the relative paths that canonicalization leaves as they are |
| SpecPath.ResultCanonicalExactly | agent/spec.py:134-175 | the result of canonicalizing a relative path is canonical exactly when the segment the path ends on does not end in white space and the spec directory neither starts with white space nor is a drive |
| SpecPath.TrimmedSegmentsSuffice | agent/spec.py:134-175 | segments without edge white space suffice |
| SpecPath.InnerSpaceSurvives | agent/spec.py:134-160 | the concrete path whose result is not canonical |

## Left out

- DeliveryProofs.AtMostOnePusherExactly: the necessary half is for clones that hold nothing of the branch yet, as a job's clone does; the sufficient half, `AtMostOnePusher`, is for any clone.
- DeliveryProofs.OneDelivery: for non-empty patches and reports none of which was based on another run's commit; an empty patch makes no commit.
- Runner.WorkUnitRunner.Save: does not model that a write is refused with STATE_TAMPERED when the state file has become irregular since it was last looked at; on disk such a run is a start that dies before that write, which the restart theorems cover.
- ReviewHistory.HistoryKeepsTrack: tracking comments are written by the orchestrator only, runs on one pull request do not overlap, and heads and comment identities are single-line text without `-->`.
- RestartProofs.HistoryKeepsProgress: nobody but the program and Codex writes the state file; edits by validation commands or other processes are not modelled, and a write never happens half-way (it is an atomic rename).
- HarnessTerminal.SameAnswer: the JSON fields of both resolvers are compared after reading; absent text is the empty string.
- Subprocess, file and network I/O, environment scrubbing, secret redaction and the HTTP client: answers of the environment.
- Absolute and Windows-drive spec paths: their resolution asks the file system; the path theorems are for relative paths.
- Text is code points: white space and line breaks are Python's (`str.strip`, `str.splitlines`), but digits, letters and lower-casing are ASCII only.
- Commit ids are the content they digest, so the digest is injective; a branch's history is a chain, without merge commits.
- The exception tables of agent/policy.py are reduced to whether an error is an outage or a refusal; the phrase tables of agent/classify.py to whether a phrase occurs.
- Applying the patch, the scope check after it and the final verification before delivery: one point at which the run may break, before its commit.
- Collecting review feedback (agent/review_collect.py): items arrive as a list by the configured actor; where the identities are said to be distinct, that is an assumption.
- Notices, events, summaries, prompts, labels' creation and issue comments other than the tracking comment: they do not feed back into state.
- `run_task_cycle` called without a state, which loads or initialises its own; `validation_results`, `changed_files` and messages of reports.
- The JSON schemas of state files and reports, and the enum coercions.
- One branch and one work unit are modelled at a time; other users close or merge pull requests, but do not write the branch.
