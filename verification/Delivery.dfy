/** Any number of delivery jobs of one work unit, interleaved on one branch and one set of open
    pull requests (agent/delivery.py, `_deliver`). */
module Delivery {
  import opened Prelude
  import opened Spec
  import opened PrMarker
  import opened GitWrite

  /** What a run was started with: its report and the change its patch makes (None: empty patch). */
  datatype Job = Job(passed: bool, reportFailure: Fault, base: Commit, change: Option<int>, spec: TaskSpec,
      body: string)

  datatype Outcome = PrCreated(number: int, commit: Option<Commit>) | Failed | Escalated

  /** Where a run stands between two effects. */
  datatype Pc =
    | Starting
    | NoOpenPull            // reconcile answered "create"
    | BranchFetched
    | ParentCheckedOut
    | PatchCommitted
    | BranchPushed          // past the push
    | PullRejected          // create_pull answered 422
    | Done(outcome: Outcome)

  datatype Run = Run(job: Job, pc: Pc, clone: CloneState)

  datatype World = World(remote: Option<Commit>, pulls: seq<Pull>, nextNumber: int, runs: seq<Run>)

  /** What the environment decides about one effect. */
  datatype Weather =
    | Fine
    | Breaks(fault: Fault)         // the effect raises and did not happen
    | BreaksAfter(fault: Fault)    // the effect happened, but the answer was lost
    | Unreachable                  // a fetch fails; fetch failures are not errors
    | Rejects                      // the server answers create_pull with 422 for a reason of its own

  /** One effect of run `i`, or somebody closing or merging pull requests. */
  datatype Action = Advance(i: nat, weather: Weather) | ClosePulls(keep: seq<Pull>)

  function Ended(fault: Fault): Pc {
    Done(if fault == Unavailable then Failed else Escalated)
  }

  /** The fault of an error that `reconcile_open_pull` raises: all of them escalate. */
  function AfterReconcile(run: Run, answer: Result<OpenPull, AgentError>): Run {
    match answer
    case Err(_) => run.(pc := Ended(Refused))
    case Ok(Reuse(pull)) => run.(pc := Done(PrCreated(pull.number, None)))
    case Ok(Create) => run.(pc := if run.job.passed then NoOpenPull else Ended(run.job.reportFailure))
  }

  /** Effect of one run's next step on the branch, the pull requests and itself. */
  function StepRun(w: World, run: Run, weather: Weather): (Option<Commit>, seq<Pull>, Run) {
    if weather.Breaks? && !run.pc.Done? then (w.remote, w.pulls, run.(pc := Ended(weather.fault)))
    else match run.pc
      case Starting =>
        (w.remote, w.pulls, AfterReconcile(run, ReconcileOpenPull(run.job.spec, w.pulls)))
      case NoOpenPull =>
        (w.remote, w.pulls, run.(pc := BranchFetched, clone := Fetched(run.clone, w.remote, weather.Fine?)))
      case BranchFetched =>
        (match CheckedOut(run.clone, run.job.base, w.remote, weather.Fine?)
         case Err(fault) => (w.remote, w.pulls, run.(pc := Ended(fault)))
         case Ok(clone) => (w.remote, w.pulls, run.(pc := ParentCheckedOut, clone := clone)))
      case ParentCheckedOut =>
        (w.remote, w.pulls, run.(pc := PatchCommitted, clone := Committed(run.clone, run.job.change)))
      case PatchCommitted =>
        if !FastForward(w.remote, run.clone.head) then (w.remote, w.pulls, run.(pc := Ended(Refused)))
        else if weather.BreaksAfter? then (Some(run.clone.head), w.pulls, run.(pc := Ended(weather.fault)))
        else (Some(run.clone.head), w.pulls, run.(pc := BranchPushed))
      case BranchPushed =>
        if w.pulls != [] || weather.Rejects? then (w.remote, w.pulls, run.(pc := PullRejected))
        else
          var created := Pull(w.nextNumber, run.job.spec.targetBranch, run.job.spec.baseBranch, run.job.body);
          (w.remote, [created],
           run.(pc := if weather.BreaksAfter? then Ended(weather.fault)
                      else Done(PrCreated(w.nextNumber, if run.job.change.Some? then Some(run.clone.head) else None))))
      case PullRejected =>
        (w.remote, w.pulls,
         match ReconcileOpenPull(run.job.spec, w.pulls)
         case Err(_) => run.(pc := Ended(Refused))
         case Ok(Reuse(pull)) => run.(
             pc := Done(PrCreated(pull.number, if run.job.change.Some? then Some(run.clone.head) else None)))
         case Ok(Create) => run.(pc := Ended(Unavailable)))
      case Done(_) => (w.remote, w.pulls, run)
  }

  predicate SubPulls(keep: seq<Pull>, pulls: seq<Pull>) { keep == [] || keep == pulls }

  function Step(w: World, a: Action): (next: World)
    ensures |next.runs| == |w.runs|
  {
    match a
    case ClosePulls(keep) => if SubPulls(keep, w.pulls) then w.(pulls := keep) else w
    case Advance(i, weather) =>
      if i >= |w.runs| then w
      else
        var (remote, pulls, run) := StepRun(w, w.runs[i], weather);
        World(remote, pulls, w.nextNumber + 1, w.runs[i := run])
  }

  function Steps(w: World, actions: seq<Action>): (end: World)
    ensures |end.runs| == |w.runs|
    decreases |actions|
  {
    if actions == [] then w else Steps(Step(w, actions[0]), actions[1..])
  }

  /** All runs stand at their start; the branch may exist, at most one pull request is open. */
  predicate Initial(w: World) {
    |w.pulls| <= 1 && forall i :: 0 <= i < |w.runs| ==> w.runs[i].pc == Starting
  }

  /** The commit a run of this job makes. */
  function CommitOf(job: Job): Commit {
    if job.change.Some? then Child(job.base, job.change.value) else job.base
  }

  predicate PastPush(run: Run) {
    run.pc.BranchPushed? || run.pc.PullRejected? ||
        (run.pc.Done? && run.pc.outcome.PrCreated? && run.pc.outcome.commit.Some?)
  }
}
