/** Safety of concurrent deliveries, for every number of runs and every schedule. */
module DeliveryProofs {
  import opened Prelude
  import opened Spec
  import opened PrMarker
  import opened GitWrite
  import opened Delivery

  /** The commit of `c` is part of the branch. */
  predicate OnBranch(c: Commit, remote: Option<Commit>) {
    remote.Some? && IsAncestor(c, remote.value)
  }

  /** What a run's position says about its clone and about the branch. */
  predicate RunInv(run: Run, remote: Option<Commit>) {
    && (run.pc.ParentCheckedOut? ==> run.clone.head == run.job.base)
    && (run.pc.PatchCommitted? || run.pc.BranchPushed? || run.pc.PullRejected? ==> run.clone.head == CommitOf(run.job))
    && (run.pc.Done? && run.pc.outcome.PrCreated? && run.pc.outcome.commit.Some? ==>
        run.pc.outcome.commit == Some(CommitOf(run.job)))
    && (PastPush(run) ==> run.job.passed && OnBranch(CommitOf(run.job), remote))
    && (!run.pc.Starting? && !run.pc.Done? ==> run.job.passed)
  }

  predicate SameJobs(a: World, b: World) {
    |a.runs| == |b.runs| && forall i :: 0 <= i < |a.runs| ==> a.runs[i].job == b.runs[i].job
  }

  ghost predicate Inv(w: World) {
    |w.pulls| <= 1 && forall i :: 0 <= i < |w.runs| ==> RunInv(w.runs[i], w.remote)
  }

  /** Nothing that was on the branch is ever lost. */
  ghost predicate Grows(a: Option<Commit>, b: Option<Commit>) {
    forall c :: OnBranch(c, a) ==> OnBranch(c, b)
  }

  lemma PushGrows(remote: Option<Commit>, head: Commit)
    requires FastForward(remote, head)
    ensures Grows(remote, Some(head))
  {
    forall c | OnBranch(c, remote) ensures OnBranch(c, Some(head)) {
      AncestorTransitive(c, remote.value, head);
    }
  }

  /** One effect of one run. */
  lemma StepRunKeeps(w: World, run: Run, weather: Weather)
    requires RunInv(run, w.remote) && |w.pulls| <= 1
    ensures var (remote, pulls, next) := StepRun(w, run, weather);
            && RunInv(next, remote) && next.job == run.job && |pulls| <= 1
            && Grows(w.remote, remote)
            && (remote == w.remote || remote == Some(CommitOf(run.job)))
            && (remote != w.remote ==> run.pc == PatchCommitted)
            && (PastPush(next) ==> PastPush(run) || run.pc == PatchCommitted)
  {
    hide ReconcileOpenPull, IsAncestor;
    if run.pc == PatchCommitted && FastForward(w.remote, run.clone.head) {
      PushGrows(w.remote, run.clone.head);
      SelfAncestor(run.clone.head);
    }
  }

  lemma SelfAncestor(c: Commit)
    ensures IsAncestor(c, c)
  {
  }

  lemma StepKeeps(w: World, a: Action)
    requires Inv(w)
    ensures Inv(Step(w, a)) && SameJobs(w, Step(w, a)) && Grows(w.remote, Step(w, a).remote)
  {
    if a.Advance? && a.i < |w.runs| {
      StepRunKeeps(w, w.runs[a.i], a.weather);
      hide StepRun, PastPush, OnBranch;
      var w' := Step(w, a);
      forall i | 0 <= i < |w.runs| ensures RunInv(w'.runs[i], w'.remote) {
        if i != a.i {
          RunInvGrows(w.runs[i], w.remote, w'.remote);
        }
      }
    }
  }

  lemma RunInvGrows(run: Run, before: Option<Commit>, after: Option<Commit>)
    requires RunInv(run, before) && Grows(before, after)
    ensures RunInv(run, after)
  {
  }

  lemma {:induction false} StepsKeep(w: World, actions: seq<Action>)
    requires Inv(w)
    ensures Inv(Steps(w, actions)) && SameJobs(w, Steps(w, actions)) && Grows(w.remote, Steps(w, actions).remote)
    decreases |actions|
  {
    if actions != [] {
      StepKeeps(w, actions[0]);
      StepsKeep(Step(w, actions[0]), actions[1..]);
    }
  }

  lemma InitialInv(w: World)
    requires Initial(w)
    ensures Inv(w)
  {
  }

  /** Whatever the schedule, the branch is only ever extended, at most one pull request is open, and
      everything a run pushed is still on the branch. */
  lemma NothingIsRewritten(w: World, actions: seq<Action>, more: seq<Action>, i: nat)
    requires Initial(w) && i < |w.runs|
    ensures var now := Steps(w, actions);
            var later := Steps(now, more);
            && |now.pulls| <= 1
            && Grows(w.remote, now.remote) && Grows(now.remote, later.remote)
            && (PastPush(now.runs[i]) ==> w.runs[i].job.passed && OnBranch(CommitOf(w.runs[i].job), later.remote))
  {
    InitialInv(w);
    StepsKeep(w, actions);
    StepsKeep(Steps(w, actions), more);
  }

  /** The runs whose push the remote accepts, in order: also those that never learn of it, because
      the answer is lost, and those that fail afterwards. */
  function Pushes(w: World, actions: seq<Action>): seq<nat>
    decreases |actions|
  {
    if actions == [] then [] else PushNow(w, actions[0]) + Pushes(Step(w, actions[0]), actions[1..])
  }

  function PushNow(w: World, a: Action): seq<nat> {
    if && a.Advance? && a.i < |w.runs| && w.runs[a.i].pc == PatchCommitted && !a.weather.Breaks?
       && FastForward(w.remote, w.runs[a.i].clone.head)
    then [a.i] else []
  }

  /** The runs that ask for a pull request after their push, whatever comes of it. */
  function Callers(w: World, actions: seq<Action>): seq<nat>
    decreases |actions|
  {
    if actions == [] then [] else CallNow(w, actions[0]) + Callers(Step(w, actions[0]), actions[1..])
  }

  function CallNow(w: World, a: Action): seq<nat> {
    if a.Advance? && a.i < |w.runs| && w.runs[a.i].pc == BranchPushed then [a.i] else []
  }

  /** Past its push a run never commits again. */
  predicate Spent(run: Run) { run.pc.BranchPushed? || run.pc.PullRejected? || run.pc.Done? }

  /** One step: what a push does, and that nothing else writes the branch or gets a run past it. */
  lemma OnePush(w: World, a: Action)
    requires Inv(w)
    ensures var next := Step(w, a);
            && (PushNow(w, a) == [] ==> next.remote == w.remote)
            && (PushNow(w, a) != [] ==>
                  && PushNow(w, a) == [a.i] && w.runs[a.i].job.passed && Spent(next.runs[a.i]) && !Spent(w.runs[a.i])
                  && FastForward(w.remote, CommitOf(w.runs[a.i].job)) && next.remote == Some(CommitOf(w.runs[a.i].job)))
            && (forall i :: 0 <= i < |w.runs| && Spent(w.runs[i]) ==> Spent(next.runs[i]))
            && (forall i :: 0 <= i < |w.runs| && PastPush(next.runs[i]) ==> PastPush(w.runs[i]) || i in PushNow(w, a))
            && (forall i :: 0 <= i < |w.runs| && next.runs[i].pc == BranchPushed ==>
                  (w.runs[i].pc == BranchPushed && i !in CallNow(w, a)) || i in PushNow(w, a))
  {
    if a.Advance? && a.i < |w.runs| {
      assert RunInv(w.runs[a.i], w.remote);
      OneEffect(w, w.runs[a.i], a.weather);
    }
    hide StepRun, RunInv, PastPush, FastForward;
  }

  lemma OneEffect(w: World, run: Run, weather: Weather)
    requires RunInv(run, w.remote)
    ensures var (remote, _, next) := StepRun(w, run, weather);
            var pushed := run.pc == PatchCommitted && !weather.Breaks? && FastForward(w.remote, run.clone.head);
            && (if pushed then remote == Some(run.clone.head) && run.clone.head == CommitOf(run.job) && Spent(next) &&
                run.job.passed
                else remote == w.remote && (PastPush(next) ==> PastPush(run)) && next.pc != BranchPushed)
            && (Spent(run) ==> Spent(next))
  {
    hide ReconcileOpenPull, CheckedOut, Fetched, IsAncestor;
  }

  /** Whatever is on the branch, every later push builds on it. */
  lemma {:induction false} PushesBuildOn(w: World, actions: seq<Action>, c: Commit, j: nat)
    requires Inv(w) && OnBranch(c, w.remote) && j in Pushes(w, actions)
    ensures j < |w.runs| && IsAncestor(c, CommitOf(w.runs[j].job))
    decreases |actions|
  {
    var a := actions[0];
    OnePush(w, a);
    StepKeeps(w, a);
    if j in PushNow(w, a) {
      AncestorTransitive(c, w.remote.value, CommitOf(w.runs[j].job));
    } else {
      hide PushNow, Step;
      PushesBuildOn(Step(w, a), actions[1..], c, j);
    }
  }

  /** Two runs whose pushes were accepted, at any two times, hold commits of one history: one of
      them was built on top of the other, or they are the same commit. */
  lemma {:induction false} PushersShareHistory(w: World, actions: seq<Action>, i: nat, j: nat)
    requires Inv(w) && i in Pushes(w, actions) && j in Pushes(w, actions)
    ensures i < |w.runs| && j < |w.runs|
    ensures var a, b := CommitOf(w.runs[i].job), CommitOf(w.runs[j].job);
            IsAncestor(a, b) || IsAncestor(b, a)
    decreases |actions|
  {
    var a := actions[0];
    var next := Step(w, a);
    OnePush(w, a);
    StepKeeps(w, a);
    hide Step, CommitOf, PastPush, Spent, FastForward;
    var first := PushNow(w, a);
    if first != [] {
      SelfAncestor(next.remote.value);
    }
    if i in first && j !in first {
      PushesBuildOn(next, actions[1..], next.remote.value, j);
    } else if j in first && i !in first {
      PushesBuildOn(next, actions[1..], next.remote.value, i);
    } else if i !in first {
      PushersShareHistory(next, actions[1..], i, j);
    }
  }

  /** The reports were made before any of these deliveries: no base contains a delivery commit. */
  predicate Independent(runs: seq<Run>) {
    forall i, j :: 0 <= i < |runs| && 0 <= j < |runs| ==>
      runs[i].job.change.Some? && !IsAncestor(CommitOf(runs[j].job), runs[i].job.base)
  }

  /** Over the whole schedule: with non-empty patches and independent reports, the pushes that the
      remote accepts are all of the very same commit; so at most one delivery commit ever reaches
      the branch, whatever happens to the runs afterwards. */
  lemma OneDelivery(w: World, actions: seq<Action>, i: nat, j: nat)
    requires Inv(w) && Independent(w.runs) && i in Pushes(w, actions) && j in Pushes(w, actions)
    ensures i < |w.runs| && j < |w.runs|
    ensures w.runs[i].job.base == w.runs[j].job.base && w.runs[i].job.change == w.runs[j].job.change
  {
    PushersShareHistory(w, actions, i, j);
    assert !IsAncestor(CommitOf(w.runs[j].job), w.runs[i].job.base);
    assert !IsAncestor(CommitOf(w.runs[i].job), w.runs[j].job.base);
  }

  /** Whether run `i` may ever push, as it can be told before any run starts: its report passed, and
      its commit would extend the branch. */
  predicate MayPush(w: World, i: nat)
    requires i < |w.runs|
  {
    w.runs[i].job.passed && FastForward(w.remote, CommitOf(w.runs[i].job))
  }

  /** Of the runs that may push, none makes the commit of another or builds on it. */
  predicate Unrelated(w: World) {
    forall i, j :: 0 <= i < |w.runs| && 0 <= j < |w.runs| && i != j && MayPush(w, i) && MayPush(w, j) ==>
      !IsAncestor(CommitOf(w.runs[i].job), CommitOf(w.runs[j].job))
  }

  /** Of the runs that may push, no two make the same commit. */
  predicate NoTwins(w: World) {
    forall i, j :: 0 <= i < j < |w.runs| && MayPush(w, i) && MayPush(w, j) ==>
      CommitOf(w.runs[i].job) != CommitOf(w.runs[j].job)
  }

  /** For independent reports that is the same. */
  lemma IndependentUnrelated(w: World)
    requires Independent(w.runs)
    ensures Unrelated(w) <==> NoTwins(w)
  {
    hide FastForward, MayPush;
    if NoTwins(w) {
      forall i, j | 0 <= i < |w.runs| && 0 <= j < |w.runs| && i != j && MayPush(w, i) && MayPush(w, j)
        ensures !IsAncestor(CommitOf(w.runs[i].job), CommitOf(w.runs[j].job))
      {
        assert !IsAncestor(CommitOf(w.runs[i].job), w.runs[j].job.base);
      }
    }
    if Unrelated(w) {
      forall i, j | 0 <= i < j < |w.runs| && MayPush(w, i) && MayPush(w, j)
        ensures CommitOf(w.runs[i].job) != CommitOf(w.runs[j].job)
      {
        SelfAncestor(CommitOf(w.runs[i].job));
      }
    }
  }

  lemma {:induction false} SpentNeverPushes(w: World, actions: seq<Action>, i: nat)
    requires Inv(w) && i < |w.runs| && Spent(w.runs[i])
    ensures i !in Pushes(w, actions)
    decreases |actions|
  {
    if actions != [] {
      OnePush(w, actions[0]);
      StepKeeps(w, actions[0]);
      hide Step, PastPush, FastForward;
      SpentNeverPushes(Step(w, actions[0]), actions[1..], i);
    }
  }

  /** No run pushes twice. */
  lemma {:induction false} PushesDistinct(w: World, actions: seq<Action>)
    requires Inv(w)
    ensures Distinct(Pushes(w, actions))
    decreases |actions|
  {
    if actions != [] {
      var a := actions[0];
      OnePush(w, a);
      StepKeeps(w, a);
      PushesDistinct(Step(w, a), actions[1..]);
      if PushNow(w, a) != [] {
        SpentNeverPushes(Step(w, a), actions[1..], a.i);
      }
      hide Step, PastPush, FastForward, Spent;
    }
  }

  lemma PushersMayPush(w: World, actions: seq<Action>, i: nat)
    requires Inv(w) && i in Pushes(w, actions)
    ensures i < |w.runs| && MayPush(w, i)
  {
    TipIsLastPush(w, actions);
    if w.remote.Some? {
      SelfAncestor(w.remote.value);
      PushesBuildOn(w, actions, w.remote.value, i);
    }
    hide Steps, CommitOf, IsAncestor;
  }

  /** Over the whole schedule, however the runs crash, fail or lose answers: at most one push is
      ever accepted, if of the runs that may push none builds on another's commit. */
  lemma AtMostOnePusher(w: World, actions: seq<Action>)
    requires Inv(w) && Unrelated(w)
    ensures |Pushes(w, actions)| <= 1
  {
    var pushes := Pushes(w, actions);
    PushesDistinct(w, actions);
    hide Pushes, Inv, CommitOf, IsAncestor, MayPush;
    forall k | 0 <= k < |pushes| ensures pushes[k] == pushes[0] {
      var i, j := pushes[0], pushes[k];
      assert i in pushes && j in pushes;
      PushersMayPush(w, actions, i);
      PushersMayPush(w, actions, j);
      PushersShareHistory(w, actions, i, j);
    }
    if pushes != [] {
      DistinctBound(pushes, {pushes[0]});
    }
  }

  /** No clone holds anything of the branch yet. */
  predicate FreshClones(w: World) {
    forall i :: 0 <= i < |w.runs| ==> w.runs[i].clone.tracking.None? && w.runs[i].clone.local.None?
  }

  /** Both runs reach their commits without having seen the branch, then push, `i` first. */
  function PairSchedule(i: nat, j: nat): seq<Action> {
    [ClosePulls([])] + (FourSteps(i) + FourSteps(j)) + [Advance(i, Fine), Advance(j, Fine)]
  }

  /** Two runs that may push, the second building on the commit of the first or making the same: there
      is a schedule in which both pushes are accepted. */
  lemma BothPush(w: World, i: nat, j: nat)
    requires Initial(w) && FreshClones(w) && i < |w.runs| && j < |w.runs| && i != j && MayPush(w, i) && MayPush(w, j)
    requires IsAncestor(CommitOf(w.runs[i].job), CommitOf(w.runs[j].job))
    ensures |Pushes(w, PairSchedule(i, j))| >= 2
  {
    var close := [ClosePulls([])];
    var w1 := Step(w, ClosePulls([]));
    assert close[1..] == [] && Steps(w, close) == w1;
    assert w1.remote == w.remote && w1.pulls == [] && w1.runs == w.runs;
    hide Step, Pushes, Steps, PushNow;
    BothCommitted(w1, i, j);
    StepsConcat(w, close, FourSteps(i) + FourSteps(j));
    PushPair(Steps(w1, FourSteps(i) + FourSteps(j)), i, j);
    PushesConcat(w, close + (FourSteps(i) + FourSteps(j)), [Advance(i, Fine), Advance(j, Fine)]);
  }

  /** Two runs in fresh clones both reach their commits. */
  lemma BothCommitted(w: World, i: nat, j: nat)
    requires w.pulls == [] && i < |w.runs| && j < |w.runs| && i != j
    requires forall k :: k == i || k == j ==> w.runs[k].pc == Starting && w.runs[k].job.passed
                                              && w.runs[k].clone.tracking.None? && w.runs[k].clone.local.None?
    ensures var end := Steps(w, FourSteps(i) + FourSteps(j));
            && end.remote == w.remote && end.pulls == [] && |end.runs| == |w.runs|
            && (forall k :: k == i || k == j ==>
                  end.runs[k].pc == PatchCommitted && end.runs[k].clone.head == CommitOf(w.runs[k].job))
  {
    hide Step, Steps, FourSteps, CommitOf;
    ReachesCommit(w, i);
    ReachesCommit(Steps(w, FourSteps(i)), j);
    StepsConcat(w, FourSteps(i), FourSteps(j));
  }

  /** Two pushes in a row, the second of a commit that contains the first. */
  lemma PushPair(w: World, i: nat, j: nat)
    requires i < |w.runs| && j < |w.runs| && i != j && w.runs[i].pc == PatchCommitted && w.runs[j].pc == PatchCommitted
    requires FastForward(w.remote, w.runs[i].clone.head) && IsAncestor(w.runs[i].clone.head, w.runs[j].clone.head)
    ensures var both := [Advance(i, Fine), Advance(j, Fine)];
            var end := Steps(w, both);
            && Pushes(w, both) == [i, j] && end.remote == Some(w.runs[j].clone.head) && end.pulls == w.pulls
            && end.runs[i].pc == BranchPushed && end.runs[j].pc == BranchPushed
  {
    var a, b := Advance(i, Fine), Advance(j, Fine);
    var next := Step(w, a);
    var end := Step(next, b);
    assert PushNow(w, a) == [i] && next.runs[i].pc == BranchPushed && next.runs[j] == w.runs[j];
    assert PushNow(next, b) == [j] && end.runs[i].pc == BranchPushed && end.runs[j].pc == BranchPushed;
    assert end.remote == Some(w.runs[j].clone.head) && end.pulls == w.pulls;
    hide Step, PushNow, IsAncestor;
    assert [a, b][1..] == [b] && [b][1..] == [];
    assert Pushes(end, []) == [] && Pushes(next, [b]) == PushNow(next, b) + Pushes(end, []);
    assert Pushes(w, [a, b]) == PushNow(w, a) + Pushes(next, [b]);
    assert Steps(next, [b]) == end && Steps(w, [a, b]) == Steps(next, [b]);
  }

  /** Exactly when at most one run ever gets past the push, whatever the schedule: when of the runs
      that may push none makes the commit of another or builds on it; for independent reports, when
      no two of them make the same commit. */
  lemma AtMostOnePusherExactly(w: World)
    requires Initial(w) && FreshClones(w)
    ensures (forall actions :: |Pushes(w, actions)| <= 1) <==> Unrelated(w)
    ensures Independent(w.runs) ==> ((forall actions :: |Pushes(w, actions)| <= 1) <==> NoTwins(w))
  {
    InitialInv(w);
    if Independent(w.runs) {
      IndependentUnrelated(w);
    }
    hide Pushes, Inv, Initial, FreshClones, CommitOf, IsAncestor, MayPush, PairSchedule;
    if Unrelated(w) {
      forall actions ensures |Pushes(w, actions)| <= 1 {
        AtMostOnePusher(w, actions);
      }
    } else {
      var i, j :| 0 <= i < |w.runs| && 0 <= j < |w.runs| && i != j && MayPush(w, i) && MayPush(w, j)
                  && IsAncestor(CommitOf(w.runs[i].job), CommitOf(w.runs[j].job));
      BothPush(w, i, j);
    }
  }

  /** The branch is where the last accepted push put it, and only runs with a passed report push. */
  lemma {:induction false} TipIsLastPush(w: World, actions: seq<Action>)
    requires Inv(w)
    ensures var pushes := Pushes(w, actions);
            && (forall k :: 0 <= k < |pushes| ==> pushes[k] < |w.runs| && w.runs[pushes[k]].job.passed)
            && (pushes == [] ==> Steps(w, actions).remote == w.remote)
            && (pushes != [] ==>
                  Steps(w, actions).remote == Some(CommitOf(w.runs[pushes[|pushes| - 1]].job)))
    decreases |actions|
  {
    if actions != [] {
      var a := actions[0];
      OnePush(w, a);
      StepKeeps(w, a);
      TipIsLastPush(Step(w, a), actions[1..]);
      hide Step, PastPush, FastForward, Spent, CommitOf;
    }
  }

  /** A run that stands past its push has had it accepted. */
  lemma {:induction false} PastPushIsListed(w: World, actions: seq<Action>, i: nat)
    requires Inv(w) && i < |w.runs| && PastPush(Steps(w, actions).runs[i])
    ensures PastPush(w.runs[i]) || i in Pushes(w, actions)
    decreases |actions|
  {
    if actions != [] {
      OnePush(w, actions[0]);
      StepKeeps(w, actions[0]);
      hide Step, PastPush, FastForward, Spent;
      PastPushIsListed(Step(w, actions[0]), actions[1..], i);
    }
  }

  /** Only a run whose push was accepted asks for a pull request as the pusher, and it asks once. */
  lemma {:induction false} CallersPushed(w: World, actions: seq<Action>)
    requires Inv(w)
    ensures var callers := Callers(w, actions);
            && (forall i :: i in callers ==> i < |w.runs| && (w.runs[i].pc == BranchPushed || i in Pushes(w, actions)))
            && Distinct(callers)
    decreases |actions|
  {
    if actions != [] {
      var a := actions[0];
      var next := Step(w, a);
      OnePush(w, a);
      StepKeeps(w, a);
      CallersPushed(next, actions[1..]);
      if CallNow(w, a) != [] {
        assert PushNow(w, a) == [];
        SpentNeverPushes(next, actions[1..], a.i);
      }
      hide Step, PastPush, FastForward;
    }
  }

  /** So at most one run ever asks for a pull request as the pusher. */
  lemma AtMostOneCaller(w: World, actions: seq<Action>)
    requires Initial(w) && Unrelated(w)
    ensures |Callers(w, actions)| <= 1 && forall i :: i in Callers(w, actions) ==> i in Pushes(w, actions)
  {
    InitialInv(w);
    AtMostOnePusher(w, actions);
    CallersPushed(w, actions);
    hide Callers, Pushes, Unrelated;
    var callers, pushes := Callers(w, actions), Pushes(w, actions);
    forall k | 0 <= k < |callers| ensures callers[k] in pushes && callers[k] == pushes[0] {
      assert callers[k] in callers;
    }
    if callers != [] {
      assert callers[0] in pushes;
      DistinctBound(callers, {pushes[0]});
    }
  }

  lemma {:induction false} PushesConcat(w: World, a: seq<Action>, b: seq<Action>)
    ensures Pushes(w, a + b) == Pushes(w, a) + Pushes(Steps(w, a), b)
    decreases |a|
  {
    if a == [] {
      assert a + b == b;
    } else {
      assert (a + b)[1..] == a[1..] + b;
      PushesConcat(Step(w, a[0]), a[1..], b);
      hide Step, PushNow;
    }
  }

  /** Once one run stands past its push, no other run ever will, even after the first has failed. */
  lemma PusherExcludesOthers(w: World, actions: seq<Action>, more: seq<Action>, i: nat, j: nat)
    requires Initial(w) && Unrelated(w) && i < |w.runs| && j < |w.runs| && i != j
    requires PastPush(Steps(w, actions).runs[i])
    ensures !PastPush(Steps(Steps(w, actions), more).runs[j])
  {
    InitialInv(w);
    StepsConcat(w, actions, more);
    PushesConcat(w, actions, more);
    AtMostOnePusher(w, actions + more);
    PastPushIsListed(w, actions, i);
    hide Step, Steps, Pushes, Unrelated, Inv;
    if PastPush(Steps(w, actions + more).runs[j]) {
      PastPushIsListed(w, actions + more, j);
      OnlyOne(Pushes(w, actions + more), i, j);
    }
  }

  lemma OnlyOne(s: seq<nat>, i: nat, j: nat)
    requires |s| <= 1 && i in s && j in s
    ensures i == j
  {
  }

  /** Once a delivery commit is the tip, the tip stays what it is: the branch gains one commit, on
      top of the base its report names, and no second one. */
  lemma {:induction false} TipStays(w: World, actions: seq<Action>, i: nat)
    requires Inv(w) && Independent(w.runs) && i < |w.runs|
    requires w.remote == Some(CommitOf(w.runs[i].job))
    ensures Steps(w, actions).remote == w.remote
    ensures w.remote.value == Child(w.runs[i].job.base, w.runs[i].job.change.value)
    decreases |actions|
  {
    assert !IsAncestor(CommitOf(w.runs[i].job), w.runs[i].job.base);
    if actions != [] {
      var a := actions[0];
      StepKeeps(w, a);
      var w' := Step(w, a);
      if a.Advance? && a.i < |w.runs| {
        PushOnTip(w, a, i);
      }
      IndependentJobs(w, w');
      TipStays(w', actions[1..], i);
    }
  }

  lemma IndependentJobs(w: World, w': World)
    requires Independent(w.runs) && SameJobs(w, w')
    ensures Independent(w'.runs)
  {
    forall i, j | 0 <= i < |w'.runs| && 0 <= j < |w'.runs|
      ensures w'.runs[i].job.change.Some? && !IsAncestor(CommitOf(w'.runs[j].job), w'.runs[i].job.base)
    {
      assert w'.runs[i].job == w.runs[i].job && w'.runs[j].job == w.runs[j].job;
      assert !IsAncestor(CommitOf(w.runs[j].job), w.runs[i].job.base);
    }
  }

  lemma PushOnTip(w: World, a: Action, i: nat)
    requires Inv(w) && Independent(w.runs) && i < |w.runs| && a.Advance? && a.i < |w.runs|
    requires w.remote == Some(CommitOf(w.runs[i].job))
    ensures Step(w, a).remote == w.remote
  {
    var run := w.runs[a.i];
    StepRunKeeps(w, run, a.weather);
    assert !IsAncestor(CommitOf(w.runs[i].job), run.job.base);
    hide ReconcileOpenPull, CheckedOut, Fetched;
  }

  /** A commit on the branch that a run does not build on keeps that run from ever pushing. */
  lemma {:induction false} LateRunNeverPushes(w: World, actions: seq<Action>, c: Commit, i: nat)
    requires Inv(w) && i < |w.runs| && OnBranch(c, w.remote)
    requires !IsAncestor(c, CommitOf(w.runs[i].job)) && !PastPush(w.runs[i])
    ensures !PastPush(Steps(w, actions).runs[i])
    decreases |actions|
  {
    if actions != [] {
      var a := actions[0];
      StepKeeps(w, a);
      if a.Advance? && a.i == i {
        BlockedPush(w, w.runs[i], a.weather, c);
      }
      assert Step(w, a).runs[i].job == w.runs[i].job;
      LateRunNeverPushes(Step(w, a), actions[1..], c, i);
    }
  }

  lemma BlockedPush(w: World, run: Run, weather: Weather, c: Commit)
    requires RunInv(run, w.remote) && |w.pulls| <= 1 && OnBranch(c, w.remote)
    requires !IsAncestor(c, CommitOf(run.job)) && !PastPush(run)
    ensures !PastPush(StepRun(w, run, weather).2) && StepRun(w, run, weather).0 == w.remote
  {
    StepRunKeeps(w, run, weather);
    if run.pc == PatchCommitted && FastForward(w.remote, run.clone.head) {
      AncestorTransitive(c, w.remote.value, run.clone.head);
    }
  }

  /** A run that has not pushed when the branch holds a commit it does not build on: under every
      schedule its push is never accepted, and if it ends, it ends failed, escalated or by reusing a
      pull request that somebody else opened. */
  lemma MovedBranchEscalates(w: World, actions: seq<Action>, c: Commit, i: nat)
    requires Inv(w) && i < |w.runs| && OnBranch(c, w.remote)
    requires !IsAncestor(c, CommitOf(w.runs[i].job)) && !PastPush(w.runs[i])
    ensures i !in Pushes(w, actions)
    ensures var end := Steps(w, actions).runs[i].pc;
            end.Done? ==> end.outcome == Failed || end.outcome == Escalated
                          || (end.outcome.PrCreated? && end.outcome.commit.None?)
  {
    LateRunNeverPushes(w, actions, c, i);
    if i in Pushes(w, actions) {
      PushesBuildOn(w, actions, c, i);
    }
  }

  /** A run that has fetched the branch and found it off its base stays where it is until its own
      next effect, under every schedule; that effect ends it, escalated unless the effect breaks. */
  lemma {:induction false} OffBaseEnds(w: World, actions: seq<Action>, i: nat)
    requires i < |w.runs| && w.runs[i].pc == BranchFetched
    requires w.runs[i].clone.tracking.Some? && w.runs[i].clone.tracking.value != w.runs[i].job.base
    ensures var end := Steps(w, actions).runs[i];
            var own := exists a :: a in actions && a.Advance? && a.i == i;
            && (!own ==> end == w.runs[i])
            && (own ==> end.pc == Done(Failed) || end.pc == Done(Escalated))
            && (own && (forall a :: a in actions && a.Advance? && a.i == i ==> !a.weather.Breaks?) ==>
                end.pc == Done(Escalated))
    decreases |actions|
  {
    if actions != [] {
      var a := actions[0];
      var next := Step(w, a);
      assert forall x :: x in actions <==> x == a || x in actions[1..];
      if a.Advance? && a.i == i {
        assert next.runs[i].pc == Done(Escalated) || (a.weather.Breaks? && next.runs[i].pc == Ended(a.weather.fault));
        DoneStays(next, actions[1..], i);
      } else {
        assert next.runs[i] == w.runs[i];
        OffBaseEnds(next, actions[1..], i);
      }
    }
  }

  lemma {:induction false} DoneStays(w: World, actions: seq<Action>, i: nat)
    requires i < |w.runs| && w.runs[i].pc.Done?
    ensures Steps(w, actions).runs[i] == w.runs[i]
    decreases |actions|
  {
    if actions != [] {
      assert Step(w, actions[0]).runs[i] == w.runs[i];
      DoneStays(Step(w, actions[0]), actions[1..], i);
    }
  }

  /** A run that can deliver nothing while `c` is on the branch: it ended without a pull request, or
      it has not pushed, and its report failed or it does not build on `c`. */
  predicate Barred(run: Run, c: Commit) {
    if run.pc.Done? then !run.pc.outcome.PrCreated?
    else !run.pc.BranchPushed? && !run.pc.PullRejected? && (run.job.passed ==> !IsAncestor(c, CommitOf(run.job)))
  }

  lemma BarredEffect(w: World, run: Run, weather: Weather, c: Commit)
    requires RunInv(run, w.remote) && OnBranch(c, w.remote) && w.pulls == [] && Barred(run, c)
    ensures var (remote, pulls, next) := StepRun(w, run, weather);
            remote == w.remote && pulls == [] && Barred(next, c) && next.job == run.job
  {
    hide CheckedOut, Fetched;
    if run.pc == PatchCommitted && FastForward(w.remote, run.clone.head) {
      AncestorTransitive(c, w.remote.value, run.clone.head);
    }
  }

  /** A pull request lost after its push stays lost: with a commit on the branch, no pull request
      open and no run that builds on that commit, no schedule whatever moves the branch, opens a
      pull request or lets a run deliver. */
  lemma {:induction false} LostPullRequestStays(w: World, actions: seq<Action>, c: Commit)
    requires Inv(w) && OnBranch(c, w.remote) && w.pulls == []
    requires forall i :: 0 <= i < |w.runs| ==> Barred(w.runs[i], c)
    ensures var end := Steps(w, actions);
            && end.remote == w.remote && end.pulls == []
            && (forall i :: 0 <= i < |w.runs| ==> Barred(end.runs[i], c) && !PastPush(end.runs[i]))
    decreases |actions|
  {
    if actions != [] {
      var a := actions[0];
      StepKeeps(w, a);
      if a.Advance? && a.i < |w.runs| {
        assert RunInv(w.runs[a.i], w.remote);
        BarredEffect(w, w.runs[a.i], a.weather, c);
      }
      var next := Step(w, a);
      hide StepRun, RunInv, IsAncestor;
      assert forall i :: 0 <= i < |w.runs| ==> Barred(next.runs[i], c);
      LostPullRequestStays(next, actions[1..], c);
    }
  }

  /** That is what a delivery leaves behind that dies after its push, its answer lost: whatever the
      schedule from there on, its commit stays the tip and no pull request is ever opened. */
  lemma DiedAfterPush(w: World, i: nat, fault: Fault, actions: seq<Action>)
    requires Inv(w) && Unrelated(w) && w.pulls == []
    requires PushNow(w, Advance(i, BreaksAfter(fault))) == [i]
    requires forall j :: 0 <= j < |w.runs| ==>
               !w.runs[j].pc.BranchPushed? && !w.runs[j].pc.PullRejected?
               && (w.runs[j].pc.Done? ==> !w.runs[j].pc.outcome.PrCreated?)
    ensures var end := Steps(Step(w, Advance(i, BreaksAfter(fault))), actions);
            end.remote == Some(CommitOf(w.runs[i].job)) && end.pulls == []
  {
    var a := Advance(i, BreaksAfter(fault));
    var c := CommitOf(w.runs[i].job);
    var next := Step(w, a);
    OnePush(w, a);
    StepKeeps(w, a);
    SelfAncestor(c);
    assert next.runs[i].pc == Ended(fault) && next.pulls == [];
    forall j | 0 <= j < |w.runs| ensures Barred(next.runs[j], c) {
      if j != i {
        assert next.runs[j] == w.runs[j];
        if w.remote.Some? && IsAncestor(c, CommitOf(w.runs[j].job)) {
          AncestorTransitive(w.remote.value, c, CommitOf(w.runs[j].job));
        }
      }
    }
    hide Step, RunInv, Barred;
    LostPullRequestStays(next, actions, c);
  }

  /** Run `i` alone, `n` effects that meet nothing in their way. */
  function Alone(i: nat, n: nat): seq<Action> {
    if n == 0 then [] else [Advance(i, Fine)] + Alone(i, n - 1)
  }

  /** What an undisturbed run needs of its clone when the branch does not exist. */
  predicate LocalFits(clone: CloneState, base: Commit) {
    if clone.tracking.None? then clone.local.None? || clone.local == Some(base)
    else clone.tracking == Some(base) && clone.local == Some(base)
  }

  /** The clone remembers the branch at the base but has no branch of its own any more. */
  predicate LostLocal(clone: CloneState, base: Commit) {
    clone.tracking == Some(base) && clone.local.None?
  }

  /** When a delivery that finds no pull request can open one: its report passed, and the branch is
      absent or stands on the report's base. */
  predicate Deliverable(w: World, run: Run) {
    && w.pulls == [] && run.job.passed
    && (w.remote == Some(run.job.base) || (w.remote == None && LocalFits(run.clone, run.job.base)))
  }

  /** What an empty or a non-empty patch is reported to have committed. */
  function CommitMade(job: Job): Option<Commit> {
    if job.change.Some? then Some(CommitOf(job)) else None
  }

  /** Run `i` is where `pc` says, and branch and pull requests are as given. */
  predicate Ends(w: World, i: nat, pc: Pc, remote: Option<Commit>, pulls: seq<Pull>) {
    i < |w.runs| && w.runs[i].pc == pc && w.remote == remote && w.pulls == pulls
  }

  lemma AloneStep(w: World, i: nat, n: nat)
    requires i < |w.runs| && n > 0
    ensures Steps(w, Alone(i, n)) == Steps(Step(w, Advance(i, Fine)), Alone(i, n - 1))
  {
    assert Alone(i, n)[1..] == Alone(i, n - 1);
  }

  /** A run that is done does nothing more. */
  lemma {:induction false} DoneAlone(w: World, i: nat, n: nat)
    requires i < |w.runs| && w.runs[i].pc.Done?
    ensures Ends(Steps(w, Alone(i, n)), i, w.runs[i].pc, w.remote, w.pulls)
    decreases n
  {
    if n > 0 {
      AloneStep(w, i, n);
      DoneAlone(Step(w, Advance(i, Fine)), i, n - 1);
    }
  }

  /** From the checked-out parent on: commit, push, and the pull request. */
  lemma ParentDelivers(w: World, i: nat, n: nat)
    requires i < |w.runs| && n >= 3 && w.pulls == [] && w.runs[i].pc == ParentCheckedOut
    requires w.runs[i].clone.head == w.runs[i].job.base && (w.remote == None || w.remote == Some(w.runs[i].job.base))
    ensures var job := w.runs[i].job;
            Ends(Steps(w, Alone(i, n)), i, Done(PrCreated(w.nextNumber + 2, CommitMade(job))), Some(CommitOf(job)),
                 [Pull(w.nextNumber + 2, job.spec.targetBranch, job.spec.baseBranch, job.body)])
  {
    var go := Advance(i, Fine);
    var job := w.runs[i].job;
    var w1 := Step(w, go);
    assert w1.runs[i].pc == PatchCommitted && w1.runs[i].job == job && w1.pulls == [] && w1.remote == w.remote;
    assert w1.runs[i].clone.head == CommitOf(job) && w1.nextNumber == w.nextNumber + 1;
    SelfAncestor(job.base);
    assert FastForward(w1.remote, w1.runs[i].clone.head);
    var w2 := Step(w1, go);
    assert w2.runs[i] == w1.runs[i].(pc := BranchPushed) && w2.pulls == [] && w2.remote == Some(CommitOf(job));
    var w3 := Step(w2, go);
    assert w3.runs[i].pc == Done(PrCreated(w.nextNumber + 2, CommitMade(job))) && w3.remote == Some(CommitOf(job));
    hide Step;
    AloneStep(w, i, n);
    AloneStep(w1, i, n - 1);
    AloneStep(w2, i, n - 2);
    DoneAlone(w3, i, n - 3);
  }

  /** From the fetched branch on: the checkout decides. */
  lemma FetchedDelivers(w: World, i: nat, n: nat)
    requires i < |w.runs| && n >= 4 && w.pulls == [] && w.runs[i].pc == BranchFetched && w.runs[i].job.passed
    requires w.remote.Some? ==> w.runs[i].clone.tracking == w.remote
    ensures var run := w.runs[i];
            var end := Steps(w, Alone(i, n));
            if Deliverable(w, run) then
              Ends(end, i, Done(PrCreated(w.nextNumber + 3, CommitMade(run.job))), Some(CommitOf(run.job)),
                   [Pull(w.nextNumber + 3, run.job.spec.targetBranch, run.job.spec.baseBranch, run.job.body)])
            else
              Ends(end, i, Done(if w.remote.None? && LostLocal(run.clone, run.job.base) then Failed else Escalated),
                   w.remote, [])
  {
    var w1 := Step(w, Advance(i, Fine));
    var run := w.runs[i];
    var checked := CheckedOut(run.clone, run.job.base, w.remote, true);
    assert checked.Ok? <==> Deliverable(w, run);
    assert checked.Ok? ==> checked.value.head == run.job.base;
    assert checked.Err? ==> (checked.error == Unavailable <==> w.remote.None? && LostLocal(run.clone, run.job.base));
    assert w1.pulls == [] && w1.remote == w.remote && w1.nextNumber == w.nextNumber + 1;
    assert w1.runs[i] == if checked.Ok? then run.(pc := ParentCheckedOut, clone := checked.value)
                         else run.(pc := Ended(checked.error));
    hide Step, CheckedOut, LocalFits, LostLocal;
    AloneStep(w, i, n);
    if checked.Ok? {
      ParentDelivers(w1, i, n - 1);
    } else {
      DoneAlone(w1, i, n - 1);
    }
  }

  /** Every end of a delivery that starts and runs undisturbed.  An open pull request of the same work
      unit is reused and any other one escalates; with none open, a report that did not pass ends as
      it says, and one that did opens a pull request, with its commit as the tip, exactly when it is
      deliverable. */
  lemma RepeatExactly(w: World, i: nat, n: nat)
    requires i < |w.runs| && n >= 6 && w.runs[i].pc == Starting
    ensures var run := w.runs[i];
            var job := run.job;
            var end := Steps(w, Alone(i, n));
            if w.pulls != [] then
              Ends(end, i, Done(if |w.pulls| == 1 && SameUnit(job.spec, w.pulls[0]) then
                                  PrCreated(w.pulls[0].number, None)
                                else Escalated), w.remote, w.pulls)
            else if !job.passed then
              Ends(end, i, Done(if job.reportFailure == Unavailable then Failed else Escalated), w.remote, [])
            else if Deliverable(w, run) then
              Ends(end, i, Done(PrCreated(w.nextNumber + 5, CommitMade(job))), Some(CommitOf(job)),
                   [Pull(w.nextNumber + 5, job.spec.targetBranch, job.spec.baseBranch, job.body)])
            else
              Ends(end, i, Done(if w.remote.None? && LostLocal(run.clone, job.base) then Failed else Escalated),
                   w.remote, [])
  {
    var go := Advance(i, Fine);
    var run := w.runs[i];
    var w1 := Step(w, go);
    assert w1.remote == w.remote && w1.pulls == w.pulls && w1.nextNumber == w.nextNumber + 1;
    assert w1.runs[i] == AfterReconcile(run, ReconcileOpenPull(run.job.spec, w.pulls));
    StartAnswers(run, w.pulls);
    AloneStep(w, i, n);
    if w1.runs[i].pc.Done? {
      hide Step, ReconcileOpenPull, AfterReconcile, LocalFits, SameUnit;
      DoneAlone(w1, i, n - 1);
    } else {
      var w2 := Step(w1, go);
      assert w2.remote == w.remote && w2.pulls == w.pulls == [] && w2.nextNumber == w.nextNumber + 2;
      assert w2.runs[i] == run.(pc := BranchFetched, clone := Fetched(run.clone, w.remote, true));
      AloneStep(w1, i, n - 1);
      SameFit(w, w2, i);
      hide Step, ReconcileOpenPull, AfterReconcile, LocalFits, LostLocal, SameUnit, Fetched;
      FetchedDelivers(w2, i, n - 2);
    }
  }

  lemma StartAnswers(run: Run, pulls: seq<Pull>)
    ensures var next := AfterReconcile(run, ReconcileOpenPull(run.job.spec, pulls));
            next == run.(pc :=
              if pulls != [] then
                Done(if |pulls| == 1 && SameUnit(run.job.spec, pulls[0]) then PrCreated(pulls[0].number, None)
                     else Escalated)
              else if !run.job.passed then Done(if run.job.reportFailure == Unavailable then Failed else Escalated)
              else NoOpenPull)
  {
    if pulls != [] {
      ReconcileExactly(run.job.spec, pulls, pulls[0]);
    }
    hide SameUnit, Candidate, SameWorkUnit, AuthorizeReuse;
  }

  lemma SameFit(w: World, w2: World, i: nat)
    requires i < |w.runs| && i < |w2.runs| && w2.remote == w.remote && w2.pulls == w.pulls == []
    requires w2.runs[i] == w.runs[i].(pc := BranchFetched, clone := Fetched(w.runs[i].clone, w.remote, true))
    ensures Deliverable(w2, w2.runs[i]) <==> Deliverable(w, w.runs[i])
    ensures w.remote.None? ==>
              (LostLocal(w2.runs[i].clone, w.runs[i].job.base) <==> LostLocal(w.runs[i].clone, w.runs[i].job.base))
    ensures w.remote.Some? ==> w2.runs[i].clone.tracking == w.remote
  {
  }

  lemma OpenPullAnswers(spec: TaskSpec, pulls: seq<Pull>)
    ensures match ReconcileOpenPull(spec, pulls)
            case Ok(Create) => pulls == []
            case Ok(Reuse(pull)) => pulls == [pull]
            case Err(_) => pulls != []
  {
    hide SameWorkUnit, AuthorizeReuse;
  }

  lemma {:induction false} StepsConcat(w: World, a: seq<Action>, b: seq<Action>)
    ensures Steps(w, a + b) == Steps(Steps(w, a), b)
    decreases |a|
  {
    if a == [] {
      assert a + b == b;
    } else {
      assert (a + b)[1..] == a[1..] + b;
      StepsConcat(Step(w, a[0]), a[1..], b);
    }
  }

  /** A run up to its commit, its two fetches failing. */
  function FourSteps(i: nat): seq<Action> {
    [Advance(i, Fine), Advance(i, Unreachable), Advance(i, Unreachable), Advance(i, Fine)]
  }

  /** A run in a fresh clone that meets no pull request and cannot fetch reaches its commit, whatever
      the branch holds. */
  lemma ReachesCommit(w: World, i: nat)
    requires i < |w.runs| && w.pulls == [] && w.runs[i].pc == Starting && w.runs[i].job.passed
    requires w.runs[i].clone.tracking.None? && w.runs[i].clone.local.None?
    ensures var end := Steps(w, FourSteps(i));
            && end.remote == w.remote && end.pulls == [] && |end.runs| == |w.runs|
            && (forall j :: 0 <= j < |w.runs| && j != i ==> end.runs[j] == w.runs[j])
            && end.runs[i].pc == PatchCommitted && end.runs[i].job == w.runs[i].job
            && end.runs[i].clone.head == CommitOf(w.runs[i].job)
  {
    var go, blind := Advance(i, Fine), Advance(i, Unreachable);
    var run, base := w.runs[i], w.runs[i].job.base;
    var w1 := Step(w, go);
    var w2 := Step(w1, blind);
    var w3 := Step(w2, blind);
    var w4 := Step(w3, go);
    assert w1.runs[i] == run.(pc := NoOpenPull) && w1.remote == w.remote && w1.pulls == [];
    assert w2.runs[i] == run.(pc := BranchFetched) && w2.remote == w.remote && w2.pulls == [];
    assert w3.runs[i] == run.(pc := ParentCheckedOut, clone := run.clone.(local := Some(base), head := base));
    assert w4.runs[i].pc == PatchCommitted && w4.runs[i].clone.head == CommitOf(run.job);
    hide Step;
    assert FourSteps(i)[1..] == [blind, blind, go] && [blind, blind, go][1..] == [blind, go] && [blind, go][1..] == [go]
        && [go][1..] == [];
    assert Steps(w3, [go]) == w4 && Steps(w2, [blind, go]) == Steps(w3, [go]);
    assert Steps(w1, [blind, blind, go]) == Steps(w2, [blind, go]);
  }

  /** Equal contents committed within one second are one commit, and then both runs do get past the
      push: the second push finds everything up to date. */
  lemma TwinsBothPass(job: Job, clone: CloneState)
    requires job.passed && job.change.Some? && clone.tracking.None? && clone.local.None?
    ensures var twin := Run(job, Starting, clone);
            var w := World(None, [], 1, [twin, twin]);
            var end := Steps(w, FourSteps(0) + FourSteps(1) + [Advance(0, Fine), Advance(1, Fine)]);
            && Initial(w) && PastPush(end.runs[0]) && PastPush(end.runs[1]) && end.remote == Some(CommitOf(job))
            && end.runs[0].pc == BranchPushed && end.runs[1].pc == BranchPushed && end.pulls == []
  {
    var twin := Run(job, Starting, clone);
    var w := World(None, [], 1, [twin, twin]);
    BothCommitted(w, 0, 1);
    SelfAncestor(CommitOf(job));
    PushPair(Steps(w, FourSteps(0) + FourSteps(1)), 0, 1);
    hide Steps;
    StepsConcat(w, FourSteps(0) + FourSteps(1), [Advance(0, Fine), Advance(1, Fine)]);
  }

  /** Recovering from a rejected pull request, in every world and any weather in which the effect
      happens: the run ends with its commit and the number of the open pull request exactly when there
      is one of its work unit, failed exactly when none is open, and escalated otherwise. */
  lemma RejectedRecovers(w: World, i: nat, weather: Weather, number: int, commit: Option<Commit>)
    requires Inv(w) && i < |w.runs| && w.runs[i].pc == PullRejected && !weather.Breaks?
    ensures var job := w.runs[i].job;
            var next := Step(w, Advance(i, weather));
            var pc := next.runs[i].pc;
            && next.remote == w.remote && next.pulls == w.pulls
            && (pc == Done(PrCreated(number, commit)) <==>
                  |w.pulls| == 1 && w.pulls[0].number == number && SameUnit(job.spec, w.pulls[0])
                  && commit == CommitMade(job))
            && (pc == Done(Failed) <==> w.pulls == [])
            && (pc == Done(Escalated) <==> w.pulls != [] && !SameUnit(job.spec, w.pulls[0]))
  {
    var run := w.runs[i];
    assert run.clone.head == CommitOf(run.job) && |w.pulls| <= 1;
    assert Step(w, Advance(i, weather)).runs[i] == StepRun(w, run, weather).2;
    hide SameUnit, Candidate, SameWorkUnit, AuthorizeReuse, CommitOf, RunInv, Inv;
    if w.pulls != [] {
      ReconcileExactly(run.job.spec, w.pulls, w.pulls[0]);
    }
  }

  /** A pull request with the body of a delivery is of the same work unit. */
  lemma OwnPullIsSameUnit(spec: TaskSpec, id: WorkUnitIdentity, rest: string, number: int)
    requires IdentityOf(spec) == Ok(id) && Writable(id)
    ensures SameUnit(spec, Pull(number, spec.targetBranch, spec.baseBranch, BuildMarker(id) + rest))
  {
    var pull := Pull(number, spec.targetBranch, spec.baseBranch, BuildMarker(id) + rest);
    ReuseExactlySameIdentity(spec, id, rest, number, spec);
    hide *;
    ReconcileExactly(spec, [pull], pull);
  }

  /** The first of two runs past the push opens the pull request, the second is rejected and takes it. */
  function SharedSchedule(i: nat, j: nat): seq<Action> {
    [Advance(i, Fine), Advance(j, Fine), Advance(j, Fine)]
  }

  lemma SecondTakesFirst(w: World, i: nat, j: nat)
    requires Inv(w) && i < |w.runs| && j < |w.runs| && i != j && w.pulls == []
    requires w.runs[i].pc == BranchPushed && w.runs[j].pc == BranchPushed
    requires var made := w.runs[i].job;
             var pull := Pull(w.nextNumber, made.spec.targetBranch, made.spec.baseBranch, made.body);
             SameUnit(w.runs[j].job.spec, pull)
    ensures var made := w.runs[i].job;
            var pull := Pull(w.nextNumber, made.spec.targetBranch, made.spec.baseBranch, made.body);
            var end := Steps(w, SharedSchedule(i, j));
            && Ends(end, i, Done(PrCreated(w.nextNumber, CommitMade(made))), w.remote, [pull])
            && Ends(end, j, Done(PrCreated(w.nextNumber, CommitMade(w.runs[j].job))), w.remote, [pull])
  {
    var a, b := Advance(i, Fine), Advance(j, Fine);
    var w1 := Step(w, a);
    var w2 := Step(w1, b);
    PullRaced(w, i, j);
    StepKeeps(w, a);
    StepKeeps(w1, b);
    hide *;
    RejectedRecovers(w2, j, Fine, w.nextNumber, CommitMade(w.runs[j].job));
    OthersStay(w2, b, i);
    ThreeSteps(w, a, b, b);
    EndsAre(Step(w2, b), i, Done(PrCreated(w.nextNumber, CommitMade(w.runs[i].job))));
    EndsAre(Step(w2, b), j, Done(PrCreated(w.nextNumber, CommitMade(w.runs[j].job))));
  }

  lemma EndsAre(w: World, i: nat, pc: Pc)
    requires i < |w.runs| && w.runs[i].pc == pc
    ensures Ends(w, i, pc, w.remote, w.pulls)
  {
  }

  lemma ThreeSteps(w: World, a: Action, b: Action, c: Action)
    ensures Steps(w, [a, b, c]) == Step(Step(Step(w, a), b), c)
  {
    hide Step;
    assert [a, b, c][1..] == [b, c] && [b, c][1..] == [c] && [c][1..] == [];
    assert Steps(Step(w, a), [b, c]) == Steps(Step(Step(w, a), b), [c]);
  }

  /** The second of two runs that try to open the pull request is rejected. */
  lemma PullRaced(w: World, i: nat, j: nat)
    requires Inv(w) && i < |w.runs| && j < |w.runs| && i != j && w.pulls == []
    requires w.runs[i].pc == BranchPushed && w.runs[j].pc == BranchPushed
    ensures var made := w.runs[i].job;
            var w1 := Step(w, Advance(i, Fine));
            var w2 := Step(w1, Advance(j, Fine));
            && w2.remote == w.remote
            && w2.pulls == [Pull(w.nextNumber, made.spec.targetBranch, made.spec.baseBranch, made.body)]
            && w2.runs[i].pc == Done(PrCreated(w.nextNumber, CommitMade(made)))
            && w2.runs[j] == w.runs[j].(pc := PullRejected)
  {
    assert w.runs[i].clone.head == CommitOf(w.runs[i].job) by {
      assert RunInv(w.runs[i], w.remote);
    }
    hide RunInv, CommitOf, Inv;
  }

  lemma OthersStay(w: World, a: Action, i: nat)
    requires i < |w.runs| && (a.Advance? ==> a.i != i)
    ensures Step(w, a).runs[i] == w.runs[i]
  {
  }

  /** And then both of them end with the same pull request and the same commit. */
  lemma TwinsShareOnePull(job: Job, clone: CloneState, id: WorkUnitIdentity, rest: string)
    requires job.passed && job.change.Some? && clone.tracking.None? && clone.local.None?
    requires IdentityOf(job.spec) == Ok(id) && Writable(id) && job.body == BuildMarker(id) + rest
    ensures var twin := Run(job, Starting, clone);
            var w := World(None, [], 1, [twin, twin]);
            var pushes := FourSteps(0) + FourSteps(1) + [Advance(0, Fine), Advance(1, Fine)];
            var end := Steps(w, pushes + SharedSchedule(0, 1));
            exists number :: |end.pulls| == 1 && end.pulls[0].number == number
              && (forall i :: 0 <= i < 2 ==> end.runs[i].pc == Done(PrCreated(number, Some(CommitOf(job)))))
  {
    var twin := Run(job, Starting, clone);
    var w := World(None, [], 1, [twin, twin]);
    var schedule := FourSteps(0) + FourSteps(1) + [Advance(0, Fine), Advance(1, Fine)];
    var pushed := Steps(w, schedule);
    assert CommitMade(job) == Some(CommitOf(job));
    TwinsBothPass(job, clone);
    InitialInv(w);
    StepsKeep(w, schedule);
    assert pushed.runs[0].job == job && pushed.runs[1].job == job;
    OwnPullIsSameUnit(job.spec, id, rest, pushed.nextNumber);
    hide Steps, Step, SameUnit, Inv, CommitMade, CommitOf, FourSteps, SharedSchedule, BuildMarker, Writable, IdentityOf;
    SecondTakesFirst(pushed, 0, 1);
    StepsConcat(w, schedule, SharedSchedule(0, 1));
  }

  /** An effect that goes wrong.  One that did not happen ends its run and changes nothing; one whose
      answer is lost ends the run just so, but leaves the pushed tip or the opened pull request; and a
      run is rejected exactly when it asks for a pull request while one is open or the server refuses. */
  lemma DisturbedEffect(w: World, i: nat, weather: Weather)
    requires Inv(w) && i < |w.runs| && !w.runs[i].pc.Done?
    ensures var run := w.runs[i];
            var job := run.job;
            var next := Step(w, Advance(i, weather));
            && (weather.Breaks? ==>
                  Ends(next, i, Done(if weather.fault == Unavailable then Failed else Escalated), w.remote, w.pulls))
            && (weather.BreaksAfter? && run.pc == PatchCommitted && FastForward(w.remote, CommitOf(job)) ==>
                  Ends(next, i, Done(if weather.fault == Unavailable then Failed else Escalated), Some(CommitOf(job)),
                       w.pulls))
            && (weather.BreaksAfter? && run.pc == BranchPushed && w.pulls == [] ==>
                  Ends(next, i, Done(if weather.fault == Unavailable then Failed else Escalated), w.remote,
                       [Pull(w.nextNumber, job.spec.targetBranch, job.spec.baseBranch, job.body)]))
            && (next.runs[i].pc == PullRejected <==>
                  run.pc == BranchPushed && !weather.Breaks? && (w.pulls != [] || weather.Rejects?))
  {
    assert RunInv(w.runs[i], w.remote);
    hide ReconcileOpenPull, IsAncestor, CheckedOut, Committed, Fetched, Inv, PastPush;
  }
}
