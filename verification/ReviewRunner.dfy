/** `run_review` as the program runs it: loops that fill lists, and writes to the pull request in
    order.  Proved to have exactly the outcome and the effects that `ReviewLoop.Review` gives. */
module ReviewRunner {
  import opened Prelude
  import opened Spec
  import opened PyText
  import opened ReviewTrack
  import opened ReviewPolicy
  import opened ReviewHub
  import opened ReviewLoop
  import Terminal

  /** The filtering loop. */
  method FilterItems(items: seq<Feedback>, s: Settings, head: string, track: Track, paths: Paths)
    returns (skipped: seq<string>, forbidden: seq<string>, candidates: seq<Feedback>)
    ensures Sorted(skipped, forbidden, candidates) == SortItems(items, s, head, track, paths)
  {
    skipped, forbidden, candidates := [], [], [];
    for i := 0 to |items|
      invariant Sorted(skipped, forbidden, candidates) == SortItems(items[..i], s, head, track, paths)
    {
      assert items[..i + 1][..i] == items[..i] && items[..i + 1][i] == items[i];
      var reason := Prefilter(items[i], s.actor, head, track.processed, track.headSha, paths);
      if reason == OtherActor || reason == Processed {
        continue;
      }
      if reason == OutdatedHead || reason == MissingPath {
        skipped := skipped + [items[i].identity];
        continue;
      }
      if reason == ForbiddenPath {
        forbidden := forbidden + [items[i].identity];
        continue;
      }
      candidates := candidates + [items[i]];
    }
    assert items[..|items|] == items;
  }

  function Shifted(done: seq<PolicyAction>, rest: Classified, n: nat): Classified {
    match rest
    case Decided(actions) => Decided(done + actions)
    case Stopped(at, answer) => Stopped(at + n, answer)
  }

  lemma ClassifyStep(batch: seq<Feedback>, s: Settings, f: Facts, i: nat, done: seq<PolicyAction>)
    requires i < |batch| && f.classifier(batch[i]).Says?
    ensures Shifted(done, ClassifyAll(batch[i..], s, f), i) ==
            Shifted(done + [Decide(f.classifier(batch[i]).opinion, s.threshold, s.autoRepair, f.paths)],
                    ClassifyAll(batch[i + 1..], s, f), i + 1)
  {
    assert batch[i..][0] == batch[i] && batch[i..][1..] == batch[i + 1..];
    var action := Decide(f.classifier(batch[i]).opinion, s.threshold, s.autoRepair, f.paths);
    var rest := ClassifyAll(batch[i + 1..], s, f);
    if rest.Decided? {
      assert done + ([action] + rest.actions) == done + [action] + rest.actions;
    }
  }

  /** One review run on a pull request. */
  class Reviewer {
    const s: Settings
    const id: WorkUnitIdentity
    const pull: PullRequest

    constructor (s: Settings, id: WorkUnitIdentity, pull: PullRequest)
      ensures this.s == s && this.id == id && this.pull == pull
    {
      this.s, this.id, this.pull := s, id, pull;
    }

    /** The pull request has just gone through `effects`. */
    ghost predicate Went(before: Hub, done: seq<Effect>, effects: seq<Effect>)
      reads pull
    {
      pull.State() == ApplyAll(before, effects) && pull.done == done + effects
    }

    method Escalated(trackId: Option<int>, track: Track, head: string) returns (outcome: ReviewOutcome)
      modifies pull
      ensures var run := EscalateRun(trackId, track, head);
              outcome == run.outcome && Went(old(pull.State()), old(pull.done), run.effects)
    {
      ghost var before, done := pull.State(), pull.done;
      var bound := WithProcessed(track, [], false, Some(head));
      var _ := pull.PersistReviewTrack(trackId, bound);
      pull.ApplyStatusLabel(AgentEscalated);
      OneThenLabel(before, done, SaveTrack(trackId, Render(bound)), AgentEscalated);
      outcome := ReviewEscalated;
    }

    lemma OneThenLabel(before: Hub, done: seq<Effect>, e: Effect, status: StatusLabel)
      requires pull.State() == ApplyAll(Apply(before, e), LabelEffects(status))
      requires pull.done == done + [e] + LabelEffects(status)
      ensures Went(before, done, [e] + LabelEffects(status))
    {
      hide LabelEffects;
      assert ([e] + LabelEffects(status))[1..] == LabelEffects(status);
      assert done + [e] + LabelEffects(status) == done + ([e] + LabelEffects(status));
    }

    lemma WentThen(before: Hub, done: seq<Effect>, middle: Hub, first: seq<Effect>, rest: seq<Effect>)
      requires middle == ApplyAll(before, first)
      requires Went(middle, done + first, rest)
      ensures Went(before, done, first + rest)
    {
      ApplyConcat(before, first, rest);
      assert done + first + rest == done + (first + rest);
    }

    /** `_convergence_result` and `_ready` */
    method Converged(trackId: Option<int>, track: Track, items: seq<Feedback>,
        head: string) returns (outcome: ReviewOutcome)
      modifies pull
      ensures var run := Converge(trackId, track, items, head);
              outcome == run.outcome && Went(old(pull.State()), old(pull.done), run.effects)
    {
      ghost var before, done := pull.State(), pull.done;
      if exists item :: item in items && AppliesToHead(item, head, track.headSha) && item.identity !in track.processed {
        assert done + [] == done;
        return InReview;
      }
      var bound := WithProcessed(track, [], false, Some(head));
      var _ := pull.PersistReviewTrack(trackId, bound);
      pull.ApplyStatusLabel(AgentReady);
      OneThenLabel(before, done, SaveTrack(trackId, Render(bound)), AgentReady);
      outcome := ReadyForHuman;
    }

    method Failure(fault: Fault) returns (outcome: ReviewOutcome)
      modifies pull
      ensures var run := ControlPlaneFailure(fault);
              outcome == run.outcome && Went(old(pull.State()), old(pull.done), run.effects)
    {
      if fault == Unavailable {
        pull.ApplyStatusLabel(AgentFailed);
        outcome := ReviewFailed;
      } else {
        pull.ApplyStatusLabel(AgentEscalated);
        outcome := ReviewEscalated;
      }
    }

    /** The classifying loop, which stops at the first answer that is not an opinion. */
    method ClassifyBatch(batch: seq<Feedback>, f: Facts) returns (r: Classified)
      modifies pull
      ensures r == ClassifyAll(batch, s, f)
      ensures Went(old(pull.State()), old(pull.done), Asks(if r.Decided? then batch else batch[..r.at + 1]))
    {
      ghost var before, done := pull.State(), pull.done;
      var actions: seq<PolicyAction> := [];
      NothingClassified(batch, s, f);
      assert done + [] == done;
      for i := 0 to |batch|
        invariant ClassifyAll(batch, s, f) == Shifted(actions, ClassifyAll(batch[i..], s, f), i)
        invariant Went(before, done, Asks(batch[..i]))
      {
        pull.AskAbout(batch[i].identity);
        AskOneMore(before, done, batch, i);
        var answer := f.classifier(batch[i]);
        if !answer.Says? {
          StopsHere(batch, s, f, i);
          return Stopped(i, answer);
        }
        ClassifyStep(batch, s, f, i, actions);
        actions := actions + [Decide(answer.opinion, s.threshold, s.autoRepair, f.paths)];
      }
      assert actions + [] == actions && batch[..|batch|] == batch;
      r := Decided(actions);
    }

    lemma AskOneMore(before: Hub, done: seq<Effect>, batch: seq<Feedback>, i: nat)
      requires i < |batch|
      requires pull.State() == Apply(ApplyAll(before, Asks(batch[..i])), AskClassifier(batch[i].identity))
      requires pull.done == done + Asks(batch[..i]) + [AskClassifier(batch[i].identity)]
      ensures Went(before, done, Asks(batch[..i + 1]))
    {
      var one := [AskClassifier(batch[i].identity)];
      assert Asks(batch[..i + 1]) == Asks(batch[..i]) + one;
      ApplyConcat(before, Asks(batch[..i]), one);
      assert one[1..] == [];
    }

    /** Persisting the attempt, then `_apply_review_fix`. */
    method Repaired(trackId: Option<int>, updated: Track, f: Facts) returns (outcome: ReviewOutcome)
      modifies pull
      ensures var run := Repair(trackId, updated, f);
              outcome == run.outcome && Went(old(pull.State()), old(pull.done), run.effects)
    {
      ghost var before, done := pull.State(), pull.done;
      var save := SaveTrack(trackId, Render(updated));
      var _ := pull.PersistReviewTrack(trackId, updated);
      ghost var effects: seq<Effect> := [save];
      assert effects[1..] == [];
      if f.fix.FixCommitted? || f.fix.codexCalled {
        pull.CallCodex();
        effects := [save] + [RunCodex];
        assert effects[1..] == [RunCodex] && [RunCodex][1..] == [];
      } else {
        assert effects == effects + [];
      }
      assert Went(before, done, effects);
      ghost var middle, made := pull.State(), pull.done;
      match f.fix {
        case FixCommitted =>
          pull.ApplyStatusLabel(AgentReview);
          outcome := FixPushed;
          WentThen(before, done, middle, effects, LabelEffects(AgentReview));
        case FixRaises(_, fault) =>
          outcome := Failure(fault);
          WentThen(before, done, middle, effects, ControlPlaneFailure(fault).effects);
      }
    }

    method Acted(f: Facts, trackId: Option<int>, track: Track, sorted: Sorted, batch: seq<Feedback>,
        actions: seq<PolicyAction>)
      returns (outcome: ReviewOutcome)
      modifies pull
      ensures var run := Act(s, f, trackId, old(pull.nextId), track, sorted, batch, actions);
              outcome == run.outcome && Went(old(pull.State()), old(pull.done), run.effects)
    {
      ghost var before, done := pull.State(), pull.done;
      var identities := sorted.skipped + Identities(batch);
      if Escalate in actions {
        outcome := Escalated(trackId, WithProcessed(track, identities), f.expectedHead);
        return;
      }
      if Fix !in actions {
        var updated := WithProcessed(track, identities);
        outcome := SavedThenConverged(f, trackId, updated, |batch| < |sorted.candidates|);
        return;
      }
      if track.reviewAttempts >= AttemptLimit(s) {
        outcome := Escalated(trackId, WithProcessed(track, identities), f.expectedHead);
        return;
      }
      outcome := Repaired(trackId, WithProcessed(track, identities, true, Some(f.expectedHead)), f);
    }

    /** Save the track; then stop if there is more to classify, else look for convergence. */
    method SavedThenConverged(f: Facts, trackId: Option<int>, updated: Track,
        leftover: bool) returns (outcome: ReviewOutcome)
      modifies pull
      ensures var rest := if leftover then ReviewRun(InReview, [])
                          else Converge(SavedId(trackId, old(pull.nextId)), updated, f.items, f.expectedHead);
              var run := After([SaveTrack(trackId, Render(updated))], rest);
              outcome == run.outcome && Went(old(pull.State()), old(pull.done), run.effects)
    {
      ghost var before, done := pull.State(), pull.done;
      var save := SaveTrack(trackId, Render(updated));
      var saved := pull.PersistReviewTrack(trackId, updated);
      ghost var middle := pull.State();
      assert [save][1..] == [] && middle == ApplyAll(before, [save]);
      if leftover {
        assert [save] + [] == [save];
        return InReview;
      }
      outcome := Converged(Some(saved), updated, f.items, f.expectedHead);
      WentThen(before, done, middle, [save], Converge(Some(saved), updated, f.items, f.expectedHead).effects);
    }

    method Evaluated(f: Facts, trackId: Option<int>, track: Track) returns (outcome: ReviewOutcome)
      modifies pull
      ensures var run := Evaluate(s, f, trackId, old(pull.nextId), track);
              outcome == run.outcome && Went(old(pull.State()), old(pull.done), run.effects)
    {
      ghost var before, done := pull.State(), pull.done;
      var skipped, forbidden, candidates := FilterItems(f.items, s, f.expectedHead, track, f.paths);
      if forbidden != [] {
        outcome := Escalated(trackId, WithProcessed(track, skipped + forbidden), f.expectedHead);
        return;
      }
      var batch := Batch(candidates, s.cap);
      if batch == [] {
        outcome := SavedThenConverged(f, trackId, WithProcessed(track, skipped), false);
        return;
      }
      var classified := ClassifyBatch(batch, f);
      ghost var middle, asked := pull.State(), Asks(if classified.Decided? then batch else batch[..classified.at + 1]);
      assert middle.nextId == before.nextId by {
        AsksKeep(before, if classified.Decided? then batch else batch[..classified.at + 1]);
      }
      match classified {
        case Decided(actions) =>
          var sorted := Sorted(skipped, forbidden, candidates);
          outcome := Acted(f, trackId, track, sorted, batch, actions);
          WentThen(before, done, middle, asked,
              Act(s, f, trackId, before.nextId, track, sorted, batch, actions).effects);
        case Stopped(at, answer) =>
          if answer.Throws? {
            outcome := Failure(answer.fault);
            WentThen(before, done, middle, asked, ControlPlaneFailure(answer.fault).effects);
          } else {
            var stopped := WithProcessed(track, skipped + [batch[at].identity]);
            outcome := Escalated(trackId, stopped, f.expectedHead);
            WentThen(before, done, middle, asked, EscalateRun(trackId, stopped, f.expectedHead).effects);
          }
      }
    }

    /** `run_review`, ending in `_control_plane_failure` when something raised. */
    method RunReview(f: Facts) returns (outcome: ReviewOutcome)
      modifies pull
      ensures var run := Review(s, id, f, old(pull.State()));
              outcome == run.outcome && Went(old(pull.State()), old(pull.done), run.effects)
    {
      hide Evaluate, EscalateRun, ControlPlaneFailure, LabelEffects;
      ghost var before, done := pull.State(), pull.done;
      var fault := Precheck(f);
      if fault.Some? {
        outcome := Failure(fault.value);
        return;
      }
      var loaded := LoadTrack(pull.State(), s.trackAuthor, id);
      if loaded.Err? {
        outcome := Failure(loaded.error);
        return;
      }
      var (trackId, track) := loaded.value;
      var sticky := Sticky(track, pull.labels, f.expectedHead);
      if sticky.Some? {
        assert done + [] == done;
        return sticky.value;
      }
      if Escalating(f.terminal) {
        outcome := Escalated(trackId, track, f.expectedHead);
        return;
      }
      pull.ApplyStatusLabel(AgentReview);
      if f.terminal != Terminal.ReviewCompleted {
        return InReview;
      }
      ghost var middle := pull.State();
      outcome := Evaluated(f, trackId, track);
      WentThen(before, done, middle, LabelEffects(AgentReview), Evaluate(s, f, trackId, before.nextId, track).effects);
    }
  }

  lemma NothingClassified(batch: seq<Feedback>, s: Settings, f: Facts)
    ensures batch[0..] == batch && Shifted([], ClassifyAll(batch, s, f), 0) == ClassifyAll(batch, s, f)
    ensures Asks(batch[..0]) == []
  {
    var whole := ClassifyAll(batch, s, f);
    assert whole.Decided? ==> [] + whole.actions == whole.actions;
  }

  lemma StopsHere(batch: seq<Feedback>, s: Settings, f: Facts, i: nat)
    requires i < |batch| && !f.classifier(batch[i]).Says?
    ensures ClassifyAll(batch[i..], s, f) == Stopped(0, f.classifier(batch[i]))
  {
    assert batch[i..][0] == batch[i];
  }

  lemma {:induction false} AsksKeep(hub: Hub, items: seq<Feedback>)
    ensures ApplyAll(hub, Asks(items)) == hub
    decreases |items|
  {
    if items == [] {
    } else {
      assert Asks(items)[0] == AskClassifier(items[0].identity) && Asks(items)[1..] == Asks(items[1..]);
      AsksKeep(hub, items[1..]);
    }
  }
}
