/** When a review run calls Codex (agent/review_loop.py, agent/review_policy.py). */
module RepairProofs {
  import opened Prelude
  import opened Spec
  import opened PyText
  import opened ReviewTrack
  import opened ReviewPolicy
  import opened ReviewHub
  import opened ReviewLoop
  import opened ReviewHistory
  import Terminal

  predicate CallsCodex(run: ReviewRun) { RunCodex in run.effects }

  /** Feedback that may be fixed automatically. */
  predicate Fixable(s: Settings, f: Facts, c: Feedback) {
    && f.classifier(c).Says?
    && var opinion := f.classifier(c).opinion;
       && opinion.classification == Actionable && s.autoRepair && opinion.confidence >= s.threshold
       && opinion.paths != [] && forall p :: p in opinion.paths ==> f.paths.inScope(p)
  }

  predicate Ignorable(f: Facts, c: Feedback) {
    f.classifier(c).Says? && f.classifier(c).opinion.classification == NonActionable
  }

  lemma LabelsCallNothing(status: StatusLabel)
    ensures RunCodex !in LabelEffects(status)
  {
    LabelsHarmless(status);
    hide LabelEffects;
    assert !Harmless(RunCodex);
  }

  lemma AfterCalls(first: seq<Effect>, run: ReviewRun)
    requires RunCodex !in first
    ensures CallsCodex(After(first, run)) <==> CallsCodex(run)
  {
  }

  /** Escalating, converging and failing never call Codex. */
  lemma EndingsCallNothing(trackId: Option<int>, t: Track, items: seq<Feedback>, head: string, fault: Fault)
    ensures !CallsCodex(EscalateRun(trackId, t, head)) && !CallsCodex(Converge(trackId, t, items, head))
    ensures !CallsCodex(ControlPlaneFailure(fault))
  {
    LabelsCallNothing(AgentEscalated);
    LabelsCallNothing(AgentReady);
    LabelsCallNothing(AgentFailed);
    hide LabelEffects, WithProcessed, Render, AppliesToHead;
  }

  lemma RepairCalls(id: Option<int>, updated: Track, f: Facts)
    ensures CallsCodex(Repair(id, updated, f)) <==> f.fix.FixCommitted? || f.fix.codexCalled
  {
    LabelsCallNothing(AgentReview);
    if f.fix.FixRaises? {
      EndingsCallNothing(id, updated, [], "", f.fix.fault);
    }
    hide LabelEffects, ControlPlaneFailure, Render;
    assert RunCodex in [RunCodex];
  }

  /** What the decisions say about the batch. */
  lemma DecisionsMean(s: Settings, f: Facts, batch: seq<Feedback>)
    requires ClassifyAll(batch, s, f).Decided?
    ensures var actions := ClassifyAll(batch, s, f).actions;
            && (Escalate !in actions <==> forall c :: c in batch ==> Fixable(s, f, c) || Ignorable(f, c))
            && (Fix in actions <==> exists c :: c in batch && Fixable(s, f, c))
  {
    var actions := ClassifyAll(batch, s, f).actions;
    forall i | 0 <= i < |batch|
      ensures (actions[i] == Fix <==> Fixable(s, f, batch[i])) && (actions[i] == Ignore <==> Ignorable(f, batch[i]))
    {
      DecisionMeaning(f.classifier(batch[i]).opinion, s.threshold, s.autoRepair, f.paths);
    }
    hide ClassifyAll, Decide, Fixable, Ignorable;
    if Fix in actions {
      var i :| 0 <= i < |actions| && actions[i] == Fix;
      assert batch[i] in batch;
    }
    if c :| c in batch && Fixable(s, f, c) {
      var i :| 0 <= i < |batch| && batch[i] == c;
      assert actions[i] == Fix;
    }
    if Escalate in actions {
      var i :| 0 <= i < |actions| && actions[i] == Escalate;
      assert batch[i] in batch;
    } else {
      forall c | c in batch ensures Fixable(s, f, c) || Ignorable(f, c) {
        var i :| 0 <= i < |batch| && batch[i] == c;
        assert actions[i] in actions;
      }
    }
  }

  lemma {:induction false} StoppedMeans(s: Settings, f: Facts, batch: seq<Feedback>)
    ensures ClassifyAll(batch, s, f).Stopped? <==> exists c :: c in batch && !f.classifier(c).Says?
  {
    var r := ClassifyAll(batch, s, f);
    hide ClassifyAll, Decide;
    if r.Stopped? {
      assert batch[r.at] in batch;
    } else {
      forall c | c in batch ensures f.classifier(c).Says? {
        var i :| 0 <= i < |batch| && batch[i] == c;
      }
    }
  }

  lemma ActCalls(s: Settings, f: Facts, id: Option<int>, nextId: int, track: Track, sorted: Sorted,
      batch: seq<Feedback>,
                 actions: seq<PolicyAction>)
    ensures CallsCodex(Act(s, f, id, nextId, track, sorted, batch, actions)) <==>
            (Escalate !in actions && Fix in actions && track.reviewAttempts < AttemptLimit(s)
             && (f.fix.FixCommitted? || f.fix.codexCalled))
  {
    var identities := sorted.skipped + Identities(batch);
    var updated := WithProcessed(track, identities);
    EndingsCallNothing(id, updated, f.items, f.expectedHead, Refused);
    EndingsCallNothing(SavedId(id, nextId), updated, f.items, f.expectedHead, Refused);
    RepairCalls(id, WithProcessed(track, identities, true, Some(f.expectedHead)), f);
    hide EscalateRun, Converge, Repair, WithProcessed, Render, AttemptLimit;
  }

  /** The feedback that a repair answers. */
  ghost predicate RepairWanted(s: Settings, f: Facts, track: Track) {
    var sorted := SortItems(f.items, s, f.expectedHead, track, f.paths);
    var batch := Batch(sorted.candidates, s.cap);
    && sorted.forbidden == []
    && (forall c :: c in batch ==> Fixable(s, f, c) || Ignorable(f, c))
    && (exists c :: c in batch && Fixable(s, f, c))
  }

  lemma EvaluateCalls(s: Settings, f: Facts, trackId: Option<int>, nextId: int, track: Track)
    ensures CallsCodex(Evaluate(s, f, trackId, nextId, track)) <==>
            (RepairWanted(s, f, track) && track.reviewAttempts < AttemptLimit(s) &&
                (f.fix.FixCommitted? || f.fix.codexCalled))
  {
    var sorted := SortItems(f.items, s, f.expectedHead, track, f.paths);
    var batch := Batch(sorted.candidates, s.cap);
    hide SortItems, Batch, Act, EscalateRun, Converge, ControlPlaneFailure, WithProcessed, Render, AttemptLimit,
        ClassifyAll, Fixable, CallsCodex;
    if sorted.forbidden != [] {
      EndingsCallNothing(trackId, WithProcessed(track, sorted.skipped + sorted.forbidden), f.items, f.expectedHead,
          Refused);
    } else if batch == [] {
      var updated := WithProcessed(track, sorted.skipped);
      EndingsCallNothing(SavedId(trackId, nextId), updated, f.items, f.expectedHead, Refused);
      AfterCalls([SaveTrack(trackId, Render(updated))],
          Converge(SavedId(trackId, nextId), updated, f.items, f.expectedHead));
    } else {
      StoppedMeans(s, f, batch);
      match ClassifyAll(batch, s, f)
      case Stopped(at, answer) =>
        var updated := WithProcessed(track, sorted.skipped + [batch[at].identity]);
        EndingsCallNothing(trackId, updated, f.items, f.expectedHead, if answer.Throws? then answer.fault else Refused);
        AfterCalls(Asks(batch[..at + 1]),
                   if answer.Throws? then ControlPlaneFailure(answer.fault) else EscalateRun(trackId, updated,
                       f.expectedHead));
        UnsaidNotWanted(s, f, batch);
      case Decided(actions) =>
        DecisionsMean(s, f, batch);
        ActCalls(s, f, trackId, nextId, track, sorted, batch, actions);
        AfterCalls(Asks(batch), Act(s, f, trackId, nextId, track, sorted, batch, actions));
    }
  }

  lemma UnsaidNotWanted(s: Settings, f: Facts, batch: seq<Feedback>)
    requires exists c :: c in batch && !f.classifier(c).Says?
    ensures !(forall c :: c in batch ==> Fixable(s, f, c) || Ignorable(f, c))
  {
    var c :| c in batch && !f.classifier(c).Says?;
    assert !Fixable(s, f, c) && !Ignorable(f, c);
  }

  /** Exactly when a review run calls Codex: on the head it was started for, with the review
      finished, nothing decided yet, no collected comment on a forbidden path, every comment of the
      batch either non-actionable or fixable (actionable with enough confidence, on named paths that
      are all in scope, with automatic repair on), at least one of them fixable, and an attempt left
      under both limits. */
  lemma RepairExactly(s: Settings, id: WorkUnitIdentity, f: Facts, hub: Hub)
    requires Inv(s, id, hub)
    ensures CallsCodex(Review(s, id, f, hub)) <==>
            (&& Precheck(f).None? && f.terminal == Terminal.ReviewCompleted
             && Sticky(CurrentTrack(hub, id), hub.labels, f.expectedHead).None?
             && RepairWanted(s, f, CurrentTrack(hub, id))
             && CurrentTrack(hub, id).reviewAttempts < s.specLimit &&
                 CurrentTrack(hub, id).reviewAttempts < s.configLimit
             && (f.fix.FixCommitted? || f.fix.codexCalled))
  {
    var track := CurrentTrack(hub, id);
    LoadsCurrent(s, id, hub);
    WithTrackCalls(s, f, hub, CurrentId(hub), track);
    EndingsCallNothing(None, track, [], "", if Precheck(f).Some? then Precheck(f).value else Refused);
    hide Inv, LoadTrack, CurrentTrack, CurrentId, WithTrack, Sticky, RepairWanted, ControlPlaneFailure, CallsCodex,
        EscalateRun, Converge;
  }

  lemma WithTrackCalls(s: Settings, f: Facts, hub: Hub, trackId: Option<int>, track: Track)
    ensures CallsCodex(WithTrack(s, f, hub, trackId, track)) <==>
            (&& f.terminal == Terminal.ReviewCompleted && Sticky(track, hub.labels, f.expectedHead).None?
             && RepairWanted(s, f, track) && track.reviewAttempts < AttemptLimit(s) &&
                 (f.fix.FixCommitted? || f.fix.codexCalled))
  {
    LabelsCallNothing(AgentReview);
    EvaluateCalls(s, f, trackId, hub.nextId, track);
    AfterCalls(LabelEffects(AgentReview), Evaluate(s, f, trackId, hub.nextId, track));
    EndingsCallNothing(trackId, track, [], f.expectedHead, Refused);
    hide Evaluate, EscalateRun, LabelEffects, Sticky, RepairWanted, Converge, ControlPlaneFailure, AttemptLimit, After;
  }
}
