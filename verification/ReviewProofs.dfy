/** What a decided review run means, that it is final for its head, and how many runs convergence
    takes (agent/review_loop.py). */
module ReviewProofs {
  import opened Prelude
  import opened Spec
  import opened PyText
  import opened ReviewTrack
  import opened ReviewPolicy
  import opened ReviewHub
  import opened ReviewLoop
  import opened ReviewHistory
  import Terminal

  function LabelOf(outcome: ReviewOutcome): StatusLabel {
    match outcome
    case InReview | FixPushed => AgentReview
    case ReadyForHuman => AgentReady
    case ReviewEscalated => AgentEscalated
    case ReviewFailed => AgentFailed
  }

  predicate Final(outcome: ReviewOutcome) {
    outcome == ReadyForHuman || outcome == ReviewEscalated || outcome == ReviewFailed
  }

  predicate Saves(effects: seq<Effect>) {
    exists e :: e in effects && e.SaveTrack?
  }

  /** How a part of a run leaves the pull request: one label, the one of its outcome; and a final
      outcome that saved the track has bound it to the head. */
  ghost predicate Ends(s: Settings, id: WorkUnitIdentity, hub: Hub, head: string, run: ReviewRun) {
    var after := ApplyAll(hub, run.effects);
    && Inv(s, id, after)
    && after.labels == {LabelOf(run.outcome)}
    && (Final(run.outcome) && Saves(run.effects) ==> CurrentTrack(after, id).headSha == head)
  }

  lemma HarmlessSavesNothing(effects: seq<Effect>)
    requires forall e :: e in effects ==> Harmless(e)
    ensures !Saves(effects)
  {
  }

  lemma AfterEnds(s: Settings, id: WorkUnitIdentity, hub: Hub, head: string, first: seq<Effect>, run: ReviewRun)
    requires Ends(s, id, ApplyAll(hub, first), head, run)
    requires Final(run.outcome) && Saves(first) ==> Saves(run.effects)
    ensures Ends(s, id, hub, head, After(first, run))
  {
    hide Inv, CurrentTrack, ApplyAll;
    ApplyConcat(hub, first, run.effects);
  }

  lemma SaveLabelEnds(s: Settings, id: WorkUnitIdentity, hub: Hub, u: Track, head: string, outcome: ReviewOutcome)
    requires Inv(s, id, hub) && GoodTrack(s, id, u) && Continues(CurrentTrack(hub, id), u) &&
        Parse(Render(u)) == Some(u)
    requires u.headSha == head
    ensures Ends(s, id, hub, head,
        ReviewRun(outcome, [SaveTrack(CurrentId(hub), Render(u))] + LabelEffects(LabelOf(outcome))))
    ensures CurrentTrack(ApplyAll(hub, [SaveTrack(CurrentId(hub), Render(u))] + LabelEffects(LabelOf(outcome))),
        id) == u
  {
    SaveAllowed(s, id, hub, u);
    SaveThenLabel(s, id, hub, u, LabelOf(outcome));
    hide Inv, CurrentTrack, ApplyAll, LabelEffects, Parse, Render;
    LabelsDoNotMatter(s, id, Apply(hub, SaveTrack(CurrentId(hub), Render(u))), {LabelOf(outcome)});
  }

  lemma EscalateEnds(s: Settings, id: WorkUnitIdentity, hub: Hub, t: Track, head: string)
    requires Inv(s, id, hub) && GoodTrack(s, id, t) && Continues(CurrentTrack(hub, id), t) && Clean(head)
    ensures Ends(s, id, hub, head, EscalateRun(CurrentId(hub), t, head))
  {
    MergedIsGood(s, id, t, [], false, Some(head));
    hide *;
    BoundContinues(CurrentTrack(hub, id), t, head);
    EscalateShape(CurrentId(hub), t, head);
    SaveLabelEnds(s, id, hub, WithProcessed(t, [], false, Some(head)), head, ReviewEscalated);
  }

  lemma EscalateShape(trackId: Option<int>, t: Track, head: string)
    ensures EscalateRun(trackId, t, head) ==
              ReviewRun(ReviewEscalated, [SaveTrack(trackId, Render(WithProcessed(t, [], false, Some(head))))] +
                  LabelEffects(LabelOf(ReviewEscalated)))
  {
    hide WithProcessed, Render, LabelEffects;
  }

  lemma BoundContinues(earlier: Track, t: Track, head: string)
    requires Continues(earlier, t)
    ensures var bound := WithProcessed(t, [], false, Some(head)); bound.headSha == head && Continues(earlier, bound)
  {
  }

  lemma ConvergeShape(trackId: Option<int>, t: Track, items: seq<Feedback>, head: string)
    ensures var run := Converge(trackId, t, items, head);
            || run == ReviewRun(InReview, [])
            || run == ReviewRun(ReadyForHuman, [SaveTrack(trackId, Render(WithProcessed(t, [], false, Some(head))))] +
                   LabelEffects(LabelOf(ReadyForHuman)))
  {
    hide WithProcessed, Render, LabelEffects, AppliesToHead;
  }

  lemma ConvergeEnds(s: Settings, id: WorkUnitIdentity, hub: Hub, items: seq<Feedback>, head: string)
    requires Inv(s, id, hub) && Clean(head) && hub.labels == {AgentReview}
    ensures Ends(s, id, hub, head, Converge(CurrentId(hub), CurrentTrack(hub, id), items, head))
  {
    var t := CurrentTrack(hub, id);
    hide *;
    GoodNow(s, id, hub);
    NothingListed();
    MergedIsGood(s, id, t, [], false, Some(head));
    BoundContinues(t, t, head);
    SaveLabelEnds(s, id, hub, WithProcessed(t, [], false, Some(head)), head, ReadyForHuman);
    NothingEnds(s, id, hub, head);
    ConvergeShape(CurrentId(hub), t, items, head);
  }

  /** Setting a label and nothing else. */
  lemma LabelEnds(s: Settings, id: WorkUnitIdentity, hub: Hub, head: string, outcome: ReviewOutcome)
    requires Inv(s, id, hub)
    ensures Ends(s, id, hub, head, ReviewRun(outcome, LabelEffects(LabelOf(outcome)))) &&
        !Saves(LabelEffects(LabelOf(outcome)))
  {
    LabelsHarmless(LabelOf(outcome));
    HarmlessSavesNothing(LabelEffects(LabelOf(outcome)));
    LabelIsExclusive(hub, LabelOf(outcome));
    hide LabelEffects, Inv, CurrentTrack, ApplyAll, Saves;
    LabelsDoNotMatter(s, id, hub, {LabelOf(outcome)});
  }

  lemma FailureShape(fault: Fault)
    ensures var run := ControlPlaneFailure(fault);
            Final(run.outcome) && run == ReviewRun(run.outcome, LabelEffects(LabelOf(run.outcome)))
  {
    hide LabelEffects;
  }

  lemma FailureEnds(s: Settings, id: WorkUnitIdentity, hub: Hub, head: string, fault: Fault)
    requires Inv(s, id, hub)
    ensures Ends(s, id, hub, head, ControlPlaneFailure(fault)) && !Saves(ControlPlaneFailure(fault).effects)
  {
    hide *;
    FailureShape(fault);
    LabelEnds(s, id, hub, head, ControlPlaneFailure(fault).outcome);
  }

  /** Failing after the track was saved bound to the head. */
  lemma FailureKeepsHead(s: Settings, id: WorkUnitIdentity, hub: Hub, head: string, first: seq<Effect>, fault: Fault)
    requires Inv(s, id, ApplyAll(hub, first)) && CurrentTrack(ApplyAll(hub, first), id).headSha == head
    ensures Ends(s, id, hub, head, After(first, ControlPlaneFailure(fault)))
  {
    var status := if fault == Unavailable then AgentFailed else AgentEscalated;
    ApplyConcat(hub, first, LabelEffects(status));
    LabelIsExclusive(ApplyAll(hub, first), status);
    hide LabelEffects, Inv, CurrentTrack, ApplyAll;
    LabelsDoNotMatter(s, id, ApplyAll(hub, first), {status});
  }

  lemma CodexKeeps(s: Settings, id: WorkUnitIdentity, hub: Hub)
    requires Inv(s, id, hub) && hub.codexCalls < CurrentTrack(hub, id).reviewAttempts
    ensures Inv(s, id, Apply(hub, RunCodex)) && CurrentTrack(Apply(hub, RunCodex), id) == CurrentTrack(hub, id)
    ensures ApplyAll(hub, [RunCodex]) == Apply(hub, RunCodex)
  {
    hide GoodTrack, Parse, Render;
    assert [RunCodex][1..] == [];
  }

  lemma RepairEnds(s: Settings, id: WorkUnitIdentity, hub: Hub, u: Track, f: Facts)
    requires Inv(s, id, hub) && GoodTrack(s, id, u) && Continues(CurrentTrack(hub, id), u) &&
        Parse(Render(u)) == Some(u)
    requires u.reviewAttempts == CurrentTrack(hub, id).reviewAttempts + 1 && u.headSha == f.expectedHead
    ensures Ends(s, id, hub, f.expectedHead, Repair(CurrentId(hub), u, f))
  {
    var e := SaveTrack(CurrentId(hub), Render(u));
    SaveAllowed(s, id, hub, u);
    var saved := Apply(hub, e);
    assert saved.codexCalls < CurrentTrack(saved, id).reviewAttempts;
    hide *;
    CodexKeeps(s, id, saved);
    ApplyConcat(hub, [e], [RunCodex]);
    RepairShape(s, id, hub, u, f);
  }

  lemma RepairShape(s: Settings, id: WorkUnitIdentity, hub: Hub, u: Track, f: Facts)
    requires var saved := ApplyAll(hub, [SaveTrack(CurrentId(hub), Render(u))]);
             var called := ApplyAll(hub, [SaveTrack(CurrentId(hub), Render(u))] + [RunCodex]);
             && Inv(s, id, saved) && CurrentTrack(saved, id) == u
             && Inv(s, id, called) && CurrentTrack(called, id) == u
    requires u.headSha == f.expectedHead
    ensures Ends(s, id, hub, f.expectedHead, Repair(CurrentId(hub), u, f))
  {
    hide Inv, CurrentTrack, ApplyAll, ControlPlaneFailure, LabelEffects, Render, Parse;
    var e := SaveTrack(CurrentId(hub), Render(u));
    match f.fix
    case FixCommitted =>
      ApplyConcat(hub, [e] + [RunCodex], LabelEffects(AgentReview));
      LabelIsExclusive(ApplyAll(hub, [e] + [RunCodex]), AgentReview);
      LabelsDoNotMatter(s, id, ApplyAll(hub, [e] + [RunCodex]), {AgentReview});
    case FixRaises(codexCalled, fault) =>
      assert [e] + [] == [e];
      FailureKeepsHead(s, id, hub, f.expectedHead, [e] + (if codexCalled then [RunCodex] else []), fault);
  }

  /** Save the merged track, then maybe converge. */
  lemma SaveConvergeEnds(s: Settings, id: WorkUnitIdentity, hub: Hub, u: Track, items: seq<Feedback>, head: string,
      more: bool)
    requires Inv(s, id, hub) && GoodTrack(s, id, u) && Continues(CurrentTrack(hub, id), u) &&
        Parse(Render(u)) == Some(u)
    requires Clean(head) && hub.labels == {AgentReview}
    ensures var rest := if more then ReviewRun(InReview, [])
                        else Converge(SavedId(CurrentId(hub), hub.nextId), u, items, head);
            Ends(s, id, hub, head, After([SaveTrack(CurrentId(hub), Render(u))], rest))
  {
    var e := SaveTrack(CurrentId(hub), Render(u));
    SaveAllowed(s, id, hub, u);
    var saved := Apply(hub, e);
    assert saved.labels == {AgentReview};
    var rest := if more then ReviewRun(InReview, []) else Converge(SavedId(CurrentId(hub), hub.nextId), u, items, head);
    hide *;
    ConvergeEnds(s, id, saved, items, head);
    FinalConvergeSaves(SavedId(CurrentId(hub), hub.nextId), u, items, head);
    NothingEnds(s, id, saved, head);
    AfterEnds(s, id, hub, head, [e], rest);
  }

  lemma NothingEnds(s: Settings, id: WorkUnitIdentity, hub: Hub, head: string)
    requires Inv(s, id, hub) && hub.labels == {AgentReview}
    ensures Ends(s, id, hub, head, ReviewRun(InReview, [])) && !Final(InReview)
  {
    hide Inv;
  }

  lemma FinalConvergeSaves(trackId: Option<int>, t: Track, items: seq<Feedback>, head: string)
    ensures var run := Converge(trackId, t, items, head); Final(run.outcome) ==> Saves(run.effects)
  {
    hide LabelEffects, Render;
    var run := Converge(trackId, t, items, head);
    if Final(run.outcome) {
      assert run.effects[0].SaveTrack? && run.effects[0] in run.effects;
    }
  }

  lemma ActEnds(s: Settings, id: WorkUnitIdentity, f: Facts, hub: Hub, sorted: Sorted, batch: seq<Feedback>,
      actions: seq<PolicyAction>)
    requires Inv(s, id, hub) && Clean(f.expectedHead) && hub.labels == {AgentReview}
    requires Listable(sorted.skipped) && Listable(Identities(batch))
    ensures Ends(s, id, hub, f.expectedHead,
        Act(s, f, CurrentId(hub), hub.nextId, CurrentTrack(hub, id), sorted, batch, actions))
  {
    var track := CurrentTrack(hub, id);
    var identities := sorted.skipped + Identities(batch);
    ListableConcat(sorted.skipped, Identities(batch));
    GoodNow(s, id, hub);
    hide Inv, Clean, Listable, CurrentTrack, CurrentId, Ends, EscalateRun, Converge, Repair, GoodTrack, Continues,
        Parse, Render;
    MergedIsGood(s, id, track, identities, false, None);
    var updated := WithProcessed(track, identities);
    if Escalate in actions || (Fix in actions && track.reviewAttempts >= AttemptLimit(s)) {
      EscalateEnds(s, id, hub, updated, f.expectedHead);
    } else if Fix !in actions {
      SaveConvergeEnds(s, id, hub, updated, f.items, f.expectedHead, |batch| < |sorted.candidates|);
    } else {
      MergedIsGood(s, id, track, identities, true, Some(f.expectedHead));
      RepairEnds(s, id, hub, WithProcessed(track, identities, true, Some(f.expectedHead)), f);
    }
  }

  lemma AskedEnds(s: Settings, id: WorkUnitIdentity, hub: Hub, head: string, items: seq<Feedback>, run: ReviewRun)
    requires Ends(s, id, hub, head, run)
    ensures Ends(s, id, hub, head, After(Asks(items), run))
  {
    AskedFirst(s, id, hub, items);
    HarmlessSavesNothing(Asks(items));
    hide Ends, ApplyAll;
    AfterEnds(s, id, hub, head, Asks(items), run);
  }

  lemma MergedEscalates(s: Settings, id: WorkUnitIdentity, hub: Hub, identities: seq<string>, head: string)
    requires Inv(s, id, hub) && Clean(head) && Listable(identities)
    ensures Ends(s, id, hub, head, EscalateRun(CurrentId(hub), WithProcessed(CurrentTrack(hub, id), identities), head))
  {
    GoodNow(s, id, hub);
    hide Inv, CurrentTrack, Ends, EscalateRun, GoodTrack, Continues, Parse, Render, Clean, Listable;
    MergedIsGood(s, id, CurrentTrack(hub, id), identities, false, None);
    EscalateEnds(s, id, hub, WithProcessed(CurrentTrack(hub, id), identities), head);
  }

  lemma EvaluateEnds(s: Settings, id: WorkUnitIdentity, f: Facts, hub: Hub)
    requires Inv(s, id, hub) && CleanFacts(f) && hub.labels == {AgentReview}
    ensures Ends(s, id, hub, f.expectedHead, Evaluate(s, f, CurrentId(hub), hub.nextId, CurrentTrack(hub, id)))
  {
    var track := CurrentTrack(hub, id);
    hide *;
    SortedClean(f, s, track);
    CleanHead(f);
    GoodNow(s, id, hub);
    EvaluateShape(s, f, CurrentId(hub), hub.nextId, track);
    var sorted := SortItems(f.items, s, f.expectedHead, track, f.paths);
    var batch := Batch(sorted.candidates, s.cap);
    if sorted.forbidden != [] {
      ListableConcat(sorted.skipped, sorted.forbidden);
      MergedEscalates(s, id, hub, sorted.skipped + sorted.forbidden, f.expectedHead);
    } else if batch == [] {
      MergedIsGood(s, id, track, sorted.skipped, false, None);
      SaveConvergeEnds(s, id, hub, WithProcessed(track, sorted.skipped), f.items, f.expectedHead, false);
    } else if ClassifyAll(batch, s, f).Stopped? {
      var stop := ClassifyAll(batch, s, f);
      StoppedEnds(s, id, f, hub, sorted, batch, stop.at, stop.answer);
    } else {
      var actions := ClassifyAll(batch, s, f).actions;
      ActEnds(s, id, f, hub, sorted, batch, actions);
      AskedEnds(s, id, hub, f.expectedHead, batch,
          Act(s, f, CurrentId(hub), hub.nextId, track, sorted, batch, actions));
    }
  }

  lemma StoppedEnds(s: Settings, id: WorkUnitIdentity, f: Facts, hub: Hub, sorted: Sorted, batch: seq<Feedback>,
      at: nat, answer: ClassifierAnswer)
    requires Inv(s, id, hub) && Clean(f.expectedHead) && at < |batch|
    requires Listable(sorted.skipped) && Listable(Identities(batch))
    ensures var end := if answer.Throws? then ControlPlaneFailure(answer.fault)
                       else EscalateRun(CurrentId(hub),
                           WithProcessed(CurrentTrack(hub, id), sorted.skipped + [batch[at].identity]), f.expectedHead);
            Ends(s, id, hub, f.expectedHead, After(Asks(batch[..at + 1]), end))
  {
    assert Identities(batch)[at] == batch[at].identity;
    ListableParts(Identities(batch), [batch[at].identity]);
    ListableConcat(sorted.skipped, [batch[at].identity]);
    hide Inv, Clean, CurrentTrack, CurrentId, Ends, EscalateRun, ControlPlaneFailure, Listable;
    if answer.Throws? {
      FailureEnds(s, id, hub, f.expectedHead, answer.fault);
      AskedEnds(s, id, hub, f.expectedHead, batch[..at + 1], ControlPlaneFailure(answer.fault));
    } else {
      var identities := sorted.skipped + [batch[at].identity];
      MergedEscalates(s, id, hub, identities, f.expectedHead);
      AskedEnds(s, id, hub, f.expectedHead, batch[..at + 1],
                EscalateRun(CurrentId(hub), WithProcessed(CurrentTrack(hub, id), identities), f.expectedHead));
    }
  }

  /** A run that does anything leaves exactly the label of its outcome, and a final outcome that
      saved the track has bound it to the head. */
  lemma ReviewEnds(s: Settings, id: WorkUnitIdentity, f: Facts, hub: Hub)
    requires Inv(s, id, hub) && CleanFacts(f)
    ensures var run := Review(s, id, f, hub);
            run.effects == [] || Ends(s, id, hub, f.expectedHead, run)
  {
    LoadsCurrent(s, id, hub);
    WithTrackEnds(s, id, f, hub);
    hide WithTrack, LoadTrack, Inv, CleanFacts, Ends, CurrentTrack, CurrentId;
    if Precheck(f).Some? {
      FailureEnds(s, id, hub, f.expectedHead, Precheck(f).value);
    }
  }

  lemma WithTrackEnds(s: Settings, id: WorkUnitIdentity, f: Facts, hub: Hub)
    requires Inv(s, id, hub) && CleanFacts(f)
    ensures var run := WithTrack(s, f, hub, CurrentId(hub), CurrentTrack(hub, id));
            run.effects == [] || Ends(s, id, hub, f.expectedHead, run)
  {
    hide *;
    CleanHead(f);
    GoodNow(s, id, hub);
    WithTrackShape(s, f, hub, CurrentId(hub), CurrentTrack(hub, id));
    EscalateEnds(s, id, hub, CurrentTrack(hub, id), f.expectedHead);
    ReviewLabelEnds(s, id, hub, f.expectedHead);
    EvaluatedEnds(s, id, f, hub);
  }

  lemma ReviewLabelEnds(s: Settings, id: WorkUnitIdentity, hub: Hub, head: string)
    requires Inv(s, id, hub)
    ensures Ends(s, id, hub, head, ReviewRun(InReview, LabelEffects(AgentReview))) && !Saves(LabelEffects(AgentReview))
  {
    assert LabelOf(InReview) == AgentReview;
    hide *;
    LabelEnds(s, id, hub, head, InReview);
  }

  lemma EvaluatedEnds(s: Settings, id: WorkUnitIdentity, f: Facts, hub: Hub)
    requires Inv(s, id, hub) && CleanFacts(f)
    ensures Ends(s, id, hub, f.expectedHead,
                 After(LabelEffects(AgentReview), Evaluate(s, f, CurrentId(hub), hub.nextId, CurrentTrack(hub, id))))
  {
    var labelled := hub.(labels := {AgentReview});
    LabelIsExclusive(hub, AgentReview);
    LabelsDoNotMatter(s, id, hub, {AgentReview});
    hide *;
    ReviewLabelEnds(s, id, hub, f.expectedHead);
    EvaluateEnds(s, id, f, labelled);
    AfterEnds(s, id, hub, f.expectedHead, LabelEffects(AgentReview),
              Evaluate(s, f, CurrentId(hub), hub.nextId, CurrentTrack(hub, id)));
  }

  lemma {:induction false} UnsavedTracks(hub: Hub, effects: seq<Effect>)
    requires !Saves(effects)
    ensures ApplyAll(hub, effects).tracks == hub.tracks
    decreases |effects|
  {
    if effects != [] {
      assert !Saves(effects[1..]) by {
        assert forall e :: e in effects[1..] ==> e in effects;
      }
      assert effects[0] in effects;
      UnsavedTracks(Apply(hub, effects[0]), effects[1..]);
    }
  }

  /** Every later run on `head` gives the same answer and does nothing. */
  ghost predicate Settled(s: Settings, id: WorkUnitIdentity, head: string, after: Hub, outcome: ReviewOutcome) {
    forall later: Facts ::
      Precheck(later).None? && later.expectedHead == head ==> Review(s, id, later, after) == ReviewRun(outcome, [])
  }

  /** The classifier raises before it has given an opinion that it would have to. */
  predicate RaisesFirst(f: Facts, batch: seq<Feedback>) {
    exists i :: 0 <= i < |batch| && f.classifier(batch[i]).Throws? && forall j :: 0 <= j < i ==>
        f.classifier(batch[j]).Says?
  }

  /** Whether a run will save the track, told from what it meets: it is not stopped by its first
      checks, the head is not decided yet, and either the review ended badly, or it is completed and,
      unless a comment names a forbidden path, no classifier call of the batch raises first. */
  predicate WillSave(s: Settings, f: Facts, track: Track, labels: set<StatusLabel>) {
    var sorted := SortItems(f.items, s, f.expectedHead, track, f.paths);
    && Precheck(f).None? && Sticky(track, labels, f.expectedHead).None?
    && (Escalating(f.terminal)
        || (f.terminal == Terminal.ReviewCompleted
            && (sorted.forbidden != [] || !RaisesFirst(f, Batch(sorted.candidates, s.cap)))))
  }

  lemma {:induction false} StopIsFirst(batch: seq<Feedback>, s: Settings, f: Facts)
    ensures RaisesFirst(f, batch) <==> ClassifyAll(batch, s, f).Stopped? && ClassifyAll(batch, s, f).answer.Throws?
    decreases |batch|
  {
    hide Decide;
    if batch != [] {
      StopIsFirst(batch[1..], s, f);
      var here := f.classifier(batch[0]);
      if here.Says? {
        if RaisesFirst(f, batch) {
          var i :| 0 <= i < |batch| && f.classifier(batch[i]).Throws? && forall j :: 0 <= j < i ==>
              f.classifier(batch[j]).Says?;
          assert f.classifier(batch[1..][i - 1]).Throws?;
        }
        if RaisesFirst(f, batch[1..]) {
          var i :| 0 <= i < |batch[1..]| && f.classifier(batch[1..][i]).Throws?
                   && forall j :: 0 <= j < i ==> f.classifier(batch[1..][j]).Says?;
          assert f.classifier(batch[i + 1]).Throws?;
          forall j | 0 <= j < i + 1 ensures f.classifier(batch[j]).Says? {
            if j > 0 { assert f.classifier(batch[1..][j - 1]).Says?; }
          }
        }
      } else if here.Throws? {
        assert f.classifier(batch[0]).Throws?;
      }
    }
  }

  lemma SavingParts(trackId: Option<int>, t: Track, items: seq<Feedback>, head: string, fault: Fault,
      status: StatusLabel)
    ensures Saves(EscalateRun(trackId, t, head).effects) && !Saves(ControlPlaneFailure(fault).effects)
    ensures !Saves(LabelEffects(status))
  {
    LabelsHarmless(AgentFailed);
    LabelsHarmless(AgentEscalated);
    LabelsHarmless(status);
    HarmlessSavesNothing(LabelEffects(AgentFailed));
    HarmlessSavesNothing(LabelEffects(AgentEscalated));
    HarmlessSavesNothing(LabelEffects(status));
    hide LabelEffects, WithProcessed, Render;
    assert EscalateRun(trackId, t, head).effects[0].SaveTrack?;
  }

  lemma AfterSaves(first: seq<Effect>, run: ReviewRun)
    ensures Saves(After(first, run).effects) <==> Saves(first) || Saves(run.effects)
  {
    if e :| e in first && e.SaveTrack? { assert e in After(first, run).effects; }
    if e :| e in run.effects && e.SaveTrack? { assert e in After(first, run).effects; }
  }

  lemma ActSaves(s: Settings, f: Facts, id: Option<int>, nextId: int, track: Track, sorted: Sorted,
      batch: seq<Feedback>,
                 actions: seq<PolicyAction>)
    ensures Saves(Act(s, f, id, nextId, track, sorted, batch, actions).effects)
  {
    hide Converge, ControlPlaneFailure, LabelEffects, WithProcessed, Render, SortItems, AttemptLimit;
    assert Act(s, f, id, nextId, track, sorted, batch, actions).effects[0].SaveTrack?;
  }

  lemma EvaluateSaves(s: Settings, f: Facts, trackId: Option<int>, nextId: int, track: Track)
    ensures var sorted := SortItems(f.items, s, f.expectedHead, track, f.paths);
            Saves(Evaluate(s, f, trackId, nextId, track).effects) <==>
            (sorted.forbidden != [] || !RaisesFirst(f, Batch(sorted.candidates, s.cap)))
  {
    var sorted := SortItems(f.items, s, f.expectedHead, track, f.paths);
    var batch := Batch(sorted.candidates, s.cap);
    hide *;
    EvaluateShape(s, f, trackId, nextId, track);
    StopIsFirst(batch, s, f);
    HarmlessAsks(batch);
    if sorted.forbidden != [] {
      SavingParts(trackId, WithProcessed(track, sorted.skipped + sorted.forbidden), f.items, f.expectedHead, Refused,
          AgentReview);
    } else if batch == [] {
      var updated := WithProcessed(track, sorted.skipped);
      var e := SaveTrack(trackId, Render(updated));
      OneSave(e);
      NothingClassifiedSaves(s, f);
      AfterSaves([e], Converge(SavedId(trackId, nextId), updated, f.items, f.expectedHead));
    } else {
      match ClassifyAll(batch, s, f)
      case Stopped(at, answer) =>
        var t := WithProcessed(track, sorted.skipped + [batch[at].identity]);
        HarmlessAsks(batch[..at + 1]);
        SavingParts(trackId, t, f.items, f.expectedHead, if answer.Throws? then answer.fault else Refused, AgentReview);
        AfterSaves(Asks(batch[..at + 1]),
                   if answer.Throws? then ControlPlaneFailure(answer.fault) else EscalateRun(trackId, t,
                       f.expectedHead));
      case Decided(actions) =>
        ActSaves(s, f, trackId, nextId, track, sorted, batch, actions);
        AfterSaves(Asks(batch), Act(s, f, trackId, nextId, track, sorted, batch, actions));
    }
  }

  lemma HarmlessAsks(items: seq<Feedback>)
    ensures !Saves(Asks(items))
  {
    HarmlessSavesNothing(Asks(items));
  }

  lemma OneSave(e: Effect)
    requires e.SaveTrack?
    ensures Saves([e])
  {
    assert e in [e];
  }

  lemma NothingClassifiedSaves(s: Settings, f: Facts)
    ensures !RaisesFirst(f, [])
  {
  }

  /** A run saves the track exactly when what it meets lets it. */
  lemma SavesExactly(s: Settings, id: WorkUnitIdentity, f: Facts, hub: Hub)
    requires Inv(s, id, hub)
    ensures Saves(Review(s, id, f, hub).effects) <==> WillSave(s, f, CurrentTrack(hub, id), hub.labels)
  {
    var track := CurrentTrack(hub, id);
    LoadsCurrent(s, id, hub);
    WithTrackSaves(s, f, hub, CurrentId(hub), track);
    SavingParts(None, track, [], "", if Precheck(f).Some? then Precheck(f).value else Refused, AgentReview);
    hide Inv, LoadTrack, CurrentTrack, CurrentId, WithTrack, Sticky, Saves, ControlPlaneFailure, EscalateRun,
        SortItems, RaisesFirst, Batch;
  }

  lemma WithTrackSaves(s: Settings, f: Facts, hub: Hub, trackId: Option<int>, track: Track)
    ensures Saves(WithTrack(s, f, hub, trackId, track).effects) <==>
            (var sorted := SortItems(f.items, s, f.expectedHead, track, f.paths);
             && Sticky(track, hub.labels, f.expectedHead).None?
             && (Escalating(f.terminal)
                 || (f.terminal == Terminal.ReviewCompleted
                     && (sorted.forbidden != [] || !RaisesFirst(f, Batch(sorted.candidates, s.cap))))))
  {
    EvaluateSaves(s, f, trackId, hub.nextId, track);
    SavingParts(trackId, track, [], f.expectedHead, Refused, AgentReview);
    AfterSaves(LabelEffects(AgentReview), Evaluate(s, f, trackId, hub.nextId, track));
    assert !Saves([]);
    hide Evaluate, EscalateRun, LabelEffects, Sticky, Saves, ControlPlaneFailure, After, SortItems, RaisesFirst, Batch;
  }

  /** Exactly when a ready, escalated or failed answer settles the head, told from what the run meets:
      when it will save the track, or the track is already bound to that head.  A run that fails
      before either is decided anew by the next one. */
  lemma SettledExactly(s: Settings, id: WorkUnitIdentity, f: Facts, hub: Hub)
    requires Inv(s, id, hub) && CleanFacts(f) && f.expectedHead != ""
    requires Final(Review(s, id, f, hub).outcome)
    ensures var run := Review(s, id, f, hub);
            Settled(s, id, f.expectedHead, ApplyAll(hub, run.effects), run.outcome)
            <==> (WillSave(s, f, CurrentTrack(hub, id), hub.labels) || CurrentTrack(hub, id).headSha == f.expectedHead)
  {
    var run := Review(s, id, f, hub);
    var after := ApplyAll(hub, run.effects);
    var bound := Saves(run.effects) || CurrentTrack(hub, id).headSha == f.expectedHead;
    AfterRun(s, id, f, hub);
    SavesExactly(s, id, f, hub);
    hide *;
    if bound {
      forall later: Facts | Precheck(later).None? && later.expectedHead == f.expectedHead
        ensures Review(s, id, later, after) == ReviewRun(run.outcome, [])
      {
        BoundAnswer(s, id, later, after, run.outcome);
      }
      assert Settled(s, id, f.expectedHead, after,
          run.outcome) by { SettledMeans(s, id, f.expectedHead, after, run.outcome); }
    } else {
      var later := f.(apiHead := f.expectedHead, workspaceHead := f.expectedHead, specFault := None,
          terminal := Terminal.InProgress);
      UnboundAnswer(s, id, later, after);
      SettledMeans(s, id, f.expectedHead, after, run.outcome);
    }
  }

  lemma SettledMeans(s: Settings, id: WorkUnitIdentity, head: string, after: Hub, outcome: ReviewOutcome)
    ensures Settled(s, id, head, after, outcome) <==>
            forall later: Facts ::
              Precheck(later).None? && later.expectedHead == head ==>
                  Review(s, id, later, after) == ReviewRun(outcome, [])
  {
    hide Review, Precheck;
  }

  /** The pull request after a final answer. */
  lemma AfterRun(s: Settings, id: WorkUnitIdentity, f: Facts, hub: Hub)
    requires Inv(s, id, hub) && CleanFacts(f)
    requires Final(Review(s, id, f, hub).outcome)
    ensures var run := Review(s, id, f, hub);
            var after := ApplyAll(hub, run.effects);
            && Inv(s, id, after)
            && TerminalLabel(after.labels) == Some(LabelOf(run.outcome))
            && (CurrentTrack(after, id).headSha == f.expectedHead <==>
                Saves(run.effects) || CurrentTrack(hub, id).headSha == f.expectedHead)
  {
    var run := Review(s, id, f, hub);
    ReviewEnds(s, id, f, hub);
    if run.effects == [] {
      StickyLabel(s, id, f, hub);
    }
    hide Review, Inv, LabelOf;
    if !Saves(run.effects) {
      UnsavedTracks(hub, run.effects);
    }
    LabelOfFinal(run.outcome);
  }

  lemma LabelOfFinal(outcome: ReviewOutcome)
    requires Final(outcome)
    ensures TerminalLabel({LabelOf(outcome)}) == Some(LabelOf(outcome))
  {
  }

  lemma StickyLabel(s: Settings, id: WorkUnitIdentity, f: Facts, hub: Hub)
    requires Inv(s, id, hub) && Final(Review(s, id, f, hub).outcome) && Review(s, id, f, hub).effects == []
    ensures TerminalLabel(hub.labels) == Some(LabelOf(Review(s, id, f, hub).outcome))
    ensures CurrentTrack(hub, id).headSha == f.expectedHead
  {
    LoadsCurrent(s, id, hub);
    hide Inv, LoadTrack, CurrentTrack, CurrentId, WithTrack, Removals;
    QuietIsSticky(s, f, hub, CurrentId(hub), CurrentTrack(hub, id));
  }

  lemma QuietIsSticky(s: Settings, f: Facts, hub: Hub, trackId: Option<int>, track: Track)
    requires WithTrack(s, f, hub, trackId, track).effects == [] && Final(WithTrack(s, f, hub, trackId, track).outcome)
    ensures track.headSha == f.expectedHead
    ensures TerminalLabel(hub.labels) == Some(LabelOf(WithTrack(s, f, hub, trackId, track).outcome))
  {
    hide Evaluate, WithProcessed, Render, Removals;
  }

  lemma BoundAnswer(s: Settings, id: WorkUnitIdentity, later: Facts, after: Hub, outcome: ReviewOutcome)
    requires Inv(s, id, after) && Precheck(later).None? && CurrentTrack(after, id).headSha == later.expectedHead
    requires Final(outcome) && TerminalLabel(after.labels) == Some(LabelOf(outcome))
    ensures Review(s, id, later, after) == ReviewRun(outcome, [])
  {
    LoadsCurrent(s, id, after);
    hide Inv, LoadTrack, CurrentTrack, CurrentId, WithTrack;
    BoundIsSticky(s, later, after, CurrentId(after), CurrentTrack(after, id), outcome);
  }

  lemma BoundIsSticky(s: Settings, f: Facts, hub: Hub, trackId: Option<int>, track: Track, outcome: ReviewOutcome)
    requires track.headSha == f.expectedHead && Final(outcome) && TerminalLabel(hub.labels) == Some(LabelOf(outcome))
    ensures WithTrack(s, f, hub, trackId, track) == ReviewRun(outcome, [])
  {
    hide Evaluate, EscalateRun, TerminalLabel, LabelEffects;
  }

  lemma UnboundAnswer(s: Settings, id: WorkUnitIdentity, later: Facts, after: Hub)
    requires Inv(s, id, after) && CurrentTrack(after, id).headSha != later.expectedHead && later.expectedHead != ""
    requires later.apiHead == later.workspaceHead == later.expectedHead && later.specFault == None &&
        later.terminal == Terminal.InProgress
    ensures Precheck(later).None? && Review(s, id, later, after).outcome == InReview
  {
    LoadsCurrent(s, id, after);
    hide Inv, LoadTrack, CurrentTrack, CurrentId, Evaluate, EscalateRun, LabelEffects;
  }
}
