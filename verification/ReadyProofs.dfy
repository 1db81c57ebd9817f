/** What it means that a review run decides a pull request is ready (agent/review_loop.py). */
module ReadyProofs {
  import opened Prelude
  import opened Spec
  import opened PyText
  import opened ReviewTrack
  import opened ReviewPolicy
  import opened ReviewHub
  import opened ReviewLoop
  import opened ReviewHistory
  import opened ReviewProofs
  import Terminal

  /** The identities a run lists as processed when it escalates on nothing. */
  function Handled(s: Settings, f: Facts, track: Track): seq<string> {
    var sorted := SortItems(f.items, s, f.expectedHead, track, f.paths);
    sorted.skipped + Identities(Batch(sorted.candidates, s.cap))
  }

  /** The only way `Evaluate` ends ready: ask about the batch, save what was handled, and save again
      bound to the head. */
  lemma ReadyShape(s: Settings, f: Facts, trackId: Option<int>, nextId: int, track: Track)
    requires Evaluate(s, f, trackId, nextId, track).outcome == ReadyForHuman
    ensures var sorted := SortItems(f.items, s, f.expectedHead, track, f.paths);
            var batch := Batch(sorted.candidates, s.cap);
            var updated := WithProcessed(track, Handled(s, f, track));
            && sorted.forbidden == []
            && (forall c :: c in batch ==>
                f.classifier(c).Says? && f.classifier(c).opinion.classification == NonActionable)
            && Converge(SavedId(trackId, nextId), updated, f.items, f.expectedHead).outcome == ReadyForHuman
            && Evaluate(s, f, trackId, nextId, track) ==
                 After(Asks(batch), After([SaveTrack(trackId, Render(updated))],
                                          Converge(SavedId(trackId, nextId), updated, f.items, f.expectedHead)))
  {
    var sorted := SortItems(f.items, s, f.expectedHead, track, f.paths);
    var batch := Batch(sorted.candidates, s.cap);
    hide SortItems, Converge, EscalateRun, ControlPlaneFailure, WithProcessed, Render, Batch, LabelEffects, Act,
        ClassifyAll, Decide;
    if sorted.forbidden != [] {
      NotReady(trackId, WithProcessed(track, sorted.skipped + sorted.forbidden), f.expectedHead, Refused);
    } else if batch == [] {
      assert sorted.skipped + Identities(batch) == sorted.skipped;
      assert Asks(batch) == [];
    } else {
      match ClassifyAll(batch, s, f)
      case Stopped(at, answer) =>
        NotReady(trackId, WithProcessed(track, sorted.skipped + [batch[at].identity]), f.expectedHead,
                 if answer.Throws? then answer.fault else Refused);
      case Decided(actions) =>
        ReadyAct(s, f, trackId, nextId, track, sorted, batch, actions);
        AllIgnored(s, f, batch);
    }
  }

  lemma NotReady(trackId: Option<int>, t: Track, head: string, fault: Fault)
    ensures EscalateRun(trackId, t, head).outcome == ReviewEscalated &&
        ControlPlaneFailure(fault).outcome != ReadyForHuman
  {
    hide WithProcessed, LabelEffects, Render;
  }

  /** Ready after deciding: nothing escalated, nothing to fix. */
  lemma ReadyAct(s: Settings, f: Facts, trackId: Option<int>, nextId: int, track: Track, sorted: Sorted,
      batch: seq<Feedback>,
                 actions: seq<PolicyAction>)
    requires Act(s, f, trackId, nextId, track, sorted, batch, actions).outcome == ReadyForHuman
    ensures var updated := WithProcessed(track, sorted.skipped + Identities(batch));
            && Escalate !in actions && Fix !in actions
            && Converge(SavedId(trackId, nextId), updated, f.items, f.expectedHead).outcome == ReadyForHuman
            && Act(s, f, trackId, nextId, track, sorted, batch, actions) ==
                 After([SaveTrack(trackId, Render(updated))],
                     Converge(SavedId(trackId, nextId), updated, f.items, f.expectedHead))
  {
    hide Decide, WithProcessed, Render, LabelEffects, Converge, SortItems;
  }

  lemma AllIgnored(s: Settings, f: Facts, batch: seq<Feedback>)
    requires ClassifyAll(batch, s, f).Decided?
    requires Escalate !in ClassifyAll(batch, s, f).actions && Fix !in ClassifyAll(batch, s, f).actions
    ensures forall c :: c in batch ==> f.classifier(c).Says? && f.classifier(c).opinion.classification == NonActionable
  {
    var actions := ClassifyAll(batch, s, f).actions;
    hide ClassifyAll, Decide;
    forall c | c in batch ensures f.classifier(c).Says? && f.classifier(c).opinion.classification == NonActionable {
      var i :| 0 <= i < |batch| && batch[i] == c;
      assert actions[i] in actions;
      DecisionMeaning(f.classifier(c).opinion, s.threshold, s.autoRepair, f.paths);
    }
  }

  lemma ReadyConverge(trackId: Option<int>, t: Track, items: seq<Feedback>, head: string)
    requires Converge(trackId, t, items, head).outcome == ReadyForHuman
    ensures Converge(trackId, t, items, head) ==
              ReviewRun(ReadyForHuman, [SaveTrack(trackId, Render(WithProcessed(t, [], false, Some(head))))] +
                  LabelEffects(AgentReady))
    ensures forall item :: item in items && AppliesToHead(item, head, t.headSha) ==> item.identity in t.processed
  {
    hide WithProcessed, Render, LabelEffects, AppliesToHead;
  }

  lemma HandledClean(s: Settings, f: Facts, track: Track)
    requires CleanFacts(f)
    ensures Listable(Handled(s, f, track))
  {
    SortedClean(f, s, track);
    hide Listable, SortItems, Batch, CleanFacts;
    var sorted := SortItems(f.items, s, f.expectedHead, track, f.paths);
    ListableConcat(sorted.skipped, Identities(Batch(sorted.candidates, s.cap)));
  }

  /** The pull request after the writes of a ready run. */
  lemma ReadyLeaves(s: Settings, id: WorkUnitIdentity, f: Facts, hub: Hub)
    requires Inv(s, id, hub) && CleanFacts(f)
    requires Evaluate(s, f, CurrentId(hub), hub.nextId, CurrentTrack(hub, id)).outcome == ReadyForHuman
    ensures var track := CurrentTrack(hub, id);
            var after := ApplyAll(hub, Evaluate(s, f, CurrentId(hub), hub.nextId, track).effects);
            && after.labels == {AgentReady} && after.codexCalls == hub.codexCalls
            && CurrentTrack(after, id) ==
                WithProcessed(WithProcessed(track, Handled(s, f, track)), [], false, Some(f.expectedHead))
            && Inv(s, id, after)
  {
    var track := CurrentTrack(hub, id);
    var updated := WithProcessed(track, Handled(s, f, track));
    var batch := Batch(SortItems(f.items, s, f.expectedHead, track, f.paths).candidates, s.cap);
    var bound := WithProcessed(updated, [], false, Some(f.expectedHead));
    var e := SaveTrack(CurrentId(hub), Render(updated));
    var saved := Apply(hub, e);
    var rest := Converge(SavedId(CurrentId(hub), hub.nextId), updated, f.items, f.expectedHead);
    hide *;
    CleanHead(f);
    GoodNow(s, id, hub);
    ReadyShape(s, f, CurrentId(hub), hub.nextId, track);
    HandledClean(s, f, track);
    MergedIsGood(s, id, track, Handled(s, f, track), false, None);
    SaveAllowed(s, id, hub, updated);
    GoodNow(s, id, saved);
    NothingListed();
    MergedIsGood(s, id, updated, [], false, Some(f.expectedHead));
    ReadyConverge(CurrentId(saved), updated, f.items, f.expectedHead);
    SaveThenLabel(s, id, saved, bound, AgentReady);
    SaveAllowed(s, id, saved, bound);
    LabelsDoNotMatter(s, id, Apply(saved, SaveTrack(CurrentId(saved), Render(bound))), {AgentReady});
    AskedFirst(s, id, hub, batch);
    AfterTwice(hub, Asks(batch), [e], rest);
  }

  lemma AfterTwice(hub: Hub, first: seq<Effect>, second: seq<Effect>, run: ReviewRun)
    requires ApplyAll(hub, first) == hub
    ensures ApplyAll(hub, After(first, After(second, run)).effects) == ApplyAll(ApplyAll(hub, second), run.effects)
  {
    ApplyConcat(hub, first, second + run.effects);
    ApplyConcat(hub, second, run.effects);
  }

  /** Why an identity may have become processed: a comment by the configured actor, not processed
      before, that is not about this head, or is about a path that is gone, or that the classifier
      found non-actionable. */
  ghost predicate SetAside(s: Settings, f: Facts, track: Track, identity: string) {
    exists item :: item in f.items && item.identity == identity
      && item.author == s.actor && identity !in track.processed
      && (|| !AppliesToHead(item, f.expectedHead, track.headSha)
          || (item.path != "" && !f.paths.exists_(item.path))
          || (f.classifier(item).Says? && f.classifier(item).opinion.classification == NonActionable))
  }

  lemma KeptReasons(item: Feedback, s: Settings, head: string, track: Track, paths: Paths)
    ensures var reason := ReasonOf(item, s, head, track, paths);
            && (PassedOver(reason) || reason == Accepted ==>
                item.author == s.actor && item.identity !in track.processed)
            && (PassedOver(reason) ==>
                  !AppliesToHead(item, head, track.headSha) || (item.path != "" && !paths.exists_(item.path)))
  {
  }

  lemma HandledSetAside(s: Settings, f: Facts, track: Track, identity: string)
    requires identity in Handled(s, f, track)
    requires var batch := Batch(SortItems(f.items, s, f.expectedHead, track, f.paths).candidates, s.cap);
             forall c :: c in batch ==> f.classifier(c).Says? && f.classifier(c).opinion.classification == NonActionable
    ensures SetAside(s, f, track, identity)
  {
    SortedExactly(f.items, s, f.expectedHead, track, f.paths);
    hide SortItems, ReasonOf, AppliesToHead;
    var sorted := SortItems(f.items, s, f.expectedHead, track, f.paths);
    var batch := Batch(sorted.candidates, s.cap);
    if identity in sorted.skipped {
      var item :| item in f.items && item.identity == identity &&
          PassedOver(ReasonOf(item, s, f.expectedHead, track, f.paths));
      KeptReasons(item, s, f.expectedHead, track, f.paths);
    } else {
      assert identity in Identities(batch);
      var i :| 0 <= i < |batch| && batch[i].identity == identity;
      assert batch[i] in batch && batch[i] in sorted.candidates;
      KeptReasons(batch[i], s, f.expectedHead, track, f.paths);
    }
  }

  /** A freshly decided READY_FOR_HUMAN: the three heads agree, the review finished on that head,
      every comment that applies to it is recorded as processed, whatever became processed in this run
      was outdated, pointed nowhere or was found non-actionable, the pull request carries the ready
      label alone, and Codex was not called. */
  lemma ReadyMeans(s: Settings, id: WorkUnitIdentity, f: Facts, hub: Hub)
    requires Inv(s, id, hub) && CleanFacts(f)
    requires Review(s, id, f, hub).outcome == ReadyForHuman && Review(s, id, f, hub).effects != []
    ensures f.workspaceHead == f.apiHead == f.expectedHead != ""
    ensures f.terminal == Terminal.ReviewCompleted
    ensures var before := CurrentTrack(hub, id);
            var after := ApplyAll(hub, Review(s, id, f, hub).effects);
            var track := CurrentTrack(after, id);
            && track.headSha == f.expectedHead && after.labels == {AgentReady} && after.codexCalls == hub.codexCalls
            && (forall item :: item in f.items && AppliesToHead(item, f.expectedHead, before.headSha) ==>
                item.identity in track.processed)
            && (forall p :: p in track.processed ==> p in before.processed || SetAside(s, f, before, p))
  {
    var before := CurrentTrack(hub, id);
    var labelled := hub.(labels := {AgentReview});
    ReadyCame(s, id, f, hub);
    LabelIsExclusive(hub, AgentReview);
    LabelsDoNotMatter(s, id, hub, {AgentReview});
    var run := Evaluate(s, f, CurrentId(hub), hub.nextId, before);
    ApplyConcat(hub, LabelEffects(AgentReview), run.effects);
    hide *;
    ReadyShape(s, f, CurrentId(hub), hub.nextId, before);
    ReadyLeaves(s, id, f, labelled);
    BoundTrack(before, Handled(s, f, before), f.expectedHead);
    ReadyConverge(SavedId(CurrentId(hub), hub.nextId), WithProcessed(before, Handled(s, f, before)), f.items,
        f.expectedHead);
    forall p | p in Handled(s, f, before) ensures SetAside(s, f, before, p) {
      HandledSetAside(s, f, before, p);
    }
  }

  lemma BoundTrack(t: Track, identities: seq<string>, head: string)
    ensures var u := WithProcessed(t, identities);
            var bound := WithProcessed(u, [], false, Some(head));
            && u.headSha == t.headSha && bound.headSha == head && bound.processed == u.processed
            && forall p :: p in u.processed <==> p in t.processed || p in identities
  {
    MergedMeaning(t.processed, identities);
  }

  /** How a run comes to decide ready. */
  lemma ReadyCame(s: Settings, id: WorkUnitIdentity, f: Facts, hub: Hub)
    requires Inv(s, id, hub)
    requires Review(s, id, f, hub).outcome == ReadyForHuman && Review(s, id, f, hub).effects != []
    ensures f.workspaceHead == f.apiHead == f.expectedHead != ""
    ensures f.terminal == Terminal.ReviewCompleted
    ensures var run := Evaluate(s, f, CurrentId(hub), hub.nextId, CurrentTrack(hub, id));
            run.outcome == ReadyForHuman && Review(s, id, f, hub) == After(LabelEffects(AgentReview), run)
  {
    LoadsCurrent(s, id, hub);
    hide Inv, LoadTrack, CurrentTrack, CurrentId, Evaluate, LabelEffects, WithProcessed, Render;
  }
}
