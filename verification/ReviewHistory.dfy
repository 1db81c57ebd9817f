/** The tracking comment over any serial history of review runs, finished, failed or crashed
    (agent/review_loop.py, agent/review_track.py). */
module ReviewHistory {
  import opened Prelude
  import opened Spec
  import opened PyText
  import opened ReviewTrack
  import opened ReviewPolicy
  import opened ReviewHub
  import opened ReviewLoop
  import Terminal

  /** The track a run would load: the one comment's, or the empty one. */
  function CurrentTrack(hub: Hub, id: WorkUnitIdentity): Track {
    if hub.tracks != [] && Parse(hub.tracks[0].body).Some? then Parse(hub.tracks[0].body).value else EmptyTrack(id)
  }

  function CurrentId(hub: Hub): Option<int> {
    if hub.tracks == [] then None else Some(hub.tracks[0].id)
  }

  /** A track of this work unit within its limits. */
  ghost predicate GoodTrack(s: Settings, id: WorkUnitIdentity, t: Track) {
    Printable(t) && Distinct(t.processed) && MatchesWorkUnit(t, id) && t.reviewAttempts <= AttemptLimit(s)
  }

  /** At most one tracking comment, written by the orchestrator, carrying a good track whose
      attempts pay for every repair call made so far. */
  ghost predicate Inv(s: Settings, id: WorkUnitIdentity, hub: Hub) {
    && hub.login == s.trackAuthor
    && |hub.tracks| <= 1
    && (hub.tracks != [] ==>
          hub.tracks[0].author == s.trackAuthor && hub.tracks[0].body == Render(CurrentTrack(hub, id)))
    && GoodTrack(s, id, CurrentTrack(hub, id))
    && hub.codexCalls <= CurrentTrack(hub, id).reviewAttempts
  }

  /** Identities that a marker and a tracking comment can carry. */
  ghost predicate CleanIdentity(id: WorkUnitIdentity) {
    Printable(EmptyTrack(id))
  }

  /** Identities that may be listed in a tracking comment. */
  ghost predicate Listable(identities: seq<string>) {
    forall p :: p in identities ==> p != "" && Clean(p)
  }

  lemma CleanHead(f: Facts)
    requires CleanFacts(f)
    ensures Clean(f.expectedHead)
  {
    hide Clean, Listable;
  }

  lemma NothingListed()
    ensures Listable([])
  {
  }

  lemma ListableParts(whole: seq<string>, part: seq<string>)
    requires Listable(whole) && forall p :: p in part ==> p in whole
    ensures Listable(part)
  {
  }

  lemma ListableConcat(a: seq<string>, b: seq<string>)
    requires Listable(a) && Listable(b)
    ensures Listable(a + b)
  {
  }

  /** What GitHub supplies of text: heads and feedback identities are trimmed single-line text
      without `-->`, and no identity is empty. */
  ghost predicate CleanFacts(f: Facts) {
    Clean(f.expectedHead) && Listable(Identities(f.items))
  }

  /** `later` continues `earlier`: nothing processed is forgotten, no attempt is given back. */
  ghost predicate Continues(earlier: Track, later: Track) {
    earlier.processed <= later.processed && earlier.reviewAttempts <= later.reviewAttempts
  }

  /** An effect that keeps the invariant. */
  ghost predicate Allowed(s: Settings, id: WorkUnitIdentity, hub: Hub, e: Effect) {
    match e
    case SaveTrack(target, body) =>
      && target == CurrentId(hub)
      && Parse(body).Some? && body == Render(Parse(body).value)
      && GoodTrack(s, id, Parse(body).value)
      && Continues(CurrentTrack(hub, id), Parse(body).value)
    case RunCodex => hub.codexCalls < CurrentTrack(hub, id).reviewAttempts
    case _ => true
  }

  ghost predicate AllAllowed(s: Settings, id: WorkUnitIdentity, hub: Hub, effects: seq<Effect>)
    decreases |effects|
  {
    effects == [] || (Allowed(s, id, hub, effects[0]) && AllAllowed(s, id, Apply(hub, effects[0]), effects[1..]))
  }

  lemma EffectKeeps(s: Settings, id: WorkUnitIdentity, hub: Hub, e: Effect)
    requires Inv(s, id, hub) && Allowed(s, id, hub, e)
    ensures Inv(s, id, Apply(hub, e)) && Continues(CurrentTrack(hub, id), CurrentTrack(Apply(hub, e), id))
    ensures hub.tracks != [] ==> CurrentId(Apply(hub, e)) == CurrentId(hub)
  {
    hide Render, Parse, GoodTrack, Distinct;
  }

  lemma {:induction false} PrefixKeeps(s: Settings, id: WorkUnitIdentity, hub: Hub, effects: seq<Effect>, n: nat)
    requires Inv(s, id, hub) && AllAllowed(s, id, hub, effects) && n <= |effects|
    ensures var after := ApplyAll(hub, effects[..n]);
            Inv(s, id, after) && Continues(CurrentTrack(hub, id), CurrentTrack(after, id))
    decreases n
  {
    hide Inv, Allowed, CurrentTrack, Apply;
    if n > 0 {
      EffectKeeps(s, id, hub, effects[0]);
      PrefixKeeps(s, id, Apply(hub, effects[0]), effects[1..], n - 1);
      assert effects[..n][1..] == effects[1..][..n - 1];
    }
  }

  lemma {:induction false} AllowedConcat(s: Settings, id: WorkUnitIdentity, hub: Hub, a: seq<Effect>, b: seq<Effect>)
    requires AllAllowed(s, id, hub, a) && AllAllowed(s, id, ApplyAll(hub, a), b)
    ensures AllAllowed(s, id, hub, a + b)
    decreases |a|
  {
    hide Allowed, Apply;
    if a == [] {
      assert a + b == b;
    } else {
      assert (a + b)[1..] == a[1..] + b;
      AllowedConcat(s, id, Apply(hub, a[0]), a[1..], b);
    }
  }

  predicate Harmless(e: Effect) { e.AddLabel? || e.RemoveLabel? || e.AskClassifier? }

  /** Labels and questions never touch the tracking comment. */
  lemma {:induction false} HarmlessAllowed(s: Settings, id: WorkUnitIdentity, hub: Hub, effects: seq<Effect>)
    requires forall e :: e in effects ==> Harmless(e)
    ensures AllAllowed(s, id, hub, effects)
    ensures var after := ApplyAll(hub, effects); after == hub.(labels := after.labels)
    decreases |effects|
  {
    if effects != [] {
      assert effects[0] in effects;
      HarmlessAllowed(s, id, Apply(hub, effects[0]), effects[1..]);
    }
  }

  lemma {:induction false} RemovalsHarmless(status: StatusLabel, names: seq<StatusLabel>)
    ensures forall e :: e in Removals(status, names) ==> Harmless(e)
    decreases |names|
  {
    if names != [] {
      RemovalsHarmless(status, names[1..]);
    }
  }

  lemma LabelsHarmless(status: StatusLabel)
    ensures forall e :: e in LabelEffects(status) ==> Harmless(e)
  {
    RemovalsHarmless(status, EXCLUSIVE_LABELS);
  }

  lemma LabelsAllowed(s: Settings, id: WorkUnitIdentity, hub: Hub, status: StatusLabel)
    ensures AllAllowed(s, id, hub, LabelEffects(status))
  {
    LabelsHarmless(status);
    HarmlessAllowed(s, id, hub, LabelEffects(status));
  }

  /** With the invariant the loaded track is the current one. */
  lemma LoadsCurrent(s: Settings, id: WorkUnitIdentity, hub: Hub)
    requires Inv(s, id, hub)
    ensures LoadTrack(hub, s.trackAuthor, id) == Ok((CurrentId(hub), CurrentTrack(hub, id)))
  {
    hide Render, Printable, Distinct;
    if hub.tracks != [] {
      var t := CurrentTrack(hub, id);
      assert hub.tracks[0].body == Render(t);
      CurrentParses(s, id, hub);
      assert hub.tracks[1..] == [];
      assert ReadComments(hub.tracks[1..], s.trackAuthor, id) == Ok([]);
    }
  }

  lemma CurrentParses(s: Settings, id: WorkUnitIdentity, hub: Hub)
    requires Inv(s, id, hub) && hub.tracks != []
    ensures Parse(hub.tracks[0].body) == Some(CurrentTrack(hub, id))
  {
    ParseRender(CurrentTrack(hub, id));
  }

  /** Merging clean identities into a good track keeps it good. */
  lemma MergedIsGood(s: Settings, id: WorkUnitIdentity, t: Track, identities: seq<string>, increment: bool,
      head: Option<string>)
    requires GoodTrack(s, id, t)
    requires Listable(identities)
    requires head.Some? ==> Clean(head.value)
    requires increment ==> t.reviewAttempts < AttemptLimit(s)
    ensures var u := WithProcessed(t, identities, increment, head);
            GoodTrack(s, id, u) && Continues(t, u)
    ensures Parse(Render(WithProcessed(t, identities, increment, head))) ==
        Some(WithProcessed(t, identities, increment, head))
  {
    MergedMeaning(t.processed, identities);
    hide Clean, Distinct, Render, Parse;
    var u := WithProcessed(t, identities, increment, head);
    assert Printable(u);
    ParseRender(u);
  }

  /** Saving a good continuation of the current track. */
  lemma SaveAllowed(s: Settings, id: WorkUnitIdentity, hub: Hub, u: Track)
    requires Inv(s, id, hub) && GoodTrack(s, id, u) && Continues(CurrentTrack(hub, id), u) &&
        Parse(Render(u)) == Some(u)
    ensures var e := SaveTrack(CurrentId(hub), Render(u));
            && Allowed(s, id, hub, e) && AllAllowed(s, id, hub, [e])
            && Inv(s, id, Apply(hub, e)) && CurrentTrack(Apply(hub, e), id) == u
            && CurrentId(Apply(hub, e)) == SavedId(CurrentId(hub), hub.nextId)
            && ApplyAll(hub, [e]) == Apply(hub, e)
            && Apply(hub, e).codexCalls == hub.codexCalls
  {
    var e := SaveTrack(CurrentId(hub), Render(u));
    assert [e][1..] == [];
    hide Render, Parse, GoodTrack, Continues;
    EffectKeeps(s, id, hub, e);
  }

  /** Save, then set a label. */
  lemma SaveThenLabel(s: Settings, id: WorkUnitIdentity, hub: Hub, u: Track, status: StatusLabel)
    requires Inv(s, id, hub) && GoodTrack(s, id, u) && Continues(CurrentTrack(hub, id), u) &&
        Parse(Render(u)) == Some(u)
    ensures AllAllowed(s, id, hub, [SaveTrack(CurrentId(hub), Render(u))] + LabelEffects(status))
    ensures var after := ApplyAll(hub, [SaveTrack(CurrentId(hub), Render(u))] + LabelEffects(status));
            after == Apply(hub, SaveTrack(CurrentId(hub), Render(u))).(labels := {status})
  {
    hide *;
    SaveAllowed(s, id, hub, u);
    var e := SaveTrack(CurrentId(hub), Render(u));
    LabelsAllowed(s, id, Apply(hub, e), status);
    LabelIsExclusive(Apply(hub, e), status);
    AllowedConcat(s, id, hub, [e], LabelEffects(status));
    ApplyConcat(hub, [e], LabelEffects(status));
  }

  lemma EscalateAllowed(s: Settings, id: WorkUnitIdentity, hub: Hub, t: Track, head: string)
    requires Inv(s, id, hub) && GoodTrack(s, id, t) && Continues(CurrentTrack(hub, id), t) && Clean(head)
    ensures AllAllowed(s, id, hub, EscalateRun(CurrentId(hub), t, head).effects)
  {
    var bound := WithProcessed(t, [], false, Some(head));
    MergedIsGood(s, id, t, [], false, Some(head));
    SaveThenLabel(s, id, hub, bound, AgentEscalated);
  }

  lemma ConvergeAllowed(s: Settings, id: WorkUnitIdentity, hub: Hub, items: seq<Feedback>, head: string)
    requires Inv(s, id, hub) && Clean(head)
    ensures AllAllowed(s, id, hub, Converge(CurrentId(hub), CurrentTrack(hub, id), items, head).effects)
  {
    var t := CurrentTrack(hub, id);
    MergedIsGood(s, id, t, [], false, Some(head));
    SaveThenLabel(s, id, hub, WithProcessed(t, [], false, Some(head)), AgentReady);
  }

  lemma FailureAllowed(s: Settings, id: WorkUnitIdentity, hub: Hub, fault: Fault)
    ensures AllAllowed(s, id, hub, ControlPlaneFailure(fault).effects)
  {
    LabelsAllowed(s, id, hub, AgentFailed);
    LabelsAllowed(s, id, hub, AgentEscalated);
  }

  /** Save the merged track, then maybe converge. */
  lemma SaveThenConverge(s: Settings, id: WorkUnitIdentity, hub: Hub, u: Track, items: seq<Feedback>, head: string,
      more: bool)
    requires Inv(s, id, hub) && GoodTrack(s, id, u) && Continues(CurrentTrack(hub, id), u) &&
        Parse(Render(u)) == Some(u)
    requires Clean(head)
    ensures var rest := if more then ReviewRun(InReview, [])
                        else Converge(SavedId(CurrentId(hub), hub.nextId), u, items, head);
            AllAllowed(s, id, hub, After([SaveTrack(CurrentId(hub), Render(u))], rest).effects)
  {
    var e := SaveTrack(CurrentId(hub), Render(u));
    SaveAllowed(s, id, hub, u);
    ConvergeAllowed(s, id, Apply(hub, e), items, head);
    hide Converge, Allowed, Apply, Inv;
    var rest := if more then ReviewRun(InReview, []) else Converge(SavedId(CurrentId(hub), hub.nextId), u, items, head);
    AllowedConcat(s, id, hub, [e], rest.effects);
  }

  /** The repair branch: the saved attempt pays for the Codex call. */
  lemma RepairAllowed(s: Settings, id: WorkUnitIdentity, hub: Hub, u: Track, f: Facts)
    requires Inv(s, id, hub) && GoodTrack(s, id, u) && Continues(CurrentTrack(hub, id), u) &&
        Parse(Render(u)) == Some(u)
    requires u.reviewAttempts == CurrentTrack(hub, id).reviewAttempts + 1
    ensures AllAllowed(s, id, hub, Repair(CurrentId(hub), u, f).effects)
  {
    var e := SaveTrack(CurrentId(hub), Render(u));
    SaveAllowed(s, id, hub, u);
    var saved := Apply(hub, e);
    assert saved.codexCalls < CurrentTrack(saved, id).reviewAttempts;
    hide *;
    match f.fix
    case FixCommitted =>
      LabelsAllowed(s, id, Apply(saved, RunCodex), AgentReview);
      SavedThenCodex(s, id, hub, e, LabelEffects(AgentReview));
      RepairEffects(CurrentId(hub), u, f);
    case FixRaises(codexCalled, fault) =>
      FailureAllowed(s, id, saved, fault);
      FailureAllowed(s, id, Apply(saved, RunCodex), fault);
      SavedThenCodex(s, id, hub, e, ControlPlaneFailure(fault).effects);
      AllowedConcat(s, id, hub, [e], ControlPlaneFailure(fault).effects);
      RepairEffects(CurrentId(hub), u, f);
  }

  lemma RepairEffects(id: Option<int>, u: Track, f: Facts)
    ensures var e := SaveTrack(id, Render(u));
            Repair(id, u, f).effects ==
              match f.fix
              case FixCommitted => [e] + ([RunCodex] + LabelEffects(AgentReview))
              case FixRaises(codexCalled, fault) =>
                if codexCalled then [e] + ([RunCodex] + ControlPlaneFailure(fault).effects)
                else [e] + ControlPlaneFailure(fault).effects
  {
    hide LabelEffects, ControlPlaneFailure;
  }

  lemma SavedThenCodex(s: Settings, id: WorkUnitIdentity, hub: Hub, e: Effect, tail: seq<Effect>)
    requires AllAllowed(s, id, hub, [e]) && ApplyAll(hub, [e]) == Apply(hub, e)
    requires Apply(hub, e).codexCalls < CurrentTrack(Apply(hub, e), id).reviewAttempts
    requires AllAllowed(s, id, Apply(Apply(hub, e), RunCodex), tail)
    ensures AllAllowed(s, id, hub, [e] + ([RunCodex] + tail))
  {
    CodexThen(s, id, Apply(hub, e), tail);
    AllowedConcat(s, id, hub, [e], [RunCodex] + tail);
  }

  lemma CodexThen(s: Settings, id: WorkUnitIdentity, hub: Hub, tail: seq<Effect>)
    requires hub.codexCalls < CurrentTrack(hub, id).reviewAttempts
    ensures AllAllowed(s, id, Apply(hub, RunCodex), tail) ==> AllAllowed(s, id, hub, [RunCodex] + tail)
  {
    hide Apply, CurrentTrack;
    assert ([RunCodex] + tail)[1..] == tail;
  }

  function ReasonOf(item: Feedback, s: Settings, head: string, track: Track, paths: Paths): Reason {
    Prefilter(item, s.actor, head, track.processed, track.headSha, paths)
  }

  predicate PassedOver(reason: Reason) { reason == OutdatedHead || reason == MissingPath }

  /** Each list of the filtering loop holds exactly the items with its reasons. */
  lemma {:induction false} SortedExactly(items: seq<Feedback>, s: Settings, head: string, track: Track, paths: Paths)
    ensures var sorted := SortItems(items, s, head, track, paths);
            && (forall p :: p in sorted.skipped <==>
                  (exists item :: item in items && item.identity == p &&
                      PassedOver(ReasonOf(item, s, head, track, paths))))
            && (forall p :: p in sorted.forbidden <==>
                  (exists item :: item in items && item.identity == p &&
                      ReasonOf(item, s, head, track, paths) == ForbiddenPath))
            && (forall c :: c in sorted.candidates <==> c in items && ReasonOf(c, s, head, track, paths) == Accepted)
    decreases |items|
  {
    if items != [] {
      var init, last := items[..|items| - 1], items[|items| - 1];
      SortedExactly(init, s, head, track, paths);
      assert forall item :: item in items <==> item in init || item == last;
      hide Prefilter;
      assert ReasonOf(last, s, head, track, paths) ==
          Prefilter(last, s.actor, head, track.processed, track.headSha, paths);
    }
  }

  lemma {:induction false} SortedFromItems(items: seq<Feedback>, s: Settings, head: string, track: Track, paths: Paths)
    ensures var sorted := SortItems(items, s, head, track, paths);
            forall p :: p in sorted.skipped || p in sorted.forbidden ==> p in Identities(items)
    decreases |items|
  {
    hide Prefilter;
    if items != [] {
      var init, last := items[..|items| - 1], items[|items| - 1];
      SortedFromItems(init, s, head, track, paths);
      assert Identities(items) == Identities(init) + [last.identity];
    }
  }

  /** So everything the filtering loop keeps may be listed. */
  lemma SortedClean(f: Facts, s: Settings, track: Track)
    requires CleanFacts(f)
    ensures var sorted := SortItems(f.items, s, f.expectedHead, track, f.paths);
            && Listable(sorted.skipped) && Listable(sorted.forbidden)
            && Listable(Identities(Batch(sorted.candidates, s.cap)))
  {
    var sorted := SortItems(f.items, s, f.expectedHead, track, f.paths);
    SortedExactly(f.items, s, f.expectedHead, track, f.paths);
    SortedFromItems(f.items, s, f.expectedHead, track, f.paths);
    hide Listable, SortItems, Clean, ReasonOf;
    ListableParts(Identities(f.items), sorted.skipped);
    ListableParts(Identities(f.items), sorted.forbidden);
    var batch := Batch(sorted.candidates, s.cap);
    forall p | p in Identities(batch) ensures p in Identities(f.items) {
      var i :| 0 <= i < |batch| && Identities(batch)[i] == p;
      assert batch[i] == sorted.candidates[i] && batch[i] in f.items;
      var j :| 0 <= j < |f.items| && f.items[j] == batch[i];
      assert Identities(f.items)[j] == p;
    }
    ListableParts(Identities(f.items), Identities(batch));
  }

  lemma ActAllowed(s: Settings, id: WorkUnitIdentity, f: Facts, hub: Hub, sorted: Sorted, batch: seq<Feedback>,
      actions: seq<PolicyAction>)
    requires Inv(s, id, hub) && Clean(f.expectedHead)
    requires Listable(sorted.skipped)
    requires Listable(Identities(batch))
    ensures AllAllowed(s, id, hub,
        Act(s, f, CurrentId(hub), hub.nextId, CurrentTrack(hub, id), sorted, batch, actions).effects)
  {
    var track := CurrentTrack(hub, id);
    var identities := sorted.skipped + Identities(batch);
    ListableConcat(sorted.skipped, Identities(batch));
    GoodNow(s, id, hub);
    hide Inv, Clean, Listable, CurrentTrack, CurrentId, AllAllowed, EscalateRun, Converge, Repair, GoodTrack,
        Continues, Parse, Render;
    MergedIsGood(s, id, track, identities, false, None);
    var updated := WithProcessed(track, identities);
    if Escalate in actions || (Fix in actions && track.reviewAttempts >= AttemptLimit(s)) {
      EscalateAllowed(s, id, hub, updated, f.expectedHead);
    } else if Fix !in actions {
      SaveThenConverge(s, id, hub, updated, f.items, f.expectedHead, |batch| < |sorted.candidates|);
    } else {
      MergedIsGood(s, id, track, identities, true, Some(f.expectedHead));
      RepairAllowed(s, id, hub, WithProcessed(track, identities, true, Some(f.expectedHead)), f);
    }
  }

  /** The four ways an evaluation goes. */
  lemma EvaluateShape(s: Settings, f: Facts, trackId: Option<int>, nextId: int, track: Track)
    ensures var sorted := SortItems(f.items, s, f.expectedHead, track, f.paths);
            var batch := Batch(sorted.candidates, s.cap);
            var updated := WithProcessed(track, sorted.skipped);
            var decided := ClassifyAll(batch, s, f);
            var run := Evaluate(s, f, trackId, nextId, track);
            if sorted.forbidden != [] then
              run == EscalateRun(trackId, WithProcessed(track, sorted.skipped + sorted.forbidden), f.expectedHead)
            else if batch == [] then
              run == After([SaveTrack(trackId, Render(updated))],
                           Converge(SavedId(trackId, nextId), updated, f.items, f.expectedHead))
            else match decided
              case Stopped(at, answer) =>
                run == After(Asks(batch[..at + 1]),
                             if answer.Throws? then ControlPlaneFailure(answer.fault)
                             else EscalateRun(trackId, WithProcessed(track, sorted.skipped + [batch[at].identity]),
                                 f.expectedHead))
              case Decided(actions) =>
                run == After(Asks(batch), Act(s, f, trackId, nextId, track, sorted, batch, actions))
  {
    hide SortItems, Batch, WithProcessed, Render, EscalateRun, Converge, ControlPlaneFailure, Act, ClassifyAll,
        Decide, Asks;
  }

  lemma EvaluateAllowed(s: Settings, id: WorkUnitIdentity, f: Facts, hub: Hub)
    requires Inv(s, id, hub) && CleanFacts(f)
    ensures AllAllowed(s, id, hub, Evaluate(s, f, CurrentId(hub), hub.nextId, CurrentTrack(hub, id)).effects)
  {
    var track := CurrentTrack(hub, id);
    hide *;
    SortedClean(f, s, track);
    CleanHead(f);
    EvaluateShape(s, f, CurrentId(hub), hub.nextId, track);
    var sorted := SortItems(f.items, s, f.expectedHead, track, f.paths);
    var batch := Batch(sorted.candidates, s.cap);
    if sorted.forbidden != [] {
      ListableConcat(sorted.skipped, sorted.forbidden);
      EscalateMerged(s, id, hub, sorted.skipped + sorted.forbidden, f.expectedHead);
    } else if batch == [] {
      MergeThenConverge(s, id, hub, sorted.skipped, f);
    } else if ClassifyAll(batch, s, f).Stopped? {
      var stop := ClassifyAll(batch, s, f);
      StoppedAllowed(s, id, f, hub, sorted, batch, stop.at, stop.answer);
    } else {
      DecidedAllowed(s, id, f, hub, sorted, batch, ClassifyAll(batch, s, f).actions);
    }
  }

  lemma DecidedAllowed(s: Settings, id: WorkUnitIdentity, f: Facts, hub: Hub, sorted: Sorted, batch: seq<Feedback>,
      actions: seq<PolicyAction>)
    requires Inv(s, id, hub) && Clean(f.expectedHead)
    requires Listable(sorted.skipped)
    requires Listable(Identities(batch))
    ensures AllAllowed(s, id, hub,
              After(Asks(batch), Act(s, f, CurrentId(hub), hub.nextId, CurrentTrack(hub, id), sorted, batch,
                  actions)).effects)
  {
    AskedFirst(s, id, hub, batch);
    ActAllowed(s, id, f, hub, sorted, batch, actions);
    hide Act, Inv, AllAllowed, CurrentTrack, CurrentId;
    AllowedConcat(s, id, hub, Asks(batch),
        Act(s, f, CurrentId(hub), hub.nextId, CurrentTrack(hub, id), sorted, batch, actions).effects);
  }

  lemma EscalateMerged(s: Settings, id: WorkUnitIdentity, hub: Hub, identities: seq<string>, head: string)
    requires Inv(s, id, hub) && Clean(head) && Listable(identities)
    ensures AllAllowed(s, id, hub,
        EscalateRun(CurrentId(hub), WithProcessed(CurrentTrack(hub, id), identities), head).effects)
  {
    GoodNow(s, id, hub);
    MergedIsGood(s, id, CurrentTrack(hub, id), identities, false, None);
    EscalateAllowed(s, id, hub, WithProcessed(CurrentTrack(hub, id), identities), head);
  }

  lemma MergeThenConverge(s: Settings, id: WorkUnitIdentity, hub: Hub, identities: seq<string>, f: Facts)
    requires Inv(s, id, hub) && Clean(f.expectedHead) && Listable(identities)
    ensures var u := WithProcessed(CurrentTrack(hub, id), identities);
            AllAllowed(s, id, hub, After([SaveTrack(CurrentId(hub), Render(u))],
                                         Converge(SavedId(CurrentId(hub), hub.nextId), u, f.items,
                                             f.expectedHead)).effects)
  {
    GoodNow(s, id, hub);
    MergedIsGood(s, id, CurrentTrack(hub, id), identities, false, None);
    SaveThenConverge(s, id, hub, WithProcessed(CurrentTrack(hub, id), identities), f.items, f.expectedHead, false);
  }

  lemma StoppedAllowed(s: Settings, id: WorkUnitIdentity, f: Facts, hub: Hub, sorted: Sorted, batch: seq<Feedback>,
      at: nat, answer: ClassifierAnswer)
    requires Inv(s, id, hub) && Clean(f.expectedHead) && at < |batch|
    requires Listable(sorted.skipped)
    requires Listable(Identities(batch))
    ensures var end := if answer.Throws? then ControlPlaneFailure(answer.fault)
                       else EscalateRun(CurrentId(hub),
                           WithProcessed(CurrentTrack(hub, id), sorted.skipped + [batch[at].identity]), f.expectedHead);
            AllAllowed(s, id, hub, After(Asks(batch[..at + 1]), end).effects)
  {
    assert Identities(batch)[at] == batch[at].identity;
    ListableParts(Identities(batch), [batch[at].identity]);
    ListableConcat(sorted.skipped, [batch[at].identity]);
    hide Inv, Clean, CurrentTrack, CurrentId, AllAllowed, EscalateRun, ControlPlaneFailure, Listable;
    AskedFirst(s, id, hub, batch[..at + 1]);
    if answer.Throws? {
      FailureAllowed(s, id, hub, answer.fault);
      AllowedConcat(s, id, hub, Asks(batch[..at + 1]), ControlPlaneFailure(answer.fault).effects);
    } else {
      var identities := sorted.skipped + [batch[at].identity];
      EscalateMerged(s, id, hub, identities, f.expectedHead);
      AllowedConcat(s, id, hub, Asks(batch[..at + 1]),
                    EscalateRun(CurrentId(hub), WithProcessed(CurrentTrack(hub, id), identities),
                        f.expectedHead).effects);
    }
  }

  lemma GoodNow(s: Settings, id: WorkUnitIdentity, hub: Hub)
    requires Inv(s, id, hub)
    ensures GoodTrack(s, id, CurrentTrack(hub, id)) && Continues(CurrentTrack(hub, id), CurrentTrack(hub, id))
  {
  }

  lemma AskedFirst(s: Settings, id: WorkUnitIdentity, hub: Hub, items: seq<Feedback>)
    ensures AllAllowed(s, id, hub, Asks(items)) && ApplyAll(hub, Asks(items)) == hub
    decreases |items|
  {
    HarmlessAllowed(s, id, hub, Asks(items));
    if items != [] {
      assert Asks(items)[1..] == Asks(items[1..]);
      AskedFirst(s, id, hub, items[1..]);
    }
  }

  /** Every effect of a review run keeps the invariant. */
  lemma ReviewAllowed(s: Settings, id: WorkUnitIdentity, f: Facts, hub: Hub)
    requires Inv(s, id, hub) && CleanFacts(f)
    ensures AllAllowed(s, id, hub, Review(s, id, f, hub).effects)
  {
    LoadsCurrent(s, id, hub);
    WithTrackAllowed(s, id, f, hub);
    hide WithTrack, LoadTrack, ControlPlaneFailure, Inv, CleanFacts, AllAllowed, CurrentTrack, CurrentId;
    if Precheck(f).Some? {
      FailureAllowed(s, id, hub, Precheck(f).value);
    }
  }

  lemma WithTrackShape(s: Settings, f: Facts, hub: Hub, trackId: Option<int>, track: Track)
    ensures var run := WithTrack(s, f, hub, trackId, track);
            || run.effects == []
            || run == EscalateRun(trackId, track, f.expectedHead)
            || run == ReviewRun(InReview, LabelEffects(AgentReview))
            || run == After(LabelEffects(AgentReview), Evaluate(s, f, trackId, hub.nextId, track))
  {
    hide Evaluate, EscalateRun, LabelEffects, Sticky;
  }

  lemma WithTrackAllowed(s: Settings, id: WorkUnitIdentity, f: Facts, hub: Hub)
    requires Inv(s, id, hub) && CleanFacts(f)
    ensures AllAllowed(s, id, hub, WithTrack(s, f, hub, CurrentId(hub), CurrentTrack(hub, id)).effects)
  {
    assert AllAllowed(s, id, hub, []);
    hide *;
    CleanHead(f);
    GoodNow(s, id, hub);
    WithTrackShape(s, f, hub, CurrentId(hub), CurrentTrack(hub, id));
    EvaluatedAfterLabel(s, id, f, hub);
    LabelsAllowed(s, id, hub, AgentReview);
    EscalateAllowed(s, id, hub, CurrentTrack(hub, id), f.expectedHead);
  }

  lemma EvaluatedAfterLabel(s: Settings, id: WorkUnitIdentity, f: Facts, hub: Hub)
    requires Inv(s, id, hub) && CleanFacts(f)
    ensures AllAllowed(s, id, hub, After(LabelEffects(AgentReview),
                                         Evaluate(s, f, CurrentId(hub), hub.nextId, CurrentTrack(hub, id))).effects)
  {
    LabelsAllowed(s, id, hub, AgentReview);
    LabelIsExclusive(hub, AgentReview);
    var labelled := hub.(labels := {AgentReview});
    LabelsDoNotMatter(s, id, hub, {AgentReview});
    EvaluateAllowed(s, id, f, labelled);
    AllowedConcat(s, id, hub, LabelEffects(AgentReview),
        Evaluate(s, f, CurrentId(hub), hub.nextId, CurrentTrack(hub, id)).effects);
  }

  lemma LabelsDoNotMatter(s: Settings, id: WorkUnitIdentity, hub: Hub, labels: set<StatusLabel>)
    ensures Inv(s, id, hub) <==> Inv(s, id, hub.(labels := labels))
    ensures CurrentTrack(hub.(labels := labels), id) == CurrentTrack(hub, id) &&
        CurrentId(hub.(labels := labels)) == CurrentId(hub)
  {
  }

  /** What happens to the pull request: a review run that gets as far as its `n`-th effect, and then
      ends, dies, or fails and gets as far as the `m`-th effect of its failure handling; or somebody
      else changing labels. */
  datatype Event =
    | ReviewStarted(facts: Facts, n: nat, failure: Option<Fault>, m: nat)
    | LabelsChanged(labels: set<StatusLabel>)

  function Min(a: nat, b: nat): nat { if a <= b then a else b }

  function Happen(s: Settings, id: WorkUnitIdentity, hub: Hub, event: Event): Hub {
    match event
    case LabelsChanged(labels) => hub.(labels := labels)
    case ReviewStarted(facts, n, failure, m) =>
      var effects := Review(s, id, facts, hub).effects;
      var after := ApplyAll(hub, effects[..Min(n, |effects|)]);
      if failure.None? then after
      else
        var handling := ControlPlaneFailure(failure.value).effects;
        ApplyAll(after, handling[..Min(m, |handling|)])
  }

  function HappenAll(s: Settings, id: WorkUnitIdentity, hub: Hub, events: seq<Event>): Hub
    decreases |events|
  {
    if events == [] then hub else HappenAll(s, id, Happen(s, id, hub, events[0]), events[1..])
  }

  ghost predicate CleanEvents(events: seq<Event>) {
    forall e :: e in events && e.ReviewStarted? ==> CleanFacts(e.facts)
  }

  lemma EventKeeps(s: Settings, id: WorkUnitIdentity, hub: Hub, event: Event)
    requires Inv(s, id, hub) && (event.ReviewStarted? ==> CleanFacts(event.facts))
    ensures Inv(s, id, Happen(s, id, hub, event))
    ensures Continues(CurrentTrack(hub, id), CurrentTrack(Happen(s, id, hub, event), id))
  {
    match event
    case LabelsChanged(labels) =>
      LabelsDoNotMatter(s, id, hub, labels);
      GoodNow(s, id, hub);
    case ReviewStarted(facts, n, failure, m) =>
      hide *;
      ReviewAllowed(s, id, facts, hub);
      RunUpTo(s, id, hub, facts, n, failure, m);
  }

  lemma RunUpTo(s: Settings, id: WorkUnitIdentity, hub: Hub, facts: Facts, n: nat, failure: Option<Fault>, m: nat)
    requires Inv(s, id, hub) && AllAllowed(s, id, hub, Review(s, id, facts, hub).effects)
    ensures var after := Happen(s, id, hub, ReviewStarted(facts, n, failure, m));
            Inv(s, id, after) && Continues(CurrentTrack(hub, id), CurrentTrack(after, id))
  {
    hide Inv, AllAllowed, Review, CurrentTrack, ControlPlaneFailure, ApplyAll;
    var effects := Review(s, id, facts, hub).effects;
    PrefixKeeps(s, id, hub, effects, Min(n, |effects|));
    if failure.Some? {
      var middle := ApplyAll(hub, effects[..Min(n, |effects|)]);
      FailureAllowed(s, id, middle, failure.value);
      PrefixKeeps(s, id, middle, ControlPlaneFailure(failure.value).effects,
          Min(m, |ControlPlaneFailure(failure.value).effects|));
    }
  }

  /** Over any history of review runs (finished, failed, crashed between any two writes), whatever
      feedback, heads, checks and labels they meet: at most one tracking comment exists, attempts
      stay within both limits, repair calls within attempts, and the processed list only grows and
      repeats nothing. */
  lemma {:induction false} HistoryKeepsTrack(s: Settings, id: WorkUnitIdentity, hub: Hub, events: seq<Event>)
    requires Inv(s, id, hub) && CleanEvents(events)
    ensures var after := HappenAll(s, id, hub, events);
            var track := CurrentTrack(after, id);
            && Inv(s, id, after)
            && |after.tracks| <= 1
            && track.reviewAttempts <= s.specLimit && track.reviewAttempts <= s.configLimit
            && after.codexCalls <= track.reviewAttempts
            && Distinct(track.processed)
            && CurrentTrack(hub, id).processed <= track.processed
            && CurrentTrack(hub, id).reviewAttempts <= track.reviewAttempts
    decreases |events|
  {
    if events == [] {
    } else {
      assert events[0] in events && forall e :: e in events[1..] ==> e in events;
      EventKeeps(s, id, hub, events[0]);
      hide Inv, Happen, CurrentTrack, CleanFacts;
      HistoryKeepsTrack(s, id, Happen(s, id, hub, events[0]), events[1..]);
    }
  }

  /** A pull request without a tracking comment is where every history begins. */
  lemma FreshPullRequest(s: Settings, id: WorkUnitIdentity, hub: Hub)
    requires CleanIdentity(id) && hub.login == s.trackAuthor && hub.tracks == [] && hub.codexCalls == 0
    ensures Inv(s, id, hub) && CurrentTrack(hub, id) == EmptyTrack(id)
  {
  }
}
