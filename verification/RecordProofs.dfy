/** What a review run writes into the tracking comment and asks, told from what it meets
    (agent/review_loop.py, agent/review_track.py). */
module RecordProofs {
  import opened Prelude
  import opened Spec
  import opened PyText
  import opened ReviewTrack
  import opened ReviewPolicy
  import opened ReviewHub
  import opened ReviewLoop
  import opened ReviewHistory
  import opened ReadyProofs
  import opened RepairProofs
  import opened OutcomeProofs
  import Terminal

  /** The last text that is saved as the tracking comment. */
  function LastSaved(effects: seq<Effect>): Option<string>
    decreases |effects|
  {
    if effects == [] then None
    else if LastSaved(effects[1..]).Some? then LastSaved(effects[1..])
    else if effects[0].SaveTrack? then Some(effects[0].body)
    else None
  }

  lemma {:induction false} LastSavedConcat(a: seq<Effect>, b: seq<Effect>)
    ensures LastSaved(a + b) == if LastSaved(b).Some? then LastSaved(b) else LastSaved(a)
    decreases |a|
  {
    if a == [] {
      assert a + b == b;
    } else {
      assert (a + b)[1..] == a[1..] + b;
      LastSavedConcat(a[1..], b);
    }
  }

  lemma {:induction false} HarmlessUnsaved(effects: seq<Effect>)
    requires forall e :: e in effects ==> Harmless(e)
    ensures LastSaved(effects) == None
    decreases |effects|
  {
    if effects != [] {
      assert effects[0] in effects;
      HarmlessUnsaved(effects[1..]);
    }
  }

  /** What was saved last is what the next run loads. */
  lemma {:induction false} LastSavedIsCurrent(s: Settings, id: WorkUnitIdentity, hub: Hub, effects: seq<Effect>)
    requires Inv(s, id, hub) && AllAllowed(s, id, hub, effects)
    ensures var saved := LastSaved(effects);
            && (saved.Some? ==> Parse(saved.value).Some?)
            && CurrentTrack(ApplyAll(hub, effects), id) ==
                 if saved.Some? then Parse(saved.value).value else CurrentTrack(hub, id)
    decreases |effects|
  {
    if effects != [] {
      OneSaved(s, id, hub, effects[0]);
      EffectKeeps(s, id, hub, effects[0]);
      hide Inv, Allowed, CurrentTrack, Apply, Parse;
      LastSavedIsCurrent(s, id, Apply(hub, effects[0]), effects[1..]);
    }
  }

  lemma OneSaved(s: Settings, id: WorkUnitIdentity, hub: Hub, e: Effect)
    requires Inv(s, id, hub) && Allowed(s, id, hub, e)
    ensures e.SaveTrack? ==> Parse(e.body).Some?
    ensures CurrentTrack(Apply(hub, e), id) == if e.SaveTrack? then Parse(e.body).value else CurrentTrack(hub, id)
  {
    hide Render, Parse, GoodTrack, Distinct;
  }

  lemma SavedParts(trackId: Option<int>, t: Track, items: seq<Feedback>, head: string, fault: Fault,
      status: StatusLabel)
    ensures LastSaved(EscalateRun(trackId, t, head).effects) == Some(Render(WithProcessed(t, [], false, Some(head))))
    ensures LastSaved(ControlPlaneFailure(fault).effects) == None && LastSaved(LabelEffects(status)) == None
    ensures var run := Converge(trackId, t, items, head);
            LastSaved(run.effects) ==
              if run.outcome == ReadyForHuman then Some(Render(WithProcessed(t, [], false, Some(head)))) else None
  {
    NoLabelSaves(AgentFailed);
    NoLabelSaves(AgentEscalated);
    NoLabelSaves(AgentReady);
    NoLabelSaves(status);
    var save := [SaveTrack(trackId, Render(WithProcessed(t, [], false, Some(head))))];
    OneText(trackId, Render(WithProcessed(t, [], false, Some(head))));
    LastSavedConcat(save, LabelEffects(AgentEscalated));
    LastSavedConcat(save, LabelEffects(AgentReady));
    hide LabelEffects, WithProcessed, Render, LastSaved, AppliesToHead;
    NothingSaved();
  }

  lemma NothingSaved()
    ensures LastSaved([]) == None
  {
  }

  lemma OneText(trackId: Option<int>, body: string)
    ensures LastSaved([SaveTrack(trackId, body)]) == Some(body) && LastSaved([RunCodex]) == None
  {
    assert [SaveTrack(trackId, body)][1..] == [] && [RunCodex][1..] == [];
  }

  lemma NoLabelSaves(status: StatusLabel)
    ensures LastSaved(LabelEffects(status)) == None
  {
    LabelsHarmless(status);
    hide LabelEffects;
    HarmlessUnsaved(LabelEffects(status));
  }

  lemma AfterSaved(first: seq<Effect>, run: ReviewRun)
    ensures LastSaved(After(first, run).effects) ==
              if LastSaved(run.effects).Some? then LastSaved(run.effects) else LastSaved(first)
  {
    LastSavedConcat(first, run.effects);
  }

  lemma NoQuestionSaves(items: seq<Feedback>)
    ensures LastSaved(Asks(items)) == None
  {
    HarmlessUnsaved(Asks(items));
  }

  /** Binding a track that was just merged is merging and binding at once. */
  lemma BoundOnce(track: Track, identities: seq<string>, head: string)
    ensures WithProcessed(WithProcessed(track, identities), [], false, Some(head)) ==
            WithProcessed(track, identities, false, Some(head))
  {
  }

  lemma RepairSaved(trackId: Option<int>, u: Track, f: Facts)
    ensures LastSaved(Repair(trackId, u, f).effects) == Some(Render(u))
  {
    NoLabelSaves(AgentReview);
    NoLabelSaves(AgentFailed);
    NoLabelSaves(AgentEscalated);
    OneText(trackId, Render(u));
    var save: seq<Effect> := [SaveTrack(trackId, Render(u))];
    LastSavedConcat(save, [RunCodex]);
    LastSavedConcat(save + [RunCodex], LabelEffects(AgentReview));
    hide LabelEffects, Render, LastSaved;
    NothingSaved();
    if f.fix.FixRaises? {
      var called := if f.fix.codexCalled then [RunCodex] else [];
      LastSavedConcat(save, called);
      AfterSaved(save + called, ControlPlaneFailure(f.fix.fault));
    }
  }

  /** The track that is written: `noted` more processed, one attempt more for a repair, bound to the
      head unless the pull request stays in review. */
  function Written(track: Track, noted: seq<string>, repairs: bool, head: string, outcome: ReviewOutcome): Track {
    WithProcessed(track, noted, repairs, if outcome == InReview then None else Some(head))
  }

  lemma WrittenIs(track: Track, noted: seq<string>, head: string, outcome: ReviewOutcome)
    ensures outcome == InReview ==> Written(track, noted, false, head, outcome) == WithProcessed(track, noted)
    ensures outcome != InReview ==>
              Written(track, noted, false, head, outcome) == WithProcessed(track, noted, false, Some(head))
              && Written(track, noted, true, head, outcome) == WithProcessed(track, noted, true, Some(head))
              && Written(track, noted, false, head, outcome) ==
                   WithProcessed(WithProcessed(track, noted), [], false, Some(head))
  {
    BoundOnce(track, noted, head);
    hide WithProcessed;
  }

  /** Saving what was handled, then maybe converging. */
  lemma ConvergeSaved(trackId: Option<int>, later: Option<int>, track: Track, noted: seq<string>, items: seq<Feedback>,
      head: string, more: bool)
    ensures var u := WithProcessed(track, noted);
            var run := After([SaveTrack(trackId, Render(u))],
                             if more then ReviewRun(InReview, []) else Converge(later, u, items, head));
            LastSaved(run.effects) == Some(Render(Written(track, noted, false, head, run.outcome)))
  {
    var u := WithProcessed(track, noted);
    var rest := if more then ReviewRun(InReview, []) else Converge(later, u, items, head);
    ConvergeOutcome(later, u, items, head);
    WrittenIs(track, noted, head, rest.outcome);
    hide *;
    AfterSaved([SaveTrack(trackId, Render(u))], rest);
    AfterOutcome([SaveTrack(trackId, Render(u))], rest);
    OneText(trackId, Render(u));
    SavedParts(later, u, items, head, Refused, AgentReview);
    NothingSaved();
  }

  lemma EscalateSaved(trackId: Option<int>, track: Track, noted: seq<string>, head: string)
    ensures LastSaved(EscalateRun(trackId, WithProcessed(track, noted), head).effects) ==
              Some(Render(Written(track, noted, false, head, ReviewEscalated)))
  {
    hide *;
    SavedParts(trackId, WithProcessed(track, noted), [], head, Refused, AgentReview);
    WrittenIs(track, noted, head, ReviewEscalated);
  }

  lemma ActSaved(s: Settings, f: Facts, trackId: Option<int>, nextId: int, track: Track, sorted: Sorted,
      batch: seq<Feedback>, actions: seq<PolicyAction>)
    ensures var run := Act(s, f, trackId, nextId, track, sorted, batch, actions);
            var noted := sorted.skipped + Identities(batch);
            var repairs := Escalate !in actions && Fix in actions && track.reviewAttempts < AttemptLimit(s);
            LastSaved(run.effects) == Some(Render(Written(track, noted, repairs, f.expectedHead, run.outcome)))
  {
    var noted := sorted.skipped + Identities(batch);
    var run := Act(s, f, trackId, nextId, track, sorted, batch, actions);
    EscalateSaved(trackId, track, noted, f.expectedHead);
    EscalateOutcome(trackId, WithProcessed(track, noted), f.expectedHead);
    ConvergeSaved(trackId, SavedId(trackId, nextId), track, noted, f.items, f.expectedHead,
        |batch| < |sorted.candidates|);
    RepairSaved(trackId, WithProcessed(track, noted, true, Some(f.expectedHead)), f);
    RepairOutcome(trackId, WithProcessed(track, noted, true, Some(f.expectedHead)), f);
    WrittenIs(track, noted, f.expectedHead, run.outcome);
    hide EscalateRun, Converge, Repair, WithProcessed, Render, LastSaved, Written, AttemptLimit;
  }

  lemma RepairOutcome(trackId: Option<int>, u: Track, f: Facts)
    ensures Repair(trackId, u, f).outcome == if f.fix.FixCommitted? then FixPushed else FaultOutcome(f.fix.fault)
  {
    if f.fix.FixRaises? {
      FailureOutcome(f.fix.fault);
    }
    hide LabelEffects, Render, ControlPlaneFailure;
  }

  /** The classifier raised before every item of the batch had an opinion. */
  predicate Raised(f: Facts, batch: seq<Feedback>) {
    Silenced(f, batch, Throws(Unavailable)) || Silenced(f, batch, Throws(Refused))
  }

  /** The identities that looking at the feedback adds: those passed over, and those on forbidden
      paths; or the one on which the classifier failed; or the whole batch. */
  ghost function Noted(s: Settings, f: Facts, track: Track): seq<string> {
    var sorted := SortItems(f.items, s, f.expectedHead, track, f.paths);
    var batch := TheBatch(s, f, track);
    if Forbids(s, f, track) then sorted.skipped + sorted.forbidden
    else if AllSaid(f, batch) then sorted.skipped + Identities(batch)
    else sorted.skipped + [FirstUnsaid(f, batch).identity]
  }

  function FirstUnsaid(f: Facts, batch: seq<Feedback>): (item: Feedback)
    requires !AllSaid(f, batch)
    ensures item in batch && !f.classifier(item).Says? && Silenced(f, batch, f.classifier(item))
    decreases |batch|
  {
    SilencedStep(f, batch, f.classifier(batch[0]));
    if !f.classifier(batch[0]).Says? then batch[0]
    else
      SilencedStep(f, batch, f.classifier(FirstUnsaid(f, batch[1..])));
      FirstUnsaid(f, batch[1..])
  }

  lemma {:induction false} StopsAtUnsaid(s: Settings, f: Facts, batch: seq<Feedback>)
    requires !AllSaid(f, batch)
    ensures var stop := ClassifyAll(batch, s, f);
            stop.Stopped? && batch[stop.at] == FirstUnsaid(f, batch) && stop.answer == f.classifier(batch[stop.at])
    decreases |batch|
  {
    hide Decide, AllSaid, Silenced;
    NoneAsked(f, FailsClosed);
    SilencedStep(f, batch, f.classifier(batch[0]));
    if f.classifier(batch[0]).Says? {
      StopsAtUnsaid(s, f, batch[1..]);
    }
  }

  lemma ForbiddenSaved(s: Settings, f: Facts, trackId: Option<int>, nextId: int, track: Track)
    requires Forbids(s, f, track)
    ensures LastSaved(Evaluate(s, f, trackId, nextId, track).effects) ==
              Some(Render(Written(track, Noted(s, f, track), false, f.expectedHead, ReviewEscalated)))
  {
    var sorted := SortItems(f.items, s, f.expectedHead, track, f.paths);
    assert Noted(s, f, track) == sorted.skipped + sorted.forbidden;
    hide *;
    ForbidsExactly(s, f, track);
    EvaluateShape(s, f, trackId, nextId, track);
    EscalateSaved(trackId, track, sorted.skipped + sorted.forbidden, f.expectedHead);
  }

  lemma UnsaidSaved(s: Settings, f: Facts, trackId: Option<int>, nextId: int, track: Track)
    requires !Forbids(s, f, track) && !AllSaid(f, TheBatch(s, f, track))
    ensures LastSaved(Evaluate(s, f, trackId, nextId, track).effects) ==
              if Raised(f, TheBatch(s, f, track)) then None
              else Some(Render(Written(track, Noted(s, f, track), false, f.expectedHead, ReviewEscalated)))
  {
    var sorted := SortItems(f.items, s, f.expectedHead, track, f.paths);
    var batch := Batch(sorted.candidates, s.cap);
    assert TheBatch(s, f, track) == batch;
    var answer := f.classifier(FirstUnsaid(f, batch));
    var noted := sorted.skipped + [FirstUnsaid(f, batch).identity];
    assert Noted(s, f, track) == noted;
    RaisedMeans(f, batch, answer);
    hide *;
    ForbidsExactly(s, f, track);
    EvaluateShape(s, f, trackId, nextId, track);
    NoneAsked(f, FailsClosed);
    StopsAtUnsaid(s, f, batch);
    var at := ClassifyAll(batch, s, f).at;
    NoQuestionSaves(batch[..at + 1]);
    EscalateSaved(trackId, track, noted, f.expectedHead);
    SavedParts(trackId, track, [], f.expectedHead, if answer.Throws? then answer.fault else Refused, AgentReview);
    AfterSaved(Asks(batch[..at + 1]),
               if answer.Throws? then ControlPlaneFailure(answer.fault)
               else EscalateRun(trackId, WithProcessed(track, noted), f.expectedHead));
  }

  lemma RaisedMeans(f: Facts, batch: seq<Feedback>, answer: ClassifierAnswer)
    requires Silenced(f, batch, answer)
    ensures Raised(f, batch) <==> answer.Throws?
  {
    OneSilence(f, batch, answer, Throws(Unavailable));
    OneSilence(f, batch, answer, Throws(Refused));
    hide Silenced;
    if answer.Throws? {
      assert answer == Throws(if answer.fault == Unavailable then Unavailable else Refused);
    }
  }

  lemma SaidSaved(s: Settings, f: Facts, trackId: Option<int>, nextId: int, track: Track)
    requires !Forbids(s, f, track) && AllSaid(f, TheBatch(s, f, track))
    ensures var run := Evaluate(s, f, trackId, nextId, track);
            LastSaved(run.effects) ==
              Some(Render(Written(track, Noted(s, f, track), Repairs(s, f, track), f.expectedHead, run.outcome)))
  {
    var sorted := SortItems(f.items, s, f.expectedHead, track, f.paths);
    var batch := Batch(sorted.candidates, s.cap);
    assert TheBatch(s, f, track) == batch;
    assert Noted(s, f, track) == sorted.skipped + Identities(batch);
    RepairsMeans(s, f, track);
    hide *;
    ForbidsExactly(s, f, track);
    EvaluateShape(s, f, trackId, nextId, track);
    if batch == [] {
      NothingToDecide(s, f, sorted.skipped);
      ConvergeSaved(trackId, SavedId(trackId, nextId), track, sorted.skipped, f.items, f.expectedHead, false);
    } else {
      StopsAtFirst(s, f, batch, FailsClosed);
      DecisionsMeanToo(s, f, batch);
      var actions := ClassifyAll(batch, s, f).actions;
      ActSaved(s, f, trackId, nextId, track, sorted, batch, actions);
      NoQuestionSaves(batch);
      var act := Act(s, f, trackId, nextId, track, sorted, batch, actions);
      AfterSaved(Asks(batch), act);
      AfterOutcome(Asks(batch), act);
    }
  }

  lemma RepairsMeans(s: Settings, f: Facts, track: Track)
    ensures Repairs(s, f, track) <==>
            !Forbids(s, f, track) && Settleable(s, f, TheBatch(s, f, track))
            && SomeFixable(s, f, TheBatch(s, f, track)) && track.reviewAttempts < AttemptLimit(s)
  {
    hide Forbids, Settleable, SomeFixable, TheBatch;
  }

  /** The run writes the tracking comment. */
  ghost predicate Records(s: Settings, f: Facts, track: Track) {
    || LooksAt(f, Terminal.ReviewSkipped) || LooksAt(f, Terminal.ReviewFailed) || LooksAt(f, Terminal.Ambiguous)
    || (LooksAt(f, Terminal.ReviewCompleted) && (Forbids(s, f, track) || !Raised(f, TheBatch(s, f, track))))
  }

  /** What it then adds to the processed list, and whether it counts an attempt. */
  ghost function Added(s: Settings, f: Facts, track: Track): seq<string> {
    if f.terminal == Terminal.ReviewCompleted then Noted(s, f, track) else []
  }

  ghost predicate Counts(s: Settings, f: Facts, track: Track) {
    f.terminal == Terminal.ReviewCompleted && Repairs(s, f, track)
  }

  lemma EvaluateSaved(s: Settings, f: Facts, trackId: Option<int>, nextId: int, track: Track)
    ensures var run := Evaluate(s, f, trackId, nextId, track);
            LastSaved(run.effects) ==
              if Forbids(s, f, track) || !Raised(f, TheBatch(s, f, track)) then
                Some(Render(Written(track, Noted(s, f, track), Repairs(s, f, track), f.expectedHead, run.outcome)))
              else None
  {
    hide *;
    RepairsMeans(s, f, track);
    var batch := TheBatch(s, f, track);
    if Forbids(s, f, track) {
      ForbiddenSaved(s, f, trackId, nextId, track);
      ForbiddenOutcome(s, f, trackId, nextId, track);
    } else if AllSaid(f, batch) {
      SaidSaved(s, f, trackId, nextId, track);
      NothingRaised(f, batch);
    } else {
      var answer := f.classifier(FirstUnsaid(f, batch));
      UnsaidSaved(s, f, trackId, nextId, track);
      SilencedOutcome(s, f, trackId, nextId, track, answer);
      RaisedMeans(f, batch, answer);
      AnswerMeans(answer);
      KindsOfBatch(s, f, batch);
    }
  }

  lemma AnswerMeans(answer: ClassifierAnswer)
    ensures !answer.Throws? ==> AnswerOutcome(answer) == ReviewEscalated
  {
  }

  lemma NothingRaised(f: Facts, batch: seq<Feedback>)
    requires AllSaid(f, batch)
    ensures !Raised(f, batch)
  {
    NoSilence(f, batch);
    hide AllSaid, Silenced;
  }

  lemma TrackedSaved(s: Settings, f: Facts, hub: Hub, trackId: Option<int>, track: Track)
    requires HeadsAgree(f) && f.specFault.None? && !Settled(f, track, hub.labels)
    ensures var run := WithTrack(s, f, hub, trackId, track);
            LastSaved(run.effects) ==
              if Records(s, f, track) then
                Some(Render(Written(track, Added(s, f, track), Counts(s, f, track), f.expectedHead, run.outcome)))
              else None
  {
    var evaluated := Evaluate(s, f, trackId, hub.nextId, track);
    StickyMeans(track, hub.labels, f);
    EvaluateSaved(s, f, trackId, hub.nextId, track);
    AfterSaved(LabelEffects(AgentReview), evaluated);
    SavedParts(trackId, track, [], f.expectedHead, Refused, AgentReview);
    EscalateOutcome(trackId, track, f.expectedHead);
    hide Sticky, Settled, HeadsAgree, EscalateRun, LabelEffects, Evaluate, LastSaved, Forbids, Raised, TheBatch, Noted,
        Repairs, Render, WithProcessed, Converge;
  }

  lemma RunSaved(s: Settings, id: WorkUnitIdentity, f: Facts, hub: Hub)
    requires Inv(s, id, hub)
    requires HeadsAgree(f) && f.specFault.None? ==> !Settled(f, CurrentTrack(hub, id), hub.labels)
    ensures var track := CurrentTrack(hub, id);
            var run := Review(s, id, f, hub);
            LastSaved(run.effects) ==
              if Records(s, f, track) then
                Some(Render(Written(track, Added(s, f, track), Counts(s, f, track), f.expectedHead, run.outcome)))
              else None
  {
    var track := CurrentTrack(hub, id);
    hide *;
    PrecheckMeans(f);
    RunIs(s, id, f, hub);
    if Precheck(f).None? {
      TrackedSaved(s, f, hub, CurrentId(hub), track);
    } else {
      SavedParts(None, track, [], f.expectedHead, Precheck(f).value, AgentReview);
      StoppedRecordsNothing(s, f, track);
    }
  }

  lemma StoppedRecordsNothing(s: Settings, f: Facts, track: Track)
    requires !(HeadsAgree(f) && f.specFault.None?)
    ensures !Records(s, f, track)
  {
  }

  lemma RunIs(s: Settings, id: WorkUnitIdentity, f: Facts, hub: Hub)
    requires Inv(s, id, hub)
    ensures Review(s, id, f, hub) ==
              if Precheck(f).Some? then ControlPlaneFailure(Precheck(f).value)
              else WithTrack(s, f, hub, CurrentId(hub), CurrentTrack(hub, id))
  {
    LoadsCurrent(s, id, hub);
    hide Inv, LoadTrack, CurrentTrack, CurrentId, WithTrack, Precheck, ControlPlaneFailure;
  }

  lemma AddedClean(s: Settings, f: Facts, track: Track)
    requires CleanFacts(f)
    ensures Listable(Added(s, f, track))
  {
    SortedClean(f, s, track);
    NothingListed();
    var sorted := SortItems(f.items, s, f.expectedHead, track, f.paths);
    var batch := TheBatch(s, f, track);
    hide Listable, SortItems, CleanFacts, Batch, Forbids, AllSaid, Silenced;
    ListableConcat(sorted.skipped, sorted.forbidden);
    ListableConcat(sorted.skipped, Identities(batch));
    if !AllSaid(f, batch) {
      var first := FirstUnsaid(f, batch);
      var i :| 0 <= i < |batch| && batch[i] == first;
      assert Identities(batch)[i] == first.identity;
      ListableParts(Identities(batch), [first.identity]);
      ListableConcat(sorted.skipped, [first.identity]);
    }
  }

  lemma CountsWithinLimit(s: Settings, f: Facts, track: Track)
    ensures Counts(s, f, track) ==> track.reviewAttempts < AttemptLimit(s)
  {
    hide Forbids, Settleable, SomeFixable, TheBatch;
  }

  lemma WrittenReadsBack(s: Settings, id: WorkUnitIdentity, f: Facts, track: Track, outcome: ReviewOutcome)
    requires GoodTrack(s, id, track) && CleanFacts(f)
    ensures var u := Written(track, Added(s, f, track), Counts(s, f, track), f.expectedHead, outcome);
            Parse(Render(u)) == Some(u)
  {
    AddedClean(s, f, track);
    CleanHead(f);
    CountsWithinLimit(s, f, track);
    hide GoodTrack, Listable, Clean, Added, Counts, Parse, Render, WithProcessed, AttemptLimit;
    MergedIsGood(s, id, track, Added(s, f, track), Counts(s, f, track),
        if outcome == InReview then None else Some(f.expectedHead));
  }

  /** What the tracking comment says after a run, for every run that is not answered by a settled
      head: nothing changed, or exactly these identities were added, an attempt was counted exactly
      for a repair, and it was bound to the head unless the pull request stays in review. */
  lemma RecordsExactly(s: Settings, id: WorkUnitIdentity, f: Facts, hub: Hub)
    requires Inv(s, id, hub) && CleanFacts(f)
    requires HeadsAgree(f) && f.specFault.None? ==> !Settled(f, CurrentTrack(hub, id), hub.labels)
    ensures var before := CurrentTrack(hub, id);
            var run := Review(s, id, f, hub);
            var now := CurrentTrack(ApplyAll(hub, run.effects), id);
            if !Records(s, f, before) then now == before
            else
              && now == before.(processed := now.processed, reviewAttempts := now.reviewAttempts, headSha :=
                  now.headSha)
              && before.processed <= now.processed
              && (forall p :: p in now.processed <==> p in before.processed || p in Added(s, f, before))
              && now.reviewAttempts == before.reviewAttempts + (if Counts(s, f, before) then 1 else 0)
              && now.headSha == if run.outcome == InReview then before.headSha else f.expectedHead
  {
    var before := CurrentTrack(hub, id);
    var run := Review(s, id, f, hub);
    hide *;
    ReviewAllowed(s, id, f, hub);
    LastSavedIsCurrent(s, id, hub, run.effects);
    RunSaved(s, id, f, hub);
    GoodNow(s, id, hub);
    WrittenReadsBack(s, id, f, before, run.outcome);
    WrittenMeans(before, Added(s, f, before), Counts(s, f, before), f.expectedHead, run.outcome);
  }

  lemma WrittenMeans(track: Track, added: seq<string>, counts: bool, head: string, outcome: ReviewOutcome)
    ensures var now := Written(track, added, counts, head, outcome);
            && now == track.(processed := now.processed, reviewAttempts := now.reviewAttempts, headSha := now.headSha)
            && track.processed <= now.processed
            && (forall p :: p in now.processed <==> p in track.processed || p in added)
            && now.reviewAttempts == track.reviewAttempts + (if counts then 1 else 0)
            && now.headSha == if outcome == InReview then track.headSha else head
  {
    MergedMeaning(track.processed, added);
  }

  /** A comment by the configured actor, not processed yet, about another head or a path that is gone. */
  predicate Outdated(s: Settings, f: Facts, track: Track, item: Feedback) {
    && item in f.items && Strip(s.actor) != "" && item.author == s.actor && item.identity !in track.processed
    && (!AboutHead(f, track, item) || (item.path != "" && !f.paths.exists_(item.path)))
  }

  predicate OnForbiddenPath(s: Settings, f: Facts, track: Track, item: Feedback) {
    Fresh(s, f, track, item) && item.path != "" && f.paths.exists_(item.path) && !f.paths.inScope(item.path)
  }

  /** Whose identities looking at the feedback adds. */
  lemma AddedExactly(s: Settings, f: Facts, track: Track, p: string)
    requires f.terminal == Terminal.ReviewCompleted
    ensures p in Added(s, f, track) <==>
            || (exists item: Feedback :: item.identity == p && Outdated(s, f, track, item))
            || (if Forbids(s, f, track) then exists item: Feedback ::
                item.identity == p && OnForbiddenPath(s, f, track, item)
                else if AllSaid(f, TheBatch(s, f, track)) then p in Identities(TheBatch(s, f, track))
                else p == FirstUnsaid(f, TheBatch(s, f, track)).identity)
  {
    SortedExactly(f.items, s, f.expectedHead, track, f.paths);
    forall item ensures item in f.items ==>
        && (PassedOver(ReasonOf(item, s, f.expectedHead, track, f.paths)) <==> Outdated(s, f, track, item))
        && (ReasonOf(item, s, f.expectedHead, track, f.paths) == ForbiddenPath <==> OnForbiddenPath(s, f, track, item))
    {
      OutdatedMeans(s, f, track, item);
    }
    assert forall item :: Outdated(s, f, track, item) || OnForbiddenPath(s, f, track, item) ==> item in f.items;
    hide SortItems, ReasonOf, Outdated, OnForbiddenPath, Forbids, AllSaid, TheBatch, PassedOver;
  }

  lemma OutdatedMeans(s: Settings, f: Facts, track: Track, item: Feedback)
    ensures item in f.items ==>
        && (PassedOver(ReasonOf(item, s, f.expectedHead, track, f.paths)) <==> Outdated(s, f, track, item))
        && (ReasonOf(item, s, f.expectedHead, track, f.paths) == ForbiddenPath <==> OnForbiddenPath(s, f, track, item))
  {
    AboutHeadIs(f, track);
    hide Strip, AppliesToHead, AboutHead;
  }

  /** The items the classifier is asked about, in order. */
  function Asked(effects: seq<Effect>): seq<string>
    decreases |effects|
  {
    if effects == [] then []
    else (if effects[0].AskClassifier? then [effects[0].identity] else []) + Asked(effects[1..])
  }

  lemma {:induction false} AskedConcat(a: seq<Effect>, b: seq<Effect>)
    ensures Asked(a + b) == Asked(a) + Asked(b)
    decreases |a|
  {
    if a == [] {
      assert a + b == b;
    } else {
      assert (a + b)[1..] == a[1..] + b;
      AskedConcat(a[1..], b);
    }
  }

  lemma {:induction false} AskedAll(items: seq<Feedback>)
    ensures Asked(Asks(items)) == Identities(items)
    decreases |items|
  {
    if items == [] {
    } else {
      assert Asks(items)[0] == AskClassifier(items[0].identity) && Asks(items)[1..] == Asks(items[1..]);
      AskedAll(items[1..]);
      assert Identities(items) == [items[0].identity] + Identities(items[1..]);
    }
  }

  lemma {:induction false} NothingAsked(effects: seq<Effect>)
    requires forall e :: e in effects ==> !e.AskClassifier?
    ensures Asked(effects) == []
    decreases |effects|
  {
    if effects != [] {
      assert effects[0] in effects;
      NothingAsked(effects[1..]);
    }
  }

  lemma {:induction false} RemovalsAskNothing(status: StatusLabel, names: seq<StatusLabel>)
    ensures forall e :: e in Removals(status, names) ==> !e.AskClassifier?
    decreases |names|
  {
    if names != [] {
      RemovalsAskNothing(status, names[1..]);
    }
  }

  lemma LabelsAskNothing(status: StatusLabel)
    ensures forall e :: e in LabelEffects(status) ==> !e.AskClassifier?
  {
    RemovalsAskNothing(status, EXCLUSIVE_LABELS);
  }

  predicate Quiet(run: ReviewRun) { forall e :: e in run.effects ==> !e.AskClassifier? }

  lemma PartsAskNothing(trackId: Option<int>, t: Track, items: seq<Feedback>, head: string, fault: Fault, f: Facts)
    ensures Quiet(EscalateRun(trackId, t, head)) && Quiet(ControlPlaneFailure(fault))
    ensures Quiet(Converge(trackId, t, items, head)) && Quiet(Repair(trackId, t, f))
    ensures Quiet(ReviewRun(InReview, LabelEffects(AgentReview)))
  {
    LabelsAskNothing(AgentReview);
    LabelsAskNothing(AgentReady);
    LabelsAskNothing(AgentEscalated);
    LabelsAskNothing(AgentFailed);
    hide LabelEffects, WithProcessed, Render, AppliesToHead;
  }

  lemma ActAsksNothing(s: Settings, f: Facts, trackId: Option<int>, nextId: int, track: Track, sorted: Sorted,
      batch: seq<Feedback>, actions: seq<PolicyAction>)
    ensures Quiet(Act(s, f, trackId, nextId, track, sorted, batch, actions))
  {
    var identities := sorted.skipped + Identities(batch);
    var u := WithProcessed(track, identities);
    PartsAskNothing(trackId, u, f.items, f.expectedHead, Refused, f);
    PartsAskNothing(SavedId(trackId, nextId), u, f.items, f.expectedHead, Refused, f);
    PartsAskNothing(trackId, WithProcessed(track, identities, true, Some(f.expectedHead)), f.items, f.expectedHead,
        Refused, f);
    hide WithProcessed, Render, EscalateRun, Converge, Repair, AttemptLimit;
  }

  /** The items up to the first on which the classifier gives no opinion. */
  function UpToUnsaid(f: Facts, batch: seq<Feedback>): (asked: seq<Feedback>)
    ensures |asked| <= |batch| && asked == batch[..|asked|]
    ensures AllSaid(f, batch) ==> asked == batch
    ensures forall i :: 0 <= i < |asked| - 1 ==> f.classifier(asked[i]).Says?
    ensures !AllSaid(f, batch) ==> asked != [] && !f.classifier(asked[|asked| - 1]).Says?
    decreases |batch|
  {
    if batch == [] then []
    else if !f.classifier(batch[0]).Says? then [batch[0]]
    else [batch[0]] + UpToUnsaid(f, batch[1..])
  }

  lemma {:induction false} StopAsks(s: Settings, f: Facts, batch: seq<Feedback>)
    ensures var r := ClassifyAll(batch, s, f);
            UpToUnsaid(f, batch) == if r.Decided? then batch else batch[..r.at + 1]
    decreases |batch|
  {
    hide Decide, AllSaid;
    if batch != [] {
      StopAsks(s, f, batch[1..]);
      var r := ClassifyAll(batch[1..], s, f);
      if f.classifier(batch[0]).Says? && r.Stopped? {
        assert batch[..r.at + 2] == [batch[0]] + batch[1..][..r.at + 1];
      }
    }
  }

  lemma AfterAsks(first: seq<Feedback>, run: ReviewRun)
    requires Quiet(run)
    ensures Asked(After(Asks(first), run).effects) == Identities(first)
  {
    AskedConcat(Asks(first), run.effects);
    AskedAll(first);
    NothingAsked(run.effects);
  }

  lemma EvaluateAsks(s: Settings, f: Facts, trackId: Option<int>, nextId: int, track: Track)
    ensures Asked(Evaluate(s, f, trackId, nextId, track).effects) ==
              if Forbids(s, f, track) then [] else Identities(UpToUnsaid(f, TheBatch(s, f, track)))
  {
    var sorted := SortItems(f.items, s, f.expectedHead, track, f.paths);
    var batch := Batch(sorted.candidates, s.cap);
    assert TheBatch(s, f, track) == batch;
    hide *;
    ForbidsExactly(s, f, track);
    EvaluateShape(s, f, trackId, nextId, track);
    StopAsks(s, f, batch);
    if sorted.forbidden != [] {
      QuietAsked(EscalateRun(trackId, WithProcessed(track, sorted.skipped + sorted.forbidden), f.expectedHead));
      PartsAskNothing(trackId, WithProcessed(track, sorted.skipped + sorted.forbidden), [], f.expectedHead, Refused, f);
    } else if batch == [] {
      var u := WithProcessed(track, sorted.skipped);
      PartsAskNothing(SavedId(trackId, nextId), u, f.items, f.expectedHead, Refused, f);
      SaveAsksNothing(trackId, u, Converge(SavedId(trackId, nextId), u, f.items, f.expectedHead));
      NoneUnsaid(f);
    } else {
      match ClassifyAll(batch, s, f)
      case Stopped(at, answer) =>
        var t := WithProcessed(track, sorted.skipped + [batch[at].identity]);
        PartsAskNothing(trackId, t, [], f.expectedHead, if answer.Throws? then answer.fault else Refused, f);
        AfterAsks(batch[..at + 1],
                  if answer.Throws? then ControlPlaneFailure(answer.fault) else EscalateRun(trackId, t,
                      f.expectedHead));
      case Decided(actions) =>
        ActAsksNothing(s, f, trackId, nextId, track, sorted, batch, actions);
        AfterAsks(batch, Act(s, f, trackId, nextId, track, sorted, batch, actions));
    }
  }

  lemma QuietAsked(run: ReviewRun)
    ensures Quiet(run) ==> Asked(run.effects) == []
  {
    if Quiet(run) {
      NothingAsked(run.effects);
    }
  }

  lemma SaveAsksNothing(trackId: Option<int>, u: Track, run: ReviewRun)
    requires Quiet(run)
    ensures Asked(After([SaveTrack(trackId, Render(u))], run).effects) == []
  {
    NothingAsked([SaveTrack(trackId, Render(u))] + run.effects);
  }

  lemma NoneUnsaid(f: Facts)
    ensures Identities(UpToUnsaid(f, [])) == []
  {
  }

  /** The classifier is asked about nothing, or about the batch in order, up to the first item on which
      it gives no opinion. */
  lemma AskedExactly(s: Settings, id: WorkUnitIdentity, f: Facts, hub: Hub)
    requires Inv(s, id, hub)
    ensures var track := CurrentTrack(hub, id);
            Asked(Review(s, id, f, hub).effects) ==
              if LooksAt(f, Terminal.ReviewCompleted) && !Settled(f, track, hub.labels) && !Forbids(s, f, track) then
                Identities(UpToUnsaid(f, TheBatch(s, f, track)))
              else []
  {
    var track := CurrentTrack(hub, id);
    hide *;
    PrecheckMeans(f);
    RunIs(s, id, f, hub);
    if Precheck(f).None? {
      TrackedAsks(s, f, hub, CurrentId(hub), track);
    } else {
      PartsAskNothing(None, track, [], "", Precheck(f).value, f);
      QuietAsked(ControlPlaneFailure(Precheck(f).value));
      StoppedLooksAtNothing(f);
    }
  }

  lemma StoppedLooksAtNothing(f: Facts)
    requires !(HeadsAgree(f) && f.specFault.None?)
    ensures !LooksAt(f, Terminal.ReviewCompleted)
  {
  }

  lemma TrackedAsks(s: Settings, f: Facts, hub: Hub, trackId: Option<int>, track: Track)
    requires HeadsAgree(f) && f.specFault.None?
    ensures Asked(WithTrack(s, f, hub, trackId, track).effects) ==
              if LooksAt(f, Terminal.ReviewCompleted) && !Settled(f, track, hub.labels) && !Forbids(s, f, track) then
                Identities(UpToUnsaid(f, TheBatch(s, f, track)))
              else []
  {
    var evaluated := Evaluate(s, f, trackId, hub.nextId, track);
    StickyMeans(track, hub.labels, f);
    EvaluateAsks(s, f, trackId, hub.nextId, track);
    PartsAskNothing(trackId, track, [], f.expectedHead, Refused, f);
    QuietAsked(EscalateRun(trackId, track, f.expectedHead));
    QuietAsked(ReviewRun(InReview, LabelEffects(AgentReview)));
    AskedConcat(LabelEffects(AgentReview), evaluated.effects);
    QuietAsked(ReviewRun(InReview, []));
    hide Sticky, Settled, HeadsAgree, EscalateRun, LabelEffects, Evaluate, Asked, Forbids, TheBatch, Quiet, UpToUnsaid,
        Identities;
    NothingAsked([]);
  }
}
