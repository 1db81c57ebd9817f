/** Which outcome a review run has, told from what it meets (agent/review_loop.py). */
module OutcomeProofs {
  import opened Prelude
  import opened Spec
  import opened PyText
  import opened ReviewTrack
  import opened ReviewPolicy
  import opened ReviewHub
  import opened ReviewLoop
  import opened ReviewHistory
  import opened ReadyProofs
  import opened RepairProofs
  import Terminal

  /** GitHub names a head, and it is the expected one in the workspace too. */
  predicate HeadsAgree(f: Facts) {
    f.apiHead != "" && f.apiHead == f.expectedHead && f.workspaceHead == f.expectedHead
  }

  /** An earlier run has settled this head: the track is bound to it and a final label is set. */
  predicate Settled(f: Facts, track: Track, labels: set<StatusLabel>) {
    track.headSha == f.expectedHead && (AgentFailed in labels || AgentEscalated in labels || AgentReady in labels)
  }

  /** The heads agree, the spec is there, and the external review of the head is in state `kind`. */
  predicate LooksAt(f: Facts, kind: Terminal.Kind) {
    HeadsAgree(f) && f.specFault.None? && f.terminal == kind
  }

  /** About this head: made on its commit, or on no commit while no other head was settled. */
  predicate AboutHead(f: Facts, track: Track, item: Feedback) {
    || (item.commitSha != "" && item.commitSha == f.expectedHead)
    || (item.commitSha == "" && (track.headSha == "" || track.headSha == f.expectedHead))
  }

  lemma AboutHeadIs(f: Facts, track: Track)
    ensures forall item :: AboutHead(f, track, item) <==> AppliesToHead(item, f.expectedHead, track.headSha)
  {
  }

  /** A comment by the configured actor, not processed yet, that is about this head. */
  predicate Fresh(s: Settings, f: Facts, track: Track, item: Feedback) {
    && item in f.items && Strip(s.actor) != "" && item.author == s.actor && item.identity !in track.processed
    && AboutHead(f, track, item)
  }

  /** One of them is on an existing path outside the scope. */
  ghost predicate Forbids(s: Settings, f: Facts, track: Track) {
    exists item :: Fresh(s, f, track, item) && item.path != "" && f.paths.exists_(item.path) &&
        !f.paths.inScope(item.path)
  }

  function Candidates(s: Settings, f: Facts, track: Track): seq<Feedback> {
    SortItems(f.items, s, f.expectedHead, track, f.paths).candidates
  }

  function TheBatch(s: Settings, f: Facts, track: Track): seq<Feedback> {
    Batch(Candidates(s, f, track), s.cap)
  }

  /** The candidates are the other fresh comments on no path, or on one that exists. */
  lemma CandidatesExactly(s: Settings, f: Facts, track: Track, item: Feedback)
    ensures item in Candidates(s, f, track) <==>
            Fresh(s, f, track, item) && (item.path == "" || (f.paths.exists_(item.path) && f.paths.inScope(item.path)))
  {
    SortedExactly(f.items, s, f.expectedHead, track, f.paths);
    ReasonsMean(s, f, track, item);
    assert Fresh(s, f, track, item) ==> item in f.items;
    hide SortItems, ReasonOf, Fresh;
  }

  lemma ForbidsExactly(s: Settings, f: Facts, track: Track)
    ensures Forbids(s, f, track) <==> SortItems(f.items, s, f.expectedHead, track, f.paths).forbidden != []
  {
    SortedExactly(f.items, s, f.expectedHead, track, f.paths);
    forall x ensures x in f.items && ReasonOf(x, s, f.expectedHead, track, f.paths) == ForbiddenPath <==>
                     Fresh(s, f, track, x) && x.path != "" && f.paths.exists_(x.path) && !f.paths.inScope(x.path)
    {
      ReasonsMean(s, f, track, x);
    }
    hide SortItems, ReasonOf, Fresh;
    var forbidden := SortItems(f.items, s, f.expectedHead, track, f.paths).forbidden;
    if forbidden != [] {
      assert forbidden[0] in forbidden;
    }
    if x :| Fresh(s, f, track, x) && x.path != "" && f.paths.exists_(x.path) && !f.paths.inScope(x.path) {
      assert x.identity in forbidden;
    }
  }

  lemma ReasonsMean(s: Settings, f: Facts, track: Track, item: Feedback)
    ensures item in f.items ==>
              && (ReasonOf(item, s, f.expectedHead, track, f.paths) == ForbiddenPath <==>
                    Fresh(s, f, track, item) && item.path != "" && f.paths.exists_(item.path) &&
                        !f.paths.inScope(item.path))
              && (ReasonOf(item, s, f.expectedHead, track, f.paths) == Accepted <==>
                    Fresh(s, f, track, item)
                    && (item.path == "" || (f.paths.exists_(item.path) && f.paths.inScope(item.path))))
  {
    AboutHeadIs(f, track);
    hide Strip, AppliesToHead, AboutHead;
  }

  predicate AllSaid(f: Facts, batch: seq<Feedback>) {
    forall c :: c in batch ==> f.classifier(c).Says?
  }

  /** The first answer of the classifier that is no opinion on an item of the batch. */
  predicate Silenced(f: Facts, batch: seq<Feedback>, answer: ClassifierAnswer) {
    exists i :: 0 <= i < |batch| && !f.classifier(batch[i]).Says? && f.classifier(batch[i]) == answer
                && forall j :: 0 <= j < i ==> f.classifier(batch[j]).Says?
  }

  /** Every item of the batch may be fixed or ignored. */
  predicate Settleable(s: Settings, f: Facts, batch: seq<Feedback>) {
    forall c :: c in batch ==> Fixable(s, f, c) || Ignorable(f, c)
  }

  predicate SomeFixable(s: Settings, f: Facts, batch: seq<Feedback>) {
    exists c :: c in batch && Fixable(s, f, c)
  }

  /** A repair is due and an attempt is left under both limits. */
  ghost predicate Repairs(s: Settings, f: Facts, track: Track) {
    && !Forbids(s, f, track) && Settleable(s, f, TheBatch(s, f, track)) && SomeFixable(s, f, TheBatch(s, f, track))
    && track.reviewAttempts < s.specLimit && track.reviewAttempts < s.configLimit
  }

  predicate AllIgnorable(f: Facts, batch: seq<Feedback>) {
    forall c :: c in batch ==> Ignorable(f, c)
  }

  /** Nothing is forbidden and the whole batch is non-actionable. */
  ghost predicate AllQuiet(s: Settings, f: Facts, track: Track) {
    !Forbids(s, f, track) && AllIgnorable(f, TheBatch(s, f, track))
  }

  /** A comment about this head is neither processed nor handled by this run. */
  ghost predicate StillOpen(s: Settings, f: Facts, track: Track) {
    exists item :: item in f.items && AboutHead(f, track, item)
      && item.identity !in track.processed && item.identity !in Handled(s, f, track)
  }

  /** Candidates are left for another run, or a comment stays open. */
  ghost predicate MoreToDo(s: Settings, f: Facts, track: Track) {
    || (TheBatch(s, f, track) != [] && |TheBatch(s, f, track)| < |Candidates(s, f, track)|)
    || StillOpen(s, f, track)
  }

  /** What looking at the feedback leads to. */
  ghost predicate Evaluates(s: Settings, f: Facts, track: Track, outcome: ReviewOutcome) {
    var batch := TheBatch(s, f, track);
    match outcome
    case ReviewFailed =>
      || (!Forbids(s, f, track) && Silenced(f, batch, Throws(Unavailable)))
      || (Repairs(s, f, track) && f.fix.FixRaises? && f.fix.fault == Unavailable)
    case ReviewEscalated =>
      || Forbids(s, f, track)
      || Silenced(f, batch, Throws(Refused)) || Silenced(f, batch, FailsClosed)
      || (AllSaid(f, batch) && !Settleable(s, f, batch))
      || (&& Settleable(s, f, batch) && SomeFixable(s, f, batch)
          && (track.reviewAttempts >= s.specLimit || track.reviewAttempts >= s.configLimit))
      || (Repairs(s, f, track) && f.fix.FixRaises? && f.fix.fault == Refused)
    case FixPushed => Repairs(s, f, track) && f.fix.FixCommitted?
    case InReview => AllQuiet(s, f, track) && MoreToDo(s, f, track)
    case ReadyForHuman => AllQuiet(s, f, track) && !MoreToDo(s, f, track)
  }

  /** When a run that is not answered by a settled head has each outcome. */
  ghost predicate Has(s: Settings, f: Facts, track: Track, outcome: ReviewOutcome) {
    match outcome
    case ReviewFailed =>
      || f.apiHead == ""
      || (HeadsAgree(f) && f.specFault == Some(Unavailable))
      || (LooksAt(f, Terminal.ReviewCompleted) && Evaluates(s, f, track, outcome))
    case ReviewEscalated =>
      || (f.apiHead != "" && !HeadsAgree(f))
      || (HeadsAgree(f) && f.specFault == Some(Refused))
      || LooksAt(f, Terminal.ReviewSkipped) || LooksAt(f, Terminal.ReviewFailed) || LooksAt(f, Terminal.Ambiguous)
      || (LooksAt(f, Terminal.ReviewCompleted) && Evaluates(s, f, track, outcome))
    case FixPushed => LooksAt(f, Terminal.ReviewCompleted) && Evaluates(s, f, track, outcome)
    case InReview =>
      || LooksAt(f, Terminal.NoEvidence) || LooksAt(f, Terminal.InProgress)
      || (LooksAt(f, Terminal.ReviewCompleted) && Evaluates(s, f, track, outcome))
    case ReadyForHuman => LooksAt(f, Terminal.ReviewCompleted) && Evaluates(s, f, track, outcome)
  }

  lemma ConvergeOutcome(trackId: Option<int>, t: Track, items: seq<Feedback>, head: string)
    ensures Converge(trackId, t, items, head).outcome ==
              if exists item :: item in items && AppliesToHead(item, head, t.headSha) && item.identity !in t.processed
              then InReview else ReadyForHuman
  {
    hide AppliesToHead, WithProcessed, Render, LabelEffects;
  }

  /** After what was handled is saved: in review exactly while a comment on this head is open. */
  lemma HandledConverges(s: Settings, f: Facts, track: Track, trackId: Option<int>)
    ensures Converge(trackId, WithProcessed(track, Handled(s, f, track)), f.items, f.expectedHead).outcome ==
              if StillOpen(s, f, track) then InReview else ReadyForHuman
  {
    var t := WithProcessed(track, Handled(s, f, track));
    assert t.headSha == track.headSha && t.processed == Merged(track.processed, Handled(s, f, track));
    MergedMeaning(track.processed, Handled(s, f, track));
    AboutHeadIs(f, track);
    hide AppliesToHead, AboutHead, WithProcessed, Handled, Merged, Converge;
    ConvergeOutcome(trackId, t, f.items, f.expectedHead);
  }

  function FaultOutcome(fault: Fault): ReviewOutcome {
    match fault
    case Unavailable => ReviewFailed
    case Refused => ReviewEscalated
  }

  lemma FailureOutcome(fault: Fault)
    ensures ControlPlaneFailure(fault).outcome == FaultOutcome(fault)
  {
    hide LabelEffects;
  }

  lemma EscalateOutcome(trackId: Option<int>, t: Track, head: string)
    ensures EscalateRun(trackId, t, head).outcome == ReviewEscalated
  {
    hide LabelEffects, Render, WithProcessed;
  }

  lemma ActOutcome(s: Settings, f: Facts, trackId: Option<int>, nextId: int, track: Track, sorted: Sorted,
      batch: seq<Feedback>, actions: seq<PolicyAction>)
    ensures var outcome := Act(s, f, trackId, nextId, track, sorted, batch, actions).outcome;
            var t := WithProcessed(track, sorted.skipped + Identities(batch));
            if Escalate in actions then outcome == ReviewEscalated
            else if Fix !in actions then
              outcome == if |batch| < |sorted.candidates| then InReview
                         else Converge(SavedId(trackId, nextId), t, f.items, f.expectedHead).outcome
            else if track.reviewAttempts >= s.specLimit || track.reviewAttempts >= s.configLimit then
              outcome == ReviewEscalated
            else outcome == if f.fix.FixCommitted? then FixPushed else FaultOutcome(f.fix.fault)
  {
    if f.fix.FixRaises? {
      FailureOutcome(f.fix.fault);
    }
    hide LabelEffects, Render, WithProcessed, Converge, ControlPlaneFailure, FaultOutcome;
  }

  /** The answer at which classifying stops is the first that is no opinion. */
  lemma SilencedStep(f: Facts, batch: seq<Feedback>, answer: ClassifierAnswer)
    requires batch != []
    ensures Silenced(f, batch, answer) <==>
            (if f.classifier(batch[0]).Says? then Silenced(f, batch[1..], answer) else f.classifier(batch[0]) == answer)
    ensures AllSaid(f, batch) <==> f.classifier(batch[0]).Says? && AllSaid(f, batch[1..])
  {
    assert forall c :: c in batch <==> c == batch[0] || c in batch[1..];
    if f.classifier(batch[0]).Says? {
      if i :| 0 <= i < |batch| && !f.classifier(batch[i]).Says? && f.classifier(batch[i]) == answer
              && forall j :: 0 <= j < i ==> f.classifier(batch[j]).Says? {
        assert f.classifier(batch[1..][i - 1]) == answer;
      }
      if i :| 0 <= i < |batch[1..]| && !f.classifier(batch[1..][i]).Says? && f.classifier(batch[1..][i]) == answer
              && forall j :: 0 <= j < i ==> f.classifier(batch[1..][j]).Says? {
        assert f.classifier(batch[i + 1]) == answer;
        forall j | 0 <= j < i + 1 ensures f.classifier(batch[j]).Says? {
          if j > 0 { assert f.classifier(batch[1..][j - 1]).Says?; }
        }
      }
    } else if f.classifier(batch[0]) == answer {
      assert !f.classifier(batch[0]).Says?;
    }
  }

  /** The answer at which classifying stops is the first that is no opinion. */
  lemma {:induction false} StopsAtFirst(s: Settings, f: Facts, batch: seq<Feedback>, answer: ClassifierAnswer)
    ensures Silenced(f, batch, answer) <==>
        ClassifyAll(batch, s, f).Stopped? && ClassifyAll(batch, s, f).answer == answer
    ensures AllSaid(f, batch) <==> ClassifyAll(batch, s, f).Decided?
    decreases |batch|
  {
    hide Decide, Silenced, AllSaid;
    if batch != [] {
      SilencedStep(f, batch, answer);
      StopsAtFirst(s, f, batch[1..], answer);
    } else {
      NoneAsked(f, answer);
    }
  }

  lemma NoneAsked(f: Facts, answer: ClassifierAnswer)
    ensures !Silenced(f, [], answer) && AllSaid(f, [])
  {
  }

  lemma OneSilence(f: Facts, batch: seq<Feedback>, a: ClassifierAnswer, b: ClassifierAnswer)
    requires Silenced(f, batch, a)
    ensures !AllSaid(f, batch) && !a.Says? && (Silenced(f, batch, b) <==> a == b)
  {
    var i :| 0 <= i < |batch| && !f.classifier(batch[i]).Says? && f.classifier(batch[i]) == a
             && forall j :: 0 <= j < i ==> f.classifier(batch[j]).Says?;
    assert batch[i] in batch;
  }

  lemma KindsOfBatch(s: Settings, f: Facts, batch: seq<Feedback>)
    ensures Settleable(s, f, batch) ==> AllSaid(f, batch)
    ensures AllIgnorable(f, batch) <==> Settleable(s, f, batch) && !SomeFixable(s, f, batch)
  {
    forall c ensures !(Fixable(s, f, c) && Ignorable(f, c)) && (Fixable(s, f, c) ==> f.classifier(c).Says?) {
    }
    hide Fixable;
  }

  function AnswerOutcome(answer: ClassifierAnswer): ReviewOutcome {
    if answer.Throws? then FaultOutcome(answer.fault) else ReviewEscalated
  }

  lemma AfterOutcome(first: seq<Effect>, run: ReviewRun)
    ensures After(first, run).outcome == run.outcome
  {
  }

  lemma StopOutcome(answer: ClassifierAnswer, trackId: Option<int>, t: Track, head: string)
    ensures (if answer.Throws? then ControlPlaneFailure(answer.fault) else EscalateRun(trackId, t, head)).outcome ==
        AnswerOutcome(answer)
  {
    hide LabelEffects, WithProcessed, Render;
  }

  lemma ForbiddenOutcome(s: Settings, f: Facts, trackId: Option<int>, nextId: int, track: Track)
    requires Forbids(s, f, track)
    ensures Evaluate(s, f, trackId, nextId, track).outcome == ReviewEscalated
  {
    var sorted := SortItems(f.items, s, f.expectedHead, track, f.paths);
    hide *;
    ForbidsExactly(s, f, track);
    EvaluateShape(s, f, trackId, nextId, track);
    EscalateOutcome(trackId, WithProcessed(track, sorted.skipped + sorted.forbidden), f.expectedHead);
  }

  lemma SilencedOutcome(s: Settings, f: Facts, trackId: Option<int>, nextId: int, track: Track,
      answer: ClassifierAnswer)
    requires !Forbids(s, f, track) && Silenced(f, TheBatch(s, f, track), answer)
    ensures Evaluate(s, f, trackId, nextId, track).outcome == AnswerOutcome(answer)
  {
    var sorted := SortItems(f.items, s, f.expectedHead, track, f.paths);
    var batch := Batch(sorted.candidates, s.cap);
    assert TheBatch(s, f, track) == batch;
    hide *;
    ForbidsExactly(s, f, track);
    EvaluateShape(s, f, trackId, nextId, track);
    StopsAtFirst(s, f, batch, answer);
    NoneAsked(f, answer);
    var stop := ClassifyAll(batch, s, f);
    var t := WithProcessed(track, sorted.skipped + [batch[stop.at].identity]);
    StopOutcome(answer, trackId, t, f.expectedHead);
    AfterOutcome(Asks(batch[..stop.at + 1]),
                 if answer.Throws? then ControlPlaneFailure(answer.fault) else EscalateRun(trackId, t, f.expectedHead));
  }

  /** Every item of a batch, possibly empty, was given an opinion. */
  lemma DecidedOutcome(s: Settings, f: Facts, trackId: Option<int>, nextId: int, track: Track)
    requires !Forbids(s, f, track) && AllSaid(f, TheBatch(s, f, track))
    ensures var outcome := Evaluate(s, f, trackId, nextId, track).outcome;
            var batch := TheBatch(s, f, track);
            if !Settleable(s, f, batch) then outcome == ReviewEscalated
            else if !SomeFixable(s, f, batch) then
              outcome == if MoreToDo(s, f, track) then InReview else ReadyForHuman
            else if track.reviewAttempts >= s.specLimit || track.reviewAttempts >= s.configLimit then
              outcome == ReviewEscalated
            else outcome == if f.fix.FixCommitted? then FixPushed else FaultOutcome(f.fix.fault)
  {
    var sorted := SortItems(f.items, s, f.expectedHead, track, f.paths);
    var batch := Batch(sorted.candidates, s.cap);
    assert TheBatch(s, f, track) == batch && Candidates(s, f, track) == sorted.candidates;
    assert Handled(s, f, track) == sorted.skipped + Identities(batch);
    MoreMeans(s, f, track);
    hide *;
    ForbidsExactly(s, f, track);
    EvaluateShape(s, f, trackId, nextId, track);
    HandledConverges(s, f, track, SavedId(trackId, nextId));
    if batch == [] {
      NothingToDecide(s, f, sorted.skipped);
      var t := WithProcessed(track, sorted.skipped);
      AfterOutcome([SaveTrack(trackId, Render(t))],
                   Converge(SavedId(trackId, nextId), t, f.items, f.expectedHead));
    } else {
      StopsAtFirst(s, f, batch, FailsClosed);
      DecisionsMeanToo(s, f, batch);
      var actions := ClassifyAll(batch, s, f).actions;
      ActOutcome(s, f, trackId, nextId, track, sorted, batch, actions);
      AfterOutcome(Asks(batch), Act(s, f, trackId, nextId, track, sorted, batch, actions));
    }
  }

  lemma MoreMeans(s: Settings, f: Facts, track: Track)
    ensures MoreToDo(s, f, track) <==>
            (TheBatch(s, f, track) != [] && |TheBatch(s, f, track)| < |Candidates(s, f, track)|)
            || StillOpen(s, f, track)
  {
  }

  lemma NothingToDecide(s: Settings, f: Facts, skipped: seq<string>)
    ensures Settleable(s, f, []) && !SomeFixable(s, f, []) && skipped + Identities([]) == skipped
  {
  }

  lemma DecisionsMeanToo(s: Settings, f: Facts, batch: seq<Feedback>)
    requires ClassifyAll(batch, s, f).Decided?
    ensures var actions := ClassifyAll(batch, s, f).actions;
            && (Escalate !in actions <==> Settleable(s, f, batch))
            && (Fix in actions <==> SomeFixable(s, f, batch))
  {
    hide ClassifyAll, Fixable, Ignorable;
    DecisionsMean(s, f, batch);
  }

  /** Looking at the feedback has each outcome exactly in its case. */
  lemma EvaluatesExactly(s: Settings, f: Facts, trackId: Option<int>, nextId: int, track: Track,
      outcome: ReviewOutcome)
    ensures Evaluate(s, f, trackId, nextId, track).outcome == outcome <==> Evaluates(s, f, track, outcome)
  {
    hide *;
    if Forbids(s, f, track) {
      ForbiddenOutcome(s, f, trackId, nextId, track);
      ForbiddenCase(s, f, track, outcome);
    } else if AllSaid(f, TheBatch(s, f, track)) {
      DecidedOutcome(s, f, trackId, nextId, track);
      DecidedCase(s, f, track, outcome);
    } else {
      var answer := FirstSilence(f, TheBatch(s, f, track));
      SilencedOutcome(s, f, trackId, nextId, track, answer);
      SilencedCase(s, f, track, answer, outcome);
    }
  }

  lemma ForbiddenCase(s: Settings, f: Facts, track: Track, outcome: ReviewOutcome)
    requires Forbids(s, f, track)
    ensures Evaluates(s, f, track, outcome) <==> outcome == ReviewEscalated
  {
    hide Forbids, Silenced, AllSaid, Settleable, SomeFixable, MoreToDo, TheBatch, AllIgnorable;
  }

  lemma SilencedCase(s: Settings, f: Facts, track: Track, answer: ClassifierAnswer, outcome: ReviewOutcome)
    requires !Forbids(s, f, track) && Silenced(f, TheBatch(s, f, track), answer)
    ensures Evaluates(s, f, track, outcome) <==> outcome == AnswerOutcome(answer)
  {
    hide Forbids, Silenced, AllSaid, Settleable, SomeFixable, MoreToDo, TheBatch, AllIgnorable;
    var batch := TheBatch(s, f, track);
    KindsOfBatch(s, f, batch);
    OneSilence(f, batch, answer, Throws(Unavailable));
    OneSilence(f, batch, answer, Throws(Refused));
    OneSilence(f, batch, answer, FailsClosed);
  }

  lemma DecidedCase(s: Settings, f: Facts, track: Track, outcome: ReviewOutcome)
    requires !Forbids(s, f, track) && AllSaid(f, TheBatch(s, f, track))
    ensures var batch := TheBatch(s, f, track);
            Evaluates(s, f, track, outcome) <==>
              if !Settleable(s, f, batch) then outcome == ReviewEscalated
              else if !SomeFixable(s, f, batch) then
                outcome == if MoreToDo(s, f, track) then InReview else ReadyForHuman
              else if track.reviewAttempts >= s.specLimit || track.reviewAttempts >= s.configLimit then
                outcome == ReviewEscalated
              else outcome == if f.fix.FixCommitted? then FixPushed else FaultOutcome(f.fix.fault)
  {
    hide Forbids, Silenced, AllSaid, Settleable, SomeFixable, MoreToDo, TheBatch, AllIgnorable;
    KindsOfBatch(s, f, TheBatch(s, f, track));
    NoSilence(f, TheBatch(s, f, track));
  }

  lemma NoSilence(f: Facts, batch: seq<Feedback>)
    requires AllSaid(f, batch)
    ensures forall answer :: !Silenced(f, batch, answer)
  {
  }

  lemma {:induction false} FirstSilence(f: Facts, batch: seq<Feedback>) returns (answer: ClassifierAnswer)
    requires !AllSaid(f, batch)
    ensures Silenced(f, batch, answer)
    decreases |batch|
  {
    hide Silenced, AllSaid;
    NoneAsked(f, FailsClosed);
    answer := f.classifier(batch[0]);
    SilencedStep(f, batch, answer);
    if answer.Says? {
      answer := FirstSilence(f, batch[1..]);
      SilencedStep(f, batch, answer);
    }
  }

  lemma PrecheckMeans(f: Facts)
    ensures Precheck(f).None? <==> HeadsAgree(f) && f.specFault.None?
    ensures Precheck(f) == Some(Unavailable) <==> f.apiHead == "" || (HeadsAgree(f) && f.specFault == Some(Unavailable))
    ensures Precheck(f) == Some(Refused) <==>
            (f.apiHead != "" && !HeadsAgree(f)) || (HeadsAgree(f) && f.specFault == Some(Refused))
  {
  }

  lemma StickyMeans(track: Track, labels: set<StatusLabel>, f: Facts)
    ensures Sticky(track, labels, f.expectedHead).Some? <==> Settled(f, track, labels)
    ensures Settled(f, track, labels) ==>
              Sticky(track, labels, f.expectedHead).value ==
                if AgentFailed in labels then ReviewFailed
                else if AgentEscalated in labels then ReviewEscalated
                else ReadyForHuman
  {
  }

  /** What is done once the tracking comment has been read. */
  lemma TrackedOutcome(s: Settings, f: Facts, hub: Hub, trackId: Option<int>, track: Track)
    requires !Settled(f, track, hub.labels)
    ensures WithTrack(s, f, hub, trackId, track).outcome ==
              match f.terminal
              case ReviewSkipped | ReviewFailed | Ambiguous => ReviewEscalated
              case NoEvidence | InProgress => InReview
              case ReviewCompleted => Evaluate(s, f, trackId, hub.nextId, track).outcome
  {
    StickyMeans(track, hub.labels, f);
    EscalateOutcome(trackId, track, f.expectedHead);
    hide Sticky, Settled, EscalateRun, LabelEffects, Evaluate;
  }

  /** For every head, spec, check, comment, opinion and fix: which outcome a run has that is not
      answered by a settled head. */
  lemma OutcomeExactly(s: Settings, id: WorkUnitIdentity, f: Facts, hub: Hub, outcome: ReviewOutcome)
    requires Inv(s, id, hub)
    requires HeadsAgree(f) && f.specFault.None? ==> !Settled(f, CurrentTrack(hub, id), hub.labels)
    ensures Review(s, id, f, hub).outcome == outcome <==> Has(s, f, CurrentTrack(hub, id), outcome)
  {
    var track := CurrentTrack(hub, id);
    hide *;
    PrecheckMeans(f);
    RunOutcome(s, id, f, hub);
    if Precheck(f).None? {
      TrackedOutcome(s, f, hub, CurrentId(hub), track);
      EvaluatesExactly(s, f, CurrentId(hub), hub.nextId, track, outcome);
      TrackedCase(s, f, track, outcome);
    } else {
      FaultCase(s, f, track, Precheck(f).value, outcome);
    }
  }

  lemma RunOutcome(s: Settings, id: WorkUnitIdentity, f: Facts, hub: Hub)
    requires Inv(s, id, hub)
    ensures Review(s, id, f, hub).outcome ==
              if Precheck(f).Some? then FaultOutcome(Precheck(f).value)
              else WithTrack(s, f, hub, CurrentId(hub), CurrentTrack(hub, id)).outcome
  {
    LoadsCurrent(s, id, hub);
    hide Inv, LoadTrack, CurrentTrack, CurrentId, WithTrack, Precheck, LabelEffects;
  }

  lemma TrackedCase(s: Settings, f: Facts, track: Track, outcome: ReviewOutcome)
    requires HeadsAgree(f) && f.specFault.None?
    ensures Has(s, f, track, outcome) <==>
            match f.terminal
            case ReviewSkipped | ReviewFailed | Ambiguous => outcome == ReviewEscalated
            case NoEvidence | InProgress => outcome == InReview
            case ReviewCompleted => Evaluates(s, f, track, outcome)
  {
    hide Evaluates;
  }

  lemma FaultCase(s: Settings, f: Facts, track: Track, fault: Fault, outcome: ReviewOutcome)
    requires if fault == Unavailable then f.apiHead == "" || (HeadsAgree(f) && f.specFault == Some(Unavailable))
             else (f.apiHead != "" && !HeadsAgree(f)) || (HeadsAgree(f) && f.specFault == Some(Refused))
    ensures Has(s, f, track, outcome) <==> outcome == FaultOutcome(fault)
  {
    hide Evaluates;
  }

  /** A settled head gives its answer again and nothing is done: failed before escalated before
      ready when labels are stacked. */
  lemma StickyAnswers(s: Settings, id: WorkUnitIdentity, f: Facts, hub: Hub)
    requires Inv(s, id, hub)
    requires HeadsAgree(f) && f.specFault.None? && Settled(f, CurrentTrack(hub, id), hub.labels)
    ensures Review(s, id, f, hub) ==
              ReviewRun(if AgentFailed in hub.labels then ReviewFailed
                        else if AgentEscalated in hub.labels then ReviewEscalated
                        else ReadyForHuman, [])
  {
    LoadsCurrent(s, id, hub);
    PrecheckMeans(f);
    StickyMeans(CurrentTrack(hub, id), hub.labels, f);
    hide Inv, LoadTrack, CurrentTrack, CurrentId, Precheck, HeadsAgree, Settled, Sticky, Evaluate, EscalateRun,
        LabelEffects;
  }

  predicate OfUnit(track: Track, id: WorkUnitIdentity) {
    WorkUnitIdentity(track.specId, track.specPath, track.specSha256, track.baseBranch, track.targetBranch) == id
  }

  /** A tracking comment that is not ours, not readable or about another work unit. */
  predicate Foreign(s: Settings, id: WorkUnitIdentity, comment: Comment) {
    || comment.author != s.trackAuthor || Parse(comment.body).None?
    || !OfUnit(Parse(comment.body).value, id)
  }

  lemma {:induction false} ForeignRefused(s: Settings, id: WorkUnitIdentity, comments: seq<Comment>)
    ensures var r := ReadComments(comments, s.trackAuthor, id);
            && (r.Ok? ==> |r.value| == |comments|) && (r.Err? ==> r.error == Refused)
            && (r.Err? <==> exists c :: c in comments && Foreign(s, id, c))
    decreases |comments|
  {
    hide Parse;
    if comments != [] {
      ForeignRefused(s, id, comments[1..]);
      var first := ReadComment(comments[0], s.trackAuthor, id);
      assert first.Err? <==> Foreign(s, id, comments[0]);
      assert first.Err? ==> first.error == Refused;
      hide ReadComment, Foreign;
      assert forall c :: c in comments <==> c == comments[0] || c in comments[1..];
    }
  }

  /** Past the first checks, whatever the pull request holds: the run escalates without touching any
      tracking comment when there are several or one is foreign. */
  lemma BadTrackingEscalates(s: Settings, id: WorkUnitIdentity, f: Facts, hub: Hub)
    requires HeadsAgree(f) && f.specFault.None?
    requires |hub.tracks| > 1 || exists c :: c in hub.tracks && Foreign(s, id, c)
    ensures Review(s, id, f, hub) == ReviewRun(ReviewEscalated, LabelEffects(AgentEscalated))
  {
    PrecheckMeans(f);
    ForeignRefused(s, id, hub.tracks);
    hide Precheck, ReadComments, Foreign, WithTrack, LabelEffects;
  }
}
