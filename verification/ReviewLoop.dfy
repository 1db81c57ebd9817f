/** One call of `run_review` (agent/review_loop.py) as a function of what it observes: its outcome
    and, in order, everything it asks or writes. */
module ReviewLoop {
  import opened Prelude
  import opened Spec
  import opened PyText
  import opened ReviewTrack
  import opened ReviewPolicy
  import opened ReviewHub
  import Terminal

  datatype Settings = Settings(
    trackAuthor: string,
    actor: string,
    cap: Option<int>,          // max_comments_per_run
    threshold: real,
    autoRepair: bool,
    specLimit: nat,            // review_attempt_limit of the spec
    configLimit: nat)          // and of the configuration

  datatype ClassifierAnswer = Says(opinion: Opinion) | FailsClosed | Throws(fault: Fault)

  /** `_apply_review_fix`: pushed, or raised before or after Codex was called. */
  datatype FixAnswer = FixCommitted | FixRaises(codexCalled: bool, fault: Fault)

  /** What one call observes. */
  datatype Facts = Facts(
    workspaceHead: string,
    apiHead: string,
    expectedHead: string,
    specFault: Option<Fault>,             // loading the spec at the marker's path raised
    terminal: Terminal.Kind,
    items: seq<Feedback>,                 // collected: by the configured actor, sorted by identity
    classifier: Feedback -> ClassifierAnswer,
    paths: Paths,
    fix: FixAnswer)

  datatype ReviewOutcome = InReview | FixPushed | ReadyForHuman | ReviewEscalated | ReviewFailed

  datatype ReviewRun = ReviewRun(outcome: ReviewOutcome, effects: seq<Effect>)

  /** `review_attempt_limit` */
  function AttemptLimit(s: Settings): nat {
    if s.specLimit <= s.configLimit then s.specLimit else s.configLimit
  }

  /** `_control_plane_failure`: what is done about an exception. */
  function ControlPlaneFailure(fault: Fault): ReviewRun {
    if fault == Unavailable then ReviewRun(ReviewFailed, LabelEffects(AgentFailed))
    else ReviewRun(ReviewEscalated, LabelEffects(AgentEscalated))
  }

  function After(before: seq<Effect>, run: ReviewRun): ReviewRun {
    run.(effects := before + run.effects)
  }

  /** `is_escalating` */
  predicate Escalating(kind: Terminal.Kind) {
    kind in {Terminal.ReviewSkipped, Terminal.ReviewFailed, Terminal.Ambiguous}
  }

  /** `_sticky_terminal_result` */
  function Sticky(track: Track, labels: set<StatusLabel>, head: string): Option<ReviewOutcome> {
    if track.headSha != head then None
    else match TerminalLabel(labels)
      case Some(AgentFailed) => Some(ReviewFailed)
      case Some(AgentEscalated) => Some(ReviewEscalated)
      case Some(AgentReady) => Some(ReadyForHuman)
      case _ => None
  }

  /** `_escalate`: bind the track to the head, then label. */
  function EscalateRun(id: Option<int>, track: Track, head: string): ReviewRun {
    ReviewRun(ReviewEscalated,
              [SaveTrack(id, Render(WithProcessed(track, [], false, Some(head))))] + LabelEffects(AgentEscalated))
  }

  /** `_convergence_result` with a completed terminal. */
  function Converge(id: Option<int>, track: Track, items: seq<Feedback>, head: string): ReviewRun {
    if exists item :: item in items && AppliesToHead(item, head, track.headSha) &&
        item.identity !in track.processed then
      ReviewRun(InReview, [])
    else
      ReviewRun(ReadyForHuman,
                [SaveTrack(id, Render(WithProcessed(track, [], false, Some(head))))] + LabelEffects(AgentReady))
  }

  /** The lists that the filtering loop fills. */
  datatype Sorted = Sorted(skipped: seq<string>, forbidden: seq<string>, candidates: seq<Feedback>)

  function SortOne(acc: Sorted, item: Feedback, reason: Reason): Sorted {
    match reason
    case OtherActor | Processed => acc
    case OutdatedHead | MissingPath => acc.(skipped := acc.skipped + [item.identity])
    case ForbiddenPath => acc.(forbidden := acc.forbidden + [item.identity])
    case Accepted => acc.(candidates := acc.candidates + [item])
  }

  function SortItems(items: seq<Feedback>, s: Settings, head: string, track: Track, paths: Paths): Sorted {
    if items == [] then Sorted([], [], [])
    else
      var init, last := items[..|items| - 1], items[|items| - 1];
      SortOne(SortItems(init, s, head, track, paths), last,
              Prefilter(last, s.actor, head, track.processed, track.headSha, paths))
  }

  /** The first candidates up to the cap, all of them when none is set. */
  function Batch(candidates: seq<Feedback>, cap: Option<int>): seq<Feedback> {
    if cap.Some? && 0 <= cap.value < |candidates| then candidates[..cap.value] else candidates
  }

  /** The classifying loop: decisions for the whole batch, or the answer at which it stopped. */
  datatype Classified = Decided(actions: seq<PolicyAction>) | Stopped(at: nat, answer: ClassifierAnswer)

  function ClassifyAll(batch: seq<Feedback>, s: Settings, f: Facts): (r: Classified)
    ensures r.Decided? ==> |r.actions| == |batch|
    ensures r.Decided? ==> forall i :: 0 <= i < |batch| ==>
              f.classifier(batch[i]).Says? &&
                  r.actions[i] == Decide(f.classifier(batch[i]).opinion, s.threshold, s.autoRepair, f.paths)
    ensures r.Stopped? ==> r.at < |batch| && r.answer == f.classifier(batch[r.at]) && !r.answer.Says?
  {
    if batch == [] then Decided([])
    else
      var answer := f.classifier(batch[0]);
      if !answer.Says? then Stopped(0, answer)
      else match ClassifyAll(batch[1..], s, f)
        case Stopped(at, a) => Stopped(at + 1, a)
        case Decided(actions) => Decided([Decide(answer.opinion, s.threshold, s.autoRepair, f.paths)] + actions)
  }

  function Identities(items: seq<Feedback>): (r: seq<string>)
    ensures |r| == |items| && forall i :: 0 <= i < |items| ==> r[i] == items[i].identity
  {
    seq(|items|, i requires 0 <= i < |items| => items[i].identity)
  }

  function Asks(items: seq<Feedback>): (r: seq<Effect>)
    ensures |r| == |items| && forall i :: 0 <= i < |items| ==> r[i] == AskClassifier(items[i].identity)
  {
    seq(|items|, i requires 0 <= i < |items| => AskClassifier(items[i].identity))
  }

  /** After saving with `id`, the comment's id is known. */
  function SavedId(id: Option<int>, nextId: int): Option<int> {
    if id.None? then Some(nextId) else id
  }

  /** The repair of accepted feedback: the attempt is recorded before Codex is called. */
  function Repair(id: Option<int>, updated: Track, f: Facts): ReviewRun {
    var saved := [SaveTrack(id, Render(updated))];
    match f.fix
    case FixCommitted => ReviewRun(FixPushed, saved + [RunCodex] + LabelEffects(AgentReview))
    case FixRaises(codexCalled, fault) =>
      After(saved + (if codexCalled then [RunCodex] else []), ControlPlaneFailure(fault))
  }

  /** What follows once every item of the batch has been decided on. */
  function Act(s: Settings, f: Facts, id: Option<int>, nextId: int, track: Track, sorted: Sorted, batch: seq<Feedback>,
               actions: seq<PolicyAction>): ReviewRun
  {
    var identities := sorted.skipped + Identities(batch);
    var updated := WithProcessed(track, identities);
    if Escalate in actions then EscalateRun(id, updated, f.expectedHead)
    else if Fix !in actions then
      After([SaveTrack(id, Render(updated))],
            if |batch| < |sorted.candidates| then ReviewRun(InReview, [])
            else Converge(SavedId(id, nextId), updated, f.items, f.expectedHead))
    else if track.reviewAttempts >= AttemptLimit(s) then EscalateRun(id, updated, f.expectedHead)
    else Repair(id, WithProcessed(track, identities, true, Some(f.expectedHead)), f)
  }

  /** Feedback is evaluated: the terminal is completed. */
  function Evaluate(s: Settings, f: Facts, id: Option<int>, nextId: int, track: Track): ReviewRun {
    var sorted := SortItems(f.items, s, f.expectedHead, track, f.paths);
    if sorted.forbidden != [] then
      EscalateRun(id, WithProcessed(track, sorted.skipped + sorted.forbidden), f.expectedHead)
    else
      var batch := Batch(sorted.candidates, s.cap);
      if batch == [] then
        var updated := WithProcessed(track, sorted.skipped);
        After([SaveTrack(id, Render(updated))], Converge(SavedId(id, nextId), updated, f.items, f.expectedHead))
      else match ClassifyAll(batch, s, f)
        case Stopped(at, answer) =>
          After(Asks(batch[..at + 1]),
                if answer.Throws? then ControlPlaneFailure(answer.fault)
                else EscalateRun(id, WithProcessed(track, sorted.skipped + [batch[at].identity]), f.expectedHead))
        case Decided(actions) =>
          After(Asks(batch), Act(s, f, id, nextId, track, sorted, batch, actions))
  }

  /** Everything after the tracking comment has been read. */
  function WithTrack(s: Settings, f: Facts, hub: Hub, id: Option<int>, track: Track): ReviewRun {
    var sticky := Sticky(track, hub.labels, f.expectedHead);
    if sticky.Some? then ReviewRun(sticky.value, [])
    else if Escalating(f.terminal) then EscalateRun(id, track, f.expectedHead)
    else if f.terminal != Terminal.ReviewCompleted then ReviewRun(InReview, LabelEffects(AgentReview))
    else After(LabelEffects(AgentReview), Evaluate(s, f, id, hub.nextId, track))
  }

  /** The checks before the tracking comment is read. */
  function Precheck(f: Facts): Option<Fault> {
    if f.apiHead == "" then Some(Unavailable)
    else if f.apiHead != f.expectedHead || f.workspaceHead != f.expectedHead then Some(Refused)
    else f.specFault
  }

  /** `run_review` */
  function Review(s: Settings, id: WorkUnitIdentity, f: Facts, hub: Hub): ReviewRun {
    if Precheck(f).Some? then ControlPlaneFailure(Precheck(f).value)
    else match LoadTrack(hub, s.trackAuthor, id)
      case Err(fault) => ControlPlaneFailure(fault)
      case Ok((trackId, track)) => WithTrack(s, f, hub, trackId, track)
  }
}
