/** What GitHub holds for a pull request under review, and the writes a review run makes
    (agent/review_loop.py, agent/labels.py). */
module ReviewHub {
  import opened Prelude
  import opened Spec
  import opened PyText
  import opened ReviewTrack

  datatype StatusLabel = AgentReview | AgentReady | AgentEscalated | AgentFailed

  /** A comment that contains the tracking marker. */
  datatype Comment = Comment(id: int, author: string, body: string)

  datatype Hub = Hub(tracks: seq<Comment>, labels: set<StatusLabel>, nextId: int, login: string, codexCalls: nat)

  /** One call to the outside: what `run_review` does, in order. */
  datatype Effect =
    | SaveTrack(id: Option<int>, body: string)   // create the tracking comment, or update it
    | AddLabel(status: StatusLabel)
    | RemoveLabel(status: StatusLabel)
    | AskClassifier(identity: string)
    | RunCodex

  function Updated(tracks: seq<Comment>, id: int, body: string): (r: seq<Comment>)
    ensures |r| == |tracks|
    ensures forall i :: 0 <= i < |tracks| ==> r[i] == if tracks[i].id == id then tracks[i].(body := body) else tracks[i]
  {
    seq(|tracks|, i requires 0 <= i < |tracks| => if tracks[i].id == id then tracks[i].(body := body) else tracks[i])
  }

  function Apply(hub: Hub, e: Effect): Hub {
    match e
    case SaveTrack(None, body) => hub.(tracks := hub.tracks + [Comment(hub.nextId, hub.login, body)],
        nextId := hub.nextId + 1)
    case SaveTrack(Some(id), body) => hub.(tracks := Updated(hub.tracks, id, body))
    case AddLabel(status) => hub.(labels := hub.labels + {status})
    case RemoveLabel(status) => hub.(labels := hub.labels - {status})
    case AskClassifier(_) => hub
    case RunCodex => hub.(codexCalls := hub.codexCalls + 1)
  }

  function ApplyAll(hub: Hub, effects: seq<Effect>): Hub
    decreases |effects|
  {
    if effects == [] then hub else ApplyAll(Apply(hub, effects[0]), effects[1..])
  }

  lemma {:induction false} ApplyConcat(hub: Hub, a: seq<Effect>, b: seq<Effect>)
    ensures ApplyAll(hub, a + b) == ApplyAll(ApplyAll(hub, a), b)
    decreases |a|
  {
    if a == [] {
      assert a + b == b;
    } else {
      assert (a + b)[1..] == a[1..] + b;
      ApplyConcat(Apply(hub, a[0]), a[1..], b);
    }
  }

  const EXCLUSIVE_LABELS := [AgentReview, AgentReady, AgentEscalated, AgentFailed]

  function Removals(status: StatusLabel, names: seq<StatusLabel>): seq<Effect> {
    if names == [] then []
    else (if names[0] != status then [RemoveLabel(names[0])] else []) + Removals(status, names[1..])
  }

  /** `apply_status_label`: add the one, then remove the others one by one. */
  function LabelEffects(status: StatusLabel): seq<Effect> {
    [AddLabel(status)] + Removals(status, EXCLUSIVE_LABELS)
  }

  lemma {:induction false} ApplyRemovals(hub: Hub, status: StatusLabel, names: seq<StatusLabel>)
    ensures ApplyAll(hub, Removals(status, names)) ==
              hub.(labels := hub.labels - (set n | n in names && n != status))
    decreases |names|
  {
    if names == [] {
    } else {
      var rest := names[1..];
      var first: seq<Effect> := if names[0] != status then [RemoveLabel(names[0])] else [];
      var hub' := if names[0] != status then hub.(labels := hub.labels - {names[0]}) else hub;
      assert first == [] || first[1..] == [];
      assert ApplyAll(hub, first) == hub';
      ApplyConcat(hub, first, Removals(status, rest));
      ApplyRemovals(hub', status, rest);
      assert forall n :: n in names <==> n == names[0] || n in rest;
    }
  }

  /** Applying a status label leaves exactly that one and changes nothing else. */
  lemma LabelIsExclusive(hub: Hub, status: StatusLabel)
    ensures ApplyAll(hub, LabelEffects(status)) == hub.(labels := {status})
  {
    var first := [AddLabel(status)];
    assert first[1..] == [];
    assert ApplyAll(hub, first) == hub.(labels := hub.labels + {status});
    ApplyConcat(hub, first, Removals(status, EXCLUSIVE_LABELS));
    ApplyRemovals(hub.(labels := hub.labels + {status}), status, EXCLUSIVE_LABELS);
    forall n: StatusLabel ensures n in EXCLUSIVE_LABELS {
      var i := match n case AgentReview => 0 case AgentReady => 1 case AgentEscalated => 2 case AgentFailed => 3;
      assert EXCLUSIVE_LABELS[i] == n;
    }
  }

  /** `current_terminal_status_label`: failed before escalated before ready when labels are stacked. */
  function TerminalLabel(labels: set<StatusLabel>): Option<StatusLabel> {
    if AgentFailed in labels then Some(AgentFailed)
    else if AgentEscalated in labels then Some(AgentEscalated)
    else if AgentReady in labels then Some(AgentReady)
    else None
  }

  /** `matches_work_unit` */
  predicate MatchesWorkUnit(track: Track, id: WorkUnitIdentity) {
    && track.specId == id.specId && track.specPath == id.specPath && track.specSha256 == id.specSha256
    && track.baseBranch == id.baseBranch && track.targetBranch == id.targetBranch
  }

  /** `empty_review_track` */
  function EmptyTrack(id: WorkUnitIdentity): Track {
    Track(id.specId, id.specPath, id.specSha256, id.baseBranch, id.targetBranch, 0, [], "")
  }

  /** The checks `load_review_track` makes on one tracking comment. */
  function ReadComment(comment: Comment, trackAuthor: string, id: WorkUnitIdentity): Result<Track, Fault> {
    var parsed := Parse(comment.body);
    if comment.author != trackAuthor || parsed.None? || !MatchesWorkUnit(parsed.value, id) then Err(Refused)
    else Ok(parsed.value)
  }

  function ReadComments(comments: seq<Comment>, trackAuthor: string, id: WorkUnitIdentity): Result<seq<(int, Track)>,
      Fault> {
    if comments == [] then Ok([])
    else
      var first :- ReadComment(comments[0], trackAuthor, id);
      var rest :- ReadComments(comments[1..], trackAuthor, id);
      Ok([(comments[0].id, first)] + rest)
  }

  /** `load_review_track` */
  function LoadTrack(hub: Hub, trackAuthor: string, id: WorkUnitIdentity): Result<(Option<int>, Track), Fault> {
    var found :- ReadComments(hub.tracks, trackAuthor, id);
    if |found| > 1 then Err(Refused)
    else if found == [] then Ok((None, EmptyTrack(id)))
    else Ok((Some(found[0].0), found[0].1))
  }

  /** `with_processed`: identities not yet listed are appended. */
  function Merged(processed: seq<string>, identities: seq<string>): seq<string>
    decreases |identities|
  {
    if identities == [] then processed
    else Merged(if identities[0] in processed then processed else processed + [identities[0]], identities[1..])
  }

  /** Identities are taken one after the other, each appended unless it is listed already. */
  lemma {:induction false} MergedExactly(processed: seq<string>, a: seq<string>, b: seq<string>, p: string)
    ensures Merged(processed, []) == processed
    ensures Merged(processed, [p]) == if p in processed then processed else processed + [p]
    ensures Merged(processed, a + b) == Merged(Merged(processed, a), b)
    decreases |a|
  {
    assert [p][1..] == [];
    if a == [] {
      assert a + b == b;
    } else {
      assert (a + b)[1..] == a[1..] + b;
      MergedExactly(if a[0] in processed then processed else processed + [a[0]], a[1..], b, p);
    }
  }

  function WithProcessed(track: Track, identities: seq<string>, increment: bool := false,
                         head: Option<string> := None): Track
  {
    track.(processed := Merged(track.processed, identities),
           reviewAttempts := if increment then track.reviewAttempts + 1 else track.reviewAttempts,
           headSha := if head.Some? then head.value else track.headSha)
  }

  /** Merging keeps the order of what was there, adds exactly the identities, and repeats none. */
  lemma {:induction false} MergedMeaning(processed: seq<string>, identities: seq<string>)
    ensures processed <= Merged(processed, identities)
    ensures forall p :: p in Merged(processed, identities) <==> p in processed || p in identities
    ensures Distinct(processed) ==> Distinct(Merged(processed, identities))
    decreases |identities|
  {
    if identities == [] {
    } else {
      var first := identities[0];
      MergedMeaning(if first in processed then processed else processed + [first], identities[1..]);
      assert forall p :: p in identities <==> p == first || p in identities[1..];
    }
  }

  /** The tracking comment and the labels as the program changes them. */
  class PullRequest {
    var tracks: seq<Comment>
    var labels: set<StatusLabel>
    var nextId: int
    const login: string
    var codexCalls: nat
    ghost var done: seq<Effect>

    function State(): Hub
      reads this
    {
      Hub(tracks, labels, nextId, login, codexCalls)
    }

    constructor (start: Hub)
      ensures State() == start && done == []
    {
      tracks, labels, nextId, login,
          codexCalls := start.tracks, start.labels, start.nextId, start.login, start.codexCalls;
      done := [];
    }

    /** `persist_review_track`: creates the comment once, and returns its id. */
    method PersistReviewTrack(id: Option<int>, track: Track) returns (saved: int)
      modifies this
      ensures State() == Apply(old(State()), SaveTrack(id, Render(track)))
      ensures saved == if id.Some? then id.value else old(nextId)
      ensures done == old(done) + [SaveTrack(id, Render(track))]
    {
      var body := RenderReviewTrack(track);
      if id.None? {
        tracks := tracks + [Comment(nextId, login, body)];
        saved := nextId;
        nextId := nextId + 1;
      } else {
        tracks := Updated(tracks, id.value, body);
        saved := id.value;
      }
      done := done + [SaveTrack(id, body)];
    }

    /** The classifier is asked about one item; nothing on GitHub changes. */
    method AskAbout(identity: string)
      modifies this
      ensures State() == Apply(old(State()), AskClassifier(identity)) && done == old(done) + [AskClassifier(identity)]
    {
      done := done + [AskClassifier(identity)];
    }

    method CallCodex()
      modifies this
      ensures State() == Apply(old(State()), RunCodex) && done == old(done) + [RunCodex]
    {
      codexCalls := codexCalls + 1;
      done := done + [RunCodex];
    }

    /** `apply_status_label` */
    method ApplyStatusLabel(status: StatusLabel)
      modifies this
      ensures State() == old(State()).(labels := {status})
      ensures State() == ApplyAll(old(State()), LabelEffects(status))
      ensures done == old(done) + LabelEffects(status)
    {
      LabelIsExclusive(State(), status);
      labels := labels + {status};
      for i := 0 to |EXCLUSIVE_LABELS|
        invariant State() == old(State()).(labels := labels)
        invariant status in labels && done == old(done)
        invariant forall j :: 0 <= j < i && EXCLUSIVE_LABELS[j] != status ==> EXCLUSIVE_LABELS[j] !in labels
      {
        var name := EXCLUSIVE_LABELS[i];
        if name != status {
          labels := labels - {name};
        }
      }
      assert EXCLUSIVE_LABELS[0] == AgentReview && EXCLUSIVE_LABELS[1] == AgentReady
          && EXCLUSIVE_LABELS[2] == AgentEscalated && EXCLUSIVE_LABELS[3] == AgentFailed;
      assert labels == {status} by {
        forall n: StatusLabel | n in labels ensures n == status {
        }
      }
      done := done + LabelEffects(status);
    }
  }

  /** `with_processed`, appending one identity at a time. */
  method MergeProcessed(processed: seq<string>, identities: seq<string>) returns (merged: seq<string>)
    ensures merged == Merged(processed, identities)
  {
    merged := processed;
    for i := 0 to |identities|
      invariant Merged(processed, identities) == Merged(merged, identities[i..])
    {
      assert identities[i..][0] == identities[i] && identities[i..][1..] == identities[i + 1..];
      if identities[i] !in merged {
        merged := merged + [identities[i]];
      }
    }
  }
}
