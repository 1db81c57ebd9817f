/** How many review runs it takes until a pull request is ready (agent/review_loop.py). */
module Convergence {
  import opened Prelude
  import opened Spec
  import opened PyText
  import opened ReviewTrack
  import opened ReviewPolicy
  import opened ReviewHub
  import opened ReviewLoop
  import opened ReviewHistory
  import opened ReadyProofs
  import Terminal

  function SortedNow(s: Settings, f: Facts, track: Track): Sorted {
    SortItems(f.items, s, f.expectedHead, track, f.paths)
  }

  function BatchNow(s: Settings, f: Facts, track: Track): seq<Feedback> {
    Batch(SortedNow(s, f, track).candidates, s.cap)
  }

  /** The track a run saves when it decides that nothing has to be done. */
  function NextTrack(s: Settings, f: Facts, track: Track): Track {
    WithProcessed(track, Handled(s, f, track))
  }

  /** Feedback that does not change between runs: distinct comments by the configured actor. */
  ghost predicate Steady(s: Settings, f: Facts) {
    && CleanFacts(f) && Precheck(f).None? && f.terminal == Terminal.ReviewCompleted
    && Strip(s.actor) != "" && (forall item :: item in f.items ==> item.author == s.actor)
    && Distinct(Identities(f.items))
  }

  /** Nothing is forbidden and everything accepted is non-actionable. */
  ghost predicate Quiet(s: Settings, f: Facts, track: Track) {
    && SortedNow(s, f, track).forbidden == []
    && forall c :: c in SortedNow(s, f, track).candidates ==>
         f.classifier(c).Says? && f.classifier(c).opinion.classification == NonActionable
  }

  lemma SameIdentity(items: seq<Feedback>, a: Feedback, b: Feedback)
    requires Distinct(Identities(items)) && a in items && b in items && a.identity == b.identity
    ensures a == b
  {
    var i :| 0 <= i < |items| && items[i] == a;
    var j :| 0 <= j < |items| && items[j] == b;
    assert Identities(items)[i] == Identities(items)[j];
  }

  lemma {:induction false} CandidatesDistinct(items: seq<Feedback>, s: Settings, head: string, track: Track,
      paths: Paths)
    requires Distinct(Identities(items))
    ensures Distinct(SortItems(items, s, head, track, paths).candidates)
    decreases |items|
  {
    if items != [] {
      var init, last := items[..|items| - 1], items[|items| - 1];
      assert Identities(items) == Identities(init) + [last.identity];
      CandidatesDistinct(init, s, head, track, paths);
      SortedExactly(init, s, head, track, paths);
      hide Prefilter;
      forall i | 0 <= i < |init| ensures init[i] != last {
        assert Identities(items)[i] == init[i].identity && Identities(items)[|init|] == last.identity;
      }
      assert last !in SortItems(init, s, head, track, paths).candidates;
    }
  }

  /** Filtering more items only extends the candidates. */
  lemma {:induction false} CandidatesGrow(items: seq<Feedback>, n: nat, s: Settings, head: string, track: Track,
      paths: Paths)
    requires n <= |items|
    ensures SortItems(items[..n], s, head, track, paths).candidates <= SortItems(items, s, head, track,
        paths).candidates
    decreases |items|
  {
    if n == |items| {
      assert items[..n] == items;
    } else {
      var init := items[..|items| - 1];
      assert init[..n] == items[..n];
      CandidatesGrow(init, n, s, head, track, paths);
      hide Prefilter;
    }
  }

  /** An accepted item left out of the batch is not listed as handled. */
  lemma LeftOut(s: Settings, f: Facts, track: Track, c: Feedback)
    requires Distinct(Identities(f.items)) && c in SortedNow(s, f, track).candidates && c !in BatchNow(s, f, track)
    ensures c.identity !in Handled(s, f, track)
  {
    SortedExactly(f.items, s, f.expectedHead, track, f.paths);
    hide SortItems, ReasonOf;
    var sorted, batch := SortedNow(s, f, track), BatchNow(s, f, track);
    if c.identity in sorted.skipped {
      var item :| item in f.items && item.identity == c.identity &&
          PassedOver(ReasonOf(item, s, f.expectedHead, track, f.paths));
      SameIdentity(f.items, item, c);
    }
    if c.identity in Identities(batch) {
      var i :| 0 <= i < |batch| && batch[i].identity == c.identity;
      assert batch[i] in sorted.candidates;
      SameIdentity(f.items, batch[i], c);
    }
  }

  /** A run handles exactly the items it passes over and those in its batch. */
  lemma HandledExactly(s: Settings, f: Facts, track: Track, item: Feedback)
    requires Distinct(Identities(f.items)) && SortedNow(s, f, track).forbidden == [] && item in f.items
    requires item.identity !in track.processed
    ensures var before := ReasonOf(item, s, f.expectedHead, track, f.paths);
            item.identity in Handled(s, f, track) <==>
                PassedOver(before) || (before == Accepted && item in BatchNow(s, f, track))
  {
    SortedExactly(f.items, s, f.expectedHead, track, f.paths);
    hide SortItems, ReasonOf, Batch;
    var sorted, batch := SortedNow(s, f, track), BatchNow(s, f, track);
    if item in batch {
      var i :| 0 <= i < |batch| && batch[i] == item;
      assert Identities(batch)[i] == item.identity;
      BatchTaken(s, f, track, item);
    } else if item in sorted.candidates {
      LeftOut(s, f, track, item);
    } else if item.identity in Handled(s, f, track) {
      HandledItem(s, f, track, item);
    }
  }

  lemma BatchTaken(s: Settings, f: Facts, track: Track, item: Feedback)
    requires item in BatchNow(s, f, track)
    ensures item in SortedNow(s, f, track).candidates
  {
    hide SortItems;
  }

  lemma HandledItem(s: Settings, f: Facts, track: Track, item: Feedback)
    requires Distinct(Identities(f.items)) && item in f.items
    requires item !in SortedNow(s, f, track).candidates && item.identity in Handled(s, f, track)
    ensures PassedOver(ReasonOf(item, s, f.expectedHead, track, f.paths))
  {
    SortedExactly(f.items, s, f.expectedHead, track, f.paths);
    hide SortItems, ReasonOf, Batch;
    var sorted, batch := SortedNow(s, f, track), BatchNow(s, f, track);
    if item.identity in sorted.skipped {
      var other :| other in f.items && other.identity == item.identity &&
          PassedOver(ReasonOf(other, s, f.expectedHead, track, f.paths));
      SameIdentity(f.items, other, item);
    } else {
      var i :| 0 <= i < |batch| && batch[i].identity == item.identity;
      BatchTaken(s, f, track, batch[i]);
      SameIdentity(f.items, batch[i], item);
    }
  }

  /** What the next run makes of an item: everything handled is now processed, the rest is as it was. */
  lemma NextReason(s: Settings, f: Facts, track: Track, item: Feedback)
    requires Distinct(Identities(f.items)) && SortedNow(s, f, track).forbidden == [] && item in f.items
    ensures var before := ReasonOf(item, s, f.expectedHead, track, f.paths);
            ReasonOf(item, s, f.expectedHead, NextTrack(s, f, track), f.paths) ==
              if PassedOver(before) || (before == Accepted && item in BatchNow(s, f, track)) then Processed else before
  {
    MergedMeaning(track.processed, Handled(s, f, track));
    if item.identity !in track.processed {
      HandledExactly(s, f, track, item);
    }
    hide BatchNow, Handled, Merged, AppliesToHead;
  }

  lemma NoForbidden(s: Settings, f: Facts, track: Track, item: Feedback)
    requires SortedNow(s, f, track).forbidden == [] && item in f.items
    ensures ReasonOf(item, s, f.expectedHead, track, f.paths) != ForbiddenPath
  {
    SortedExactly(f.items, s, f.expectedHead, track, f.paths);
    hide SortItems, ReasonOf;
    assert item.identity !in SortedNow(s, f, track).forbidden;
  }

  function Drop<T>(items: seq<T>, n: nat): seq<T> {
    if n <= |items| then items[n..] else []
  }

  /** The next run has exactly the batch less to decide on. */
  lemma {:induction false} Residue(s: Settings, f: Facts, track: Track, n: nat)
    requires Distinct(Identities(f.items)) && SortedNow(s, f, track).forbidden == [] && n <= |f.items|
    ensures var now := SortItems(f.items[..n], s, f.expectedHead, track, f.paths);
            var next := SortItems(f.items[..n], s, f.expectedHead, NextTrack(s, f, track), f.paths);
            && next.forbidden == [] && next.candidates == Drop(now.candidates, |BatchNow(s, f, track)|)
    decreases n
  {
    if n > 0 {
      var item := f.items[n - 1];
      assert f.items[..n][..n - 1] == f.items[..n - 1];
      Residue(s, f, track, n - 1);
      NextReason(s, f, track, item);
      var now := SortItems(f.items[..n - 1], s, f.expectedHead, track, f.paths).candidates;
      if ReasonOf(item, s, f.expectedHead, track, f.paths) == Accepted {
        InBatchByPlace(s, f, track, n);
      }
      NoForbidden(s, f, track, item);
      hide Prefilter, Batch, WithProcessed, Handled;
    }
  }

  /** Whether an accepted item is in the batch depends on how many were accepted before it. */
  lemma InBatchByPlace(s: Settings, f: Facts, track: Track, n: nat)
    requires Distinct(Identities(f.items)) && 0 < n <= |f.items|
    requires ReasonOf(f.items[n - 1], s, f.expectedHead, track, f.paths) == Accepted
    ensures var now := SortItems(f.items[..n - 1], s, f.expectedHead, track, f.paths).candidates;
            f.items[n - 1] in BatchNow(s, f, track) <==> |now| < |BatchNow(s, f, track)|
  {
    var now := SortItems(f.items[..n - 1], s, f.expectedHead, track, f.paths).candidates;
    var all := SortedNow(s, f, track).candidates;
    assert f.items[..n][..n - 1] == f.items[..n - 1];
    assert SortItems(f.items[..n], s, f.expectedHead, track, f.paths).candidates == now + [f.items[n - 1]];
    CandidatesGrow(f.items, n, s, f.expectedHead, track, f.paths);
    CandidatesDistinct(f.items, s, f.expectedHead, track, f.paths);
    hide SortItems, ReasonOf;
    var batch := BatchNow(s, f, track);
    assert all[|now|] == f.items[n - 1];
    assert batch == all[..|batch|];
    if f.items[n - 1] in batch {
      var i :| 0 <= i < |batch| && batch[i] == f.items[n - 1];
      assert all[i] == all[|now|];
    }
  }

  lemma {:induction false} QuietClassify(batch: seq<Feedback>, s: Settings, f: Facts)
    requires forall c :: c in batch ==> f.classifier(c).Says? && f.classifier(c).opinion.classification == NonActionable
    ensures ClassifyAll(batch, s, f).Decided? && forall a :: a in ClassifyAll(batch, s, f).actions ==> a == Ignore
    decreases |batch|
  {
    if batch != [] {
      assert batch[0] in batch && forall c :: c in batch[1..] ==> c in batch;
      QuietClassify(batch[1..], s, f);
    }
  }

  /** What follows once the handled identities are saved. */
  function Rest(s: Settings, f: Facts, trackId: Option<int>, track: Track): ReviewRun {
    if BatchNow(s, f, track) != [] &&
        |BatchNow(s, f, track)| < |SortedNow(s, f, track).candidates| then ReviewRun(InReview, [])
    else Converge(trackId, NextTrack(s, f, track), f.items, f.expectedHead)
  }

  lemma QuietRun(s: Settings, f: Facts, trackId: Option<int>, nextId: int, track: Track)
    requires Quiet(s, f, track)
    ensures Evaluate(s, f, trackId, nextId, track) ==
              After(Asks(BatchNow(s, f, track)),
                    After([SaveTrack(trackId, Render(NextTrack(s, f, track)))],
                        Rest(s, f, SavedId(trackId, nextId), track)))
  {
    var sorted, batch := SortedNow(s, f, track), BatchNow(s, f, track);
    QuietClassify(batch, s, f);
    hide SortItems, Converge, WithProcessed, Render, ClassifyAll, EscalateRun, ControlPlaneFailure, Repair;
    if batch == [] {
      assert sorted.skipped + Identities(batch) == sorted.skipped;
      assert Asks(batch) == [];
    }
  }

  /** Unless the batch takes every candidate, the run leaves the pull request in review. */
  lemma MoreRemain(s: Settings, f: Facts, trackId: Option<int>, track: Track)
    requires Steady(s, f) && Quiet(s, f, track) && |BatchNow(s, f, track)| < |SortedNow(s, f, track).candidates|
    ensures Rest(s, f, trackId, track) == ReviewRun(InReview, [])
  {
    if BatchNow(s, f, track) == [] {
      var c := SortedNow(s, f, track).candidates[0];
      SortedExactly(f.items, s, f.expectedHead, track, f.paths);
      NextReason(s, f, track, c);
      StillWaits(s, f, trackId, track, c);
    }
  }

  lemma StillWaits(s: Settings, f: Facts, trackId: Option<int>, track: Track, c: Feedback)
    requires c in f.items && ReasonOf(c, s, f.expectedHead, NextTrack(s, f, track), f.paths) == Accepted
    ensures Converge(trackId, NextTrack(s, f, track), f.items, f.expectedHead) == ReviewRun(InReview, [])
  {
    hide WithProcessed, Render, LabelEffects, AppliesToHead, Handled;
  }

  /** When it does, every comment on the head is processed and the pull request is ready. */
  lemma NothingRemains(s: Settings, f: Facts, trackId: Option<int>, track: Track)
    requires Steady(s, f) && Quiet(s, f, track) && |BatchNow(s, f, track)| == |SortedNow(s, f, track).candidates|
    ensures Rest(s, f, trackId, track).outcome == ReadyForHuman
  {
    var next := NextTrack(s, f, track);
    assert BatchNow(s, f, track) == SortedNow(s, f, track).candidates;
    forall item | item in f.items &&
        AppliesToHead(item, f.expectedHead, next.headSha) ensures item.identity in next.processed {
      SortedExactly(f.items, s, f.expectedHead, track, f.paths);
      NoForbidden(s, f, track, item);
      NextReason(s, f, track, item);
      hide SortItems, Batch, Handled, AppliesToHead, Merged;
    }
    hide SortItems, Batch, WithProcessed, Render, LabelEffects, AppliesToHead;
  }

  /** A pull request whose next run evaluates quiet feedback. */
  ghost predicate Reviewable(s: Settings, id: WorkUnitIdentity, f: Facts, hub: Hub) {
    && Inv(s, id, hub) && Steady(s, f) && Quiet(s, f, CurrentTrack(hub, id))
    && Sticky(CurrentTrack(hub, id), hub.labels, f.expectedHead).None?
  }

  /** The candidates the next run finds. */
  function Pending(s: Settings, id: WorkUnitIdentity, f: Facts, hub: Hub): seq<Feedback> {
    SortedNow(s, f, CurrentTrack(hub, id)).candidates
  }

  lemma RunEvaluates(s: Settings, id: WorkUnitIdentity, f: Facts, hub: Hub)
    requires Reviewable(s, id, f, hub)
    ensures Review(s, id, f, hub) ==
              After(LabelEffects(AgentReview), Evaluate(s, f, CurrentId(hub), hub.nextId, CurrentTrack(hub, id)))
  {
    LoadsCurrent(s, id, hub);
    hide Inv, Quiet, LoadTrack, CurrentTrack, CurrentId, Evaluate, LabelEffects, Sticky;
  }

  /** Saving the handled identities. */
  lemma SaveNext(s: Settings, id: WorkUnitIdentity, f: Facts, hub: Hub)
    requires Inv(s, id, hub) && CleanFacts(f)
    ensures var next := NextTrack(s, f, CurrentTrack(hub, id));
            var after := Apply(hub, SaveTrack(CurrentId(hub), Render(next)));
            && Inv(s, id, after) && CurrentTrack(after, id) == next && after.labels == hub.labels
            && ApplyAll(hub, [SaveTrack(CurrentId(hub), Render(next))]) == after && ApplyAll(after, []) == after
  {
    var track := CurrentTrack(hub, id);
    GoodNow(s, id, hub);
    HandledClean(s, f, track);
    MergedIsGood(s, id, track, Handled(s, f, track), false, None);
    hide Inv, CurrentTrack, GoodTrack, Continues, Parse, Render, Handled, WithProcessed;
    SaveAllowed(s, id, hub, NextTrack(s, f, track));
  }

  lemma StillQuiet(s: Settings, id: WorkUnitIdentity, f: Facts, track: Track, after: Hub)
    requires Steady(s, f) && Quiet(s, f, track) && Inv(s, id, after) && after.labels == {AgentReview}
    requires CurrentTrack(after, id) == NextTrack(s, f, track)
    ensures Reviewable(s, id, f, after)
    ensures Pending(s, id, f, after) == Drop(SortedNow(s, f, track).candidates, |BatchNow(s, f, track)|)
  {
    QuietNext(s, f, track);
    InReviewIsNotSticky(CurrentTrack(after, id), f.expectedHead);
    hide Inv, SortedNow, CurrentTrack, BatchNow, NextTrack, Steady, Quiet, Sticky, Drop;
  }

  lemma InReviewIsNotSticky(track: Track, head: string)
    ensures Sticky(track, {AgentReview}, head).None?
  {
  }

  lemma QuietNext(s: Settings, f: Facts, track: Track)
    requires Steady(s, f) && Quiet(s, f, track)
    ensures Quiet(s, f, NextTrack(s, f, track))
    ensures SortedNow(s, f, NextTrack(s, f, track)).candidates ==
        Drop(SortedNow(s, f, track).candidates, |BatchNow(s, f, track)|)
  {
    NextSorted(s, f, track);
    hide SortedNow, BatchNow, NextTrack, Steady;
    forall c | c in SortedNow(s, f, NextTrack(s, f, track)).candidates ensures c in SortedNow(s, f, track).candidates {
    }
  }

  lemma NextSorted(s: Settings, f: Facts, track: Track)
    requires Distinct(Identities(f.items)) && SortedNow(s, f, track).forbidden == []
    ensures SortedNow(s, f, NextTrack(s, f, track)).forbidden == []
    ensures SortedNow(s, f, NextTrack(s, f, track)).candidates ==
        Drop(SortedNow(s, f, track).candidates, |BatchNow(s, f, track)|)
  {
    hide SortItems, NextTrack, BatchNow;
    assert f.items[..|f.items|] == f.items;
    Residue(s, f, track, |f.items|);
  }

  /** A pull request that no run has seen yet is reviewable as soon as its feedback is quiet. */
  lemma FreshReviewable(s: Settings, id: WorkUnitIdentity, f: Facts, hub: Hub)
    requires CleanIdentity(id) && hub.login == s.trackAuthor && hub.tracks == [] && hub.codexCalls == 0
    requires Steady(s, f) && Quiet(s, f, EmptyTrack(id))
    ensures Reviewable(s, id, f, hub)
  {
    FreshPullRequest(s, id, hub);
    hide Inv, Quiet, CurrentTrack, CleanFacts, CleanIdentity;
  }

  /** A run with candidates left over keeps the pull request in review and takes the batch away. */
  lemma StepMore(s: Settings, id: WorkUnitIdentity, f: Facts, hub: Hub)
    requires Reviewable(s, id, f, hub)
    requires |BatchNow(s, f, CurrentTrack(hub, id))| < |Pending(s, id, f, hub)|
    ensures var run := Review(s, id, f, hub);
            var after := ApplyAll(hub, run.effects);
            && run.outcome == InReview && Reviewable(s, id, f, after)
            && Pending(s, id, f, after) == Drop(Pending(s, id, f, hub), |BatchNow(s, f, CurrentTrack(hub, id))|)
  {
    var track := CurrentTrack(hub, id);
    var e := SaveTrack(CurrentId(hub), Render(NextTrack(s, f, track)));
    var labelled := hub.(labels := {AgentReview});
    assert CleanFacts(f);
    LabelIsExclusive(hub, AgentReview);
    LabelsDoNotMatter(s, id, hub, {AgentReview});
    hide SortItems, Inv, Batch, CurrentTrack, CurrentId, CleanFacts, Precheck, Review, Evaluate, Apply, ApplyAll,
        LabelEffects, Render, WithProcessed, Asks, Sticky;
    RunEvaluates(s, id, f, hub);
    QuietRun(s, f, CurrentId(hub), hub.nextId, track);
    MoreRemain(s, f, SavedId(CurrentId(hub), hub.nextId), track);
    hide *;
    SaveNext(s, id, f, labelled);
    AskedFirst(s, id, labelled, BatchNow(s, f, track));
    ApplyConcat(hub, LabelEffects(AgentReview), Evaluate(s, f, CurrentId(hub), hub.nextId, track).effects);
    AfterTwice(labelled, Asks(BatchNow(s, f, track)), [e], ReviewRun(InReview, []));
    StillQuiet(s, id, f, track, Apply(labelled, e));
  }

  /** A run whose batch takes every candidate ends ready. */
  lemma StepLast(s: Settings, id: WorkUnitIdentity, f: Facts, hub: Hub)
    requires Reviewable(s, id, f, hub)
    requires |BatchNow(s, f, CurrentTrack(hub, id))| == |Pending(s, id, f, hub)|
    ensures Review(s, id, f, hub).outcome == ReadyForHuman
  {
    var track := CurrentTrack(hub, id);
    RunEvaluates(s, id, f, hub);
    hide Inv, SortItems, Batch, CurrentTrack, CurrentId, Review, Evaluate, LabelEffects, Sticky, Rest, Precheck,
        CleanFacts;
    QuietRun(s, f, CurrentId(hub), hub.nextId, track);
    NothingRemains(s, f, SavedId(CurrentId(hub), hub.nextId), track);
  }

  /** The outcomes of `n` runs in a row. */
  function Outcomes(s: Settings, id: WorkUnitIdentity, f: Facts, hub: Hub, n: nat): seq<ReviewOutcome>
    decreases n
  {
    if n == 0 then []
    else
      var run := Review(s, id, f, hub);
      [run.outcome] + Outcomes(s, id, f, ApplyAll(hub, run.effects), n - 1)
  }

  function Repeated(outcome: ReviewOutcome, n: nat): (r: seq<ReviewOutcome>)
    ensures |r| == n && forall i :: 0 <= i < n ==> r[i] == outcome
  {
    seq(n, _ => outcome)
  }

  /** How many runs `pending` candidates take: one, or with a cap of at least one the rounded-up
      quotient. */
  function RunsNeeded(pending: nat, cap: Option<int>): nat
    requires cap != Some(0)
  {
    if cap.None? || cap.value < 0 || pending <= cap.value then 1 else (pending + cap.value - 1) / cap.value
  }

  lemma {:induction false} OneMoreTime(a: nat, b: nat, k: nat)
    ensures a < b ==> a * k + k <= b * k
    decreases b
  {
    if a < b {
      assert b * k == (b - 1) * k + k;
      OneMoreTime(a, b - 1, k);
    }
  }

  lemma QuotientIs(x: nat, k: nat, q: nat, r: nat)
    requires x == q * k + r && r < k
    ensures x / k == q
  {
    var q', r' := x / k, x % k;
    assert x == q' * k + r' && r' < k;
    OneMoreTime(q, q', k);
    OneMoreTime(q', q, k);
  }

  lemma OneBatchLess(pending: nat, k: nat)
    requires 0 < k < pending
    ensures RunsNeeded(pending, Some(k)) == 1 + RunsNeeded(pending - k, Some(k))
  {
    var q, r := (pending - 1) / k, (pending - 1) % k;
    assert pending - 1 == q * k + r;
    assert pending + k - 1 == (q + 1) * k + r;
    QuotientIs(pending + k - 1, k, q + 1, r);
    if pending - k <= k {
      QuotientIs(pending - 1, k, 1, pending - 1 - k);
    }
  }

  lemma BatchSize(s: Settings, f: Facts, track: Track)
    ensures var n := |SortedNow(s, f, track).candidates|;
            |BatchNow(s, f, track)| == if s.cap.Some? && 0 <= s.cap.value < n then s.cap.value else n
  {
    hide SortItems;
  }

  /** With fixed feedback of which nothing is forbidden and every candidate is non-actionable, exactly
      max(1, ceil(N / cap)) runs are needed: all but the last stay in review, the last is ready. */
  lemma {:induction false} ConvergesInBatches(s: Settings, id: WorkUnitIdentity, f: Facts, hub: Hub)
    requires Reviewable(s, id, f, hub) && s.cap != Some(0)
    ensures var runs := RunsNeeded(|Pending(s, id, f, hub)|, s.cap);
            runs >= 1 && Outcomes(s, id, f, hub, runs) == Repeated(InReview, runs - 1) + [ReadyForHuman]
    decreases |Pending(s, id, f, hub)|
  {
    BatchSize(s, f, CurrentTrack(hub, id));
    hide SortItems, Review, ApplyAll, CurrentTrack, Reviewable;
    var n := |Pending(s, id, f, hub)|;
    if |BatchNow(s, f, CurrentTrack(hub, id))| == n {
      StepLast(s, id, f, hub);
      assert RunsNeeded(n, s.cap) == 1;
      assert Outcomes(s, id, f, hub, 1) == [ReadyForHuman];
    } else {
      StepMore(s, id, f, hub);
      OneBatchLess(n, s.cap.value);
      ConvergesInBatches(s, id, f, ApplyAll(hub, Review(s, id, f, hub).effects));
    }
  }

  /** With a cap of zero and one candidate, review never ends. */
  lemma {:induction false} ZeroCapNeverConverges(s: Settings, id: WorkUnitIdentity, f: Facts, hub: Hub, n: nat)
    requires Reviewable(s, id, f, hub) && s.cap == Some(0) && Pending(s, id, f, hub) != []
    ensures Outcomes(s, id, f, hub, n) == Repeated(InReview, n)
    decreases n
  {
    BatchSize(s, f, CurrentTrack(hub, id));
    hide SortItems, Review, ApplyAll, CurrentTrack, Reviewable;
    if n > 0 {
      StepMore(s, id, f, hub);
      ZeroCapNeverConverges(s, id, f, ApplyAll(hub, Review(s, id, f, hub).effects), n - 1);
    }
  }

  /** Quiet feedback converges exactly when the cap is not zero or nothing is pending. */
  lemma ConvergesExactly(s: Settings, id: WorkUnitIdentity, f: Facts, hub: Hub)
    requires Reviewable(s, id, f, hub)
    ensures (exists n: nat :: ReadyForHuman in Outcomes(s, id, f, hub, n)) <==>
            (s.cap != Some(0) || Pending(s, id, f, hub) == [])
  {
    BatchSize(s, f, CurrentTrack(hub, id));
    hide SortItems, Review, ApplyAll, CurrentTrack, Reviewable;
    if s.cap != Some(0) {
      ConvergesInBatches(s, id, f, hub);
      var runs := RunsNeeded(|Pending(s, id, f, hub)|, s.cap);
      assert Outcomes(s, id, f, hub, runs)[runs - 1] == ReadyForHuman;
    } else if Pending(s, id, f, hub) == [] {
      StepLast(s, id, f, hub);
      assert Outcomes(s, id, f, hub, 1)[0] == ReadyForHuman;
    } else {
      forall n: nat ensures ReadyForHuman !in Outcomes(s, id, f, hub, n) {
        ZeroCapNeverConverges(s, id, f, hub, n);
      }
    }
  }
}
