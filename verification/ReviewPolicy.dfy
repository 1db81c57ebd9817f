/** Filtering and deciding on review feedback (agent/review_filter.py, agent/review_policy.py). */
module ReviewPolicy {
  import opened Prelude
  import opened PyText

  /** A collected comment; `path` and `commitSha` are "" where GitHub gives none. */
  datatype Feedback = Feedback(identity: string, author: string, path: string, commitSha: string)

  datatype Classification = Actionable | NonActionable | OutOfScope | ConflictsWithSpec | Uncertain

  datatype Opinion = Opinion(classification: Classification, confidence: real, paths: seq<string>)

  datatype PolicyAction = Fix | Ignore | Escalate

  datatype Reason = OtherActor | Processed | OutdatedHead | MissingPath | ForbiddenPath | Accepted

  /** The repository as the filter sees it. */
  datatype Paths = Paths(exists_: string -> bool, inScope: string -> bool)

  /** `applies_to_current_head` */
  predicate AppliesToHead(item: Feedback, head: string, trackHead: string) {
    if item.commitSha != "" then item.commitSha == head else trackHead == "" || trackHead == head
  }

  /** `prefilter_reason`; Accepted stands for None. */
  function Prefilter(item: Feedback, actor: string, head: string, processed: seq<string>, trackHead: string,
      paths: Paths): Reason {
    if Strip(actor) == "" || item.author != actor then OtherActor
    else if item.identity in processed then Processed
    else if !AppliesToHead(item, head, trackHead) then OutdatedHead
    else if item.path != "" && !paths.exists_(item.path) then MissingPath
    else if item.path != "" && !paths.inScope(item.path) then ForbiddenPath
    else Accepted
  }

  /** `decide_review_policy` */
  function Decide(opinion: Opinion, threshold: real, autoRepair: bool, paths: Paths): PolicyAction {
    if opinion.classification == NonActionable then Ignore
    else if opinion.classification != Actionable then Escalate
    else if !autoRepair || opinion.confidence < threshold || opinion.paths == [] then Escalate
    else if exists p :: p in opinion.paths && !paths.inScope(p) then Escalate
    else Fix
  }

  /** Only non-actionable feedback is ignored, and nothing is fixed outside the scope or while
      automatic repair is deferred. */
  lemma DecisionMeaning(opinion: Opinion, threshold: real, autoRepair: bool, paths: Paths)
    ensures Decide(opinion, threshold, autoRepair, paths) == Ignore <==> opinion.classification == NonActionable
    ensures Decide(opinion, threshold, autoRepair, paths) == Fix <==>
              (autoRepair && opinion.classification == Actionable && opinion.confidence >= threshold
               && opinion.paths != [] && forall p :: p in opinion.paths ==> paths.inScope(p))
  {
  }
}
