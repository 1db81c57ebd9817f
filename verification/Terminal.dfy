/** "Latest evidence wins": the terminal state of the external review on one head commit
    (agent/review_terminal.py), and the copy kept in the end-to-end harness
    (agent/integration-tests/github-review-e2e/harness/coderabbit_terminal.py). */
module Terminal {
  import opened Prelude
  import opened PyText

  datatype Kind = NoEvidence | InProgress | ReviewCompleted | ReviewSkipped | ReviewFailed | Ambiguous

  /** A check run and a commit status as GitHub returns them; absent text is "". */
  datatype CheckRun = CheckRun(
    headSha: string, appSlug: Option<string>, status: string, conclusion: string,
    completedAt: string, startedAt: string, id: int)

  datatype CommitStatus = CommitStatus(
    sha: string, context: Option<string>, creatorLogin: Option<string>, state: string, description: string,
    updatedAt: string, createdAt: string, id: int)

  datatype Config = Config(actor: string, checkAppSlug: string, statusContext: string)

  /** A row of the source's `matching` list. */
  datatype Entry = Entry(observedAt: string, id: int, source: string, conclusion: string, kind: Kind,
      description: string)

  datatype TerminalState = TerminalState(
    kind: Kind, source: string, headSha: string, conclusion: string, observedAt: string, description: string)

  function NoneTerminal(headSha: string): TerminalState {
    TerminalState(NoEvidence, "", headSha, "", "", "")
  }

  /** `str.lower()` on ASCII letters. */
  function Lower(s: string): string {
    seq(|s|, i requires 0 <= i < |s| => if 'A' <= s[i] <= 'Z' then (s[i] as int + 32) as char else s[i])
  }

  /** In a stripped text every run of white space becomes one blank. */
  function Squash(s: string): string {
    if s == "" then ""
    else if !IsSpace(s[0]) then [s[0]] + Squash(s[1..])
    else if |s| > 1 && IsSpace(s[1]) then Squash(s[1..])
    else " " + Squash(s[1..])
  }

  predicate Contains(s: string, part: string) { Find(s, part, 0).Some? }

  predicate StartsWith(s: string, prefix: string) { |prefix| <= |s| && s[..|prefix|] == prefix }

  function Or(a: string, b: string): string { if a != "" then a else b }

  /** `status_context_matches`, the same text in both programs. */
  predicate ContextMatches(context: string, configured: string) {
    var value, expected := Strip(context), Strip(configured);
    && value != "" && expected != ""
    && (value == expected || StartsWith(value, expected + "/") || StartsWith(value, expected + " "))
  }

  function CheckKind(conclusion: string): Kind {
    if conclusion == "success" then ReviewCompleted
    else if conclusion in {"skipped", "cancelled", "neutral"} then ReviewSkipped
    else ReviewFailed
  }

  function DescribedKind(description: string): Option<Kind> {
    var text := Squash(Lower(Strip(description)));
    if text == "" then None
    else if Contains(text, "review skipped") then Some(ReviewSkipped)
    else if Contains(text, "review in progress") then Some(InProgress)
    else if Contains(text, "review completed") then Some(ReviewCompleted)
    else None
  }

  /** `_map_status_entry` */
  function StatusKind(state: string, description: string): Option<Kind> {
    if state in {"failure", "error"} then Some(ReviewFailed)
    else if DescribedKind(description).Some? then DescribedKind(description)
    else if state == "pending" then Some(InProgress)
    else if state == "success" then Some(Ambiguous)
    else None
  }

  /** What a belonging check says; None while it is in an unknown state. */
  function CheckEvidence(check: CheckRun): Option<Entry> {
    var status := Lower(Strip(check.status));
    var observedAt := Or(check.completedAt, check.startedAt);
    if status in {"queued", "in_progress", "waiting", "pending", "requested"} then
      Some(Entry(observedAt, check.id, "check_run", "in_progress", InProgress, ""))
    else if status != "" && status != "completed" then None
    else
      var conclusion := Lower(Strip(check.conclusion));
      Some(Entry(observedAt, check.id, "check_run", conclusion, CheckKind(conclusion), ""))
  }

  /** `_check_timeline_item` in production. */
  function CheckItem(check: CheckRun, head: string, cfg: Config): Option<Entry> {
    var sha := Strip(check.headSha);
    var slug := Strip(cfg.checkAppSlug);
    if sha != "" && sha != head then None
    else if slug == "" || check.appSlug.None? || Strip(check.appSlug.value) != slug then None
    else CheckEvidence(check)
  }

  /** `is_configured_actor` */
  predicate IsConfiguredActor(login: Option<string>, expected: string) {
    login.Some? && Strip(expected) != "" && login.value == expected
  }

  /** `_status_timeline_item` in production. */
  function StatusItem(status: CommitStatus, head: string, cfg: Config): Option<Entry> {
    var sha := Strip(status.sha);
    if sha != "" && sha != head then None
    else if !(status.context.Some? && ContextMatches(status.context.value, cfg.statusContext))
         && !IsConfiguredActor(status.creatorLogin, cfg.actor) then None
    else
      var state := Lower(Strip(status.state));
      var kind := StatusKind(state, status.description);
      if kind.None? then None
      else Some(Entry(Or(status.updatedAt, status.createdAt), status.id, "commit_status",
                      Or(Strip(status.description), state), kind.value, Strip(status.description)))
  }

  function CheckEntries(checks: seq<CheckRun>, head: string, cfg: Config): seq<Entry> {
    if checks == [] then []
    else
      var item := CheckItem(checks[0], head, cfg);
      (if item.Some? then [item.value] else []) + CheckEntries(checks[1..], head, cfg)
  }

  function StatusEntries(statuses: seq<CommitStatus>, head: string, cfg: Config): seq<Entry> {
    if statuses == [] then []
    else
      var item := StatusItem(statuses[0], head, cfg);
      (if item.Some? then [item.value] else []) + StatusEntries(statuses[1..], head, cfg)
  }

  /** Everything that matches, checks before statuses. */
  function Matching(checks: seq<CheckRun>, statuses: seq<CommitStatus>, head: string, cfg: Config): seq<Entry> {
    CheckEntries(checks, head, cfg) + StatusEntries(statuses, head, cfg)
  }

  /** Text order by code points, then the id: the sort key `(row[0], row[1])`. */
  predicate TextLess(a: string, b: string) {
    if b == "" then false
    else if a == "" then true
    else a[0] < b[0] || (a[0] == b[0] && TextLess(a[1..], b[1..]))
  }

  predicate Before(a: Entry, b: Entry) {
    TextLess(a.observedAt, b.observedAt) || (a.observedAt == b.observedAt && a.id < b.id)
  }

  predicate SameKey(a: Entry, b: Entry) { a.observedAt == b.observedAt && a.id == b.id }

  lemma {:induction false} TextTotal(a: string, b: string)
    ensures TextLess(a, b) || TextLess(b, a) || a == b
    ensures !(TextLess(a, b) && TextLess(b, a))
    ensures TextLess(a, b) ==> a != b
    decreases |a|
  {
    if a != "" && b != "" && a[0] == b[0] {
      TextTotal(a[1..], b[1..]);
      assert a == [a[0]] + a[1..] && b == [b[0]] + b[1..];
    }
  }

  lemma {:induction false} TextTransitive(a: string, b: string, c: string)
    requires TextLess(a, b) && TextLess(b, c)
    ensures TextLess(a, c)
    decreases |a|
  {
    if a != "" && b != "" && c != "" && a[0] == b[0] == c[0] {
      TextTransitive(a[1..], b[1..], c[1..]);
    }
  }

  lemma KeysTotal(a: Entry, b: Entry)
    ensures Before(a, b) || Before(b, a) || SameKey(a, b)
    ensures !(Before(a, b) && Before(b, a)) && !(Before(a, b) && SameKey(a, b))
  {
    TextTotal(a.observedAt, b.observedAt);
  }

  lemma KeysTransitive(a: Entry, b: Entry, c: Entry)
    requires !Before(b, a) && !Before(c, b)
    ensures !Before(c, a)
    ensures Before(a, b) || Before(b, c) ==> Before(a, c)
  {
    TextTotal(a.observedAt, b.observedAt);
    TextTotal(b.observedAt, c.observedAt);
    TextTotal(a.observedAt, c.observedAt);
    if TextLess(a.observedAt, b.observedAt) && TextLess(b.observedAt, c.observedAt) {
      TextTransitive(a.observedAt, b.observedAt, c.observedAt);
    }
  }

  /** Python's stable sort, as insertion of the last element behind every element that is not later. */
  function Insert(sorted: seq<Entry>, e: Entry): seq<Entry> {
    if sorted != [] && Before(e, sorted[|sorted| - 1]) then
      Insert(sorted[..|sorted| - 1], e) + [sorted[|sorted| - 1]]
    else sorted + [e]
  }

  function StableSort(entries: seq<Entry>): seq<Entry> {
    if entries == [] then [] else Insert(StableSort(entries[..|entries| - 1]), entries[|entries| - 1])
  }

  /** `e` is the entry that decides: no entry is later, and of entries at the same key it is the last. */
  ghost predicate Decides(entries: seq<Entry>, i: nat) {
    && i < |entries|
    && (forall j :: 0 <= j < |entries| ==> !Before(entries[i], entries[j]))
    && (forall j :: i < j < |entries| ==> !SameKey(entries[i], entries[j]))
  }

  lemma InsertLast(sorted: seq<Entry>, e: Entry)
    ensures Insert(sorted, e) != []
    ensures var last := Insert(sorted, e)[|Insert(sorted, e)| - 1];
            last == if sorted != [] && Before(e, sorted[|sorted| - 1]) then sorted[|sorted| - 1] else e
  {
  }

  /** The last element of the sorted list is the deciding one. */
  lemma {:induction false} SortedLastDecides(entries: seq<Entry>) returns (i: nat)
    requires entries != []
    ensures Decides(entries, i) && StableSort(entries) != []
    ensures StableSort(entries)[|StableSort(entries)| - 1] == entries[i]
    decreases |entries|
  {
    var init, e := entries[..|entries| - 1], entries[|entries| - 1];
    InsertLast(StableSort(init), e);
    if init == [] {
      KeysTotal(e, e);
      i := 0;
    } else {
      var k := SortedLastDecides(init);
      var top := init[k];
      KeysTotal(e, top);
      if Before(e, top) {
        i := k;
      } else {
        i := |entries| - 1;
        forall j | 0 <= j < |entries| ensures !Before(e, entries[j]) {
          if j < |init| {
            KeysTransitive(init[j], top, e);
          } else {
            KeysTotal(e, e);
          }
        }
      }
    }
  }

  lemma DecidesUnique(entries: seq<Entry>, i: nat, j: nat)
    requires Decides(entries, i) && Decides(entries, j)
    ensures i == j
  {
    KeysTotal(entries[i], entries[j]);
  }

  /** What `resolve_coderabbit_terminal` returns. */
  function Resolve(checks: seq<CheckRun>, statuses: seq<CommitStatus>, headSha: string, cfg: Config): TerminalState {
    var head := Strip(headSha);
    Answer(head, if head == "" then [] else Matching(checks, statuses, head, cfg))
  }

  function Answer(head: string, matching: seq<Entry>): TerminalState {
    var sorted := StableSort(matching);
    if sorted == [] || sorted[|sorted| - 1].kind == NoEvidence then NoneTerminal(head)
    else
      var e := sorted[|sorted| - 1];
      TerminalState(e.kind, e.source, head, e.conclusion, e.observedAt, e.description)
  }

  lemma NothingMore(head: string, cfg: Config)
    ensures CheckEntries([], head, cfg) == [] && StatusEntries([], head, cfg) == []
  {
  }

  /** Taking one more check, or status, into `done`. */
  lemma CheckStep(checks: seq<CheckRun>, i: nat, head: string, cfg: Config, done: seq<Entry>)
    requires i < |checks|
    ensures var item := CheckItem(checks[i], head, cfg);
            done + CheckEntries(checks[i..], head, cfg) ==
              (if item.Some? then done + [item.value] else done) + CheckEntries(checks[i + 1..], head, cfg)
  {
    hide CheckItem;
    assert checks[i..][0] == checks[i] && checks[i..][1..] == checks[i + 1..];
  }

  lemma StatusStep(statuses: seq<CommitStatus>, i: nat, head: string, cfg: Config, done: seq<Entry>)
    requires i < |statuses|
    ensures var item := StatusItem(statuses[i], head, cfg);
            done + StatusEntries(statuses[i..], head, cfg) ==
              (if item.Some? then done + [item.value] else done) + StatusEntries(statuses[i + 1..], head, cfg)
  {
    hide StatusItem;
    assert statuses[i..][0] == statuses[i] && statuses[i..][1..] == statuses[i + 1..];
  }

  /** `resolve_coderabbit_terminal`: two loops fill `matching`, which is then sorted. */
  method ResolveCodeRabbitTerminal(checks: seq<CheckRun>, statuses: seq<CommitStatus>, headSha: string, cfg: Config)
    returns (r: TerminalState)
    ensures r == Resolve(checks, statuses, headSha, cfg)
  {
    var expected := Strip(headSha);
    if expected == "" {
      return NoneTerminal("");
    }
    hide CheckEntries, StatusEntries, CheckItem, StatusItem, Answer, Strip;
    var matching: seq<Entry> := [];
    assert checks[0..] == checks && statuses[0..] == statuses;
    for i := 0 to |checks|
      invariant CheckEntries(checks, expected, cfg) == matching + CheckEntries(checks[i..], expected, cfg)
    {
      var item := CheckItem(checks[i], expected, cfg);
      CheckStep(checks, i, expected, cfg, matching);
      if item.Some? {
        matching := matching + [item.value];
      }
    }
    NothingMore(expected, cfg);
    assert checks[|checks|..] == [] && statuses[|statuses|..] == [] && matching + [] == matching;
    for i := 0 to |statuses|
      invariant Matching(checks, statuses, expected, cfg) == matching + StatusEntries(statuses[i..], expected, cfg)
    {
      var item := StatusItem(statuses[i], expected, cfg);
      StatusStep(statuses, i, expected, cfg, matching);
      if item.Some? {
        matching := matching + [item.value];
      }
    }
    assert matching + [] == matching;
    r := Answer(expected, matching);
  }
}
