/** What the resolved terminal state says about the checks and statuses as GitHub returned them
    (agent/review_terminal.py). */
module TerminalKinds {
  import opened Prelude
  import opened PyText
  import opened Terminal
  import opened TerminalProofs

  datatype Item = FromCheck(check: CheckRun) | FromStatus(status: CommitStatus)

  /** All inputs, checks before statuses. */
  function Items(checks: seq<CheckRun>, statuses: seq<CommitStatus>): (r: seq<Item>)
    ensures |r| == |checks| + |statuses|
    ensures forall k :: 0 <= k < |r| ==>
              r[k] == if k < |checks| then FromCheck(checks[k]) else FromStatus(statuses[k - |checks|])
  {
    seq(|checks| + |statuses|, k requires 0 <= k < |checks| + |statuses| =>
          if k < |checks| then FromCheck(checks[k]) else FromStatus(statuses[k - |checks|]))
  }

  /** The configured context, alone or followed by a slash or a blank and anything. */
  ghost predicate NamesContext(context: string, configured: string) {
    && Strip(configured) != ""
    && exists rest :: Strip(context) == Strip(configured) + rest && (rest == "" || rest[0] == '/' || rest[0] == ' ')
  }

  /** A check of the configured app, or a status of the configured context or author, that is for the
      head or for no commit. */
  ghost predicate Counted(item: Item, head: string, cfg: Config) {
    match item
    case FromCheck(c) =>
      && (Strip(c.headSha) == "" || Strip(c.headSha) == head)
      && Strip(cfg.checkAppSlug) != "" && c.appSlug.Some? && Strip(c.appSlug.value) == Strip(cfg.checkAppSlug)
    case FromStatus(s) =>
      && (Strip(s.sha) == "" || Strip(s.sha) == head)
      && (|| (s.context.Some? && NamesContext(s.context.value, cfg.statusContext))
          || (s.creatorLogin.Some? && Strip(cfg.actor) != "" && s.creatorLogin.value == cfg.actor))
  }

  /** No capital is left, a text without any stays as it is, and place by place only capitals change. */
  lemma LowerMeans(s: string, t: string)
    ensures forall c :: c in Lower(s) ==> !('A' <= c <= 'Z')
    ensures (forall c :: c in s ==> !('A' <= c <= 'Z')) <==> Lower(s) == s
    ensures Lower(s + t) == Lower(s) + Lower(t)
    ensures Lower("ABCDEFGHIJKLMNOPQRSTUVWXYZ") == "abcdefghijklmnopqrstuvwxyz"
  {
    forall c | c in Lower(s) ensures !('A' <= c <= 'Z') {
      var i :| 0 <= i < |s| && Lower(s)[i] == c;
    }
    forall i | 0 <= i < |s| && !('A' <= s[i] <= 'Z') ensures Lower(s)[i] == s[i] {
    }
    assert forall i :: 0 <= i < |s| ==> s[i] in s;
  }

  /** Between two words any white space becomes one blank, and a word stays as it is. */
  lemma {:induction false} SquashMeans(word: string, gap: string, rest: string)
    requires forall i :: 0 <= i < |word| ==> !IsSpace(word[i])
    requires AllSpace(gap) && gap != "" && rest != "" && !IsSpace(rest[0])
    ensures Squash(word) == word
    ensures Squash(word + gap + rest) == word + " " + Squash(rest)
    decreases |word| + |gap|
  {
    var all := word + gap + rest;
    if word != "" {
      assert all[0] == word[0] && all[1..] == word[1..] + gap + rest;
      SquashMeans(word[1..], gap, rest);
      assert word == [word[0]] + word[1..];
    } else if |gap| > 1 {
      assert all[0] == gap[0] && all[1] == gap[1] && all[1..] == "" + gap[1..] + rest;
      SquashMeans("", gap[1..], rest);
    } else {
      assert all[0] == gap[0] && all[1..] == rest && all[1] == rest[0];
    }
  }

  function Word(text: string): string { Lower(Strip(text)) }

  predicate Says(description: string, phrase: string) { Contains(Squash(Word(description)), phrase) }

  predicate Silent(description: string) {
    !Says(description, "review skipped") && !Says(description, "review in progress")
    && !Says(description, "review completed")
  }

  predicate Running(c: CheckRun) { Word(c.status) in {"queued", "in_progress", "waiting", "pending", "requested"} }

  /** A check without a status counts as finished. */
  predicate Finished(c: CheckRun) { Word(c.status) in {"", "completed"} }

  predicate Broken(s: CommitStatus) { Word(s.state) in {"failure", "error"} }

  /** Which state of the review one check or status shows. */
  predicate Shows(item: Item, kind: Kind) {
    match item
    case FromCheck(c) =>
      (match kind
       case NoEvidence | Ambiguous => false
       case InProgress => Running(c)
       case ReviewCompleted => Finished(c) && Word(c.conclusion) == "success"
       case ReviewSkipped => Finished(c) && Word(c.conclusion) in {"skipped", "cancelled", "neutral"}
       case ReviewFailed => Finished(c) && Word(c.conclusion) !in {"success", "skipped", "cancelled", "neutral"})
    case FromStatus(s) =>
      (match kind
       case NoEvidence => false
       case ReviewFailed => Broken(s)
       case ReviewSkipped => !Broken(s) && Says(s.description, "review skipped")
       case InProgress =>
         && !Broken(s) && !Says(s.description, "review skipped")
         && (Says(s.description, "review in progress") || (Silent(s.description) && Word(s.state) == "pending"))
       case ReviewCompleted =>
         && !Broken(s) && !Says(s.description, "review skipped") && !Says(s.description, "review in progress")
         && Says(s.description, "review completed")
       case Ambiguous => Silent(s.description) && Word(s.state) == "success")
  }

  /** It counts and shows something. */
  ghost predicate Speaks(item: Item, head: string, cfg: Config) {
    Counted(item, head, cfg) && exists kind :: Shows(item, kind)
  }

  function When(item: Item): string {
    match item
    case FromCheck(c) => if c.completedAt != "" then c.completedAt else c.startedAt
    case FromStatus(s) => if s.updatedAt != "" then s.updatedAt else s.createdAt
  }

  function Number(item: Item): int {
    match item
    case FromCheck(c) => c.id
    case FromStatus(s) => s.id
  }

  /** `a` ends, or has the smaller character, where the two texts part. */
  predicate PartsAt(a: string, b: string, n: nat) {
    n <= |a| && n < |b| && a[..n] == b[..n] && (n == |a| || a[n] < b[n])
  }

  /** Text order. */
  ghost predicate Earlier(a: string, b: string) {
    exists n: nat :: PartsAt(a, b, n)
  }

  /** `r` is the one state that the item shows. */
  ghost predicate IsShown(item: Item, r: TerminalState) {
    && (forall kind :: Shows(item, kind) <==> kind == r.kind)
    && r.observedAt == When(item)
    && r.source == if item.FromCheck? then "check_run" else "commit_status"
  }

  ghost predicate NobodySpeaks(items: seq<Item>, head: string, cfg: Config) {
    forall k :: 0 <= k < |items| ==> !Speaks(items[k], head, cfg)
  }

  /** No item that speaks is later by time and then by number, and none after it has the same key. */
  ghost predicate Latest(items: seq<Item>, k: nat, head: string, cfg: Config) {
    && k < |items| && Speaks(items[k], head, cfg)
    && forall j :: 0 <= j < |items| && Speaks(items[j], head, cfg) ==>
         && !Earlier(When(items[k]), When(items[j]))
         && (When(items[j]) == When(items[k]) ==>
               Number(items[j]) <= Number(items[k]) && (j > k ==> Number(items[j]) < Number(items[k])))
  }

  /** `r` is what the latest item shows. */
  ghost predicate LatestShown(items: seq<Item>, head: string, cfg: Config, r: TerminalState) {
    exists k: nat :: k < |items| && Latest(items, k, head, cfg) && IsShown(items[k], r)
  }

  function ItemOf(item: Item, head: string, cfg: Config): Option<Entry> {
    match item
    case FromCheck(c) => CheckItem(c, head, cfg)
    case FromStatus(s) => StatusItem(s, head, cfg)
  }

  lemma ContextMeans(context: string, configured: string)
    ensures ContextMatches(context, configured) <==> NamesContext(context, configured)
  {
    var value, expected := Strip(context), Strip(configured);
    hide Strip;
    if ContextMatches(context, configured) {
      assert value == expected + value[|expected|..];
    }
    if expected != "" {
      if rest :| value == expected + rest && (rest == "" || rest[0] == '/' || rest[0] == ' ') {
        if rest == "" {
          assert value == expected;
        } else {
          assert value[..|expected| + 1] == expected + [rest[0]];
          assert expected + [rest[0]] == expected + (if rest[0] == '/' then "/" else " ");
        }
      }
    }
  }

  lemma NothingSaid(phrase: string)
    requires phrase != ""
    ensures !Contains("", phrase)
  {
  }

  lemma DescriptionMeans(description: string)
    ensures DescribedKind(description) ==
              if Says(description, "review skipped") then Some(ReviewSkipped)
              else if Says(description, "review in progress") then Some(InProgress)
              else if Says(description, "review completed") then Some(ReviewCompleted)
              else None
  {
    NothingSaid("review skipped");
    NothingSaid("review in progress");
    NothingSaid("review completed");
    hide Strip, Lower, Squash, Contains;
  }

  lemma ConclusionMeans(c: CheckRun)
    ensures var e := CheckEvidence(c);
            && (e.Some? <==> Running(c) || Finished(c))
            && (e.Some? ==> e.value.observedAt == When(FromCheck(c)) && e.value.id == c.id)
            && (e.Some? ==> forall kind :: Shows(FromCheck(c), kind) <==> kind == e.value.kind)
  {
    assert Word(c.status) == Lower(Strip(c.status)) && Word(c.conclusion) == Lower(Strip(c.conclusion));
    hide Strip, Lower, Word;
  }

  lemma CheckMeans(c: CheckRun, head: string, cfg: Config)
    ensures CheckItem(c, head, cfg).Some? <==> Counted(FromCheck(c), head, cfg) && (Running(c) || Finished(c))
    ensures CheckItem(c, head, cfg).Some? ==>
              var e := CheckItem(c, head, cfg).value;
              && e.observedAt == When(FromCheck(c)) && e.id == c.id
              && forall kind :: Shows(FromCheck(c), kind) <==> kind == e.kind
  {
    ConclusionMeans(c);
    hide Strip, CheckEvidence, Shows, Running, Finished;
  }

  predicate ShowsAny(s: CommitStatus) {
    Broken(s) || !Silent(s.description) || Word(s.state) in {"pending", "success"}
  }

  lemma StateMeans(s: CommitStatus)
    ensures var kind := StatusKind(Word(s.state), s.description);
            && (kind.Some? <==> ShowsAny(s))
            && (kind.Some? ==> forall k :: Shows(FromStatus(s), k) <==> k == kind.value)
  {
    DescriptionMeans(s.description);
    hide Word, DescribedKind, Says;
  }

  lemma StatusMeans(s: CommitStatus, head: string, cfg: Config)
    ensures StatusItem(s, head, cfg).Some? <==> Counted(FromStatus(s), head, cfg) && ShowsAny(s)
    ensures StatusItem(s, head, cfg).Some? ==>
              var e := StatusItem(s, head, cfg).value;
              && e.observedAt == When(FromStatus(s)) && e.id == s.id
              && forall kind :: Shows(FromStatus(s), kind) <==> kind == e.kind
  {
    if s.context.Some? {
      ContextMeans(s.context.value, cfg.statusContext);
    }
    StateMeans(s);
    hide Strip, Lower, ContextMatches, NamesContext, StatusKind, ShowsAny, Shows;
  }

  /** What becomes of one input: an entry exactly when it speaks, with the one state that it shows. */
  lemma ItemMeans(item: Item, head: string, cfg: Config)
    ensures ItemOf(item, head, cfg).Some? <==> Speaks(item, head, cfg)
    ensures ItemOf(item, head, cfg).Some? ==>
              var e := ItemOf(item, head, cfg).value;
              && e.observedAt == When(item) && e.id == Number(item)
              && forall kind :: Shows(item, kind) <==> kind == e.kind
  {
    match item
    case FromCheck(c) =>
      CheckMeans(c, head, cfg);
      hide CheckItem, Counted, Word;
      if kind :| Shows(item, kind) {
        assert Running(c) || Finished(c);
      }
      if CheckItem(c, head, cfg).Some? {
        assert Shows(item, CheckItem(c, head, cfg).value.kind);
      }
    case FromStatus(s) =>
      StatusMeans(s, head, cfg);
      hide StatusItem, Counted, Word, Says;
      if kind :| Shows(item, kind) {
        assert ShowsAny(s);
      }
      if StatusItem(s, head, cfg).Some? {
        assert Shows(item, StatusItem(s, head, cfg).value.kind);
      }
  }

  lemma PartsAfter(a: string, b: string, n: nat)
    requires a != "" && b != "" && PartsAt(a, b, n)
    ensures n == 0 || a[0] == b[0]
  {
    if n > 0 {
      assert a[..n][0] == b[..n][0];
    }
  }

  lemma {:induction false} TextOrder(a: string, b: string)
    ensures TextLess(a, b) <==> Earlier(a, b)
    decreases |a|
  {
    if b == "" {
    } else if a == "" || a[0] < b[0] {
      assert PartsAt(a, b, 0);
    } else if a[0] != b[0] {
      forall n: nat | PartsAt(a, b, n) ensures n == 0 {
        PartsAfter(a, b, n);
      }
    } else {
      TextOrder(a[1..], b[1..]);
      if n: nat :| PartsAt(a[1..], b[1..], n) {
        assert a[..n + 1] == [a[0]] + a[1..][..n] && b[..n + 1] == [b[0]] + b[1..][..n];
        assert PartsAt(a, b, n + 1);
      }
      if n: nat :| PartsAt(a, b, n) {
        assert a[1..][..n - 1] == a[..n][1..] && b[1..][..n - 1] == b[..n][1..];
        assert PartsAt(a[1..], b[1..], n - 1);
      }
    }
  }

  function Entries(items: seq<Item>, head: string, cfg: Config): seq<Entry> {
    if items == [] then []
    else
      var item := ItemOf(items[0], head, cfg);
      (if item.Some? then [item.value] else []) + Entries(items[1..], head, cfg)
  }

  lemma {:induction false} StatusesAlone(statuses: seq<CommitStatus>, head: string, cfg: Config)
    ensures Entries(Items([], statuses), head, cfg) == StatusEntries(statuses, head, cfg)
    decreases |statuses|
  {
    hide StatusItem;
    if statuses != [] {
      assert Items([], statuses)[1..] == Items([], statuses[1..]);
      StatusesAlone(statuses[1..], head, cfg);
    }
  }

  lemma {:induction false} EntriesAreMatching(checks: seq<CheckRun>, statuses: seq<CommitStatus>, head: string,
      cfg: Config)
    ensures Entries(Items(checks, statuses), head, cfg) == Matching(checks, statuses, head, cfg)
    decreases |checks|
  {
    hide CheckItem, StatusItem, StatusEntries;
    if checks != [] {
      assert Items(checks, statuses)[1..] == Items(checks[1..], statuses);
      EntriesAreMatching(checks[1..], statuses, head, cfg);
    } else {
      StatusesAlone(statuses, head, cfg);
    }
  }

  /** Every entry comes from an input, and inputs after that one give entries after it. */
  lemma {:induction false} EntryFrom(items: seq<Item>, head: string, cfg: Config, i: nat) returns (k: nat)
    requires i < |Entries(items, head, cfg)|
    ensures k < |items| && ItemOf(items[k], head, cfg) == Some(Entries(items, head, cfg)[i])
    ensures forall j :: k < j < |items| && ItemOf(items[j], head, cfg).Some? ==>
              exists l :: i < l < |Entries(items, head, cfg)| &&
                  Entries(items, head, cfg)[l] == ItemOf(items[j], head, cfg).value
    decreases |items|
  {
    hide ItemOf;
    var first := if ItemOf(items[0], head, cfg).Some? then 1 else 0;
    if i < first {
      k := 0;
      forall j | k < j < |items| && ItemOf(items[j], head, cfg).Some?
        ensures exists l ::
                i < l < |Entries(items, head, cfg)| && Entries(items, head, cfg)[l] == ItemOf(items[j], head, cfg).value
      {
        var l := EntryOf(items[1..], head, cfg, j - 1);
        assert Entries(items, head, cfg)[l + 1] == ItemOf(items[j], head, cfg).value;
      }
    } else {
      var before := EntryFrom(items[1..], head, cfg, i - first);
      k := before + 1;
      forall j | k < j < |items| && ItemOf(items[j], head, cfg).Some?
        ensures exists l ::
                i < l < |Entries(items, head, cfg)| && Entries(items, head, cfg)[l] == ItemOf(items[j], head, cfg).value
      {
        assert items[j] == items[1..][j - 1];
        var l :| i - first < l < |Entries(items[1..], head, cfg)|
                 && Entries(items[1..], head, cfg)[l] == ItemOf(items[1..][j - 1], head, cfg).value;
        assert Entries(items, head, cfg)[l + first] == ItemOf(items[j], head, cfg).value;
      }
    }
  }

  lemma {:induction false} EntryOf(items: seq<Item>, head: string, cfg: Config, j: nat) returns (l: nat)
    requires j < |items| && ItemOf(items[j], head, cfg).Some?
    ensures l < |Entries(items, head, cfg)| && Entries(items, head, cfg)[l] == ItemOf(items[j], head, cfg).value
    decreases |items|
  {
    hide ItemOf;
    if j == 0 {
      l := 0;
    } else {
      l := EntryOf(items[1..], head, cfg, j - 1);
      if ItemOf(items[0], head, cfg).Some? {
        l := l + 1;
      }
    }
  }

  lemma DecidesLatest(items: seq<Item>, head: string, cfg: Config, i: nat) returns (k: nat)
    requires Decides(Entries(items, head, cfg), i)
    ensures k < |items| && Latest(items, k, head, cfg) &&
        ItemOf(items[k], head, cfg) == Some(Entries(items, head, cfg)[i])
  {
    var entries := Entries(items, head, cfg);
    k := EntryFrom(items, head, cfg, i);
    ItemMeans(items[k], head, cfg);
    hide Speaks, ItemOf, When, Number, Entries, Shows, TextLess;
    forall j | 0 <= j < |items| && Speaks(items[j], head, cfg)
      ensures !Earlier(When(items[k]), When(items[j]))
      ensures When(items[j]) == When(items[k]) ==>
                Number(items[j]) <= Number(items[k]) && (j > k ==> Number(items[j]) < Number(items[k]))
    {
      ItemMeans(items[j], head, cfg);
      TextOrder(When(items[k]), When(items[j]));
      var l := EntryOf(items, head, cfg, j);
      assert !Before(entries[i], entries[l]);
    }
  }

  lemma SourceMeans(item: Item, head: string, cfg: Config)
    ensures ItemOf(item, head, cfg).Some? ==>
              ItemOf(item, head, cfg).value.source == if item.FromCheck? then "check_run" else "commit_status"
    ensures ItemOf(item, head, cfg).Some? ==> ItemOf(item, head, cfg).value.kind != NoEvidence
  {
    match item {
      case FromCheck(c) => CheckIsEvidence(c, head, cfg);
      case FromStatus(s) => StatusIsEvidence(s, head, cfg);
    }
    hide Strip, Lower, Squash, ContextMatches, DescribedKind;
  }

  lemma SilentEntries(items: seq<Item>, head: string, cfg: Config)
    ensures Entries(items, head, cfg) == [] <==> NobodySpeaks(items, head, cfg)
  {
    if Entries(items, head, cfg) != [] {
      var k := EntryFrom(items, head, cfg, 0);
      ItemMeans(items[k], head, cfg);
    }
    hide Speaks, ItemOf, Entries;
    if k :| 0 <= k < |items| && Speaks(items[k], head, cfg) {
      ItemMeans(items[k], head, cfg);
      var l := EntryOf(items, head, cfg, k);
    }
  }

  lemma ResolveShape(checks: seq<CheckRun>, statuses: seq<CommitStatus>, headSha: string, cfg: Config)
    ensures var head := Strip(headSha);
            Resolve(checks, statuses, headSha, cfg) ==
              Answer(head, if head == "" then [] else Entries(Items(checks, statuses), head, cfg))
  {
    hide Strip, Matching, Entries, Answer, Items;
    EntriesAreMatching(checks, statuses, Strip(headSha), cfg);
  }

  lemma AnswerMeans(head: string, entries: seq<Entry>) returns (i: nat)
    requires entries != [] && forall e :: e in entries ==> e.kind != NoEvidence
    ensures i < |entries| && Decides(entries, i) && Answer(head, entries) == Shown(entries[i], head)
  {
    i := SortedLastDecides(entries);
    assert entries[i] in entries;
  }

  /** Only the items of the configured app, context or author on the head count.  Nothing is known
      exactly when none of them shows anything; otherwise the answer is the state that the latest one
      shows, seen when that one says. */
  lemma KindExactly(checks: seq<CheckRun>, statuses: seq<CommitStatus>, headSha: string, cfg: Config)
    ensures var head := Strip(headSha);
            var items := Items(checks, statuses);
            var r := Resolve(checks, statuses, headSha, cfg);
            && r.headSha == head
            && (r.kind == NoEvidence <==> head == "" || NobodySpeaks(items, head, cfg))
            && (r.kind != NoEvidence ==> LatestShown(items, head, cfg, r))
  {
    var head := Strip(headSha);
    var items := Items(checks, statuses);
    var entries := Entries(items, head, cfg);
    hide *;
    ResolveShape(checks, statuses, headSha, cfg);
    SilentEntries(items, head, cfg);
    if head == "" || entries == [] {
      EmptyAnswer(head);
    } else {
      EntriesSpeak(items, head, cfg);
      var i := AnswerMeans(head, entries);
      var k := DecidesLatest(items, head, cfg, i);
      ShownMeans(items[k], head, cfg, entries[i]);
      LatestIs(items, head, cfg, Shown(entries[i], head), k);
    }
  }

  lemma LatestIs(items: seq<Item>, head: string, cfg: Config, r: TerminalState, k: nat)
    requires k < |items| && Latest(items, k, head, cfg) && IsShown(items[k], r)
    ensures LatestShown(items, head, cfg, r)
  {
  }

  lemma EntriesSpeak(items: seq<Item>, head: string, cfg: Config)
    ensures forall e :: e in Entries(items, head, cfg) ==> e.kind != NoEvidence
  {
    hide Entries, ItemOf;
    var entries := Entries(items, head, cfg);
    forall e | e in entries ensures e.kind != NoEvidence {
      var i :| 0 <= i < |entries| && entries[i] == e;
      var k := EntryFrom(items, head, cfg, i);
      SourceMeans(items[k], head, cfg);
    }
  }

  lemma EmptyAnswer(head: string)
    ensures Answer(head, []).kind == NoEvidence && Answer(head, []).headSha == head
  {
  }

  lemma ShownMeans(item: Item, head: string, cfg: Config, e: Entry)
    requires ItemOf(item, head, cfg) == Some(e)
    ensures IsShown(item, Shown(e, head)) && Shown(e, head).headSha == head && Shown(e, head).kind != NoEvidence
  {
    SourceMeans(item, head, cfg);
    ItemMeans(item, head, cfg);
    hide ItemOf, Shows, When;
  }
}
