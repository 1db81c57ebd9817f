/** What the terminal resolver guarantees, and when the harness copy agrees with it. */
module TerminalProofs {
  import opened Prelude
  import opened PyText
  import opened Terminal

  /** An item is never of kind NONE. */
  lemma CheckIsEvidence(check: CheckRun, head: string, cfg: Config)
    ensures CheckItem(check, head, cfg).Some? ==> CheckItem(check, head, cfg).value.kind != NoEvidence
  {
    hide Strip, Lower;
  }

  lemma StatusIsEvidence(status: CommitStatus, head: string, cfg: Config)
    ensures StatusItem(status, head, cfg).Some? ==> StatusItem(status, head, cfg).value.kind != NoEvidence
  {
    hide Strip, Lower, Squash, ContextMatches, Contains;
  }

  lemma {:induction false} CheckMembers(checks: seq<CheckRun>, head: string, cfg: Config, e: Entry)
    ensures e in CheckEntries(checks, head, cfg) <==> exists c :: c in checks && CheckItem(c, head, cfg) == Some(e)
    decreases |checks|
  {
    hide CheckItem;
    if checks != [] {
      CheckMembers(checks[1..], head, cfg, e);
      assert forall c :: c in checks <==> c == checks[0] || c in checks[1..];
    }
  }

  lemma {:induction false} StatusMembers(statuses: seq<CommitStatus>, head: string, cfg: Config, e: Entry)
    ensures e in StatusEntries(statuses, head, cfg) <==>
        exists s :: s in statuses && StatusItem(s, head, cfg) == Some(e)
    decreases |statuses|
  {
    hide StatusItem;
    if statuses != [] {
      StatusMembers(statuses[1..], head, cfg, e);
      assert forall s :: s in statuses <==> s == statuses[0] || s in statuses[1..];
    }
  }

  /** `e` is evidence from one of the inputs. */
  ghost predicate Matches(e: Entry, checks: seq<CheckRun>, statuses: seq<CommitStatus>, head: string, cfg: Config) {
    || (exists c :: c in checks && CheckItem(c, head, cfg) == Some(e))
    || (exists s :: s in statuses && StatusItem(s, head, cfg) == Some(e))
  }

  lemma MatchingMembers(checks: seq<CheckRun>, statuses: seq<CommitStatus>, head: string, cfg: Config, e: Entry)
    ensures e in Matching(checks, statuses, head, cfg) <==> Matches(e, checks, statuses, head, cfg)
    ensures e in Matching(checks, statuses, head, cfg) ==> e.kind != NoEvidence
  {
    CheckMembers(checks, head, cfg, e);
    StatusMembers(statuses, head, cfg, e);
    hide CheckItem, StatusItem, CheckEntries, StatusEntries;
    forall c { CheckIsEvidence(c, head, cfg); }
    forall s { StatusIsEvidence(s, head, cfg); }
  }

  function Shown(e: Entry, head: string): TerminalState {
    TerminalState(e.kind, e.source, head, e.conclusion, e.observedAt, e.description)
  }

  /** The answer is the entry with the greatest timestamp and id, the last such entry in checks-then-
      statuses order; it is NONE exactly when nothing matches. */
  lemma LatestWins(checks: seq<CheckRun>, statuses: seq<CommitStatus>, headSha: string, cfg: Config)
    requires Strip(headSha) != ""
    ensures var head := Strip(headSha);
            var matching := Matching(checks, statuses, head, cfg);
            var r := Resolve(checks, statuses, headSha, cfg);
            && (r.kind == NoEvidence <==> forall e :: !Matches(e, checks, statuses, head, cfg))
            && (r.kind == NoEvidence ==> r == NoneTerminal(head))
            && (r.kind != NoEvidence ==> exists i: nat :: Decides(matching, i) && r == Shown(matching[i], head))
  {
    var head := Strip(headSha);
    var matching := Matching(checks, statuses, head, cfg);
    forall e ensures e in matching <==> Matches(e, checks, statuses, head, cfg) {
      MatchingMembers(checks, statuses, head, cfg, e);
    }
    hide Matching, Strip;
    if matching != [] {
      var i := SortedLastDecides(matching);
      assert matching[i] in matching;
      MatchingMembers(checks, statuses, head, cfg, matching[i]);
      assert Resolve(checks, statuses, headSha, cfg) == Shown(matching[i], head);
    }
  }

  lemma AnswerDecided(head: string, entries: seq<Entry>, i: nat)
    requires Decides(entries, i) && entries[i].kind != NoEvidence
    ensures Answer(head, entries) == Shown(entries[i], head)
  {
    var k := SortedLastDecides(entries);
    DecidesUnique(entries, i, k);
  }

  ghost predicate KeysIdentify(entries: seq<Entry>) {
    forall a, b :: a in entries && b in entries && SameKey(a, b) ==> a == b
  }

  lemma BothEmpty(x: seq<Entry>, y: seq<Entry>)
    requires forall e :: e in x <==> e in y
    ensures x == [] <==> y == []
  {
    if x != [] {
      assert x[0] in y;
    }
    if y != [] {
      assert y[0] in x;
    }
  }

  lemma SameEntriesSameAnswer(head: string, x: seq<Entry>, y: seq<Entry>)
    requires KeysIdentify(x) && forall e :: e in x <==> e in y
    ensures Answer(head, x) == Answer(head, y)
  {
    BothEmpty(x, y);
    if x != [] {
      var i := SortedLastDecides(x);
      var j := SortedLastDecides(y);
      assert x[i] in y && y[j] in x;
      KeysTotal(x[i], y[j]);
      assert !Before(x[i], y[j]) && !Before(y[j], x[i]);
    }
  }

  /** Listing the same checks and statuses in another order, or repeating some, changes nothing
      when the keys identify the matching entries. */
  lemma OrderIrrelevant(checks: seq<CheckRun>, statuses: seq<CommitStatus>,
                        checks': seq<CheckRun>, statuses': seq<CommitStatus>, headSha: string, cfg: Config)
    requires forall c :: c in checks <==> c in checks'
    requires forall s :: s in statuses <==> s in statuses'
    requires KeysIdentify(Matching(checks, statuses, Strip(headSha), cfg))
    ensures Resolve(checks, statuses, headSha, cfg) == Resolve(checks', statuses', headSha, cfg)
  {
    var head := Strip(headSha);
    forall e ensures e in Matching(checks, statuses, head, cfg) <==> e in Matching(checks', statuses', head, cfg) {
      MatchingMembers(checks, statuses, head, cfg, e);
      MatchingMembers(checks', statuses', head, cfg, e);
    }
    SameEntriesSameAnswer(head, Matching(checks, statuses, head, cfg), Matching(checks', statuses', head, cfg));
  }

  /** An entry older than the deciding one may stand anywhere in the list. */
  lemma OlderEntryIgnored(head: string, a: seq<Entry>, x: Entry, b: seq<Entry>, i: nat)
    requires Decides(a + b, i) && (a + b)[i].kind != NoEvidence && Before(x, (a + b)[i])
    ensures Answer(head, a + [x] + b) == Answer(head, a + b)
  {
    var all, more := a + b, a + [x] + b;
    var k := if i < |a| then i else i + 1;
    assert more[k] == all[i];
    forall j | 0 <= j < |more| ensures !Before(more[k], more[j]) && (j > k ==> !SameKey(more[k], more[j])) {
      if j == |a| {
        KeysTotal(x, all[i]);
      } else {
        assert more[j] == all[if j < |a| then j else j - 1];
      }
    }
    assert Decides(more, k);
    AnswerDecided(head, all, i);
    AnswerDecided(head, more, k);
  }

  lemma {:induction false} CheckEntriesConcat(a: seq<CheckRun>, b: seq<CheckRun>, head: string, cfg: Config)
    ensures CheckEntries(a + b, head, cfg) == CheckEntries(a, head, cfg) + CheckEntries(b, head, cfg)
    decreases |a|
  {
    hide CheckItem;
    if a == [] {
      assert a + b == b;
    } else {
      assert (a + b)[1..] == a[1..] + b;
      CheckEntriesConcat(a[1..], b, head, cfg);
    }
  }

  lemma {:induction false} StatusEntriesConcat(a: seq<CommitStatus>, b: seq<CommitStatus>, head: string, cfg: Config)
    ensures StatusEntries(a + b, head, cfg) == StatusEntries(a, head, cfg) + StatusEntries(b, head, cfg)
    decreases |a|
  {
    hide StatusItem;
    if a == [] {
      assert a + b == b;
    } else {
      assert (a + b)[1..] == a[1..] + b;
      StatusEntriesConcat(a[1..], b, head, cfg);
    }
  }

  /** One more check, wherever it is listed, changes nothing if it is for another head or another
      app, or is older than the evidence that decides. */
  lemma ExtraCheckIgnored(before: seq<CheckRun>, extra: CheckRun, after: seq<CheckRun>, statuses: seq<CommitStatus>,
                          headSha: string, cfg: Config, i: nat)
    requires var head := Strip(headSha);
             var matching := Matching(before + after, statuses, head, cfg);
             || CheckItem(extra, head, cfg).None?
             || (Decides(matching, i) && Before(CheckItem(extra, head, cfg).value, matching[i]))
    ensures Resolve(before + [extra] + after, statuses, headSha, cfg) == Resolve(before + after, statuses, headSha, cfg)
  {
    var head := Strip(headSha);
    var item := CheckItem(extra, head, cfg);
    var a, b := CheckEntries(before, head, cfg), CheckEntries(after, head, cfg) + StatusEntries(statuses, head, cfg);
    CheckEntriesConcat(before, after, head, cfg);
    CheckEntriesConcat(before + [extra], after, head, cfg);
    CheckEntriesConcat(before, [extra], head, cfg);
    CheckEntriesOne(extra, head, cfg);
    hide CheckItem, StatusItem, CheckEntries, StatusEntries, Answer, Strip;
    assert Matching(before + after, statuses, head, cfg) == a + b;
    if item.None? {
      assert Matching(before + [extra] + after, statuses, head, cfg) == a + b;
    } else {
      assert Matching(before + [extra] + after, statuses, head, cfg) == a + [item.value] + b;
      assert (a + b)[i] in Matching(before + after, statuses, head, cfg);
      MatchingMembers(before + after, statuses, head, cfg, (a + b)[i]);
      OlderEntryIgnored(head, a, item.value, b, i);
    }
  }

  lemma CheckEntriesOne(c: CheckRun, head: string, cfg: Config)
    ensures CheckEntries([c], head, cfg) == if CheckItem(c, head, cfg).Some? then
        [CheckItem(c, head, cfg).value] else []
  {
    hide CheckItem;
    assert [c][1..] == [];
  }

  lemma StatusEntriesOne(s: CommitStatus, head: string, cfg: Config)
    ensures StatusEntries([s], head, cfg) == if StatusItem(s, head, cfg).Some? then
        [StatusItem(s, head, cfg).value] else []
  {
    hide StatusItem;
    assert [s][1..] == [];
  }

  /** The same for one more commit status. */
  lemma ExtraStatusIgnored(checks: seq<CheckRun>, before: seq<CommitStatus>, extra: CommitStatus,
      after: seq<CommitStatus>,
                           headSha: string, cfg: Config, i: nat)
    requires var head := Strip(headSha);
             var matching := Matching(checks, before + after, head, cfg);
             || StatusItem(extra, head, cfg).None?
             || (Decides(matching, i) && Before(StatusItem(extra, head, cfg).value, matching[i]))
    ensures Resolve(checks, before + [extra] + after, headSha, cfg) == Resolve(checks, before + after, headSha, cfg)
  {
    var head := Strip(headSha);
    var item := StatusItem(extra, head, cfg);
    var a, b := CheckEntries(checks, head, cfg) + StatusEntries(before, head, cfg), StatusEntries(after, head, cfg);
    StatusEntriesConcat(before, after, head, cfg);
    StatusEntriesConcat(before + [extra], after, head, cfg);
    StatusEntriesConcat(before, [extra], head, cfg);
    StatusEntriesOne(extra, head, cfg);
    hide CheckItem, StatusItem, CheckEntries, StatusEntries, Answer, Strip;
    assert Matching(checks, before + after, head, cfg) == a + b;
    if item.None? {
      assert Matching(checks, before + [extra] + after, head, cfg) == a + b;
    } else {
      assert Matching(checks, before + [extra] + after, head, cfg) == a + [item.value] + b;
      assert (a + b)[i] in Matching(checks, before + after, head, cfg);
      MatchingMembers(checks, before + after, head, cfg, (a + b)[i]);
      OlderEntryIgnored(head, a, item.value, b, i);
    }
  }
}

/** The second implementation, kept in the end-to-end harness. */
module HarnessTerminal {
  import opened Prelude
  import opened PyText
  import opened Terminal
  import TerminalProofs

  /** `_check_timeline_item` of the harness: a missing app counts as the empty slug. */
  function CheckItem(check: CheckRun, head: string, cfg: Config): Option<Entry> {
    var sha := Strip(check.headSha);
    var slug := if check.appSlug.Some? then Strip(check.appSlug.value) else "";
    if sha != "" && sha != head then None
    else if slug != Strip(cfg.checkAppSlug) then None
    else CheckEvidence(check)
  }

  /** `_status_timeline_item` of the harness: logins are compared stripped, and the description is
      stripped first. */
  function StatusItem(status: CommitStatus, head: string, cfg: Config): Option<Entry> {
    var sha := Strip(status.sha);
    if sha != "" && sha != head then None
    else
      var contextOk := status.context.Some? && ContextMatches(status.context.value, cfg.statusContext);
      var actorOk := status.creatorLogin.Some? && Strip(status.creatorLogin.value) == Strip(cfg.actor);
      if !contextOk && !actorOk then None
      else
        var description := Strip(status.description);
        var state := Lower(Strip(status.state));
        var kind := StatusKind(state, description);
        if kind.None? then None
        else Some(Entry(Or(status.updatedAt, status.createdAt), status.id, "commit_status",
                        Or(description, state), kind.value, description))
  }

  function CheckEntries(checks: seq<CheckRun>, head: string, cfg: Config): seq<Entry> {
    if checks == [] then []
    else
      var item := CheckItem(checks[0], head, cfg);
      (if item.Some? then [item.value] else []) + CheckEntries(checks[1..], head, cfg)
  }

  function StatusEntries(statuses: seq<CommitStatus>, head: string, cfg: Config): seq<Entry> {
    if statuses == [] then []
    else
      var item := StatusItem(statuses[0], head, cfg);
      (if item.Some? then [item.value] else []) + StatusEntries(statuses[1..], head, cfg)
  }

  /** `resolve_coderabbit_terminal` of the harness. */
  function Resolve(checks: seq<CheckRun>, statuses: seq<CommitStatus>, headSha: string, cfg: Config): TerminalState {
    var head := Strip(headSha);
    Answer(head, if head == "" then [] else CheckEntries(checks, head, cfg) + StatusEntries(statuses, head, cfg))
  }

  /** Configurations under which both programs recognise the same author and the same app. */
  predicate Usable(cfg: Config) {
    Strip(cfg.checkAppSlug) != "" && cfg.actor != "" && Trimmed(cfg.actor)
  }

  predicate TrimmedLogin(status: CommitStatus) {
    status.creatorLogin.Some? ==> Trimmed(status.creatorLogin.value)
  }

  lemma SameCheckItem(check: CheckRun, head: string, cfg: Config)
    requires Strip(cfg.checkAppSlug) != ""
    ensures CheckItem(check, head, cfg) == Terminal.CheckItem(check, head, cfg)
  {
    hide CheckEvidence, Strip;
  }

  lemma SameStatusItem(status: CommitStatus, head: string, cfg: Config)
    requires cfg.actor != "" && Trimmed(cfg.actor) && TrimmedLogin(status)
    ensures StatusItem(status, head, cfg) == Terminal.StatusItem(status, head, cfg)
  {
    assert Strip(cfg.actor) == cfg.actor;
    assert Strip(Strip(status.description)) == Strip(status.description);
    assert status.creatorLogin.Some? ==> Strip(status.creatorLogin.value) == status.creatorLogin.value;
    assert StatusKind(Lower(Strip(status.state)), Strip(status.description))
        == StatusKind(Lower(Strip(status.state)), status.description);
    hide Strip, Lower, StatusKind, ContextMatches, Trimmed;
  }

  lemma {:induction false} SameCheckEntries(checks: seq<CheckRun>, head: string, cfg: Config)
    requires Strip(cfg.checkAppSlug) != ""
    ensures CheckEntries(checks, head, cfg) == Terminal.CheckEntries(checks, head, cfg)
    decreases |checks|
  {
    hide CheckItem, Terminal.CheckItem, Strip;
    if checks != [] {
      SameCheckItem(checks[0], head, cfg);
      SameCheckEntries(checks[1..], head, cfg);
    }
  }

  lemma {:induction false} SameStatusEntries(statuses: seq<CommitStatus>, head: string, cfg: Config)
    requires cfg.actor != "" && Trimmed(cfg.actor) && forall s :: s in statuses ==> TrimmedLogin(s)
    ensures StatusEntries(statuses, head, cfg) == Terminal.StatusEntries(statuses, head, cfg)
    decreases |statuses|
  {
    hide StatusItem, Terminal.StatusItem;
    if statuses != [] {
      SameStatusItem(statuses[0], head, cfg);
      SameStatusEntries(statuses[1..], head, cfg);
    }
  }

  /** With a usable configuration the two programs give the same answer on every input whose logins
      are trimmed. */
  lemma SameAnswer(checks: seq<CheckRun>, statuses: seq<CommitStatus>, headSha: string, cfg: Config)
    requires Usable(cfg) && forall s :: s in statuses ==> TrimmedLogin(s)
    ensures Resolve(checks, statuses, headSha, cfg) == Terminal.Resolve(checks, statuses, headSha, cfg)
  {
    SameCheckEntries(checks, Strip(headSha), cfg);
    SameStatusEntries(statuses, Strip(headSha), cfg);
  }

  ghost predicate AgreeEverywhere(cfg: Config) {
    forall checks, statuses, headSha :: (forall s :: s in statuses ==> TrimmedLogin(s)) ==>
      Resolve(checks, statuses, headSha, cfg) == Terminal.Resolve(checks, statuses, headSha, cfg)
  }

  /** A check without an app, when the configured slug is blank: evidence to the harness only. */
  lemma BlankSlugDiffers(cfg: Config)
    requires Strip(cfg.checkAppSlug) == ""
    ensures !AgreeEverywhere(cfg)
  {
    hide Strip;
    var check := CheckRun("", None, "", "", "t", "", 1);
    var entry := Entry("t", 1, "check_run", "", ReviewFailed, "");
    assert Trimmed("") && Trimmed("h") && Lower("") == "";
    assert CheckItem(check, "h", cfg) == Some(entry);
    assert Terminal.CheckItem(check, "h", cfg) == None;
    OneCheck(check, "h", cfg);
    ResolveOne([check], [], "h", cfg);
    assert StatusEntries([], "h", cfg) == [] && Terminal.StatusEntries([], "h", cfg) == [];
    OneEntry("h", entry);
    hide *;
    Disagree([check], [], "h", cfg);
  }

  lemma Disagree(checks: seq<CheckRun>, statuses: seq<CommitStatus>, headSha: string, cfg: Config)
    requires forall s :: s in statuses ==> TrimmedLogin(s)
    requires Resolve(checks, statuses, headSha, cfg) != Terminal.Resolve(checks, statuses, headSha, cfg)
    ensures !AgreeEverywhere(cfg)
  {
    hide Resolve, Terminal.Resolve;
  }

  lemma ResolveOne(checks: seq<CheckRun>, statuses: seq<CommitStatus>, headSha: string, cfg: Config)
    requires headSha != "" && Trimmed(headSha)
    ensures Resolve(checks, statuses, headSha, cfg)
         == Answer(headSha, CheckEntries(checks, headSha, cfg) + StatusEntries(statuses, headSha, cfg))
    ensures Terminal.Resolve(checks, statuses, headSha, cfg)
         == Answer(headSha, Terminal.CheckEntries(checks, headSha, cfg) +
             Terminal.StatusEntries(statuses, headSha, cfg))
  {
    hide Strip, Answer, CheckEntries, StatusEntries, Terminal.CheckEntries, Terminal.StatusEntries;
  }

  lemma OneCheck(check: CheckRun, head: string, cfg: Config)
    ensures CheckEntries([check], head, cfg) == if CheckItem(check, head, cfg).Some? then
        [CheckItem(check, head, cfg).value] else []
    ensures Terminal.CheckEntries([check], head, cfg)
         == if Terminal.CheckItem(check, head, cfg).Some? then [Terminal.CheckItem(check, head, cfg).value] else []
  {
    hide CheckItem, Terminal.CheckItem;
    assert [check][1..] == [];
  }

  lemma OneStatus(status: CommitStatus, head: string, cfg: Config)
    ensures StatusEntries([status], head, cfg) == if StatusItem(status, head, cfg).Some? then
        [StatusItem(status, head, cfg).value] else []
    ensures Terminal.StatusEntries([status], head, cfg)
         == if Terminal.StatusItem(status, head, cfg).Some? then [Terminal.StatusItem(status, head, cfg).value] else []
  {
    hide StatusItem, Terminal.StatusItem;
    assert [status][1..] == [];
  }

  /** A status whose author is the configured actor up to white space (or nobody, when the actor is
      blank): evidence to the harness only. */
  lemma UntrimmedActorDiffers(cfg: Config)
    requires cfg.actor == "" || !Trimmed(cfg.actor)
    ensures !AgreeEverywhere(cfg)
  {
    hide Strip;
    var status := CommitStatus("", None, Some(Strip(cfg.actor)), "failure", "", "t", "", 1);
    var entry := Entry("t", 1, "commit_status", "failure", ReviewFailed, "");
    assert Trimmed("") && Trimmed("failure") && Trimmed("h") && Lower("failure") == "failure";
    assert StatusItem(status, "h", cfg) == Some(entry);
    assert Terminal.StatusItem(status, "h", cfg) == None;
    OneStatus(status, "h", cfg);
    ResolveOne([], [status], "h", cfg);
    assert CheckEntries([], "h", cfg) == [] && Terminal.CheckEntries([], "h", cfg) == [];
    assert TrimmedLogin(status);
    OneEntry("h", entry);
    hide *;
    Disagree([], [status], "h", cfg);
  }

  lemma OneEntry(head: string, e: Entry)
    requires e.kind != NoEvidence
    ensures Answer(head, [e]).kind == e.kind && Answer(head, []).kind == NoEvidence
    ensures [e] + [] == [e] && [] + [e] == [e]
  {
    assert [e][..|[e]| - 1] == [] && StableSort([]) == [];
    assert Insert([], e) == [e];
    assert StableSort([e]) == [e];
  }

  /** The hand-kept copy is aligned with production exactly under usable configurations. */
  lemma AlignedExactly(cfg: Config)
    ensures AgreeEverywhere(cfg) <==> Usable(cfg)
  {
    if Usable(cfg) {
      forall checks, statuses, headSha | forall s :: s in statuses ==> TrimmedLogin(s)
        ensures Resolve(checks, statuses, headSha, cfg) == Terminal.Resolve(checks, statuses, headSha, cfg)
      {
        SameAnswer(checks, statuses, headSha, cfg);
      }
    } else if Strip(cfg.checkAppSlug) == "" {
      BlankSlugDiffers(cfg);
    } else {
      UntrimmedActorDiffers(cfg);
    }
  }
}
