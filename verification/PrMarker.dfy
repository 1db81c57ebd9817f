/** The work-unit marker in a pull request's body, and the decision to reuse an open pull request
    (agent/pr.py, agent/reconcile.py). */
module PrMarker {
  import opened Prelude
  import opened Spec
  import opened PyText
  import opened CommentKeys

  const MARKER_START := "<!-- md-agent-work-unit"

  const MARKER_KEYS := [SpecId, SpecPath, SpecSha256, BaseBranch, TargetBranch]

  predicate MarkerField(key: Key) { key in {SpecId, SpecPath, SpecSha256, BaseBranch, TargetBranch} }

  type Fields = map<Key, string>

  /** One turn of the parser's loop: lines without a colon, unknown keys and empty values are
      skipped, a repeated field makes the whole marker invalid. */
  function ReadLine(fields: Fields, raw: string): Option<Fields> {
    match SplitField(Strip(raw))
    case None => Some(fields)
    case Some((name, value)) =>
      var key := KeyOf(name);
      if key.None? || !MarkerField(key.value) || value == "" then Some(fields)
      else if key.value in fields then None
      else Some(fields[key.value := value])
  }

  function ReadLines(fields: Fields, lines: seq<string>): Option<Fields>
    decreases |lines|
  {
    if lines == [] then Some(fields)
    else match ReadLine(fields, lines[0])
      case None => None
      case Some(next) => ReadLines(next, lines[1..])
  }

  function Interpret(fields: Fields): Option<Fields> {
    if SpecId in fields && BaseBranch in fields && TargetBranch in fields then Some(fields) else None
  }

  /** What `parse_work_unit_marker` returns. */
  function ParseMarker(body: string): Option<Fields> {
    match CommentBlock(body, MARKER_START)
    case None => None
    case Some(block) =>
      match ReadLines(map[], SplitLines(block))
      case None => None
      case Some(fields) => Interpret(fields)
  }

  /** `parse_work_unit_marker` */
  method ParseWorkUnitMarker(body: string) returns (r: Option<Fields>)
    ensures r == ParseMarker(body)
  {
    var block := CommentBlock(body, MARKER_START);
    if block.None? {
      return None;
    }
    var lines := SplitLines(block.value);
    var fields: Fields := map[];
    for i := 0 to |lines|
      invariant ReadLines(map[], lines) == ReadLines(fields, lines[i..])
    {
      assert lines[i..][0] == lines[i] && lines[i..][1..] == lines[i + 1..];
      var field := SplitField(Strip(lines[i]));
      if field.None? {
        continue;
      }
      var (name, value) := field.value;
      var key := KeyOf(name);
      if key.Some? && MarkerField(key.value) && value != "" {
        if key.value in fields {
          return None;
        }
        fields := fields[key.value := value];
      }
    }
    r := Interpret(fields);
  }

  function ValueOf(id: WorkUnitIdentity, key: Key): string
    requires MarkerField(key)
  {
    match key
    case SpecId => id.specId
    case SpecPath => id.specPath
    case SpecSha256 => id.specSha256
    case BaseBranch => id.baseBranch
    case TargetBranch => id.targetBranch
  }

  function KeyLines(id: WorkUnitIdentity, keys: seq<Key>): (lines: seq<string>)
    requires forall k :: k in keys ==> MarkerField(k)
    ensures |lines| == |keys|
    ensures forall i :: 0 <= i < |keys| ==> lines[i] == NameOf(keys[i]) + ": " + ValueOf(id, keys[i])
  {
    seq(|keys|, i requires 0 <= i < |keys| => NameOf(keys[i]) + ": " + ValueOf(id, keys[i]))
  }

  /** `build_work_unit_marker` */
  function BuildMarker(id: WorkUnitIdentity): string {
    JoinLines([MARKER_START] + KeyLines(id, MARKER_KEYS) + [COMMENT_END])
  }

  /** Identities a marker can carry. */
  ghost predicate Writable(id: WorkUnitIdentity) {
    forall k :: MarkerField(k) ==> ValueOf(id, k) != "" && Clean(ValueOf(id, k))
  }

  function FieldsOf(id: WorkUnitIdentity): Fields {
    map k | k in {SpecId, SpecPath, SpecSha256, BaseBranch, TargetBranch} :: ValueOf(id, k)
  }

  lemma ReadKeyLine(fields: Fields, key: Key, value: string)
    requires MarkerField(key) && key !in fields && value != "" && Clean(value)
    ensures ReadLine(fields, NameOf(key) + ": " + value) == Some(fields[key := value])
  {
    hide KeyOf, NameOf, Strip, SplitField, Field;
    KeyNames(key);
    FieldLine(NameOf(key), value);
  }

  lemma {:induction false} ReadKeyLines(fields: Fields, id: WorkUnitIdentity, keys: seq<Key>)
    requires Writable(id) && Distinct(keys) && forall k :: k in keys ==> MarkerField(k) && k !in fields
    ensures var r := ReadLines(fields, KeyLines(id, keys));
            && r.Some?
            && (forall k :: k in r.value <==> k in keys || k in fields)
            && (forall k :: k in keys ==> r.value[k] == ValueOf(id, k))
            && (forall k :: k in fields ==> r.value[k] == fields[k])
    decreases |keys|
  {
    hide ReadLine, NameOf, Clean;
    if keys == [] {
    } else {
      var key := keys[0];
      assert key in keys;
      ReadKeyLine(fields, key, ValueOf(id, key));
      assert KeyLines(id, keys)[1..] == KeyLines(id, keys[1..]);
      assert forall k :: k in keys <==> k == key || k in keys[1..];
      ReadKeyLines(fields[key := ValueOf(id, key)], id, keys[1..]);
    }
  }

  lemma KeysListed()
    ensures Distinct(MARKER_KEYS) && forall k: Key :: k in MARKER_KEYS <==> MarkerField(k)
  {
    forall k: Key | MarkerField(k) ensures k in MARKER_KEYS {
      var i := match k
        case SpecId => 0
        case SpecPath => 1
        case SpecSha256 => 2
        case BaseBranch => 3
        case _ => 4;
      assert MARKER_KEYS[i] == k;
    }
  }

  lemma MarkerText(id: WorkUnitIdentity)
    ensures BuildMarker(id) == MARKER_START + Unlines([""] + KeyLines(id, MARKER_KEYS)) + COMMENT_END
  {
    KeysListed();
    var lines := KeyLines(id, MARKER_KEYS);
    hide *;
    MarkerJoin(lines);
    MarkerIsJoin(id);
  }

  lemma MarkerIsJoin(id: WorkUnitIdentity)
    ensures BuildMarker(id) == JoinLines([MARKER_START] + KeyLines(id, MARKER_KEYS) + [COMMENT_END])
  {
  }

  lemma MarkerJoin(lines: seq<string>)
    ensures JoinLines([MARKER_START] + lines + [COMMENT_END]) == MARKER_START + Unlines([""] + lines) + COMMENT_END
  {
    JoinIsUnlines([MARKER_START] + lines, COMMENT_END);
    assert ([MARKER_START] + lines)[1..] == lines && ([""] + lines)[1..] == lines;
  }

  /** The marker reads back, whatever follows it in the body. */
  lemma ParseBuilt(id: WorkUnitIdentity, rest: string)
    requires Writable(id)
    ensures ParseMarker(BuildMarker(id) + rest) == Some(FieldsOf(id))
  {
    KeysListed();
    ReadMarkerLines(id);
    MarkerLinesInline(id);
    MarkerText(id);
    var lines := [""] + KeyLines(id, MARKER_KEYS);
    hide BuildMarker, KeyLines, ReadLines, SplitLines, Writable, FieldsOf, CommentBlock, Unlines;
    ReadBlock(MARKER_START, lines, rest);
    SplitUnlines(lines);
  }

  lemma ReadMarkerLines(id: WorkUnitIdentity)
    requires Writable(id) && forall k :: k in MARKER_KEYS ==> MarkerField(k)
    ensures ReadLines(map[], [""] + KeyLines(id, MARKER_KEYS)) == Some(FieldsOf(id))
    ensures Interpret(FieldsOf(id)) == Some(FieldsOf(id))
  {
    KeysListed();
    ReadAfterBlank(KeyLines(id, MARKER_KEYS));
    ReadKeyLines(map[], id, MARKER_KEYS);
    FieldsFromKeys(id, ReadLines(map[], KeyLines(id, MARKER_KEYS)).value);
  }

  lemma FieldsFromKeys(id: WorkUnitIdentity, read: Fields)
    requires forall k :: k in read <==> MarkerField(k)
    requires forall k :: k in read ==> read[k] == ValueOf(id, k)
    ensures read == FieldsOf(id)
  {
    hide ValueOf;
  }

  lemma ReadAfterBlank(lines: seq<string>)
    ensures ReadLines(map[], [""] + lines) == ReadLines(map[], lines)
  {
    assert ([""] + lines)[1..] == lines;
    assert Strip("") == "" && SplitField("") == None;
  }

  lemma MarkerLinesInline(id: WorkUnitIdentity)
    requires Writable(id)
    ensures forall l :: l in [""] + KeyLines(id, MARKER_KEYS) ==> Inline(l)
  {
    KeysListed();
    assert Inline("");
    forall i | 0 <= i < |MARKER_KEYS| ensures Inline(KeyLines(id, MARKER_KEYS)[i]) {
      var key := MARKER_KEYS[i];
      assert key in MARKER_KEYS;
      KeyNames(key);
      FieldLineInline(NameOf(key), ValueOf(id, key));
    }
  }

  /** An open pull request as GitHub lists it. */
  datatype Pull = Pull(number: int, headRef: string, baseRef: string, body: string)

  datatype OpenPull = Create | Reuse(pull: Pull)

  /** `_pull_ref`: a blank ref counts as missing. */
  function PullRef(ref: string): Option<string> {
    if Strip(ref) == "" then None else Some(ref)
  }

  /** `is_same_work_unit_pull` */
  predicate SameWorkUnit(spec: TaskSpec, pull: Pull) {
    var marker := ParseMarker(pull.body);
    && marker.Some?
    && Interpret(marker.value).Some?
    && marker.value[SpecId] == spec.id
    && marker.value[BaseBranch] == spec.baseBranch
    && marker.value[TargetBranch] == spec.targetBranch
    && PullRef(pull.headRef) == Some(spec.targetBranch)
    && PullRef(pull.baseRef) == Some(spec.baseBranch)
  }

  const PR_MISMATCH := AgentError(EscalationRequired, Other("WORK_UNIT_PR_MISMATCH"))
  const IDENTITY_MISMATCH := AgentError(EscalationRequired, Other("SPEC_IDENTITY_MISMATCH"))

  function Lookup(fields: Fields, key: Key): string {
    if key in fields then fields[key] else ""
  }

  /** `assert_spec_matches_marker` */
  function MatchesMarker(spec: TaskSpec, marker: Fields): Result<(), AgentError> {
    var id :- IdentityOf(spec);
    if Lookup(marker, SpecPath) == "" || Lookup(marker, SpecSha256) == "" then Err(IDENTITY_MISMATCH)
    else if SpecId !in marker || marker[SpecId] != id.specId || marker[SpecPath] != id.specPath
         || marker[SpecSha256] != id.specSha256
         || BaseBranch !in marker || marker[BaseBranch] != id.baseBranch
         || TargetBranch !in marker || marker[TargetBranch] != id.targetBranch then Err(IDENTITY_MISMATCH)
    else Ok(())
  }

  /** `authorize_work_unit_reuse` */
  function AuthorizeReuse(spec: TaskSpec, pull: Pull): Result<(), AgentError> {
    match ParseMarker(pull.body)
    case None => Err(PR_MISMATCH)
    case Some(marker) => MatchesMarker(spec, marker)
  }

  /** `reconcile_open_pull` on the open pulls whose head is the spec's target branch. */
  function ReconcileOpenPull(spec: TaskSpec, pulls: seq<Pull>): Result<OpenPull, AgentError> {
    if |pulls| > 1 then Err(AgentError(EscalationRequired, UnsafeReconcile))
    else if pulls == [] then Ok(Create)
    else if !SameWorkUnit(spec, pulls[0]) then Err(PR_MISMATCH)
    else
      var _ :- AuthorizeReuse(spec, pulls[0]);
      Ok(Reuse(pulls[0]))
  }

  /** The marker of `id` matches exactly the specs of that identity. */
  lemma MatchesOwnIdentity(id: WorkUnitIdentity, other: TaskSpec)
    requires id.specPath != "" && id.specSha256 != ""
    ensures MatchesMarker(other, FieldsOf(id)) == Ok(()) <==> IdentityOf(other) == Ok(id)
  {
  }

  lemma CandidateOfIdentity(id: WorkUnitIdentity, other: TaskSpec, pull: Pull)
    requires ParseMarker(pull.body) == Some(FieldsOf(id))
    requires pull.headRef == id.targetBranch && pull.baseRef == id.baseBranch
    requires Strip(id.targetBranch) != "" && Strip(id.baseBranch) != ""
    requires IdentityOf(other) == Ok(id)
    ensures SameWorkUnit(other, pull)
  {
    hide ParseMarker, Strip;
  }

  lemma WritableValues(id: WorkUnitIdentity)
    requires Writable(id)
    ensures id.specPath != "" && id.specSha256 != ""
    ensures Strip(id.targetBranch) != "" && Strip(id.baseBranch) != ""
  {
    forall k | MarkerField(k) ensures ValueOf(id, k) != "" && Strip(ValueOf(id, k)) == ValueOf(id, k) {
    }
    assert ValueOf(id, SpecPath) == id.specPath && ValueOf(id, SpecSha256) == id.specSha256;
    assert ValueOf(id, TargetBranch) == id.targetBranch && ValueOf(id, BaseBranch) == id.baseBranch;
  }

  /** A pull request opened by a delivery of `spec`, whatever its body says after the marker, is
      reused by exactly the specs with the same five identity fields. */
  lemma ReuseExactlySameIdentity(spec: TaskSpec, id: WorkUnitIdentity, rest: string, number: int, other: TaskSpec)
    requires IdentityOf(spec) == Ok(id) && Writable(id)
    ensures var pull := Pull(number, spec.targetBranch, spec.baseBranch, BuildMarker(id) + rest);
            ReconcileOpenPull(other, [pull]) == Ok(Reuse(pull)) <==> IdentityOf(other) == Ok(id)
  {
    var pull := Pull(number, spec.targetBranch, spec.baseBranch, BuildMarker(id) + rest);
    ParseBuilt(id, rest);
    WritableValues(id);
    MatchesOwnIdentity(id, other);
    assert spec.targetBranch == id.targetBranch && spec.baseBranch == id.baseBranch;
    hide ParseMarker, BuildMarker, FieldsOf, MatchesMarker, SameWorkUnit, Writable, Strip, IdentityOf;
    if IdentityOf(other) == Ok(id) {
      CandidateOfIdentity(id, other, pull);
    }
  }

  function SpecValue(spec: TaskSpec, key: Key): string
    requires MarkerField(key)
  {
    match key
    case SpecId => spec.id
    case SpecPath => spec.sourcePath
    case SpecSha256 => spec.specSha256
    case BaseBranch => spec.baseBranch
    case TargetBranch => spec.targetBranch
  }

  /** The pull request goes from the target to the base branch of the spec, neither of them blank. */
  predicate BetweenBranches(spec: TaskSpec, pull: Pull) {
    && pull.headRef == spec.targetBranch && Strip(pull.headRef) != ""
    && pull.baseRef == spec.baseBranch && Strip(pull.baseRef) != ""
  }

  /** Its body has a readable marker, and there those of the given fields stand as in the spec. */
  predicate Carries(spec: TaskSpec, pull: Pull, key: Key)
    requires MarkerField(key)
  {
    var marker := ParseMarker(pull.body);
    marker.Some? && key in marker.value && marker.value[key] == SpecValue(spec, key)
  }

  /** Taken for the work unit at all: by its branches, and by the name and branches in its marker. */
  predicate Candidate(spec: TaskSpec, pull: Pull) {
    BetweenBranches(spec, pull)
    && Carries(spec, pull, SpecId) && Carries(spec, pull, BaseBranch) && Carries(spec, pull, TargetBranch)
  }

  /** The same work unit: the spec is bound to a path and a digest, and the marker has these too. */
  predicate SameUnit(spec: TaskSpec, pull: Pull) {
    Candidate(spec, pull) && spec.sourcePath != "" && spec.specSha256 != ""
    && Carries(spec, pull, SpecPath) && Carries(spec, pull, SpecSha256)
  }

  lemma ParsedMarkerHas(body: string)
    ensures ParseMarker(body).Some? ==>
              SpecId in ParseMarker(body).value && BaseBranch in ParseMarker(body).value
              && TargetBranch in ParseMarker(body).value
              && Interpret(ParseMarker(body).value).Some?
  {
    hide CommentBlock, ReadLines, SplitLines;
  }

  lemma CandidateExactly(spec: TaskSpec, pull: Pull)
    ensures SameWorkUnit(spec, pull) <==> Candidate(spec, pull)
  {
    ParsedMarkerHas(pull.body);
    hide ParseMarker, Interpret, Strip;
  }

  lemma AuthorizeExactly(spec: TaskSpec, pull: Pull)
    requires Candidate(spec, pull)
    ensures AuthorizeReuse(spec, pull) == if SameUnit(spec, pull) then Ok(()) else Err(IDENTITY_MISMATCH)
  {
    hide ParseMarker, BetweenBranches;
  }

  /** Every answer of reconciling, told from the branches and the marker of the open pull requests. */
  lemma ReconcileExactly(spec: TaskSpec, pulls: seq<Pull>, pull: Pull)
    ensures var r := ReconcileOpenPull(spec, pulls);
            && (r == Ok(Create) <==> pulls == [])
            && (r == Ok(Reuse(pull)) <==> pulls == [pull] && SameUnit(spec, pull))
            && (r == Err(AgentError(EscalationRequired, UnsafeReconcile)) <==> |pulls| > 1)
            && (r == Err(PR_MISMATCH) <==> |pulls| == 1 && !Candidate(spec, pulls[0]))
            && (r == Err(IDENTITY_MISMATCH) <==>
                  |pulls| == 1 && Candidate(spec, pulls[0]) && !SameUnit(spec, pulls[0]))
  {
    if pulls != [] {
      CandidateExactly(spec, pulls[0]);
      if Candidate(spec, pulls[0]) {
        AuthorizeExactly(spec, pulls[0]);
      }
      assert SameUnit(spec, pulls[0]) ==> Candidate(spec, pulls[0]);
    }
    hide SameWorkUnit, AuthorizeReuse, Candidate, SameUnit;
  }
}
