/** The keys written in the orchestrator's HTML comments (agent/review_track.py, agent/pr.py). */
module CommentKeys {
  import opened Prelude
  import opened PyText

  datatype Key =
    SchemaVersion | SpecId | SpecPath | SpecSha256 | BaseBranch | TargetBranch | HeadSha | ReviewAttempts

  function NameOf(key: Key): string {
    match key
    case SchemaVersion => "schema_version"
    case SpecId => "spec_id"
    case SpecPath => "spec_path"
    case SpecSha256 => "spec_sha256"
    case BaseBranch => "base_branch"
    case TargetBranch => "target_branch"
    case HeadSha => "head_sha"
    case ReviewAttempts => "review_attempts"
  }

  /** `key in _KNOWN_KEYS` */
  function KeyOf(name: string): Option<Key> {
    if name == "schema_version" then Some(SchemaVersion)
    else if name == "spec_id" then Some(SpecId)
    else if name == "spec_path" then Some(SpecPath)
    else if name == "spec_sha256" then Some(SpecSha256)
    else if name == "base_branch" then Some(BaseBranch)
    else if name == "target_branch" then Some(TargetBranch)
    else if name == "head_sha" then Some(HeadSha)
    else if name == "review_attempts" then Some(ReviewAttempts)
    else None
  }

  lemma KeyOfName(key: Key)
    ensures KeyOf(NameOf(key)) == Some(key)
  {
    match key
    case SchemaVersion =>
    case SpecId =>
    case SpecPath =>
    case SpecSha256 =>
    case BaseBranch => assert NameOf(key)[0] != "spec_sha256"[0];
    case TargetBranch =>
    case HeadSha =>
    case ReviewAttempts =>
  }

  lemma NameIsKey(key: Key)
    ensures IsKey(NameOf(key))
  {
  }

  lemma KeyNames(key: Key)
    ensures KeyOf(NameOf(key)) == Some(key)
    ensures IsKey(NameOf(key))
    ensures NameOf(key) != "processed"
  {
    KeyOfName(key);
    NameIsKey(key);
    assert KeyOf("processed") == None by {
      assert "processed"[0] == 'p' && "spec_path"[0] == 's';
    }
  }
}
