/** The review tracking comment: printer and parser (agent/review_track.py). */
module ReviewTrack {
  import opened Prelude
  import opened Spec
  import opened PyText
  import opened PyInt
  import opened CommentKeys

  const FOOTER := "Orchestrator review tracking. Do not edit."
  const STATE_START := "<!-- md-agent-review-state"
  const SCHEMA_VERSION: nat := 2

  datatype Track = Track(
    specId: string,
    specPath: string,
    specSha256: string,
    baseBranch: string,
    targetBranch: string,
    reviewAttempts: nat,
    processed: seq<string>,
    headSha: string)

  /** The parser's local variables. */
  datatype Reading = Reading(fields: map<Key, string>, processed: seq<string>, inProcessed: bool)

  /** One turn of the parser's loop. */
  function ReadLine(st: Reading, raw: string): Option<Reading> {
    var line := Strip(raw);
    if line == "" then Some(st)
    else if line == "processed:" then Some(st.(inProcessed := true))
    else if |line| >= 2 && line[..2] == "- " && st.inProcessed then
      var identity := Strip(line[2..]);
      Some(if identity == "" then st else st.(processed := st.processed + [identity]))
    else match SplitField(line)
      case None => None
      case Some((name, value)) =>
        var key := KeyOf(name);
        if key.None? || key.value in st.fields then None
        else Some(st.(inProcessed := false, fields := st.fields[key.value := value]))
  }

  function ReadLines(st: Reading, lines: seq<string>): Option<Reading>
    decreases |lines|
  {
    if lines == [] then Some(st)
    else match ReadLine(st, lines[0])
      case None => None
      case Some(next) => ReadLines(next, lines[1..])
  }

  const NOTHING_READ := Reading(map[], [], false)

  function Get(fields: map<Key, string>, key: Key, default: string): string {
    if key in fields then fields[key] else default
  }

  /** What the parser makes of the fields it has read. */
  function Interpret(st: Reading): Option<Track> {
    var f := st.fields;
    if Get(f, SchemaVersion, "") != Decimal(SCHEMA_VERSION) then None
    else if Get(f, SpecId, "") == "" || Get(f, SpecPath, "") == "" || Get(f, SpecSha256, "") == ""
         || Get(f, BaseBranch, "") == "" || Get(f, TargetBranch, "") == "" then None
    else
      var attempts := ParseInt(Get(f, ReviewAttempts, "0"));
      if attempts.None? || attempts.value < 0 then None
      else Some(Track(f[SpecId], f[SpecPath], f[SpecSha256], f[BaseBranch], f[TargetBranch],
                      attempts.value, st.processed, Get(f, HeadSha, "")))
  }

  /** What `parse_review_track` returns. */
  function Parse(body: string): Option<Track> {
    match CommentBlock(body, STATE_START)
    case None => None
    case Some(block) =>
      match ReadLines(NOTHING_READ, SplitLines(block))
      case None => None
      case Some(st) => Interpret(st)
  }

  /** `parse_review_track`: the loop over the block's lines. */
  method ParseReviewTrack(body: string) returns (r: Option<Track>)
    ensures r == Parse(body)
  {
    var block := CommentBlock(body, STATE_START);
    if block.None? {
      return None;
    }
    var lines := SplitLines(block.value);
    var fields: map<Key, string>, processed: seq<string>, inProcessed := map[], [], false;
    for i := 0 to |lines|
      invariant ReadLines(NOTHING_READ, lines) == ReadLines(Reading(fields, processed, inProcessed), lines[i..])
    {
      assert lines[i..][0] == lines[i] && lines[i..][1..] == lines[i + 1..];
      var line := Strip(lines[i]);
      if line == "" {
        continue;
      }
      if line == "processed:" {
        inProcessed := true;
        continue;
      }
      if |line| >= 2 && line[..2] == "- " && inProcessed {
        var identity := Strip(line[2..]);
        if identity != "" {
          processed := processed + [identity];
        }
        continue;
      }
      inProcessed := false;
      var field := SplitField(line);
      if field.None? {
        return None;
      }
      var (name, value) := field.value;
      var key := KeyOf(name);
      if key.None? || key.value in fields {
        return None;
      }
      fields := fields[key.value := value];
    }
    r := Interpret(Reading(fields, processed, inProcessed));
  }

  function Bullets(processed: seq<string>): (lines: seq<string>)
    ensures |lines| == |processed|
    ensures forall i :: 0 <= i < |processed| ==> lines[i] == "- " + processed[i]
  {
    seq(|processed|, i requires 0 <= i < |processed| => "- " + processed[i])
  }

  const WRITTEN_KEYS := [SchemaVersion, SpecId, SpecPath, SpecSha256, BaseBranch, TargetBranch, HeadSha, ReviewAttempts]

  function ValueOf(t: Track, key: Key): string {
    match key
    case SchemaVersion => Decimal(SCHEMA_VERSION)
    case SpecId => t.specId
    case SpecPath => t.specPath
    case SpecSha256 => t.specSha256
    case BaseBranch => t.baseBranch
    case TargetBranch => t.targetBranch
    case HeadSha => t.headSha
    case ReviewAttempts => Decimal(t.reviewAttempts)
  }

  function KeyLines(t: Track, keys: seq<Key>): (lines: seq<string>)
    ensures |lines| == |keys|
    ensures forall i :: 0 <= i < |keys| ==> lines[i] == NameOf(keys[i]) + ": " + ValueOf(t, keys[i])
  {
    seq(|keys|, i requires 0 <= i < |keys| => NameOf(keys[i]) + ": " + ValueOf(t, keys[i]))
  }

  function FieldLines(t: Track): seq<string> { KeyLines(t, WRITTEN_KEYS) }

  /** What `render_review_track` returns. */
  function Render(t: Track): string {
    JoinLines([STATE_START] + FieldLines(t) + ["processed:"] + Bullets(t.processed)
              + [COMMENT_END, "", FOOTER])
  }

  /** `render_review_track`: the identities are appended one by one. */
  method RenderReviewTrack(t: Track) returns (body: string)
    ensures body == Render(t)
  {
    var lines := [STATE_START] + FieldLines(t) + ["processed:"];
    for i := 0 to |t.processed|
      invariant lines == [STATE_START] + FieldLines(t) + ["processed:"] + Bullets(t.processed)[..i]
    {
      lines := lines + ["- " + t.processed[i]];
    }
    lines := lines + [COMMENT_END];
    lines := lines + [""];
    lines := lines + [FOOTER];
    assert lines == [STATE_START] + FieldLines(t) + ["processed:"] + Bullets(t.processed) + [COMMENT_END, "", FOOTER];
    body := JoinLines(lines);
  }

  /** Tracks that a comment can carry: trimmed single-line values without `-->`, and the five
      identity fields and every processed identity not empty. */
  ghost predicate Printable(t: Track) {
    && t.specId != "" && t.specPath != "" && t.specSha256 != "" && t.baseBranch != "" && t.targetBranch != ""
    && Clean(t.specId) && Clean(t.specPath) && Clean(t.specSha256) && Clean(t.baseBranch) && Clean(t.targetBranch)
    && Clean(t.headSha)
    && forall p :: p in t.processed ==> p != "" && Clean(p)
  }

  lemma ValuesClean(t: Track, key: Key)
    requires Printable(t)
    ensures Clean(ValueOf(t, key))
  {
    ParseDecimal(SCHEMA_VERSION);
    ParseDecimal(t.reviewAttempts);
  }

  lemma FieldIsNoHeading(name: string, value: string)
    requires IsKey(name) && Trimmed(value) && name != "processed"
    ensures Field(name, value) != "processed:" && Field(name, value) != ""
  {
    hide Strip, ColonAt, SplitField, Field;
    FieldLine(name, value);
    FieldLine("processed", "");
    HeadingField(name, value);
  }

  lemma HeadingField(name: string, value: string)
    ensures Field("processed", "") == "processed:" && Field(name, value) != ""
  {
  }

  lemma ReadField(st: Reading, key: Key, value: string)
    requires !st.inProcessed && key !in st.fields && Clean(value)
    ensures ReadLine(st, NameOf(key) + ": " + value) == Some(st.(fields := st.fields[key := value]))
  {
    hide KeyOf, NameOf, Strip, SplitField, Field;
    KeyNames(key);
    FieldLine(NameOf(key), value);
    FieldIsNoHeading(NameOf(key), value);
  }

  lemma ReadBullet(st: Reading, identity: string)
    requires st.inProcessed && identity != "" && Clean(identity)
    ensures ReadLine(st, "- " + identity) == Some(st.(processed := st.processed + [identity]))
  {
    var line := "- " + identity;
    assert line[|line| - 1] == identity[|identity| - 1] && Trimmed(line);
    assert line[..2] == "- " && line[2..] == identity;
    assert line[0] != "processed:"[0];
  }

  lemma {:induction false} ReadAppend(st: Reading, a: seq<string>, b: seq<string>)
    requires ReadLines(st, a).Some?
    ensures ReadLines(st, a + b) == ReadLines(ReadLines(st, a).value, b)
    decreases |a|
  {
    if a == [] {
      assert a + b == b;
    } else {
      assert (a + b)[1..] == a[1..] + b;
      ReadAppend(ReadLine(st, a[0]).value, a[1..], b);
    }
  }

  /** Reading written key lines records exactly the written values. */
  lemma {:induction false} ReadKeyLines(st: Reading, t: Track, keys: seq<Key>)
    requires Printable(t) && !st.inProcessed && Distinct(keys) && forall k :: k in keys ==> k !in st.fields
    ensures var r := ReadLines(st, KeyLines(t, keys));
            && r.Some? && r.value.processed == st.processed && !r.value.inProcessed
            && (forall k :: k in r.value.fields <==> k in keys || k in st.fields)
            && (forall k :: k in keys ==> r.value.fields[k] == ValueOf(t, k))
            && (forall k :: k in st.fields ==> r.value.fields[k] == st.fields[k])
    decreases |keys|
  {
    hide ReadLine, NameOf, ValueOf, Printable;
    if keys == [] {
    } else {
      var key := keys[0];
      ValuesClean(t, key);
      ReadField(st, key, ValueOf(t, key));
      assert KeyLines(t, keys)[1..] == KeyLines(t, keys[1..]);
      assert forall k :: k in keys <==> k == key || k in keys[1..];
      assert key !in keys[1..];
      ReadKeyLines(st.(fields := st.fields[key := ValueOf(t, key)]), t, keys[1..]);
    }
  }

  lemma {:induction false} ReadBullets(st: Reading, identities: seq<string>)
    requires st.inProcessed && forall p :: p in identities ==> p != "" && Clean(p)
    ensures ReadLines(st, Bullets(identities)) == Some(st.(processed := st.processed + identities))
    decreases |identities|
  {
    hide ReadLine, Clean;
    if identities == [] {
      assert st.processed + [] == st.processed;
    } else {
      assert identities[0] in identities;
      ReadBullet(st, identities[0]);
      assert Bullets(identities)[1..] == Bullets(identities[1..]);
      assert forall p :: p in identities[1..] ==> p in identities;
      ReadBullets(st.(processed := st.processed + [identities[0]]), identities[1..]);
      assert st.processed + identities == st.processed + [identities[0]] + identities[1..];
    }
  }

  /** The lines between the markers. */
  function BodyLines(t: Track): seq<string> {
    [""] + FieldLines(t) + ["processed:"] + Bullets(t.processed)
  }

  lemma ReadFields(t: Track)
    requires Printable(t)
    ensures var st := ReadLines(NOTHING_READ, FieldLines(t));
            && st.Some? && st.value.processed == [] && !st.value.inProcessed
            && forall k :: k in st.value.fields && st.value.fields[k] == ValueOf(t, k)
  {
    AllKeysWritten();
    hide ValueOf, Printable;
    ReadKeyLines(NOTHING_READ, t, WRITTEN_KEYS);
  }

  lemma ReadIdentities(st: Reading, t: Track)
    requires Printable(t) && !st.inProcessed && st.processed == []
    ensures ReadLines(st, ["processed:"] + Bullets(t.processed)) ==
        Some(st.(processed := t.processed, inProcessed := true))
  {
    PrintableIdentities(t);
    ReadHeading(st);
    hide ReadLine, Printable, Bullets;
    assert (["processed:"] + Bullets(t.processed))[1..] == Bullets(t.processed);
    ReadBullets(st.(inProcessed := true), t.processed);
    assert [] + t.processed == t.processed;
  }

  lemma ReadBody(t: Track)
    requires Printable(t)
    ensures var st := ReadLines(NOTHING_READ, BodyLines(t));
            && st.Some? && st.value.processed == t.processed
            && forall k :: k in st.value.fields && st.value.fields[k] == ValueOf(t, k)
  {
    ReadFields(t);
    ReadIdentities(ReadLines(NOTHING_READ, FieldLines(t)).value, t);
    hide *;
    ReadAppend(NOTHING_READ, FieldLines(t), ["processed:"] + Bullets(t.processed));
    ReadBlankFirst(FieldLines(t) + (["processed:"] + Bullets(t.processed)));
    BodyShape(t);
  }

  lemma ReadBlankFirst(lines: seq<string>)
    ensures ReadLines(NOTHING_READ, [""] + lines) == ReadLines(NOTHING_READ, lines)
  {
    assert ([""] + lines)[1..] == lines;
  }

  lemma BodyShape(t: Track)
    ensures BodyLines(t) == [""] + (FieldLines(t) + (["processed:"] + Bullets(t.processed)))
  {
    hide FieldLines, Bullets;
  }

  lemma PrintableIdentities(t: Track)
    requires Printable(t)
    ensures forall p :: p in t.processed ==> p != "" && Clean(p)
  {
  }

  lemma AllKeysWritten()
    ensures Distinct(WRITTEN_KEYS) && forall k: Key :: k in WRITTEN_KEYS
  {
    forall k: Key ensures k in WRITTEN_KEYS {
      var i := match k
        case SchemaVersion => 0
        case SpecId => 1
        case SpecPath => 2
        case SpecSha256 => 3
        case BaseBranch => 4
        case TargetBranch => 5
        case HeadSha => 6
        case ReviewAttempts => 7;
      assert WRITTEN_KEYS[i] == k;
    }
  }

  lemma ReadHeading(st: Reading)
    ensures ReadLine(st, "processed:") == Some(st.(inProcessed := true))
  {
    assert Trimmed("processed:");
  }

  lemma BodyInline(t: Track)
    requires Printable(t)
    ensures forall l :: l in BodyLines(t) ==> Inline(l)
  {
    PrintableIdentities(t);
    assert Inline("") && Inline("processed:");
    forall i | 0 <= i < |FieldLines(t)| ensures Inline(FieldLines(t)[i]) {
      var key := WRITTEN_KEYS[i];
      KeyNames(key);
      ValuesClean(t, key);
      FieldLineInline(NameOf(key), ValueOf(t, key));
    }
    forall i | 0 <= i < |t.processed| ensures Inline(Bullets(t.processed)[i]) {
      assert t.processed[i] in t.processed;
      BulletInline(t.processed[i]);
    }
    BodyParts(t);
  }

  lemma BodyParts(t: Track)
    ensures forall l :: l in BodyLines(t) ==>
              l == "" || l == "processed:" || l in FieldLines(t) || l in Bullets(t.processed)
  {
    hide FieldLines, Bullets;
  }

  lemma BulletInline(p: string)
    requires Inline(p)
    ensures Inline("- " + p)
  {
    var l := "- " + p;
    forall i: nat ensures !ClosesAt(l, i) {
      if i >= 2 {
        assert !ClosesAt(p, i - 2);
      }
    }
  }

  lemma UnlinesCons(l: string, rest: seq<string>)
    ensures Unlines([l] + rest) == l + "\n" + Unlines(rest)
  {
    assert ([l] + rest)[1..] == rest;
  }

  lemma RenderedText(t: Track)
    ensures Render(t) == STATE_START + Unlines(BodyLines(t)) + COMMENT_END + ("\n\n" + FOOTER)
  {
    hide FieldLines, Bullets, JoinLines, Unlines;
    var body := FieldLines(t) + ["processed:"] + Bullets(t.processed);
    assert BodyLines(t) == [""] + body;
    UnlinesCons("", body);
    var before := ([STATE_START] + body) + [COMMENT_END, ""];
    assert [STATE_START] + FieldLines(t) + ["processed:"] + Bullets(t.processed) + [COMMENT_END, "", FOOTER] ==
        before + [FOOTER];
    JoinIsUnlines(before, FOOTER);
    UnlinesConcat([STATE_START] + body, [COMMENT_END, ""]);
    UnlinesCons(STATE_START, body);
    EndLines();
    var text := Unlines(body);
    hide *;
    assert STATE_START + "\n" + text + (COMMENT_END + "\n\n") + FOOTER
        == STATE_START + ("" + "\n" + text) + COMMENT_END + ("\n\n" + FOOTER);
  }

  lemma EndLines()
    ensures Unlines([COMMENT_END, ""]) == COMMENT_END + "\n\n"
  {
    UnlinesCons(COMMENT_END, [""]);
    assert [COMMENT_END] + [""] == [COMMENT_END, ""];
    UnlinesCons("", []);
    assert [""] + [] == [""];
    assert Unlines([]) == "";
  }

  lemma InterpretWritten(t: Track, st: Reading)
    requires Printable(t) && st.processed == t.processed
    requires forall k :: k in st.fields && st.fields[k] == ValueOf(t, k)
    ensures Interpret(st) == Some(t)
  {
    ParseDecimal(t.reviewAttempts);
    hide Clean, Decimal, ParseInt;
    assert st.fields[SchemaVersion] == Decimal(SCHEMA_VERSION);
  }

  /** Printing and parsing again gives the same track. */
  lemma ParseRender(t: Track)
    requires Printable(t)
    ensures Parse(Render(t)) == Some(t)
  {
    RenderedText(t);
    BodyInline(t);
    assert |BodyLines(t)| > 0;
    hide BodyLines, ReadLines, Interpret, CommentBlock, SplitLines, Printable, Render;
    ReadBlock(STATE_START, BodyLines(t), "\n\n" + FOOTER);
    SplitUnlines(BodyLines(t));
    ReadBody(t);
    InterpretWritten(t, ReadLines(NOTHING_READ, BodyLines(t)).value);
  }

  ghost predicate CleanReading(st: Reading) {
    && (forall k :: k in st.fields ==> Clean(st.fields[k]))
    && forall p :: p in st.processed ==> p != "" && Clean(p)
  }

  lemma {:induction false} ReadingStaysClean(st: Reading, lines: seq<string>)
    requires CleanReading(st) && (forall l :: l in lines ==> Inline(l)) && ReadLines(st, lines).Some?
    ensures CleanReading(ReadLines(st, lines).value)
    decreases |lines|
  {
    if lines == [] {
    } else {
      var line := Strip(lines[0]);
      if |line| >= 2 {
        InlineTail(line, 2);
      }
      assert CleanReading(ReadLine(st, lines[0]).value);
      ReadingStaysClean(ReadLine(st, lines[0]).value, lines[1..]);
    }
  }

  /** Whatever comment a track was parsed from, the track is printable; so printing it and parsing
      again gives the same track. */
  lemma ParsedIsPrintable(body: string)
    requires Parse(body).Some?
    ensures Printable(Parse(body).value)
    ensures Parse(Render(Parse(body).value)) == Parse(body)
  {
    hide *;
    var block, st := ParsedFrom(body);
    LinesInline(block);
    NothingIsClean();
    ReadingStaysClean(NOTHING_READ, SplitLines(block));
    InterpretedIsPrintable(st);
    ParseRender(Parse(body).value);
  }

  /** The steps of a successful parse. */
  lemma ParsedFrom(body: string) returns (block: string, st: Reading)
    requires Parse(body).Some?
    ensures Unclosed(block) && ReadLines(NOTHING_READ, SplitLines(block)) == Some(st)
    ensures Interpret(st) == Parse(body)
  {
    hide ReadLines, Interpret, SplitLines, Unclosed;
    block := CommentBlock(body, STATE_START).value;
    st := ReadLines(NOTHING_READ, SplitLines(block)).value;
  }

  lemma EmptyIsClean()
    ensures Clean("")
  {
  }

  lemma NothingIsClean()
    ensures CleanReading(NOTHING_READ)
  {
  }

  lemma InterpretedIsPrintable(st: Reading)
    requires CleanReading(st) && Interpret(st).Some?
    ensures Printable(Interpret(st).value)
  {
    EmptyIsClean();
    hide Clean, ParseInt, Decimal;
  }

  /** The printable tracks are exactly the tracks some comment carries. */
  lemma PrintableExactly(t: Track)
    ensures Printable(t) <==> exists body :: Parse(body) == Some(t)
  {
    if Printable(t) {
      ParseRender(t);
    }
    if body :| Parse(body) == Some(t) {
      ParsedIsPrintable(body);
    }
  }
}
