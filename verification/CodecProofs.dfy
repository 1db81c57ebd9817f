/** Which texts are read as a tracking comment, and as what (agent/review_track.py). */
module CodecProofs {
  import opened Prelude
  import opened PyText
  import opened PyInt
  import opened CommentKeys
  import opened ReviewTrack

  /** `block` stands between the first start marker of the text and the first `-->` after it. */
  ghost predicate Between(body: string, start: string, block: string) {
    exists n: nat :: BlockAt(body, start, block, n)
  }

  ghost predicate BlockAt(body: string, start: string, block: string, n: nat) {
    && At(body, start, n) && (forall k: nat :: k < n ==> !At(body, start, k))
    && n + |start| + |block| <= |body| && body[n + |start|..n + |start| + |block|] == block
    && At(body, COMMENT_END, n + |start| + |block|)
    && forall k: nat :: n + |start| <= k < n + |start| + |block| ==> !At(body, COMMENT_END, k)
  }

  lemma FoundBlock(body: string, start: string, block: string, n: nat)
    requires BlockAt(body, start, block, n)
    ensures CommentBlock(body, start) == Some(block)
  {
    FindFirst(body, start, 0, n);
    FindFirst(body, COMMENT_END, n + |start|, n + |start| + |block|);
    hide Find, At;
  }

  lemma BlockFound(body: string, start: string)
    requires CommentBlock(body, start).Some?
    ensures Between(body, start, CommentBlock(body, start).value)
  {
    hide Find;
    var n := Find(body, start, 0).value;
    var end := Find(body, COMMENT_END, n + |start|).value;
    assert CommentBlock(body, start).value == body[n + |start|..end];
    assert BlockAt(body, start, body[n + |start|..end], n);
  }

  lemma BlockExactly(body: string, start: string, block: string)
    ensures CommentBlock(body, start) == Some(block) <==> Between(body, start, block)
  {
    hide CommentBlock, BlockAt;
    if n: nat :| BlockAt(body, start, block, n) {
      FoundBlock(body, start, block, n);
    }
    if CommentBlock(body, start) == Some(block) {
      BlockFound(body, start);
    }
  }

  /** The line says `value` of `key`: the first colon stands between them. */
  ghost predicate FieldIs(line: string, key: Key, value: string) {
    exists i :: 0 <= i < |line| && line[i] == ':' && ':' !in line[..i]
      && Strip(line[..i]) == NameOf(key) && Strip(line[i + 1..]) == value
  }

  lemma KeyOfExactly(name: string, key: Key)
    ensures KeyOf(name) == Some(key) <==> name == NameOf(key)
  {
    KeyOfName(key);
  }

  lemma NoColonBefore(line: string, i: nat, k: nat)
    requires k < i <= |line| && ':' !in line[..i]
    ensures line[k] != ':'
  {
    assert line[..i][k] == line[k];
  }

  lemma ColonIs(line: string, i: nat)
    requires i < |line| && line[i] == ':' && ':' !in line[..i]
    ensures ColonAt(line) == Some(i)
  {
    hide ColonAt;
    var at := ColonAt(line).value;
    if at < i {
      NoColonBefore(line, i, at);
    } else if i < at {
      NoColonBefore(line, at, i);
    }
  }

  lemma FieldSplits(line: string, key: Key, value: string, i: nat)
    requires i < |line| && line[i] == ':' && ':' !in line[..i]
    requires Strip(line[..i]) == NameOf(key) && Strip(line[i + 1..]) == value
    ensures SplitField(line) == Some((NameOf(key), value))
  {
    ColonIs(line, i);
    hide ColonAt, Strip, NameOf;
  }

  lemma SplitsField(line: string, key: Key, value: string)
    requires SplitField(line) == Some((NameOf(key), value))
    ensures FieldIs(line, key, value)
  {
    hide ColonAt, Strip, NameOf;
    var i := ColonAt(line).value;
    assert line[i] == ':' && ':' !in line[..i];
  }

  lemma FieldExactly(line: string, key: Key, value: string)
    ensures FieldIs(line, key, value) <==> SplitField(line) == Some((NameOf(key), value))
  {
    hide SplitField, Strip, NameOf;
    if FieldIs(line, key, value) {
      var i :| 0 <= i < |line| && line[i] == ':' && ':' !in line[..i]
               && Strip(line[..i]) == NameOf(key) && Strip(line[i + 1..]) == value;
      FieldSplits(line, key, value, i);
    }
    hide FieldIs;
    if SplitField(line) == Some((NameOf(key), value)) {
      SplitsField(line, key, value);
    }
  }

  /** The field that a line says, if it says one. */
  function FieldOf(raw: string): Option<(Key, string)> {
    match SplitField(Strip(raw))
    case None => None
    case Some((name, value)) => if KeyOf(name).Some? then Some((KeyOf(name).value, value)) else None
  }

  lemma FieldOfExactly(raw: string, key: Key, value: string)
    ensures FieldIs(Strip(raw), key, value) <==> FieldOf(raw) == Some((key, value))
  {
    var line := Strip(raw);
    FieldExactly(line, key, value);
    if SplitField(line).Some? {
      KeyOfExactly(SplitField(line).value.0, key);
    }
    hide Strip, SplitField, FieldIs, KeyOf, NameOf;
  }

  predicate Dash(line: string) { |line| >= 2 && line[..2] == "- " }

  /** Lines that leave a processed section going. */
  predicate Inside(raw: string) {
    var line := Strip(raw);
    line == "" || line == "processed:" || Dash(line)
  }

  /** Line `i` stands in a processed section: after a heading, and only such lines in between. */
  ghost predicate InSection(lines: seq<string>, i: nat) {
    exists j :: 0 <= j < i <= |lines| && Strip(lines[j]) == "processed:" && forall k :: j < k < i ==> Inside(lines[k])
  }

  ghost predicate IsBullet(lines: seq<string>, i: nat)
    requires i < |lines|
  {
    Dash(Strip(lines[i])) && InSection(lines, i)
  }

  /** Every other line that is not blank and no heading has to be a field. */
  ghost predicate IsField(lines: seq<string>, i: nat)
    requires i < |lines|
  {
    Strip(lines[i]) != "" && Strip(lines[i]) != "processed:" && !IsBullet(lines, i)
  }

  /** Field line `i` says `value` of `key`. */
  ghost predicate SaysAt(lines: seq<string>, i: nat, key: Key, value: string) {
    i < |lines| && IsField(lines, i) && FieldIs(Strip(lines[i]), key, value)
  }

  /** Some of the first `n` lines says it. */
  ghost predicate Says(lines: seq<string>, n: nat, key: Key, value: string) {
    exists i: nat :: i < n && SaysAt(lines, i, key, value)
  }

  ghost predicate Reads(lines: seq<string>, i: nat) {
    exists key, value :: SaysAt(lines, i, key, value)
  }

  /** Lines `i` and `j` say something of one key. */
  ghost predicate Repeats(lines: seq<string>, i: nat, j: nat) {
    exists key, v, w :: SaysAt(lines, i, key, v) && SaysAt(lines, j, key, w)
  }

  /** Line `i` is no field, or it reads and no line before it is about its key. */
  ghost predicate Fits(lines: seq<string>, i: nat)
    requires i < |lines|
  {
    IsField(lines, i) ==> Reads(lines, i) && forall j: nat :: j < i ==> !Repeats(lines, j, i)
  }

  /** Every field line reads, and no key is said twice. */
  ghost predicate Sound(lines: seq<string>, n: nat)
    requires n <= |lines|
  {
    forall i: nat :: i < n ==> Fits(lines, i)
  }

  /** The identities listed in the processed sections of the first `n` lines, in order. */
  ghost function Listed(lines: seq<string>, n: nat): seq<string>
    requires n <= |lines|
  {
    if n == 0 then []
    else
      var identity := if IsBullet(lines, n - 1) then Strip(Strip(lines[n - 1])[2..]) else "";
      Listed(lines, n - 1) + if identity == "" then [] else [identity]
  }

  ghost predicate FieldsHeld(lines: seq<string>, n: nat, fields: map<Key, string>) {
    forall key, value :: Says(lines, n, key, value) <==> key in fields && fields[key] == value
  }

  /** What the parser holds after `n` lines. */
  ghost predicate Held(lines: seq<string>, n: nat, st: Reading)
    requires n <= |lines|
  {
    FieldsHeld(lines, n, st.fields) && st.processed == Listed(lines, n) && (st.inProcessed <==> InSection(lines, n))
  }

  lemma SectionFrom(lines: seq<string>, i: nat, j: nat)
    requires j < i <= |lines| && Strip(lines[j]) == "processed:" && forall k :: j < k < i ==> Inside(lines[k])
    ensures InSection(lines, i)
  {
  }

  lemma SectionStep(lines: seq<string>, n: nat)
    requires n < |lines|
    ensures InSection(lines, n + 1) <==>
            Strip(lines[n]) == "processed:" || (Inside(lines[n]) && InSection(lines, n))
  {
    hide Strip, Inside;
    if Strip(lines[n]) == "processed:" {
      SectionFrom(lines, n + 1, n);
    } else if InSection(lines, n + 1) {
      var j :| 0 <= j < n + 1 && Strip(lines[j]) == "processed:" && forall k :: j < k < n + 1 ==> Inside(lines[k]);
      assert j < n && Inside(lines[n]);
    }
    if Inside(lines[n]) && InSection(lines, n) {
      var j :| 0 <= j < n && Strip(lines[j]) == "processed:" && forall k :: j < k < n ==> Inside(lines[k]);
      SectionFrom(lines, n + 1, j);
    }
  }

  lemma {:induction false} ReadOneMore(st: Reading, a: seq<string>, l: string)
    ensures ReadLines(st, a + [l]) ==
              match ReadLines(st, a) case None => None case Some(mid) => ReadLine(mid, l)
    decreases |a|
  {
    hide ReadLine;
    if a == [] {
      assert [] + [l] == [l] && [l][1..] == [];
    } else {
      assert (a + [l])[1..] == a[1..] + [l];
      if ReadLine(st, a[0]).Some? {
        ReadOneMore(ReadLine(st, a[0]).value, a[1..], l);
      }
    }
  }

  lemma SaysStep(lines: seq<string>, n: nat, key: Key, value: string)
    requires n < |lines|
    ensures Says(lines, n + 1, key, value) <==> Says(lines, n, key, value) || SaysAt(lines, n, key, value)
  {
    hide SaysAt;
  }

  /** A blank line, a heading or a bullet never fails. */
  lemma ReadOther(st: Reading, raw: string)
    ensures var line := Strip(raw);
            && (line == "" ==> ReadLine(st, raw) == Some(st))
            && (line == "processed:" ==> ReadLine(st, raw) == Some(st.(inProcessed := true)))
            && (Dash(line) && st.inProcessed ==>
                  ReadLine(st, raw) ==
                    Some(st.(processed := st.processed + if Strip(line[2..]) == "" then [] else [Strip(line[2..])])))
  {
    hide Strip, SplitField;
    DashIsNoHeading(Strip(raw));
    assert st.processed + [] == st.processed;
  }

  lemma DashIsNoHeading(line: string)
    ensures Dash(line) ==> line != "" && line != "processed:"
  {
    assert "processed:"[..2][0] != "- "[0];
  }

  lemma NoFieldSays(lines: seq<string>, n: nat)
    requires n < |lines| && !IsField(lines, n)
    ensures forall key, value :: !SaysAt(lines, n, key, value)
  {
    hide IsField, FieldIs;
  }

  lemma FieldsSame(lines: seq<string>, n: nat, fields: map<Key, string>)
    requires n < |lines| && !IsField(lines, n) && FieldsHeld(lines, n, fields)
    ensures FieldsHeld(lines, n + 1, fields)
  {
    NoFieldSays(lines, n);
    hide Says, SaysAt, IsField;
    var next := n + 1;
    forall key, value ensures Says(lines, next, key, value) <==> key in fields && fields[key] == value {
      SaysStep(lines, n, key, value);
    }
  }

  lemma FieldsMore(lines: seq<string>, n: nat, fields: map<Key, string>, key: Key, value: string)
    requires n < |lines| && FieldsHeld(lines, n, fields) && key !in fields
    requires forall k, v :: SaysAt(lines, n, k, v) <==> k == key && v == value
    ensures FieldsHeld(lines, n + 1, fields[key := value])
  {
    hide Says, SaysAt;
    var more, next := fields[key := value], n + 1;
    forall k, v ensures Says(lines, next, k, v) <==> k in more && more[k] == v {
      SaysStep(lines, n, k, v);
    }
  }

  /** One more line that is no field. */
  lemma OtherStep(lines: seq<string>, n: nat, st: Reading)
    requires n < |lines| && Held(lines, n, st) && !IsField(lines, n)
    ensures ReadLine(st, lines[n]).Some? && Held(lines, n + 1, ReadLine(st, lines[n]).value)
  {
    SectionStep(lines, n);
    FieldsSame(lines, n, st.fields);
    ReadOther(st, lines[n]);
    DashIsNoHeading(Strip(lines[n]));
    hide Strip, ReadLine, InSection, FieldsHeld, Dash;
  }

  lemma ReadFieldLine(st: Reading, raw: string)
    requires var line := Strip(raw);
             line != "" && line != "processed:" && !(Dash(line) && st.inProcessed)
    ensures ReadLine(st, raw) ==
              match FieldOf(raw)
              case None => None
              case Some((key, value)) =>
                if key in st.fields then None
                else Some(st.(inProcessed := false, fields := st.fields[key := value]))
  {
    hide Strip, SplitField, KeyOf;
  }

  lemma FieldSays(lines: seq<string>, n: nat, key: Key, value: string)
    requires n < |lines| && IsField(lines, n)
    ensures SaysAt(lines, n, key, value) <==> FieldOf(lines[n]) == Some((key, value))
  {
    FieldOfExactly(lines[n], key, value);
    hide IsField, FieldIs, FieldOf, Strip;
  }

  lemma FieldUnread(lines: seq<string>, n: nat)
    requires n < |lines| && IsField(lines, n) && FieldOf(lines[n]).None?
    ensures !Fits(lines, n)
  {
    forall key, value ensures !SaysAt(lines, n, key, value) {
      FieldSays(lines, n, key, value);
    }
    hide SaysAt, IsField;
  }

  lemma FieldTwice(lines: seq<string>, n: nat, fields: map<Key, string>, key: Key, value: string)
    requires n < |lines| && IsField(lines, n) && SaysAt(lines, n, key, value)
    requires FieldsHeld(lines, n, fields) && key in fields
    ensures !Fits(lines, n)
  {
    hide SaysAt, IsField, Reads;
    assert Says(lines, n, key, fields[key]);
    var j: nat :| j < n && SaysAt(lines, j, key, fields[key]);
    assert Repeats(lines, j, n);
  }

  lemma FieldOnce(lines: seq<string>, n: nat, fields: map<Key, string>, key: Key, value: string)
    requires n < |lines| && forall k, v :: SaysAt(lines, n, k, v) <==> k == key && v == value
    requires FieldsHeld(lines, n, fields) && key !in fields
    ensures Fits(lines, n)
  {
    hide SaysAt, IsField;
    assert SaysAt(lines, n, key, value);
    forall j: nat | j < n ensures !Repeats(lines, j, n) {
      if k, v, w :| SaysAt(lines, j, k, v) && SaysAt(lines, n, k, w) {
        SaidBefore(lines, n, j, k, v);
      }
    }
  }

  lemma SaidBefore(lines: seq<string>, n: nat, j: nat, key: Key, value: string)
    requires j < n && SaysAt(lines, j, key, value)
    ensures Says(lines, n, key, value)
  {
    hide SaysAt;
  }

  lemma FieldRead(lines: seq<string>, n: nat, fields: map<Key, string>, key: Key, value: string)
    requires n < |lines| && IsField(lines, n) && FieldOf(lines[n]) == Some((key, value)) && FieldsHeld(lines, n, fields)
    ensures Fits(lines, n) <==> key !in fields
    ensures key !in fields ==> FieldsHeld(lines, n + 1, fields[key := value])
  {
    forall k, v ensures SaysAt(lines, n, k, v) <==> k == key && v == value {
      FieldSays(lines, n, k, v);
    }
    hide *;
    if key in fields {
      FieldTwice(lines, n, fields, key, value);
    } else {
      FieldOnce(lines, n, fields, key, value);
      FieldsMore(lines, n, fields, key, value);
    }
  }

  lemma FieldLeavesSection(lines: seq<string>, n: nat)
    requires n < |lines| && IsField(lines, n)
    ensures !InSection(lines, n + 1) && Listed(lines, n + 1) == Listed(lines, n)
  {
    SectionStep(lines, n);
    hide Strip, InSection;
  }

  /** One more field line: it fits exactly when the parser goes on. */
  lemma FieldStep(lines: seq<string>, n: nat, st: Reading)
    requires n < |lines| && Held(lines, n, st) && IsField(lines, n)
    ensures Fits(lines, n) <==> ReadLine(st, lines[n]).Some?
    ensures Fits(lines, n) ==> Held(lines, n + 1, ReadLine(st, lines[n]).value)
  {
    hide *;
    HeldMeans(lines, n, st);
    IsFieldMeans(lines, n);
    ReadFieldLine(st, lines[n]);
    FieldLeavesSection(lines, n);
    match FieldOf(lines[n])
    case None => FieldUnread(lines, n);
    case Some((key, value)) =>
      FieldRead(lines, n, st.fields, key, value);
      if key !in st.fields {
        HeldIs(lines, n + 1, st.(inProcessed := false, fields := st.fields[key := value]));
      }
  }

  lemma IsFieldMeans(lines: seq<string>, n: nat)
    requires n < |lines| && IsField(lines, n)
    ensures var line := Strip(lines[n]);
            line != "" && line != "processed:" && !(Dash(line) && InSection(lines, n))
  {
    hide Strip, InSection, Dash;
  }

  lemma HeldMeans(lines: seq<string>, n: nat, st: Reading)
    requires n <= |lines| && Held(lines, n, st)
    ensures FieldsHeld(lines, n, st.fields) && st.processed == Listed(lines, n)
    ensures st.inProcessed <==> InSection(lines, n)
  {
    hide FieldsHeld, InSection, Listed;
  }

  lemma HeldIs(lines: seq<string>, n: nat, st: Reading)
    requires n <= |lines| && FieldsHeld(lines, n, st.fields) && st.processed == Listed(lines, n)
    requires st.inProcessed <==> InSection(lines, n)
    ensures Held(lines, n, st)
  {
    hide FieldsHeld, InSection, Listed;
  }

  lemma SoundStep(lines: seq<string>, n: nat)
    requires n < |lines|
    ensures Sound(lines, n + 1) <==> Sound(lines, n) && Fits(lines, n)
  {
    hide Fits;
  }

  lemma NothingHeld(lines: seq<string>)
    ensures Held(lines, 0, NOTHING_READ) && Sound(lines, 0)
  {
  }

  /** The parser goes on exactly while the lines are sound, and holds what they say. */
  lemma {:induction false} ReadsSoundLines(lines: seq<string>, n: nat)
    requires n <= |lines|
    ensures ReadLines(NOTHING_READ, lines[..n]).Some? <==> Sound(lines, n)
    ensures Sound(lines, n) ==> Held(lines, n, ReadLines(NOTHING_READ, lines[..n]).value)
    decreases n
  {
    if n == 0 {
      NothingHeld(lines);
    } else {
      assert lines[..n] == lines[..n - 1] + [lines[n - 1]];
      hide *;
      ReadsSoundLines(lines, n - 1);
      SoundStep(lines, n - 1);
      ReadOneMore(NOTHING_READ, lines[..n - 1], lines[n - 1]);
      if Sound(lines, n - 1) {
        var st := ReadLines(NOTHING_READ, lines[..n - 1]).value;
        if IsField(lines, n - 1) {
          FieldStep(lines, n - 1, st);
        } else {
          OtherStep(lines, n - 1, st);
          OtherFits(lines, n - 1);
        }
      }
    }
  }

  lemma OtherFits(lines: seq<string>, n: nat)
    requires n < |lines| && !IsField(lines, n)
    ensures Fits(lines, n)
  {
    hide IsField;
  }

  ghost predicate Unsaid(lines: seq<string>, key: Key) {
    forall value :: !Says(lines, |lines|, key, value)
  }

  /** What the lines between the markers have to say for `t`. */
  ghost predicate Tell(lines: seq<string>, t: Track) {
    && Sound(lines, |lines|)
    && Says(lines, |lines|, SchemaVersion, "2")
    && t.specId != "" && Says(lines, |lines|, SpecId, t.specId)
    && t.specPath != "" && Says(lines, |lines|, SpecPath, t.specPath)
    && t.specSha256 != "" && Says(lines, |lines|, SpecSha256, t.specSha256)
    && t.baseBranch != "" && Says(lines, |lines|, BaseBranch, t.baseBranch)
    && t.targetBranch != "" && Says(lines, |lines|, TargetBranch, t.targetBranch)
    && (|| (Unsaid(lines, ReviewAttempts) && t.reviewAttempts == 0)
        || exists text :: Says(lines, |lines|, ReviewAttempts, text) && ParseInt(text) == Some(t.reviewAttempts))
    && ((Unsaid(lines, HeadSha) && t.headSha == "") || Says(lines, |lines|, HeadSha, t.headSha))
    && t.processed == Listed(lines, |lines|)
  }

  predicate Has(fields: map<Key, string>, key: Key, value: string) { key in fields && fields[key] == value }

  /** The same about the fields held at the end. */
  predicate Gives(st: Reading, t: Track) {
    && Has(st.fields, SchemaVersion, "2")
    && t.specId != "" && Has(st.fields, SpecId, t.specId)
    && t.specPath != "" && Has(st.fields, SpecPath, t.specPath)
    && t.specSha256 != "" && Has(st.fields, SpecSha256, t.specSha256)
    && t.baseBranch != "" && Has(st.fields, BaseBranch, t.baseBranch)
    && t.targetBranch != "" && Has(st.fields, TargetBranch, t.targetBranch)
    && (if ReviewAttempts in st.fields then ParseInt(st.fields[ReviewAttempts]) == Some(t.reviewAttempts)
        else t.reviewAttempts == 0)
    && (if HeadSha in st.fields then st.fields[HeadSha] == t.headSha else t.headSha == "")
    && t.processed == st.processed
  }

  lemma InterpretGives(st: Reading, t: Track)
    ensures Interpret(st) == Some(t) <==> Gives(st, t)
  {
    TwoAndZero();
    hide ParseInt, Decimal;
  }

  lemma InterpretExactly(lines: seq<string>, st: Reading, t: Track)
    requires Sound(lines, |lines|) && Held(lines, |lines|, st)
    ensures Interpret(st) == Some(t) <==> Tell(lines, t)
  {
    hide *;
    HeldMeans(lines, |lines|, st);
    InterpretGives(st, t);
    GivesTells(lines, st, t);
  }

  lemma GivesTells(lines: seq<string>, st: Reading, t: Track)
    requires Sound(lines, |lines|) && FieldsHeld(lines, |lines|, st.fields) && st.processed == Listed(lines, |lines|)
    ensures Gives(st, t) <==> Tell(lines, t)
  {
    hide FieldsHeld, Sound, Says, Unsaid, Listed, ParseInt, Has;
    HeldSays(lines, st.fields, SchemaVersion, "2");
    HeldSays(lines, st.fields, SpecId, t.specId);
    HeldSays(lines, st.fields, SpecPath, t.specPath);
    HeldSays(lines, st.fields, SpecSha256, t.specSha256);
    HeldSays(lines, st.fields, BaseBranch, t.baseBranch);
    HeldSays(lines, st.fields, TargetBranch, t.targetBranch);
    HeadGiven(lines, st.fields, t.headSha);
    AttemptsGiven(lines, st.fields, t.reviewAttempts);
  }

  lemma HeadGiven(lines: seq<string>, fields: map<Key, string>, head: string)
    requires FieldsHeld(lines, |lines|, fields)
    ensures (if HeadSha in fields then fields[HeadSha] == head else head == "") <==>
            (Unsaid(lines, HeadSha) && head == "") || Says(lines, |lines|, HeadSha, head)
  {
    hide FieldsHeld, Says, Unsaid;
    HeldUnsaid(lines, fields, HeadSha);
    HeldSays(lines, fields, HeadSha, head);
  }

  lemma AttemptsGiven(lines: seq<string>, fields: map<Key, string>, attempts: nat)
    requires FieldsHeld(lines, |lines|, fields)
    ensures (if ReviewAttempts in fields then ParseInt(fields[ReviewAttempts]) == Some(attempts)
             else attempts == 0) <==>
            (|| (Unsaid(lines, ReviewAttempts) && attempts == 0)
             || exists text :: Says(lines, |lines|, ReviewAttempts, text) && ParseInt(text) == Some(attempts))
  {
    hide FieldsHeld, Says, Unsaid, ParseInt;
    HeldUnsaid(lines, fields, ReviewAttempts);
    if text :| Says(lines, |lines|, ReviewAttempts, text) && ParseInt(text) == Some(attempts) {
      HeldSays(lines, fields, ReviewAttempts, text);
    }
    if ReviewAttempts in fields {
      HeldSays(lines, fields, ReviewAttempts, fields[ReviewAttempts]);
    }
  }

  lemma HeldUnsaid(lines: seq<string>, fields: map<Key, string>, key: Key)
    requires FieldsHeld(lines, |lines|, fields)
    ensures Unsaid(lines, key) <==> key !in fields
  {
    hide Says;
    if key in fields {
      assert Says(lines, |lines|, key, fields[key]);
    }
  }

  lemma HeldSays(lines: seq<string>, fields: map<Key, string>, key: Key, value: string)
    requires FieldsHeld(lines, |lines|, fields)
    ensures Says(lines, |lines|, key, value) <==> Has(fields, key, value)
  {
    hide Says;
  }

  lemma TwoAndZero()
    ensures Decimal(SCHEMA_VERSION) == "2" && ParseInt("0") == Some(0)
  {
    assert Decimal(0) == "0";
    ParseDecimal(0);
  }

  /** A text is read as the track `t` exactly when its first comment block tells it: every line is
      blank, a heading, an identity in a processed section or a field with a known key, no key comes
      twice, the version is 2, the five identity fields are given, attempts and head may be missing. */
  lemma TrackParsesExactly(body: string, t: Track)
    ensures Parse(body) == Some(t) <==>
            exists block :: Between(body, STATE_START, block) && Tell(SplitLines(block), t)
  {
    hide *;
    forall block ensures Between(body, STATE_START, block) <==> CommentBlock(body, STATE_START) == Some(block) {
      BlockExactly(body, STATE_START, block);
    }
    ParseShape(body);
    if CommentBlock(body, STATE_START).Some? {
      var block := CommentBlock(body, STATE_START).value;
      LinesTell(SplitLines(block), t);
    }
  }

  lemma ParseShape(body: string)
    ensures Parse(body) ==
              match CommentBlock(body, STATE_START)
              case None => None
              case Some(block) => Read(SplitLines(block))
  {
    hide CommentBlock, SplitLines, ReadLines, Interpret;
  }

  function Read(lines: seq<string>): Option<Track> {
    match ReadLines(NOTHING_READ, lines)
    case None => None
    case Some(st) => Interpret(st)
  }

  lemma LinesTell(lines: seq<string>, t: Track)
    ensures Read(lines) == Some(t) <==> Tell(lines, t)
  {
    ReadsSoundLines(lines, |lines|);
    assert lines[..|lines|] == lines;
    TellsSound(lines, t);
    hide ReadLines, Interpret, Tell, Sound, Held;
    if Sound(lines, |lines|) {
      InterpretExactly(lines, ReadLines(NOTHING_READ, lines).value, t);
    }
  }

  lemma TellsSound(lines: seq<string>, t: Track)
    ensures Tell(lines, t) ==> Sound(lines, |lines|)
  {
    hide Sound, Says, Unsaid;
  }
}
