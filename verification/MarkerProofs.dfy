/** Which texts are read as a work-unit marker, and as what (agent/pr.py). */
module MarkerProofs {
  import opened Prelude
  import opened PyText
  import opened CommentKeys
  import opened PrMarker
  import opened CodecProofs

  /** Line `i` gives a value to a marker field; any other line is passed over. */
  ghost predicate GivesAt(lines: seq<string>, i: nat, key: Key, value: string) {
    i < |lines| && MarkerField(key) && value != "" && FieldIs(Strip(lines[i]), key, value)
  }

  ghost predicate Gives(lines: seq<string>, n: nat, key: Key, value: string) {
    exists i: nat :: i < n && GivesAt(lines, i, key, value)
  }

  ghost predicate Repeats(lines: seq<string>, i: nat, j: nat) {
    exists key, v, w :: GivesAt(lines, i, key, v) && GivesAt(lines, j, key, w)
  }

  /** No line before `i` is about its field. */
  ghost predicate Fits(lines: seq<string>, i: nat) {
    forall j: nat :: j < i ==> !Repeats(lines, j, i)
  }

  ghost predicate Sound(lines: seq<string>, n: nat) {
    forall i: nat :: i < n ==> Fits(lines, i)
  }

  ghost predicate Held(lines: seq<string>, n: nat, fields: Fields) {
    forall key, value :: Gives(lines, n, key, value) <==> key in fields && fields[key] == value
  }

  lemma {:induction false} ReadOneMore(fields: Fields, a: seq<string>, l: string)
    ensures ReadLines(fields, a + [l]) ==
              match ReadLines(fields, a) case None => None case Some(mid) => ReadLine(mid, l)
    decreases |a|
  {
    hide ReadLine;
    if a == [] {
      assert [] + [l] == [l] && [l][1..] == [];
    } else {
      assert (a + [l])[1..] == a[1..] + [l];
      if ReadLine(fields, a[0]).Some? {
        ReadOneMore(ReadLine(fields, a[0]).value, a[1..], l);
      }
    }
  }

  lemma GivesStep(lines: seq<string>, n: nat, key: Key, value: string)
    requires n < |lines|
    ensures Gives(lines, n + 1, key, value) <==> Gives(lines, n, key, value) || GivesAt(lines, n, key, value)
  {
    hide GivesAt;
  }

  /** The field a line gives, if it gives one. */
  function GivenBy(raw: string): Option<(Key, string)> {
    match SplitField(Strip(raw))
    case None => None
    case Some((name, value)) =>
      if KeyOf(name).Some? && MarkerField(KeyOf(name).value) && value != "" then Some((KeyOf(name).value, value))
      else None
  }

  lemma GivesAtExactly(lines: seq<string>, n: nat, key: Key, value: string)
    requires n < |lines|
    ensures GivesAt(lines, n, key, value) <==> GivenBy(lines[n]) == Some((key, value))
  {
    var line := Strip(lines[n]);
    FieldExactly(line, key, value);
    if SplitField(line).Some? {
      KeyOfExactly(SplitField(line).value.0, key);
    }
    hide Strip, SplitField, FieldIs, KeyOf, NameOf;
  }

  lemma ReadGiven(fields: Fields, raw: string)
    ensures ReadLine(fields, raw) ==
              match GivenBy(raw)
              case None => Some(fields)
              case Some((key, value)) => if key in fields then None else Some(fields[key := value])
  {
    hide Strip, SplitField, KeyOf;
  }

  lemma NothingGiven(lines: seq<string>, n: nat, fields: Fields)
    requires n < |lines| && Held(lines, n, fields) && GivenBy(lines[n]).None?
    ensures Held(lines, n + 1, fields) && Fits(lines, n)
  {
    forall key, value ensures !GivesAt(lines, n, key, value) {
      GivesAtExactly(lines, n, key, value);
    }
    hide Gives, GivesAt, GivenBy;
    var next := n + 1;
    forall key, value ensures Gives(lines, next, key, value) <==> key in fields && fields[key] == value {
      GivesStep(lines, n, key, value);
    }
  }

  lemma FieldGiven(lines: seq<string>, n: nat, fields: Fields, key: Key, value: string)
    requires n < |lines| && Held(lines, n, fields) && GivenBy(lines[n]) == Some((key, value))
    ensures Fits(lines, n) <==> key !in fields
    ensures key !in fields ==> Held(lines, n + 1, fields[key := value])
  {
    forall k, v ensures GivesAt(lines, n, k, v) <==> k == key && v == value {
      GivesAtExactly(lines, n, k, v);
    }
    hide GivesAt, GivenBy;
    if key in fields {
      assert Gives(lines, n, key, fields[key]);
      var j: nat :| j < n && GivesAt(lines, j, key, fields[key]);
      assert GivesAt(lines, n, key, value);
      assert Repeats(lines, j, n);
    } else {
      forall j: nat | j < n ensures !Repeats(lines, j, n) {
        forall k, v, w ensures !(GivesAt(lines, j, k, v) && GivesAt(lines, n, k, w)) {
          if GivesAt(lines, j, k, v) {
            assert Gives(lines, n, k, v);
          }
        }
      }
      hide Gives;
      var more, next := fields[key := value], n + 1;
      forall k, v ensures Gives(lines, next, k, v) <==> k in more && more[k] == v {
        GivesStep(lines, n, k, v);
      }
    }
  }

  lemma SoundStep(lines: seq<string>, n: nat)
    ensures Sound(lines, n + 1) <==> Sound(lines, n) && Fits(lines, n)
  {
    hide Fits;
  }

  lemma NothingHeld(lines: seq<string>)
    ensures Held(lines, 0, map[]) && Sound(lines, 0)
  {
  }

  /** The parser goes on exactly while no field comes twice, and holds what the lines give. */
  lemma {:induction false} ReadsSoundLines(lines: seq<string>, n: nat)
    requires n <= |lines|
    ensures ReadLines(map[], lines[..n]).Some? <==> Sound(lines, n)
    ensures Sound(lines, n) ==> Held(lines, n, ReadLines(map[], lines[..n]).value)
    decreases n
  {
    if n == 0 {
      NothingHeld(lines);
    } else {
      assert lines[..n] == lines[..n - 1] + [lines[n - 1]];
      hide *;
      ReadsSoundLines(lines, n - 1);
      SoundStep(lines, n - 1);
      ReadOneMore(map[], lines[..n - 1], lines[n - 1]);
      if Sound(lines, n - 1) {
        var fields := ReadLines(map[], lines[..n - 1]).value;
        ReadGiven(fields, lines[n - 1]);
        match GivenBy(lines[n - 1])
        case None => NothingGiven(lines, n - 1, fields);
        case Some((key, value)) => FieldGiven(lines, n - 1, fields, key, value);
      }
    }
  }

  /** What the lines between the markers have to give for `fields`. */
  ghost predicate Tell(lines: seq<string>, fields: Fields) {
    && Sound(lines, |lines|) && Held(lines, |lines|, fields)
    && SpecId in fields && BaseBranch in fields && TargetBranch in fields
  }

  lemma HeldOnce(lines: seq<string>, n: nat, a: Fields, b: Fields)
    requires Held(lines, n, a) && Held(lines, n, b)
    ensures a == b
  {
    hide Gives;
    forall key ensures key in a <==> key in b {
      if key in a {
        assert Gives(lines, n, key, a[key]);
      }
      if key in b {
        assert Gives(lines, n, key, b[key]);
      }
    }
    forall key | key in a ensures a[key] == b[key] {
      assert Gives(lines, n, key, a[key]);
    }
  }

  function Read(lines: seq<string>): Option<Fields> {
    match ReadLines(map[], lines)
    case None => None
    case Some(fields) => Interpret(fields)
  }

  lemma LinesTell(lines: seq<string>, fields: Fields)
    ensures Read(lines) == Some(fields) <==> Tell(lines, fields)
  {
    ReadsSoundLines(lines, |lines|);
    assert lines[..|lines|] == lines;
    hide ReadLines, Sound, Held;
    if Sound(lines, |lines|) && Held(lines, |lines|, fields) {
      HeldOnce(lines, |lines|, fields, ReadLines(map[], lines).value);
    }
  }

  lemma ParseShape(body: string)
    ensures ParseMarker(body) ==
              match CommentBlock(body, MARKER_START)
              case None => None
              case Some(block) => Read(SplitLines(block))
  {
    hide CommentBlock, SplitLines, ReadLines, Interpret;
  }

  /** A body is read as the marker `fields` exactly when its first marker block gives them: lines that
      give no marker field a value are passed over, no field comes twice, and name and branches are
      there. */
  lemma MarkerParsesExactly(body: string, fields: Fields)
    ensures ParseMarker(body) == Some(fields) <==>
            exists block :: Between(body, MARKER_START, block) && Tell(SplitLines(block), fields)
  {
    hide *;
    forall block ensures Between(body, MARKER_START, block) <==> CommentBlock(body, MARKER_START) == Some(block) {
      BlockExactly(body, MARKER_START, block);
    }
    ParseShape(body);
    if CommentBlock(body, MARKER_START).Some? {
      LinesTell(SplitLines(CommentBlock(body, MARKER_START).value), fields);
    }
  }
}
