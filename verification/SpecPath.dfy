/** Canonical Task Spec paths (agent/spec.py). */
module SpecPath {
  import opened Prelude
  import opened PyText

  const PATH_INVALID := AgentError(EscalationRequired, Other("SPEC_PATH_INVALID"))
  const PATH_ESCAPE := AgentError(EscalationRequired, Other("SPEC_PATH_ESCAPE"))
  const PATH_OUT_OF_DIR := AgentError(EscalationRequired, Other("SPEC_PATH_OUT_OF_DIR"))

  /** Backslashes become slashes. */
  function Posix(s: string): (r: string)
    ensures |r| == |s|
    ensures forall i :: 0 <= i < |s| ==> r[i] == if s[i] == '\\' then '/' else s[i]
  {
    seq(|s|, i requires 0 <= i < |s| => if s[i] == '\\' then '/' else s[i])
  }

  /** The segments between slashes. */
  function Split(s: string): (r: seq<string>)
    ensures r != [] && forall p :: p in r ==> '/' !in p
  {
    if s == "" then [""]
    else if s[0] == '/' then [""] + Split(s[1..])
    else
      var rest := Split(s[1..]);
      [[s[0]] + rest[0]] + rest[1..]
  }

  /** The parts with a slash between each two. */
  function Join(parts: seq<string>): string {
    if parts == [] then "" else if |parts| == 1 then parts[0] else parts[0] + "/" + Join(parts[1..])
  }

  predicate Plain(part: string) { part != "" && part != "." && part != ".." }

  /** One turn of the collapsing loop; None is the escape error. */
  function Push(parts: seq<string>, part: string): Option<seq<string>> {
    if part == "" || part == "." then Some(parts)
    else if part == ".." then if parts == [] then None else Some(parts[..|parts| - 1])
    else Some(parts + [part])
  }

  function CollapseOnto(parts: seq<string>, segments: seq<string>): Option<seq<string>>
    decreases |segments|
  {
    if segments == [] then Some(parts)
    else match Push(parts, segments[0])
      case None => None
      case Some(next) => CollapseOnto(next, segments[1..])
  }

  /** What `_collapse_path_segments` returns. */
  function Collapse(relative: string): Result<string, AgentError> {
    match CollapseOnto([], Split(Posix(relative)))
    case None => Err(PATH_ESCAPE)
    case Some(parts) => Ok(Join(parts))
  }

  /** `_collapse_path_segments`: a list is pushed to and popped from. */
  method CollapsePathSegments(relative: string) returns (r: Result<string, AgentError>)
    ensures r == Collapse(relative)
  {
    var segments := Split(Posix(relative));
    var parts: seq<string> := [];
    for i := 0 to |segments|
      invariant CollapseOnto([], segments) == CollapseOnto(parts, segments[i..])
    {
      assert segments[i..][0] == segments[i] && segments[i..][1..] == segments[i + 1..];
      var part := segments[i];
      if part == "" || part == "." {
        continue;
      }
      if part == ".." {
        if parts == [] {
          return Err(PATH_ESCAPE);
        }
        parts := parts[..|parts| - 1];
        continue;
      }
      parts := parts + [part];
    }
    r := Ok(Join(parts));
  }

  /** Ordinary segments minus `..` segments. */
  function Balance(segments: seq<string>): int {
    if segments == [] then 0
    else Balance(segments[..|segments| - 1]) + Weight(segments[|segments| - 1])
  }

  function Weight(part: string): int {
    if part == ".." then -1 else if Plain(part) then 1 else 0
  }

  ghost predicate NeverEscapes(segments: seq<string>) {
    forall n :: 0 <= n <= |segments| ==> Balance(segments[..n]) >= 0
  }

  lemma {:induction false} CollapseConcat(parts: seq<string>, a: seq<string>, b: seq<string>)
    ensures CollapseOnto(parts, a + b) ==
              match CollapseOnto(parts, a) case None => None case Some(mid) => CollapseOnto(mid, b)
    decreases |a|
  {
    if a == [] {
      assert a + b == b;
    } else {
      assert (a + b)[1..] == a[1..] + b;
      if Push(parts, a[0]).Some? {
        CollapseConcat(Push(parts, a[0]).value, a[1..], b);
      }
    }
  }

  /** An ordinary segment is appended, `..` takes exactly it away again, and `.` or nothing is passed
      over. */
  lemma ParentUndoes(segments: seq<string>, part: string)
    requires CollapseOnto([], segments).Some? && Plain(part)
    ensures var parts := CollapseOnto([], segments).value;
            && CollapseOnto([], segments + [part]) == Some(parts + [part])
            && CollapseOnto([], segments + [part, ".."]) == Some(parts)
            && CollapseOnto([], segments + ["."]) == Some(parts) && CollapseOnto([], segments + [""]) == Some(parts)
  {
    var parts := CollapseOnto([], segments).value;
    assert [part][1..] == [] && [part, ".."][1..] == [".."] && [".."][1..] == [] && ["."][1..] == [] && [""][1..] == [];
    assert (parts + [part])[..|parts + [part]| - 1] == parts;
    assert CollapseOnto(parts, [part, ".."]) == CollapseOnto(parts + [part], [".."]) == CollapseOnto(parts, []);
    CollapseConcat([], segments, [part]);
    CollapseConcat([], segments, [part, ".."]);
    CollapseConcat([], segments, ["."]);
    CollapseConcat([], segments, [""]);
  }

  /** Collapsing succeeds exactly when no prefix has more `..` than ordinary segments, and then leaves
      as many segments as the balance says. */
  lemma {:induction false} CollapseExactly(segments: seq<string>)
    ensures CollapseOnto([], segments).Some? <==> NeverEscapes(segments)
    ensures CollapseOnto([], segments).Some? ==> |CollapseOnto([], segments).value| == Balance(segments)
    decreases |segments|
  {
    if segments == [] {
    } else {
      var init, last := segments[..|segments| - 1], segments[|segments| - 1];
      assert segments == init + [last];
      CollapseExactly(init);
      CollapseConcat([], init, [last]);
      OneSegment(last);
      BalanceOneMore(segments);
      hide CollapseOnto, Balance, NeverEscapes;
    }
  }

  lemma BalanceOneMore(segments: seq<string>)
    requires segments != []
    ensures var init := segments[..|segments| - 1];
            && Balance(segments) == Balance(init) + Weight(segments[|segments| - 1])
            && (NeverEscapes(segments) <==> NeverEscapes(init) && Balance(segments) >= 0)
  {
    var init := segments[..|segments| - 1];
    hide Weight;
    assert forall n :: 0 <= n < |segments| ==> segments[..n] == init[..n];
    assert segments[..|segments|] == segments && init[..|init|] == init;
    if NeverEscapes(segments) {
      assert Balance(segments[..|segments|]) >= 0;
      forall n | 0 <= n <= |init| ensures Balance(init[..n]) >= 0 { assert segments[..n] == init[..n]; }
    }
  }

  lemma OneSegment(last: string)
    ensures forall parts :: CollapseOnto(parts, [last]) == Push(parts, last)
  {
    assert [last][1..] == [];
  }

  lemma {:induction false} CollapsedPlain(parts: seq<string>, segments: seq<string>)
    requires forall p :: p in parts ==> Plain(p) && '/' !in p
    requires forall p :: p in segments ==> '/' !in p
    requires CollapseOnto(parts, segments).Some?
    ensures forall p :: p in CollapseOnto(parts, segments).value ==> Plain(p) && '/' !in p
    ensures forall p :: p in CollapseOnto(parts, segments).value ==> p in parts || p in segments
    decreases |segments|
  {
    if segments == [] {
    } else {
      assert segments[0] in segments;
      CollapsedPlain(Push(parts, segments[0]).value, segments[1..]);
    }
  }

  /** Plain segments are only pushed. */
  lemma {:induction false} CollapsePlain(parts: seq<string>, segments: seq<string>)
    requires forall p :: p in segments ==> Plain(p)
    ensures CollapseOnto(parts, segments) == Some(parts + segments)
    decreases |segments|
  {
    if segments == [] {
      assert parts + [] == parts;
    } else {
      assert segments[0] in segments;
      CollapsePlain(parts + [segments[0]], segments[1..]);
      assert parts + [segments[0]] + segments[1..] == parts + segments;
    }
  }

  /** What one more character in front changes. */
  function Prepended(c: char, parts: seq<string>): seq<string>
    requires parts != []
  {
    if c == '/' then [""] + parts else [[c] + parts[0]] + parts[1..]
  }

  lemma SplitCons(s: string)
    requires s != ""
    ensures Split(s) == Prepended(s[0], Split(s[1..]))
  {
  }

  lemma PrependedConcat(c: char, x: seq<string>, y: seq<string>)
    requires x != []
    ensures Prepended(c, x + y) == Prepended(c, x) + y
  {
    if c == '/' {
      assert [""] + (x + y) == [""] + x + y;
    } else {
      assert (x + y)[0] == x[0] && (x + y)[1..] == x[1..] + y;
      assert [[c] + x[0]] + (x[1..] + y) == [[c] + x[0]] + x[1..] + y;
    }
  }

  lemma {:induction false} SplitConcat(a: string, b: string)
    ensures Split(a + "/" + b) == Split(a) + Split(b)
    decreases |a|
  {
    var s := a + "/" + b;
    if a == "" {
      assert s[0] == '/' && s[1..] == b;
    } else {
      hide Split, Prepended;
      assert s[0] == a[0] && s[1..] == a[1..] + "/" + b;
      SplitConcat(a[1..], b);
      SplitCons(a);
      SplitCons(s);
      PrependedConcat(a[0], Split(a[1..]), Split(b));
    }
  }

  lemma {:induction false} SplitPart(p: string)
    requires '/' !in p
    ensures Split(p) == [p]
    decreases |p|
  {
    if p != "" {
      assert p[0] in p;
      SplitPart(p[1..]);
      assert [p[0]] + p[1..] == p;
    }
  }

  /** Splitting undoes joining. */
  lemma {:induction false} SplitJoin(parts: seq<string>)
    requires parts != [] && forall p :: p in parts ==> '/' !in p
    ensures Split(Join(parts)) == parts
    decreases |parts|
  {
    assert parts[0] in parts;
    SplitPart(parts[0]);
    if |parts| > 1 {
      SplitJoin(parts[1..]);
      SplitConcat(parts[0], Join(parts[1..]));
    }
  }

  lemma SplitFirst(s: string)
    requires s != ""
    ensures var rest := Split(s[1..]);
            Split(s) == if s[0] == '/' then [""] + rest else [[s[0]] + rest[0]] + rest[1..]
  {
  }

  lemma JoinMore(part: string, rest: seq<string>)
    ensures Join([part] + rest) == if rest == [] then part else part + "/" + Join(rest)
  {
    assert ([part] + rest)[1..] == rest;
    hide *;
    JoinUnfold([part] + rest);
  }

  lemma JoinUnfold(parts: seq<string>)
    requires parts != []
    ensures Join(parts) == if |parts| == 1 then parts[0] else parts[0] + "/" + Join(parts[1..])
  {
  }

  lemma Glue(a: string, b: string, c: string)
    ensures a + b + "/" + c == a + (b + "/" + c) && "" + "/" + c == "/" + c
  {
  }

  lemma JoinLonger(c: char, first: string, tail: seq<string>)
    ensures Join([[c] + first] + tail) == [c] + Join([first] + tail)
  {
    hide *;
    JoinMore(first, tail);
    JoinMore([c] + first, tail);
    Glue([c], first, Join(tail));
  }

  lemma JoinFirst(c: char, rest: seq<string>)
    requires rest != []
    ensures Join([""] + rest) == "/" + Join(rest)
    ensures Join([[c] + rest[0]] + rest[1..]) == [c] + Join(rest)
  {
    hide *;
    JoinMore("", rest);
    Glue("", "", Join(rest));
    assert rest == [rest[0]] + rest[1..];
    JoinLonger(c, rest[0], rest[1..]);
  }

  lemma {:induction false} JoinSplit(s: string)
    ensures Join(Split(s)) == s
    decreases |s|
  {
    if s != "" {
      hide Join, Split;
      SplitFirst(s);
      JoinFirst(s[0], Split(s[1..]));
      JoinSplit(s[1..]);
      assert [s[0]] + s[1..] == s;
    }
  }

  predicate NoBackslash(s: string) { forall i :: 0 <= i < |s| ==> s[i] != '\\' }

  lemma PosixIdentity(s: string)
    requires NoBackslash(s)
    ensures Posix(s) == s
  {
  }

  /** What a successful collapse returns: joined plain segments without backslashes. */
  lemma CollapsedParts(relative: string) returns (parts: seq<string>)
    requires Collapse(relative).Ok?
    ensures CollapseOnto([], Split(Posix(relative))) == Some(parts) && Collapse(relative) == Ok(Join(parts))
    ensures forall p :: p in parts ==> Plain(p) && '/' !in p && NoBackslash(p) && p in Split(Posix(relative))
  {
    var segments := Split(Posix(relative));
    parts := CollapseOnto([], segments).value;
    CollapsedPlain([], segments);
    SplitNoBackslash(Posix(relative));
  }

  lemma {:induction false} SplitNoBackslash(s: string)
    requires NoBackslash(s)
    ensures forall p :: p in Split(s) ==> NoBackslash(p)
    decreases |s|
  {
    if s != "" {
      var rest := Split(s[1..]);
      SplitNoBackslash(s[1..]);
      assert rest[0] in rest && s[0] != '\\';
      forall p | p in Split(s) ensures NoBackslash(p) {
        assert p == "" || p == [s[0]] + rest[0] || p in rest;
      }
    }
  }

  lemma {:induction false} JoinNoBackslash(parts: seq<string>)
    requires forall p :: p in parts ==> NoBackslash(p)
    ensures NoBackslash(Join(parts))
    decreases |parts|
  {
    if parts != [] {
      assert parts[0] in parts;
      JoinNoBackslash(parts[1..]);
    }
  }

  /** Segments of a collapsed path, when it is not empty, are plain. */
  lemma CollapsedSegments(relative: string)
    requires Collapse(relative).Ok? && Collapse(relative).value != ""
    ensures forall p :: p in Split(Collapse(relative).value) ==> Plain(p)
    ensures NoBackslash(Collapse(relative).value)
  {
    var parts := CollapsedParts(relative);
    JoinNoBackslash(parts);
    SplitJoin(parts);
  }

  /** A joined list of plain segments collapses to itself. */
  lemma CollapseOfPlain(parts: seq<string>)
    requires forall p :: p in parts ==> Plain(p) && '/' !in p && NoBackslash(p)
    ensures Collapse(Join(parts)) == Ok(Join(parts))
  {
    JoinNoBackslash(parts);
    PosixIdentity(Join(parts));
    if parts == [] {
      assert [""][1..] == [];
    } else {
      SplitJoin(parts);
      CollapsePlain([], parts);
      assert [] + parts == parts;
    }
  }

  /** Collapsing twice is collapsing once. */
  lemma CollapseIdempotent(relative: string)
    requires Collapse(relative).Ok?
    ensures Collapse(Collapse(relative).value) == Collapse(relative)
  {
    var parts := CollapsedParts(relative);
    CollapseOfPlain(parts);
  }

  /** The first part of a path may be collapsed before the rest is appended; if it escapes on its
      own, so does the whole path. */
  lemma CollapseComposes(p: string, q: string)
    ensures Collapse(p).Ok? ==> Collapse(p + "/" + q) == Collapse(Collapse(p).value + "/" + q)
    ensures Collapse(p).Err? ==> Collapse(p + "/" + q).Err?
  {
    assert Posix(p + "/" + q) == Posix(p) + "/" + Posix(q);
    SplitConcat(Posix(p), Posix(q));
    CollapseConcat([], Split(Posix(p)), Split(Posix(q)));
    if Collapse(p).Ok? {
      var parts := CollapsedParts(p);
      var c := Join(parts);
      JoinNoBackslash(parts);
      PosixIdentity(c);
      assert Posix(c + "/" + q) == c + "/" + Posix(q);
      SplitConcat(c, Posix(q));
      CollapseConcat([], Split(c), Split(Posix(q)));
      CollapseOfPlain(parts);
      if parts == [] {
        assert [""][1..] == [];
      } else {
        SplitJoin(parts);
        CollapsePlain([], parts);
        assert [] + parts == parts;
      }
    }
  }

  predicate IsLetter(c: char) { 'a' <= c <= 'z' || 'A' <= c <= 'Z' }

  predicate IsDrive(path: string) { |path| >= 2 && IsLetter(path[0]) && path[1] == ':' }

  predicate IsRelative(path: string) { !(path != "" && path[0] == '/') && !IsDrive(path) }

  function TrimSlashes(s: string): string {
    if s != "" && s[0] == '/' then TrimSlashes(s[1..])
    else if s != "" && s[|s| - 1] == '/' then TrimSlashes(s[..|s| - 1])
    else s
  }

  /** The spec directory with slashes only, and none at its ends. */
  function Directory(specDirectory: string): string { TrimSlashes(Posix(specDirectory)) }

  /** `_assert_under_spec_directory` */
  function UnderDirectory(canonical: string, specDirectory: string): Result<(), AgentError> {
    var prefix := Directory(specDirectory) + "/";
    if Directory(specDirectory) == "" then Err(PATH_INVALID)
    else if canonical == Directory(specDirectory) ||
        !(|prefix| <= |canonical| && canonical[..|prefix|] == prefix) then Err(PATH_OUT_OF_DIR)
    else Ok(())
  }

  /** `canonicalize_spec_path` for a path that is relative once stripped. */
  function Canonicalize(path: string, specDirectory: string): Result<string, AgentError>
    requires IsRelative(Strip(path))
  {
    var raw := Strip(path);
    if raw == "" then Err(PATH_INVALID)
    else
      var canonical :- Collapse(Posix(raw));
      if canonical == "" then Err(PATH_INVALID)
      else
        var _ :- UnderDirectory(canonical, specDirectory);
        Ok(canonical)
  }

  /** `is_canonical_spec_path` */
  predicate IsCanonical(path: string, specDirectory: string) {
    && path != "" && Strip(path) == path && NoBackslash(path)
    && path[0] != '/' && !IsDrive(path)
    && (forall part :: part in Split(path) ==> Plain(part))
    && UnderDirectory(path, specDirectory).Ok?
  }

  lemma {:induction false} StripShrinks(s: string)
    ensures |Strip(s)| <= |s| && (|Strip(s)| == |s| ==> Strip(s) == s)
  {
    StripLeftShrinks(s);
    StripRightShrinks(StripLeft(s));
  }

  lemma {:induction false} StripLeftShrinks(s: string)
    ensures |StripLeft(s)| <= |s| && (|StripLeft(s)| == |s| ==> StripLeft(s) == s)
    decreases |s|
  {
    if s != "" && IsSpace(s[0]) {
      StripLeftShrinks(s[1..]);
    }
  }

  lemma {:induction false} StripRightShrinks(s: string)
    ensures |StripRight(s)| <= |s| && (|StripRight(s)| == |s| ==> StripRight(s) == s)
    decreases |s|
  {
    if s != "" && IsSpace(s[|s| - 1]) {
      StripRightShrinks(s[..|s| - 1]);
    }
  }

  function Size(parts: seq<string>): nat {
    if parts == [] then 0 else Size(parts[..|parts| - 1]) + |parts[|parts| - 1]| + 1
  }

  lemma {:induction false} CollapseShrinks(parts: seq<string>, segments: seq<string>)
    requires CollapseOnto(parts, segments).Some?
    ensures Size(CollapseOnto(parts, segments).value) <= Size(parts + segments)
    decreases |segments|
  {
    if segments == [] {
      assert parts + [] == parts;
    } else {
      var next := Push(parts, segments[0]).value;
      CollapseShrinks(next, segments[1..]);
      SizeConcat(next, segments[1..]);
      SizeConcat(parts, segments);
      SizeFirst(segments);
      SizeConcat(parts, [segments[0]]);
      assert (parts + [segments[0]])[..|parts|] == parts;
    }
  }

  lemma {:induction false} SizeConcat(a: seq<string>, b: seq<string>)
    ensures Size(a + b) == Size(a) + Size(b)
    decreases |b|
  {
    if b == [] {
      assert a + b == a;
    } else {
      assert (a + b)[..|a + b| - 1] == a + b[..|b| - 1];
      SizeConcat(a, b[..|b| - 1]);
    }
  }

  lemma SizeFirst(s: seq<string>)
    requires s != []
    ensures Size(s) == |s[0]| + 1 + Size(s[1..])
  {
    SizeConcat([s[0]], s[1..]);
    assert [s[0]] + s[1..] == s && [s[0]][..0] == [];
  }

  lemma {:induction false} JoinSize(parts: seq<string>)
    requires parts != []
    ensures |Join(parts)| + 1 == Size(parts)
    decreases |parts|
  {
    SizeFirst(parts);
    if |parts| > 1 {
      JoinSize(parts[1..]);
    }
  }

  /** A collapsed path is never longer than the path. */
  lemma CollapseNoLonger(relative: string)
    requires Collapse(relative).Ok?
    ensures |Collapse(relative).value| <= |relative|
  {
    var parts := CollapsedParts(relative);
    var segments := Split(Posix(relative));
    CollapseShrinks([], segments);
    assert [] + segments == segments;
    JoinSplit(Posix(relative));
    JoinSize(segments);
    if parts != [] {
      JoinSize(parts);
    }
  }

  /** The paths that count as canonical are exactly the relative paths that canonicalization leaves
      as they are. */
  lemma CanonicalExactlyFixed(path: string, specDirectory: string)
    ensures IsCanonical(path, specDirectory) <==>
              IsRelative(Strip(path)) && Canonicalize(path, specDirectory) == Ok(path)
  {
    if IsCanonical(path, specDirectory) {
      PosixIdentity(path);
      JoinSplit(path);
      SplitNoBackslash(path);
      CollapseOfPlain(Split(path));
    }
    if IsRelative(Strip(path)) && Canonicalize(path, specDirectory) == Ok(path) {
      StripShrinks(path);
      CollapseNoLonger(Posix(Strip(path)));
      CollapsedSegments(Posix(Strip(path)));
      FirstNotSlash(path);
    }
  }

  lemma FirstNotSlash(path: string)
    requires path != "" && forall p :: p in Split(path) ==> Plain(p)
    ensures path[0] != '/'
  {
    assert Split(path)[0] in Split(path);
  }

  /** Of what `IsCanonical` asks, a result lacks at most two things. */
  lemma ResultLacks(path: string, specDirectory: string)
    requires IsRelative(Strip(path)) && Canonicalize(path, specDirectory).Ok?
    ensures IsCanonical(Canonicalize(path, specDirectory).value, specDirectory) <==>
              (Trimmed(Canonicalize(path, specDirectory).value) && !IsDrive(Directory(specDirectory)))
  {
    var c := Canonicalize(path, specDirectory).value;
    CollapsedSegments(Posix(Strip(path)));
    FirstNotSlash(c);
    var d := Directory(specDirectory);
    assert c[..|d| + 1] == d + "/";
    assert c[0] == d[0] && c[|d|] == '/' && (|d| >= 2 ==> c[1] == d[1]);
    assert Strip(c) == c <==> Trimmed(c);
  }

  /** The segment a path ends on once collapsed: the last ordinary one that no later `..` takes away.
      `pops` counts the `..` still to be paid for. */
  function LastKept(segments: seq<string>, pops: nat): string {
    if segments == [] then ""
    else
      var init, last := segments[..|segments| - 1], segments[|segments| - 1];
      if last == "" || last == "." then LastKept(init, pops)
      else if last == ".." then LastKept(init, pops + 1)
      else if pops == 0 then last else LastKept(init, pops - 1)
  }

  lemma {:induction false} LastKeptIs(segments: seq<string>, pops: nat)
    requires CollapseOnto([], segments).Some? && |CollapseOnto([], segments).value| > pops
    ensures var parts := CollapseOnto([], segments).value;
            LastKept(segments, pops) == parts[|parts| - 1 - pops]
    decreases |segments|
  {
    var init, last := segments[..|segments| - 1], segments[|segments| - 1];
    assert segments == init + [last];
    CollapseConcat([], init, [last]);
    OneSegment(last);
    var mid := CollapseOnto([], init).value;
    assert Push(mid, last) == CollapseOnto([], segments);
    hide CollapseOnto;
    if last == "" || last == "." {
      LastKeptIs(init, pops);
    } else if last == ".." {
      LastKeptIs(init, pops + 1);
    } else if pops > 0 {
      LastKeptIs(init, pops - 1);
    }
  }

  lemma {:induction false} JoinEnd(parts: seq<string>)
    requires parts != [] && parts[|parts| - 1] != ""
    ensures var last := parts[|parts| - 1];
            Join(parts) != "" && Join(parts)[|Join(parts)| - 1] == last[|last| - 1]
    decreases |parts|
  {
    if |parts| > 1 {
      JoinEnd(parts[1..]);
    }
  }

  /** Exactly when the result of canonicalizing a relative path is canonical, told from the path and the
      spec directory: the segment the path ends on does not end in white space, and the directory
      neither starts with white space nor is a drive. */
  lemma ResultCanonicalExactly(path: string, specDirectory: string)
    requires IsRelative(Strip(path)) && Canonicalize(path, specDirectory).Ok?
    ensures var directory, kept := Directory(specDirectory), LastKept(Split(Posix(Strip(path))), 0);
            && directory != "" && kept != ""
            && (IsCanonical(Canonicalize(path, specDirectory).value, specDirectory) <==>
                  !IsSpace(kept[|kept| - 1]) && !IsSpace(directory[0]) && !IsDrive(directory))
  {
    var c := Canonicalize(path, specDirectory).value;
    ResultStarts(path, specDirectory);
    ResultFinishes(path, specDirectory);
    ResultLacks(path, specDirectory);
    hide Canonicalize, IsCanonical, Directory, LastKept, Split, Posix, Strip, IsDrive, IsSpace;
  }

  /** A result starts with the spec directory. */
  lemma ResultStarts(path: string, specDirectory: string)
    requires IsRelative(Strip(path)) && Canonicalize(path, specDirectory).Ok?
    ensures var c, d := Canonicalize(path, specDirectory).value, Directory(specDirectory);
            c != "" && d != "" && c[0] == d[0]
  {
    hide Collapse, Posix, Strip, Directory;
    var c, d := Canonicalize(path, specDirectory).value, Directory(specDirectory);
    assert c[..|d| + 1] == d + "/";
    assert c[0] == c[..|d| + 1][0];
  }

  /** And finishes with the last segment kept. */
  lemma ResultFinishes(path: string, specDirectory: string)
    requires IsRelative(Strip(path)) && Canonicalize(path, specDirectory).Ok?
    ensures var c, kept := Canonicalize(path, specDirectory).value, LastKept(Split(Posix(Strip(path))), 0);
            c != "" && kept != "" && c[|c| - 1] == kept[|kept| - 1]
  {
    hide *;
    ResultIsCollapsed(path, specDirectory);
    PosixTwice(Strip(path));
    var parts := CollapsedParts(Posix(Strip(path)));
    LastPart(parts);
    LastKeptIs(Split(Posix(Strip(path))), 0);
    JoinEnd(parts);
  }

  lemma PosixTwice(s: string)
    ensures Posix(Posix(s)) == Posix(s)
  {
    PosixIdentity(Posix(s));
  }

  lemma LastPart(parts: seq<string>)
    requires Join(parts) != "" && forall p :: p in parts ==> Plain(p)
    ensures parts != [] && parts[|parts| - 1] != ""
  {
    if parts != [] {
      assert parts[|parts| - 1] in parts;
    }
  }

  lemma ResultIsCollapsed(path: string, specDirectory: string)
    requires IsRelative(Strip(path)) && Canonicalize(path, specDirectory).Ok?
    ensures Collapse(Posix(Strip(path))) == Canonicalize(path, specDirectory) &&
        Canonicalize(path, specDirectory).value != ""
  {
    hide Collapse, Posix, Strip, UnderDirectory;
  }

  /** No white space at the ends of any segment is enough. */
  lemma TrimmedSegmentsSuffice(path: string, specDirectory: string)
    requires IsRelative(Strip(path)) && Canonicalize(path, specDirectory).Ok?
    requires forall p :: p in Split(Posix(Posix(Strip(path)))) ==> Trimmed(p)
    requires !IsDrive(Directory(specDirectory))
    ensures IsCanonical(Canonicalize(path, specDirectory).value, specDirectory)
    ensures Strip(Canonicalize(path, specDirectory).value) == Canonicalize(path, specDirectory).value
  {
    var parts := CollapsedParts(Posix(Strip(path)));
    JoinTrimmed(parts);
    ResultLacks(path, specDirectory);
  }

  lemma {:induction false} JoinTrimmed(parts: seq<string>)
    requires forall p :: p in parts ==> p != "" && Trimmed(p)
    ensures Trimmed(Join(parts)) && (parts != [] ==> Join(parts) != "")
    decreases |parts|
  {
    if parts != [] {
      assert parts[0] in parts && forall p :: p in parts[1..] ==> p in parts;
      JoinTrimmed(parts[1..]);
    }
  }

  lemma SpacedCollapse()
    ensures Collapse("d/a /") == Ok("d/a ")
  {
    var path, kept := "d/a /", ["d", "a "];
    var parts := kept + [""];
    assert Join([""]) == "" && Join(["a ", ""]) == "a /" && parts[1..] == ["a ", ""] && ["a ", ""][1..] == [""];
    assert Join(parts) == path;
    assert kept[1..] == ["a "] && Join(kept) == "d/a ";
    SplitJoin(parts);
    PosixIdentity(path);
    hide Posix, Split, Join;
    CollapsePlain([], kept);
    assert [] + kept == kept;
    CollapseConcat([], kept, [""]);
    OneSegment("");
  }

  lemma PlainDirectory(s: string)
    requires NoBackslash(s) && s != "" && s[0] != '/' && s[|s| - 1] != '/'
    ensures Directory(s) == s
  {
    PosixIdentity(s);
  }

  /** White space inside the path is not trimmed: this one collapses to a path that is not canonical. */
  lemma InnerSpaceSurvives()
    ensures var path := "d/a /";
            && IsRelative(Strip(path)) && Canonicalize(path, "d") == Ok("d/a ")
            && !IsCanonical("d/a ", "d")
  {
    var path := "d/a /";
    assert Trimmed(path) && !Trimmed("d/a ");
    PosixIdentity(path);
    SpacedCollapse();
    PlainDirectory("d");
    hide Strip, Collapse, Posix, Directory;
    assert "d/a "[..2] == "d/";
  }
}
