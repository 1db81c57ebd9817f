/** The Python string operations that the comment codecs are built from, on code points. */
module PyText {
  import opened Prelude

  /** Characters removed by `str.strip()`. */
  predicate IsSpace(c: char) {
    var n := c as int;
    || 9 <= n <= 13 || 28 <= n <= 32 || n == 0x85 || n == 0xA0 || n == 0x1680
    || 0x2000 <= n <= 0x200A || n == 0x2028 || n == 0x2029 || n == 0x202F || n == 0x205F || n == 0x3000
  }

  /** Characters that end a line for `str.splitlines()`. */
  predicate IsBreak(c: char) {
    var n := c as int;
    10 <= n <= 13 || 28 <= n <= 30 || n == 0x85 || n == 0x2028 || n == 0x2029
  }

  predicate Trimmed(s: string) {
    s == "" || (!IsSpace(s[0]) && !IsSpace(s[|s| - 1]))
  }

  predicate OneLine(s: string) {
    forall i :: 0 <= i < |s| ==> !IsBreak(s[i])
  }

  /** `-->` starts at position `i`. */
  predicate ClosesAt(s: string, i: nat) {
    i + 2 < |s| && s[i] == '-' && s[i + 1] == '-' && s[i + 2] == '>'
  }

  /** The comment terminator `-->` does not occur. */
  ghost predicate Unclosed(s: string) {
    forall i: nat :: !ClosesAt(s, i)
  }

  /** A value that survives being written on a line of its own inside an HTML comment. */
  ghost predicate Inline(s: string) { OneLine(s) && Unclosed(s) }

  ghost predicate Clean(s: string) { Inline(s) && Trimmed(s) }

  lemma InlineSlice(s: string, i: nat, j: nat)
    requires Inline(s) && i <= j <= |s|
    ensures Inline(s[i..j])
  {
    var t := s[i..j];
    forall k: nat ensures !ClosesAt(t, k) {
      assert !ClosesAt(s, i + k);
    }
  }

  lemma InlineTail(s: string, i: nat)
    requires i <= |s|
    ensures Inline(s) ==> Inline(s[i..])
  {
    if Inline(s) {
      InlineSlice(s, i, |s|);
      assert s[i..|s|] == s[i..];
    }
  }

  lemma InlineInit(s: string, i: nat)
    requires i <= |s|
    ensures Inline(s) ==> Inline(s[..i])
  {
    if Inline(s) {
      InlineSlice(s, 0, i);
      assert s[0..i] == s[..i];
    }
  }

  function StripLeft(s: string): (r: string)
    ensures r == "" || !IsSpace(r[0])
    ensures r != "" ==> |s| > 0 && r[|r| - 1] == s[|s| - 1]
    ensures Inline(s) ==> Inline(r)
  {
    if s != "" && IsSpace(s[0]) then
      InlineTail(s, 1);
      StripLeft(s[1..])
    else s
  }

  function StripRight(s: string): (r: string)
    ensures r == "" || !IsSpace(r[|r| - 1])
    ensures r != "" ==> |s| > 0 && r[0] == s[0]
    ensures Inline(s) ==> Inline(r)
  {
    if s != "" && IsSpace(s[|s| - 1]) then
      InlineInit(s, |s| - 1);
      StripRight(s[..|s| - 1])
    else s
  }

  /** `str.strip()` */
  function Strip(s: string): (r: string)
    ensures Trimmed(r)
    ensures Inline(s) ==> Inline(r)
    ensures Trimmed(s) ==> r == s
  {
    StripRight(StripLeft(s))
  }

  predicate AllSpace(s: string) { forall i :: 0 <= i < |s| ==> IsSpace(s[i]) }

  lemma {:induction false} StripLeftMeans(s: string) returns (i: nat)
    ensures i <= |s| && StripLeft(s) == s[i..] && AllSpace(s[..i])
  {
    i := 0;
    if s != "" && IsSpace(s[0]) {
      var rest := StripLeftMeans(s[1..]);
      i := rest + 1;
      assert s[..i] == [s[0]] + s[1..][..rest] && s[i..] == s[1..][rest..];
    }
  }

  lemma {:induction false} StripRightMeans(s: string) returns (j: nat)
    ensures j <= |s| && StripRight(s) == s[..j] && AllSpace(s[j..])
  {
    j := |s|;
    if s != "" && IsSpace(s[|s| - 1]) {
      var init := s[..|s| - 1];
      j := StripRightMeans(init);
      assert s[j..] == init[j..] + [s[|s| - 1]] && s[..j] == init[..j];
    }
  }

  /** Only white space at the two ends is removed. */
  lemma StripMeans(s: string) returns (before: string, after: string)
    ensures s == before + Strip(s) + after && AllSpace(before) && AllSpace(after)
  {
    hide StripLeft, StripRight, AllSpace;
    var i := StripLeftMeans(s);
    var j := StripRightMeans(s[i..]);
    before, after := s[..i], s[i..][j..];
  }

  function LineLength(s: string): (n: nat)
    ensures n <= |s| && OneLine(s[..n])
    ensures n < |s| ==> IsBreak(s[n])
  {
    if s == "" || IsBreak(s[0]) then 0
    else
      var n := LineLength(s[1..]);
      assert s[..n + 1] == [s[0]] + s[1..][..n];
      n + 1
  }

  /** `str.splitlines()`: `\r\n` is one break, and a final break opens no further line. */
  function SplitLines(s: string): seq<string>
    decreases |s|
  {
    if s == "" then []
    else
      var n := LineLength(s);
      if n == |s| then [s]
      else
        var m := if s[n] == '\r' && n + 1 < |s| && s[n + 1] == '\n' then 2 else 1;
        [s[..n]] + SplitLines(s[n + m..])
  }

  /** Lines of a text without `-->` are such texts too, and each is a single line. */
  lemma {:induction false} LinesInline(s: string)
    requires Unclosed(s)
    ensures forall l :: l in SplitLines(s) ==> Inline(l)
    decreases |s|
  {
    if s != "" {
      var n := LineLength(s);
      assert forall i: nat :: ClosesAt(s[..n], i) ==> ClosesAt(s, i);
      if n < |s| {
        var m := if s[n] == '\r' && n + 1 < |s| && s[n + 1] == '\n' then 2 else 1;
        var rest := s[n + m..];
        forall i: nat ensures !ClosesAt(rest, i) {
          assert !ClosesAt(s, n + m + i);
        }
        LinesInline(rest);
      } else {
        assert s[..n] == s;
      }
    }
  }

  /** Every line followed by a newline. */
  function Unlines(lines: seq<string>): string {
    if lines == [] then "" else lines[0] + "\n" + Unlines(lines[1..])
  }

  lemma LineLengthOf(l: string, rest: string)
    requires OneLine(l)
    ensures LineLength(l + "\n" + rest) == |l|
    decreases |l|
  {
    var s := l + "\n" + rest;
    if l == "" {
      assert s[0] == '\n';
    } else {
      assert s[1..] == l[1..] + "\n" + rest;
      LineLengthOf(l[1..], rest);
    }
  }

  /** Splitting into lines undoes writing lines. */
  lemma {:induction false} SplitUnlines(lines: seq<string>)
    requires forall l :: l in lines ==> OneLine(l)
    ensures SplitLines(Unlines(lines)) == lines
    decreases |lines|
  {
    if lines == [] {
    } else {
      var l, rest := lines[0], Unlines(lines[1..]);
      var s := l + "\n" + rest;
      LineLengthOf(l, rest);
      assert s[..|l|] == l && s[|l|] == '\n' && s[|l| + 1..] == rest;
      SplitUnlines(lines[1..]);
    }
  }

  /** No `-->` appears by writing lines that contain none. */
  lemma {:induction false} UnlinesUnclosed(lines: seq<string>)
    requires forall l :: l in lines ==> Unclosed(l)
    ensures Unclosed(Unlines(lines))
    decreases |lines|
  {
    if lines == [] {
    } else {
      var l, rest := lines[0], Unlines(lines[1..]);
      UnlinesUnclosed(lines[1..]);
      var s := l + "\n" + rest;
      assert s[|l|] == '\n' && l in lines;
      forall i: nat ensures !ClosesAt(s, i) {
        if i > |l| {
          assert !ClosesAt(rest, i - |l| - 1);
        } else {
          assert !ClosesAt(l, i);
        }
      }
    }
  }

  /** `sep.join(lines)` for the newline. */
  function JoinLines(lines: seq<string>): string {
    if lines == [] then "" else if |lines| == 1 then lines[0] else lines[0] + "\n" + JoinLines(lines[1..])
  }

  lemma {:induction false} JoinIsUnlines(lines: seq<string>, last: string)
    ensures JoinLines(lines + [last]) == Unlines(lines) + last
    decreases |lines|
  {
    if lines == [] {
    } else {
      assert (lines + [last])[1..] == lines[1..] + [last];
      JoinIsUnlines(lines[1..], last);
    }
  }

  lemma {:induction false} UnlinesConcat(a: seq<string>, b: seq<string>)
    ensures Unlines(a + b) == Unlines(a) + Unlines(b)
    decreases |a|
  {
    if a == [] {
      assert a + b == b;
    } else {
      assert (a + b)[1..] == a[1..] + b;
      UnlinesConcat(a[1..], b);
    }
  }

  /** `needle` occurs in `s` at position `k`. */
  predicate At(s: string, needle: string, k: nat) {
    k + |needle| <= |s| && s[k..k + |needle|] == needle
  }

  /** `s.find(needle, from)`; None for -1. */
  function Find(s: string, needle: string, from: nat): (r: Option<nat>)
    ensures r.Some? ==> from <= r.value && At(s, needle, r.value)
    ensures r.Some? ==> forall k: nat :: from <= k < r.value ==> !At(s, needle, k)
    ensures r.None? ==> forall k: nat :: from <= k ==> !At(s, needle, k)
    decreases |s| - from
  {
    if from + |needle| > |s| then None
    else if At(s, needle, from) then Some(from)
    else Find(s, needle, from + 1)
  }

  lemma FindFirst(s: string, needle: string, from: nat, at: nat)
    requires from <= at && At(s, needle, at) && forall k: nat :: from <= k < at ==> !At(s, needle, k)
    ensures Find(s, needle, from) == Some(at)
  {
  }

  lemma CloseIsAt(s: string, k: nat)
    ensures At(s, COMMENT_END, k) <==> ClosesAt(s, k)
  {
    if k + 3 <= |s| {
      assert s[k..k + 3][0] == s[k] && s[k..k + 3][1] == s[k + 1] && s[k..k + 3][2] == s[k + 2];
      if ClosesAt(s, k) {
        assert s[k..k + 3] == COMMENT_END;
      }
    }
  }

  const COMMENT_END := "-->"

  /** The text between a start marker and the first `-->` after it. */
  function CommentBlock(body: string, start: string): (r: Option<string>)
    ensures r.Some? ==> Unclosed(r.value)
  {
    var at := Find(body, start, 0);
    if at.None? then None
    else
      var from := at.value + |start|;
      var end := Find(body, COMMENT_END, from);
      if end.None? then None
      else
        assert Unclosed(body[from..end.value]) by { BeforeFirstClose(body, from, end.value); }
        Some(body[from..end.value])
  }

  lemma BeforeFirstClose(s: string, from: nat, end: nat)
    requires from <= end <= |s|
    requires forall k: nat :: from <= k < end ==> !At(s, COMMENT_END, k)
    ensures Unclosed(s[from..end])
  {
    forall i: nat ensures !ClosesAt(s[from..end], i) {
      if ClosesAt(s[from..end], i) {
        assert ClosesAt(s, from + i);
        CloseIsAt(s, from + i);
      }
    }
  }

  /** Reading back a block that was written as lines, whatever follows it. */
  lemma ReadBlock(start: string, lines: seq<string>, rest: string)
    requires lines != [] && forall l :: l in lines ==> Unclosed(l)
    ensures CommentBlock(start + Unlines(lines) + COMMENT_END + rest, start) == Some(Unlines(lines))
  {
    UnlinesUnclosed(lines);
    UnlinesEnd(lines);
    ReadText(start, Unlines(lines), rest);
  }

  lemma ReadText(start: string, block: string, rest: string)
    requires block != "" && block[|block| - 1] == '\n' && Unclosed(block)
    ensures CommentBlock(start + block + COMMENT_END + rest, start) == Some(block)
  {
    var body := start + block + COMMENT_END + rest;
    assert body[0..|start|] == start;
    assert At(body, start, 0);
    FindFirst(body, start, 0, 0);
    var end := |start| + |block|;
    assert body[end..end + 3] == COMMENT_END;
    forall k: nat | |start| <= k < end ensures !At(body, COMMENT_END, k) {
      CloseIsAt(body, k);
      assert !ClosesAt(block, k - |start|);
      assert body[end - 1] == '\n';
    }
    FindFirst(body, COMMENT_END, |start|, end);
    assert body[|start|..end] == block;
  }

  lemma {:induction false} UnlinesEnd(lines: seq<string>)
    requires lines != []
    ensures Unlines(lines) != "" && Unlines(lines)[|Unlines(lines)| - 1] == '\n'
    decreases |lines|
  {
    if |lines| == 1 {
      assert Unlines(lines[1..]) == "";
    } else {
      UnlinesEnd(lines[1..]);
    }
  }

  /** Where the first colon is. */
  function ColonAt(line: string): (r: Option<nat>)
    ensures r.Some? ==> r.value < |line| && line[r.value] == ':' && ':' !in line[..r.value]
    ensures r.None? ==> ':' !in line
  {
    if line == "" then None
    else if line[0] == ':' then Some(0)
    else
      var rest := ColonAt(line[1..]);
      if rest.None? then None
      else
        assert line[..rest.value + 1] == [line[0]] + line[1..][..rest.value];
        Some(rest.value + 1)
  }

  lemma {:induction false} ColonAfter(prefix: string, rest: string)
    requires ':' !in prefix
    ensures ColonAt(prefix + ":" + rest) == Some(|prefix|)
    decreases |prefix|
  {
    var s := prefix + ":" + rest;
    if prefix == "" {
      assert s[0] == ':';
    } else {
      assert s[1..] == prefix[1..] + ":" + rest;
      ColonAfter(prefix[1..], rest);
    }
  }

  /** A line split at its first colon, both halves stripped; None without a colon. */
  function SplitField(line: string): (r: Option<(string, string)>)
    ensures r.Some? && Inline(line) ==> Clean(r.value.1)
    ensures r.None? <==> ':' !in line
  {
    var at := ColonAt(line);
    if at.None? then None
    else
      InlineTail(line, at.value + 1);
      Some((Strip(line[..at.value]), Strip(line[at.value + 1..])))
  }

  /** Keys are made of lower-case letters, digits and underscores. */
  predicate IsKey(key: string) {
    key != "" && forall i :: 0 <= i < |key| ==> 'a' <= key[i] <= 'z' || '0' <= key[i] <= '9' || key[i] == '_'
  }

  /** `key: value` as it stands after stripping. */
  function Field(key: string, value: string): string {
    key + ":" + (if value == "" then "" else " " + value)
  }

  lemma StripFieldLine(key: string, value: string)
    requires IsKey(key) && Trimmed(value)
    ensures Strip(key + ": " + value) == Field(key, value)
  {
    var raw := key + ": " + value;
    var line := Field(key, value);
    assert raw[0] == key[0] && StripLeft(raw) == raw;
    if value == "" {
      assert raw[|raw| - 1] == ' ' && raw[..|raw| - 1] == line && line[|line| - 1] == ':';
      assert StripRight(line) == line;
    } else {
      assert raw == line && raw[|raw| - 1] == value[|value| - 1];
    }
  }

  lemma SplitFieldLine(key: string, value: string)
    requires key != "" && Trimmed(key) && ':' !in key && Trimmed(value)
    ensures SplitField(Field(key, value)) == Some((key, value))
  {
    var line := Field(key, value);
    assert line[..|key|] == key && line[|key|] == ':';
    ColonAfter(key, if value == "" then "" else " " + value);
    if value == "" {
      assert line[|key| + 1..] == "";
    } else {
      assert line[|key| + 1..] == " " + value;
      StripBlank(value);
    }
  }

  lemma StripBlank(value: string)
    requires Trimmed(value)
    ensures Strip(" " + value) == value
  {
    assert (" " + value)[1..] == value;
    assert StripLeft(" " + value) == StripLeft(value) == value;
  }

  /** A written `key: value` line, once stripped, splits back into its key and its value. */
  lemma FieldLine(key: string, value: string)
    requires IsKey(key) && Trimmed(value)
    ensures Strip(key + ": " + value) == Field(key, value)
    ensures SplitField(Field(key, value)) == Some((key, value))
  {
    StripFieldLine(key, value);
    assert Trimmed(key) && ':' !in key;
    SplitFieldLine(key, value);
  }

  lemma FieldLineInline(key: string, value: string)
    requires IsKey(key) && Inline(value)
    ensures Inline(key + ": " + value)
  {
    var s := key + ": " + value;
    forall i: nat ensures !ClosesAt(s, i) {
      assert s[|key|] == ':';
      if i >= |key| + 2 {
        assert !ClosesAt(value, i - |key| - 2);
      }
    }
  }
}
