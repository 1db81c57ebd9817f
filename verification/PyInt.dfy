/** `str(n)` for naturals and Python's `int(text)` on ASCII text. */
module PyInt {
  import opened Prelude
  import opened PyText

  predicate IsDigit(c: char) { '0' <= c <= '9' }

  function DigitValue(c: char): nat
    requires IsDigit(c)
  {
    c as int - '0' as int
  }

  function DigitChar(d: nat): (c: char)
    requires d < 10
    ensures IsDigit(c) && DigitValue(c) == d
  {
    (d + '0' as int) as char
  }

  /** `str(n)` */
  function Decimal(n: nat): (s: string)
    ensures s != "" && forall i :: 0 <= i < |s| ==> IsDigit(s[i])
  {
    if n < 10 then [DigitChar(n)] else Decimal(n / 10) + [DigitChar(n % 10)]
  }

  /** Digits, with single underscores allowed between two digits. */
  function Digits(s: string): Option<nat>
    decreases |s|
  {
    if s == "" || !IsDigit(s[|s| - 1]) then None
    else
      var d := DigitValue(s[|s| - 1]);
      if |s| == 1 then Some(d)
      else
        var high := if s[|s| - 2] == '_' then Digits(s[..|s| - 2]) else Digits(s[..|s| - 1]);
        if high.None? then None else Some(high.value * 10 + d)
  }

  /** `int(text)`; None for ValueError. */
  function ParseInt(text: string): Option<int> {
    var s := Strip(text);
    if s != "" && (s[0] == '-' || s[0] == '+') then
      match Digits(s[1..])
      case None => None
      case Some(n) =>
        var signed: int := if s[0] == '-' then -(n as int) else n;
        Some(signed)
    else
      var n := Digits(s);
      if n.None? then None else Some(n.value)
  }

  lemma {:induction false} DigitsOfDecimal(n: nat)
    ensures Digits(Decimal(n)) == Some(n)
  {
    if n >= 10 {
      DigitsOfDecimal(n / 10);
      var s := Decimal(n);
      assert s[..|s| - 1] == Decimal(n / 10) && |s| >= 2;
      assert s[|s| - 2] == Decimal(n / 10)[|s| - 2];
    }
  }

  /** Reading a written number gives it back. */
  lemma ParseDecimal(n: nat)
    ensures ParseInt(Decimal(n)) == Some(n)
    ensures Clean(Decimal(n))
  {
    DigitsOfDecimal(n);
    var s := Decimal(n);
    assert Trimmed(s);
  }
}
