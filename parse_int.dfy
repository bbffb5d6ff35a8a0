/** JavaScript's global `parseInt(string)` called without a radix, which is
    how the recurrence field is turned into an occurrence count: leading
    white space is skipped, one sign is read, a `0x`/`0X` prefix selects
    base 16, and the longest run of digits that follows is converted.
    No digits at all gives NaN, modelled as `None`. */
module JsParseInt {
  import opened Seqs

  /** The white space and line terminators that `parseInt` skips. */
  predicate IsJsSpace(c: char)
  {
    c == '\t' || c == '\n' || c == '\U{000B}' || c == '\U{000C}' || c == '\r' || c == ' '
    || c == '\U{00A0}' || c == '\U{1680}' || ('\U{2000}' <= c <= '\U{200A}')
    || c == '\U{2028}' || c == '\U{2029}' || c == '\U{202F}' || c == '\U{205F}'
    || c == '\U{3000}' || c == '\U{FEFF}'
  }

  function TrimStart(s: string): (r: string)
    ensures |r| <= |s| && r == s[|s| - |r|..]
    ensures |r| > 0 ==> !IsJsSpace(r[0])
    ensures forall j :: 0 <= j < |s| - |r| ==> IsJsSpace(s[j])
  {
    if |s| > 0 && IsJsSpace(s[0]) then TrimStart(s[1..]) else s
  }

  /** The value of a letter or digit in bases up to 36; 36 for anything else. */
  function CharValue(c: char): (v: nat)
    ensures v <= 36
  {
    if '0' <= c <= '9' then c as int - '0' as int
    else if 'a' <= c <= 'z' then c as int - 'a' as int + 10
    else if 'A' <= c <= 'Z' then c as int - 'A' as int + 10
    else 36
  }

  predicate IsDigit(c: char, radix: nat)
  {
    CharValue(c) < radix
  }

  /** Length of the longest prefix made of digits of `radix`. */
  function DigitRun(s: string, radix: nat): (n: nat)
    ensures n <= |s|
    ensures forall j :: 0 <= j < n ==> IsDigit(s[j], radix)
    ensures n < |s| ==> !IsDigit(s[n], radix)
  {
    if |s| > 0 && IsDigit(s[0], radix) then 1 + DigitRun(s[1..], radix) else 0
  }

  /** The number written by a string of digits, most significant first. */
  function DigitsValue(s: string, radix: nat): nat
  {
    if |s| == 0 then 0
    else DigitsValue(s[..|s| - 1], radix) * radix + CharValue(s[|s| - 1])
  }

  /** The number after the sign: a `0x`/`0X` prefix selects base 16, and the
      longest run of digits is read; no digits at all is NaN. */
  function ParseUnsigned(u: string): Option<nat>
  {
    var hex := |u| >= 2 && u[0] == '0' && (u[1] == 'x' || u[1] == 'X');
    var radix := if hex then 16 else 10;
    var v := if hex then u[2..] else u;
    var n := DigitRun(v, radix);
    if n == 0 then None else Some(DigitsValue(v[..n], radix))
  }

  function ParseInt(s: string): Option<int>
  {
    var t := TrimStart(s);
    if |t| > 0 && t[0] == '-' then
      match ParseUnsigned(t[1..])
      case None => None
      case Some(n) => Some(-(n as int))
    else if |t| > 0 && t[0] == '+' then
      match ParseUnsigned(t[1..])
      case None => None
      case Some(n) => Some(n)
    else
      match ParseUnsigned(t)
      case None => None
      case Some(n) => Some(n)
  }

  /** The decimal numeral of `n`, without leading zeros. */
  function Decimal(n: nat): (r: string)
    ensures |r| > 0
    ensures forall j :: 0 <= j < |r| ==> '0' <= r[j] <= '9'
  {
    if n < 10 then [('0' as int + n) as char]
    else Decimal(n / 10) + [('0' as int + n % 10) as char]
  }

  lemma {:induction false} DecimalValue(n: nat)
    ensures DigitsValue(Decimal(n), 10) == n
  {
    var r := Decimal(n);
    if n >= 10 {
      DecimalValue(n / 10);
      assert r[..|r| - 1] == Decimal(n / 10);
    }
  }

  lemma {:induction false} DigitRunAll(s: string, radix: nat)
    requires forall j :: 0 <= j < |s| ==> IsDigit(s[j], radix)
    ensures DigitRun(s, radix) == |s|
  {
    if |s| > 0 {
      DigitRunAll(s[1..], radix);
    }
  }

  lemma ParseUnsignedDecimal(n: nat)
    ensures ParseUnsigned(Decimal(n)) == Some(n)
  {
    var r := Decimal(n);
    assert |r| >= 2 ==> '0' <= r[1] <= '9';
    DigitRunAll(r, 10);
    assert r[..|r|] == r;
    DecimalValue(n);
  }

  lemma DigitIsNotSpace(c: char)
    requires '0' <= c <= '9'
    ensures !IsJsSpace(c) && c != '-' && c != '+'
  {
  }

  /** Round trip: `parseInt` reads back every decimal numeral exactly. */
  lemma ParseDecimal(n: nat)
    ensures ParseInt(Decimal(n)) == Some(n)
  {
    var r := Decimal(n);
    DigitIsNotSpace(r[0]);
    assert TrimStart(r) == r;
    ParseUnsignedDecimal(n);
  }

  /** A word without leading digits is NaN, so "monthly" does not parse. */
  lemma ParseWordIsNaN()
    ensures ParseInt("monthly") == None
  {
    assert !IsJsSpace('m');
    assert TrimStart("monthly") == "monthly";
    assert CharValue('m') == 22;
  }

  /** Digits stop at the first non-digit: "12 meses" reads as 12. */
  lemma ParseStopsAtNonDigit()
    ensures ParseInt("12 meses") == Some(12)
  {
    var s := "12 meses";
    DigitIsNotSpace('1');
    assert TrimStart(s) == s;
    assert s[1..][1..] == " meses";
    assert DigitRun(" meses", 10) == 0;
    assert DigitRun(s, 10) == 2;
    assert s[..2] == "12";
    assert "12"[..1] == "1";
    assert "1"[..0] == "";
    assert DigitsValue("1", 10) == 1;
    assert DigitsValue("12", 10) == 12;
    assert ParseUnsigned(s) == Some(12);
  }
}
