/** Decimal rendering of integers (`String(n)`, `n.toString()`, template literals),
    `padStart`, and ECMAScript `parseInt` with no radix argument. */
module Numerals {
  import opened Wrappers

  predicate IsDigit(c: char) {
    '0' <= c <= '9'
  }

  function DigitChar(d: nat): (c: char)
    requires d < 10
    ensures IsDigit(c)
    ensures c as int - '0' as int == d
  {
    (('0' as int) + d) as char
  }

  /** Decimal digits of `n`, most significant first, with no leading zero. */
  function NatToString(n: nat): (s: string)
    ensures |s| >= 1
    ensures forall i :: 0 <= i < |s| ==> IsDigit(s[i])
    ensures n < 10 <==> |s| == 1
    decreases n
  {
    if n < 10 then [DigitChar(n)] else NatToString(n / 10) + [DigitChar(n % 10)]
  }

  /** Decimal rendering of an integer: a minus sign for negatives, then the digits. */
  function IntToString(i: int): (s: string)
    ensures |s| >= 1
    ensures forall k :: 0 < k < |s| ==> IsDigit(s[k])
    ensures IsDigit(s[0]) <==> i >= 0
    ensures i < 0 ==> s[0] == '-'
  {
    if i < 0 then "-" + NatToString(-i) else NatToString(i)
  }

  /** `s.padStart(width, fill)` with a one-character fill string. */
  function PadStart(s: string, width: nat, fill: char): (r: string)
    ensures |s| >= width ==> r == s
    ensures |s| < width ==> |r| == width
    ensures |r| >= |s| && r[|r| - |s|..] == s
    ensures forall i :: 0 <= i < |r| - |s| ==> r[i] == fill
  {
    if |s| >= width then s
    else
      var pad := seq(width - |s|, _ => fill);
      assert (pad + s)[width - |s|..] == s;
      pad + s
  }

  /** The value of a character as a digit of radix up to 36, as `parseInt` reads it. */
  function DigitValue(c: char): Option<nat> {
    if '0' <= c <= '9' then Some(c as int - '0' as int)
    else if 'a' <= c <= 'z' then Some(c as int - 'a' as int + 10)
    else if 'A' <= c <= 'Z' then Some(c as int - 'A' as int + 10)
    else None
  }

  predicate IsRadixDigit(c: char, radix: nat) {
    DigitValue(c).Some? && DigitValue(c).value < radix
  }

  /** Length of the longest prefix of `s` made only of digits of `radix`. */
  function DigitPrefixLength(s: string, radix: nat): (k: nat)
    ensures k <= |s|
    ensures forall i :: 0 <= i < k ==> IsRadixDigit(s[i], radix)
    ensures k < |s| ==> !IsRadixDigit(s[k], radix)
    decreases |s|
  {
    if |s| == 0 || !IsRadixDigit(s[0], radix) then 0 else 1 + DigitPrefixLength(s[1..], radix)
  }

  /** Positional value of a string of radix digits, most significant first. */
  function ValueOf(s: string, radix: nat): int
    requires forall i :: 0 <= i < |s| ==> IsRadixDigit(s[i], radix)
    decreases |s|
  {
    if |s| == 0 then 0
    else
      var d := DigitValue(s[|s| - 1]);
      assert IsRadixDigit(s[|s| - 1], radix);
      ValueOf(s[..|s| - 1], radix) * radix + d.value
  }

  /** The characters `parseInt` skips before the number: white space and line terminators
      of ECMAScript (tab, vertical tab, form feed, the Zs space separators, BOM, LF, CR,
      LS, PS). */
  predicate IsJsWhiteSpace(c: char) {
    var n := c as int;
    (0x09 <= n <= 0x0D) || n == 0x20 || n == 0xA0 || n == 0x1680
    || (0x2000 <= n <= 0x200A) || n == 0x2028 || n == 0x2029
    || n == 0x202F || n == 0x205F || n == 0x3000 || n == 0xFEFF
  }

  /** `s` without its leading white space. */
  function TrimStart(s: string): (r: string)
    ensures |r| <= |s| && r == s[|s| - |r|..]
    ensures |r| == 0 || !IsJsWhiteSpace(r[0])
    ensures forall i :: 0 <= i < |s| - |r| ==> IsJsWhiteSpace(s[i])
    decreases |s|
  {
    if |s| > 0 && IsJsWhiteSpace(s[0]) then TrimStart(s[1..]) else s
  }

  /** The value of the longest run of radix digits at the start of `body`; None when there is none. */
  function LeadingValue(body: string, radix: nat): (r: Option<int>)
    ensures r.None? <==> DigitPrefixLength(body, radix) == 0
  {
    var k := DigitPrefixLength(body, radix);
    if k == 0 then None
    else
      var digits := body[..k];
      assert forall i :: 0 <= i < |digits| ==> IsRadixDigit(digits[i], radix);
      Some(ValueOf(digits, radix))
  }

  /** `parseInt(s)` with no radix: skip leading white space, then read the number. None
      stands for `NaN`, the result when no digit follows. Double-precision rounding of very
      long numerals is not modelled. */
  function ParseInt(s: string): (r: Option<int>)
    ensures |TrimStart(s)| == 0 ==> r.None?
  {
    ParseTrimmed(TrimStart(s))
  }

  /** The number at the start of `t`: an optional sign, then a `0x`/`0X` prefix selects
      radix 16 (otherwise radix 10), and the longest run of digits that follows is the
      value. */
  function ParseTrimmed(t: string): (r: Option<int>)
    ensures |t| == 0 ==> r.None?
  {
    var negative := |t| > 0 && t[0] == '-';
    var u := if |t| > 0 && (t[0] == '-' || t[0] == '+') then t[1..] else t;
    var hex := |u| >= 2 && u[0] == '0' && (u[1] == 'x' || u[1] == 'X');
    var v := LeadingValue(if hex then u[2..] else u, if hex then 16 else 10);
    match v
    case None => None
    case Some(n) => Some(if negative then -n else n)
  }

  /** White space before a number does not change what `parseInt` reads. */
  lemma ParseIntSkipsWhiteSpace(c: char, s: string)
    requires IsJsWhiteSpace(c)
    ensures ParseInt([c] + s) == ParseInt(s)
  {
    assert ([c] + s)[1..] == s;
  }

  /** Reading back the digits of `n` gives `n`. */
  lemma {:induction false} NatToStringValue(n: nat)
    ensures ValueOf(NatToString(n), 10) == n
    decreases n
  {
    var s := NatToString(n);
    if n < 10 {
      assert s[..|s| - 1] == [];
    } else {
      NatToStringValue(n / 10);
      assert s[..|s| - 1] == NatToString(n / 10);
    }
  }

  /** A string of decimal digits is read whole by `parseInt`. */
  lemma ParseIntOfDigits(u: string)
    requires |u| >= 1
    requires forall i :: 0 <= i < |u| ==> IsDigit(u[i])
    ensures DigitPrefixLength(u, 10) == |u|
    ensures !(|u| >= 2 && u[0] == '0' && (u[1] == 'x' || u[1] == 'X'))
  {
    assert forall i :: 0 <= i < |u| ==> IsRadixDigit(u[i], 10);
  }

  /** `parseInt(String(i)) === i`: the decimal rendering of an integer parses back to it. */
  lemma ParseIntOfIntToString(i: int)
    ensures ParseInt(IntToString(i)) == Some(i)
  {
    var s := IntToString(i);
    assert !IsJsWhiteSpace(s[0]);
    assert TrimStart(s) == s;
    var n: nat := if i < 0 then -i else i;
    var digits := NatToString(n);
    NatToStringValue(n);
    ParseIntOfDigits(digits);
    assert digits[..|digits|] == digits;
    if i < 0 {
      assert s == "-" + digits;
      assert s[1..] == digits;
    } else {
      assert s == digits;
    }
  }

  /** Distinct integers render to distinct strings. */
  lemma IntToStringInjective(a: int, b: int)
    requires IntToString(a) == IntToString(b)
    ensures a == b
  {
    ParseIntOfIntToString(a);
    ParseIntOfIntToString(b);
  }
}
