/** Conversions between integers and strings as the JavaScript runtime performs them:
    `String(n)` / `n.toString()` for integers and `parseInt(s)` with no radix. */
module JsNumber {
  import opened Outcomes
  import opened JsString

  predicate IsDecimalDigit(c: char) {
    '0' <= c <= '9'
  }

  /** The value of `c` as a digit in base `radix` (10 or 16), if it is one. */
  function DigitValue(c: char, radix: nat): Option<nat> {
    if '0' <= c <= '9' then Some(c as int - '0' as int)
    else if radix == 16 && 'a' <= c <= 'f' then Some(c as int - 'a' as int + 10)
    else if radix == 16 && 'A' <= c <= 'F' then Some(c as int - 'A' as int + 10)
    else None
  }

  /** The longest prefix of `s` made of digits in base `radix`. */
  function LeadingDigits(s: string, radix: nat): string {
    if s != [] && DigitValue(s[0], radix).Some? then [s[0]] + LeadingDigits(s[1..], radix) else []
  }

  /** `LeadingDigits` is a prefix made of digits, and the character after it is not one. */
  lemma {:induction false} LeadingDigitsIsLongestPrefix(s: string, radix: nat)
    ensures |LeadingDigits(s, radix)| <= |s| && LeadingDigits(s, radix) == s[..|LeadingDigits(s, radix)|]
    ensures forall i :: 0 <= i < |LeadingDigits(s, radix)| ==> DigitValue(LeadingDigits(s, radix)[i], radix).Some?
    ensures |LeadingDigits(s, radix)| < |s| ==> DigitValue(s[|LeadingDigits(s, radix)|], radix).None?
    decreases |s|
  {
    if s != [] && DigitValue(s[0], radix).Some? {
      LeadingDigitsIsLongestPrefix(s[1..], radix);
      var r := LeadingDigits(s, radix);
      assert r == [s[0]] + LeadingDigits(s[1..], radix);
      forall i | 0 <= i < |r|
        ensures DigitValue(r[i], radix).Some?
      {
        if i > 0 {
          assert r[i] == LeadingDigits(s[1..], radix)[i - 1];
        }
      }
    }
  }

  /** The value of a digit; `parseInt` applies it only to the digits `LeadingDigits` keeps. */
  function DigitOrZero(c: char, radix: nat): nat {
    match DigitValue(c, radix)
    case Some(d) => d
    case None => 0
  }

  /** The number a string of digits in base `radix` denotes, most significant digit first. */
  function DigitsValue(s: string, radix: nat): nat {
    if s == [] then 0
    else DigitsValue(s[..|s| - 1], radix) * radix + DigitOrZero(s[|s| - 1], radix)
  }

  function DigitChar(d: nat): (c: char)
    requires d < 10
    ensures IsDecimalDigit(c) && DigitValue(c, 10) == Some(d)
  {
    ('0' as int + d) as char
  }

  /** `String(n)` for a non-negative integer: its decimal digits, no leading zero. */
  function NatToString(n: nat): (r: string)
    ensures r != [] && forall i :: 0 <= i < |r| ==> IsDecimalDigit(r[i])
    ensures |r| > 1 ==> r[0] != '0'
  {
    if n < 10 then [DigitChar(n)] else NatToString(n / 10) + [DigitChar(n % 10)]
  }

  /** `String(n)` for an integer. */
  function IntToString(n: int): string {
    if n < 0 then "-" + NatToString(-n) else NatToString(n)
  }

  /** The unsigned part of `parseInt`: base 16 after a `0x`/`0X` prefix and base 10
      otherwise, up to the first character that is not a digit; `None` when no digit is read. */
  function ParseMagnitude(u: string): Option<nat> {
    var hex := |u| >= 2 && u[0] == '0' && (u[1] == 'x' || u[1] == 'X');
    var radix := if hex then 16 else 10;
    var digits := LeadingDigits(if hex then u[2..] else u, radix);
    if digits == [] then None else Some(DigitsValue(digits, radix))
  }

  /** `parseInt(s)`: skips leading white space, then reads a signed magnitude.
      `None` stands for `NaN`: no digit was read. */
  function ParseInt(s: string): Option<int> {
    ParseSigned(TrimStart(s))
  }

  /** An optional `-` or `+` followed by the magnitude. */
  function ParseSigned(t: string): Option<int> {
    var magnitude := ParseMagnitude(Unsigned(t));
    if magnitude.None? then None
    else if t != [] && t[0] == '-' then Some(0 - magnitude.value)
    else Some(magnitude.value)
  }

  /** `t` without its sign, if it has one. */
  function Unsigned(t: string): string {
    if t != [] && (t[0] == '-' || t[0] == '+') then t[1..] else t
  }

  lemma {:induction false} DecimalRoundTrip(n: nat)
    ensures DigitsValue(NatToString(n), 10) == n
    decreases n
  {
    if n >= 10 {
      var r := NatToString(n);
      DecimalRoundTrip(n / 10);
      assert r[..|r| - 1] == NatToString(n / 10);
    }
  }

  lemma {:induction false} LeadingDigitsOfDigits(s: string, radix: nat)
    requires forall i :: 0 <= i < |s| ==> DigitValue(s[i], radix).Some?
    ensures LeadingDigits(s, radix) == s
    decreases |s|
  {
    if s != [] {
      assert forall i :: 0 <= i < |s[1..]| ==> DigitValue(s[1..][i], radix).Some? by {
        forall i | 0 <= i < |s[1..]|
          ensures DigitValue(s[1..][i], radix).Some?
        {
          assert s[1..][i] == s[i + 1];
        }
      }
      LeadingDigitsOfDigits(s[1..], radix);
    }
  }

  /** The digits of `String(m)` are read in base 10 and denote `m`. */
  lemma MagnitudeOfNatToString(m: nat)
    ensures ParseMagnitude(NatToString(m)) == Some(m)
  {
    var d := NatToString(m);
    DecimalRoundTrip(m);
    assert forall i :: 0 <= i < |d| ==> DigitValue(d[i], 10).Some?;
    LeadingDigitsOfDigits(d, 10);
  }

  /** `parseInt(String(n)) == n`: the decimal rendering of an integer parses back to it. */
  lemma ParseIntOfIntToString(n: int)
    ensures ParseInt(IntToString(n)) == Some(n)
  {
    var m: nat := if n < 0 then -n else n;
    var d := NatToString(m);
    MagnitudeOfNatToString(m);
    var s := IntToString(n);
    assert IsDecimalDigit(d[0]);
    if n < 0 {
      assert s == "-" + d;
      NegativeOfMagnitude(s, m);
    } else {
      assert s == d;
      PositiveOfMagnitude(s, m);
    }
  }

  /** `-` followed by a magnitude. */
  lemma NegativeOfMagnitude(s: string, m: nat)
    requires s != [] && s[0] == '-' && ParseMagnitude(s[1..]) == Some(m)
    ensures ParseInt(s) == Some(-(m as int))
  {
    assert ParseInt(s) == ParseSigned(s) by {
      assert TrimStart(s) == s;
    }
    assert Unsigned(s) == s[1..];
  }

  /** A magnitude that starts with a digit. */
  lemma PositiveOfMagnitude(s: string, m: nat)
    requires s != [] && IsDecimalDigit(s[0]) && ParseMagnitude(s) == Some(m)
    ensures ParseInt(s) == Some(m as int)
  {
    assert !IsWhite(s[0]) && s[0] != '-' && s[0] != '+';
    assert ParseInt(s) == ParseSigned(s) by {
      assert TrimStart(s) == s;
    }
    assert Unsigned(s) == s;
  }

  /** `parseInt(String(n)) == n` for a non-negative `n`. */
  lemma ParseIntOfNatToString(n: nat)
    ensures ParseInt(NatToString(n)) == Some(n)
  {
    ParseIntOfIntToString(n);
    assert IntToString(n) == NatToString(n);
  }

  /** Distinct integers render as distinct strings. */
  lemma IntToStringInjective(a: int, b: int)
    requires IntToString(a) == IntToString(b)
    ensures a == b
  {
    ParseIntOfIntToString(a);
    ParseIntOfIntToString(b);
  }
}
