/**
 * Python string primitives the dashboard relies on: `str.isspace`, `str.strip`,
 * `int(s)`, `str(n)`, single-character `str.replace` and `sep.join`.
 */
module Text {
  import opened Wrappers

  /** Python's `str.isspace()` for one character. */
  predicate IsPyWhitespace(c: char) {
    var n := c as int;
    (0x09 <= n <= 0x0d) || (0x1c <= n <= 0x20) || n == 0x85 || n == 0xa0 || n == 0x1680
    || (0x2000 <= n <= 0x200a) || n == 0x2028 || n == 0x2029 || n == 0x202f || n == 0x205f
    || n == 0x3000
  }

  predicate IsDigit(c: char) { '0' <= c <= '9' }

  function DigitValue(c: char): (d: nat)
    requires IsDigit(c)
    ensures d < 10
  {
    c as int - '0' as int
  }

  function DigitChar(d: nat): (c: char)
    requires d < 10
    ensures IsDigit(c) && DigitValue(c) == d
  {
    ('0' as int + d) as char
  }

  predicate AllDigits(s: string) {
    forall i :: 0 <= i < |s| ==> IsDigit(s[i])
  }

  /** `str(n)` for a non-negative integer: decimal digits, no leading zero. */
  function NatToString(n: nat): (s: string)
    ensures 1 <= |s| && AllDigits(s)
    ensures |s| > 1 ==> s[0] != '0'
    decreases n
  {
    if n < 10 then [DigitChar(n)] else NatToString(n / 10) + [DigitChar(n % 10)]
  }

  /** `str(i)` for any integer. */
  function IntToString(i: int): (s: string)
    ensures 1 <= |s|
  {
    if i < 0 then "-" + NatToString(-i) else NatToString(i)
  }

  /** The value of the decimal digits of `s`, read left to right; other characters (the `_` separators) are skipped. */
  function DecimalValue(s: string): nat
  {
    if s == [] then 0
    else if IsDigit(s[|s| - 1]) then DecimalValue(s[..|s| - 1]) * 10 + DigitValue(s[|s| - 1])
    else DecimalValue(s[..|s| - 1])
  }

  /** Digits in which single underscores may separate two digits, as `int()` accepts. */
  predicate IsDigitGroup(s: string)
    decreases |s|
  {
    && |s| > 0
    && IsDigit(s[|s| - 1])
    && (|| |s| == 1
        || IsDigitGroup(s[..|s| - 1])
        || (|s| >= 3 && s[|s| - 2] == '_' && IsDigitGroup(s[..|s| - 2])))
  }

  /** `s.strip()`: surrounding whitespace removed, one character at a time from either end. */
  function Strip(s: string): (t: string)
    ensures |t| <= |s|
    ensures |t| > 0 ==> !IsPyWhitespace(t[0]) && !IsPyWhitespace(t[|t| - 1])
    decreases |s|
  {
    if s != [] && IsPyWhitespace(s[0]) then Strip(s[1..])
    else if s != [] && IsPyWhitespace(s[|s| - 1]) then Strip(s[..|s| - 1])
    else s
  }

  lemma StripUnchanged(s: string)
    requires |s| > 0 ==> !IsPyWhitespace(s[0]) && !IsPyWhitespace(s[|s| - 1])
    ensures Strip(s) == s
  {
  }

  /** `int(s)`: ValueError (None here) unless `s` is an optionally signed decimal literal. */
  function ParseInt(s: string): Option<int> {
    var t := Strip(s);
    if |t| > 0 && (t[0] == '+' || t[0] == '-') then
      if IsDigitGroup(t[1..]) then
        Some(if t[0] == '-' then 0 - DecimalValue(t[1..]) else DecimalValue(t[1..]) as int)
      else None
    else if IsDigitGroup(t) then Some(DecimalValue(t))
    else None
  }

  /** The rendering of `n` is a digit group whose value is `n`. */
  lemma {:induction false} DecimalValueOfNatToString(n: nat)
    ensures DecimalValue(NatToString(n)) == n
    ensures IsDigitGroup(NatToString(n))
    decreases n
  {
    var s := NatToString(n);
    if n >= 10 {
      assert s[..|s| - 1] == NatToString(n / 10);
      DecimalValueOfNatToString(n / 10);
    } else {
      assert s[..0] == [];
    }
  }

  /** `int(str(i)) == i`: the decimal rendering of an integer parses back to it. */
  lemma ParseIntOfIntToString(i: int)
    ensures ParseInt(IntToString(i)) == Some(i)
  {
    if i < 0 {
      ParseIntOfNegative(-i);
    } else {
      ParseIntOfNatToString(i);
    }
  }

  lemma ParseIntOfNatToString(n: nat)
    ensures ParseInt(NatToString(n)) == Some(n)
  {
    var digits := NatToString(n);
    DecimalValueOfNatToString(n);
    assert IsDigit(digits[0]) && IsDigit(digits[|digits| - 1]);
    StripUnchanged(digits);
  }

  lemma ParseIntOfNegative(n: nat)
    ensures ParseInt("-" + NatToString(n)) == Some(-(n as int))
  {
    var digits := NatToString(n);
    var s := "-" + digits;
    DecimalValueOfNatToString(n);
    assert s[|s| - 1] == digits[|digits| - 1];
    StripUnchanged(s);
    assert s[1..] == digits;
    assert ParseInt(s) == Some(0 - DecimalValue(digits));
  }

  lemma NatToStringInjective(a: nat, b: nat)
    requires NatToString(a) == NatToString(b)
    ensures a == b
  {
    DecimalValueOfNatToString(a);
    DecimalValueOfNatToString(b);
  }

  /** `s.replace(c, r)` for a one-character pattern `c`. */
  function ReplaceChar(s: string, c: char, r: string): string {
    if s == [] then [] else (if s[0] == c then r else [s[0]]) + ReplaceChar(s[1..], c, r)
  }

  /** Every character of the result is a character of `s` other than `c`, or one of `r`. */
  lemma {:induction false} ReplaceCharMembers(s: string, c: char, r: string)
    ensures forall x :: x in ReplaceChar(s, c, r) ==> (x in s && x != c) || x in r
    decreases |s|
  {
    if s != [] {
      ReplaceCharMembers(s[1..], c, r);
      assert forall x :: x in s[1..] ==> x in s;
    }
  }

  lemma {:induction false} ReplaceCharAppend(s1: string, s2: string, c: char, r: string)
    ensures ReplaceChar(s1 + s2, c, r) == ReplaceChar(s1, c, r) + ReplaceChar(s2, c, r)
    decreases |s1|
  {
    if s1 != [] {
      assert (s1 + s2)[1..] == s1[1..] + s2;
      ReplaceCharAppend(s1[1..], s2, c, r);
    } else {
      assert s1 + s2 == s2;
    }
  }

  lemma {:induction false} ReplaceCharAbsent(s: string, c: char, r: string)
    requires c !in s
    ensures ReplaceChar(s, c, r) == s
    decreases |s|
  {
    if s != [] {
      ReplaceCharAbsent(s[1..], c, r);
    }
  }

  /** `sep.join(parts)`. */
  function JoinWith(sep: string, parts: seq<string>): string {
    if parts == [] then ""
    else if |parts| == 1 then parts[0]
    else parts[0] + sep + JoinWith(sep, parts[1..])
  }
}
