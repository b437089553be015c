/**
 * Decimal text of integers as the C library writes and reads it: the digit
 * string of a `%d` conversion, its zero or space padding to a minimum field
 * width (section 7.21.6.1 of ISO/IEC 9899:2011), and `atoi`
 * (section 7.22.1.2), on unbounded integers.
 */
module Decimal {

  predicate IsDigit(c: char) {
    '0' <= c <= '9'
  }

  predicate AllDigits(s: string) {
    forall i :: 0 <= i < |s| ==> IsDigit(s[i])
  }

  function DigitChar(d: nat): (c: char)
    requires d < 10
    ensures IsDigit(c)
  {
    ('0' as int + d) as char
  }

  function DigitValue(c: char): (d: nat)
    requires IsDigit(c)
    ensures d < 10 && DigitChar(d) == c
  {
    c as int - '0' as int
  }

  function Repeat(c: char, k: nat): (r: string)
    ensures |r| == k
  {
    if k == 0 then [] else Repeat(c, k - 1) + [c]
  }

  lemma {:induction false} RepeatChars(c: char, k: nat)
    ensures forall i :: 0 <= i < k ==> Repeat(c, k)[i] == c
  {
    if k > 0 {
      RepeatChars(c, k - 1);
      assert forall i :: 0 <= i < k - 1 ==> Repeat(c, k)[i] == Repeat(c, k - 1)[i];
    }
  }

  function Abs(v: int): nat {
    if v < 0 then -v else v
  }

  /** The decimal digits of `n`, most significant first, without leading zeros ("0" for zero). */
  function Digits(n: nat): (r: string)
    ensures 1 <= |r| && AllDigits(r)
    ensures r[0] == '0' ==> n == 0
    decreases n
  {
    if n < 10 then [DigitChar(n)] else Digits(n / 10) + [DigitChar(n % 10)]
  }

  /** The value of a string of decimal digits; leading zeros are allowed. */
  function ValueOf(s: string): nat
    requires AllDigits(s)
  {
    if s == [] then 0 else 10 * ValueOf(s[..|s| - 1]) + DigitValue(s[|s| - 1])
  }

  /** Reading back the digits of `n` gives `n`: `Digits` is injective and loses nothing. */
  lemma {:induction false} DigitsRoundTrip(n: nat)
    ensures ValueOf(Digits(n)) == n
    decreases n
  {
    if n >= 10 {
      var s := Digits(n);
      assert s[..|s| - 1] == Digits(n / 10);
      DigitsRoundTrip(n / 10);
    }
  }

  lemma {:induction false} ValueOfZeros(k: nat)
    ensures AllDigits(Repeat('0', k)) && ValueOf(Repeat('0', k)) == 0
  {
    RepeatChars('0', k);
    if k > 0 {
      assert Repeat('0', k)[..k - 1] == Repeat('0', k - 1);
      ValueOfZeros(k - 1);
    }
  }

  /** Leading zeros do not change the value read. */
  lemma {:induction false} ValueOfLeadingZeros(k: nat, s: string)
    requires AllDigits(s)
    ensures AllDigits(Repeat('0', k) + s)
    ensures ValueOf(Repeat('0', k) + s) == ValueOf(s)
    decreases |s|
  {
    var t := Repeat('0', k) + s;
    RepeatChars('0', k);
    assert AllDigits(t);
    if s == [] {
      assert t == Repeat('0', k);
      ValueOfZeros(k);
    } else {
      assert t[..|t| - 1] == Repeat('0', k) + s[..|s| - 1];
      ValueOfLeadingZeros(k, s[..|s| - 1]);
    }
  }

  /** The number of decimal digits at the start of `s` (the run `atoi` and a field width consume). */
  function LeadingDigits(s: string): (k: nat)
    ensures k <= |s| && forall i :: 0 <= i < k ==> IsDigit(s[i])
    ensures k < |s| ==> !IsDigit(s[k])
  {
    if s != [] && IsDigit(s[0]) then
      var k := 1 + LeadingDigits(s[1..]);
      assert s[..k] == [s[0]] + s[1..][..k - 1];
      k
    else 0
  }

  /** The characters `isspace` accepts in the "C" locale. */
  predicate IsSpace(c: char) {
    c == ' ' || c == '\t' || c == '\n' || c as int == 11 || c as int == 12 || c == '\r'
  }

  function SkipSpaces(s: string): (r: string)
    ensures |r| <= |s| && r == s[|s| - |r|..]
    ensures r != [] ==> !IsSpace(r[0])
  {
    if s != [] && IsSpace(s[0]) then SkipSpaces(s[1..]) else s
  }

  /** `atoi`: optional white space, an optional sign, then the longest run of digits (none reads as 0). */
  function Atoi(s: string): int {
    var t := SkipSpaces(s);
    if t != [] && (t[0] == '-' || t[0] == '+') then
      var u := t[1..];
      var m: int := ValueOf(u[..LeadingDigits(u)]);
      if t[0] == '-' then -m else m
    else
      ValueOf(t[..LeadingDigits(t)])
  }

  /**
   * A `%d` conversion of `v` with minimum field width `width`: the sign of a
   * negative value, then the digits; when the result is shorter than the width
   * it is padded on the left, with zeros after the sign under the `0` flag and
   * with spaces before the sign otherwise.
   */
  function PadInt(v: int, width: nat, zero: bool): string {
    var sign := if v < 0 then "-" else "";
    var digits := Digits(Abs(v));
    var pad := if width > |sign| + |digits| then width - |sign| - |digits| else 0;
    if zero then sign + Repeat('0', pad) + digits else Repeat(' ', pad) + sign + digits
  }

  /**
   * The field is as wide as `width` or as the unpadded number, whichever is
   * wider; the padding goes between the sign and the digits under the `0`
   * flag and before the sign otherwise.
   */
  lemma PadIntShape(v: int, width: nat, zero: bool)
    ensures var r := PadInt(v, width, zero);
      var plain := (if v < 0 then "-" else "") + Digits(Abs(v));
      && |r| == (if width > |plain| then width else |plain|)
      && (zero ==> r == (if v < 0 then "-" else "") + Repeat('0', |r| - |plain|) + Digits(Abs(v)))
      && (!zero ==> r == Repeat(' ', |r| - |plain|) + plain)
  {
  }

  /**
   * Zero padding never shortens a number and never hides its sign: the
   * field is at least `width` long and at least as long as the unpadded
   * number, it starts with '-' exactly when `v` is negative, and everything
   * else in it is a digit.
   */
  lemma ZeroPadShape(v: int, width: nat)
    ensures var r := PadInt(v, width, true);
      && |r| >= width && |r| >= |PadInt(v, 0, true)|
      && (r[0] == '-' <==> v < 0)
      && (v < 0 ==> AllDigits(r[1..]))
      && (v >= 0 ==> AllDigits(r))
  {
    var r := PadInt(v, width, true);
    var digits := Digits(Abs(v));
    PadIntShape(v, width, true);
    PadIntShape(v, 0, true);
    if v < 0 {
      assert r[1..] == Repeat('0', |r| - |digits| - 1) + digits;
      ValueOfLeadingZeros(|r| - |digits| - 1, digits);
    } else {
      assert r == Repeat('0', |r| - |digits|) + digits;
      ValueOfLeadingZeros(|r| - |digits|, digits);
      assert IsDigit(r[0]);
    }
  }

  lemma AtoiAllDigits(s: string)
    requires s != [] && AllDigits(s)
    ensures Atoi(s) == ValueOf(s)
  {
    assert SkipSpaces(s) == s by { assert !IsSpace(s[0]); }
    assert s[..LeadingDigits(s)] == s;
  }

  lemma AtoiNegative(s: string)
    requires |s| > 1 && s[0] == '-' && AllDigits(s[1..])
    ensures Atoi(s) == -(ValueOf(s[1..]) as int)
  {
    assert SkipSpaces(s) == s by { assert !IsSpace(s[0]); }
    var u := s[1..];
    assert u[..LeadingDigits(u)] == u;
  }

  /** Reading a zero-padded field back with `atoi` yields the value that was written. */
  lemma AtoiZeroPad(v: int, width: nat)
    ensures Atoi(PadInt(v, width, true)) == v
  {
    var r := PadInt(v, width, true);
    var digits := Digits(Abs(v));
    PadIntShape(v, width, true);
    DigitsRoundTrip(Abs(v));
    if v < 0 {
      var zeros := Repeat('0', |r| - |digits| - 1);
      assert r == "-" + zeros + digits;
      assert r[1..] == zeros + digits;
      ValueOfLeadingZeros(|zeros|, digits);
      AtoiNegative(r);
    } else {
      var zeros := Repeat('0', |r| - |digits|);
      assert r == zeros + digits;
      ValueOfLeadingZeros(|zeros|, digits);
      AtoiAllDigits(r);
    }
  }
}
