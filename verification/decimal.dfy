/**
 * Decimal numerals of non-negative integers, as JavaScript writes them when a
 * number is concatenated to a string (`m + " min"`), and the reading of such a
 * numeral back into its value.
 */
module Decimal {
  import opened Wrappers

  predicate IsDigitChar(c: char) {
    '0' <= c <= '9'
  }

  predicate IsDigits(s: string) {
    forall i :: 0 <= i < |s| ==> IsDigitChar(s[i])
  }

  /** The character of a single decimal digit. */
  function DigitChar(d: nat): (c: char)
    requires d < 10
    ensures IsDigitChar(c)
    ensures c as int - '0' as int == d
  {
    ('0' as int + d) as char
  }

  /** The value of a single decimal digit character. */
  function DigitValue(c: char): (d: nat)
    requires IsDigitChar(c)
    ensures d < 10
    ensures DigitChar(d) == c
  {
    c as int - '0' as int
  }

  /**
   * The shortest decimal numeral of `n`: digits only, never empty, and with a
   * leading zero only for zero itself.
   */
  function NatToString(n: nat): (r: string)
    ensures |r| >= 1 && IsDigits(r)
    ensures r[0] == '0' ==> n == 0
    ensures |r| == 1 <==> n < 10
    decreases n
  {
    if n < 10 then [DigitChar(n)] else NatToString(n / 10) + [DigitChar(n % 10)]
  }

  /** The value of a string of decimal digits, most significant digit first. */
  function DigitsValue(s: string): nat
    requires IsDigits(s)
    decreases |s|
  {
    if |s| == 0 then 0 else 10 * DigitsValue(s[..|s| - 1]) + DigitValue(s[|s| - 1])
  }

  /** Reading a numeral back gives the number it was written from. */
  lemma {:induction false} NatToStringRoundTrip(n: nat)
    ensures DigitsValue(NatToString(n)) == n
    decreases n
  {
    var r := NatToString(n);
    if n < 10 {
      assert r[..|r| - 1] == [];
    } else {
      var p := NatToString(n / 10);
      assert r == p + [DigitChar(n % 10)];
      assert r[..|r| - 1] == p;
      NatToStringRoundTrip(n / 10);
    }
  }

  /** Distinct numbers have distinct numerals. */
  lemma NatToStringInjective(a: nat, b: nat)
    ensures NatToString(a) == NatToString(b) <==> a == b
  {
    NatToStringRoundTrip(a);
    NatToStringRoundTrip(b);
  }

  /** The length of the longest prefix of `t` made of digits. */
  function LeadingDigits(t: string): (k: nat)
    ensures k <= |t|
    ensures forall i :: 0 <= i < k ==> IsDigitChar(t[i])
    ensures k < |t| ==> !IsDigitChar(t[k])
    decreases |t|
  {
    if |t| > 0 && IsDigitChar(t[0]) then 1 + LeadingDigits(t[1..]) else 0
  }

  /** Splits a string into the value of its leading numeral and what follows it. */
  function ReadNumeral(t: string): Option<(nat, string)> {
    var k := LeadingDigits(t);
    assert IsDigits(t[..k]);
    if k == 0 then None else Some((DigitsValue(t[..k]), t[k..]))
  }

  /** A numeral followed by a non-digit is read back whole, and the rest is left over. */
  lemma ReadNumeralOfNatToString(n: nat, rest: string)
    requires |rest| == 0 || !IsDigitChar(rest[0])
    ensures ReadNumeral(NatToString(n) + rest) == Some((n, rest))
  {
    var p := NatToString(n);
    var t := p + rest;
    var k := LeadingDigits(t);
    assert forall i :: 0 <= i < |p| ==> t[i] == p[i];
    if |rest| > 0 {
      assert t[|p|] == rest[0];
    }
    assert k == |p|;
    assert t[..k] == p;
    assert t[k..] == rest;
    NatToStringRoundTrip(n);
  }
}
