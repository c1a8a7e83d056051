/**
 * The JavaScript built-ins that inventory_management.js relies on for text:
 * `String.prototype.toLowerCase` (restricted to ASCII letters), the rendering of an
 * integer inside a template literal, and `Number.prototype.toFixed(2)`, the last
 * one stated on exact reals rather than on IEEE-754 doubles.
 */
module Text {

  /** Lowercases one ASCII letter; every other character is left alone. */
  function LowerChar(c: char): (r: char)
    ensures 'A' <= c <= 'Z' ==> 'a' <= r <= 'z' && r as int - c as int == 32
    ensures !('A' <= c <= 'Z') ==> r == c
  {
    if 'A' <= c <= 'Z' then (c as int + 32) as char else c
  }

  /** `s.toLowerCase()` for ASCII case folding: same length, each character lowercased. */
  function ToLower(s: string): (r: string)
    ensures |r| == |s|
    ensures forall i :: 0 <= i < |s| ==> r[i] == LowerChar(s[i])
  {
    if s == [] then [] else [LowerChar(s[0])] + ToLower(s[1..])
  }

  /** Two strings are the same up to ASCII case, position by position. */
  predicate EqualIgnoringCase(a: string, b: string)
  {
    |a| == |b| && forall i :: 0 <= i < |a| ==> LowerChar(a[i]) == LowerChar(b[i])
  }

  /** Comparing lowercased strings, as the store's lookup does, is exactly equality up to case. */
  lemma LowerEqualIffEqualIgnoringCase(a: string, b: string)
    ensures ToLower(a) == ToLower(b) <==> EqualIgnoringCase(a, b)
  {
    if EqualIgnoringCase(a, b) {
      assert forall i :: 0 <= i < |a| ==> ToLower(a)[i] == ToLower(b)[i];
    }
    if ToLower(a) == ToLower(b) {
      assert forall i :: 0 <= i < |a| ==> LowerChar(a[i]) == ToLower(a)[i] == ToLower(b)[i];
    }
  }

  predicate IsDigit(c: char)
  {
    '0' <= c <= '9'
  }

  predicate AllDigits(s: string)
  {
    forall i :: 0 <= i < |s| ==> IsDigit(s[i])
  }

  function DigitChar(d: nat): (c: char)
    requires d < 10
    ensures IsDigit(c) && c as int - '0' as int == d
  {
    ('0' as int + d) as char
  }

  /** The number a string of decimal digits denotes. */
  function DecimalValue(s: string): nat
    requires AllDigits(s)
  {
    if s == [] then 0 else DecimalValue(s[..|s| - 1]) * 10 + (s[|s| - 1] as int - '0' as int)
  }

  /** The shortest decimal rendering of a natural number, as JavaScript prints an integer. */
  function NatToDecimal(n: nat): (s: string)
    ensures |s| >= 1 && AllDigits(s)
    ensures |s| > 1 ==> s[0] != '0'
  {
    if n < 10 then [DigitChar(n)] else NatToDecimal(n / 10) + [DigitChar(n % 10)]
  }

  /** Reading back a rendered natural number gives that number. */
  lemma {:induction false} NatToDecimalRoundTrip(n: nat)
    ensures DecimalValue(NatToDecimal(n)) == n
  {
    if n >= 10 {
      var s := NatToDecimal(n);
      assert s[..|s| - 1] == NatToDecimal(n / 10);
      NatToDecimalRoundTrip(n / 10);
    }
  }

  /** `${i}` for an integer `i`: a minus sign for negative values, then the digits. */
  function IntToDecimal(i: int): (s: string)
    ensures i < 0 <==> (|s| > 0 && s[0] == '-')
    ensures i >= 0 ==> AllDigits(s) && DecimalValue(s) == i
    ensures i < 0 ==> AllDigits(s[1..]) && DecimalValue(s[1..]) == -i
    ensures i >= 0 && |s| > 1 ==> s[0] != '0'
    ensures i < 0 && |s| > 2 ==> s[1] != '0'
    ensures |s| >= 1 && (i < 0 ==> |s| >= 2)
  {
    NatToDecimalRoundTrip(if i < 0 then -i else i);
    if i < 0 then "-" + NatToDecimal(-i) else NatToDecimal(i)
  }

  /**
   * The integer n that toFixed(2) renders for a non-negative x: the n for which
   * n / 100 - x is closest to zero, the larger one on a tie.
   */
  function RoundedCents(x: real): (n: nat)
    requires x >= 0.0
    ensures n as real - 0.5 <= 100.0 * x < n as real + 0.5
  {
    (100.0 * x + 0.5).Floor
  }

  function Zeros(k: nat): (s: string)
    ensures |s| == k && AllDigits(s) && DecimalValue(s) == 0
  {
    if k == 0 then [] else Zeros(k - 1) + ['0']
  }

  /** Leading zeros do not change the value of a digit string. */
  lemma {:induction false} LeadingZeros(k: nat, s: string)
    requires AllDigits(s)
    ensures AllDigits(Zeros(k) + s) && DecimalValue(Zeros(k) + s) == DecimalValue(s)
  {
    if s == [] {
      assert Zeros(k) + s == Zeros(k);
    } else {
      var t := Zeros(k) + s;
      assert t[..|t| - 1] == Zeros(k) + s[..|s| - 1];
      assert t[|t| - 1] == s[|s| - 1];
      LeadingZeros(k, s[..|s| - 1]);
    }
  }

  /**
   * `body` is a fixed-point rendering with two fractional digits whose digits,
   * read without the point, denote n.
   */
  predicate FixedForm(body: string, n: nat)
  {
    |body| >= 4 && body[|body| - 3] == '.'
    && AllDigits(body[..|body| - 3] + body[|body| - 2..])
    && DecimalValue(body[..|body| - 3] + body[|body| - 2..]) == n
  }

  /** The digits of n, with leading zeros up to three digits in all, and no more. */
  function PaddedDigits(n: nat): (m: string)
    ensures |m| >= 3 && AllDigits(m) && DecimalValue(m) == n
    ensures |m| > 3 ==> m[0] != '0'
  {
    var digits := NatToDecimal(n);
    var padding := if |digits| <= 2 then 3 - |digits| else 0;
    NatToDecimalRoundTrip(n);
    LeadingZeros(padding, digits);
    Zeros(padding) + digits
  }

  /** Puts a '.' before the last two characters. */
  function InsertPoint(m: string): string
    requires |m| >= 3
  {
    m[..|m| - 2] + "." + m[|m| - 2..]
  }

  lemma InsertPointForm(m: string)
    requires |m| >= 3 && AllDigits(m)
    ensures FixedForm(InsertPoint(m), DecimalValue(m))
  {
    var s := InsertPoint(m);
    assert s[..|s| - 3] == m[..|m| - 2] && s[|s| - 2..] == m[|m| - 2..];
    assert m[..|m| - 2] + m[|m| - 2..] == m;
  }

  /**
   * The rendering of n hundredths: the digits of n, padded to three, with a '.'
   * before the last two. Only "0.xx" starts with a zero.
   */
  function CentsToFixed(n: nat): (s: string)
    ensures FixedForm(s, n)
    ensures |s| > 4 ==> s[0] != '0'
  {
    var m := PaddedDigits(n);
    InsertPointForm(m);
    InsertPoint(m)
  }

  /**
   * `x.toFixed(2)`: a minus sign when x is negative (even if it rounds to zero),
   * then the rounded magnitude with exactly two digits after the point.
   */
  function ToFixed2(x: real): (s: string)
    ensures |s| > 0 && (x < 0.0 <==> s[0] == '-')
    ensures x >= 0.0 ==> FixedForm(s, RoundedCents(x))
    ensures x < 0.0 ==> FixedForm(s[1..], RoundedCents(-x))
    ensures x >= 0.0 && |s| > 4 ==> s[0] != '0'
    ensures x < 0.0 && |s| > 5 ==> s[1] != '0'
  {
    if x < 0.0 then
      var body := CentsToFixed(RoundedCents(-x));
      assert ("-" + body)[1..] == body;
      "-" + body
    else
      CentsToFixed(RoundedCents(x))
  }
}
