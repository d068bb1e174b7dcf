/**
 * Base-10 digit strings: the text of a non-negative integer (JavaScript's
 * `toString()`, Python's `str()`) and the value a digit string denotes.
 */
module Decimal {

  predicate IsDigit(c: char) {
    '0' <= c <= '9'
  }

  predicate IsDigits(s: string) {
    forall i :: 0 <= i < |s| ==> IsDigit(s[i])
  }

  /** A digit string with no leading zero, as printed for an integer. */
  predicate Canonical(s: string) {
    |s| >= 1 && IsDigits(s) && (|s| > 1 ==> s[0] != '0')
  }

  function DigitValue(c: char): (d: nat)
    requires IsDigit(c)
    ensures d < 10
  {
    c as int - '0' as int
  }

  function DigitChar(d: nat): (c: char)
    requires d < 10
    ensures IsDigit(c) && DigitValue(c) == d
  {
    ('0' as int + d) as char
  }

  /** The number a digit string denotes, most significant digit first. */
  function Value(s: string): nat
    requires IsDigits(s)
  {
    if s == [] then 0 else Value(s[..|s| - 1]) * 10 + DigitValue(s[|s| - 1])
  }

  /** Appending a digit: ten times the value, plus the digit. */
  lemma ValueAppend(t: string, c: char)
    requires IsDigits(t) && IsDigit(c)
    ensures IsDigits(t + [c]) && Value(t + [c]) == Value(t) * 10 + DigitValue(c)
  {
    assert (t + [c])[..|t|] == t;
  }

  function Pow10(k: nat): (p: nat)
    ensures p >= 1
  {
    if k == 0 then 1 else 10 * Pow10(k - 1)
  }

  /** The decimal text of `n`: canonical, and it denotes `n`. */
  function FromNat(n: nat): (s: string)
    ensures Canonical(s)
    ensures Value(s) == n
  {
    if n < 10 then [DigitChar(n)]
    else
      var s := FromNat(n / 10) + [DigitChar(n % 10)];
      assert s[..|s| - 1] == FromNat(n / 10);
      s
  }

  /** Every canonical digit string is the text of the number it denotes. */
  lemma {:induction false} CanonicalRoundTrip(s: string)
    requires Canonical(s)
    ensures FromNat(Value(s)) == s
  {
    if |s| == 1 {
      assert DigitChar(DigitValue(s[0])) == s[0];
    } else {
      var t, c := s[..|s| - 1], s[|s| - 1];
      assert Canonical(t) by { assert t[0] == s[0]; }
      LeadingNonZeroIsPositive(t);
      CanonicalRoundTrip(t);
      assert Value(s) == Value(t) * 10 + DigitValue(c);
      FromNatStep(Value(t), DigitValue(c));
      assert DigitChar(DigitValue(c)) == c;
      assert s == t + [c];
    }
  }

  /** The text of `10 x + d`, for positive `x`, is the text of `x` and then the digit `d`. */
  lemma FromNatStep(x: nat, d: nat)
    requires x >= 1 && d < 10
    ensures FromNat(x * 10 + d) == FromNat(x) + [DigitChar(d)]
  {
    DivideOffLastDigit(x, d);
  }

  lemma DivideOffLastDigit(x: nat, d: nat)
    requires x >= 1 && d < 10
    ensures (x * 10 + d) >= 10 && (x * 10 + d) / 10 == x && (x * 10 + d) % 10 == d
  {
  }

  lemma {:induction false} LeadingNonZeroIsPositive(s: string)
    requires Canonical(s) && s[0] != '0'
    ensures Value(s) >= 1
  {
    if |s| > 1 {
      var t := s[..|s| - 1];
      assert Canonical(t) && t[0] == s[0];
      LeadingNonZeroIsPositive(t);
    }
  }

  /** The text of `n` has at most `k` digits exactly when `n < 10^k`. */
  lemma {:induction false} FromNatLength(n: nat, k: nat)
    requires k >= 1
    ensures |FromNat(n)| <= k <==> n < Pow10(k)
  {
    if n >= 10 {
      assert |FromNat(n)| == |FromNat(n / 10)| + 1;
      if k == 1 {
        assert Pow10(1) == 10;
      } else {
        FromNatLength(n / 10, k - 1);
        assert Pow10(k) == 10 * Pow10(k - 1);
        assert n / 10 < Pow10(k - 1) <==> n < 10 * Pow10(k - 1);
      }
    } else {
      PowAtLeastTen(k);
    }
  }

  lemma {:induction false} PowAtLeastTen(k: nat)
    requires k >= 1
    ensures Pow10(k) >= 10
  {
    if k > 1 {
      PowAtLeastTen(k - 1);
    }
  }

  /** The value of a concatenation: the left part shifted by the right part's length. */
  lemma {:induction false} ValueConcat(a: string, b: string)
    requires IsDigits(a) && IsDigits(b)
    ensures IsDigits(a + b)
    ensures Value(a + b) == Value(a) * Pow10(|b|) + Value(b)
  {
    ConcatDigits(a, b);
    if b == [] {
      assert a + b == a;
    } else {
      var b' := b[..|b| - 1];
      var d := DigitValue(b[|b| - 1]);
      assert (a + b)[..|a + b| - 1] == a + b';
      assert (a + b)[|a + b| - 1] == b[|b| - 1];
      ValueConcat(a, b');
      assert Value(a + b) == Value(a + b') * 10 + d;
      assert Value(b) == Value(b') * 10 + d;
      ShiftByOneDigit(Value(a), Pow10(|b'|), Value(b'), d);
    }
  }

  lemma ConcatDigits(a: string, b: string)
    requires IsDigits(a) && IsDigits(b)
    ensures IsDigits(a + b)
  {
    forall i | 0 <= i < |a + b| ensures IsDigit((a + b)[i]) {
      if i < |a| { assert (a + b)[i] == a[i]; } else { assert (a + b)[i] == b[i - |a|]; }
    }
  }

  lemma ShiftByOneDigit(x: int, p: int, v: int, d: int)
    ensures (x * p + v) * 10 + d == x * (10 * p) + (v * 10 + d)
  {
  }

  /** A run of `k` copies of `c`. */
  function Repeat(c: char, k: nat): (r: string)
    ensures |r| == k && forall i :: 0 <= i < k ==> r[i] == c
  {
    if k == 0 then [] else [c] + Repeat(c, k - 1)
  }

  /** Leading zeros do not change the value of a digit string. */
  lemma LeadingZerosKeepValue(k: nat, s: string)
    requires IsDigits(s)
    ensures IsDigits(Repeat('0', k) + s)
    ensures Value(Repeat('0', k) + s) == Value(s)
  {
    ZerosHaveNoValue(k);
    ValueConcat(Repeat('0', k), s);
  }

  lemma {:induction false} ZerosHaveNoValue(k: nat)
    ensures IsDigits(Repeat('0', k)) && Value(Repeat('0', k)) == 0
  {
    if k > 0 {
      var z := Repeat('0', k);
      assert z[..k - 1] == Repeat('0', k - 1);
      ZerosHaveNoValue(k - 1);
    }
  }
}
