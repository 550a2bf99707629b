/** Facts about quotients, powers of ten and the value of a string of digits. */
module Arith {
  import opened Strings

  const TWO32: nat := 0x1_0000_0000
  const TWO64: nat := 0x1_0000_0000_0000_0000

  /** Quotient and remainder from any way of writing a as a multiple and a rest. */
  lemma Divides(a: nat, q: nat, r: nat, k: nat)
    requires r < k && a == q * k + r
    ensures a / k == q && a % k == r
  {
    var d, m := a / k, a % k;
    assert a == d * k + m && 0 <= m < k;
    if d < q {
      Times(d, q, k);
    } else if q < d {
      Times(q, d, k);
    }
  }

  lemma Times(a: nat, b: nat, k: nat)
    requires a < b
    ensures a * k + k <= b * k
  {
    Distribute(a + 1, b - a - 1, k);
    Distribute(a, 1, k);
    AtLeastZero(b - a - 1, k);
  }

  lemma AtLeastZero(a: nat, b: nat)
    ensures 0 <= a * b
  {
  }

  lemma Swap(a: nat, b: nat)
    ensures a * b == b * a
  {
  }

  lemma Distribute(a: nat, b: nat, c: nat)
    ensures (a + b) * c == a * c + b * c
  {
  }

  lemma SwapInner(a: nat, b: nat, c: nat)
    ensures a * b * c == a * c * b
  {
  }

  lemma Associate(a: nat, b: nat, c: nat)
    ensures a * b * c == a * (b * c)
  {
  }

  function Pow10(n: nat): (p: nat)
    ensures p > 0
  {
    if n == 0 then 1 else 10 * Pow10(n - 1)
  }

  lemma {:induction false} Pow10Sum(a: nat, b: nat)
    ensures Pow10(a + b) == Pow10(a) * Pow10(b)
  {
    if a > 0 {
      Pow10Sum(a - 1, b);
      Associate(10, Pow10(a - 1), Pow10(b));
    }
  }

  type Digit = d: int | 0 <= d < 10

  /** The number that digits stand for in a base. */
  function Value(ds: seq<Digit>): (v: nat)
  {
    if ds == [] then 0 else Value(ds[..|ds| - 1]) * 10 + ds[|ds| - 1]
  }

  lemma {:induction false} ValueBound(ds: seq<Digit>)
    ensures Value(ds) < Pow10(|ds|)
  {
    if ds != [] { ValueBound(ds[..|ds| - 1]); }
  }

  lemma {:induction false} ValueConcat(a: seq<Digit>, b: seq<Digit>)
    ensures Value(a + b) == Value(a) * Pow10(|b|) + Value(b)
    decreases |b|
  {
    if b == [] {
      assert a + b == a;
    } else {
      var c := b[..|b| - 1];
      assert (a + b)[..|a + b| - 1] == a + c;
      ValueConcat(a, c);
      assert Value(a) * Pow10(|c|) * 10 == Value(a) * Pow10(|b|);
    }
  }

  lemma ValuePrefix(ds: seq<Digit>, k: nat)
    requires k < |ds|
    ensures Value(ds[..k + 1]) == Value(ds[..k]) * 10 + ds[k]
  {
    assert ds[..k + 1][..k] == ds[..k];
  }

  // ----- digits in text -----

  predicate IsDigit(c: char)
  {
    '0' <= c <= '9'
  }

  function DigitOf(c: char): (d: Digit)
    requires IsDigit(c)
  {
    c as int - 48
  }

  /** The length of the digits in front. */
  function Run(s: string): (n: nat)
    ensures n <= |s| && (forall i :: 0 <= i < n ==> IsDigit(s[i])) && (n < |s| ==> !IsDigit(s[n]))
  {
    SpanFacts(s, IsDigit);
    Span(s, IsDigit)
  }

  function Digits(s: string): (ds: seq<Digit>)
    requires forall i :: 0 <= i < |s| ==> IsDigit(s[i])
    ensures |ds| == |s|
  {
    seq(|s|, i requires 0 <= i < |s| => DigitOf(s[i]))
  }
}
