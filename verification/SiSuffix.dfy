/**
 Sizes with an SI suffix (shared/suffix-util.c), against the decimal number that is written:
 the number times the power of ten of its suffix, rounded down.
 */
module SiSuffix {
  import opened Wrappers
  import opened Arith
  import opened Strings

  const MAX: nat := 0xFFFF_FFFF_FFFF_FFFF

  /** The digits that more of them are not read from. */
  const DIGITS: nat := 19

  datatype Error = Invalid | OutOfRange
  datatype Size = Size(value: int, suffix: bool, end: nat)

  // ----- what is written -----

  /** num and the fraction 0.ds, times ten to the e, rounded down. */
  function Exact(num: nat, ds: seq<Digit>, e: nat): (v: int)
  {
    (num * Pow10(|ds|) + Value(ds)) * Pow10(e) / Pow10(|ds|)
  }

  function Exponent(c: char): (e: nat)
  {
    match c
    case 'Q' => 30
    case 'R' => 27
    case 'Y' => 24
    case 'Z' => 21
    case 'E' => 18
    case 'P' => 15
    case 'T' => 12
    case 'G' => 9
    case 'M' => 6
    case 'k' => 3
    case _ => 0
  }

  /** The table of suffixes with their exponents, largest first. */
  const SUFFIXES: seq<(char, nat)> := [('Q', 30), ('R', 27), ('Y', 24), ('Z', 21), ('E', 18), ('P', 15), ('T', 12),
      ('G', 9), ('M', 6), ('k', 3)]

  /** The prefixes of the SI, smallest first. */
  const SI: string := "kMGTPEZYRQ"

  /** Each prefix is a thousand times the one before, k is a thousand, and there are no others. */
  lemma ThousandTimes(i: nat, c: char)
    requires i < |SI|
    ensures Pow10(Exponent(SI[i])) == 1000 * (if i == 0 then 1 else Pow10(Exponent(SI[i - 1])))
    ensures c !in SI ==> Exponent(c) == 0
  {
    assert Exponent(SI[i]) == 3 + if i == 0 then 0 else Exponent(SI[i - 1]);
    Pow10Sum(3, if i == 0 then 0 else Exponent(SI[i - 1]));
    OneThousand();
    if c !in SI { NoPrefix(c); }
    hide Exponent, Pow10;
  }

  lemma OneThousand()
    ensures Pow10(3) == 1000 && Pow10(0) == 1
  {
  }

  lemma NoPrefix(c: char)
    requires c !in SI
    ensures Exponent(c) == 0
  {
    assert forall j :: 0 <= j < |SI| ==> SI[j] != c;
    assert c != SI[0] && c != SI[1] && c != SI[2] && c != SI[3] && c != SI[4];
    assert c != SI[5] && c != SI[6] && c != SI[7] && c != SI[8] && c != SI[9];
  }

  /** A fraction with more digits is cut off. */
  function Cut(ds: seq<Digit>): (r: seq<Digit>)
  {
    if |ds| > DIGITS then ds[..DIGITS] else ds
  }

  /** Where the fraction ends, None if the number has a point and no digit behind it. */
  function FractionEnd(s: string): (r: Result<nat, Error>)
    ensures r.Ok? ==> r.value <= |s|
    ensures r.Ok? && r.value > 0 ==> forall i :: 1 <= i < r.value ==> IsDigit(s[i])
  {
    if s == "" || s[0] != '.' then Ok(0)
    else if Run(s[1..]) == 0 then Err(Invalid)
    else
      assert forall i :: 1 <= i < 1 + Run(s[1..]) ==> s[i] == s[1..][i - 1];
      Ok(1 + Run(s[1..]))
  }

  function FractionOf(s: string): (ds: seq<Digit>)
    requires FractionEnd(s).Ok?
  {
    var n := FractionEnd(s).value;
    if n == 0 then [] else Digits(s[1..n])
  }

  predicate Leads(str: string)
  {
    str != "" && IsDigit(str[0]) && !(|str| > 1 && str[0] == '0' && IsDigit(str[1]))
  }

  /** The meaning of str when strtoull() reads the number num from its first n characters.
      `keep` is what is kept of the digits of the fraction. */
  function Meaning(str: string, num: nat, n: nat, keep: seq<Digit> -> seq<Digit>): (r: Result<Size, Error>)
    requires n <= |str|
  {
    if !Leads(str) || n == 0 || num > MAX then Err(Invalid)
    else
      var end := FractionEnd(str[n..]);
      if end.Err? then Err(Invalid)
      else
        var p := n + end.value;
        if p == |str| then Ok(Size(num, false, p))
        else if p + 1 != |str| || Exponent(str[p]) == 0 then Err(Invalid)
        else
          var v := Exact(num, keep(FractionOf(str[n..])), Exponent(str[p]));
          if v <= MAX then Ok(Size(v, true, p + 1)) else Err(Invalid)
  }

  lemma MeaningFits(str: string, num: nat, n: nat, keep: seq<Digit> -> seq<Digit>)
    requires n <= |str|
    ensures Fitting(Meaning(str, num, n, keep))
  {
    hide Exact, FractionOf, FractionEnd, Leads, Exponent;
    var end := FractionEnd(str[n..]);
    if end.Ok? && n + end.value < |str| {
      ExactIsScaled(num, keep(FractionOf(str[n..])), Exponent(str[n + end.value]));
      AtLeastZero(num, Pow10(Exponent(str[n + end.value])));
    }
  }

  // ----- cutting off digits -----

  /** The fraction at the scale of the suffix: padded with zeros, or cut off. */
  function Scaled(ds: seq<Digit>, e: nat): (v: nat)
  {
    if |ds| <= e then Value(ds) * Pow10(e - |ds|) else Value(ds[..e])
  }

  lemma ExactIsScaled(num: nat, ds: seq<Digit>, e: nat)
    ensures Exact(num, ds, e) == num * Pow10(e) + Scaled(ds, e)
  {
    hide Pow10, Value;
    if |ds| <= e {
      Pow10Sum(|ds|, e - |ds|);
      PaddedExact(num, Value(ds), Pow10(|ds|), Pow10(e - |ds|));
    } else {
      ExactIsCut(num, ds, e);
    }
  }

  lemma ExactIsCut(num: nat, ds: seq<Digit>, e: nat)
    requires e < |ds|
    ensures Exact(num, ds, e) == num * Pow10(e) + Value(ds[..e])
  {
    hide Pow10, Value;
    Pow10Sum(e, |ds| - e);
    assert ds == ds[..e] + ds[e..];
    ValueConcat(ds[..e], ds[e..]);
    ValueBound(ds[e..]);
    CutExact(num, Value(ds[..e]), Value(ds[e..]), Pow10(e), Pow10(|ds| - e));
  }

  lemma PaddedExact(num: nat, v: nat, p: nat, q: nat)
    requires p > 0
    ensures (num * p + v) * (p * q) / p == num * (p * q) + v * q
  {
    var w := num * (p * q) + v * q;
    Distribute(num * p, v, p * q);
    SwapInner(num, p, p * q);
    Associate(v, q, p);
    Swap(q, p);
    Distribute(num * (p * q), v * q, p);
    Divides((num * p + v) * (p * q), w, 0, p);
  }

  lemma CutExact(num: nat, head: nat, tail: nat, p: nat, q: nat)
    requires p > 0 && tail < q
    ensures (num * (p * q) + (head * q + tail)) * p / (p * q) == num * p + head
  {
    Regroup(num, head, tail, p, q);
    Times(tail, q, p);
    Swap(q, p);
    Divides((num * (p * q) + (head * q + tail)) * p, num * p + head, tail * p, p * q);
  }

  lemma Regroup(num: nat, head: nat, tail: nat, p: nat, q: nat)
    ensures (num * (p * q) + (head * q + tail)) * p == (num * p + head) * (p * q) + tail * p
  {
    var m := p * q;
    Distribute(num * m, head * q + tail, p);
    Distribute(head * q, tail, p);
    Distribute(num * p, head, m);
    SwapInner(num, m, p);
    SwapInner(head, q, p);
    Associate(head, p, q);
  }

  /** The digits that are cut off although the suffix needs them. */
  function Lost(ds: seq<Digit>, e: nat): (r: seq<Digit>)
  {
    if |ds| <= DIGITS || e <= DIGITS then [] else ds[DIGITS..if e < |ds| then e else |ds|]
  }

  /** Cutting off does no harm exactly when the digits that are lost stand for zero. */
  lemma CutHarmless(num: nat, ds: seq<Digit>, e: nat)
    ensures Exact(num, Cut(ds), e) == Exact(num, ds, e) <==> Value(Lost(ds, e)) == 0
  {
    hide Pow10, Value, Exact, Scaled;
    ExactIsScaled(num, ds, e);
    ExactIsScaled(num, Cut(ds), e);
    if |ds| > DIGITS {
      if e <= DIGITS {
        CutShort(ds, e);
      } else {
        CutLong(ds, e);
      }
    } else {
      NoDigits();
    }
  }

  lemma NoDigits()
    ensures Value([]) == 0
  {
  }

  lemma CutShort(ds: seq<Digit>, e: nat)
    requires e <= DIGITS < |ds|
    ensures Scaled(Cut(ds), e) == Scaled(ds, e) && Value(Lost(ds, e)) == 0
  {
    assert Cut(ds)[..e] == ds[..e];
    if e == DIGITS {
      assert ds[..e] == Cut(ds);
      assert Pow10(0) == 1;
    }
  }

  lemma CutLong(ds: seq<Digit>, e: nat)
    requires DIGITS < |ds| && DIGITS < e
    ensures Scaled(Cut(ds), e) == Scaled(ds, e) <==> Value(Lost(ds, e)) == 0
  {
    hide Value, Pow10;
    CutParts(ds, e);
  }

  /** The number is what is kept, plus what is lost. */
  lemma CutParts(ds: seq<Digit>, e: nat)
    requires DIGITS < |ds| && DIGITS < e
    ensures var k := if e < |ds| then e else |ds|;
      && Scaled(ds, e) == Scaled(Cut(ds), e) + Value(Lost(ds, e)) * Pow10(e - k)
      && (Value(Lost(ds, e)) * Pow10(e - k) == 0 <==> Value(Lost(ds, e)) == 0)
  {
    hide Value;
    var k := if e < |ds| then e else |ds|;
    var lost := Lost(ds, e);
    assert ds[..k] == Cut(ds) + lost;
    ValueConcat(Cut(ds), lost);
    Pow10Sum(k - DIGITS, e - k);
    ScaledHead(ds, e, k);
    HeadAndLost(Value(Cut(ds)), Value(lost), Pow10(k - DIGITS), Pow10(e - k));
  }

  lemma ScaledHead(ds: seq<Digit>, e: nat, k: nat)
    requires k == if e < |ds| then e else |ds|
    ensures Scaled(ds, e) == Value(ds[..k]) * Pow10(e - k)
  {
    hide Value;
    assert k == |ds| ==> ds[..k] == ds;
    assert Pow10(0) == 1;
  }

  lemma HeadAndLost(v: nat, lost: nat, p: nat, q: nat)
    requires q > 0
    ensures (v * p + lost) * q == v * (p * q) + lost * q
    ensures lost * q == 0 <==> lost == 0
  {
  }

  /** Cutting off never makes the number larger. */
  lemma CutBelow(num: nat, ds: seq<Digit>, e: nat)
    ensures Exact(num, Cut(ds), e) <= Exact(num, ds, e)
  {
    hide Pow10, Value, Exact, Scaled;
    ExactIsScaled(num, ds, e);
    ExactIsScaled(num, Cut(ds), e);
    if |ds| > DIGITS {
      if e <= DIGITS {
        CutShort(ds, e);
      } else {
        CutLongBelow(ds, e);
      }
    }
  }

  lemma CutLongBelow(ds: seq<Digit>, e: nat)
    requires DIGITS < |ds| && DIGITS < e
    ensures Scaled(Cut(ds), e) <= Scaled(ds, e)
  {
    hide Value, Pow10;
    CutParts(ds, e);
    var k := if e < |ds| then e else |ds|;
    AtLeastZero(Value(Lost(ds, e)), Pow10(e - k));
  }

  /** A well-formed number with a suffix. */
  predicate HasSuffix(str: string, num: nat, n: nat)
    requires n <= |str|
  {
    && Leads(str) && n > 0 && num <= MAX && FractionEnd(str[n..]).Ok?
    && n + FractionEnd(str[n..]).value + 1 == |str| && Exponent(str[|str| - 1]) > 0
  }

  /** The parser's result is that of the number as written, exactly when the digits lost stand for
      zero, or the number is too large even without them. */
  lemma CutDecides(str: string, num: nat, n: nat)
    requires n <= |str|
    ensures !HasSuffix(str, num, n) ==> Meaning(str, num, n, Cut) == Meaning(str, num, n, ds => ds)
    ensures HasSuffix(str, num, n) ==>
      var ds, e := FractionOf(str[n..]), Exponent(str[|str| - 1]);
      (Meaning(str, num, n, Cut) == Meaning(str, num, n, ds => ds)) <==>
      (Value(Lost(ds, e)) == 0 || Exact(num, Cut(ds), e) > MAX)
  {
    hide Exact, Value, Lost, Cut, FractionOf, FractionEnd, Exponent;
    if HasSuffix(str, num, n) {
      var ds, e := FractionOf(str[n..]), Exponent(str[|str| - 1]);
      CutHarmless(num, ds, e);
      CutBelow(num, ds, e);
    }
  }

  /** For the suffixes k to E every fraction is exact, however long. */
  lemma KiloToExa(str: string, num: nat, n: nat)
    requires n <= |str|
    requires str != "" ==> Exponent(str[|str| - 1]) <= 18
    ensures Meaning(str, num, n, Cut) == Meaning(str, num, n, ds => ds)
  {
    hide Exact, Cut, FractionOf, FractionEnd, Exponent, Meaning;
    CutDecides(str, num, n);
    NoDigits();
  }

  const ZEROS: string := "0000000000000000000"
  const TENZ: string := "0." + ZEROS + "1Z"

  /** The digits that count for a suffix from Z on may be lost: 0.00000000000000000001Z is ten, and is
      read as zero. */
  lemma ZettaLoses()
    ensures Meaning(TENZ, 0, 1, ds => ds) == Ok(Size(10, true, 23)) && Meaning(TENZ, 0, 1, Cut) == Ok(Size(0, true, 23))
  {
    hide Exact, Cut, FractionOf, FractionEnd, ZEROS;
    TenFraction();
    TwentyDigits(seq(19, i => 0));
  }

  lemma TenFraction()
    ensures |ZEROS| == 19 && FractionEnd(TENZ[1..]) == Ok(21) && FractionOf(TENZ[1..]) == seq(19, i => 0) + [1]
  {
    hide FractionOf, FractionEnd;
    ZerosOnly();
    hide ZEROS;
    var ds := ZEROS + "1";
    assert TENZ[1..] == "." + ds + "Z";
    FractionText(ds, 'Z');
    assert Digits(ds) == seq(19, i => 0) + [1];
  }

  lemma ZerosOnly()
    ensures |ZEROS| == 19 && forall i :: 0 <= i < 19 ==> ZEROS[i] == '0'
  {
  }

  lemma FractionText(ds: string, c: char)
    requires ds != "" && !IsDigit(c) && forall i :: 0 <= i < |ds| ==> IsDigit(ds[i])
    ensures var s := "." + ds + [c]; FractionEnd(s) == Ok(1 + |ds|) && FractionOf(s) == Digits(ds)
  {
    var s := "." + ds + [c];
    assert s[1..] == ds + [c];
    SpanIs(ds + [c], IsDigit, |ds|);
    assert s[1..1 + |ds|] == ds;
  }

  lemma TwentyDigits(zeros: seq<Digit>)
    requires zeros == seq(19, i => 0)
    ensures Exact(0, Cut(zeros + [1]), 21) == 0 && Exact(0, zeros + [1], 21) == 10
  {
    var ds := zeros + [1];
    assert Cut(ds) == zeros;
    ExactIsScaled(0, ds, 21);
    ExactIsScaled(0, zeros, 21);
    ZerosAreZero(zeros);
    ValueConcat(zeros, [1]);
    assert Value([1]) == 1 by { assert [1][..0] == []; assert Value([]) == 0; }
    assert Pow10(1) == 10 && Pow10(2) == 100;
  }

  lemma {:induction false} ZerosAreZero(ds: seq<Digit>)
    requires forall i :: 0 <= i < |ds| ==> ds[i] == 0
    ensures Value(ds) == 0
  {
    if ds != [] { ZerosAreZero(ds[..|ds| - 1]); }
  }

  // ----- the code -----

  /** v * 10, or false if that is larger than 64 bits */
  method Mul10(v: nat) returns (ok: bool, r: nat)
    requires v <= MAX
    ensures ok <==> v * 10 <= MAX
    ensures r == if ok then v * 10 else v
  {
    if v > MAX / 10 {
      return false, v;
    }
    return true, v * 10;
  }

  /** Times ten, k times over, unless that passes 64 bits. */
  method Scale(v: nat, k: nat) returns (ok: bool, r: nat)
    requires v <= MAX
    ensures ok <==> v * Pow10(k) <= MAX
    ensures ok ==> r == v * Pow10(k)
  {
    hide Pow10;
    r := v;
    PowZero();
    for j := 0 to k
      invariant r <= MAX && r == v * Pow10(j)
    {
      TenMore(v, j);
      ok, r := Mul10(r);
      if !ok {
        Larger(v, j + 1, k);
        return;
      }
    }
    ok := true;
  }

  lemma PowZero()
    ensures Pow10(0) == 1
  {
  }

  lemma TenMore(v: nat, j: nat)
    ensures v * Pow10(j + 1) == v * Pow10(j) * 10
  {
  }

  lemma {:induction false} Larger(v: nat, j: nat, k: nat)
    requires j <= k
    ensures v * Pow10(j) <= v * Pow10(k)
    decreases k - j
  {
    if j < k {
      Larger(v, j + 1, k);
      TenMore(v, j);
    }
  }

  /** The digits behind the point, as far as they are read. */
  method ReadFraction(s: string) returns (frac: nat, len: nat)
    ensures len == Run(s) && frac == Value(Cut(Digits(s[..len]))) && frac <= MAX
  {
    hide Value, Pow10, Cut;
    frac, len := 0, 0;
    RunStart(s);
    while len < |s| && IsDigit(s[len])
      invariant len <= |s| && (forall i :: 0 <= i < len ==> IsDigit(s[i]))
      invariant len + Run(s[len..]) == Run(s)
      invariant frac == Value(Cut(Digits(s[..len]))) && frac < Pow10(if len < DIGITS then len else DIGITS)
      invariant frac <= MAX
    {
      SpanStep(s, IsDigit, len);
      CutStep(s, len);
      if len < DIGITS {
        SmallPower(len);
        var ok;
        ok, frac := Mul10(frac);
        assert ok;
        frac := frac + DigitOf(s[len]);
      }
      len := len + 1;
      SmallPower(if len < DIGITS then len else DIGITS);
    }
  }

  lemma RunStart(s: string)
    ensures s[0..] == s && Value(Cut(Digits(s[..0]))) == 0 && Pow10(0) == 1
  {
    assert Digits(s[..0]) == [];
  }

  /** 10^19 still fits into 64 bits. */
  lemma SmallPower(n: nat)
    requires n <= DIGITS
    ensures Pow10(n) <= 10_000_000_000_000_000_000
    ensures n < DIGITS ==> Pow10(n) <= 1_000_000_000_000_000_000 && Pow10(n + 1) == 10 * Pow10(n)
  {
    TenToThe();
    Larger(1, n, DIGITS);
    if n < DIGITS { Larger(1, n, 18); }
  }

  lemma TenToThe()
    ensures Pow10(18) == 1_000_000_000_000_000_000 && Pow10(19) == 10_000_000_000_000_000_000
  {
    assert Pow10(6) == 1_000_000;
    Pow10Sum(6, 6);
    Pow10Sum(12, 6);
    Pow10Sum(1, 18);
  }

  /** One more digit, read or cut off. */
  lemma CutStep(s: string, k: nat)
    requires k < |s| && forall i :: 0 <= i <= k ==> IsDigit(s[i])
    ensures var a, b := Value(Cut(Digits(s[..k]))), Value(Cut(Digits(s[..k + 1])));
      b == if k < DIGITS then a * 10 + DigitOf(s[k]) else a
  {
    var a, b := Digits(s[..k]), Digits(s[..k + 1]);
    assert b[..k] == a;
    if k >= DIGITS {
      assert Cut(b) == Cut(a) by { assert b[..DIGITS] == a[..DIGITS]; }
    }
  }

  /** Cutting off one digit after the other. */
  method Shorten(ghost ds: seq<Digit>, v: nat, e: nat, len: nat) returns (r: nat)
    requires e <= len == |ds| && v == Value(ds)
    ensures r == Value(ds[..e])
  {
    hide Value;
    r := v;
    assert ds[..len] == ds;
    for j := e to len
      invariant r == Value(ds[..len - (j - e)])
    {
      ValuePrefix(ds, len - (j - e) - 1);
      r := r / 10;
    }
  }

  /** The point and its digits, if there is a point. */
  method Fraction(s: string) returns (end: Result<nat, Error>, frac: nat, len: nat)
    ensures end == FractionEnd(s)
    ensures end.Ok? ==> frac == Value(Cut(FractionOf(s))) && frac <= MAX && len == |FractionOf(s)|
  {
    hide Value, Cut;
    frac, len := 0, 0;
    NoFraction();
    if s == "" || s[0] != '.' {
      return Ok(0), 0, 0;
    }
    if |s| == 1 || !IsDigit(s[1]) {
      return Err(Invalid), 0, 0;
    }
    frac, len := ReadFraction(s[1..]);
    assert s[1..1 + len] == s[1..][..len];
    end := Ok(1 + len);
  }

  method Parse(str: string, num: nat, n: nat) returns (r: Result<Size, Error>)
    requires n <= |str|
    ensures r == Meaning(str, num, n, Cut)
  {
    hide Exact, Value, Pow10, Cut, Exponent, FractionEnd, FractionOf, Leads;
    if !Leads(str) {
      return Err(Invalid);
    }
    if n == 0 || num > MAX {
      return Err(Invalid);
    }
    var end, frac, fracLen := Fraction(str[n..]);
    if end.Err? {
      return Err(Invalid);
    }
    var p := n + end.value;
    ghost var ds := FractionOf(str[n..]);
    if p == |str| {
      return Ok(Size(num, false, p));
    }
    if p + 1 != |str| {
      return Err(Invalid);
    }
    var e := FindSuffix(str[p]);
    if e == 0 {
      return Err(Invalid);
    }
    var v := Combine(ds, num, frac, fracLen, e);
    if v > MAX {
      return Err(Invalid);
    }
    r := Ok(Size(v, true, p + 1));
  }

  lemma NoFraction()
    ensures Value(Cut([])) == 0
  {
  }

  method FindSuffix(c: char) returns (e: nat)
    ensures e == Exponent(c)
  {
    var i := 0;
    while i < |SUFFIXES|
      invariant i <= |SUFFIXES| && forall j :: 0 <= j < i ==> c != SUFFIXES[j].0
    {
      if c == SUFFIXES[i].0 {
        return SUFFIXES[i].1;
      }
      i := i + 1;
    }
    Unknown(c);
    e := 0;
  }

  lemma Unknown(c: char)
    requires forall j :: 0 <= j < |SUFFIXES| ==> c != SUFFIXES[j].0
    ensures Exponent(c) == 0
  {
    assert c != SUFFIXES[0].0 && c != SUFFIXES[1].0 && c != SUFFIXES[2].0 && c != SUFFIXES[3].0 && c != SUFFIXES[4].0;
    assert c != SUFFIXES[5].0 && c != SUFFIXES[6].0 && c != SUFFIXES[7].0 && c != SUFFIXES[8].0 && c != SUFFIXES[9].0;
  }

  /** The scaled number and fraction together; MAX + 1 stands for every sum that does not fit. */
  method Combine(ghost ds: seq<Digit>, num: nat, frac: nat, fracLen: nat, e: nat) returns (v: nat)
    requires num <= MAX && fracLen == |ds| && frac == Value(Cut(ds)) && frac <= MAX
    ensures var x := Exact(num, Cut(ds), e); if x <= MAX then v == x else v > MAX
  {
    hide Exact, Value, Pow10;
    ghost var kept := Cut(ds);
    ExactIsScaled(num, kept, e);
    var ok, a := Scale(num, e);
    if !ok {
      return MAX + 1;
    }
    var len := if fracLen > DIGITS then DIGITS else fracLen;
    var b;
    if len < e {
      ok, b := Scale(frac, e - len);
      if !ok {
        return MAX + 1;
      }
    } else {
      SameLength(kept, e);
      b := Shorten(kept, frac, e, len);
    }
    if b > MAX - a {
      return MAX + 1;
    }
    v := a + b;
  }

  lemma SameLength(ds: seq<Digit>, e: nat)
    requires e <= |ds|
    ensures Scaled(ds, e) == Value(ds[..e])
  {
    assert Pow10(0) == 1;
    assert e == |ds| ==> ds[..e] == ds;
  }

  // ----- in units -----

  /** The smallest multiple of align that is not smaller; any number is one of zero. */
  function RoundUp(bytes: nat, align: nat): (r: nat)
  {
    if align == 0 || bytes % align == 0 then bytes else bytes + (align - bytes % align)
  }

  lemma RoundUpIs(bytes: nat, align: nat)
    requires align > 0
    ensures RoundUp(bytes, align) % align == 0 && bytes <= RoundUp(bytes, align) < bytes + align
  {
    var q, m := bytes / align, bytes % align;
    if m != 0 {
      Distribute(q, 1, align);
      Divides((q + 1) * align, q + 1, 0, align);
    }
  }

  predicate Fitting(m: Result<Size, Error>)
  {
    m.Ok? ==> 0 <= m.value.value <= MAX
  }

  /** A size in whole units, rounded up to align first; a number without suffix is in units already. */
  function InUnits(m: Result<Size, Error>, num: nat, align: nat, unit: nat): (r: Result<int, Error>)
    requires unit > 0 && Fitting(m)
  {
    if m.Err? then Err(Invalid)
    else if !m.value.suffix then Ok(num)
    else if RoundUp(m.value.value, align) > MAX then Err(OutOfRange)
    else Ok(RoundUp(m.value.value, align) / unit)
  }

  method ParseUnits(str: string, num: nat, n: nat, align: nat, unit: nat) returns (r: Result<int, Error>)
    requires n <= |str| && align <= MAX
    ensures unit == 0 ==> r == Err(Invalid)
    ensures unit > 0 ==> Fitting(Meaning(str, num, n, Cut)) && r == InUnits(Meaning(str, num, n, Cut), num, align, unit)
  {
    hide Exact;
    if unit == 0 {
      return Err(Invalid);
    }
    MeaningFits(str, num, n, Cut);
    var m := Parse(str, num, n);
    if m.Err? {
      return Err(Invalid);
    }
    if !m.value.suffix {
      return Ok(num);
    }
    var bytes: nat := m.value.value;
    var rem := if align != 0 then bytes % align else 0;
    if rem != 0 {
      if bytes > MAX - (align - rem) {
        return Err(OutOfRange);
      }
      bytes := bytes + (align - rem);
    }
    r := Ok(bytes / unit);
  }
}
