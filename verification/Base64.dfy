/**
 Base64 (shared/base64-util.c) against sections 3.5 and 4 of RFC 4648.  The code shifts bits
 through a 32-bit accumulator that wraps; the standard speaks of groups of 24 bits.
 */
module Base64 {
  import opened Wrappers
  import opened Arith

  type Sextet = x: int | 0 <= x < 64

  // ----- the alphabet -----

  const UPPER: string := "ABCDEFGHIJKLMNOPQRSTUVWXYZ"
  const LOWER: string := "abcdefghijklmnopqrstuvwxyz"
  const DIGITS: string := "0123456789"
  const TABLE: string := UPPER + LOWER + DIGITS + "+/"

  /** The alphabet by its ranges. */
  function Symbol(v: Sextet): (c: char)
  {
    if v < 26 then (v + 65) as char
    else if v < 52 then (v - 26 + 97) as char
    else if v < 62 then (v - 52 + 48) as char
    else if v == 62 then '+' else '/'
  }

  lemma TableIsSymbols(v: Sextet)
    ensures |TABLE| == 64 && TABLE[v] == Symbol(v)
  {
  }

  function Value(c: char): (r: Option<Sextet>)
    ensures r.Some? ==> Symbol(r.value) == c
    ensures r.None? ==> forall v: Sextet :: Symbol(v) != c
  {
    if 'A' <= c <= 'Z' then Some(c as int - 65)
    else if 'a' <= c <= 'z' then Some(c as int - 97 + 26)
    else if '0' <= c <= '9' then Some(c as int - 48 + 52)
    else if c == '+' then Some(62)
    else if c == '/' then Some(63)
    else None
  }

  lemma ValueSymbol(v: Sextet)
    ensures Value(Symbol(v)) == Some(v) && Symbol(v) != '='
  {
  }

  /** strchr(base64_table, c) */
  method Find(c: char) returns (r: Option<Sextet>)
    ensures r == Value(c)
  {
    for i := 0 to 64
      invariant forall v: Sextet :: v < i ==> Symbol(v) != c
    {
      TableIsSymbols(i);
      if TABLE[i] == c {
        ValueSymbol(i);
        return Some(i);
      }
    }
    r := None;
  }

  // ----- the standard -----

  /** 24 bits from three bytes. */
  function Group(x: nat, y: nat, z: nat): (v: nat)
  {
    x * 0x1_0000 + y * 0x100 + z
  }

  /** The 6-bit group number k of a 24-bit group, from the left. */
  function Sixth(v: nat, k: nat): (r: Sextet)
    requires k < 4
  {
    if k == 0 then v / 0x4_0000 % 64 else if k == 1 then v / 0x1000 % 64 else if k == 2 then v / 64 % 64 else v % 64
  }

  /** The symbols: as many of each 24-bit group as hold input bits. */
  function Symbols(b: seq<Byte>): (s: string)
  {
    if b == [] then ""
    else
      var v := Group(b[0], if |b| > 1 then b[1] else 0, if |b| > 2 then b[2] else 0);
      if |b| == 1 then [Symbol(Sixth(v, 0)), Symbol(Sixth(v, 1))]
      else if |b| == 2 then [Symbol(Sixth(v, 0)), Symbol(Sixth(v, 1)), Symbol(Sixth(v, 2))]
      else [Symbol(Sixth(v, 0)), Symbol(Sixth(v, 1)), Symbol(Sixth(v, 2)), Symbol(Sixth(v, 3))] + Symbols(b[3..])
  }

  /** The padding that completes the last group of four characters. */
  function Padding(n: nat): (s: string)
  {
    if n % 3 == 0 then "" else if n % 3 == 1 then "==" else "="
  }

  function Encoding(b: seq<Byte>): (s: string)
  {
    Symbols(b) + Padding(|b|)
  }

  // ----- the 6-bit groups of three bytes, and back -----

  /** The sextets of three bytes and the bytes of four sextets, bit by bit. */
  function First(x: Byte): (v: Sextet) { x / 4 }
  function Second(x: Byte, y: Byte): (v: Sextet) { x % 4 * 16 + y / 16 }
  function Third(y: Byte, z: Byte): (v: Sextet) { y % 16 * 4 + z / 64 }
  function Fourth(z: Byte): (v: Sextet) { z % 64 }
  function Byte0(c: Sextet, d: Sextet): (x: Byte) { c * 4 + d / 16 }
  function Byte1(d: Sextet, e: Sextet): (x: Byte) { d % 16 * 16 + e / 4 }
  function Byte2(e: Sextet, f: Sextet): (x: Byte) { e % 4 * 64 + f }

  lemma Ungroup(x: Byte, y: Byte, z: Byte)
    ensures Byte0(First(x), Second(x, y)) == x && Byte1(Second(x, y), Third(y, z)) == y
    ensures Byte2(Third(y, z), Fourth(z)) == z
    ensures Clean(4, Second(x, 0)) && Clean(2, Third(y, 0))
  {
  }

  lemma Regroup(c: Sextet, d: Sextet, e: Sextet, f: Sextet)
    ensures First(Byte0(c, d)) == c && Second(Byte0(c, d), Byte1(d, e)) == d
    ensures Third(Byte1(d, e), Byte2(e, f)) == e && Fourth(Byte2(e, f)) == f
    ensures Clean(4, d) ==> Second(Byte0(c, d), 0) == d
    ensures Clean(2, e) ==> Third(Byte1(d, e), 0) == e
  {
  }

  lemma GroupSextets(x: Byte, y: Byte, z: Byte)
    ensures var v := Group(x, y, z);
      Sixth(v, 0) == First(x) && Sixth(v, 1) == Second(x, y) && Sixth(v, 2) == Third(y, z) && Sixth(v, 3) == Fourth(z)
  {
    var v := Group(x, y, z);
    var p: nat, q: nat, r: nat, s: nat := x / 4, x % 4, y / 16, y % 16;
    var t: nat, u: nat := z / 64, z % 64;
    assert v == p * 0x4_0000 + q * 0x1_0000 + r * 0x1000 + s * 0x100 + t * 64 + u;
    Divides(v, p, q * 0x1_0000 + r * 0x1000 + s * 0x100 + t * 64 + u, 0x4_0000);
    Divides(v, p * 64 + q * 16 + r, s * 0x100 + t * 64 + u, 0x1000);
    Divides(p * 64 + q * 16 + r, p, q * 16 + r, 64);
    Divides(v, p * 0x1000 + q * 0x400 + r * 64 + s * 4 + t, u, 64);
    Divides(p * 0x1000 + q * 0x400 + r * 64 + s * 4 + t, p * 64 + q * 16 + r, s * 4 + t, 64);
  }

  // ----- encoding, one byte at a time -----

  /** The symbols still to come when `bits` bits of the last byte are left over. */
  function Left(bits: nat, last: Byte, b: seq<Byte>): (s: string)
    requires bits == 0 || bits == 2 || bits == 4
    decreases |b|
  {
    if bits == 0 then
      if b == [] then "" else [Symbol(First(b[0]))] + Left(2, b[0], b[1..])
    else if bits == 2 then
      if b == [] then [Symbol(Second(last, 0))] else [Symbol(Second(last, b[0]))] + Left(4, b[0], b[1..])
    else
      if b == [] then [Symbol(Third(last, 0))]
      else [Symbol(Third(last, b[0])), Symbol(Fourth(b[0]))] + Left(0, b[0], b[1..])
  }

  lemma {:induction false} BytewiseIsGroups(last: Byte, b: seq<Byte>)
    ensures Left(0, last, b) == Symbols(b)
    decreases |b|
  {
    if |b| >= 3 {
      BytewiseIsGroups(b[2], b[3..]);
      ThreeBytes(last, b);
    } else {
      LastBytes(last, b);
    }
  }

  lemma ThreeBytes(last: Byte, b: seq<Byte>)
    requires |b| >= 3 && Left(0, b[2], b[3..]) == Symbols(b[3..])
    ensures Left(0, last, b) == Symbols(b)
  {
    hide Symbol, Symbols, First, Second, Third, Fourth;
    SymbolsOfThree(b);
    assert b[1..][1..] == b[2..] && b[2..][1..] == b[3..];
    assert Left(4, b[1], b[2..]) == [Symbol(Third(b[1], b[2])), Symbol(Fourth(b[2]))] + Left(0, b[2], b[3..]);
    assert Left(2, b[0], b[1..]) == [Symbol(Second(b[0], b[1]))] + Left(4, b[1], b[2..]);
  }

  lemma LastBytes(last: Byte, b: seq<Byte>)
    requires |b| < 3
    ensures Left(0, last, b) == Symbols(b)
  {
    hide Symbol, Sixth, Group, First, Second, Third, Fourth;
    if |b| == 2 {
      SymbolsOfTwo(b);
      assert b[1..][1..] == [];
      assert Left(2, b[0], b[1..]) == [Symbol(Second(b[0], b[1]))] + Left(4, b[1], []);
    } else if |b| == 1 {
      SymbolsOfOne(b);
    }
  }

  function Pow2(n: nat): (p: nat)
    ensures p > 0
  {
    if n == 0 then 1 else 2 * Pow2(n - 1)
  }

  lemma SmallPowers()
    ensures Pow2(0) == 1 && Pow2(2) == 4 && Pow2(4) == 16 && Pow2(6) == 64
  {
  }

  /** The accumulator after one more byte, or sextet. */
  function Push(ac: nat, width: nat, x: nat): (r: nat)
    requires ac < TWO32 && ((width == 256 && x < 256) || (width == 64 && x < 64))
    ensures r < TWO32
  {
    ac * width % TWO32 + x
  }

  function LastByte(ac: nat): (x: Byte) { ac % 256 }
  function LastSextet(ac: nat): (v: Sextet) { ac % 64 }

  /** A wrapping shift keeps the low bits. */
  lemma Wraps(ac: nat)
    ensures ac * 256 % TWO32 == ac % 0x100_0000 * 256
    ensures ac * 64 % TWO32 == ac % 0x400_0000 * 64
  {
    Divides(ac * 256, ac / 0x100_0000, ac % 0x100_0000 * 256, TWO32);
    Divides(ac * 64, ac / 0x400_0000, ac % 0x400_0000 * 64, TWO32);
  }

  lemma LowModulo(ac: nat, m: nat, big: nat, k: nat, j: nat)
    requires big == j * k && k > 0 && big > 0 && m == ac % big
    ensures m % k == ac % k
  {
    Refold(ac / big, j, k, m / k, m % k);
    Divides(ac, ac / big * j + m / k, m % k, k);
  }

  lemma Refold(q: nat, j: nat, k: nat, d: nat, r: nat)
    ensures q * (j * k) + (d * k + r) == (q * j + d) * k + r
  {
  }

  /** (ac >> bits) & 0x3f, and (ac << left) & 0x3f */
  function Window(ac: nat, bits: nat): (v: Sextet)
  {
    ac / Pow2(bits) % 64
  }

  function Topped(ac: nat, left: nat): (v: Sextet)
  {
    ac * Pow2(left) % TWO32 % 64
  }

  /** What wraps away is never among the bits still needed: they are in the last two bytes. */
  lemma PushByte(ac: nat, x: Byte)
    requires ac < TWO32
    ensures var a := Push(ac, 256, x);
      && LastByte(a) == x && Window(a, 2) == First(x) && Window(a, 4) == Second(LastByte(ac), x)
      && Window(a, 6) == Third(LastByte(ac), x) && Window(a, 0) == Fourth(x)
  {
    SmallPowers();
    Wraps(ac);
    var m := ac % 0x100_0000;
    LowByte4(m, x);
    LowByte16(m, x);
    LowByte64(m, x);
    LowModulo(ac, m, 0x100_0000, 4, 0x40_0000);
    LowModulo(ac, m, 0x100_0000, 16, 0x10_0000);
    LowModulo(ac, LastByte(ac), 256, 4, 64);
    LowModulo(ac, LastByte(ac), 256, 16, 16);
  }

  lemma LowByte4(m: nat, x: nat)
    requires x < 256
    ensures var a: nat := m * 256 + x; a / 4 % 64 == x / 4 && a % 256 == x
  {
    Divides(m * 256 + x, m * 64 + x / 4, x % 4, 4);
    Divides(m * 64 + x / 4, m, x / 4, 64);
    Divides(m * 256 + x, m, x, 256);
  }

  lemma LowByte16(m: nat, x: nat)
    requires x < 256
    ensures var a: nat := m * 256 + x; a / 16 % 64 == m % 4 * 16 + x / 16
  {
    Divides(m * 256 + x, m * 16 + x / 16, x % 16, 16);
    Divides(m * 16 + x / 16, m / 4, m % 4 * 16 + x / 16, 64);
  }

  lemma LowByte64(m: nat, x: nat)
    requires x < 256
    ensures var a: nat := m * 256 + x; a / 64 % 64 == m % 16 * 4 + x / 64 && a % 64 == x % 64
  {
    Divides(m * 256 + x, m * 4 + x / 64, x % 64, 64);
    Divides(m * 4 + x / 64, m / 16, m % 16 * 4 + x / 64, 64);
  }

  /** The last symbol is filled up with zero bits. */
  lemma TopUp(ac: nat)
    ensures Topped(ac, 4) == Second(LastByte(ac), 0) && Topped(ac, 2) == Third(LastByte(ac), 0)
  {
    SmallPowers();
    Top4(ac);
    Top2(ac);
    LowModulo(ac, LastByte(ac), 256, 4, 64);
    LowModulo(ac, LastByte(ac), 256, 16, 16);
  }

  lemma Top4(ac: nat)
    ensures ac * 16 % TWO32 % 64 == ac % 4 * 16
  {
    var m := ac % 0x1000_0000;
    Divides(ac * 16, ac / 0x1000_0000, m * 16, TWO32);
    LowModulo(ac, m, 0x1000_0000, 4, 0x400_0000);
    Divides(m * 16, m / 4, m % 4 * 16, 64);
  }

  lemma Top2(ac: nat)
    ensures ac * 4 % TWO32 % 64 == ac % 16 * 4
  {
    var m := ac % 0x4000_0000;
    Divides(ac * 4, ac / 0x4000_0000, m * 4, TWO32);
    LowModulo(ac, m, 0x4000_0000, 16, 0x400_0000);
    Divides(m * 4, m / 16, m % 16 * 4, 64);
  }

  /** The padding of a string of n symbols. */
  lemma {:induction false} SymbolsLength(b: seq<Byte>)
    ensures |Symbols(b)| % 4 == (if |b| % 3 == 0 then 0 else |b| % 3 + 1)
  {
    hide Symbol, Sixth, Group;
    if |b| >= 3 {
      SymbolsLength(b[3..]);
      assert |b[3..]| % 3 == |b| % 3;
    }
  }

  /** What is still to be written with `bits` bits in the accumulator. */
  ghost function Pending(bits: nat, ac: nat, b: seq<Byte>): (s: string)
    requires bits == 0 || bits == 2 || bits == 4 || bits == 6
  {
    if bits == 6 then [Symbol(Window(ac, 0))] + Left(0, LastByte(ac), b) else Left(bits, LastByte(ac), b)
  }

  lemma PendingStep(bits: nat, ac: nat, b: seq<Byte>)
    requires ac < TWO32 && (bits == 0 || bits == 2 || bits == 4) && b != []
    ensures Pending(bits, ac, b) == [Symbol(Window(Push(ac, 256, b[0]), bits + 2))]
        + Pending(bits + 2, Push(ac, 256, b[0]), b[1..])
  {
    hide Symbol, Push, Window, LastByte, First, Second, Third, Fourth;
    PushByte(ac, b[0]);
  }

  lemma PendingEnd(bits: nat, ac: nat)
    requires bits == 0 || bits == 2 || bits == 4
    ensures Pending(bits, ac, []) == if bits == 0 then "" else [Symbol(Topped(ac, 6 - bits))]
  {
    hide Symbol, Topped, LastByte, Second, Third;
    TopUp(ac);
  }

  lemma PendingStart(b: seq<Byte>)
    ensures Pending(0, 0, b) == Symbols(b)
  {
    BytewiseIsGroups(LastByte(0), b);
  }

  method Encode(src: seq<Byte>) returns (dst: string)
    ensures dst == Encoding(src)
  {
    hide Symbol, Symbols, Push, Window, Topped, LastByte, Left, Pending, TABLE;
    var ac: nat, bits: int := 0, 0;
    dst := "";
    PendingStart(src);
    for i := 0 to |src|
      invariant ac < TWO32 && bits == i % 3 * 2
      invariant dst + Pending(bits, ac, src[i..]) == Symbols(src)
    {
      assert src[i..][0] == src[i] && src[i..][1..] == src[i + 1..];
      PendingStep(bits, ac, src[i..]);
      ac := Push(ac, 256, src[i]);
      bits := bits + 8;
      bits := bits - 6;
      TableIsSymbols(Window(ac, bits));
      dst := dst + [TABLE[Window(ac, bits)]];
      while bits >= 6
        invariant bits == (i % 3 + 1) * 2 || (i % 3 == 2 && bits == 0)
        invariant dst + Pending(bits, ac, src[i + 1..]) == Symbols(src)
      {
        SixLeft(ac, src[i + 1..]);
        bits := bits - 6;
        TableIsSymbols(Window(ac, bits));
        dst := dst + [TABLE[Window(ac, bits)]];
      }
    }
    assert src[|src|..] == [];
    PendingEnd(bits, ac);
    if bits != 0 {
      TableIsSymbols(Topped(ac, 6 - bits));
      dst := dst + [TABLE[Topped(ac, 6 - bits)]];
      bits := bits - 6;
    }
    assert dst == Symbols(src);
    while bits < 0
      invariant bits == 0 || bits == -2 || bits == -4
      invariant dst + (if bits == 0 then "" else if bits == -2 then "=" else "==") == Encoding(src)
    {
      dst := dst + "=";
      bits := bits + 2;
    }
  }

  lemma SixLeft(ac: nat, b: seq<Byte>)
    ensures Pending(6, ac, b) == [Symbol(Window(ac, 0))] + Pending(0, ac, b)
  {
    hide Symbol, Window, LastByte, Left;
  }

  // ----- decoding, one character at a time -----

  /** What is left over of the last sextet at the end has to be zero. */
  predicate Clean(bits: nat, last: Sextet)
  {
    (bits == 6 ==> last == 0) && (bits == 4 ==> last % 16 == 0) && (bits == 2 ==> last % 4 == 0)
  }

  /** The bytes of s when `bits` bits of the last sextet are left over. */
  function Bytes(bits: nat, last: Sextet, s: string): (r: Option<seq<Byte>>)
    requires bits == 0 || bits == 2 || bits == 4 || bits == 6
    decreases |s|
  {
    if s == "" then if Clean(bits, last) then Some([]) else None
    else if Value(s[0]).None? then None
    else
      var v := Value(s[0]).value;
      if bits == 0 then Bytes(6, v, s[1..])
      else
        var x := if bits == 6 then Byte0(last, v) else if bits == 4 then Byte1(last, v) else Byte2(last, v);
        Before(x, Bytes(bits - 2, v, s[1..]))
  }

  function Before(x: Byte, r: Option<seq<Byte>>): (o: Option<seq<Byte>>)
  {
    Prepend([x], r)
  }

  /** Without bits left over, the last sextet does not matter. */
  lemma Fresh(last: Sextet, s: string)
    ensures Bytes(0, last, s) == Bytes(0, 0, s)
  {
  }

  /** Four symbols give three bytes. */
  lemma FourSymbols(c: Sextet, d: Sextet, e: Sextet, f: Sextet, s: string)
    ensures Bytes(0, 0, [Symbol(c), Symbol(d), Symbol(e), Symbol(f)] + s)
      == Before(Byte0(c, d), Before(Byte1(d, e), Before(Byte2(e, f), Bytes(0, 0, s))))
  {
    hide Symbol, Value, Byte0, Byte1, Byte2, Clean;
    ThreeSymbols(c, d, e, [Symbol(f)] + s);
    assert [Symbol(c), Symbol(d), Symbol(e)] + ([Symbol(f)] + s) == [Symbol(c), Symbol(d), Symbol(e), Symbol(f)] + s;
    ValueSymbol(f);
    assert ([Symbol(f)] + s)[1..] == s;
    Fresh(f, s);
  }

  lemma ThreeSymbols(c: Sextet, d: Sextet, e: Sextet, s: string)
    ensures Bytes(0, 0, [Symbol(c), Symbol(d), Symbol(e)] + s)
        == Before(Byte0(c, d), Before(Byte1(d, e), Bytes(2, e, s)))
  {
    hide Symbol, Value, Byte0, Byte1, Byte2, Clean;
    TwoSymbols(c, d, [Symbol(e)] + s);
    assert [Symbol(c), Symbol(d)] + ([Symbol(e)] + s) == [Symbol(c), Symbol(d), Symbol(e)] + s;
    ValueSymbol(e);
    assert ([Symbol(e)] + s)[1..] == s;
  }

  lemma TwoSymbols(c: Sextet, d: Sextet, s: string)
    ensures Bytes(0, 0, [Symbol(c), Symbol(d)] + s) == Before(Byte0(c, d), Bytes(4, d, s))
  {
    hide Symbol, Value, Byte0, Byte1, Byte2, Clean;
    var t := [Symbol(d)] + s;
    assert ([Symbol(c), Symbol(d)] + s)[1..] == t && t[1..] == s;
    ValueSymbol(c);
    ValueSymbol(d);
    assert Bytes(6, c, t) == Before(Byte0(c, d), Bytes(4, d, s));
  }

  lemma NoMore(bits: nat, last: Sextet)
    requires bits == 0 || bits == 2 || bits == 4 || bits == 6
    ensures Bytes(bits, last, "") == if Clean(bits, last) then Some([]) else None
  {
  }

  /** Decoding undoes encoding. */
  lemma {:induction false} BytesOfSymbols(b: seq<Byte>)
    ensures Bytes(0, 0, Symbols(b)) == Some(b)
  {
    hide Symbol, Sixth, Group, Value;
    if |b| == 1 {
      BytesOfTwo(b);
    } else if |b| == 2 {
      BytesOfThree(b);
    } else if |b| >= 3 {
      BytesOfSymbols(b[3..]);
      BytesOfFour(b);
    }
  }

  lemma BytesOfTwo(b: seq<Byte>)
    requires |b| == 1
    ensures Bytes(0, 0, Symbols(b)) == Some(b)
  {
    hide Symbol, Value, Symbols, Bytes, First, Second, Third, Fourth, Byte0, Byte1, Byte2, Clean, Before;
    SymbolsOfOne(b);
    var c, d := First(b[0]), Second(b[0], 0);
    Ungroup(b[0], 0, 0);
    TwoSymbols(c, d, "");
    assert [Symbol(c), Symbol(d)] + "" == [Symbol(c), Symbol(d)];
    NoMore(4, d);
    OneFirst(b);
  }

  lemma OneFirst(b: seq<Byte>)
    requires |b| == 1
    ensures Before(b[0], Some([])) == Some(b)
  {
    assert [b[0]] + [] == b;
  }

  lemma SymbolsOfOne(b: seq<Byte>)
    requires |b| == 1
    ensures Symbols(b) == [Symbol(First(b[0])), Symbol(Second(b[0], 0))]
  {
    hide Symbol, Sixth, Group, First, Second;
    GroupSextets(b[0], 0, 0);
  }

  lemma BytesOfThree(b: seq<Byte>)
    requires |b| == 2
    ensures Bytes(0, 0, Symbols(b)) == Some(b)
  {
    hide Symbol, Value, Symbols, Bytes, First, Second, Third, Fourth, Byte0, Byte1, Byte2, Clean, Before;
    SymbolsOfTwo(b);
    var c, d, e := First(b[0]), Second(b[0], b[1]), Third(b[1], 0);
    Ungroup(b[0], b[1], 0);
    ThreeSymbols(c, d, e, "");
    assert [Symbol(c), Symbol(d), Symbol(e)] + "" == [Symbol(c), Symbol(d), Symbol(e)];
    NoMore(2, e);
    TwoFirst(b);
  }

  lemma TwoFirst(b: seq<Byte>)
    requires |b| == 2
    ensures Before(b[0], Before(b[1], Some([]))) == Some(b)
  {
    assert [b[0]] + ([b[1]] + []) == b;
  }

  lemma SymbolsOfTwo(b: seq<Byte>)
    requires |b| == 2
    ensures Symbols(b) == [Symbol(First(b[0])), Symbol(Second(b[0], b[1])), Symbol(Third(b[1], 0))]
  {
    hide Symbol, Sixth, Group, First, Second, Third;
    GroupSextets(b[0], b[1], 0);
  }

  lemma BytesOfFour(b: seq<Byte>)
    requires |b| >= 3 && Bytes(0, 0, Symbols(b[3..])) == Some(b[3..])
    ensures Bytes(0, 0, Symbols(b)) == Some(b)
  {
    hide Symbol, Value, Symbols, Bytes, First, Second, Third, Fourth, Byte0, Byte1, Byte2, Before;
    SymbolsOfThree(b);
    Ungroup(b[0], b[1], b[2]);
    FourSymbols(First(b[0]), Second(b[0], b[1]), Third(b[1], b[2]), Fourth(b[2]), Symbols(b[3..]));
    ThreeFirst(b);
  }

  lemma ThreeFirst(b: seq<Byte>)
    requires |b| >= 3
    ensures Before(b[0], Before(b[1], Before(b[2], Some(b[3..])))) == Some(b)
  {
    assert b == [b[0]] + ([b[1]] + ([b[2]] + b[3..]));
  }

  lemma SymbolsOfThree(b: seq<Byte>)
    requires |b| >= 3
    ensures Symbols(b) == [Symbol(First(b[0])), Symbol(Second(b[0], b[1])), Symbol(Third(b[1], b[2])),
        Symbol(Fourth(b[2]))] + Symbols(b[3..])
  {
    hide Symbol, Sixth, Group, First, Second, Third, Fourth;
    GroupSextets(b[0], b[1], b[2]);
  }

  lemma {:induction false} AllSymbols(bits: nat, last: Sextet, s: string)
    requires bits == 0 || bits == 2 || bits == 4 || bits == 6
    requires Bytes(bits, last, s).Some?
    ensures forall i :: 0 <= i < |s| ==> Value(s[i]).Some?
    decreases |s|
  {
    hide Symbol, Value, Byte0, Byte1, Byte2, Clean;
    if s != "" {
      AllSymbols(if bits == 0 then 6 else bits - 2, Value(s[0]).value, s[1..]);
      assert forall i :: 1 <= i < |s| ==> s[i] == s[1..][i - 1];
    }
  }

  lemma LastTwo(c: Sextet, d: Sextet, b: seq<Byte>)
    requires Bytes(0, 0, [Symbol(c), Symbol(d)]) == Some(b)
    ensures Symbols(b) == [Symbol(c), Symbol(d)]
  {
    hide Symbol, Sixth, Group, Value, Bytes, First, Second, Third, Byte0, Byte1, Clean;
    TwoSymbols(c, d, "");
    assert [Symbol(c), Symbol(d)] + "" == [Symbol(c), Symbol(d)];
    NoMore(4, d);
    assert b == [Byte0(c, d)];
    Regroup(c, d, 0, 0);
    GroupSextets(b[0], 0, 0);
  }

  lemma LastThree(c: Sextet, d: Sextet, e: Sextet, b: seq<Byte>)
    requires Bytes(0, 0, [Symbol(c), Symbol(d), Symbol(e)]) == Some(b)
    ensures Symbols(b) == [Symbol(c), Symbol(d), Symbol(e)]
  {
    hide Symbol, Sixth, Group, Value, Bytes, First, Second, Third, Byte0, Byte1, Clean;
    ThreeSymbols(c, d, e, "");
    assert [Symbol(c), Symbol(d), Symbol(e)] + "" == [Symbol(c), Symbol(d), Symbol(e)];
    NoMore(2, e);
    assert b == [Byte0(c, d)] + ([Byte1(d, e)] + []);
    Regroup(c, d, e, 0);
    GroupSextets(b[0], b[1], 0);
  }

  lemma FirstFour(c: Sextet, d: Sextet, e: Sextet, f: Sextet, s: string, b: seq<Byte>)
    requires Bytes(0, 0, [Symbol(c), Symbol(d), Symbol(e), Symbol(f)] + s) == Some(b)
    ensures |b| >= 3 && Bytes(0, 0, s) == Some(b[3..])
    ensures Symbols(b) == [Symbol(c), Symbol(d), Symbol(e), Symbol(f)] + Symbols(b[3..])
  {
    hide Symbol, Sixth, Group, Value, Bytes, First, Second, Third, Fourth, Byte0, Byte1, Byte2, Clean;
    FourSymbols(c, d, e, f, s);
    var rest := Bytes(0, 0, s).value;
    assert b == [Byte0(c, d)] + ([Byte1(d, e)] + ([Byte2(e, f)] + rest));
    assert b[3..] == rest;
    Regroup(c, d, e, f);
    GroupSextets(b[0], b[1], b[2]);
  }

  lemma NoSymbols(s: string, b: seq<Byte>)
    requires Bytes(0, 0, s) == Some(b) && s == ""
    ensures Symbols(b) == s
  {
  }

  /** Encoding undoes decoding: an accepted string is the only one for its bytes. */
  lemma {:induction false} SymbolsOfBytes(s: string, b: seq<Byte>)
    requires Bytes(0, 0, s) == Some(b) && |s| % 4 != 1
    ensures Symbols(b) == s
    decreases |s|
  {
    hide Symbol, Value, Symbols, Bytes;
    if |s| < 2 {
      NoSymbols(s, b);
    } else {
      AllSymbols(0, 0, s);
      var c: Sextet, d: Sextet := Value(s[0]).value, Value(s[1]).value;
      if |s| == 2 {
        assert s == [Symbol(c), Symbol(d)];
        LastTwo(c, d, b);
      } else {
        var e: Sextet := Value(s[2]).value;
        if |s| == 3 {
          assert s == [Symbol(c), Symbol(d), Symbol(e)];
          LastThree(c, d, e, b);
        } else {
          var f: Sextet := Value(s[3]).value;
          assert s == [Symbol(c), Symbol(d), Symbol(e), Symbol(f)] + s[4..];
          FirstFour(c, d, e, f, s[4..], b);
          SymbolsOfBytes(s[4..], b[3..]);
        }
      }
    }
  }

  // ----- the decoder -----

  lemma {:induction false} NoPadInside(b: seq<Byte>)
    ensures '=' !in Symbols(b)
  {
    if b != [] {
      forall v: Sextet ensures Symbol(v) != '=' { ValueSymbol(v); }
      if |b| >= 3 { NoPadInside(b[3..]); }
    }
  }

  /** (unsigned char)(ac >> bits), and the bits left over */
  function LowByte(ac: nat, bits: nat): (x: Byte)
  {
    ac / Pow2(bits) % 256
  }

  function Rest(ac: nat, bits: nat): (x: nat)
  {
    ac % Pow2(bits)
  }

  lemma PushSextet(ac: nat, v: Sextet)
    requires ac < TWO32
    ensures var a := Push(ac, 64, v);
      && LastSextet(a) == v && LowByte(a, 4) == Byte0(LastSextet(ac), v)
      && LowByte(a, 2) == Byte1(LastSextet(ac), v) && LowByte(a, 0) == Byte2(LastSextet(ac), v)
  {
    SmallPowers();
    Wraps(ac);
    var m := ac % 0x400_0000;
    LowSextet16(m, v);
    LowSextet4(m, v);
    LowSextet1(m, v);
    LowModulo(ac, m, 0x400_0000, 4, 0x100_0000);
    LowModulo(ac, m, 0x400_0000, 16, 0x40_0000);
    LowModulo(ac, m, 0x400_0000, 64, 0x10_0000);
    LowModulo(ac, LastSextet(ac), 64, 4, 16);
    LowModulo(ac, LastSextet(ac), 64, 16, 4);
  }

  lemma LowSextet16(m: nat, v: nat)
    requires v < 64
    ensures var a: nat := m * 64 + v; a / 16 % 256 == m % 64 * 4 + v / 16
  {
    Divides(m * 64 + v, m * 4 + v / 16, v % 16, 16);
    Divides(m * 4 + v / 16, m / 64, m % 64 * 4 + v / 16, 256);
  }

  lemma LowSextet4(m: nat, v: nat)
    requires v < 64
    ensures var a: nat := m * 64 + v; a / 4 % 256 == m % 16 * 16 + v / 4
  {
    Divides(m * 64 + v, m * 16 + v / 4, v % 4, 4);
    Divides(m * 16 + v / 4, m / 16, m % 16 * 16 + v / 4, 256);
  }

  lemma LowSextet1(m: nat, v: nat)
    requires v < 64
    ensures var a: nat := m * 64 + v; a % 256 == m % 4 * 64 + v && a % 64 == v
  {
    Divides(m * 64 + v, m, v, 64);
    Divides(m * 64 + v, m / 4, m % 4 * 64 + v, 256);
  }

  lemma RestClean(ac: nat, bits: nat)
    requires bits == 0 || bits == 2 || bits == 4 || bits == 6
    ensures Rest(ac, bits) == 0 <==> Clean(bits, LastSextet(ac))
  {
    SmallPowers();
    LowModulo(ac, LastSextet(ac), 64, 4, 16);
    LowModulo(ac, LastSextet(ac), 64, 16, 4);
  }

  method DecodeSymbols(src: string) returns (r: Option<seq<Byte>>)
    ensures r == Bytes(0, 0, src)
  {
    hide Symbol, Value, Push, LowByte, Rest, LastSextet, Clean, Byte0, Byte1, Byte2;
    var ac: nat, bits: nat := 0, 0;
    var dst: seq<Byte> := [];
    Fresh(LastSextet(ac), src);
    PrependNothing(Bytes(0, 0, src));
    for i := 0 to |src|
      invariant ac < TWO32 && (bits == 0 || bits == 2 || bits == 4 || bits == 6)
      invariant Prepend(dst, Bytes(bits, LastSextet(ac), src[i..])) == Bytes(0, 0, src)
    {
      assert src[i..][0] == src[i] && src[i..][1..] == src[i + 1..];
      var p := Find(src[i]);
      if p.None? {
        return None;
      }
      PushSextet(ac, p.value);
      ac := Push(ac, 64, p.value);
      bits := bits + 6;
      if bits >= 8 {
        bits := bits - 8;
        PrependTwice(dst, [LowByte(ac, bits)], Bytes(bits, p.value, src[i + 1..]));
        dst := dst + [LowByte(ac, bits)];
      }
    }
    assert src[|src|..] == "";
    RestClean(ac, bits);
    assert dst + [] == dst;
    if Rest(ac, bits) != 0 {
      return None;
    }
    r := Some(dst);
  }

  /** What the decoder accepts is what the encoder writes, with the bytes it was written from. */
  method Decode(src: string) returns (r: Option<seq<Byte>>)
    ensures r.Some? ==> Encoding(r.value) == src
    ensures r.None? ==> forall b: seq<Byte> :: Encoding(b) != src
  {
    hide Symbols, Bytes;
    if |src| % 4 != 0 {
      forall b: seq<Byte> ensures Encoding(b) != src { PadsAtEnd(b); }
      return None;
    }
    var pad, n := 0, |src|;
    while n > 0 && src[n - 1] == '='
      invariant 0 <= n && n + pad == |src| && pad <= 2
      invariant forall i :: n <= i < |src| ==> src[i] == '='
      decreases n
    {
      pad := pad + 1;
      if pad > 2 {
        forall b: seq<Byte> ensures Encoding(b) != src { TooManyPads(src, b); }
        return None;
      }
      n := n - 1;
    }
    r := DecodeSymbols(src[..n]);
    if r.Some? {
      SymbolsOfBytes(src[..n], r.value);
      assert src == src[..n] + src[n..];
      PadIsPadding(src[n..], r.value);
    } else {
      forall b: seq<Byte> ensures Encoding(b) != src { OnlySymbols(src, n, b); }
    }
  }

  /** The equals signs of an encoding are the padding, at most two. */
  lemma PadsAtEnd(b: seq<Byte>)
    ensures |Encoding(b)| % 4 == 0 && |Symbols(b)| <= |Encoding(b)| <= |Symbols(b)| + 2
    ensures forall i :: 0 <= i < |Encoding(b)| ==> (Encoding(b)[i] == '=' <==> |Symbols(b)| <= i)
    ensures Encoding(b)[..|Symbols(b)|] == Symbols(b)
  {
    hide Symbols;
    NoPadInside(b);
    SymbolsLength(b);
    var s := Symbols(b);
    forall i | 0 <= i < |Encoding(b)| ensures Encoding(b)[i] == '=' <==> |s| <= i {
      if i < |s| { assert s[i] in s; }
    }
  }

  lemma TooManyPads(s: string, b: seq<Byte>)
    requires |s| >= 3 && s[|s| - 1] == s[|s| - 2] == s[|s| - 3] == '='
    ensures Encoding(b) != s
  {
    hide Encoding, Symbols;
    PadsAtEnd(b);
  }

  lemma PadIsPadding(pad: string, b: seq<Byte>)
    requires |pad| <= 2 && (|Symbols(b)| + |pad|) % 4 == 0
    requires forall i :: 0 <= i < |pad| ==> pad[i] == '='
    ensures Padding(|b|) == pad
  {
    hide Symbols;
    PadsAtEnd(b);
    assert Padding(|b|) == Encoding(b)[|Symbols(b)|..];
    assert |Padding(|b|)| == |pad|;
  }

  lemma SameStart(s: string, k: nat, l: nat)
    requires k <= |s| && l <= |s|
    requires forall i :: 0 <= i < |s| ==> (s[i] == '=' <==> k <= i)
    requires forall i :: 0 <= i < |s| ==> (s[i] == '=' <==> l <= i)
    ensures k == l
  {
    var m := if k < l then k else l;
    var c := if m < |s| then s[m] else '?';
    assert m < |s| ==> (c == '=' <==> k <= m);
  }

  lemma OnlySymbols(s: string, n: nat, b: seq<Byte>)
    requires n <= |s| && Bytes(0, 0, s[..n]).None?
    requires forall i :: n <= i < |s| ==> s[i] == '='
    requires n > 0 ==> s[n - 1] != '='
    ensures Encoding(b) != s
  {
    hide Symbols, Bytes, Encoding;
    PadsAtEnd(b);
    BytesOfSymbols(b);
    if Encoding(b) == s {
      forall i | 0 <= i < n && s[i] == '=' ensures n <= i { }
      SameStart(s, n, |Symbols(b)|);
    }
  }

  /** Different bytes have different encodings. */
  lemma EncodingInjective(a: seq<Byte>, b: seq<Byte>)
    requires Encoding(a) == Encoding(b)
    ensures a == b
  {
    hide Symbols, Bytes, Encoding;
    PadsAtEnd(a);
    PadsAtEnd(b);
    var s, k, l := Encoding(a), |Symbols(a)|, |Symbols(b)|;
    SameStart(s, k, l);
    BytesOfSymbols(a);
    BytesOfSymbols(b);
  }

  /** Decoding an encoding gives the bytes back. */
  method RoundTrip(b: seq<Byte>) returns (r: Option<seq<Byte>>)
    ensures r == Some(b)
  {
    hide Encoding;
    var s := Encode(b);
    r := Decode(s);
    EncodingInjective(r.value, b);
  }
}
