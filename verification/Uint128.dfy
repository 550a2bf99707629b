/**
 128-bit numbers in decimal: printing by long division of four words
 (shared/uint128-util.c) and parsing of a comma-separated list (shared/parse-util.c).
 */
module Uint128 {
  import opened Wrappers
  import opened Arith
  import opened Strings
  import opened CStrings

  const MAX: nat := 0xFFFF_FFFF_FFFF_FFFF_FFFF_FFFF_FFFF_FFFF

  type Word = w: int | 0 <= w < TWO32

  // ----- decimal numbers -----

  function DigitChar(d: Digit): (c: char)
  {
    (48 + d) as char
  }

  function Decimal(n: nat): (s: string)
    ensures s != ""
  {
    if n < 10 then [DigitChar(n)] else Decimal(n / 10) + [DigitChar(n % 10)]
  }

  /** Four words, the most significant one first. */
  function Number(w0: nat, w1: nat, w2: nat, w3: nat): (n: nat)
  {
    ((w0 * TWO32 + w1) * TWO32 + w2) * TWO32 + w3
  }

  lemma NumberFits(w0: Word, w1: Word, w2: Word, w3: Word)
    ensures Number(w0, w1, w2, w3) <= MAX
  {
  }

  /** The number that bytes stand for, the least significant one first. */
  function LittleEndian(data: seq<Byte>): (n: nat)
  {
    if data == [] then 0 else data[0] as nat + 256 * LittleEndian(data[1..])
  }

  function Le32(data: seq<Byte>, i: nat): (w: nat)
    requires i + 4 <= |data|
  {
    data[i] as nat + 256 * (data[i + 1] as nat + 256 * (data[i + 2] as nat + 256 * data[i + 3] as nat))
  }

  /** le128_to_cpu: the words in reverse order stand for the same number. */
  lemma FromLittleEndian(data: seq<Byte>)
    requires |data| == 16
    ensures Number(Le32(data, 12), Le32(data, 8), Le32(data, 4), Le32(data, 0)) == LittleEndian(data)
  {
    FourBytes(data, 0);
    FourBytes(data, 4);
    FourBytes(data, 8);
    FourBytes(data, 12);
    assert data[0..] == data && data[16..] == [];
  }

  lemma FourBytes(data: seq<Byte>, i: nat)
    requires i + 4 <= |data|
    ensures LittleEndian(data[i..]) == Le32(data, i) + TWO32 * LittleEndian(data[i + 4..])
  {
    assert data[i..][1..] == data[i + 1..] && data[i + 1..][1..] == data[i + 2..];
    assert data[i + 2..][1..] == data[i + 3..] && data[i + 3..][1..] == data[i + 4..];
    assert LittleEndian(data[i + 2..]) == data[i + 2] as nat + 256 * LittleEndian(data[i + 3..]);
  }

  /** One step of the long division: the carry and the next word. */
  function Carried(carry: nat, w: nat): (r: nat)
  {
    carry * TWO32 + w
  }

  lemma DivisionStep(carry: nat, w: Word)
    requires carry < 10
    ensures Carried(carry, w) / 10 < TWO32
    ensures Carried(carry, w) == Carried(carry, w) / 10 * 10 + Carried(carry, w) % 10
  {
  }

  /** Dividing word by word divides the number. */
  lemma LongDivision(w0: Word, w1: Word, w2: Word, w3: Word, q0: nat, r0: nat, q1: nat, r1: nat, q2: nat, r2: nat,
      q3: nat, r3: nat)
    requires w0 == q0 * 10 + r0 && Carried(r0, w1) == q1 * 10 + r1 && Carried(r1, w2) == q2 * 10 + r2
    requires Carried(r2, w3) == q3 * 10 + r3
    requires r3 < 10
    ensures Number(w0, w1, w2, w3) / 10 == Number(q0, q1, q2, q3) && Number(w0, w1, w2, w3) % 10 == r3
  {
    Divides(Number(w0, w1, w2, w3), Number(q0, q1, q2, q3), r3, 10);
  }

  /** The digits still to be written; none of a zero that is not the first. */
  function More(n: nat): (s: string)
  {
    if n == 0 then "" else Decimal(n)
  }

  lemma MoreStep(n: nat)
    ensures More(n / 10) + [DigitChar(n % 10)] == Decimal(n)
  {
  }

  lemma TenPowers()
    ensures MAX < Pow10(39)
  {
    hide Pow10;
    ThreeAndSix();
    Pow10Sum(6, 6);
    assert Pow10(12) == 1_000_000_000_000;
    Pow10Sum(12, 12);
    assert Pow10(24) == 1_000_000_000_000_000_000_000_000;
    Pow10Sum(24, 12);
    assert Pow10(36) == 1_000_000_000_000_000_000_000_000_000_000_000_000;
    Pow10Sum(36, 3);
  }

  lemma ThreeAndSix()
    ensures Pow10(3) == 1000 && Pow10(6) == 1_000_000
  {
  }

  lemma Shrinks(n: nat, k: nat)
    requires n < Pow10(k) && k > 0
    ensures n / 10 < Pow10(k - 1)
  {
  }

  const SIZE: nat := 60

  class Printer {
    var w0: Word
    var w1: Word
    var w2: Word
    var w3: Word
    const str: array<char>

    constructor ()
      ensures fresh(str) && str.Length == SIZE
    {
      str := new char[SIZE];
    }

    ghost function Val(): (n: nat)
      reads this
    {
      Number(w0, w1, w2, w3)
    }

    /** The body of the loop: the words are divided by ten in place. */
    method DivideBy10() returns (rem: nat)
      modifies this
      ensures Val() == old(Val()) / 10 && rem == old(Val()) % 10
    {
      hide Number;
      ghost var v0, v1, v2, v3 := w0, w1, w2, w3;
      var div := w0 / 10;
      var r0 := w0 - div * 10;
      DivisionStep(0, w0);
      w0 := div;
      DivisionStep(r0, w1);
      var c := Carried(r0, w1);
      w1 := c / 10;
      var r1 := c - c / 10 * 10;
      DivisionStep(r1, w2);
      c := Carried(r1, w2);
      w2 := c / 10;
      var r2 := c - c / 10 * 10;
      DivisionStep(r2, w3);
      c := Carried(r2, w3);
      w3 := c / 10;
      rem := c - c / 10 * 10;
      LongDivision(v0, v1, v2, v3, w0, r0, w1, r1, w2, r2, w3, rem);
    }

    /** The whole number in decimal, terminated, at the end of the buffer; 39 digits at most. */
    method ToStr(a: Word, b: Word, c: Word, d: Word) returns (idx: nat)
      requires str.Length == SIZE
      modifies this, str
      ensures SIZE - 40 <= idx < SIZE - 1 && str[SIZE - 1] == '\0'
      ensures str[idx..SIZE - 1] == Decimal(Number(a, b, c, d))
    {
      hide Number, Decimal, Pow10;
      w0, w1, w2, w3 := a, b, c, d;
      ghost var n := Val();
      NumberFits(a, b, c, d);
      TenPowers();
      idx := SIZE - 1;
      str[idx] := '\0';
      MoreStep(n);
      Shrinks(n, 39);
      var rem := DivideBy10();
      idx := idx - 1;
      str[idx] := DigitChar(rem);
      while w0 != 0 || w1 != 0 || w2 != 0 || w3 != 0
        invariant SIZE - 40 <= idx < SIZE - 1 && str[SIZE - 1] == '\0'
        invariant Val() < Pow10(idx - (SIZE - 40))
        invariant More(Val()) + str[idx..SIZE - 1] == Decimal(n)
        decreases Val()
      {
        Positive(w0, w1, w2, w3);
        PowerLeft(Val(), idx - (SIZE - 40));
        MoreStep(Val());
        Shrinks(Val(), idx - (SIZE - 40));
        rem := DivideBy10();
        idx := idx - 1;
        str[idx] := DigitChar(rem);
      }
      ZeroWords();
    }
  }

  lemma Positive(w0: Word, w1: Word, w2: Word, w3: Word)
    requires w0 != 0 || w1 != 0 || w2 != 0 || w3 != 0
    ensures Number(w0, w1, w2, w3) > 0
  {
  }

  lemma ZeroWords()
    ensures Number(0, 0, 0, 0) == 0
  {
  }

  lemma PowerLeft(n: nat, k: nat)
    requires 0 < n < Pow10(k)
    ensures k > 0
  {
  }

  // ----- numbers in text -----

  datatype Error = Invalid | Malformed | OutOfRange

  function DigitIn(base: nat, c: char): (d: nat)
    ensures d < base || d == 99
  {
    if '0' <= c <= '9' && c as int - 48 < base then c as int - 48
    else if base == 16 && 'a' <= c <= 'f' then c as int - 87
    else if base == 16 && 'A' <= c <= 'F' then c as int - 55
    else 99
  }

  predicate IsDigit(base: nat, c: char)
  {
    DigitIn(base, c) < base
  }

  /** The length of the digits in front. */
  function Run(base: nat, s: string): (n: nat)
    ensures n <= |s| && (forall i :: 0 <= i < n ==> IsDigit(base, s[i])) && (n < |s| ==> !IsDigit(base, s[n]))
  {
    var p := c => IsDigit(base, c);
    SpanFacts(s, p);
    Span(s, p)
  }

  function Numeral(base: nat, s: string): (v: nat)
  {
    if s == "" then 0 else Append(Numeral(base, s[..|s| - 1]), base, DigitIn(base, s[|s| - 1]))
  }

  function Append(v: nat, base: nat, d: nat): (r: nat)
  {
    v * base + d
  }

  /** Out of range exactly when the digits stand for a number that does not fit. */
  function ReadNumber(base: nat, s: string): (r: Result<nat, Error>)
  {
    var k := Run(base, s);
    if Numeral(base, s[..k]) > MAX then Err(OutOfRange)
    else if k < |s| then Err(Malformed)
    else Ok(Numeral(base, s[..k]))
  }

  predicate LeadingZero(s: string)
  {
    |s| > 1 && s[0] == '0' && '0' <= s[1] <= '9'
  }

  function Entry(s: string): (r: Result<nat, Error>)
  {
    if |s| >= 2 && s[0] == '0' && (s[1] == 'x' || s[1] == 'X') then
      if |s| == 2 then Err(Invalid) else ReadNumber(16, s[2..])
    else if LeadingZero(s) || s == "" then Err(Invalid)
    else ReadNumber(10, s)
  }

  /** The entries of a list with room for so many; empty ones are skipped. */
  function Entries(pieces: seq<string>, room: nat): (r: Result<seq<nat>, Error>)
  {
    if pieces == [] then Ok([])
    else if pieces[0] == "" then Entries(pieces[1..], room)
    else if room == 0 then Err(Invalid)
    else
      var v := Entry(Trim(pieces[0]));
      if v.Err? then Err(v.error) else
        PrependOk([v.value], Entries(pieces[1..], room - 1))
  }

  // ----- the parser -----

  lemma NumeralStep(base: nat, s: string, i: nat)
    requires i < |s|
    ensures Numeral(base, s[..i + 1]) == Numeral(base, s[..i]) * base + DigitIn(base, s[i])
  {
    assert s[..i + 1][..i] == s[..i];
  }

  lemma {:induction false} NumeralGrows(base: nat, s: string, i: nat, k: nat)
    requires base >= 1 && i <= k <= |s|
    ensures Numeral(base, s[..i]) <= Numeral(base, s[..k])
    decreases k
  {
    if i < k {
      NumeralGrows(base, s, i, k - 1);
      NumeralStep(base, s, k - 1);
      AtLeast(Numeral(base, s[..k - 1]), base);
    }
  }

  lemma AtLeast(n: nat, base: nat)
    requires base >= 1
    ensures n <= n * base
  {
  }

  /** The test v > (MAX - digit) / base is exact. */
  lemma RangeTest(v: nat, digit: nat, base: nat)
    requires digit < base && (base == 10 || base == 16)
    ensures v > (MAX - digit) / base <==> v * base + digit > MAX
  {
  }

  method ReadDigits(base: nat, s: string) returns (r: Result<nat, Error>)
    requires base == 10 || base == 16
    ensures r == ReadNumber(base, s)
  {
    hide Numeral, DigitIn;
    var v, i := 0, 0;
    EmptyNumeral(base, s);
    while i < |s|
      invariant i <= |s| && (forall j :: 0 <= j < i ==> IsDigit(base, s[j]))
      invariant v == Numeral(base, s[..i]) && v <= MAX
    {
      var digit := DigitIn(base, s[i]);
      if digit >= base {
        RunIs(base, s, i);
        return Err(Malformed);
      }
      RangeTest(v, digit, base);
      NumeralStep(base, s, i);
      if v > (MAX - digit) / base {
        RunAtLeast(base, s, i + 1);
        NumeralGrows(base, s, i + 1, Run(base, s));
        return Err(OutOfRange);
      }
      v := v * base + digit;
      i := i + 1;
    }
    RunIs(base, s, i);
    r := Ok(v);
  }

  lemma EmptyNumeral(base: nat, s: string)
    ensures Numeral(base, s[..0]) == 0
  {
  }

  lemma RunIs(base: nat, s: string, k: nat)
    requires k <= |s| && (forall j :: 0 <= j < k ==> IsDigit(base, s[j])) && (k < |s| ==> !IsDigit(base, s[k]))
    ensures Run(base, s) == k
  {
    SpanIs(s, c => IsDigit(base, c), k);
  }

  lemma RunAtLeast(base: nat, s: string, k: nat)
    requires k <= |s| && (forall j :: 0 <= j < k ==> IsDigit(base, s[j]))
    ensures Run(base, s) >= k
  {
  }

  method ReadEntry(s: string) returns (r: Result<nat, Error>)
    ensures r == Entry(s)
  {
    hide ReadNumber;
    var base, src := 10, s;
    if |s| >= 2 && s[0] == '0' && (s[1] == 'x' || s[1] == 'X') {
      base := 16;
      src := s[2..];
    } else if LeadingZero(s) {
      return Err(Invalid);
    }
    if src == "" {
      return Err(Invalid);
    }
    r := ReadDigits(base, src);
  }

  /** The string s at `at` is being cut: `rest` is what is left of it at p, if there is more, and
      nothing outside it has changed. */
  ghost predicate Cutting(b: seq<char>, b0: seq<char>, at: nat, s: string, p: nat, rest: string, more: bool)
  {
    && |b| == |b0| && at + |s| < |b| && at <= p && b[..at] == b0[..at] && b[at + |s|..] == b0[at + |s|..]
    && (more ==> Holds(b, p, rest) && p + |rest| == at + |s|)
  }

  /** shr_strsep() with a comma: the token is terminated, and what follows is still there. */
  method Token(buf: array<char>, ghost b0: seq<char>, ghost at: nat, ghost s: string, p: nat, ghost rest: string)
    returns (k: nat, more: bool, empty: bool)
    requires Cutting(buf[..], b0, at, s, p, rest, true)
    modifies buf
    ensures k == IndexOf(rest, ',') && more == (k < |rest|) && empty == (k == 0)
    ensures Holds(buf[..], p, rest[..k]) && Cutting(buf[..], b0, at, s, p + k + 1,
        if more then rest[k + 1..] else "", more)
    ensures at <= p && p + k <= at + |s|
  {
    hide Holds, IndexOf;
    k := FindChar(buf, p, rest, ',');
    more := buf[p + k] == ',';
    HoldsCut(buf[..], p, rest, k);
    ghost var b := buf[..];
    if more {
      HoldsTail(buf[..], p, rest, k + 1);
      CutKeepsTail(buf[..], p + k, p + k + 1, rest[k + 1..]);
      buf[p + k] := '\0';
      Frame(b, buf[..], at, p, p + |rest|, at + |s|);
    } else {
      SameBuffer(buf[..], p, rest);
    }
    CharAt(buf[..], p, rest[..k], 0);
    empty := buf[p] == '\0';
  }

  /** A token that is not empty, trimmed in place and read; what follows it stays. */
  method ReadToken(buf: array<char>, ghost b0: seq<char>, ghost at: nat, ghost s: string,
                   p: nat, ghost tok: string, ghost rest: string, ghost more: bool) returns (r: Result<nat, Error>)
    requires Holds(buf[..], p, tok) && at <= p && p + |tok| <= at + |s|
    requires Cutting(buf[..], b0, at, s, p + |tok| + 1, rest, more)
    modifies buf
    ensures r == Entry(Trim(tok)) && Cutting(buf[..], b0, at, s, p + |tok| + 1, rest, more)
  {
    hide Holds, Entry, Trim, TrimRight;
    InBuffer(buf[..], p, tok);
    if more { CutKeepsTail(buf[..], p + |TrimRight(tok)|, p + |tok| + 1, rest); }
    ghost var b := buf[..];
    var q := TrimAt(buf, p, tok);
    Frame(b, buf[..], at, p, p + |tok|, at + |s|);
    var u := ReadString(buf, q, Trim(tok));
    r := ReadEntry(u);
  }

  /** shr_parse_csv_uint128: the entries in order, in the caller's array; the string is cut at its
      commas, and nothing outside it is written. */
  method ParseCsv(buf: array<char>, at: nat, ghost s: string, val: array<nat>) returns (r: Result<nat, Error>)
    requires Holds(buf[..], at, s)
    modifies buf, val
    ensures match Entries(Split(s, ','), val.Length)
      case Ok(ns) => r == Ok(|ns|) && |ns| <= val.Length && val[..|ns|] == ns
      case Err(e) => r == Err(e)
    ensures Cutting(buf[..], old(buf[..]), at, s, at, "", false)
  {
    hide Entry, Trim, Entries, PrependOk, Split, Holds, IndexOf, Cutting;
    var n: nat, p: nat, more := 0, at, true;
    ghost var b0, rest, pieces := buf[..], s, Split(s, ',');
    ghost var all := Entries(pieces, val.Length);
    StartCutting(b0, at, s);
    if buf[at] == '\0' {
      EmptyList(val.Length);
      return Ok(0);
    }
    PrependOkNothing(all);
    while more
      invariant n <= val.Length && Cutting(buf[..], b0, at, s, p, rest, more)
      invariant Cutting(buf[..], b0, at, s, at, "", false)
      invariant pieces == if more then Split(rest, ',') else []
      invariant all == PrependOk(val[..n], Entries(pieces, val.Length - n))
      decreases if more then |rest| + 1 else 0
    {
      SplitAt(rest, ',');
      assert pieces[0] == rest[..IndexOf(rest, ',')];
      EntriesStep(val[..n], pieces, val.Length - n);
      var k, empty;
      k, more, empty := Token(buf, b0, at, s, p, rest);
      ghost var tok := rest[..k];
      rest := if more then rest[k + 1..] else "";
      CutAnywhere(buf[..], b0, at, s, p + k + 1, rest, more);
      if !empty {
        if n >= val.Length {
          return Err(Invalid);
        }
        var v := ReadToken(buf, b0, at, s, p, tok, rest, more);
        CutAnywhere(buf[..], b0, at, s, p + k + 1, rest, more);
        if v.Err? {
          return Err(v.error);
        }
        Stored(val[..], n, v.value);
        val[n] := v.value;
        n := n + 1;
      }
      pieces := pieces[1..];
      p := p + k + 1;
    }
    NoEntries(val[..n], val.Length - n);
    r := Ok(n);
  }

  lemma Stored(v: seq<nat>, n: nat, x: nat)
    requires n < |v|
    ensures v[n := x][..n + 1] == v[..n] + [x]
  {
  }

  lemma StartCutting(b: seq<char>, at: nat, s: string)
    requires Holds(b, at, s)
    ensures Cutting(b, b, at, s, at, s, true) && Cutting(b, b, at, s, at, "", false) && (b[at] == '\0' <==> s == "")
  {
    CharAt(b, at, s, 0);
  }

  lemma CutAnywhere(b: seq<char>, b0: seq<char>, at: nat, s: string, p: nat, rest: string, more: bool)
    requires Cutting(b, b0, at, s, p, rest, more)
    ensures Cutting(b, b0, at, s, at, "", false)
  {
  }

  /** Writes between p and q stay between at and end. */
  lemma Frame(b: seq<char>, c: seq<char>, at: nat, p: nat, q: nat, end: nat)
    requires at <= p <= |b| == |c| && q <= end <= |b| && c[..p] == b[..p] && c[q..] == b[q..]
    ensures c[..at] == b[..at] && c[end..] == b[end..]
  {
    assert c[..at] == c[..p][..at] && b[..at] == b[..p][..at];
    assert c[end..] == c[q..][end - q..] && b[end..] == b[q..][end - q..];
  }

  lemma NoEntries(done: seq<nat>, room: nat)
    ensures PrependOk(done, Entries([], room)) == Ok(done)
  {
    assert done + [] == done;
  }

  lemma EmptyList(room: nat)
    ensures Entries(Split("", ','), room) == Ok([])
  {
    assert [""][1..] == [];
  }

  /** What the loop does with the first piece. */
  lemma EntriesStep(done: seq<nat>, pieces: seq<string>, room: nat)
    requires pieces != []
    ensures var all, v := PrependOk(done, Entries(pieces, room)), Entry(Trim(pieces[0]));
      if pieces[0] == "" then all == PrependOk(done, Entries(pieces[1..], room))
      else if room == 0 then all == Err(Invalid)
      else if v.Err? then all == Err(v.error)
      else all == PrependOk(done + [v.value], Entries(pieces[1..], room - 1))
  {
    hide Entry, Trim;
    var v := Entry(Trim(pieces[0]));
    if pieces[0] != "" && room > 0 && v.Ok? {
      PrependOkTwice(done, [v.value], Entries(pieces[1..], room - 1));
    }
  }

  // ----- printing and parsing -----

  lemma {:induction false} DecimalReads(n: nat)
    ensures forall i :: 0 <= i < |Decimal(n)| ==> '0' <= Decimal(n)[i] <= '9'
    ensures Numeral(10, Decimal(n)) == n
    ensures Decimal(n)[0] == '0' ==> n == 0
  {
    if n >= 10 {
      DecimalReads(n / 10);
      assert Decimal(n)[..|Decimal(n)| - 1] == Decimal(n / 10);
    } else {
      assert [DigitChar(n)][..0] == "";
      assert Numeral(10, "") == 0;
    }
  }

  /** The digits of a decimal text stand for its number. */
  lemma {:induction false} DecimalValue(n: nat)
    ensures forall i :: 0 <= i < |Decimal(n)| ==> Arith.IsDigit(Decimal(n)[i])
    ensures Value(Digits(Decimal(n))) == n
  {
    if n >= 10 {
      DecimalValue(n / 10);
      var ds := Digits(Decimal(n));
      assert ds[..|ds| - 1] == Digits(Decimal(n / 10));
      assert ds[|ds| - 1] == n % 10;
    } else {
      assert Digits([DigitChar(n)]) == [n];
      assert [n][..0] == [];
      assert Value([n]) == Value([n][..0]) * 10 + n;
    }
  }

  /** The sixteen hexadecimal digits in order, in either case. */
  lemma HexDigits(i: nat)
    requires i < 16
    ensures DigitIn(16, "0123456789abcdef"[i]) == DigitIn(16, "0123456789ABCDEF"[i]) == i
  {
  }

  lemma EntryOfDecimal(n: nat)
    requires n <= MAX
    ensures Trim(Decimal(n)) == Decimal(n) && Entry(Decimal(n)) == Ok(n) && ',' !in Decimal(n) && '\0' !in Decimal(n)
  {
    hide Numeral;
    var s := Decimal(n);
    DecimalReads(n);
    TrimNothing(s);
    RunAtLeast(10, s, |s|);
    assert s[..|s|] == s;
    if s[0] == '0' { assert s == [DigitChar(0)]; }
  }

  function Decimals(ns: seq<nat>): (r: seq<string>)
    ensures |r| == |ns|
  {
    seq(|ns|, i requires 0 <= i < |ns| => Decimal(ns[i]))
  }

  lemma {:induction false} EntriesOfDecimals(ns: seq<nat>, room: nat)
    requires |ns| <= room && forall i :: 0 <= i < |ns| ==> ns[i] <= MAX
    ensures Entries(Decimals(ns), room) == Ok(ns)
  {
    hide Entry, Trim, Decimal;
    if ns != [] {
      EntryOfDecimal(ns[0]);
      assert Decimals(ns)[1..] == Decimals(ns[1..]);
      EntriesOfDecimals(ns[1..], room - 1);
      assert [ns[0]] + ns[1..] == ns;
    }
  }

  /** The text of a list: decimal numbers with commas between them. */
  function ListText(ns: seq<nat>): (s: string)
  {
    if ns == [] then "" else Join(Decimals(ns), ',')
  }

  /** A number of 128 bits is four words. */
  lemma FourWords(n: nat)
    requires n <= MAX
    ensures var a, b, c, d := n / TWO32 / TWO32 / TWO32, n / TWO32 / TWO32 % TWO32, n / TWO32 % TWO32, n % TWO32;
      a < TWO32 && Number(a, b, c, d) == n
  {
    var x, y := n / TWO32, n / TWO32 / TWO32;
    assert n == x * TWO32 + n % TWO32 && x == y * TWO32 + x % TWO32;
    assert y == y / TWO32 * TWO32 + y % TWO32;
  }

  lemma {:induction false} JoinMore(pieces: seq<string>, p: string, sep: char)
    requires pieces != []
    ensures Join(pieces + [p], sep) == Join(pieces, sep) + [sep] + p
  {
    var all := pieces + [p];
    if |pieces| == 1 {
      assert all[1..] == [p];
    } else {
      assert all[1..] == pieces[1..] + [p];
      JoinMore(pieces[1..], p, sep);
    }
  }

  lemma TextMore(ns: seq<nat>, i: nat)
    requires i < |ns|
    ensures ListText(ns[..i + 1]) == if i == 0 then Decimal(ns[0]) else ListText(ns[..i]) + "," + Decimal(ns[i])
  {
    hide Decimal;
    assert Decimals(ns[..i + 1]) == Decimals(ns[..i]) + [Decimal(ns[i])];
    if i > 0 { JoinMore(Decimals(ns[..i]), Decimal(ns[i]), ','); }
  }

  /** Each number is printed by the long division. */
  method PrintList(ns: seq<nat>) returns (s: string)
    requires forall i :: 0 <= i < |ns| ==> ns[i] <= MAX
    ensures s == ListText(ns)
  {
    hide ListText, Decimal, Number;
    var p := new Printer();
    s := "";
    TextOfNone(ns);
    for i := 0 to |ns|
      invariant fresh(p) && fresh(p.str) && p.str.Length == SIZE && s == ListText(ns[..i])
    {
      var n := ns[i];
      FourWords(n);
      var idx := p.ToStr(n / TWO32 / TWO32 / TWO32, n / TWO32 / TWO32 % TWO32, n / TWO32 % TWO32, n % TWO32);
      TextMore(ns, i);
      s := (if i == 0 then "" else s + ",") + p.str[idx..SIZE - 1];
    }
    assert ns[..|ns|] == ns;
  }

  lemma TextOfNone(ns: seq<nat>)
    ensures ListText(ns[..0]) == ""
  {
  }

  /** Printing numbers, joining them with commas and parsing the list gives them back. */
  method PrintThenParse(ns: seq<nat>, val: array<nat>) returns (r: Result<nat, Error>)
    requires |ns| <= val.Length && forall i :: 0 <= i < |ns| ==> ns[i] <= MAX
    modifies val
    ensures r == Ok(|ns|) && val[..|ns|] == ns
  {
    hide Holds, Split, Entries, ListText;
    var s := PrintList(ns);
    PrintedList(ns, val.Length);
    var buf := new char[|s| + 1](i requires 0 <= i <= |s| => if i < |s| then s[i] else '\0');
    assert buf[0..] == s + ['\0'];
    RestHolds(buf[..], 0, s);
    r := ParseCsv(buf, 0, s, val);
  }

  lemma PrintedList(ns: seq<nat>, room: nat)
    requires |ns| <= room && forall i :: 0 <= i < |ns| ==> ns[i] <= MAX
    ensures var s := ListText(ns); Entries(Split(s, ','), room) == Ok(ns) && '\0' !in s
  {
    hide Decimal;
    if ns == [] {
      EmptyList(room);
    } else {
      forall i | 0 <= i < |ns| ensures ',' !in Decimals(ns)[i] && '\0' !in Decimals(ns)[i] { EntryOfDecimal(ns[i]); }
      SplitJoin(Decimals(ns), ',');
      EntriesOfDecimals(ns, room);
      JoinHasNo(Decimals(ns), ',', '\0');
    }
  }

  lemma {:induction false} JoinHasNo(pieces: seq<string>, sep: char, c: char)
    requires pieces != [] && c != sep && forall i :: 0 <= i < |pieces| ==> c !in pieces[i]
    ensures c !in Join(pieces, sep)
  {
    if |pieces| > 1 { JoinHasNo(pieces[1..], sep, c); }
  }
}
