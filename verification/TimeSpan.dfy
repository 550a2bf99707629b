/**
 Time spans (shared/time-util.c): terms such as "1h 30min 2.5s", added up in microseconds
 without ever wrapping.
 */
module TimeSpan {
  import opened Wrappers
  import opened Strings
  import opened Arith

  const INFINITY: nat := 0xFFFF_FFFF_FFFF_FFFF
  const LLONG_MAX: int := 0x7FFF_FFFF_FFFF_FFFF

  datatype Error = Invalid | OutOfRange

  // ----- units -----

  datatype Unit = Unit(suffix: string, usec: nat)

  const SEC: nat := 1_000_000
  const MINUTE: nat := 60_000_000
  const HOUR: nat := 3_600_000_000
  const DAY: nat := 86_400_000_000
  const WEEK: nat := 604_800_000_000
  const MONTH: nat := 2_629_800_000_000
  const YEAR: nat := 31_557_600_000_000

  const TABLE: seq<Unit> := [
    Unit("seconds", SEC), Unit("second", SEC), Unit("sec", SEC), Unit("s", SEC),
    Unit("minutes", MINUTE), Unit("minute", MINUTE), Unit("min", MINUTE),
    Unit("months", MONTH), Unit("month", MONTH), Unit("M", MONTH),
    Unit("msec", 1000), Unit("ms", 1000), Unit("m", MINUTE),
    Unit("hours", HOUR), Unit("hour", HOUR), Unit("hr", HOUR), Unit("h", HOUR),
    Unit("days", DAY), Unit("day", DAY), Unit("d", DAY),
    Unit("weeks", WEEK), Unit("week", WEEK), Unit("w", WEEK),
    Unit("years", YEAR), Unit("year", YEAR), Unit("y", YEAR),
    Unit("usec", 1), Unit("us", 1), Unit("\U{03BC}s", 1), Unit("\U{00B5}s", 1)]

  /** The units by their names: every suffix of the table stands for its unit. */
  lemma UnitNames(k: nat)
    requires k < |TABLE|
    ensures var u, s := TABLE[k].usec, TABLE[k].suffix;
      || (u == 1 && s in ["us", "usec", "\U{03BC}s", "\U{00B5}s"])
      || (u == 1000 && s in ["ms", "msec"])
      || (u == 1000 * 1000 && s in ["s", "sec", "second", "seconds"])
      || (u == 60 * SEC && s in ["m", "min", "minute", "minutes"])
      || (u == 60 * MINUTE && s in ["h", "hr", "hour", "hours"])
      || (u == 24 * HOUR && s in ["d", "day", "days"])
      || (u == 7 * DAY && s in ["w", "week", "weeks"])
      || (12 * u == YEAR && s in ["M", "month", "months"])
      || (4 * u == 1461 * DAY && s in ["y", "year", "years"])
    ensures SEC == 1000 * 1000 && MINUTE == 60 * SEC && HOUR == 60 * MINUTE && DAY == 24 * HOUR
  {
  }

  predicate Fits(s: string, k: nat)
  {
    k < |TABLE| && TABLE[k].suffix <= s
  }

  /** The first entry from k on that s starts with. */
  function FirstFrom(s: string, k: nat): (r: nat)
    ensures k <= |TABLE| ==> k <= r <= |TABLE|
    ensures r < |TABLE| ==> Fits(s, r)
    ensures forall j :: k <= j < r && j < |TABLE| ==> !Fits(s, j)
    decreases |TABLE| - k
  {
    if k >= |TABLE| then |TABLE| else if TABLE[k].suffix <= s then k else FirstFrom(s, k + 1)
  }

  /** The length and the second character of an entry, and what entries with the same first
      character have in common. */
  datatype Shape = Shape(group: nat, length: nat, second: nat)

  function ShapeOf(i: nat): (r: Shape)
  {
    if i == 0 then Shape(115, 7, 101)
    else if i == 1 then Shape(115, 6, 101)
    else if i == 2 then Shape(115, 3, 101)
    else if i == 3 then Shape(115, 1, 0)
    else if i == 4 then Shape(109, 7, 105)
    else if i == 5 then Shape(109, 6, 105)
    else if i == 6 then Shape(109, 3, 105)
    else if i == 7 then Shape(109, 6, 111)
    else if i == 8 then Shape(109, 5, 111)
    else if i == 9 then Shape(77, 1, 0)
    else if i == 10 then Shape(109, 4, 115)
    else if i == 11 then Shape(109, 2, 115)
    else if i == 12 then Shape(109, 1, 0)
    else if i == 13 then Shape(104, 5, 111)
    else if i == 14 then Shape(104, 4, 111)
    else if i == 15 then Shape(104, 2, 114)
    else if i == 16 then Shape(104, 1, 0)
    else if i == 17 then Shape(100, 4, 97)
    else if i == 18 then Shape(100, 3, 97)
    else if i == 19 then Shape(100, 1, 0)
    else if i == 20 then Shape(119, 5, 101)
    else if i == 21 then Shape(119, 4, 101)
    else if i == 22 then Shape(119, 1, 0)
    else if i == 23 then Shape(121, 5, 101)
    else if i == 24 then Shape(121, 4, 101)
    else if i == 25 then Shape(121, 1, 0)
    else if i == 26 then Shape(117, 4, 115)
    else if i == 27 then Shape(117, 2, 115)
    else if i == 28 then Shape(956, 2, 115)
    else Shape(181, 2, 115)
  }

  lemma HasShape(i: nat)
    requires i < |TABLE|
    ensures var s, h := TABLE[i].suffix, ShapeOf(i);
      |s| == h.length > 0 && s[0] as int == h.group && (|s| > 1 ==> s[1] as int == h.second)
  {
  }

  /** Entries with the same first character: later ones are shorter, or differ in the next. */
  lemma ShapesDiffer(i: nat, j: nat)
    requires i < j < 30
    ensures var a, b := ShapeOf(i), ShapeOf(j);
        a.group != b.group || b.length < a.length || (a.length > 1 && a.second != b.second)
  {
  }

  /** No entry is the start of a later one. */
  lemma NoEarlierPrefix(i: nat, j: nat)
    requires i < j < |TABLE|
    ensures !(TABLE[i].suffix <= TABLE[j].suffix)
  {
    hide ShapeOf;
    TableLength();
    HasShape(i);
    HasShape(j);
    ShapesDiffer(i, j);
  }

  lemma TableLength()
    ensures |TABLE| == 30
  {
  }

  /** Two suffixes of one text: the shorter one starts the longer one. */
  lemma Comparable(a: string, b: string, s: string)
    requires a <= s && b <= s && |a| <= |b|
    ensures a <= b
  {
  }

  /** The entry that is found first is the longest that fits. */
  lemma LongestFirst(s: string, j: nat)
    requires Fits(s, j)
    ensures FirstFrom(s, 0) <= j && |TABLE[FirstFrom(s, 0)].suffix| >= |TABLE[j].suffix|
  {
    hide TABLE;
    var i := FirstFrom(s, 0);
    if i < j && |TABLE[i].suffix| < |TABLE[j].suffix| {
      Comparable(TABLE[i].suffix, TABLE[j].suffix, s);
      NoEarlierPrefix(i, j);
    }
  }

  // ----- numbers -----

  /** The white space between the terms. */
  predicate IsBlank(c: char)
  {
    c == ' ' || c == '\t' || c == '\n' || c == '\r'
  }

  datatype Scan = Scan(len: nat, value: int)

  /** What strtoll(s, &e, 10) reads: white space, a sign, digits; nothing without a digit. */
  function ScanNumber(s: string): (r: Scan)
    ensures r.len <= |s|
  {
    var w := Span(s, IsSpace);
    var sign := if w < |s| && (s[w] == '+' || s[w] == '-') then 1 else 0;
    var n := Run(s[w + sign..]);
    if n == 0 then Scan(0, 0)
    else
      var v: int := Value(Digits(s[w + sign..][..n]));
      Scan(w + sign + n, if sign == 1 && s[w] == '-' then -v else v)
  }

  // ----- terms -----

  /** A number with its unit, and the digits behind its point if it has one. */
  datatype Term = Term(number: nat, unit: nat, fraction: Option<seq<Digit>>)

  datatype Lexed = Lexed(term: Term, rest: string)

  /** The unit behind a number, and where it ends; without one it is the default. */
  function UnitAt(s: string, default: nat): (r: (nat, nat))
    ensures r.1 <= |s|
  {
    var w := Span(s, IsBlank);
    var k := FirstFrom(s[w..], 0);
    if k < |TABLE| then (TABLE[k].usec, w + |TABLE[k].suffix|) else (default, w)
  }

  predicate PointAt(s: string, n: nat)
  {
    n < |s| && s[n] == '.'
  }

  /** Behind the number, and its fraction if there is a point at n. */
  function EndOfNumber(s: string, n: nat): (q: nat)
    requires n <= |s|
    ensures n <= q <= |s| && (PointAt(s, n) ==> n < q)
  {
    if PointAt(s, n) then n + 1 + Run(s[n + 1..]) else n
  }

  function FractionAt(s: string, n: nat): (r: Option<seq<Digit>>)
    requires n <= |s|
  {
    if PointAt(s, n) then Some(Digits(s[n + 1..][..Run(s[n + 1..])])) else None
  }

  /** One term at the start of s, which is not blank. */
  function Lex(s: string, default: nat): (r: Result<Lexed, Error>)
    requires s != ""
    ensures r.Ok? ==> |r.value.rest| < |s|
  {
    var n := ScanNumber(s);
    var q := EndOfNumber(s, n.len);
    var u := UnitAt(s[q..], default);
    if s[0] == '-' || !(0 <= n.value <= LLONG_MAX) then Err(OutOfRange)
    else if q == 0 || (u.1 == 0 && q < |s|) then Err(Invalid)
    else Ok(Lexed(Term(n.value, u.0, FractionAt(s, n.len)), s[q..][u.1..]))
  }

  function Skip(s: string): (r: string)
    ensures |r| <= |s|
  {
    s[Span(s, IsBlank)..]
  }

  /** All the terms, None if the text is malformed. */
  function Terms(s: string, default: nat): (r: Option<seq<Term>>)
    decreases |s|
  {
    var p := Skip(s);
    if p == "" then Some([])
    else
      var l := Lex(p, default);
      if l.Err? || l.value.term.fraction == Some([]) then None
      else Prepend([l.value.term], Terms(l.value.rest, default))
  }

  /** The digits behind the point, each one rounded down. */
  function Fraction(ds: seq<Digit>, unit: nat): (v: nat)
  {
    if ds == [] then 0 else ds[0] as nat * (unit / 10) + Fraction(ds[1..], unit / 10)
  }

  function Micros(t: Term): (v: nat)
  {
    Times64(t.number, t.unit) + if t.fraction.Some? then Fraction(t.fraction.value, t.unit) else 0
  }

  function Times64(a: nat, b: nat): (r: nat)
  {
    a * b
  }

  function Total(ts: seq<Term>): (v: nat)
  {
    if ts == [] then 0 else Micros(ts[0]) + Total(ts[1..])
  }

  /** No number reaches the limit of its unit, and the sum stays below infinity. */
  predicate InRange(ts: seq<Term>)
  {
    Total(ts) < INFINITY && NumbersFit(ts)
  }

  // ----- what a fraction is worth -----

  /** A fraction is less than one unit, however many digits it has. */
  lemma {:induction false} FractionBelowUnit(ds: seq<Digit>, unit: nat)
    requires unit > 0
    ensures Fraction(ds, unit) < unit
  {
    if ds != [] {
      var m := unit / 10;
      if m > 0 {
        FractionBelowUnit(ds[1..], m);
        NineAtMost(ds[0], m);
      } else {
        FractionOfNothing(ds[1..]);
      }
    }
  }

  lemma NineAtMost(d: Digit, m: nat)
    ensures d as nat * m <= 9 * m
  {
  }

  /** It is not more than what is written. */
  lemma {:induction false} FractionAtMost(ds: seq<Digit>, unit: nat)
    ensures Fraction(ds, unit) * Pow10(|ds|) <= Value(ds) * unit
  {
    if ds == [] {
      AtLeastZero(Value(ds), unit);
    } else {
      FractionAtMost(ds[1..], unit / 10);
      FrontDigit(ds);
      Rounding(ds[0], unit / 10, unit, Fraction(ds[1..], unit / 10), Value(ds[1..]), Pow10(|ds| - 1));
    }
  }

  lemma {:induction false} FractionOfNothing(ds: seq<Digit>)
    ensures Fraction(ds, 0) == 0
  {
    if ds != [] { FractionOfNothing(ds[1..]); }
  }

  lemma FrontDigit(ds: seq<Digit>)
    requires ds != []
    ensures Value(ds) == ds[0] as nat * Pow10(|ds| - 1) + Value(ds[1..])
  {
    assert ds == [ds[0]] + ds[1..];
    ValueConcat([ds[0]], ds[1..]);
    assert Value([ds[0]]) == ds[0] by { assert [ds[0]][..0] == []; assert Value([]) == 0; }
  }

  lemma Rounding(d: nat, m: nat, unit: nat, f: nat, v: nat, p: nat)
    requires m == unit / 10 && f * p <= v * m && p > 0
    ensures (d * m + f) * (10 * p) <= (d * p + v) * unit
  {
    var r := unit - 10 * m;
    assert (d * m + f) * (10 * p) == 10 * (d * (m * p)) + 10 * (f * p) by {
      assert d * m * p == d * (m * p);
      assert (d * m + f) * p == d * m * p + f * p;
    }
    assert (d * p + v) * unit == 10 * (d * (m * p)) + 10 * (v * m) + (d * p + v) * r by {
      assert (d * p + v) * unit == (d * p + v) * (10 * m) + (d * p + v) * r;
      assert (d * p + v) * (10 * m) == 10 * ((d * p + v) * m);
      assert (d * p + v) * m == d * p * m + v * m;
      assert d * p * m == d * (m * p);
    }
    assert (d * p + v) * r >= 0;
  }

  // ----- the result, error codes included -----

  /** A term on top of a sum. */
  function Judge(sum: nat, t: Term): (r: Result<nat, Error>)
    requires t.unit > 0
  {
    if t.number >= INFINITY / t.unit || sum + Micros(t) >= INFINITY then Err(OutOfRange)
    else if t.fraction == Some([]) then Err(Invalid)
    else Ok(sum + Micros(t))
  }

  /** One term of p on top of a sum, and what follows it. */
  function Taken(p: string, default: nat, sum: nat): (r: Result<(nat, string), Error>)
    requires p != "" && default > 0
    ensures r.Ok? ==> |r.value.1| < |p|
  {
    var l := Lex(p, default);
    if l.Err? then Err(l.error)
    else
      LexUnit(p, default);
      var j := Judge(sum, l.value.term);
      if j.Err? then Err(j.error) else Ok((j.value, l.value.rest))
  }

  /** The terms from s on, on top of a sum; `some` if there was a term before. */
  function Verdict(s: string, default: nat, sum: nat, some: bool): (r: Result<nat, Error>)
    requires default > 0
    decreases |s|
  {
    var p := Skip(s);
    if p == "" then if some then Ok(sum) else Err(Invalid)
    else
      var t := Taken(p, default, sum);
      if t.Err? then Err(t.error) else Verdict(t.value.1, default, t.value.0, true)
  }

  function TimeOf(str: string, default: nat): (r: Result<nat, Error>)
  {
    var p := Skip(str);
    if default == 0 then Err(Invalid)
    else if "infinity" <= p then if Skip(p[8..]) == "" then Ok(INFINITY) else Err(Invalid)
    else Verdict(str, default, 0, false)
  }

  lemma UnitPositive(s: string, default: nat)
    requires default > 0
    ensures UnitAt(s, default).0 > 0
  {
    hide TABLE;
    var k := FirstFrom(s[Span(s, IsBlank)..], 0);
    if k < |TABLE| { EntryPositive(k); }
  }

  lemma EntryPositive(k: nat)
    requires k < |TABLE|
    ensures TABLE[k].usec > 0
  {
  }

  lemma LexUnit(p: string, default: nat)
    requires p != "" && default > 0 && Lex(p, default).Ok?
    ensures Lex(p, default).value.term.unit > 0
  {
    UnitPositive(p[EndOfNumber(p, ScanNumber(p).len)..], default);
    hide ScanNumber, EndOfNumber, UnitAt, FractionAt;
  }

  /** What is a span: well-formed terms, at least one, in range. */
  ghost predicate Accepted(s: string, default: nat)
  {
    var ts := Terms(s, default);
    ts.Some? && ts.value != [] && InRange(ts.value)
  }

  /** No number of the terms reaches the limit of its unit. */
  predicate NumbersFit(ts: seq<Term>)
  {
    forall i :: 0 <= i < |ts| ==> ts[i].unit > 0 && ts[i].number < INFINITY / ts[i].unit
  }

  lemma NumbersFitFront(t: Term, ts: seq<Term>)
    ensures NumbersFit([t] + ts) <==> NumbersFit([t]) && NumbersFit(ts)
    ensures NumbersFit([t]) <==> t.unit > 0 && t.number < INFINITY / t.unit
    ensures Total([t] + ts) == Micros(t) + Total(ts)
  {
    hide Micros;
    var all := [t] + ts;
    assert all[1..] == ts;
    if NumbersFit(all) {
      assert all[0] == t;
      forall i | 0 <= i < |ts| ensures ts[i].unit > 0 && ts[i].number < INFINITY / ts[i].unit {
        assert all[i + 1] == ts[i];
      }
    }
    if NumbersFit([t]) { assert [t][0] == t; }
  }

  lemma TermsStep(p: string, default: nat)
    requires Skip(p) != "" && Lex(Skip(p), default).Ok?
    ensures var l := Lex(Skip(p), default).value;
      Terms(p, default) == if l.term.fraction == Some([]) then None else Prepend([l.term], Terms(l.rest, default))
  {
    hide Lex, Skip;
  }

  /** A sum is the result exactly when the terms are well-formed, there is one, and they fit. */
  lemma {:induction false} VerdictIff(s: string, default: nat, sum: nat, some: bool)
    requires default > 0 && sum < INFINITY
    ensures var ts := Terms(s, default); var r := Verdict(s, default, sum, some);
      && (r.Ok? <==> ts.Some? && (some || ts.value != []) && NumbersFit(ts.value) && sum + Total(ts.value) < INFINITY)
      && (r.Ok? ==> r.value == sum + Total(ts.value))
    decreases |s|
  {
    hide Lex, Skip, Micros, NumbersFit, Total;
    var p := Skip(s);
    if p == "" {
      NoTerms();
    } else if Lex(p, default).Ok? {
      var l := Lex(p, default).value;
      LexUnit(p, default);
      TermsStep(s, default);
      var j := Judge(sum, l.term);
      if j.Ok? { VerdictIff(l.rest, default, j.value, true); }
      var later := Terms(l.rest, default);
      if later.Some? { NumbersFitFront(l.term, later.value); }
    }
  }

  lemma NoTerms()
    ensures NumbersFit([]) && Total([]) == 0
  {
  }

  /** The parser's result for a finite span: the sum of its terms, below infinity, exactly when
      they are well-formed and in range. */
  lemma TimeIsSum(str: string, default: nat)
    requires default > 0 && !("infinity" <= Skip(str))
    ensures var r := TimeOf(str, default);
      && (r.Ok? <==> Accepted(str, default))
      && (r.Ok? ==> r.value == Total(Terms(str, default).value) && r.value < INFINITY)
  {
    hide Terms, Verdict, Total, Skip;
    VerdictIff(str, default, 0, false);
  }

  // ----- a number that fits and is refused -----

  const REFUSED: string := "18446744073709551ms"

  /** A text that starts with n digits. */
  lemma ScanDigits(s: string, n: nat)
    requires 0 < n < |s| && (forall i :: 0 <= i < n ==> IsDigit(s[i])) && !IsDigit(s[n]) && s[n] != '.'
    ensures ScanNumber(s) == Scan(n, Value(Digits(s[..n]))) && EndOfNumber(s, n) == n && FractionAt(s, n) == None
  {
    hide Value;
    assert IsDigit(s[0]);
    SpanIs(s, IsSpace, 0);
    assert s[0..] == s;
    SpanIs(s, IsDigit, n);
  }

  lemma RefusedNumber()
    ensures ScanNumber(REFUSED) == Scan(17, 18_446_744_073_709_551) && EndOfNumber(REFUSED, 17) == 17
  {
    hide Value, ScanNumber, EndOfNumber, FractionAt, Pow10;
    ScanDigits(REFUSED, 17);
    var ds := Digits(REFUSED[..17]);
    assert ds == [1, 8, 4, 4, 6, 7, 4, 4] + [0, 7, 3, 7, 0, 9, 5, 5, 1];
    ValueConcat([1, 8, 4, 4, 6, 7, 4, 4], [0, 7, 3, 7, 0, 9, 5, 5, 1]);
    EightDigits();
  }

  lemma EightDigits()
    ensures Value([1, 8, 4, 4, 6, 7, 4, 4]) == 18_446_744 && Value([0, 7, 3, 7, 0, 9, 5, 5, 1]) == 73_709_551
    ensures Pow10(9) == 1_000_000_000
  {
    ValueConcat([1, 8, 4, 4], [6, 7, 4, 4]);
    ValueConcat([0, 7, 3, 7], [0, 9, 5, 5, 1]);
    assert [1, 8, 4, 4, 6, 7, 4, 4] == [1, 8, 4, 4] + [6, 7, 4, 4];
    assert [0, 7, 3, 7, 0, 9, 5, 5, 1] == [0, 7, 3, 7] + [0, 9, 5, 5, 1];
    FourDigits(1, 8, 4, 4);
    FourDigits(6, 7, 4, 4);
    FourDigits(0, 7, 3, 7);
    FourDigits(0, 9, 5, 5);
    ValueConcat([0, 9, 5, 5], [1]);
    assert [0, 9, 5, 5, 1] == [0, 9, 5, 5] + [1];
    assert Value([1]) == 1 by { assert [1][..0] == []; assert Value([]) == 0; }
    assert Pow10(1) == 10 && Pow10(4) == 10000 && Pow10(5) == 100000;
    Pow10Sum(5, 4);
  }

  lemma FourDigits(a: Digit, b: Digit, c: Digit, d: Digit)
    ensures Value([a, b, c, d]) == a as nat * 1000 + b as nat * 100 + c as nat * 10 + d as nat
  {
    assert [a, b, c, d][..3] == [a, b, c] && [a, b, c][..2] == [a, b] && [a, b][..1] == [a] && [a][..0] == [];
    assert Value([a]) == a as nat by { assert Value([]) == 0; }
    assert Value([a, b]) == a as nat * 10 + b as nat;
    assert Value([a, b, c]) == a as nat * 100 + b as nat * 10 + c as nat;
  }

  lemma RefusedUnit(default: nat)
    ensures UnitAt(REFUSED[17..], default) == (1000, 2)
  {
    assert REFUSED[17..] == "ms";
    SpanIs("ms", IsBlank, 0);
    assert "ms"[0..] == "ms";
    FirstIs("ms");
    Entry11();
    hide TABLE, FirstFrom;
  }

  lemma Entry11()
    ensures |TABLE| == 30 && TABLE[11] == Unit("ms", 1000)
  {
  }

  lemma FirstIs(s: string)
    requires s == "ms"
    ensures FirstFrom(s, 0) == 11
  {
    assert Fits(s, 11);
    LongestFirst(s, 11);
    TableLength();
    var k := FirstFrom(s, 0);
    HasShape(k);
  }

  /** The range test of a number is strict: 18446744073709551ms is below infinity, and refused. */
  lemma LastMultipleRefused(default: nat)
    requires default > 0
    ensures TimeOf(REFUSED, default) == Err(OutOfRange)
    ensures Terms(REFUSED, default) == Some([Term(18_446_744_073_709_551, 1000, None)])
    ensures Total(Terms(REFUSED, default).value) < INFINITY
  {
    RefusedNumber();
    RefusedUnit(default);
    RefusedSkips();
    hide ScanNumber, UnitAt, EndOfNumber, TABLE, Skip;
    var t := Term(18_446_744_073_709_551, 1000, None);
    assert REFUSED[17] == 'm' && REFUSED[0] == '1';
    assert Lex(REFUSED, default) == Ok(Lexed(t, ""));
    assert Micros(t) == 18_446_744_073_709_551_000;
    assert Terms("", default) == Some([]);
    assert [t] + [] == [t] && [t][1..] == [];
    assert Total([]) == 0;
  }

  lemma RefusedSkips()
    ensures Skip(REFUSED) == REFUSED && Skip("") == "" && !("infinity" <= REFUSED)
  {
    SpanIs(REFUSED, IsBlank, 0);
    SpanIs("", IsBlank, 0);
  }

  // ----- the parser -----

  /** The loop over the digits: none of the sums reaches infinity. */
  method AddFraction(usec: nat, ds: seq<Digit>, unit: nat) returns (r: Result<nat, Error>)
    requires usec < INFINITY
    ensures r == if usec + Fraction(ds, unit) < INFINITY then Ok(usec + Fraction(ds, unit)) else Err(OutOfRange)
  {
    hide Fraction;
    var sum: nat, m: nat, i := usec, unit / 10, 0;
    ghost var u: nat := unit;
    assert ds[0..] == ds;
    while i < |ds|
      invariant i <= |ds| && m == u / 10 && sum < INFINITY
      invariant sum + Fraction(ds[i..], u) == usec + Fraction(ds, unit)
    {
      NextDigit(ds, i, u);
      var k := Times64(ds[i], m);
      if k >= INFINITY - sum {
        return Err(OutOfRange);
      }
      sum := sum + k;
      i, m, u := i + 1, m / 10, m;
    }
    NoDigits(ds, u);
    r := Ok(sum);
  }

  lemma NextDigit(ds: seq<Digit>, i: nat, u: nat)
    requires i < |ds|
    ensures Fraction(ds[i..], u) == Times64(ds[i], u / 10) + Fraction(ds[i + 1..], u / 10)
  {
    assert ds[i..][1..] == ds[i + 1..];
  }

  lemma NoDigits(ds: seq<Digit>, u: nat)
    ensures Fraction(ds[|ds|..], u) == 0
  {
  }

  /** One round of the loop: the text of a term, then its value on top of the sum. */
  method NextTerm(p: string, default: nat, usec: nat) returns (r: Result<(nat, string), Error>)
    requires p != "" && default > 0 && usec < INFINITY
    ensures r == Taken(p, default, usec) && (r.Ok? ==> r.value.0 < INFINITY)
  {
    hide ScanNumber, UnitAt, Fraction, TABLE, EndOfNumber;
    if p[0] == '-' {
      return Err(OutOfRange);
    }
    var n := ScanNumber(p);
    if n.value < 0 || n.value > LLONG_MAX {
      return Err(OutOfRange);
    }
    var q := EndOfNumber(p, n.len);
    if q == 0 {
      return Err(Invalid);
    }
    var u := UnitAt(p[q..], default);
    if u.1 == 0 && q < |p| {
      return Err(Invalid);
    }
    UnitPositive(p[q..], default);
    if n.value >= INFINITY / u.0 {
      return Err(OutOfRange);
    }
    var k := Times64(n.value, u.0);
    if k >= INFINITY - usec {
      return Err(OutOfRange);
    }
    var sum := usec + k;
    if PointAt(p, n.len) {
      var ds := FractionAt(p, n.len).value;
      var f := AddFraction(sum, ds, u.0);
      if f.Err? {
        return Err(f.error);
      }
      sum := f.value;
      if |ds| == 0 {
        return Err(Invalid);
      }
    }
    r := Ok((sum, p[q..][u.1..]));
  }

  method ParseTime(str: string, default: nat) returns (r: Result<nat, Error>)
    ensures r == TimeOf(str, default)
  {
    hide Verdict, Skip, Taken;
    if default == 0 {
      return Err(Invalid);
    }
    var p := Skip(str);
    if "infinity" <= p {
      return if Skip(p[8..]) == "" then Ok(INFINITY) else Err(Invalid);
    }
    var usec: nat, something := 0, false;
    SkipVerdict(str, default, usec, something);
    while p != ""
      invariant Skip(p) == p && usec < INFINITY
      invariant Verdict(p, default, usec, something) == Verdict(str, default, 0, false)
      decreases |p|
    {
      VerdictStep(p, default, usec, something);
      var t := NextTerm(p, default, usec);
      if t.Err? {
        return Err(t.error);
      }
      usec, something := t.value.0, true;
      p := Skip(t.value.1);
      SkipVerdict(t.value.1, default, usec, something);
    }
    VerdictEnd(default, usec, something);
    if !something {
      return Err(Invalid);
    }
    r := Ok(usec);
  }

  lemma SkipOnce(s: string)
    ensures Skip(Skip(s)) == Skip(s)
  {
    SpanTwice(s, IsBlank);
    var p := Skip(s);
    assert p[0..] == p;
  }

  lemma SkipVerdict(s: string, default: nat, sum: nat, some: bool)
    requires default > 0
    ensures Skip(Skip(s)) == Skip(s) && Verdict(Skip(s), default, sum, some) == Verdict(s, default, sum, some)
  {
    hide Taken, Skip;
    SkipOnce(s);
  }

  lemma VerdictStep(p: string, default: nat, sum: nat, some: bool)
    requires default > 0 && Skip(p) == p != ""
    ensures var t := Taken(p, default, sum);
      Verdict(p, default, sum, some) == if t.Err? then Err(t.error) else Verdict(t.value.1, default, t.value.0, true)
  {
    hide Taken, Skip;
  }

  lemma VerdictEnd(default: nat, sum: nat, some: bool)
    requires default > 0
    ensures Verdict("", default, sum, some) == if some then Ok(sum) else Err(Invalid)
  {
    hide Taken;
  }
}
