/**
 Option tables and their values (src/argconfig.h, src/argconfig.c): looking an option up by
 its names, matching a value by its name, and storing the value of one use of an option.
 */
module Options {
  import opened Wrappers
  import opened Strings

  const INT_MAX: int := 0x7FFF_FFFF
  const INT_MIN: int := -0x8000_0000

  datatype Kind = Flag | Increment | Str | Signed | Byte | Short | Positive | Long | Suffixed | Real | Enum | EnumList

  datatype Argument = NoArgument | Required | Optional

  /** What an option variable holds; a string may be NULL. */
  datatype Val = Bool(b: bool) | Int(i: int) | Text(s: Option<string>) | Bits(w: bv32) | Float(r: real)

  datatype ValueName = ValueName(name: string, val: Val)

  /** `id` is the identity of the table entry, which its `seen` flag belongs to. */
  datatype Opt = Opt(
    id: nat,
    name: string,
    short: Option<char>,
    kind: Kind,
    variable: Option<nat>,
    argument: Argument,
    names: seq<ValueName>,
    deprecated: bool,
    oldName: Option<string>,
    min: nat,
    max: nat)

  datatype Entry = One(opt: Opt) | Separator | Include(table: seq<Entry>)

  /** The C library's conversions of a whole text to a number. */
  datatype Conversions = Conversions(
    unsigned: string -> Option<nat>,
    signed: string -> Option<int>,
    suffixed: string -> Option<nat>,
    float: string -> Option<real>)

  // ----- lookup -----

  function All(t: seq<Entry>): (r: seq<Opt>)
    decreases t
  {
    if t == [] then []
    else match t[0]
      case One(o) => [o] + All(t[1..])
      case Separator => All(t[1..])
      case Include(u) => All(u) + All(t[1..])
  }

  predicate HasLong(o: Opt, name: string)
  {
    o.name != "" && (o.name == name || o.oldName == Some(name))
  }

  /** The first option of that name in a list without includes. */
  function FirstLong(os: seq<Opt>, name: string): (r: Option<Opt>)
  {
    if os == [] then None else if HasLong(os[0], name) then Some(os[0]) else FirstLong(os[1..], name)
  }

  lemma {:induction false} FirstLongConcat(a: seq<Opt>, b: seq<Opt>, name: string)
    ensures FirstLong(a + b, name) == if FirstLong(a, name).Some? then FirstLong(a, name) else FirstLong(b, name)
  {
    if a == [] {
      assert a + b == b;
    } else {
      assert (a + b)[1..] == a[1..] + b;
      FirstLongConcat(a[1..], b, name);
    }
  }

  function FirstShort(os: seq<Opt>, c: char): (r: Option<Opt>)
  {
    if os == [] then None else if os[0].short == Some(c) then Some(os[0]) else FirstShort(os[1..], c)
  }

  lemma {:induction false} FirstShortConcat(a: seq<Opt>, b: seq<Opt>, c: char)
    ensures FirstShort(a + b, c) == if FirstShort(a, c).Some? then FirstShort(a, c) else FirstShort(b, c)
  {
    if a == [] {
      assert a + b == b;
    } else {
      assert (a + b)[1..] == a[1..] + b;
      FirstShortConcat(a[1..], b, c);
    }
  }

  function FindLong(t: seq<Entry>, name: string): (r: Option<Opt>)
    ensures r == FirstLong(All(t), name)
    ensures r.Some? ==> r.value in All(t) && HasLong(r.value, name)
    ensures r.None? ==> forall o :: o in All(t) ==> !HasLong(o, name)
    decreases t
  {
    if t == [] then None
    else match t[0]
      case One(o) =>
        assert All(t)[1..] == All(t[1..]);
        if HasLong(o, name) then Some(o) else FindLong(t[1..], name)
      case Separator => FindLong(t[1..], name)
      case Include(u) =>
        var r := FindLong(u, name);
        FirstLongConcat(All(u), All(t[1..]), name);
        if r.Some? then r else FindLong(t[1..], name)
  }

  function FindShort(t: seq<Entry>, c: char): (r: Option<Opt>)
    ensures r == FirstShort(All(t), c)
    ensures r.Some? ==> r.value in All(t) && r.value.short == Some(c)
    ensures r.None? ==> forall o :: o in All(t) ==> o.short != Some(c)
    decreases t
  {
    if t == [] then None
    else match t[0]
      case One(o) =>
        assert All(t)[1..] == All(t[1..]);
        if o.short == Some(c) then Some(o) else FindShort(t[1..], c)
      case Separator => FindShort(t[1..], c)
      case Include(u) =>
        var r := FindShort(u, c);
        FirstShortConcat(All(u), All(t[1..]), c);
        if r.Some? then r else FindShort(t[1..], c)
  }

  function Ids(t: seq<Entry>): (r: set<nat>)
  {
    set o | o in All(t) :: o.id
  }

  /** An option that stores to x has been seen. */
  function GivenIn(t: seq<Entry>, seen: set<nat>, x: nat): (r: bool)
    ensures r <==> exists o :: o in All(t) && o.variable == Some(x) && o.id in seen
    decreases t
  {
    if t == [] then false
    else match t[0]
      case One(o) =>
        assert forall p :: p in All(t) <==> p == o || p in All(t[1..]);
        (o.variable == Some(x) && o.id in seen) || GivenIn(t[1..], seen, x)
      case Separator => GivenIn(t[1..], seen, x)
      case Include(u) =>
        assert forall p :: p in All(t) <==> p in All(u) || p in All(t[1..]);
        GivenIn(u, seen, x) || GivenIn(t[1..], seen, x)
  }

  // ----- values by name -----

  function Lower(c: char): (r: char)
  {
    if 'A' <= c <= 'Z' then (c as int + 32) as char else c
  }

  /** Letters are the same when only their case differs. */
  lemma SameLetter(c: char, d: char)
    ensures Lower(c) == Lower(d) <==>
      || c == d || ('A' <= c <= 'Z' && 'a' <= d <= 'z' && d as int - c as int == 'a' as int - 'A' as int)
      || ('A' <= d <= 'Z' && 'a' <= c <= 'z' && c as int - d as int == 'a' as int - 'A' as int)
  {
  }

  function LowerAll(s: string): (r: string)
    ensures |r| == |s|
  {
    seq(|s|, i requires 0 <= i < |s| => Lower(s[i]))
  }

  /** strncasecmp(s, name, |s|) == 0 */
  predicate Abbreviates(s: string, name: string)
  {
    |s| <= |name| && LowerAll(s) == LowerAll(name[..|s|])
  }

  predicate Exactly(s: string, name: string)
  {
    |s| == |name| && Abbreviates(s, name)
  }

  /** The loop of argconfig_match_val from entry i on, with the abbreviation found so far. */
  function MatchFrom(names: seq<ValueName>, s: string, i: nat, found: Option<nat>): (r: Option<nat>)
    requires i <= |names| && (found.Some? ==> found.value < |names|)
    ensures r.Some? ==> r.value < |names|
    decreases |names| - i
  {
    if i == |names| then found
    else if !Abbreviates(s, names[i].name) then MatchFrom(names, s, i + 1, found)
    else if |s| == |names[i].name| then Some(i)
    else if found.Some? then None
    else MatchFrom(names, s, i + 1, Some(i))
  }

  function Match(names: seq<ValueName>, s: string): (r: Option<nat>)
    ensures r.Some? ==> r.value < |names|
  {
    if s == "" then None else MatchFrom(names, s, 0, None)
  }

  /** Entry k is the answer: the first exact name with at most one abbreviation before it, or,
      without an exact name, the only abbreviation. */
  ghost predicate Answers(names: seq<ValueName>, s: string, k: nat)
  {
    && k < |names| && Abbreviates(s, names[k].name)
    && (forall i, j :: 0 <= i < j < |names| && Abbreviates(s, names[i].name) && Abbreviates(s, names[j].name) ==>
          Exactly(s, names[k].name) && j >= k)
    && (forall i :: 0 <= i < k ==> !Exactly(s, names[i].name))
  }

  lemma {:induction false} MatchFromAnswers(names: seq<ValueName>, s: string, i: nat, found: Option<nat>)
    requires i <= |names|
    requires forall j :: 0 <= j < i ==> !Exactly(s, names[j].name)
    requires forall j :: 0 <= j < i ==> (Abbreviates(s, names[j].name) <==> found == Some(j))
    requires found.Some? ==> found.value < i
    ensures var r := MatchFrom(names, s, i, found); r.Some? ==> Answers(names, s, r.value)
    ensures var r := MatchFrom(names, s, i, found); r.None? ==> forall k :: !Answers(names, s, k)
    decreases |names| - i
  {
    if i < |names| {
      if !Abbreviates(s, names[i].name) {
        MatchFromAnswers(names, s, i + 1, found);
      } else if |s| == |names[i].name| {
        assert Exactly(s, names[i].name);
      } else if found.Some? {
        TwoAbbreviations(names, s, found.value, i);
      } else {
        MatchFromAnswers(names, s, i + 1, Some(i));
      }
    }
  }

  lemma TwoAbbreviations(names: seq<ValueName>, s: string, a: nat, b: nat)
    requires a < b < |names| && Abbreviates(s, names[a].name) && Abbreviates(s, names[b].name)
    requires forall j :: 0 <= j <= b ==> !Exactly(s, names[j].name)
    ensures forall k :: !Answers(names, s, k)
  {
  }

  /** A name is found exactly when some entry answers to it, and that entry is found. */
  lemma MatchIff(names: seq<ValueName>, s: string)
    requires s != ""
    ensures var r := Match(names, s); r.Some? ==> Answers(names, s, r.value)
    ensures Match(names, s).Some? <==> exists k :: Answers(names, s, k)
  {
    MatchFromAnswers(names, s, 0, None);
    var r := Match(names, s);
    if r.Some? { assert Answers(names, s, r.value); }
  }

  /** The first exact name is found exactly when it abbreviates fewer than two names before it. */
  lemma ExactFound(names: seq<ValueName>, s: string, k: nat)
    requires s != "" && k < |names| && Exactly(s, names[k].name)
    requires forall i :: 0 <= i < k ==> !Exactly(s, names[i].name)
    ensures Match(names, s) == Some(k) <==>
      !exists i, j :: 0 <= i < j < k && Abbreviates(s, names[i].name) && Abbreviates(s, names[j].name)
  {
    MatchIff(names, s);
    hide Abbreviates, Match;
    var r := Match(names, s);
    if r.Some? { AnswerIsExact(names, s, r.value, k); }
    if !exists i, j :: 0 <= i < j < k && Abbreviates(s, names[i].name) && Abbreviates(s, names[j].name) {
      assert Answers(names, s, k);
    }
  }

  lemma AnswerIsExact(names: seq<ValueName>, s: string, a: nat, k: nat)
    requires Answers(names, s, a) && k < |names| && Exactly(s, names[k].name)
    requires forall i :: 0 <= i < k ==> !Exactly(s, names[i].name)
    ensures a == k
  {
    hide Abbreviates;
  }

  /** An exact name after two others that it abbreviates is not found. */
  lemma ExactNameLost()
    ensures var names := [ValueName("abcd", Int(1)), ValueName("abce", Int(2)), ValueName("abc", Int(3))];
      Exactly("abc", names[2].name) && Match(names, "abc") == None
  {
    var names := [ValueName("abcd", Int(1)), ValueName("abce", Int(2)), ValueName("abc", Int(3))];
    assert "abcd"[..3] == "abc" && "abce"[..3] == "abc" && "abc"[..3] == "abc";
    assert MatchFrom(names, "abc", 1, Some(0)) == None;
  }

  // ----- storing the value of one use -----

  function WordOf(v: Val): (w: bv32)
  {
    match v
    case Bits(w) => w
    case Int(i) => (i % 0x1_0000_0000) as bv32
    case _ => 0
  }

  function ListBits(names: seq<ValueName>, pieces: seq<string>): (r: Option<bv32>)
  {
    if pieces == [] then Some(0)
    else
      var m := Match(names, pieces[0]);
      var rest := ListBits(names, pieces[1..]);
      if m.None? || rest.None? then None
      else Some(Or(WordOf(names[m.value].val), rest.value))
  }

  predicate InRange(o: Opt, u: nat)
  {
    o.max == 0 || o.min <= u <= o.max
  }

  function Unsigned(c: Conversions, o: Opt, arg: string, max: nat): (r: Option<Val>)
  {
    var u := c.unsigned(arg);
    if u.Some? && u.value <= max && InRange(o, u.value) then Some(Int(u.value)) else None
  }

  function Named(o: Opt, arg: string): (r: Option<Val>)
  {
    var m := Match(o.names, arg);
    if m.Some? then Some(o.names[m.value].val) else None
  }

  function IntOf(v: Val): (i: int)
  {
    if v.Int? then v.i else 0
  }

  /** The kinds that need a text. */
  function Converted(c: Conversions, o: Opt, arg: string, was: Val): (r: Option<Val>)
  {
    match o.kind
    case Signed =>
      var i := c.signed(arg);
      if i.Some? && INT_MIN <= i.value <= INT_MAX then Some(Int(i.value)) else None
    case Byte => Unsigned(c, o, arg, 0xFF)
    case Short => Unsigned(c, o, arg, 0xFFFF)
    case Positive => Unsigned(c, o, arg, 0xFFFF_FFFF)
    case Long => Unsigned(c, o, arg, 0xFFFF_FFFF_FFFF_FFFF)
    case Suffixed =>
      if arg == "" || !('0' <= arg[0] <= '9') then None
      else
        var u := c.suffixed(arg);
        if u.Some? && InRange(o, u.value) then Some(Int(u.value)) else None
    case Real =>
      var r := c.float(arg);
      if r.Some? then Some(Float(r.value)) else None
    case EnumList =>
      var b := ListBits(o.names, Split(arg, ','));
      if b.Some? then Some(Bits(Or(WordOf(was), b.value))) else None
    case _ => None
  }

  /** argconfig_parse_type: the new value of a variable that holds `was`, None for an invalid one. */
  function Typed(c: Conversions, o: Opt, arg: Option<string>, was: Val): (r: Option<Val>)
  {
    match o.kind
    case Str => Some(Text(arg))
    case Flag => Some(Bool(true))
    case Increment => Some(Int(IntOf(was) + 1))
    case _ => if arg.None? then None else Converted(c, o, arg.value, was)
  }

  /** argconfig_parse_val: a value by its name first, but the names of a list are looked up one by one. */
  function Parsed(c: Conversions, o: Opt, arg: Option<string>, was: Val): (r: Option<Val>)
  {
    if arg.Some? && o.kind != EnumList && Named(o, arg.value).Some? then Named(o, arg.value)
    else Typed(c, o, arg, was)
  }

  /** The option variables, the seen flags, and the implicit --help and --version. */
  datatype Store = Store(vars: map<nat, Val>, seen: set<nat>, help: bool, version: bool)

  function Get(vars: map<nat, Val>, x: nat): (v: Val)
  {
    if x in vars then vars[x] else Int(0)
  }

  /** argconfig_apply: None for an invalid value; the option counts as seen all the same. */
  function Apply(c: Conversions, st: Store, o: Opt, arg: Option<string>): (r: (Store, bool))
  {
    var s := st.(seen := st.seen + {o.id});
    if o.variable.None? then (s, true)
    else
      var v := Parsed(c, o, arg, Get(st.vars, o.variable.value));
      if v.None? then (s, false) else (s.(vars := st.vars[o.variable.value := v.value]), true)
  }

  /** Any kind but a count and a list: every use overwrites the variable. */
  predicate Overwrites(o: Opt)
  {
    o.kind != Increment && o.kind != EnumList
  }

  lemma OverwriteForgets(c: Conversions, o: Opt, arg: Option<string>, old1: Val, old2: Val)
    ensures Overwrites(o) ==> Parsed(c, o, arg, old1) == Parsed(c, o, arg, old2)
    ensures Parsed(c, o, arg, old1).Some? <==> Parsed(c, o, arg, old2).Some?
  {
    hide ListBits, Unsigned, Named, WordOf;
  }

  // ----- what the value of one use is -----

  /** At most one entry answers to a text. */
  lemma OneAnswer(names: seq<ValueName>, s: string, k: nat, m: nat)
    requires Answers(names, s, k) && Answers(names, s, m)
    ensures k == m
  {
    hide Answers;
    NotEarlier(names, s, k, m);
    NotEarlier(names, s, m, k);
  }

  lemma NotEarlier(names: seq<ValueName>, s: string, k: nat, m: nat)
    requires Answers(names, s, k) && Answers(names, s, m)
    ensures k >= m
  {
    hide Abbreviates;
  }

  /** The argument names a value of the option; the names of a list do not count as such. */
  ghost predicate ByName(o: Opt, arg: Option<string>)
  {
    arg.Some? && arg.value != "" && o.kind != EnumList && exists k: nat :: Answers(o.names, arg.value, k)
  }

  /** The number v was read, has the width and is in the range of the option. */
  predicate NumberIs(o: Opt, read: Option<nat>, widest: nat, v: Val)
  {
    && read.Some? && v == Int(read.value) && 0 <= v.i <= widest
    && (o.max != 0 ==> o.min <= v.i <= o.max)
  }

  predicate Meets(w: bv32, mask: bv32) { And(w, mask) != 0 }

  /** Some listed name stands for one of the bits of the mask. */
  ghost predicate ListMeets(names: seq<ValueName>, pieces: seq<string>, mask: bv32)
  {
    exists i, k: nat :: 0 <= i < |pieces| && Answers(names, pieces[i], k) && Meets(WordOf(names[k].val), mask)
  }

  ghost predicate IsName(names: seq<ValueName>, s: string)
  {
    s != "" && exists k: nat :: Answers(names, s, k)
  }

  /** Every piece of a list is a name. */
  ghost predicate AllNames(names: seq<ValueName>, pieces: seq<string>)
  {
    forall i :: 0 <= i < |pieces| ==> IsName(names, pieces[i])
  }

  /** The use of o with `arg` makes `now` of a variable that held `was`, kind by kind. */
  ghost predicate Gives(c: Conversions, o: Opt, arg: Option<string>, was: Val, now: Val)
  {
    if ByName(o, arg) then exists k: nat :: Answers(o.names, arg.value, k) && now == o.names[k].val
    else match o.kind
      case Flag => now == Bool(true)
      case Increment => now == Int(if was.Int? then was.i + 1 else 1)
      case Str => now == Text(arg)
      case Signed =>
        && arg.Some? && c.signed(arg.value).Some? && now == Int(c.signed(arg.value).value)
        && -2_147_483_648 <= now.i <= 2_147_483_647
      case Byte => arg.Some? && NumberIs(o, c.unsigned(arg.value), 255, now)
      case Short => arg.Some? && NumberIs(o, c.unsigned(arg.value), 65_535, now)
      case Positive => arg.Some? && NumberIs(o, c.unsigned(arg.value), 4_294_967_295, now)
      case Long => arg.Some? && NumberIs(o, c.unsigned(arg.value), 18_446_744_073_709_551_615, now)
      case Suffixed =>
        && arg.Some? && arg.value != "" && arg.value[0] in "0123456789"
        && c.suffixed(arg.value).Some? && NumberIs(o, c.suffixed(arg.value), c.suffixed(arg.value).value, now)
      case Real => arg.Some? && c.float(arg.value).Some? && now == Float(c.float(arg.value).value)
      case Enum => false
      case EnumList =>
        && arg.Some? && now.Bits? && AllNames(o.names, Split(arg.value, ','))
        && forall mask :: Meets(now.w, mask) <==>
          Meets(WordOf(was), mask) || ListMeets(o.names, Split(arg.value, ','), mask)
  }

  /** A number counts modulo 2^32. */
  lemma WordOfNumber(w: bv32, n: int)
    ensures WordOf(Bits(w)) == w && WordOf(Int(w as int)) == w
    ensures WordOf(Int(n)) == WordOf(Int(n % 0x1_0000_0000))
  {
    assert w as int % 0x1_0000_0000 == w as int;
  }

  lemma NamedIs(o: Opt, s: string)
    ensures s == "" ==> Named(o, s).None?
    ensures Named(o, s).Some? <==> s != "" && exists k: nat :: Answers(o.names, s, k)
    ensures forall k: nat :: s != "" && Answers(o.names, s, k) ==> Named(o, s) == Some(o.names[k].val)
  {
    if s != "" {
      MatchIff(o.names, s);
      hide Match, Answers;
      forall k: nat | Answers(o.names, s, k) ensures Named(o, s) == Some(o.names[k].val) {
        OneAnswer(o.names, s, k, Match(o.names, s).value);
      }
    }
  }

  function Or(x: bv32, y: bv32): (r: bv32) { x | y }

  function And(x: bv32, y: bv32): (r: bv32) { x & y }

  lemma AndOr(x: bv32, y: bv32, mask: bv32)
    ensures And(Or(x, y), mask) == Or(And(x, mask), And(y, mask))
  {
  }

  lemma OrZero(x: bv32, y: bv32)
    ensures Or(x, y) == 0 <==> x == 0 && y == 0
  {
  }

  lemma MeetsOr(x: bv32, y: bv32, mask: bv32)
    ensures Meets(Or(x, y), mask) <==> Meets(x, mask) || Meets(y, mask)
    ensures !Meets(0, mask)
  {
    AndOr(x, y, mask);
    OrZero(And(x, mask), And(y, mask));
    assert And(0, mask) == 0;
    hide And, Or;
  }

  /** Words that meet the same masks are the same. */
  lemma SameMasks(x: bv32, y: bv32)
    requires forall mask :: Meets(x, mask) <==> Meets(y, mask)
    ensures x == y
  {
    assert Meets(x, x & !y) <==> Meets(y, x & !y);
    assert Meets(x, y & !x) <==> Meets(y, y & !x);
    MasksDiffer(x, y);
  }

  lemma MasksDiffer(x: bv32, y: bv32)
    ensures Meets(x, x & !y) <==> x & !y != 0
    ensures Meets(y, y & !x) <==> y & !x != 0
    ensures !Meets(y, x & !y) && !Meets(x, y & !x)
    ensures x & !y == 0 && y & !x == 0 ==> x == y
  {
  }

  lemma {:induction false} ListBitsAre(names: seq<ValueName>, pieces: seq<string>, mask: bv32)
    ensures ListBits(names, pieces).Some? <==> AllNames(names, pieces)
    ensures ListBits(names, pieces).Some? ==>
      (Meets(ListBits(names, pieces).value, mask) <==> ListMeets(names, pieces, mask))
    decreases |pieces|
  {
    hide IsName, Answers, Meets, WordOf, Match;
    if pieces == [] {
      MeetsOr(0, 0, mask);
    } else {
      var s := pieces[0];
      ListBitsAre(names, pieces[1..], mask);
      PieceIs(names, s);
      AllNamesFront(names, pieces);
      var m, rest := Match(names, s), ListBits(names, pieces[1..]);
      if m.Some? && rest.Some? {
        MeetsOr(WordOf(names[m.value].val), rest.value, mask);
        ListMeetsFront(names, pieces, m.value, mask);
      }
    }
  }

  lemma PieceIs(names: seq<ValueName>, s: string)
    ensures Match(names, s).Some? <==> IsName(names, s)
    ensures Match(names, s).Some? ==> s != "" && Answers(names, s, Match(names, s).value)
  {
    if s != "" { MatchIff(names, s); }
  }

  lemma AllNamesFront(names: seq<ValueName>, pieces: seq<string>)
    requires pieces != []
    ensures AllNames(names, pieces) <==> IsName(names, pieces[0]) && AllNames(names, pieces[1..])
  {
    hide IsName;
    assert forall i :: 0 <= i < |pieces[1..]| ==> pieces[1..][i] == pieces[i + 1];
    if AllNames(names, pieces[1..]) && IsName(names, pieces[0]) {
      forall i | 0 <= i < |pieces| ensures IsName(names, pieces[i]) {
        if i > 0 { assert pieces[i] == pieces[1..][i - 1]; }
      }
    }
  }

  lemma ListMeetsFront(names: seq<ValueName>, pieces: seq<string>, m: nat, mask: bv32)
    requires pieces != [] && m < |names| && Answers(names, pieces[0], m)
    ensures ListMeets(names, pieces, mask) <==>
      Meets(WordOf(names[m].val), mask) || ListMeets(names, pieces[1..], mask)
  {
    AnswersInside(names);
    hide Answers, Meets, WordOf;
    if ListMeets(names, pieces, mask) {
      var i, k: nat :| 0 <= i < |pieces| && Answers(names, pieces[i], k) && Meets(WordOf(names[k].val), mask);
      if i == 0 {
        OneAnswer(names, pieces[0], k, m);
      } else {
        assert pieces[1..][i - 1] == pieces[i];
      }
    }
    if ListMeets(names, pieces[1..], mask) {
      var i, k: nat :| 0 <= i < |pieces[1..]| && Answers(names, pieces[1..][i], k) && Meets(WordOf(names[k].val), mask);
      assert pieces[i + 1] == pieces[1..][i];
    }
  }

  lemma AnswersInside(names: seq<ValueName>)
    ensures forall s, k: nat :: Answers(names, s, k) ==> k < |names|
  {
  }

  /** A name of a list option: the bits of the variable and of the names listed. */
  lemma ListGives(c: Conversions, o: Opt, arg: Option<string>, was: Val, now: Val)
    requires o.kind == EnumList
    ensures Parsed(c, o, arg, was) == Some(now) <==> Gives(c, o, arg, was, now)
  {
    hide Answers, Meets, WordOf, ListBits, AllNames, ListMeets, Or;
    if arg.Some? {
      var pieces, bits := Split(arg.value, ','), WordOf(was);
      ListBitsAre(o.names, pieces, 0);
      var b := ListBits(o.names, pieces);
      if b.Some? {
        forall mask ensures Meets(Or(bits, b.value), mask) <==> Meets(bits, mask) || ListMeets(o.names, pieces, mask) {
          ListBitsAre(o.names, pieces, mask);
          MeetsOr(bits, b.value, mask);
        }
        if Gives(c, o, arg, was, now) { SameMasks(now.w, Or(bits, b.value)); }
      }
    }
  }

  lemma KindGives(c: Conversions, o: Opt, arg: Option<string>, was: Val, now: Val)
    requires o.kind != EnumList && !ByName(o, arg)
    ensures Typed(c, o, arg, was) == Some(now) <==> Gives(c, o, arg, was, now)
  {
    hide ByName, Answers, WordOf, ListBits, Match;
  }

  /** A use is accepted exactly when its kind has a value for it, and that is the value stored. */
  lemma ParsedGives(c: Conversions, o: Opt, arg: Option<string>, was: Val, now: Val)
    ensures Parsed(c, o, arg, was) == Some(now) <==> Gives(c, o, arg, was, now)
  {
    hide Answers, Typed, Named;
    if o.kind == EnumList {
      ListGives(c, o, arg, was, now);
    } else if arg.Some? {
      NamedIs(o, arg.value);
      if !ByName(o, arg) { KindGives(c, o, arg, was, now); }
    } else {
      KindGives(c, o, arg, was, now);
    }
  }

  /** One use of an option: what it stores, what it leaves alone, and exactly when it is refused. */
  lemma UseStores(c: Conversions, st: Store, o: Opt, arg: Option<string>, y: nat)
    ensures var r := Apply(c, st, o, arg);
      && r.0 == st.(vars := r.0.vars, seen := st.seen + {o.id})
      && (o.variable != Some(y) || !r.1 ==> Get(r.0.vars, y) == Get(st.vars, y))
      && (o.variable == Some(y) && r.1 ==> Gives(c, o, arg, Get(st.vars, y), Get(r.0.vars, y)))
      && (!r.1 <==> o.variable.Some? && forall v :: !Gives(c, o, arg, Get(st.vars, o.variable.value), v))
  {
    hide Gives, Parsed;
    if o.variable.Some? {
      var was := Get(st.vars, o.variable.value);
      forall v ensures Parsed(c, o, arg, was) == Some(v) <==> Gives(c, o, arg, was, v) {
        ParsedGives(c, o, arg, was, v);
      }
    }
  }
}
