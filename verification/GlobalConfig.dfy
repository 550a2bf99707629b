/**
 The config file of the global options (src/global-config.c).  The options in front of the
 command are parsed before the file is read, yet the result is to be as if the file came
 first: its values are only new defaults.
 */
module GlobalConfig {
  import opened Wrappers
  import opened Options
  import opened ArgParse
  import Ini
  import Strings

  type Setting = Ini.Setting
  type Event = Ini.Event

  // ----- the value of one key -----

  const YES: set<string> := {"1", "yes", "y", "true", "t", "on"}
  const NO: set<string> := {"0", "no", "n", "false", "f", "off"}

  function ParseBool(s: string): (r: Option<bool>)
  {
    if LowerAll(s) in YES then Some(true) else if LowerAll(s) in NO then Some(false) else None
  }

  /** The value that set_value stores, None if it warns and stores nothing. */
  function FileValue(c: Conversions, o: Opt, value: string): (r: Option<Val>)
  {
    if Named(o, value).Some? then Named(o, value)
    else match o.kind
      case Flag =>
        var b := ParseBool(value);
        if b.Some? then Some(Bool(b.value)) else None
      case Increment =>
        var u := c.unsigned(value);
        if u.Some? && u.value <= INT_MAX then Some(Int(u.value)) else None
      case Positive => Unsigned(c, o, value, 0xFFFF_FFFF)
      case Str => Some(Text(Some(value)))
      case _ => None
  }

  /** The words for true and false, in any case. */
  lemma BoolWords(s: string)
    ensures ParseBool(s) == Some(true) <==> LowerAll(s) in ["1", "yes", "y", "true", "t", "on"]
    ensures ParseBool(s) == Some(false) <==> LowerAll(s) in ["0", "no", "n", "false", "f", "off"]
  {
    NoBoth();
  }

  lemma NoBoth()
    ensures YES !! NO
  {
    assert forall w :: w in YES ==> w != "0" && w != "no" && w != "n" && w != "false" && w != "f" && w != "off";
  }

  /** The text of a file gives the option the value `now`: a name, or what its kind has for it. */
  ghost predicate FileGives(c: Conversions, o: Opt, text: string, now: Val)
  {
    if text != "" && exists k: nat :: Answers(o.names, text, k) then
      exists k: nat :: Answers(o.names, text, k) && now == o.names[k].val
    else
      || (o.kind == Flag && now == Bool(true) && LowerAll(text) in ["1", "yes", "y", "true", "t", "on"])
      || (o.kind == Flag && now == Bool(false) && LowerAll(text) in ["0", "no", "n", "false", "f", "off"])
      || (o.kind == Increment && c.unsigned(text).Some? && now == Int(c.unsigned(text).value) && now.i <= 2_147_483_647)
      || (o.kind == Positive && NumberIs(o, c.unsigned(text), 4_294_967_295, now))
      || (o.kind == Str && now == Text(Some(text)))
  }

  /** A key is taken exactly when its text gives a value, and that is the value stored. */
  lemma FileValueIs(c: Conversions, o: Opt, text: string, now: Val)
    ensures FileValue(c, o, text) == Some(now) <==> FileGives(c, o, text, now)
  {
    hide Named, ParseBool, Answers;
    NamedIs(o, text);
    BoolWords(text);
  }

  /** The keys are the names of the options that are not deprecated. */
  function FindKey(t: seq<Entry>, key: string): (r: Option<Opt>)
    ensures r.Some? ==> One(r.value) in t
  {
    if t == [] then None
    else if t[0].One? && !t[0].opt.deprecated && t[0].opt.name == key then Some(t[0].opt)
    else FindKey(t[1..], key)
  }

  /** The option that a key sets, if it has a variable. */
  function Target(t: seq<Entry>, key: string): (r: Option<Opt>)
    ensures r.Some? ==> One(r.value) in t && r.value.variable.Some?
  {
    var o := FindKey(t, key);
    if o.Some? && o.value.variable.Some? then o else None
  }

  // ----- the file after the command line -----

  datatype Count = Count(variable: nat, given: int)

  datatype Config = Config(store: Store, givens: seq<Count>)

  /** The command-line count of x, before a file added to it. */
  function GivenCount(s: Config, x: nat): (n: int)
  {
    Recorded(s.givens, x, IntOf(Get(s.store.vars, x)))
  }

  function Recorded(givens: seq<Count>, x: nat, otherwise: int): (n: int)
  {
    if givens == [] then otherwise
    else if givens[0].variable == x then givens[0].given
    else Recorded(givens[1..], x, otherwise)
  }

  predicate IsRecorded(givens: seq<Count>, x: nat)
  {
    givens != [] && (givens[0].variable == x || IsRecorded(givens[1..], x))
  }

  function Record(s: Config, x: nat): (r: seq<Count>)
  {
    if IsRecorded(s.givens, x) then s.givens else [Count(x, GivenCount(s, x))] + s.givens
  }

  function Saturated(n: int): (r: int)
  {
    if n > INT_MAX then INT_MAX else n
  }

  /** apply_kv */
  function FileStep(t: seq<Entry>, c: Conversions, s: Config, key: string, value: string): (r: Config)
  {
    var o := Target(t, key);
    if o.None? then s
    else
      var x := o.value.variable.value;
      var v := FileValue(c, o.value, value);
      if v.None? then s
      else if !GivenIn(t, s.store.seen, x) then s.(store := s.store.(vars := s.store.vars[x := v.value]))
      else if o.value.kind != Increment || IntOf(v.value) < 0 then s
      else Config(
        s.store.(vars := s.store.vars[x := Int(Saturated(GivenCount(s, x) + IntOf(v.value)))]),
        Record(s, x))
  }

  function FileAll(t: seq<Entry>, c: Conversions, s: Config, kvs: seq<Setting>): (r: Config)
    decreases |kvs|
  {
    if kvs == [] then s else FileAll(t, c, FileStep(t, c, s, kvs[0].key, kvs[0].value), kvs[1..])
  }

  /** Only the keys in the section [Global] count. */
  function Settings(events: seq<Event>): (r: seq<Setting>)
  {
    if events == [] then []
    else if events[0].KeyValue? && events[0].section == Some("Global") then [events[0].setting] + Settings(events[1..])
    else Settings(events[1..])
  }

  // ----- what the tables of the program look like -----

  /** Entries that share a variable have its type, a count has no named values, the file can not
      set a list, entries are told apart, and nothing is included. */
  predicate TableOk(t: seq<Entry>)
  {
    && (forall i :: 0 <= i < |t| ==> !t[i].Include?)
    && (forall i :: 0 <= i < |t| && t[i].One? ==>
      t[i].opt.kind != EnumList && (t[i].opt.kind == Increment ==> t[i].opt.names == []))
    && (forall i, j :: 0 <= i < |t| && 0 <= j < |t| && t[i].One? && t[j].One? ==>
          && (t[i].opt.variable.Some? && t[i].opt.variable == t[j].opt.variable ==> t[i].opt.kind == t[j].opt.kind)
          && (t[i].opt.id == t[j].opt.id ==> t[i] == t[j]))
  }

  function Plain(id: nat, name: string, short: Option<char>, kind: Kind, variable: nat, argument: Argument): (e: Entry)
  {
    One(Opt(id, name, short, kind, Some(variable), argument, [], false, None, 0, 0))
  }

  /** The global options; --verbose and --human-readable share a variable. */
  const GLOBAL: seq<Entry> := [
    Plain(0, "verbose", Some('v'), Increment, 0, NoArgument),
    Plain(1, "quiet", None, Flag, 1, NoArgument),
    Plain(2, "output-format", Some('o'), Str, 2, Required),
    One(Opt(3, "timeout", None, Positive, Some(3), Required,
      [ValueName("infinite", Int(0xFFFF_FFFF)), ValueName("-1", Int(0xFFFF_FFFF))], false, None, 0, 0)),
    Plain(4, "dry-run", None, Flag, 4, NoArgument),
    Plain(5, "no-retries", None, Flag, 5, NoArgument),
    Plain(6, "no-ioctl-probing", None, Flag, 6, NoArgument),
    One(Opt(7, "output-format-version", None, Positive, Some(7), Required, [], false, None, 1, 2)),
    One(Opt(8, "human-readable", Some('H'), Increment, Some(0), NoArgument, [], true, None, 0, 0)),
    Plain(9, "set-options", None, Str, 8, Required)]

  lemma GlobalTableOk()
    ensures TableOk(GLOBAL)
  {
    forall i | 0 <= i < |GLOBAL|
      ensures GLOBAL[i].One? && GLOBAL[i].opt.kind != EnumList && GLOBAL[i].opt.id == i
      ensures GLOBAL[i].opt.kind == Increment ==> GLOBAL[i].opt.names == []
      ensures GLOBAL[i].opt.variable == Some(if i < 8 then i else if i == 8 then 0 else 8)
      ensures GLOBAL[i].opt.kind == Increment <==> i == 0 || i == 8
    {
    }
    hide GLOBAL;
  }

  lemma {:induction false} AllIsOne(t: seq<Entry>, o: Opt)
    requires forall i :: 0 <= i < |t| ==> !t[i].Include?
    ensures o in All(t) <==> One(o) in t
  {
    if t != [] {
      AllIsOne(t[1..], o);
      assert t == [t[0]] + t[1..];
    }
  }

  /** The variable x is a count; it then is one for every option that stores to it. */
  ghost predicate IsCount(t: seq<Entry>, x: nat)
  {
    exists o :: One(o) in t && o.variable == Some(x) && o.kind == Increment
  }

  lemma CountForAll(t: seq<Entry>, x: nat, o: Opt)
    requires TableOk(t) && One(o) in t && o.variable == Some(x)
    ensures IsCount(t, x) <==> o.kind == Increment
    ensures o.kind != EnumList
  {
    if IsCount(t, x) {
      var p :| One(p) in t && p.variable == Some(x) && p.kind == Increment;
      var i :| 0 <= i < |t| && t[i] == One(p);
      var j :| 0 <= j < |t| && t[j] == One(o);
      assert t[i].opt.kind == t[j].opt.kind;
    }
  }

  // ----- what a file does to one variable -----

  /** The value that one setting has for x. */
  function ValueFor(t: seq<Entry>, c: Conversions, kv: Setting, x: nat): (r: Option<Val>)
  {
    var o := Target(t, kv.key);
    if o.Some? && o.value.variable == Some(x) then FileValue(c, o.value, kv.value) else None
  }

  /** The last valid value of the file for x. */
  function LastValid(t: seq<Entry>, c: Conversions, kvs: seq<Setting>, x: nat): (r: Option<Val>)
  {
    if kvs == [] then None
    else
      var r := LastValid(t, c, kvs[1..], x);
      if r.Some? then r else ValueFor(t, c, kvs[0], x)
  }

  /** The variable x of a file that was read in state s. */
  ghost function FileResult(t: seq<Entry>, s: Config, x: nat, v: Option<Val>): (r: Val)
  {
    if v.None? then Get(s.store.vars, x)
    else if !GivenIn(t, s.store.seen, x) then v.value
    else if IsCount(t, x) then Int(Saturated(GivenCount(s, x) + IntOf(v.value)))
    else Get(s.store.vars, x)
  }

  lemma CountValue(t: seq<Entry>, c: Conversions, o: Opt, value: string)
    requires TableOk(t) && One(o) in t && o.kind == Increment
    ensures var v := FileValue(c, o, value); v.Some? ==> v.value.Int? && 0 <= v.value.i <= INT_MAX
  {
    var i :| 0 <= i < |t| && t[i] == One(o);
    assert o.names == [];
    assert Match([], value) == None;
  }

  lemma RecordKeeps(s: Config, x: nat, y: nat, otherwise: int)
    ensures Recorded(Record(s, x), y, otherwise)
        == if y == x then GivenCount(s, x) else Recorded(s.givens, y, otherwise)
  {
    if IsRecorded(s.givens, x) { RecordedIs(s.givens, x, otherwise, IntOf(Get(s.store.vars, x))); }
  }

  lemma {:induction false} RecordedIs(g: seq<Count>, x: nat, a: int, b: int)
    requires IsRecorded(g, x)
    ensures Recorded(g, x, a) == Recorded(g, x, b)
  {
    if g[0].variable != x { RecordedIs(g[1..], x, a, b); }
  }

  /** One setting changes at most the variable of its key, and keeps the counts it adds to. */
  lemma StepResult(t: seq<Entry>, c: Conversions, s: Config, kv: Setting, x: nat)
    requires TableOk(t)
    ensures var s1 := FileStep(t, c, s, kv.key, kv.value);
      && Get(s1.store.vars, x) == FileResult(t, s, x, ValueFor(t, c, kv, x))
      && (GivenIn(t, s.store.seen, x) && IsCount(t, x) ==> GivenCount(s1, x) == GivenCount(s, x))
      && s1.store == s.store.(vars := s1.store.vars)
  {
    hide FileValue, TableOk, GivenIn;
    var o := Target(t, kv.key);
    if o.Some? {
      var y := o.value.variable.value;
      CountForAll(t, y, o.value);
      if o.value.kind == Increment { CountValue(t, c, o.value, kv.value); }
      var s1 := FileStep(t, c, s, kv.key, kv.value);
      RecordKeeps(s, y, x, IntOf(Get(s1.store.vars, x)));
    }
  }

  /** A whole file: the last valid value counts, and adds to the count given before the file. */
  lemma {:induction false} FileAllResult(t: seq<Entry>, c: Conversions, s: Config, kvs: seq<Setting>, x: nat)
    requires TableOk(t)
    ensures var r := FileAll(t, c, s, kvs);
      && Get(r.store.vars, x) == FileResult(t, s, x, LastValid(t, c, kvs, x))
      && r.store == s.store.(vars := r.store.vars)
    decreases |kvs|
  {
    hide FileValue, TableOk, GivenIn, FileStep, ValueFor, IsCount, GivenCount;
    if kvs != [] {
      var s1 := FileStep(t, c, s, kvs[0].key, kvs[0].value);
      StepResult(t, c, s, kvs[0], x);
      FileAllResult(t, c, s1, kvs[1..], x);
    }
  }

  // ----- what the uses of options do to one variable -----

  /** Items of the global options only. */
  predicate FromTable(t: seq<Entry>, items: seq<Item>)
  {
    forall i :: 0 <= i < |items| && items[i].Use? ==> One(items[i].opt) in t
  }

  /** How often an option that stores to x is used. */
  function Uses(items: seq<Item>, x: nat): (n: nat)
  {
    if items == [] then 0
    else (if items[0].Use? && items[0].opt.variable == Some(x) then 1 else 0) + Uses(items[1..], x)
  }

  function UsedIds(items: seq<Item>): (r: set<nat>)
  {
    if items == [] then {} else (if items[0].Use? then {items[0].opt.id} else {}) + UsedIds(items[1..])
  }

  lemma PerformOne(t: seq<Entry>, c: Conversions, i: Item, a: Store, b: Store, x: nat)
    requires TableOk(t) && (i.Use? ==> One(i.opt) in t)
    ensures var ra, rb := Perform(c, i, a), Perform(c, i, b);
      && ra.stop == rb.stop
      && (!(i.Use? && i.opt.variable == Some(x)) ==> Get(ra.store.vars, x) == Get(a.vars, x))
      && (i.Use? && i.opt.variable == Some(x) && ra.stop.None? && IsCount(t, x) ==>
        Get(ra.store.vars, x) == Int(IntOf(Get(a.vars, x)) + 1))
      && (i.Use? && i.opt.variable == Some(x) && ra.stop.None? && !IsCount(t, x) ==>
        Get(ra.store.vars, x) == Get(rb.store.vars, x))
      && (a == b.(vars := a.vars) ==> ra.store == rb.store.(vars := ra.store.vars))
      && ra.store.seen == a.seen + (if i.Use? then {i.opt.id} else {})
  {
    hide TableOk, IsCount;
    if i.Use? && i.opt.variable.Some? {
      var y := i.opt.variable.value;
      CountForAll(t, y, i.opt);
      OverwriteForgets(c, i.opt, i.value, Get(a.vars, y), Get(b.vars, y));
      if i.opt.kind == Increment { CountUse(t, c, i.opt, i.value, Get(a.vars, y)); }
    }
  }

  lemma CountUse(t: seq<Entry>, c: Conversions, o: Opt, arg: Option<string>, was: Val)
    requires TableOk(t) && One(o) in t && o.kind == Increment
    ensures Parsed(c, o, arg, was) == Some(Int(IntOf(was) + 1))
  {
    var i :| 0 <= i < |t| && t[i] == One(o);
    assert o.names == [];
    if arg.Some? { assert Match([], arg.value) == None; }
  }

  /** Two runs of the same uses from stores that differ in the variables only. */
  lemma {:induction false} UsesResult(t: seq<Entry>, c: Conversions, items: seq<Item>, a: Store, b: Store, x: nat)
    requires TableOk(t) && FromTable(t, items) && a == b.(vars := a.vars)
    ensures var ra, rb := Execute(c, items, a), Execute(c, items, b);
      && ra.stop == rb.stop
      && ra.store == rb.store.(vars := ra.store.vars)
      && (ra.stop.None? ==> ra.store.seen == a.seen + UsedIds(items))
      && (ra.stop.None? && Uses(items, x) == 0 ==> Get(ra.store.vars, x) == Get(a.vars, x))
      && (ra.stop.None? && Uses(items, x) > 0 && IsCount(t, x) ==>
        Get(ra.store.vars, x) == Int(IntOf(Get(a.vars, x)) + Uses(items, x)))
      && (ra.stop.None? && Uses(items, x) > 0 && !IsCount(t, x) ==> Get(ra.store.vars, x) == Get(rb.store.vars, x))
    decreases |items|
  {
    hide TableOk, IsCount, Perform;
    if items != [] {
      var ra, rb := Perform(c, items[0], a), Perform(c, items[0], b);
      PerformOne(t, c, items[0], a, b, x);
      if ra.stop.None? {
        assert FromTable(t, items[1..]);
        UsesResult(t, c, items[1..], ra.store, rb.store, x);
        if Uses(items[1..], x) == 0 { UsesResult(t, c, items[1..], rb.store, ra.store, x); }
      }
    }
  }

  lemma {:induction false} UsedIsSeen(t: seq<Entry>, items: seq<Item>, x: nat)
    requires TableOk(t) && FromTable(t, items)
    ensures GivenIn(t, UsedIds(items), x) <==> Uses(items, x) > 0
    decreases |items|
  {
    if items != [] {
      assert FromTable(t, items[1..]);
      UsedIsSeen(t, items[1..], x);
      UsedFront(t, items, x);
    }
  }

  lemma UsedFront(t: seq<Entry>, items: seq<Item>, x: nat)
    requires TableOk(t) && FromTable(t, items) && items != []
    ensures GivenIn(t, UsedIds(items), x) <==>
      (items[0].Use? && items[0].opt.variable == Some(x)) || GivenIn(t, UsedIds(items[1..]), x)
  {
    var rest := UsedIds(items[1..]);
    if items[0].Use? {
      var u := items[0].opt;
      AllIsOne(t, u);
      if GivenIn(t, UsedIds(items), x) {
        var o :| o in All(t) && o.variable == Some(x) && o.id in UsedIds(items);
        AllIsOne(t, o);
        if o.id == u.id { SameId(t, o, u); }
      }
    }
  }

  lemma SameId(t: seq<Entry>, o: Opt, p: Opt)
    requires TableOk(t) && One(o) in t && One(p) in t && o.id == p.id
    ensures o == p
  {
    var i :| 0 <= i < |t| && t[i] == One(o);
    var j :| 0 <= j < |t| && t[j] == One(p);
  }

  lemma UnseenAdds(t: seq<Entry>, seen: set<nat>, used: set<nat>, x: nat)
    requires seen !! Ids(t)
    ensures GivenIn(t, seen + used, x) == GivenIn(t, used, x) && !GivenIn(t, seen, x)
  {
    if GivenIn(t, seen + used, x) {
      var o :| o in All(t) && o.variable == Some(x) && o.id in seen + used;
      assert o.id in Ids(t);
    }
  }

  // ----- the order of file and command line -----

  ghost function OptionsThenFile(t: seq<Entry>, c: Conversions, st: Store, items: seq<Item>,
      kvs: seq<Setting>): (r: Store)
  {
    FileAll(t, c, Config(Execute(c, items, st).store, []), kvs).store
  }

  ghost function FileThenOptions(t: seq<Entry>, c: Conversions, st: Store, items: seq<Item>,
      kvs: seq<Setting>): (r: Store)
  {
    Execute(c, items, FileAll(t, c, Config(st, []), kvs).store).store
  }

  /** Every order, for one variable: the same value but for a count that both set, where the
      first order adds what the variable held at the start, and stops at INT_MAX. */
  lemma OneVariable(t: seq<Entry>, c: Conversions, st: Store, items: seq<Item>, kvs: seq<Setting>, x: nat)
    requires TableOk(t) && FromTable(t, items) && st.seen !! Ids(t)
    requires Execute(c, items, st).stop.None?
    ensures var a, b := OptionsThenFile(t, c, st, items, kvs), FileThenOptions(t, c, st, items, kvs);
      var v, n := LastValid(t, c, kvs, x), Uses(items, x);
      && a == b.(vars := a.vars)
      && (IsCount(t, x) && n > 0 && v.Some? ==>
            && Get(a.vars, x) == Int(Saturated(IntOf(Get(st.vars, x)) + n + IntOf(v.value)))
            && Get(b.vars, x) == Int(n + IntOf(v.value)))
      && (!(IsCount(t, x) && n > 0 && v.Some?) ==> Get(a.vars, x) == Get(b.vars, x))
  {
    hide TableOk, FromTable, IsCount, Execute, FileAll, LastValid, Uses, UsedIds, GivenIn, Ids;
    var used := Execute(c, items, st).store;
    var filed := FileAll(t, c, Config(st, []), kvs).store;
    UsesResult(t, c, items, st, st, x);
    UsedIsSeen(t, items, x);
    UnseenAdds(t, st.seen, UsedIds(items), x);
    FileAllResult(t, c, Config(used, []), kvs, x);
    FileAllResult(t, c, Config(st, []), kvs, x);
    UsesResult(t, c, items, filed, st, x);
  }

  /** A count that the options and the file both set. */
  ghost predicate BothCount(t: seq<Entry>, c: Conversions, items: seq<Item>, kvs: seq<Setting>, x: nat)
  {
    IsCount(t, x) && Uses(items, x) > 0 && LastValid(t, c, kvs, x).Some?
  }

  /** The counts are zero when the program starts. */
  ghost predicate CountsAtZero(t: seq<Entry>, vars: map<nat, Val>)
  {
    forall x :: IsCount(t, x) ==> Get(vars, x) == Int(0)
  }

  ghost predicate SameValues(a: Store, b: Store)
  {
    a == b.(vars := a.vars) && forall x :: Get(a.vars, x) == Get(b.vars, x)
  }

  /** A count that both set comes out the same in both orders. */
  ghost predicate SameCount(t: seq<Entry>, c: Conversions, st: Store, items: seq<Item>, kvs: seq<Setting>, x: nat)
  {
    BothCount(t, c, items, kvs, x) ==>
      var both := Uses(items, x) + IntOf(LastValid(t, c, kvs, x).value);
      Saturated(IntOf(Get(st.vars, x)) + both) == both
  }

  /** The options in front of the command win over a file that is read after them: the two orders
      agree exactly when no count differs, by its start or by saturation. */
  lemma OrderIrrelevant(t: seq<Entry>, c: Conversions, st: Store, items: seq<Item>, kvs: seq<Setting>)
    requires TableOk(t) && FromTable(t, items) && st.seen !! Ids(t)
    requires Execute(c, items, st).stop.None?
    ensures SameValues(OptionsThenFile(t, c, st, items, kvs), FileThenOptions(t, c, st, items, kvs))
      <==> forall x :: SameCount(t, c, st, items, kvs, x)
  {
    hide TableOk, FromTable, IsCount, Execute, LastValid, Uses, Ids, OptionsThenFile, FileThenOptions;
    var a, b := OptionsThenFile(t, c, st, items, kvs), FileThenOptions(t, c, st, items, kvs);
    forall x ensures Get(a.vars, x) == Get(b.vars, x) <==> SameCount(t, c, st, items, kvs, x) {
      OneVariable(t, c, st, items, kvs, x);
    }
    OneVariable(t, c, st, items, kvs, 0);
    hide SameCount;
  }

  /** As the program starts, with all counts at zero: exactly when no count passes INT_MAX. */
  lemma OrderFromZero(t: seq<Entry>, c: Conversions, st: Store, items: seq<Item>, kvs: seq<Setting>)
    requires TableOk(t) && FromTable(t, items) && st.seen !! Ids(t) && CountsAtZero(t, st.vars)
    requires Execute(c, items, st).stop.None?
    ensures SameValues(OptionsThenFile(t, c, st, items, kvs), FileThenOptions(t, c, st, items, kvs))
      <==> forall x :: BothCount(t, c, items, kvs, x) ==>
        Uses(items, x) + IntOf(LastValid(t, c, kvs, x).value) <= INT_MAX
  {
    OrderIrrelevant(t, c, st, items, kvs);
    hide TableOk, FromTable, IsCount, Execute, LastValid, Uses, Ids, OptionsThenFile, FileThenOptions, SameValues;
    forall x ensures SameCount(t, c, st, items, kvs, x) <==>
      (BothCount(t, c, items, kvs, x) ==> Uses(items, x) + IntOf(LastValid(t, c, kvs, x).value) <= INT_MAX)
    {
    }
  }

  const VERBOSE: Opt := Opt(0, "verbose", Some('v'), Increment, Some(0), NoArgument, [], false, None, 0, 0)

  /** -v on the command line and verbose = value in the file, with a count that starts at `start`. */
  lemma VerboseTwice(c: Conversions, start: int, text: string, value: int)
    requires c.unsigned(text) == Some(value) && 0 <= value <= INT_MAX
    ensures var st, items, kvs := Store(map[0 := Int(start)], {}, false, false), [Use(VERBOSE, None)],
        [Ini.Setting("verbose", text)];
      && Get(OptionsThenFile([One(VERBOSE)], c, st, items, kvs).vars, 0) == Int(Saturated(start + 1 + value))
      && Get(FileThenOptions([One(VERBOSE)], c, st, items, kvs).vars, 0) == Int(1 + value)
  {
    var t, o := [One(VERBOSE)], VERBOSE;
    var st := Store(map[0 := Int(start)], {}, false, false);
    var items, kvs := [Use(o, None)], [Ini.Setting("verbose", text)];
    assert FromTable(t, items) by { assert One(o) in t; }
    assert Execute(c, items, st).stop.None? by {
      ExecuteOne(c, items[0], st);
      assert Parsed(c, o, None, Int(start)) == Some(Int(start + 1));
    }
    OneVariable(t, c, st, items, kvs, 0);
    assert Uses(items, 0) == 1 by { assert Uses(items[1..], 0) == 0; }
    assert LastValid(t, c, kvs, 0) == Some(Int(value)) by {
      assert FindKey(t, "verbose") == Some(o);
      assert Match([], text) == None;
      assert LastValid(t, c, kvs[1..], 0) == None;
    }
    assert IsCount(t, 0) by { assert One(o) in t && o.variable == Some(0) && o.kind == Increment; }
  }

  /** verbose = 2147483647 in the file and -v: the file first would pass INT_MAX, the code stops there. */
  lemma VerboseSaturates(c: Conversions)
    requires c.unsigned("2147483647") == Some(INT_MAX)
    ensures var st, items, kvs := Store(map[0 := Int(0)], {}, false, false), [Use(VERBOSE, None)],
        [Ini.Setting("verbose", "2147483647")];
      && Get(OptionsThenFile([One(VERBOSE)], c, st, items, kvs).vars, 0) == Int(INT_MAX)
      && Get(FileThenOptions([One(VERBOSE)], c, st, items, kvs).vars, 0) == Int(INT_MAX + 1)
  {
    VerboseTwice(c, 0, "2147483647", INT_MAX);
  }

  // ----- from the arguments to the variables -----

  const QUIET: Opt := Opt(1, "quiet", None, Flag, Some(1), NoArgument, [], false, None, 0, 0)

  /** --quiet in front of the command sets its flag, whatever it was, and nothing else. */
  lemma QuietIsTrue(c: Conversions, st: Store, x: nat)
    ensures var m := Meaning(Env(GLOBAL, [], true, c), st, ["--quiet"]);
      && m.stop.None? && Get(m.store.vars, x) == (if x == 1 then Bool(true) else Get(st.vars, x))
      && m.store.help == st.help && m.store.version == st.version
  {
    var e, toks := Env(GLOBAL, [], true, c), ["--quiet"];
    QuietItem(e);
    var items, start := [Use(QUIET, None)], st.(seen := st.seen - Ids(GLOBAL));
    hide Grammar, ItemsOf, Ids, GLOBAL;
    ExecuteOne(c, items[0], start);
    UseStores(c, start, QUIET, None, x);
    assert Gives(c, QUIET, None, Get(start.vars, 1), Bool(true));
  }

  lemma QuietItem(e: Env)
    requires e.own == GLOBAL && e.globals == [] && e.onlyGlobal
    ensures ItemsOf(Grammar(e, ["--quiet"])) == [Use(QUIET, None)]
  {
    hide GLOBAL, ReadLong;
    QuietRead(e);
    var toks := ["--quiet"];
    assert FirstItems(e, toks) == [Use(QUIET, None)] && Width(e, toks) == 1;
    Unfold(e, toks);
    hide ReadOption, Grammar;
    NoItems(e, toks[1..]);
    Front(Options(toks[..1], [Use(QUIET, None)]), Grammar(e, toks[1..]));
  }

  lemma NoItems(e: Env, toks: seq<string>)
    requires toks == []
    ensures ItemsOf(Grammar(e, toks)) == []
  {
  }

  lemma QuietRead(e: Env)
    requires e.own == GLOBAL && e.globals == [] && e.onlyGlobal
    ensures ReadLong(e, "--quiet", None) == Read([Use(QUIET, None)], false)
  {
    QuietName();
    QuietFound();
    NoneInEmpty("quiet");
    hide GLOBAL, FindLong, Strings.IndexOf;
    assert LongAny(e, "quiet") == Some(QUIET);
    WholeName(e, "--quiet", None);
  }

  lemma QuietName()
    ensures "--quiet"[2..] == "quiet" && '=' !in "--quiet"[2..]
  {
  }

  /** A long option without a value attached. */
  lemma WholeName(e: Env, arg: string, next: Option<string>)
    requires |arg| >= 2 && '=' !in arg[2..] && LongAny(e, arg[2..]).Some?
    ensures ReadLong(e, arg, next) == WithValue(LongAny(e, arg[2..]).value, None, next)
  {
    hide LongAny, WithValue;
    var k := Strings.IndexOf(arg[2..], '=');
    assert k == |arg[2..]|;
    assert arg[2..][..k] == arg[2..];
  }

  lemma NoneInEmpty(name: string)
    ensures FindLong([], name).None?
  {
  }

  lemma QuietFound()
    ensures FindLong(GLOBAL, "quiet") == Some(QUIET)
  {
    assert GLOBAL[0].opt.name == "verbose" && GLOBAL[1] == One(QUIET);
    assert FindLong(GLOBAL[1..], "quiet") == Some(QUIET);
  }

  predicate FromEither(e: Env, items: seq<Item>)
  {
    forall i :: 0 <= i < |items| && items[i].Use? ==> items[i].opt in All(e.own) || items[i].opt in All(e.globals)
  }

  lemma {:induction false} ShortFromTables(e: Env, cs: string, next: Option<string>)
    ensures FromEither(e, ReadShort(e, cs, next).items)
  {
    if cs != "" { ShortFromTables(e, cs[1..], next); }
  }

  lemma {:induction false} GrammarFromTables(e: Env, toks: seq<string>)
    ensures FromEither(e, ItemsOf(Grammar(e, toks)))
    decreases |toks|
  {
    if toks != [] {
      if toks[0] == "--" {
        OperandSegments(toks[1..]);
      } else if !IsOption(toks[0]) {
        GrammarFromTables(e, toks[1..]);
      } else {
        if toks[0][1] != '-' { ShortFromTables(e, toks[0][1..], NextOf(toks)); }
        GrammarFromTables(e, toks[1..]);
        if |toks| > 1 { GrammarFromTables(e, toks[2..]); }
        FrontFromTables(e, toks);
      }
    }
  }

  lemma FrontFromTables(e: Env, toks: seq<string>)
    requires toks != [] && IsOption(toks[0]) && FromEither(e, ReadOption(e, toks[0], NextOf(toks)).items)
    requires FromEither(e, ItemsOf(Grammar(e, toks[1..])))
    requires (|toks| > 1 ==> FromEither(e, ItemsOf(Grammar(e, toks[2..]))))
    ensures FromEither(e, ItemsOf(Grammar(e, toks)))
  {
    hide ReadOption;
    var items, n := FirstItems(e, toks), Width(e, toks);
    if Fine(items) {
      Unfold(e, toks);
      Front(Options(toks[..n], items), Grammar(e, toks[n..]));
    } else {
      assert Grammar(e, toks) == [Options(toks[..1], items)] + [];
      Front(Options(toks[..1], items), []);
    }
  }

  /** Stores with the same values stay so. */
  lemma {:induction false} SameAfter(c: Conversions, items: seq<Item>, a: Store, b: Store)
    requires SameValues(a, b)
    ensures Execute(c, items, a).stop == Execute(c, items, b).stop
    ensures SameValues(Execute(c, items, a).store, Execute(c, items, b).store)
    decreases |items|
  {
    if items != [] {
      SamePerform(c, items[0], a, b);
      SameAfter(c, items[1..], Perform(c, items[0], a).store, Perform(c, items[0], b).store);
    }
  }

  lemma SamePerform(c: Conversions, i: Item, a: Store, b: Store)
    requires SameValues(a, b)
    ensures Perform(c, i, a).stop == Perform(c, i, b).stop
    ensures SameValues(Perform(c, i, a).store, Perform(c, i, b).store)
  {
    hide Parsed;
    if i.Use? && i.opt.variable.Some? {
      assert Get(a.vars, i.opt.variable.value) == Get(b.vars, i.opt.variable.value);
      var ra, rb := Perform(c, i, a).store, Perform(c, i, b).store;
      forall x ensures Get(ra.vars, x) == Get(rb.vars, x) {
        assert Get(a.vars, x) == Get(b.vars, x);
      }
    }
  }

  /** The whole start of the program: the global options in front of the command, the file, and
      then the command line of the command itself, against the file first. */
  lemma FilesAreDefaults(e: Env, f: Env, st: Store, front: seq<string>, events: seq<Event>, command: seq<string>)
    requires e.onlyGlobal && e.globals == [] && TableOk(e.own) && st.seen !! Ids(e.own)
    requires Meaning(e, st, front).stop.None?
    requires forall x :: SameCount(e.own, e.conv, st, ItemsOf(Grammar(e, front)), Settings(events), x)
    ensures var kvs := Settings(events);
      var a := FileAll(e.own, e.conv, Config(Meaning(e, st, front).store, []), kvs).store;
      var b := Meaning(e, FileAll(e.own, e.conv, Config(st, []), kvs).store, front).store;
      && SameValues(a, b)
      && Meaning(f, a, command).stop == Meaning(f, b, command).stop
      && SameValues(Meaning(f, a, command).store, Meaning(f, b, command).store)
  {
    hide TableOk, Grammar, ItemsOf, Execute, FileAll, Settings, Ids, SameValues, SameCount;
    var items, kvs := ItemsOf(Grammar(e, front)), Settings(events);
    ItemsAreGlobal(e, front);
    NothingToForget(st, Ids(e.own));
    FileAllResult(e.own, e.conv, Config(st, []), kvs, 0);
    NothingToForget(FileAll(e.own, e.conv, Config(st, []), kvs).store, Ids(e.own));
    OrderIrrelevant(e.own, e.conv, st, items, kvs);
    var a, b := OptionsThenFile(e.own, e.conv, st, items, kvs), FileThenOptions(e.own, e.conv, st, items, kvs);
    ForgetBoth(a, b, Ids(f.own));
    SameAfter(f.conv, ItemsOf(Grammar(f, command)), a.(seen := a.seen - Ids(f.own)), b.(seen := b.seen - Ids(f.own)));
  }

  lemma ItemsAreGlobal(e: Env, toks: seq<string>)
    requires TableOk(e.own) && e.globals == []
    ensures FromTable(e.own, ItemsOf(Grammar(e, toks)))
  {
    hide Grammar, ItemsOf;
    var items := ItemsOf(Grammar(e, toks));
    GrammarFromTables(e, toks);
    forall i | 0 <= i < |items| && items[i].Use? ensures One(items[i].opt) in e.own {
      AllIsOne(e.own, items[i].opt);
    }
  }

  lemma NothingToForget(st: Store, ids: set<nat>)
    requires st.seen !! ids
    ensures st.(seen := st.seen - ids) == st
  {
    assert st.seen - ids == st.seen;
  }

  lemma ForgetBoth(a: Store, b: Store, ids: set<nat>)
    requires SameValues(a, b)
    ensures SameValues(a.(seen := a.seen - ids), b.(seen := b.seen - ids))
  {
  }

  // ----- the code -----

  class Loader {
    const t: seq<Entry>
    const c: Conversions
    var store: Store
    var givens: seq<Count>
    /** The texts of the files that were loaded, the last one first. */
    var files: seq<Ini.Parser>

    constructor (t: seq<Entry>, c: Conversions, store: Store)
      ensures this.t == t && this.c == c && this.store == store && givens == [] && files == []
    {
      files := [];
      this.t := t;
      this.c := c;
      this.store := store;
      givens := [];
    }

    method LookUp(key: string) returns (r: Option<Opt>)
      ensures r == FindKey(t, key)
    {
      var i := 0;
      while i < |t|
        invariant i <= |t| && FindKey(t, key) == FindKey(t[i..], key)
      {
        assert t[i..][1..] == t[i + 1..];
        if t[i].One? && !t[i].opt.deprecated && t[i].opt.name == key {
          return Some(t[i].opt);
        }
        i := i + 1;
      }
      r := None;
    }

    /** given_count: the count of the list, or a new entry with what the variable holds now. */
    method Given(x: nat) returns (n: int)
      modifies this`givens
      ensures n == GivenCount(Config(store, old(givens)), x) && givens == Record(Config(store, old(givens)), x)
    {
      var i := 0;
      while i < |givens|
        invariant i <= |givens| && givens == old(givens)
        invariant IsRecorded(givens, x) == IsRecorded(givens[i..], x)
        invariant Recorded(givens, x, IntOf(Get(store.vars, x))) == Recorded(givens[i..], x, IntOf(Get(store.vars, x)))
      {
        assert givens[i..][1..] == givens[i + 1..];
        if givens[i].variable == x {
          return givens[i].given;
        }
        i := i + 1;
      }
      n := IntOf(Get(store.vars, x));
      givens := [Count(x, n)] + givens;
    }

    method ApplyKv(kv: Setting)
      modifies this`store, this`givens
      ensures Config(store, givens) == FileStep(t, c, old(Config(store, givens)), kv.key, kv.value)
    {
      hide FileValue;
      var s := LookUp(kv.key);
      if s.None? || s.value.variable.None? {
        return;
      }
      var x := s.value.variable.value;
      var v := FileValue(c, s.value, kv.value);
      if v.None? {
        return;
      }
      if !GivenIn(t, store.seen, x) {
        store := store.(vars := store.vars[x := v.value]);
        return;
      }
      if s.value.kind != Increment || IntOf(v.value) < 0 {
        return;
      }
      var given := Given(x);
      var sum := if IntOf(v.value) > INT_MAX - given then INT_MAX else given + IntOf(v.value);
      store := store.(vars := store.vars[x := Int(sum)]);
    }

    /** A whole file, event by event. */
    method Load(events: seq<Event>)
      modifies this`store, this`givens
      ensures Config(store, givens) == FileAll(t, c, old(Config(store, givens)), Settings(events))
    {
      hide FileStep;
      var i := 0;
      while i < |events|
        invariant i <= |events|
        invariant FileAll(t, c, Config(store, givens), Settings(events[i..]))
            == FileAll(t, c, old(Config(store, givens)), Settings(events))
      {
        assert events[i..][0] == events[i] && events[i..][1..] == events[i + 1..];
        if events[i].KeyValue? && events[i].section == Some("Global") {
          ApplyKv(events[i].setting);
        }
        i := i + 1;
      }
      assert Settings(events[i..]) == [];
    }

    /** load_text: the text is parsed in place and kept, and its keys are applied. */
    method LoadText(text: string, allocOk: bool) returns (ok: bool)
      requires '\0' !in text
      modifies this
      ensures ok == allocOk
      ensures !ok ==> Config(store, givens) == old(Config(store, givens)) && files == old(files)
      ensures ok ==> Config(store, givens) == FileAll(t, c, old(Config(store, givens)), Settings(Ini.Parsed(text)))
      ensures ok ==> |files| == |old(files)| + 1 && files[1..] == old(files) && fresh(files[0]) && fresh(files[0].buf)
    {
      hide FileAll, Settings, Ini.Parsed, Ini.Reports;
      if !allocOk {
        return false;
      }
      var file := new Ini.Parser(text);
      files := [file] + files;
      var reports, failed := file.ParseLines(text, None);
      var events := Ini.ReadReports(file.buf, reports, Ini.Parsed(text));
      Load(events);
      ok := true;
    }
  }
}
