/**
 The command-line parser (src/argconfig.c).  Its meaning is a grammar that cuts the arguments
 into segments, and the execution of the uses of options that the segments contain; the parser
 does both at once, character by character.
 */
module ArgParse {
  import opened Wrappers
  import opened Options
  import opened Strings

  // ----- the grammar -----

  datatype Code = ShowHelp | Usage

  datatype Item = Use(opt: Opt, value: Option<string>) | AskHelp | AskVersion | Bad(code: Code)

  /** An option with its value, an operand, or the "--" that ends the options. */
  datatype Segment = Options(tokens: seq<string>, items: seq<Item>) | Operand(token: string) | EndOfOptions

  /** The table of the command, the global options unless they are the table itself, and the
      mode that stops at the first operand. */
  datatype Env = Env(own: seq<Entry>, globals: seq<Entry>, onlyGlobal: bool, conv: Conversions)

  function LongAny(e: Env, name: string): (r: Option<Opt>)
  {
    var o := FindLong(e.globals, name);
    if o.Some? then o else
    var p := FindLong(e.own, name);
    if p.Some? then p else FindLong(e.globals, name)
  }

  function ShortAny(e: Env, c: char): (r: Option<Opt>)
  {
    var o := FindShort(e.globals, c);
    if o.Some? then o else
    var p := FindShort(e.own, c);
    if p.Some? then p else FindShort(e.globals, c)
  }

  /** A global option is the same for every command: the global table goes first. */
  lemma GlobalsFirst(e: Env, name: string, c: char)
    ensures LongAny(e, name) == FirstLong(All(e.globals) + All(e.own), name)
    ensures ShortAny(e, c) == FirstShort(All(e.globals) + All(e.own), c)
  {
    FirstLongConcat(All(e.globals), All(e.own), name);
    FirstShortConcat(All(e.globals), All(e.own), c);
  }

  /** The items of one option argument, and whether the next argument is its value. */
  datatype Read = Read(items: seq<Item>, took: bool)

  function WithValue(o: Opt, attached: Option<string>, next: Option<string>): (r: Read)
  {
    match o.argument
    case NoArgument => if attached.Some? then Read([Bad(Usage)], false) else Read([Use(o, None)], false)
    case Required =>
      if attached.Some? then Read([Use(o, attached)], false)
      else if next.Some? then Read([Use(o, next)], true)
      else Read([Bad(Usage)], false)
    case Optional => Read([Use(o, attached)], false)
  }

  /** "--name", "--name=value" or "--name value" */
  function ReadLong(e: Env, arg: string, next: Option<string>): (r: Read)
    requires |arg| >= 2
  {
    var name := arg[2..][..IndexOf(arg[2..], '=')];
    var attached := if |name| < |arg[2..]| then Some(arg[2..][|name| + 1..]) else None;
    var o := LongAny(e, name);
    if o.Some? then WithValue(o.value, attached, next)
    else if name == "help" && !e.onlyGlobal then Read([Bad(ShowHelp)], false)
    else if !e.onlyGlobal || (name != "help" && name != "version") || attached.Some? then Read([Bad(Usage)], false)
    else if name == "help" then Read([AskHelp], false)
    else Read([AskVersion], false)
  }

  /** "-a", "-abc", "-ovalue", "-o value" from the characters cs on */
  function ReadShort(e: Env, cs: string, next: Option<string>): (r: Read)
  {
    if cs == "" then Read([], false)
    else if !e.onlyGlobal && (cs[0] == 'h' || cs[0] == '?') then Read([Bad(ShowHelp)], false)
    else
      var o := ShortAny(e, cs[0]);
      if o.Some? && o.value.argument != NoArgument then
        WithValue(o.value, if |cs| > 1 then Some(cs[1..]) else None, next)
      else if o.Some? then Then(Use(o.value, None), ReadShort(e, cs[1..], next))
      else if e.onlyGlobal && cs[0] == 'h' then Then(AskHelp, ReadShort(e, cs[1..], next))
      else if e.onlyGlobal && cs[0] == 'V' then Then(AskVersion, ReadShort(e, cs[1..], next))
      else Read([Bad(Usage)], false)
  }

  function Then(i: Item, r: Read): (s: Read)
  {
    Read([i] + r.items, r.took)
  }

  predicate IsOption(arg: string)
  {
    |arg| >= 2 && arg[0] == '-' && arg != "--"
  }

  function ReadOption(e: Env, arg: string, next: Option<string>): (r: Read)
    requires IsOption(arg)
  {
    if arg[1] == '-' then ReadLong(e, arg, next) else ReadShort(e, arg[1..], next)
  }

  function NextOf(toks: seq<string>): (r: Option<string>)
  {
    if |toks| > 1 then Some(toks[1]) else None
  }

  predicate Fine(items: seq<Item>)
  {
    forall i :: 0 <= i < |items| ==> !items[i].Bad?
  }

  function Operands(toks: seq<string>): (r: seq<Segment>)
  {
    if toks == [] then [] else [Operand(toks[0])] + Operands(toks[1..])
  }

  lemma ReadTookHasNext(e: Env, arg: string, next: Option<string>)
    requires IsOption(arg) && ReadOption(e, arg, next).took
    ensures next.Some?
  {
    if arg[1] != '-' { ShortTookHasNext(e, arg[1..], next); }
  }

  lemma {:induction false} ShortTookHasNext(e: Env, cs: string, next: Option<string>)
    requires ReadShort(e, cs, next).took
    ensures next.Some?
  {
    var o := ShortAny(e, cs[0]);
    if !(o.Some? && o.value.argument != NoArgument) { ShortTookHasNext(e, cs[1..], next); }
  }

  /** All the segments; the first malformed option is the last one. */
  function Grammar(e: Env, toks: seq<string>): (r: seq<Segment>)
    decreases |toks|
  {
    if toks == [] then []
    else if toks[0] == "--" then
      [EndOfOptions] + if e.onlyGlobal then [] else Operands(toks[1..])
    else if !IsOption(toks[0]) then
      if e.onlyGlobal then [] else [Operand(toks[0])] + Grammar(e, toks[1..])
    else
      var r := ReadOption(e, toks[0], NextOf(toks));
      if !Fine(r.items) then [Options(toks[..1], r.items)]
      else if r.took && |toks| > 1 then [Options(toks[..2], r.items)] + Grammar(e, toks[2..])
      else [Options(toks[..1], r.items)] + Grammar(e, toks[1..])
  }

  // ----- what the segments say -----

  function TokensOf(s: Segment): (r: seq<string>)
  {
    match s
    case Options(t, _) => t
    case Operand(t) => [t]
    case EndOfOptions => ["--"]
  }

  function Consumed(segs: seq<Segment>): (r: seq<string>)
  {
    if segs == [] then [] else TokensOf(segs[0]) + Consumed(segs[1..])
  }

  function OptionTokens(segs: seq<Segment>): (r: seq<string>)
  {
    if segs == [] then []
    else (if segs[0].Options? then segs[0].tokens else []) + OptionTokens(segs[1..])
  }

  function OperandsOf(segs: seq<Segment>): (r: seq<string>)
  {
    if segs == [] then []
    else (if segs[0].Operand? then [segs[0].token] else []) + OperandsOf(segs[1..])
  }

  function ItemsOf(segs: seq<Segment>): (r: seq<Item>)
  {
    if segs == [] then []
    else (if segs[0].Options? then segs[0].items else []) + ItemsOf(segs[1..])
  }

  /** The uses one after the other, up to the first malformed one or invalid value. */
  datatype Ran = Ran(store: Store, stop: Option<Code>)

  function Perform(c: Conversions, i: Item, st: Store): (r: Ran)
  {
    match i
    case Use(o, v) =>
      var r := Apply(c, st, o, v);
      Ran(r.0, if r.1 then None else Some(Usage))
    case AskHelp => Ran(st.(help := true), None)
    case AskVersion => Ran(st.(version := true), None)
    case Bad(code) => Ran(st, Some(code))
  }

  function Execute(c: Conversions, items: seq<Item>, st: Store): (r: Ran)
  {
    if items == [] then Ran(st, None)
    else
      var r := Perform(c, items[0], st);
      if r.stop.Some? then r else Execute(c, items[1..], r.store)
  }

  /** The meaning of a parse: the seen flags of the command are forgotten first. */
  function Meaning(e: Env, st: Store, toks: seq<string>): (r: Ran)
  {
    Execute(e.conv, ItemsOf(Grammar(e, toks)), st.(seen := st.seen - Ids(e.own)))
  }

  lemma {:induction false} ExecuteConcat(c: Conversions, a: seq<Item>, b: seq<Item>, st: Store)
    ensures var r := Execute(c, a, st);
      Execute(c, a + b, st) == if r.stop.Some? then r else Execute(c, b, r.store)
    decreases |a|
  {
    if a == [] {
      assert a + b == b;
    } else {
      assert (a + b)[1..] == a[1..] + b;
      var r := Perform(c, a[0], st);
      ExecuteConcat(c, a[1..], b, r.store);
    }
  }

  /** A parse that succeeds met no malformed option. */
  lemma {:induction false} SuccessIsFine(c: Conversions, items: seq<Item>, st: Store)
    requires Execute(c, items, st).stop.None?
    ensures Fine(items)
  {
    if items != [] {
      var r := Perform(c, items[0], st);
      SuccessIsFine(c, items[1..], r.store);
      forall i | 0 <= i < |items| ensures !items[i].Bad? {
        if i > 0 { assert items[i] == items[1..][i - 1]; }
      }
    }
  }

  // ----- what a parse leaves in the variables -----

  predicate Sets(i: Item, x: nat)
  {
    i.Use? && i.opt.variable == Some(x)
  }

  /** The use that sets x for the last time. */
  predicate LastUse(items: seq<Item>, x: nat, j: nat)
  {
    j < |items| && Sets(items[j], x) && forall k :: j < k < |items| ==> !Sets(items[k], x)
  }

  /** The variable x behind the uses that it starts from in st: what it was if none sets it, and the value
      that the last use that does has for it. */
  ghost predicate HoldsLast(c: Conversions, items: seq<Item>, st: Store, after: Store, x: nat)
  {
    && ((forall j :: 0 <= j < |items| ==> !Sets(items[j], x)) ==> Get(after.vars, x) == Get(st.vars, x))
    && (forall j: nat :: LastUse(items, x, j) ==>
          Gives(c, items[j].opt, items[j].value, Get(Execute(c, items[..j], st).store.vars, x), Get(after.vars, x)))
  }

  /** The flags that the uses leave behind. */
  ghost predicate FlagsOf(items: seq<Item>, st: Store, after: Store)
  {
    && (forall id :: id in after.seen <==> id in st.seen || exists i :: i in items && i.Use? && i.opt.id == id)
    && (after.help <==> st.help || AskHelp in items)
    && (after.version <==> st.version || AskVersion in items)
  }

  lemma PerformSets(c: Conversions, i: Item, st: Store, x: nat)
    requires Perform(c, i, st).stop.None?
    ensures !Sets(i, x) ==> Get(Perform(c, i, st).store.vars, x) == Get(st.vars, x)
    ensures Sets(i, x) ==>
      Gives(c, i.opt, i.value, Get(st.vars, x), Get(Perform(c, i, st).store.vars, x))
  {
    hide Apply, Gives;
    if i.Use? { UseStores(c, st, i.opt, i.value, x); }
  }

  lemma {:induction false} NotSet(c: Conversions, items: seq<Item>, st: Store, x: nat)
    requires Execute(c, items, st).stop.None? && forall j :: 0 <= j < |items| ==> !Sets(items[j], x)
    ensures Get(Execute(c, items, st).store.vars, x) == Get(st.vars, x)
    decreases |items|
  {
    hide Perform, Sets;
    if items != [] {
      PerformSets(c, items[0], st, x);
      NotSet(c, items[1..], Perform(c, items[0], st).store, x);
    }
  }

  lemma SetLast(c: Conversions, items: seq<Item>, st: Store, x: nat, j: nat)
    requires Execute(c, items, st).stop.None? && LastUse(items, x, j)
    ensures Gives(c, items[j].opt, items[j].value, Get(Execute(c, items[..j], st).store.vars, x),
      Get(Execute(c, items, st).store.vars, x))
  {
    hide Perform, Sets, Execute, Gives;
    var rest := items[j + 1..];
    assert items == items[..j] + ([items[j]] + rest);
    ExecuteConcat(c, items[..j], [items[j]] + rest, st);
    var m := Execute(c, items[..j], st).store;
    ExecuteConcat(c, [items[j]], rest, m);
    ExecuteOne(c, items[j], m);
    PerformSets(c, items[j], m, x);
    NotSet(c, rest, Perform(c, items[j], m).store, x);
  }

  lemma PerformFlags(c: Conversions, i: Item, st: Store)
    requires Perform(c, i, st).stop.None?
    ensures FlagsOf([i], st, Perform(c, i, st).store)
  {
    hide Apply, Gives;
    assert i in [i];
    if i.Use? { UseStores(c, st, i.opt, i.value, 0); }
  }

  lemma {:induction false} ExecuteFlags(c: Conversions, items: seq<Item>, st: Store)
    requires Execute(c, items, st).stop.None?
    ensures FlagsOf(items, st, Execute(c, items, st).store)
    decreases |items|
  {
    hide Perform;
    if items != [] {
      var m := Perform(c, items[0], st).store;
      PerformFlags(c, items[0], st);
      ExecuteFlags(c, items[1..], m);
      assert items == [items[0]] + items[1..];
      hide Execute;
      FlagsJoin([items[0]], items[1..], st, m, Execute(c, items[1..], m).store);
    }
  }

  lemma FlagsJoin(a: seq<Item>, b: seq<Item>, st: Store, m: Store, after: Store)
    requires FlagsOf(a, st, m) && FlagsOf(b, m, after)
    ensures FlagsOf(a + b, st, after)
  {
  }

  /** A parse that succeeds leaves in every variable the value of its last use, or what it held. */
  lemma ParseStores(e: Env, st: Store, toks: seq<string>)
    requires Meaning(e, st, toks).stop.None?
    ensures var items, start, after := ItemsOf(Grammar(e, toks)), st.(seen := st.seen - Ids(e.own)),
        Meaning(e, st, toks).store;
      FlagsOf(items, start, after) && forall x :: HoldsLast(e.conv, items, start, after, x)
  {
    hide Execute, Gives, Get, ItemsOf, Grammar, FlagsOf, Ids;
    var items, start := ItemsOf(Grammar(e, toks)), st.(seen := st.seen - Ids(e.own));
    ExecuteFlags(e.conv, items, start);
    forall x ensures HoldsLast(e.conv, items, start, Meaning(e, st, toks).store, x) {
      forall j: nat | LastUse(items, x, j)
        ensures Gives(e.conv, items[j].opt, items[j].value, Get(Execute(e.conv, items[..j], start).store.vars, x),
          Get(Meaning(e, st, toks).store.vars, x))
      {
        SetLast(e.conv, items, start, x, j);
      }
      if forall j :: 0 <= j < |items| ==> !Sets(items[j], x) {
        NotSet(e.conv, items, start, x);
      }
    }
  }

  /** The item can not be done: it is malformed, or its value is none of its option. */
  ghost predicate Refuses(c: Conversions, i: Item, st: Store, code: Code)
  {
    || i == Bad(code)
    || (code == Usage && i.Use? && i.opt.variable.Some?
        && forall v :: !Gives(c, i.opt, i.value, Get(st.vars, i.opt.variable.value), v))
  }

  /** The uses stop exactly at the first item that can not be done, with its code. */
  lemma {:induction false} StopsIff(c: Conversions, items: seq<Item>, st: Store, code: Code)
    ensures Execute(c, items, st).stop == Some(code) <==>
      exists j :: 0 <= j < |items| && Execute(c, items[..j], st).stop.None?
        && Refuses(c, items[j], Execute(c, items[..j], st).store, code)
    decreases |items|
  {
    hide Perform, Refuses;
    if items != [] {
      var r := Perform(c, items[0], st);
      RefusesIs(c, items[0], st, code);
      assert items[..0] == [];
      if r.stop.None? {
        StopsIff(c, items[1..], r.store, code);
        StopsFront(c, items, st);
      } else {
        NoneBehind(c, items, st);
      }
    }
  }

  lemma RefusesIs(c: Conversions, i: Item, st: Store, code: Code)
    ensures Perform(c, i, st).stop == Some(code) <==> Refuses(c, i, st, code)
  {
    hide Apply, Gives;
    if i.Use? { UseStores(c, st, i.opt, i.value, 0); }
  }

  lemma StopsFront(c: Conversions, items: seq<Item>, st: Store)
    requires items != [] && Perform(c, items[0], st).stop.None?
    ensures forall j :: 0 <= j < |items[1..]| ==>
      && items[1..][j] == items[j + 1]
      && Execute(c, items[..j + 1], st) == Execute(c, items[1..][..j], Perform(c, items[0], st).store)
  {
    hide Perform;
    forall j | 0 <= j < |items[1..]|
      ensures Execute(c, items[..j + 1], st) == Execute(c, items[1..][..j], Perform(c, items[0], st).store)
    {
      assert items[..j + 1][1..] == items[1..][..j];
    }
  }

  lemma NoneBehind(c: Conversions, items: seq<Item>, st: Store)
    requires items != [] && Perform(c, items[0], st).stop.Some?
    ensures forall j :: 0 < j <= |items| ==> Execute(c, items[..j], st).stop.Some?
  {
    hide Perform;
  }

  // ----- every token once -----

  lemma {:induction false} OperandSegments(toks: seq<string>)
    ensures Consumed(Operands(toks)) == toks && OperandsOf(Operands(toks)) == toks
    ensures OptionTokens(Operands(toks)) == [] && ItemsOf(Operands(toks)) == []
    ensures forall i :: 0 <= i < |Operands(toks)| ==> Operands(toks)[i].Operand?
  {
    if toks != [] {
      OperandSegments(toks[1..]);
      assert Operands(toks)[1..] == Operands(toks[1..]);
    }
  }

  lemma FineParts(a: seq<Item>, b: seq<Item>)
    requires Fine(a + b)
    ensures Fine(a) && Fine(b)
  {
    forall i | 0 <= i < |a| ensures !a[i].Bad? { assert (a + b)[i] == a[i]; }
    forall i | 0 <= i < |b| ensures !b[i].Bad? { assert (a + b)[|a| + i] == b[i]; }
  }

  lemma FineRest(segs: seq<Segment>)
    requires segs != [] && Fine(ItemsOf(segs))
    ensures Fine(ItemsOf(segs[1..])) && (segs[0].Options? ==> Fine(segs[0].items))
  {
    FineParts(if segs[0].Options? then segs[0].items else [], ItemsOf(segs[1..]));
  }

  /** One segment in front. */
  lemma Front(s: Segment, rest: seq<Segment>)
    ensures var g := [s] + rest;
      && Consumed(g) == TokensOf(s) + Consumed(rest)
      && OptionTokens(g) == (if s.Options? then s.tokens else []) + OptionTokens(rest)
      && OperandsOf(g) == (if s.Operand? then [s.token] else []) + OperandsOf(rest)
      && ItemsOf(g) == (if s.Options? then s.items else []) + ItemsOf(rest)
      && (Fine(ItemsOf(g)) ==> Fine(ItemsOf(rest)) && (s.Options? ==> Fine(s.items)))
  {
    var g := [s] + rest;
    assert g[1..] == rest;
    if Fine(ItemsOf(g)) { FineRest(g); }
  }

  /** How many arguments the option in front takes. */
  function Width(e: Env, toks: seq<string>): (n: nat)
    requires toks != [] && IsOption(toks[0])
    ensures 1 <= n <= |toks| && n <= 2
  {
    if ReadOption(e, toks[0], NextOf(toks)).took && |toks| > 1 then 2 else 1
  }

  function FirstItems(e: Env, toks: seq<string>): (r: seq<Item>)
    requires toks != [] && IsOption(toks[0])
  {
    ReadOption(e, toks[0], NextOf(toks)).items
  }

  lemma OptionInFront(e: Env, toks: seq<string>)
    requires toks != [] && IsOption(toks[0]) && Fine(ItemsOf(Grammar(e, toks)))
    ensures var n := Width(e, toks);
      && Fine(FirstItems(e, toks)) && Fine(ItemsOf(Grammar(e, toks[n..])))
      && Grammar(e, toks) == [Options(toks[..n], FirstItems(e, toks))] + Grammar(e, toks[n..])
  {
    hide ReadOption;
    var g := Grammar(e, toks);
    FineRest(g);
    assert g[0].items == FirstItems(e, toks);
    assert g[1..] == Grammar(e, toks[Width(e, toks)..]);
  }

  /** The segments of a command are its arguments, in order, each one once. */
  lemma {:induction false} EveryTokenOnce(e: Env, toks: seq<string>)
    requires !e.onlyGlobal && Fine(ItemsOf(Grammar(e, toks)))
    ensures Consumed(Grammar(e, toks)) == toks
    decreases |toks|
  {
    hide Fine, ItemsOf, OptionTokens, OperandsOf, FirstItems, Grammar, Consumed, Width;
    if toks == [] {
      NoTokens(e);
    } else if toks[0] == "--" {
      EndTokens(e, toks);
    } else if !IsOption(toks[0]) {
      OperandInFront(e, toks);
      Front(Operand(toks[0]), Grammar(e, toks[1..]));
      EveryTokenOnce(e, toks[1..]);
    } else {
      var n := Width(e, toks);
      OptionInFront(e, toks);
      Front(Options(toks[..n], FirstItems(e, toks)), Grammar(e, toks[n..]));
      EveryTokenOnce(e, toks[n..]);
    }
  }

  lemma NoTokens(e: Env)
    ensures Consumed(Grammar(e, [])) == []
  {
  }

  lemma EndTokens(e: Env, toks: seq<string>)
    requires !e.onlyGlobal && toks != [] && toks[0] == "--"
    ensures Consumed(Grammar(e, toks)) == toks
  {
    OperandSegments(toks[1..]);
    Front(EndOfOptions, Operands(toks[1..]));
  }

  /** Where the global options stop: behind "--", at the first operand, or at the end. */
  predicate StopsRight(toks: seq<string>, n: nat)
  {
    n <= |toks| && (n == |toks| || (n > 0 && toks[n - 1] == "--") || (toks[n] != "--" && !IsOption(toks[n])))
  }

  /** The global options are a prefix of the arguments. */
  lemma {:induction false} GlobalPrefix(e: Env, toks: seq<string>)
    requires e.onlyGlobal && Fine(ItemsOf(Grammar(e, toks)))
    ensures var g := Grammar(e, toks); OperandsOf(g) == [] && Consumed(g) <= toks && StopsRight(toks, |Consumed(g)|)
    decreases |toks|
  {
    if toks != [] && IsOption(toks[0]) {
      hide Fine, ItemsOf, OptionTokens, OperandsOf, Consumed, Grammar, FirstItems, Width, StopsRight;
      var n := Width(e, toks);
      OptionInFront(e, toks);
      var rest := Grammar(e, toks[n..]);
      Front(Options(toks[..n], FirstItems(e, toks)), rest);
      GlobalPrefix(e, toks[n..]);
      StopsLater(toks, n, Consumed(rest));
    } else if toks != [] && toks[0] == "--" {
      assert Grammar(e, toks) == [EndOfOptions];
      Front(EndOfOptions, []);
    }
  }

  lemma StopsLater(toks: seq<string>, n: nat, c: seq<string>)
    requires n <= |toks| && c <= toks[n..] && StopsRight(toks[n..], |c|)
    ensures toks[..n] + c <= toks && StopsRight(toks, n + |c|)
  {
    assert toks == toks[..n] + toks[n..];
    assert |c| < |toks[n..]| ==> toks[n..][|c|] == toks[n + |c|];
    assert |c| > 0 ==> toks[n..][|c| - 1] == toks[n + |c| - 1];
  }

  // ----- order of options and operands -----

  /** An option that did not take the next argument does not depend on it. */
  lemma ReadIndependent(e: Env, arg: string, next: Option<string>, other: Option<string>)
    requires IsOption(arg) && Fine(ReadOption(e, arg, next).items) && !ReadOption(e, arg, next).took
    ensures ReadOption(e, arg, other) == ReadOption(e, arg, next)
  {
    if arg[1] != '-' {
      ShortIndependent(e, arg[1..], next, other);
    } else {
      NotBad(ReadLong(e, arg, next).items);
    }
  }

  lemma NotBad(items: seq<Item>)
    requires Fine(items)
    ensures items != [Bad(Usage)]
  {
    if |items| > 0 { assert !items[0].Bad?; }
  }

  lemma {:induction false} ShortIndependent(e: Env, cs: string, next: Option<string>, other: Option<string>)
    requires Fine(ReadShort(e, cs, next).items) && !ReadShort(e, cs, next).took
    ensures ReadShort(e, cs, other) == ReadShort(e, cs, next)
  {
    var r := ReadShort(e, cs, next);
    NotBad(r.items);
    if cs != "" && (ShortAny(e, cs[0]).None? || ShortAny(e, cs[0]).value.argument == NoArgument)
      && !(!e.onlyGlobal && (cs[0] == 'h' || cs[0] == '?')) && r.items != [Bad(Usage)] {
      FineParts(r.items[..1], r.items[1..]);
      assert r.items == r.items[..1] + r.items[1..];
      ShortIndependent(e, cs[1..], next, other);
    }
  }

  /** The options first, then "--", then `tail`. */
  function Sorted(segs: seq<Segment>, tail: seq<string>): (r: seq<string>)
  {
    OptionTokens(segs) + (["--"] + tail)
  }

  lemma {:induction false} SortedGrammar(e: Env, toks: seq<string>, tail: seq<string>)
    requires !e.onlyGlobal && Fine(ItemsOf(Grammar(e, toks)))
    ensures var h := Grammar(e, Sorted(Grammar(e, toks), tail));
      ItemsOf(h) == ItemsOf(Grammar(e, toks)) && OperandsOf(h) == tail
    decreases |toks|
  {
    hide Fine, Width, FirstItems, Grammar, ItemsOf, OptionTokens, OperandsOf, Consumed;
    if toks == [] || toks[0] == "--" {
      SortedEnd(e, toks, tail);
    } else if !IsOption(toks[0]) {
      OperandInFront(e, toks);
      SortedGrammar(e, toks[1..], tail);
    } else {
      var n := Width(e, toks);
      OptionInFront(e, toks);
      SortedGrammar(e, toks[n..], tail);
      SortedStep(e, toks, tail);
      var s := Options(toks[..n], FirstItems(e, toks));
      Front(s, Grammar(e, toks[n..]));
      Front(s, Grammar(e, Sorted(Grammar(e, toks[n..]), tail)));
    }
  }

  lemma OperandInFront(e: Env, toks: seq<string>)
    requires !e.onlyGlobal && toks != [] && toks[0] != "--" && !IsOption(toks[0])
    ensures var g, rest := Grammar(e, toks), Grammar(e, toks[1..]);
      g == [Operand(toks[0])] + rest && OptionTokens(g) == OptionTokens(rest) && ItemsOf(g) == ItemsOf(rest)
  {
    Front(Operand(toks[0]), Grammar(e, toks[1..]));
  }

  lemma SortedEnd(e: Env, toks: seq<string>, tail: seq<string>)
    requires !e.onlyGlobal && (toks == [] || toks[0] == "--")
    ensures var h := Grammar(e, Sorted(Grammar(e, toks), tail));
      ItemsOf(h) == ItemsOf(Grammar(e, toks)) && OperandsOf(h) == tail
  {
    if toks != [] {
      OperandSegments(toks[1..]);
      Front(EndOfOptions, Operands(toks[1..]));
    }
    OperandSegments(tail);
    Front(EndOfOptions, Operands(tail));
    assert Sorted(Grammar(e, toks), tail) == ["--"] + tail;
    assert (["--"] + tail)[1..] == tail;
  }

  lemma SortedStep(e: Env, toks: seq<string>, tail: seq<string>)
    requires toks != [] && IsOption(toks[0]) && !e.onlyGlobal && Fine(ItemsOf(Grammar(e, toks)))
    ensures var n := Width(e, toks);
      Grammar(e, Sorted(Grammar(e, toks), tail))
      == [Options(toks[..n], FirstItems(e, toks))] + Grammar(e, Sorted(Grammar(e, toks[n..]), tail))
  {
    hide ReadOption, Fine, ItemsOf, OptionTokens, OperandsOf, Consumed, Grammar;
    var n := Width(e, toks);
    OptionInFront(e, toks);
    Front(Options(toks[..n], FirstItems(e, toks)), Grammar(e, toks[n..]));
    var rest := Sorted(Grammar(e, toks[n..]), tail);
    var moved := Sorted(Grammar(e, toks), tail);
    assert moved == toks[..n] + rest;
    SameOption(e, toks, rest);
    Unfold(e, moved);
  }

  lemma SameOption(e: Env, toks: seq<string>, rest: seq<string>)
    requires toks != [] && IsOption(toks[0]) && Fine(FirstItems(e, toks))
    ensures var n := Width(e, toks); var moved := toks[..n] + rest;
      && moved[0] == toks[0] && moved[n..] == rest && moved[..n] == toks[..n]
      && Width(e, moved) == n && FirstItems(e, moved) == FirstItems(e, toks)
  {
    hide ReadOption, Fine;
    var n := Width(e, toks);
    var moved := toks[..n] + rest;
    if n == 1 {
      if ReadOption(e, toks[0], NextOf(toks)).took { ReadTookHasNext(e, toks[0], NextOf(toks)); }
      ReadIndependent(e, toks[0], NextOf(toks), NextOf(moved));
    } else {
      assert moved[1] == toks[1];
    }
  }

  lemma Unfold(e: Env, toks: seq<string>)
    requires toks != [] && IsOption(toks[0]) && Fine(FirstItems(e, toks))
    ensures var n := Width(e, toks);
        Grammar(e, toks) == [Options(toks[..n], FirstItems(e, toks))] + Grammar(e, toks[n..])
  {
    hide ReadOption, Fine;
  }

  /** Moving the operands of a command behind its options and a "--" changes nothing. */
  lemma Reordered(e: Env, st: Store, toks: seq<string>)
    requires !e.onlyGlobal && Meaning(e, st, toks).stop.None?
    ensures var moved := Sorted(Grammar(e, toks), OperandsOf(Grammar(e, toks)));
      && Meaning(e, st, moved) == Meaning(e, st, toks)
      && OperandsOf(Grammar(e, moved)) == OperandsOf(Grammar(e, toks))
      && Consumed(Grammar(e, moved)) == moved
  {
    SuccessIsFine(e.conv, ItemsOf(Grammar(e, toks)), st.(seen := st.seen - Ids(e.own)));
    var tail := OperandsOf(Grammar(e, toks));
    SortedGrammar(e, toks, tail);
    EveryTokenOnce(e, Sorted(Grammar(e, toks), tail));
  }

  // ----- the parser -----

  /** The arguments end at a NULL, or at the end of the array. */
  function Tokens(argv: seq<Option<string>>): (r: seq<string>)
    ensures |r| <= |argv|
  {
    if argv == [] || argv[0].None? then [] else [argv[0].value] + Tokens(argv[1..])
  }

  lemma ExecuteOne(c: Conversions, i: Item, st: Store)
    ensures Execute(c, [i], st) == Perform(c, i, st)
  {
    var r := Perform(c, i, st);
    assert Execute(c, [i][1..], r.store) == Ran(r.store, None);
  }

  /** What an option in front adds to the execution. */
  lemma ExecuteFront(e: Env, toks: seq<string>, st: Store)
    requires toks != [] && IsOption(toks[0])
    ensures var r := Execute(e.conv, FirstItems(e, toks), st);
      Execute(e.conv, ItemsOf(Grammar(e, toks)), st)
      == if r.stop.Some? then r else Execute(e.conv, ItemsOf(Grammar(e, toks[Width(e, toks)..])), r.store)
    ensures Execute(e.conv, FirstItems(e, toks), st).stop.None? ==>
      && OperandsOf(Grammar(e, toks)) == OperandsOf(Grammar(e, toks[Width(e, toks)..]))
      && |Consumed(Grammar(e, toks))| == Width(e, toks) + |Consumed(Grammar(e, toks[Width(e, toks)..]))|
  {
    hide ReadOption, Perform, Fine, Execute, ItemsOf, OperandsOf, OptionTokens, Consumed;
    var items, n := FirstItems(e, toks), Width(e, toks);
    if Fine(items) {
      Unfold(e, toks);
      Front(Options(toks[..n], items), Grammar(e, toks[n..]));
      ExecuteConcat(e.conv, items, ItemsOf(Grammar(e, toks[n..])), st);
    } else {
      if Execute(e.conv, items, st).stop.None? { SuccessIsFine(e.conv, items, st); }
      assert Grammar(e, toks) == [Options(toks[..1], items)] + [];
      Front(Options(toks[..1], items), []);
      NothingMore(items);
    }
  }

  lemma NothingMore(items: seq<Item>)
    ensures items + ItemsOf([]) == items
  {
  }

  class Parser {
    const e: Env
    const argv: seq<Option<string>>
    var ind: nat
    var operands: array<string>
    var nr: nat
    var st: Store

    constructor (e: Env, argv: seq<Option<string>>, st: Store)
      ensures this.e == e && this.argv == argv && this.st == st && nr == 0
      ensures fresh(operands) && operands.Length >= |argv|
    {
      this.e := e;
      this.argv := argv;
      this.st := st;
      ind := 0;
      nr := 0;
      operands := new string[if |argv| > 0 then |argv| else 1];
    }

    function Next(): (r: Option<string>)
      reads this
    {
      if ind + 1 >= |argv| then None else argv[ind + 1]
    }

    /** argconfig_next_arg */
    method NextArg() returns (r: Option<string>)
      modifies this`ind
      ensures r == old(Next()) && ind == (if old(ind) + 1 < |argv| then old(ind) + 1 else old(ind))
    {
      if ind + 1 >= |argv| {
        return None;
      }
      ind := ind + 1;
      r := argv[ind];
    }

    method Do(i: Item) returns (ret: Option<Code>)
      modifies this`st
      ensures Ran(st, ret) == Execute(e.conv, [i], old(st))
    {
      ExecuteOne(e.conv, i, st);
      var r := Perform(e.conv, i, st);
      st := r.store;
      ret := r.stop;
    }

    /** The switch over the argument type, and the use. */
    method UseOption(o: Opt, attached: Option<string>) returns (ret: Option<Code>)
      modifies this`ind, this`st
      ensures var r := WithValue(o, attached, old(Next()));
        Ran(st, ret) == Execute(e.conv, r.items, old(st)) && (ret.None? ==> ind == old(ind) + if r.took then 1 else 0)
    {
      hide Perform;
      var value := None;
      match o.argument {
        case NoArgument =>
          if attached.Some? {
            ret := Do(Bad(Usage));
            DoBad(e.conv, Usage, old(st));
            return;
          }
        case Required =>
          if attached.Some? {
            value := attached;
          } else {
            value := NextArg();
            if value.None? {
              ret := Do(Bad(Usage));
              DoBad(e.conv, Usage, old(st));
              return;
            }
          }
        case Optional =>
          value := attached;
      }
      ret := Do(Use(o, value));
    }

    method ParseLong(arg: string) returns (ret: Option<Code>)
      requires |arg| >= 2
      modifies this`ind, this`st
      ensures var r := ReadLong(e, arg, old(Next()));
        Ran(st, ret) == Execute(e.conv, r.items, old(st)) && (ret.None? ==> ind == old(ind) + if r.took then 1 else 0)
    {
      hide Execute, WithValue;
      var len := IndexOf(arg[2..], '=');
      var name := arg[2..][..len];
      var attached := if len < |arg[2..]| then Some(arg[2..][len + 1..]) else None;
      var s := LongAny(e, name);
      if s.None? {
        var help, version := name == "help", name == "version";
        if help && !e.onlyGlobal {
          ret := Do(Bad(ShowHelp));
        } else if !e.onlyGlobal || (!help && !version) || attached.Some? {
          ret := Do(Bad(Usage));
        } else {
          ret := Do(if help then AskHelp else AskVersion);
        }
        return;
      }
      ret := UseOption(s.value, attached);
    }

    method ParseShort(arg: string) returns (ret: Option<Code>)
      requires |arg| >= 1
      modifies this`ind, this`st
      ensures var r := ReadShort(e, arg[1..], old(Next()));
        Ran(st, ret) == Execute(e.conv, r.items, old(st)) && (ret.None? ==> ind == old(ind) + if r.took then 1 else 0)
    {
      hide Execute, WithValue, Perform;
      ghost var all := ReadShort(e, arg[1..], Next());
      var k := 1;
      while k < |arg|
        invariant 1 <= k <= |arg| && ind == old(ind)
        invariant var r := ReadShort(e, arg[k..], old(Next()));
          Execute(e.conv, r.items, st) == Execute(e.conv, all.items, old(st)) && r.took == all.took
      {
        assert arg[k..][0] == arg[k] && arg[k..][1..] == arg[k + 1..];
        if !e.onlyGlobal && (arg[k] == 'h' || arg[k] == '?') {
          ret := Do(Bad(ShowHelp));
          DoBad(e.conv, ShowHelp, old(st));
          return;
        }
        var s := ShortAny(e, arg[k]);
        ghost var rest := ReadShort(e, arg[k + 1..], old(Next())).items;
        if s.None? && e.onlyGlobal && (arg[k] == 'h' || arg[k] == 'V') {
          var i := if arg[k] == 'h' then AskHelp else AskVersion;
          ExecuteConcat(e.conv, [i], rest, st);
          FlagsGoOn(e.conv, i, st);
          ret := Do(i);
          k := k + 1;
          continue;
        }
        if s.None? {
          ret := Do(Bad(Usage));
          return;
        }
        if s.value.argument != NoArgument {
          ret := UseOption(s.value, if k + 1 < |arg| then Some(arg[k + 1..]) else None);
          return;
        }
        ExecuteConcat(e.conv, [Use(s.value, None)], rest, st);
        ret := Do(Use(s.value, None));
        if ret.Some? {
          return;
        }
        k := k + 1;
      }
      assert arg[k..] == "";
      NothingDone(e.conv, st);
      ret := None;
    }

    /** The whole command line: what the grammar says is done, and no operand is lost. */
    method ParseArgs() returns (ret: Option<Code>)
      requires nr == 0 && operands.Length >= |argv|
      modifies this`ind, this`nr, this`st, operands
      ensures var toks := Tokens(argv[if |argv| > 0 then 1 else 0..]);
        && Ran(st, ret) == Meaning(e, old(st), toks)
        && nr <= operands.Length
        && (ret.None? ==> operands[..nr] == OperandsOf(Grammar(e, toks)) && ind == 1 + |Consumed(Grammar(e, toks))|)
    {
      hide Whole, Rest, Tokens, Grammar, OperandsOf, Execute, Meaning, Consumed, Ids;
      ghost var whole := Whole(e, argv, 1, st.(seen := st.seen - Ids(e.own)), []);
      st := st.(seen := st.seen - Ids(e.own));
      RestStart(e, argv, old(st));
      ind := 1;
      assert operands[..nr] == [];
      while ind < |argv| && argv[ind].Some?
        invariant 1 <= ind && (ind <= |argv| || (ind == 1 && |argv| == 0))
        invariant nr < ind && nr <= operands.Length
        invariant Whole(e, argv, ind, st, operands[..nr]) == whole
        decreases |argv| - ind
      {
        var arg := argv[ind].value;
        if arg == "--" {
          DashDash(e, argv, ind, st, operands[..nr]);
          ind := ind + 1;
          if !e.onlyGlobal {
            TakeRest();
          }
          return None;
        }
        if |arg| < 2 || arg[0] != '-' {
          OperandNext(e, argv, ind, st, operands[..nr]);
          if e.onlyGlobal {
            return None;
          }
          AddOperand(arg);
          ind := ind + 1;
          continue;
        }
        ret := ParseOption(arg, operands[..nr]);
        if ret.Some? {
          return;
        }
        ind := ind + 1;
      }
      RestEnd(e, argv, ind, st, operands[..nr]);
      ret := None;
    }

    method AddOperand(arg: string)
      requires nr < operands.Length
      modifies this`nr, operands
      ensures nr == old(nr) + 1 && operands[..nr] == old(operands[..nr]) + [arg]
    {
      operands[nr] := arg;
      nr := nr + 1;
    }

    method ParseOption(arg: string, ghost ops: seq<string>) returns (ret: Option<Code>)
      requires ind < |argv| && argv[ind] == Some(arg) && IsOption(arg)
      modifies this`ind, this`st
      ensures ret.Some? ==> Ran(st, ret) == Whole(e, argv, old(ind), old(st), ops).0
      ensures ret.None? ==> old(ind) <= ind < |argv|
      ensures ret.None? ==> Whole(e, argv, ind + 1, st, ops) == Whole(e, argv, old(ind), old(st), ops)
    {
      hide Execute, Grammar, ItemsOf, OperandsOf, FirstItems, Width, Rest, ReadOption, ReadLong, ReadShort, Consumed;
      RestSkip(e, argv, ind);
      ExecuteFront(e, Rest(argv, ind), st);
      if arg[1] == '-' {
        ret := ParseLong(arg);
      } else {
        ret := ParseShort(arg);
      }
    }

    /** Everything behind "--" is an operand. */
    method TakeRest()
      requires ind <= |argv| <= operands.Length && nr < ind
      modifies this`ind, this`nr, operands
      ensures nr <= operands.Length && operands[..nr] == old(operands[..nr]) + Rest(argv, old(ind))
      ensures ind == old(ind) + |Rest(argv, old(ind))|
    {
      hide Rest, Tokens;
      while ind < |argv| && argv[ind].Some?
        invariant ind <= |argv| && nr < ind && nr <= operands.Length
        invariant operands[..nr] + Rest(argv, ind) == old(operands[..nr]) + Rest(argv, old(ind))
        invariant ind + |Rest(argv, ind)| == old(ind) + |Rest(argv, old(ind))|
        decreases |argv| - ind
      {
        RestStep(argv, ind);
        operands[nr] := argv[ind].value;
        assert operands[..nr + 1] == operands[..nr] + [argv[ind].value];
        nr := nr + 1;
        ind := ind + 1;
      }
      RestNone(argv, ind);
    }
  }

  /** The end of argconfig_parse(): no memory, the help or a usage error, or the operands. */
  datatype Command = NoMemory | Refused(code: Code) | Ready(operands: seq<string>)

  /** argconfig_parse(): the operands are those of a parse that succeeded, and only of one. */
  method ParseCommand(e: Env, argv: seq<Option<string>>, st: Store, allocOk: bool) returns (r: Command, after: Store)
    ensures !allocOk ==> r == NoMemory && after == st
    ensures allocOk ==>
      var toks := Tokens(argv[if |argv| > 0 then 1 else 0..]);
      var m := Meaning(e, st, toks);
      after == m.store && r == if m.stop.Some? then Refused(m.stop.value) else Ready(OperandsOf(Grammar(e, toks)))
    ensures r.Ready? ==>
      var items := ItemsOf(Grammar(e, Tokens(argv[if |argv| > 0 then 1 else 0..])));
      var start := st.(seen := st.seen - Ids(e.own));
      FlagsOf(items, start, after) && forall x :: HoldsLast(e.conv, items, start, after, x)
  {
    hide Meaning, Grammar, OperandsOf, Tokens, ItemsOf, FlagsOf, HoldsLast, Ids;
    if !allocOk {
      return NoMemory, st;
    }
    var p := new Parser(e, argv, st);
    var ret := p.ParseArgs();
    after := p.st;
    r := if ret.Some? then Refused(ret.value) else Ready(p.operands[..p.nr]);
    if ret.None? { ParseStores(e, st, Tokens(argv[if |argv| > 0 then 1 else 0..])); }
  }

  lemma DoBad(c: Conversions, code: Code, st: Store)
    ensures Execute(c, [Bad(code)], st) == Ran(st, Some(code))
  {
  }

  lemma NothingDone(c: Conversions, st: Store)
    ensures Execute(c, [], st) == Ran(st, None)
  {
  }

  lemma FlagsGoOn(c: Conversions, i: Item, st: Store)
    requires i.AskHelp? || i.AskVersion?
    ensures Execute(c, [i], st).stop.None?
  {
    ExecuteOne(c, i, st);
  }

  ghost function Rest(argv: seq<Option<string>>, i: nat): (r: seq<string>)
  {
    if i <= |argv| then Tokens(argv[i..]) else []
  }

  lemma RestStep(argv: seq<Option<string>>, i: nat)
    requires i < |argv| && argv[i].Some?
    ensures Rest(argv, i) == [argv[i].value] + Rest(argv, i + 1)
    ensures Rest(argv, i)[1..] == Rest(argv, i + 1)
    ensures NextOf(Rest(argv, i)) == if i + 1 >= |argv| then None else argv[i + 1]
  {
    assert argv[i..][1..] == argv[i + 1..];
  }

  /** What the arguments from i on do, all the operands, and where the parse stops, when `ops` are the
      operands before i. */
  ghost function Whole(e: Env, argv: seq<Option<string>>, i: nat, st: Store,
      ops: seq<string>): (r: (Ran, seq<string>, nat))
  {
    var g := Grammar(e, Rest(argv, i));
    (Execute(e.conv, ItemsOf(g), st), ops + OperandsOf(g), i + |Consumed(g)|)
  }

  lemma RestStart(e: Env, argv: seq<Option<string>>, st: Store)
    ensures var toks := Tokens(argv[if |argv| > 0 then 1 else 0..]);
      Whole(e, argv, 1, st.(seen := st.seen - Ids(e.own)), [])
        == (Meaning(e, st, toks), OperandsOf(Grammar(e, toks)), 1 + |Consumed(Grammar(e, toks))|)
  {
    hide Execute, Grammar, ItemsOf, OperandsOf, Consumed;
    var ops := OperandsOf(Grammar(e, Rest(argv, 1)));
    assert [] + ops == ops;
  }

  lemma RestNone(argv: seq<Option<string>>, i: nat)
    requires i >= |argv| || argv[i].None?
    ensures Rest(argv, i) == []
  {
  }

  lemma RestEnd(e: Env, argv: seq<Option<string>>, i: nat, st: Store, ops: seq<string>)
    requires i >= |argv| || argv[i].None?
    ensures Whole(e, argv, i, st, ops) == (Ran(st, None), ops, i)
  {
    assert ops + [] == ops;
  }

  /** The option at i reads what the parser reads, and the parser goes on behind it. */
  lemma RestSkip(e: Env, argv: seq<Option<string>>, i: nat)
    requires i < |argv| && argv[i].Some? && IsOption(argv[i].value)
    ensures var toks, arg := Rest(argv, i), argv[i].value; var next := if i + 1 >= |argv| then None else argv[i + 1];
      var r := ReadOption(e, arg, next);
      && toks != [] && toks[0] == arg && FirstItems(e, toks) == r.items
      && r == (if arg[1] == '-' then ReadLong(e, arg, next) else ReadShort(e, arg[1..], next))
      && toks[Width(e, toks)..] == Rest(argv, i + if r.took then 2 else 1)
      && Width(e, toks) == (if r.took then 2 else 1)
      && (r.took ==> i + 1 < |argv|)
  {
    hide ReadLong, ReadShort;
    RestStep(argv, i);
    var next := if i + 1 >= |argv| then None else argv[i + 1];
    if ReadOption(e, argv[i].value, next).took {
      ReadTookHasNext(e, argv[i].value, next);
      RestStep(argv, i + 1);
    }
  }

  lemma EndInFront(e: Env, toks: seq<string>)
    requires toks != [] && toks[0] == "--"
    ensures var g, rest := Grammar(e, toks), if e.onlyGlobal then [] else toks[1..];
      ItemsOf(g) == [] && OperandsOf(g) == rest && |Consumed(g)| == 1 + |rest|
  {
    var rest := if e.onlyGlobal then [] else Operands(toks[1..]);
    OperandSegments(toks[1..]);
    Front(EndOfOptions, rest);
    assert Grammar(e, toks) == [EndOfOptions] + rest;
  }

  lemma OperandStops(e: Env, toks: seq<string>)
    requires e.onlyGlobal && toks != [] && toks[0] != "--" && !IsOption(toks[0])
    ensures var g := Grammar(e, toks); ItemsOf(g) == [] && OperandsOf(g) == [] && Consumed(g) == []
  {
    assert Grammar(e, toks) == [];
  }

  lemma OperandCounts(e: Env, toks: seq<string>)
    requires !e.onlyGlobal && toks != [] && toks[0] != "--" && !IsOption(toks[0])
    ensures var g, rest := Grammar(e, toks), Grammar(e, toks[1..]);
      && ItemsOf(g) == ItemsOf(rest) && OperandsOf(g) == [toks[0]] + OperandsOf(rest)
      && |Consumed(g)| == 1 + |Consumed(rest)|
  {
    OperandInFront(e, toks);
    hide Grammar;
    Front(Operand(toks[0]), Grammar(e, toks[1..]));
  }

  lemma DashDash(e: Env, argv: seq<Option<string>>, i: nat, st: Store, ops: seq<string>)
    requires i < |argv| && argv[i] == Some("--")
    ensures var rest := if e.onlyGlobal then [] else Rest(argv, i + 1);
      Whole(e, argv, i, st, ops) == (Ran(st, None), ops + rest, i + 1 + |rest|)
    ensures ops + [] == ops
  {
    hide Rest, Grammar, ItemsOf, OperandsOf, Consumed, Execute;
    RestStep(argv, i);
    EndInFront(e, Rest(argv, i));
    NothingDone(e.conv, st);
  }

  lemma OperandNext(e: Env, argv: seq<Option<string>>, i: nat, st: Store, ops: seq<string>)
    requires i < |argv| && argv[i].Some? && argv[i].value != "--" && !IsOption(argv[i].value)
    ensures e.onlyGlobal ==> Whole(e, argv, i, st, ops) == (Ran(st, None), ops, i)
    ensures !e.onlyGlobal ==> Whole(e, argv, i, st, ops) == Whole(e, argv, i + 1, st, ops + [argv[i].value])
  {
    hide Rest, Grammar, ItemsOf, OperandsOf, Consumed, Execute, IsOption;
    RestStep(argv, i);
    var toks := Rest(argv, i);
    if e.onlyGlobal {
      OperandStops(e, toks);
      NothingDone(e.conv, st);
      assert ops + [] == ops;
    } else {
      OperandCounts(e, toks);
      var rest := OperandsOf(Grammar(e, toks[1..]));
      assert ops + ([toks[0]] + rest) == ops + [toks[0]] + rest;
    }
  }
}
