/**
 INI files (shared/ini-util.c).  The parser works in place: it writes terminators into the text
 and hands out pointers, which the caller keeps after the parse.
 */
module Ini {
  import opened Wrappers
  import opened Strings
  import opened CStrings

  datatype Setting = Setting(key: string, value: string)

  datatype Event =
    | Section(name: string, line: nat)
    | KeyValue(section: Option<string>, setting: Setting, line: nat)
    | Junk(section: Option<string>, text: string, line: nat)

  // ----- the meaning of a text -----

  /** One trimmed line: its event, if it has one, and the section behind it. */
  function LineEvents(t: string, section: Option<string>, line: nat): (r: (seq<Event>, Option<string>))
  {
    if t == "" || t[0] == '#' then ([], section)
    else if t[0] == '[' then
      var k := IndexOf(t, ']');
      if k == |t| || Blank(t[1..k]) || !Blank(t[k + 1..]) then ([Junk(None, t, line)], None)
      else ([Section(Trim(t[1..k]), line)], Some(Trim(t[1..k])))
    else
      var k := IndexOf(t, '=');
      if k == |t| || k == 0 then ([Junk(section, t, line)], section)
      else ([KeyValue(section, Setting(Trim(t[..k]), Trim(t[k + 1..])), line)], section)
  }

  function Events(lines: seq<string>, section: Option<string>, line: nat): (r: seq<Event>)
    decreases |lines|
  {
    if lines == [] then []
    else
      var e := LineEvents(Trim(lines[0]), section, line);
      e.0 + Events(lines[1..], e.1, line + 1)
  }

  function Parsed(text: string): (r: seq<Event>)
  {
    Events(Split(text, '\n'), None, 1)
  }

  // ----- printing -----

  datatype Item = Head(name: string) | Pair(key: string, value: string)

  function LineOf(i: Item): (s: string)
  {
    match i
    case Head(n) => "[" + n + "]"
    case Pair(k, v) => k + " = " + v
  }

  function Lines(items: seq<Item>): (r: seq<string>)
    ensures |r| == |items| + 1
  {
    if items == [] then [""] else [LineOf(items[0])] + Lines(items[1..])
  }

  /** One line for every item, each with a newline. */
  function Print(items: seq<Item>): (s: string)
  {
    Join(Lines(items), '\n')
  }

  predicate Tidy(s: string)
  {
    s != "" ==> !IsSpace(s[0]) && !IsSpace(s[|s| - 1])
  }

  predicate WellFormed(i: Item)
  {
    match i
    case Head(n) => n != "" && Tidy(n) && ']' !in n && '\n' !in n
    case Pair(k, v) =>
      && k != "" && Tidy(k) && k[0] != '#' && k[0] != '[' && '=' !in k && '\n' !in k
      && Tidy(v) && '\n' !in v
  }

  function Expected(items: seq<Item>, section: Option<string>, line: nat): (r: seq<Event>)
    decreases |items|
  {
    if items == [] then []
    else match items[0]
      case Head(n) => [Section(n, line)] + Expected(items[1..], Some(n), line + 1)
      case Pair(k, v) => [KeyValue(section, Setting(k, v), line)] + Expected(items[1..], section, line + 1)
  }

  lemma HeadEvent(n: string, section: Option<string>, line: nat)
    requires WellFormed(Head(n))
    ensures LineEvents(Trim(LineOf(Head(n))), section, line) == ([Section(n, line)], Some(n))
  {
    var t := "[" + n + "]";
    TrimNothing(t);
    assert t[..1 + |n|] == "[" + n;
    IndexIs(t, ']', 1 + |n|);
    assert t[1..1 + |n|] == n && t[2 + |n|..] == "";
    TrimNothing(n);
    assert !Blank(n) by { assert !IsSpace(n[0]); }
  }

  lemma PairEvent(k: string, v: string, section: Option<string>, line: nat)
    requires WellFormed(Pair(k, v))
    ensures LineEvents(Trim(LineOf(Pair(k, v))), section, line) == ([KeyValue(section, Setting(k, v), line)], section)
  {
    hide Trim, IndexOf, LineOf;
    TrimmedPair(k, v);
    PairParts(k, v);
  }

  lemma PairParts(k: string, v: string)
    requires WellFormed(Pair(k, v))
    ensures var t := if v == "" then k + " =" else k + " = " + v;
      IndexOf(t, '=') == |k| + 1 && Trim(t[..|k| + 1]) == k && Trim(t[|k| + 2..]) == v && t[0] == k[0]
  {
    hide Trim, IndexOf;
    var t := if v == "" then k + " =" else k + " = " + v;
    assert t[..|k| + 1] == k + " " && t[|k| + 1] == '=';
    IndexIs(t, '=', |k| + 1);
    assert "" + k + " " == k + " ";
    TrimBoth("", k, " ");
    ValuePart(k, v);
  }

  lemma ValuePart(k: string, v: string)
    requires Tidy(v)
    ensures var t := if v == "" then k + " =" else k + " = " + v; Trim(t[|k| + 2..]) == v
  {
    var t := if v == "" then k + " =" else k + " = " + v;
    if v == "" {
      assert t[|k| + 2..] == "";
      TrimNothing("");
    } else {
      assert t[|k| + 2..] == " " + v + "";
      TrimBoth(" ", v, "");
    }
  }

  lemma TrimmedPair(k: string, v: string)
    requires WellFormed(Pair(k, v))
    ensures Trim(LineOf(Pair(k, v))) == if v == "" then k + " =" else k + " = " + v
  {
    if v == "" {
      assert k + " = " + v == "" + (k + " =") + " ";
      TrimBoth("", k + " =", " ");
    } else {
      TrimNothing(k + " = " + v);
    }
  }

  lemma {:induction false} PrintedEvents(items: seq<Item>, section: Option<string>, line: nat)
    requires forall i :: 0 <= i < |items| ==> WellFormed(items[i])
    ensures Events(Lines(items), section, line) == Expected(items, section, line)
    decreases |items|
  {
    hide LineEvents, LineOf;
    if items == [] {
      NoLine(section, line);
    } else {
      assert Lines(items)[1..] == Lines(items[1..]);
      match items[0] {
        case Head(n) =>
          HeadEvent(n, section, line);
          PrintedEvents(items[1..], Some(n), line + 1);
        case Pair(k, v) =>
          PairEvent(k, v, section, line);
          PrintedEvents(items[1..], section, line + 1);
      }
    }
  }

  lemma NoLine(section: Option<string>, line: nat)
    ensures Events([""], section, line) == []
  {
    TrimNothing("");
    assert [""][1..] == [];
  }

  lemma {:induction false} NoNewlines(items: seq<Item>)
    requires forall i :: 0 <= i < |items| ==> WellFormed(items[i])
    ensures forall i :: 0 <= i < |Lines(items)| ==> '\n' !in Lines(items)[i]
  {
    if items != [] {
      NoNewlines(items[1..]);
      assert WellFormed(items[0]);
    }
  }

  /** What was printed is what the parser reports. */
  lemma RoundTrip(items: seq<Item>)
    requires forall i :: 0 <= i < |items| ==> WellFormed(items[i])
    ensures Parsed(Print(items)) == Expected(items, None, 1)
  {
    NoNewlines(items);
    SplitJoin(Lines(items), '\n');
    PrintedEvents(items, None, 1);
  }

  // ----- the text in memory -----

  /** An event with pointers instead of strings. */
  datatype Report =
    | SectionAt(name: nat, line: nat)
    | KeyValueAt(section: Option<nat>, key: nat, value: nat, line: nat)
    | JunkAt(section: Option<nat>, text: nat, line: nat)

  predicate SectionHolds(b: seq<char>, p: Option<nat>, s: Option<string>)
  {
    p.Some? == s.Some? && (p.Some? ==> Holds(b, p.value, s.value))
  }

  /** The strings at the pointers are those of the event. */
  predicate Reports(b: seq<char>, r: Report, e: Event)
  {
    match e
    case Section(n, l) => r.SectionAt? && r.line == l && Holds(b, r.name, n)
    case KeyValue(s, kv, l) =>
      && r.KeyValueAt? && r.line == l && SectionHolds(b, r.section, s)
      && Holds(b, r.key, kv.key) && Holds(b, r.value, kv.value)
    case Junk(s, t, l) => r.JunkAt? && r.line == l && SectionHolds(b, r.section, s) && Holds(b, r.text, t)
  }

  /** The event at the pointers of a report. */
  method ReadReport(buf: array<char>, r: Report, ghost e: Event) returns (o: Event)
    requires Reports(buf[..], r, e)
    ensures o == e
  {
    hide Holds;
    match r {
      case SectionAt(p, l) =>
        var n := ReadString(buf, p, e.name);
        o := Section(n, l);
      case KeyValueAt(s, p, q, l) =>
        var sec := ReadSection(buf, s, e.section);
        var k := ReadString(buf, p, e.setting.key);
        var v := ReadString(buf, q, e.setting.value);
        o := KeyValue(sec, Setting(k, v), l);
      case JunkAt(s, p, l) =>
        var sec := ReadSection(buf, s, e.section);
        var t := ReadString(buf, p, e.text);
        o := Junk(sec, t, l);
    }
  }

  method ReadSection(buf: array<char>, p: Option<nat>, ghost s: Option<string>) returns (r: Option<string>)
    requires SectionHolds(buf[..], p, s)
    ensures r == s
  {
    if p.None? {
      return None;
    }
    var t := ReadString(buf, p.value, s.value);
    r := Some(t);
  }

  /** All the events at the pointers. */
  method ReadReports(buf: array<char>, reports: seq<Report>, ghost events: seq<Event>) returns (r: seq<Event>)
    requires |reports| == |events| && forall k :: 0 <= k < |reports| ==> Reports(buf[..], reports[k], events[k])
    ensures r == events
  {
    hide Reports;
    r := [];
    for i := 0 to |reports|
      invariant r == events[..i]
    {
      var e := ReadReport(buf, reports[i], events[i]);
      r := r + [e];
    }
  }

  class Parser {
    const buf: array<char>

    constructor (text: string)
      requires '\0' !in text
      ensures fresh(buf) && buf[..] == text + ['\0']
    {
      buf := new char[|text| + 1](i requires 0 <= i <= |text| => if i < |text| then text[i] else '\0');
    }

    method IniLine(s: nat, ghost t: string, section: Option<nat>, ghost sec: Option<string>, line: nat)
      returns (rep: Option<Report>, after: Option<nat>)
      requires Holds(buf[..], s, t) && Tidy(t) && SectionHolds(buf[..s], section, sec)
      modifies buf
      ensures buf[..s] == old(buf[..s]) && buf[s + |t| + 1..] == old(buf[s + |t| + 1..])
      ensures var e := LineEvents(t, sec, line);
        && rep.Some? == (|e.0| == 1)
        && (rep.Some? ==> Reports(buf[..s + |t| + 1], rep.value, e.0[0]))
        && SectionHolds(buf[..s + |t| + 1], after, e.1)
    {
      hide Holds, Trim, IndexOf, Blank;
      InBuffer(buf[..], s, t);
      SectionMore(buf[..], section, sec, s, s + |t| + 1);
      HoldsIn(buf[..], s, t, s + |t| + 1);
      CharAt(buf[..], s, t, 0);
      if buf[s] == '\0' || buf[s] == '#' {
        return None, section;
      }
      if buf[s] == '[' {
        rep, after := SectionLine(s, t, line);
        return;
      }
      var k := FindChar(buf, s, t, '=');
      if buf[s + k] != '=' || k == 0 {
        return Some(JunkAt(section, s, line)), section;
      }
      rep, after := KeyLine(s, t, k, section, sec, line);
    }

    method SectionLine(s: nat, ghost t: string, line: nat) returns (rep: Option<Report>, after: Option<nat>)
      requires Holds(buf[..], s, t) && Tidy(t) && t != "" && t[0] == '['
      modifies buf
      ensures buf[..s] == old(buf[..s]) && buf[s + |t| + 1..] == old(buf[s + |t| + 1..])
      ensures var e := LineEvents(t, None, line);
        rep.Some? && Reports(buf[..s + |t| + 1], rep.value, e.0[0]) && SectionHolds(buf[..s + |t| + 1], after, e.1)
    {
      hide Holds, Trim, TrimRight, IndexOf, Blank;
      InBuffer(buf[..], s, t);
      HoldsIn(buf[..], s, t, s + |t| + 1);
      var k := FindChar(buf, s, t, ']');
      if buf[s + k] != ']' {
        return Some(JunkAt(None, s, line)), None;
      }
      var bad := BadSection(s, t, k);
      if bad {
        return Some(JunkAt(None, s, line)), None;
      }
      var q := SectionName(s, t, k);
      return Some(SectionAt(q, line)), Some(q);
    }

    /** The name is blank, or something follows the bracket; the trims change nothing. */
    method BadSection(s: nat, ghost t: string, k: nat) returns (bad: bool)
      requires Holds(buf[..], s, t) && Tidy(t) && 1 <= k < |t| && t[k] == ']'
      modifies buf
      ensures buf[..] == old(buf[..]) && bad == (Blank(t[1..k]) || !Blank(t[k + 1..]))
    {
      hide Holds, Trim, TrimRight, Blank;
      SameBuffer(buf[..], s, t);
      HoldsTail(buf[..], s, t, 1);
      NothingRight(t, 1);
      BlankName(t, k);
      var q := TrimAt(buf, s + 1, t[1..]);
      if q == s + k {
        return true;
      }
      HoldsTail(buf[..], s, t, k + 1);
      NothingRight(t, k + 1);
      BlankRest(t, k + 1);
      q := TrimAt(buf, s + k + 1, t[k + 1..]);
      CharAt(buf[..], q, Trim(t[k + 1..]), 0);
      bad := buf[q] != '\0';
    }

    method SectionName(s: nat, ghost t: string, k: nat) returns (q: nat)
      requires Holds(buf[..], s, t) && 1 <= k < |t|
      modifies buf
      ensures buf[..s] == old(buf[..s]) && buf[s + |t| + 1..] == old(buf[s + |t| + 1..])
      ensures Holds(buf[..s + |t| + 1], q, Trim(t[1..k]))
    {
      hide Holds, Trim, TrimRight;
      InBuffer(buf[..], s, t);
      HoldsTail(buf[..], s, t, 1);
      HoldsCut(buf[..], s + 1, t[1..], k - 1);
      assert t[1..][..k - 1] == t[1..k];
      buf[s + k] := '\0';
      q := TrimAt(buf, s + 1, t[1..k]);
      HoldsIn(buf[..], q, Trim(t[1..k]), s + |t| + 1);
    }

    method KeyLine(s: nat, ghost t: string, k: nat, section: Option<nat>, ghost sec: Option<string>, line: nat)
      returns (rep: Option<Report>, after: Option<nat>)
      requires Holds(buf[..], s, t) && 0 < k < |t| && SectionHolds(buf[..s], section, sec)
      modifies buf
      ensures buf[..s] == old(buf[..s]) && buf[s + |t| + 1..] == old(buf[s + |t| + 1..])
      ensures rep.Some?
      ensures Reports(buf[..s + |t| + 1], rep.value, KeyValue(sec, Setting(Trim(t[..k]), Trim(t[k + 1..])), line))
      ensures SectionHolds(buf[..s + |t| + 1], after, sec)
    {
      hide Holds, Trim, TrimRight, SectionHolds;
      InBuffer(buf[..], s, t);
      var key, value := KeyAndValue(s, t, k);
      SectionMore(buf[..], section, sec, s, s + |t| + 1);
      return Some(KeyValueAt(section, key, value, line)), section;
    }

    method KeyAndValue(s: nat, ghost t: string, k: nat) returns (key: nat, value: nat)
      requires Holds(buf[..], s, t) && 0 < k < |t|
      modifies buf
      ensures buf[..s] == old(buf[..s]) && buf[s + |t| + 1..] == old(buf[s + |t| + 1..])
      ensures s + |t| < buf.Length && Holds(buf[..s + |t| + 1], key, Trim(t[..k]))
      ensures Holds(buf[..s + |t| + 1], value, Trim(t[k + 1..]))
    {
      hide Holds, Trim, TrimRight;
      InBuffer(buf[..], s, t);
      HoldsCut(buf[..], s, t, k);
      HoldsTail(buf[..], s, t, k + 1);
      CutKeepsTail(buf[..], s + k, s + k + 1, t[k + 1..]);
      buf[s + k] := '\0';
      ghost var b1 := buf[..];
      key := TrimAt(buf, s, t[..k]);
      CutKeepsTail(b1, s + |TrimRight(t[..k])|, s + k + 1, t[k + 1..]);
      ghost var b2 := buf[..];
      value := TrimAt(buf, s + k + 1, t[k + 1..]);
      HoldsStill(b2, buf[..], key, Trim(t[..k]), s + k + 1);
      HoldsIn(buf[..], key, Trim(t[..k]), s + |t| + 1);
      HoldsIn(buf[..], value, Trim(t[k + 1..]), s + |t| + 1);
    }

    /** parse_lines with a callback that returns an error at event number `stop`: all the strings
        handed out are still there at the end, and say what the text says. */
    method ParseLines(ghost text: string, stop: Option<nat>) returns (reports: seq<Report>, failed: bool)
      requires buf[..] == text + ['\0'] && '\0' !in text
      modifies buf
      ensures |reports| <= |Parsed(text)| && (!failed ==> |reports| == |Parsed(text)|)
      ensures failed <==> stop.Some? && stop.value < |Parsed(text)|
      ensures failed ==> |reports| == stop.value + 1
      ensures forall i :: 0 <= i < |reports| ==> Reports(buf[..], reports[i], Parsed(text)[i])
    {
      hide Holds, Reports, SectionHolds, LineEvents, Events, Split, IndexOf, Trim, AllReport;
      var section: Option<nat>, line, p, more := None, 0, 0, true;
      ghost var sec: Option<string>, rest, done: seq<Event> := None, text, [];
      reports := [];
      Start(buf[..]);
      while more
        invariant p <= buf.Length && SectionHolds(buf[..p], section, sec) && AllReport(buf[..p], reports, done)
        invariant more ==> '\0' !in rest && buf[p..] == rest + ['\0']
        invariant more ==> done + Events(Split(rest, '\n'), sec, line + 1) == Parsed(text)
        invariant !more ==> p == buf.Length && done == Parsed(text)
        invariant stop.Some? ==> |reports| <= stop.value
        decreases if more then |rest| + 1 else 0
      {
        ghost var k := IndexOf(rest, '\n');
        ghost var e := LineEvents(Trim(rest[..k]), sec, line + 1);
        ghost var later := if k < |rest| then Events(Split(rest[k + 1..], '\n'), e.1, line + 2) else [];
        EventsStep(rest, sec, line + 1);
        line := line + 1;
        var rep, n;
        rep, section, n, more := OneLine(p, rest, section, sec, line);
        AddReport(buf[..], p, n, reports, rep, done, e.0);
        reports := reports + if rep.Some? then [rep.value] else [];
        Associative(done, e.0, later);
        p, sec, done, rest := n, e.1, done + e.0, if more then rest[k + 1..] else rest;
        if rep.Some? && stop == Some(|reports| - 1) {
          AllOfBuffer(buf[..], reports, done, p);
          Prefix(done, later, Parsed(text));
          return reports, true;
        }
      }
      AllOfBuffer(buf[..], reports, done, p);
      failed := false;
    }

    /** One line of the text: from p to the next newline, or to the end. */
    method OneLine(p: nat, ghost rest: string, section: Option<nat>, ghost sec: Option<string>, line: nat)
      returns (rep: Option<Report>, after: Option<nat>, n: nat, more: bool)
      requires p <= buf.Length && '\0' !in rest && buf[p..] == rest + ['\0'] && SectionHolds(buf[..p], section, sec)
      modifies buf
      ensures p <= n <= buf.Length && buf[..p] == old(buf[..p])
      ensures var k := IndexOf(rest, '\n'); var e := LineEvents(Trim(rest[..k]), sec, line);
        && more == (k < |rest|) && n == p + k + 1
        && (more ==> buf[n..] == rest[k + 1..] + ['\0'])
        && (rep.Some? ==> |e.0| == 1 && Reports(buf[..n], rep.value, e.0[0])) && (rep.None? ==> e.0 == [])
        && SectionHolds(buf[..n], after, e.1)
    {
      hide Holds, Reports, SectionHolds, LineEvents, IndexOf, Trim;
      var q;
      q, n, more := CutLine(p, rest);
      ghost var t := Trim(rest[..IndexOf(rest, '\n')]);
      ghost var cut := buf[..];
      Trimmed(rest[..IndexOf(rest, '\n')]);
      SectionMore(buf[..], section, sec, p, q);
      InBuffer(buf[..], q, t);
      rep, after := IniLine(q, t, section, sec, line);
      FrameOfLine(old(buf[..]), cut, buf[..], p, q, q + |t| + 1, n);
      MoreOfLine(buf[..], rep, after, LineEvents(t, sec, line), q + |t| + 1, n);
      OneOrNone(t, sec, line);
    }

    /** The newline becomes a terminator, and the line is trimmed. */
    method CutLine(p: nat, ghost rest: string) returns (q: nat, n: nat, more: bool)
      requires p <= buf.Length && '\0' !in rest && buf[p..] == rest + ['\0']
      modifies buf
      ensures p <= q && buf[..p] == old(buf[..p])
      ensures var k := IndexOf(rest, '\n'); var t := Trim(rest[..k]);
        && more == (k < |rest|) && n == p + k + 1 <= buf.Length && q + |t| + 1 <= n
        && (more ==> buf[n..] == rest[k + 1..] + ['\0']) && Holds(buf[..], q, t)
    {
      hide Holds, IndexOf, Trim, TrimRight;
      RestHolds(buf[..], p, rest);
      InBuffer(buf[..], p, rest);
      var k := FindChar(buf, p, rest, '\n');
      n := p + k + 1;
      more := buf[p + k] == '\n';
      HoldsCut(buf[..], p, rest, k);
      if more {
        assert buf[n..] == buf[p..][k + 1..];
        buf[p + k] := '\0';
      } else {
        CharAt(buf[..], p, rest, k);
        SameBuffer(buf[..], p, rest);
      }
      ghost var cut := buf[..];
      q := TrimAt(buf, p, rest[..k]);
      assert buf[..p] == cut[..p] && buf[n..] == cut[n..];
    }
  }

  lemma FrameOfLine(a: seq<char>, c: seq<char>, d: seq<char>, p: nat, q: nat, m: nat, n: nat)
    requires p <= q <= m <= n <= |a| == |c| == |d|
    requires c[..p] == a[..p] && d[..q] == c[..q] && d[m..] == c[m..]
    ensures d[..p] == a[..p] && d[n..] == c[n..]
  {
    assert d[..p] == d[..q][..p] && c[..p] == c[..q][..p];
    assert d[n..] == d[m..][n - m..] && c[n..] == c[m..][n - m..];
  }

  lemma MoreOfLine(b: seq<char>, rep: Option<Report>, after: Option<nat>, e: (seq<Event>, Option<string>), m: nat,
      n: nat)
    requires m <= n <= |b| && rep.Some? == (|e.0| == 1) && (rep.Some? ==> Reports(b[..m], rep.value, e.0[0]))
    requires SectionHolds(b[..m], after, e.1)
    ensures (rep.Some? ==> Reports(b[..n], rep.value, e.0[0])) && SectionHolds(b[..n], after, e.1)
  {
    hide Reports, SectionHolds;
    SectionMore(b, after, e.1, m, n);
    if rep.Some? { ReportsMore(b, rep.value, e.0[0], m, n); }
  }

  lemma OneOrNone(t: string, sec: Option<string>, line: nat)
    ensures |LineEvents(t, sec, line).0| <= 1
  {
  }

  predicate AllReport(b: seq<char>, reports: seq<Report>, done: seq<Event>)
  {
    |reports| == |done| && forall i :: 0 <= i < |reports| ==> Reports(b, reports[i], done[i])
  }

  /** The reports so far and the new one, in a buffer that has not changed up to p. */
  lemma AddReport(b: seq<char>, p: nat, n: nat, earlier: seq<Report>, rep: Option<Report>, done: seq<Event>,
      more: seq<Event>)
    requires p <= n <= |b| && AllReport(b[..p], earlier, done)
    requires if rep.Some? then |more| == 1 && Reports(b[..n], rep.value, more[0]) else more == []
    ensures AllReport(b[..n], earlier + (if rep.Some? then [rep.value] else []), done + more)
  {
    hide Reports;
    forall i | 0 <= i < |earlier| ensures Reports(b[..n], earlier[i], done[i]) {
      ReportsMore(b, earlier[i], done[i], p, n);
    }
  }

  lemma AllOfBuffer(b: seq<char>, reports: seq<Report>, done: seq<Event>, p: nat)
    requires p <= |b| && AllReport(b[..p], reports, done)
    ensures |reports| == |done| && forall i :: 0 <= i < |reports| ==> Reports(b, reports[i], done[i])
  {
    hide Reports;
    assert b[..|b|] == b;
    forall i | 0 <= i < |reports| ensures Reports(b, reports[i], done[i]) {
      ReportsMore(b, reports[i], done[i], p, |b|);
    }
  }

  lemma Associative(a: seq<Event>, b: seq<Event>, c: seq<Event>)
    ensures a + (b + c) == a + b + c && a + b + [] == a + b
  {
  }

  lemma Prefix(a: seq<Event>, b: seq<Event>, c: seq<Event>)
    requires a + b == c
    ensures |a| <= |c| && forall i :: 0 <= i < |a| ==> a[i] == c[i]
  {
  }

  lemma EventsStep(rest: string, sec: Option<string>, line: nat)
    ensures var k := IndexOf(rest, '\n'); var e := LineEvents(Trim(rest[..k]), sec, line);
      Events(Split(rest, '\n'), sec, line)
        == e.0 + if k < |rest| then Events(Split(rest[k + 1..], '\n'), e.1, line + 1) else []
  {
    hide LineEvents, Trim, IndexOf, Split;
    SplitAt(rest, '\n');
    var k := IndexOf(rest, '\n');
    if k == |rest| {
      assert rest[..k] == rest;
      assert [rest][1..] == [];
    } else {
      var later := Split(rest[k + 1..], '\n');
      assert ([rest[..k]] + later)[1..] == later;
    }
  }

  lemma Start(b: seq<char>)
    ensures SectionHolds(b[..0], None, None) && b[0..] == b && AllReport(b[..0], [], [])
  {
  }

  lemma SectionMore(b: seq<char>, p: Option<nat>, s: Option<string>, n: nat, m: nat)
    requires n <= m <= |b| && SectionHolds(b[..n], p, s)
    ensures SectionHolds(b[..m], p, s)
  {
    if p.Some? {
      var t := s.value;
      assert b[..m][p.value..p.value + |t|] == b[..n][p.value..p.value + |t|];
    }
  }

  lemma ReportsMore(b: seq<char>, r: Report, e: Event, n: nat, m: nat)
    requires n <= m <= |b| && Reports(b[..n], r, e)
    ensures Reports(b[..m], r, e)
  {
    hide Holds;
    match e {
      case Section(name, l) =>
        SectionMore(b, Some(r.name), Some(name), n, m);
      case KeyValue(s, kv, l) =>
        SectionMore(b, r.section, s, n, m);
        SectionMore(b, Some(r.key), Some(kv.key), n, m);
        SectionMore(b, Some(r.value), Some(kv.value), n, m);
      case Junk(s, t, l) =>
        SectionMore(b, r.section, s, n, m);
        SectionMore(b, Some(r.text), Some(t), n, m);
    }
  }

  /** A tidy string has nothing to cut off at its end. */
  lemma NothingRight(t: string, k: nat)
    requires Tidy(t) && k <= |t|
    ensures TrimRight(t[k..]) == t[k..]
  {
  }

  lemma BlankName(t: string, k: nat)
    requires 1 <= k < |t| && t[k] == ']' && Tidy(t)
    ensures |t| - |Trim(t[1..])| == k <==> Blank(t[1..k])
  {
    NothingRight(t, 1);
    LeftTrimmed(t[1..]);
    var u := Trim(t[1..]);
    if Blank(t[1..k]) {
      assert t[1..] == t[1..k] + t[k..];
      TrimLeftBlank(t[1..k], t[k..]);
    }
    assert |t| - |u| == k ==> t[1..][..|t[1..]| - |u|] == t[1..k];
  }

  lemma BlankRest(t: string, k: nat)
    requires k <= |t| && Tidy(t)
    ensures Trim(t[k..]) == "" <==> Blank(t[k..])
  {
    NothingRight(t, k);
    LeftTrimmed(t[k..]);
    if Blank(t[k..]) { TrimBlank(t[k..]); }
  }
}
