/**
 Removal of unused includes (scripts/find-unused-includes.py): a greedy loop that rewrites the
 file and asks the compiler, but never about a header that another include brings in anyway.
 */
module IncludeSweep {
  import opened Wrappers
  import opened IncludeGraph
  import Strings

  /** The lines whose index is not in `removed`. */
  function Kept(lines: seq<string>, removed: set<nat>): (r: seq<string>)
  {
    KeptFrom(lines, removed, 0)
  }

  function KeptFrom(lines: seq<string>, removed: set<nat>, i: nat): (r: seq<string>)
    decreases |lines| - i
  {
    if i >= |lines| then []
    else (if i in removed then [] else [lines[i]]) + KeptFrom(lines, removed, i + 1)
  }

  /** The headers that the include lines resolve to. */
  function Resolved(resolve: string -> Option<Node>, lines: seq<string>): (r: seq<Node>)
  {
    if lines == [] then []
    else (if resolve(lines[0]).Some? then [resolve(lines[0]).value] else []) + Resolved(resolve, lines[1..])
  }

  function Headers(resolve: string -> Option<Node>, lines: seq<string>): (r: set<Node>)
  {
    Elements(Resolved(resolve, lines))
  }

  lemma {:induction false} HeaderIff(resolve: string -> Option<Node>, lines: seq<string>, h: Node)
    ensures h in Headers(resolve, lines) <==> exists l :: l in lines && resolve(l) == Some(h)
  {
    if lines != [] {
      HeaderIff(resolve, lines[1..], h);
      assert lines == [lines[0]] + lines[1..];
    }
  }

  /** A line that is kept has an index that is not removed, */
  lemma {:induction false} KeptOnly(lines: seq<string>, removed: set<nat>, i: nat, l: string) returns (j: nat)
    requires i < |lines| && l in KeptFrom(lines, removed, i)
    ensures i <= j < |lines| && j !in removed && lines[j] == l
    decreases |lines| - i
  {
    KeptUnfolds(lines, removed, i);
    if i !in removed && lines[i] == l {
      j := i;
    } else {
      j := KeptOnly(lines, removed, i + 1, l);
    }
  }

  /** and a line with such an index is kept. */
  lemma {:induction false} KeptAt(lines: seq<string>, removed: set<nat>, i: nat, j: nat)
    requires i <= j < |lines| && j !in removed
    ensures lines[j] in KeptFrom(lines, removed, i)
    decreases |lines| - i
  {
    KeptUnfolds(lines, removed, i);
    if i < j { KeptAt(lines, removed, i + 1, j); }
    hide KeptFrom;
  }

  lemma KeptUnfolds(lines: seq<string>, removed: set<nat>, i: nat)
    requires i < |lines|
    ensures forall l :: l in KeptFrom(lines, removed, i) <==>
              (i !in removed && l == lines[i]) || l in KeptFrom(lines, removed, i + 1)
  {
    var rest := KeptFrom(lines, removed, i + 1);
    if i in removed {
      assert KeptFrom(lines, removed, i) == [] + rest == rest;
    } else {
      assert KeptFrom(lines, removed, i) == [lines[i]] + rest;
    }
    hide KeptFrom;
  }

  /** Removing more keeps fewer headers. */
  lemma KeptShrinks(resolve: string -> Option<Node>, lines: seq<string>, a: set<nat>, b: set<nat>)
    requires a <= b
    ensures Headers(resolve, Kept(lines, b)) <= Headers(resolve, Kept(lines, a))
  {
    forall h | h in Headers(resolve, Kept(lines, b)) ensures h in Headers(resolve, Kept(lines, a)) {
      HeaderIff(resolve, Kept(lines, b), h);
      var l :| l in Kept(lines, b) && resolve(l) == Some(h);
      var j := KeptOnly(lines, b, 0, l);
      KeptAt(lines, a, 0, j);
      HeaderIff(resolve, Kept(lines, a), h);
    }
  }

  lemma FewerStarts(g: Graph, a: set<Node>, b: set<Node>, t: Node)
    requires b <= a && !ReachedFrom(g, a, t)
    ensures !ReachedFrom(g, b, t)
  {
  }

  /** A character that Python's strip() removes. */
  predicate IsStripped(c: char)
  {
    var n := c as int;
    || 9 <= n <= 13 || 28 <= n <= 32 || n == 0x85 || n == 0xA0 || n == 0x1680 || 0x2000 <= n <= 0x200A
    || n == 0x2028 || n == 0x2029 || n == 0x202F || n == 0x205F || n == 0x3000
  }

  predicate IsBlank(line: string)
  {
    forall i :: 0 <= i < |line| ==> IsStripped(line[i])
  }

  /** A blank line is dropped when the line before is blank too. */
  function Squeezed(lines: seq<string>, blank: bool): (r: seq<string>)
  {
    if lines == [] then []
    else
      var b := IsBlank(lines[0]);
      (if b && blank then [] else [lines[0]]) + Squeezed(lines[1..], b)
  }

  function NotBlank(lines: seq<string>): (r: seq<string>)
  {
    if lines == [] then [] else (if IsBlank(lines[0]) then [] else [lines[0]]) + NotBlank(lines[1..])
  }

  /** No two blank lines follow each other, `blank` being the line before the first. */
  predicate NoRuns(lines: seq<string>, blank: bool)
  {
    lines == [] || (!(blank && IsBlank(lines[0])) && NoRuns(lines[1..], IsBlank(lines[0])))
  }

  /** Squeezing keeps all lines that are not blank, leaves no run of blank lines, and changes nothing
      where there was none. */
  lemma {:induction false} SqueezedIs(lines: seq<string>, blank: bool)
    ensures NotBlank(Squeezed(lines, blank)) == NotBlank(lines)
    ensures NoRuns(Squeezed(lines, blank), blank)
    ensures Squeezed(lines, blank) == lines <==> NoRuns(lines, blank)
    ensures |Squeezed(lines, blank)| <= |lines|
  {
    hide IsBlank;
    if lines != [] {
      var b := IsBlank(lines[0]);
      SqueezedIs(lines[1..], b);
      var rest := Squeezed(lines[1..], b);
      if b && blank {
        assert Squeezed(lines, blank) == rest;
      } else {
        assert Squeezed(lines, blank) == [lines[0]] + rest;
        assert ([lines[0]] + rest)[1..] == rest;
        assert lines == [lines[0]] + lines[1..];
      }
    }
  }

  lemma {:induction false} SqueezeKeepsHeaders(resolve: string -> Option<Node>, lines: seq<string>, blank: bool,
      h: Node)
    requires forall l :: IsBlank(l) ==> resolve(l).None?
    ensures h in Headers(resolve, Squeezed(lines, blank)) <==> h in Headers(resolve, lines)
  {
    if lines != [] {
      var b := IsBlank(lines[0]);
      SqueezeKeepsHeaders(resolve, lines[1..], b, h);
      var s := Squeezed(lines, blank);
      assert lines == [lines[0]] + lines[1..];
      HeadersOfParts(resolve, [lines[0]], lines[1..], h);
      HeadersOfParts(resolve, if b && blank then [] else [lines[0]], Squeezed(lines[1..], b), h);
      HeaderIff(resolve, [lines[0]], h);
    }
  }

  lemma HeadersOfParts(resolve: string -> Option<Node>, a: seq<string>, b: seq<string>, h: Node)
    ensures h in Headers(resolve, a + b) <==> h in Headers(resolve, a) || h in Headers(resolve, b)
  {
    HeaderIff(resolve, a + b, h);
    HeaderIff(resolve, a, h);
    HeaderIff(resolve, b, h);
  }

  /** The final text: blank runs are squeezed in the part in front of `boundary`. */
  function Cleaned(lines: seq<string>, boundary: nat): (r: seq<string>)
    requires boundary <= |lines|
  {
    Squeezed(lines[..boundary], false) + lines[boundary..]
  }

  lemma CleanedHeaders(resolve: string -> Option<Node>, lines: seq<string>, boundary: nat)
    requires boundary <= |lines| && forall l :: IsBlank(l) ==> resolve(l).None?
    ensures Headers(resolve, Cleaned(lines, boundary)) == Headers(resolve, lines)
  {
    forall h ensures h in Headers(resolve, Cleaned(lines, boundary)) <==> h in Headers(resolve, lines) {
      SqueezeKeepsHeaders(resolve, lines[..boundary], false, h);
      HeadersOfParts(resolve, Squeezed(lines[..boundary], false), lines[boundary..], h);
      HeadersOfParts(resolve, lines[..boundary], lines[boundary..], h);
      assert lines == lines[..boundary] + lines[boundary..];
    }
  }

  /** How many of the lines before n are kept. */
  function CountKept(removed: set<nat>, n: nat): (k: nat)
  {
    if n == 0 then 0 else CountKept(removed, n - 1) + if n - 1 in removed then 0 else 1
  }

  lemma {:induction false} KeptLength(lines: seq<string>, removed: set<nat>, i: nat)
    requires i <= |lines|
    ensures CountKept(removed, i) + |KeptFrom(lines, removed, i)| == CountKept(removed, |lines|)
    decreases |lines| - i
  {
    if i < |lines| { KeptLength(lines, removed, i + 1); }
  }

  lemma {:induction false} CountGrows(removed: set<nat>, m: nat, n: nat)
    requires m <= n
    ensures CountKept(removed, m) <= CountKept(removed, n)
    decreases n
  {
    if m < n { CountGrows(removed, m, n - 1); }
  }

  /** No header that was removed is reached from the includes of `lines`. */
  ghost predicate NoneNeeded(g: Graph, resolve: string -> Option<Node>, original: seq<string>, removed: set<nat>,
      lines: seq<string>)
  {
    forall i :: i in removed && i < |original| && resolve(original[i]).Some? ==>
      !ReachedFrom(g, Headers(resolve, lines), resolve(original[i]).value)
  }

  lemma OneMoreRemoved(g: Graph, resolve: string -> Option<Node>, original: seq<string>, removed: set<nat>, idx: nat)
    requires idx < |original| && NoneNeeded(g, resolve, original, removed, Kept(original, removed))
    requires resolve(original[idx]).Some? ==>
      !ReachedFrom(g, Headers(resolve, Kept(original, removed + {idx})), resolve(original[idx]).value)
    ensures NoneNeeded(g, resolve, original, removed + {idx}, Kept(original, removed + {idx}))
  {
    hide ReachedFrom, Headers, Kept;
    KeptShrinks(resolve, original, removed, removed + {idx});
    forall i | i in removed + {idx} && i < |original| && resolve(original[i]).Some?
      ensures !ReachedFrom(g, Headers(resolve, Kept(original, removed + {idx})), resolve(original[i]).value)
    {
      if i in removed {
        FewerStarts(g, Headers(resolve, Kept(original, removed)), Headers(resolve, Kept(original, removed + {idx})),
          resolve(original[i]).value);
      }
    }
  }

  // ----- the file on the disk -----

  /** UTF-8 as Python reads it, undecodable bytes left out, and as it writes it. */
  datatype Codec = Codec(decode: seq<Byte> -> string, encode: string -> seq<Byte>)

  ghost predicate ReadsWhatItWrites(c: Codec)
  {
    forall s :: c.decode(c.encode(s)) == s
  }

  /** Reading in text mode: CR LF and CR become LF. */
  function Newlines(s: string): (r: string)
    ensures '\r' !in r
  {
    if s == "" then ""
    else if s[0] == '\r' && |s| > 1 && s[1] == '\n' then Newlines(s[1..])
    else if s[0] == '\r' then "\n" + Newlines(s[1..])
    else [s[0]] + Newlines(s[1..])
  }

  lemma {:induction false} NewlinesNothing(s: string)
    requires '\r' !in s
    ensures Newlines(s) == s
  {
    if s != "" {
      NewlinesNothing(s[1..]);
      assert s == [s[0]] + s[1..];
    }
  }

  /** The first end of a line of any kind becomes LF, and so do the others behind it. */
  lemma {:induction false} NewlinesAt(a: string, b: string)
    requires '\r' !in a
    ensures Newlines(a + "\r\n" + b) == a + "\n" + Newlines(b)
    ensures (b != "" ==> b[0] != '\n') ==> Newlines(a + "\r" + b) == a + "\n" + Newlines(b)
    decreases |a|
  {
    var s, u := a + "\r\n" + b, a + "\r" + b;
    if a == "" {
      assert s[0] == '\r' && s[1..] == "\n" + b && ("\n" + b)[1..] == b;
      assert u[0] == '\r' && u[1..] == b;
    } else {
      NewlinesAt(a[1..], b);
      assert s[0] == a[0] && s[1..] == a[1..] + "\r\n" + b;
      assert u[0] == a[0] && u[1..] == a[1..] + "\r" + b;
      assert a == [a[0]] + a[1..];
    }
  }

  function ReadLines(c: Codec, disk: seq<Byte>): (lines: seq<string>)
  {
    Strings.Split(Newlines(c.decode(disk)), '\n')
  }

  function WriteLines(c: Codec, lines: seq<string>): (disk: seq<Byte>)
  {
    c.encode(if lines == [] then "" else Strings.Join(lines, '\n'))
  }

  /** Reading a file and writing it back changes nothing exactly when it is the encoding of a text
      without carriage returns. */
  lemma RewriteIff(c: Codec, disk: seq<Byte>)
    requires ReadsWhatItWrites(c)
    ensures WriteLines(c, ReadLines(c, disk)) == disk <==> exists s :: c.encode(s) == disk && '\r' !in s
  {
    var text := Newlines(c.decode(disk));
    Strings.JoinSplit(text, '\n');
    assert WriteLines(c, ReadLines(c, disk)) == c.encode(text);
    if s :| c.encode(s) == disk && '\r' !in s {
      assert c.decode(c.encode(s)) == s;
      NewlinesNothing(s);
    }
  }

  class Sweeper {
    const g: Graph
    const resolve: string -> Option<Node>
    const codec: Codec
    /** The result of command number k on the file as it is on the disk. */
    const compiles: (nat, seq<Byte>) -> bool
    const commands: nat
    var disk: seq<Byte>

    constructor (g: Graph, resolve: string -> Option<Node>, codec: Codec, compiles: (nat, seq<Byte>) -> bool,
        commands: nat, disk: seq<Byte>)
      ensures this.g == g && this.resolve == resolve && this.codec == codec
      ensures this.compiles == compiles && this.commands == commands && this.disk == disk
    {
      this.g := g;
      this.resolve := resolve;
      this.codec := codec;
      this.compiles := compiles;
      this.commands := commands;
      this.disk := disk;
    }

    ghost predicate Builds(file: seq<Byte>)
    {
      forall k :: 0 <= k < commands ==> compiles(k, file)
    }

    method TryAll() returns (ok: bool)
      ensures ok == Builds(disk)
    {
      for k := 0 to commands
        invariant forall j :: 0 <= j < k ==> compiles(j, disk)
      {
        if !compiles(k, disk) {
          return false;
        }
      }
      ok := true;
    }

    /** The candidate may go: its header is not reached from what would be left, and that builds. */
    ghost predicate Removable(original: seq<string>, removed: set<nat>, idx: nat)
      requires idx < |original|
    {
      var left := Kept(original, removed + {idx});
      && (resolve(original[idx]).None? || !ReachedFrom(g, Headers(resolve, left), resolve(original[idx]).value))
      && Builds(WriteLines(codec, left))
    }

    /** One candidate: skipped, removed, or tried and restored. */
    method TryOne(original: seq<string>, removed: set<nat>, idx: nat) returns (now: set<nat>)
      requires idx < |original| && NoneNeeded(g, resolve, original, removed, Kept(original, removed))
      modifies this`disk
      ensures now == if Removable(original, removed, idx) then removed + {idx} else removed
      ensures disk == WriteLines(codec, Kept(original, now)) || (now == removed && disk == old(disk))
      ensures NoneNeeded(g, resolve, original, now, Kept(original, now))
      ensures now != removed ==> Builds(disk)
    {
      hide ReachedFrom, Kept, Resolved, WriteLines, NoneNeeded, Builds;
      var trial := Kept(original, removed + {idx});
      var header := resolve(original[idx]);
      if header.Some? {
        var needed := Reachable(g, Resolved(resolve, trial), header.value);
        if needed {
          return removed;
        }
      }
      OneMoreRemoved(g, resolve, original, removed, idx);
      disk := WriteLines(codec, trial);
      var ok := TryAll();
      if ok {
        return removed + {idx};
      }
      disk := WriteLines(codec, Kept(original, removed));
      now := removed;
    }

    /** What is gone when the first n candidates have been tried. */
    ghost function Swept(original: seq<string>, candidates: seq<nat>, n: nat): (r: set<nat>)
      requires n <= |candidates| && forall i :: 0 <= i < |candidates| ==> candidates[i] < |original|
      decreases n
    {
      if n == 0 then {}
      else
        var r := Swept(original, candidates, n - 1);
        if Removable(original, r, candidates[n - 1]) then r + {candidates[n - 1]} else r
    }

    /** A line is gone exactly when it was a candidate that might go at its turn; a candidate that stayed might not. */
    lemma {:induction false} SweptIff(original: seq<string>, candidates: seq<nat>, n: nat, idx: nat)
      requires n <= |candidates| && forall i :: 0 <= i < |candidates| ==> candidates[i] < |original|
      ensures idx in Swept(original, candidates, n) <==>
        exists k :: 0 <= k < n && candidates[k] == idx &&
          Removable(original, Swept(original, candidates, k), candidates[k])
      decreases n
    {
      hide Removable;
      if n > 0 {
        SweptIff(original, candidates, n - 1, idx);
      }
    }

    /** The loop over the candidates. */
    method TryCandidates(original: seq<string>, candidates: seq<nat>) returns (removed: set<nat>)
      requires forall i :: 0 <= i < |candidates| ==> candidates[i] < |original|
      modifies this`disk
      ensures removed == Swept(original, candidates, |candidates|)
      ensures forall i :: i in removed ==> i in candidates
      ensures forall k :: 0 <= k < |candidates| && candidates[k] !in removed ==>
                !Removable(original, Swept(original, candidates, k), candidates[k])
      ensures NoneNeeded(g, resolve, original, removed, Kept(original, removed))
    {
      hide NoneNeeded, Kept, WriteLines, Removable;
      removed := {};
      NothingRemoved(g, resolve, original);
      for i := 0 to |candidates|
        invariant NoneNeeded(g, resolve, original, removed, Kept(original, removed))
        invariant removed == Swept(original, candidates, i)
        invariant forall j :: j in removed ==> j in candidates
      {
        removed := TryOne(original, removed, candidates[i]);
      }
      forall k | 0 <= k < |candidates| && candidates[k] !in removed
        ensures !Removable(original, Swept(original, candidates, k), candidates[k])
      {
        SweptIff(original, candidates, |candidates|, candidates[k]);
      }
    }

    /** Nothing is written: no command compiles the file, none builds it, or there is no candidate. */
    ghost predicate GivesUp(candidates: seq<nat>, file: seq<Byte>)
    {
      commands == 0 || candidates == [] || !Builds(file)
    }

    /** process_file for the candidate lines, last first. */
    method ProcessFile(candidates: seq<nat>, apply: bool) returns (removed: set<nat>)
      requires forall i :: 0 <= i < |candidates| ==> candidates[i] < |ReadLines(codec, disk)|
      requires forall l :: IsBlank(l) ==> resolve(l).None?
      modifies this`disk
      ensures forall i :: i in removed ==> i in candidates
      ensures !GivesUp(candidates, old(disk)) ==>
                var original := ReadLines(codec, old(disk));
                var swept := Swept(original, candidates, |candidates|);
                removed == if !apply || Builds(WriteLines(codec, Final(original, swept, candidates))) then swept else {}
      ensures GivesUp(candidates, old(disk)) ==> removed == {} && disk == old(disk)
      ensures !GivesUp(candidates, old(disk)) && (!apply || removed == {}) ==>
                disk == WriteLines(codec, ReadLines(codec, old(disk)))
      ensures apply && removed != {} ==>
                Builds(disk) && Edited(codec, resolve, ReadLines(codec, old(disk)), removed, candidates, disk)
      ensures var original := ReadLines(codec, old(disk));
          NoneNeeded(g, resolve, original, removed, Kept(original, removed))
    {
      hide ReachedFrom, Kept, Resolved, NoneNeeded, ReadLines, WriteLines, Cleaned, CountKept, Swept, Removable, Builds;
      var original := ReadLines(codec, disk);
      removed := {};
      NothingRemoved(g, resolve, original);
      if commands == 0 || |candidates| == 0 {
        return;
      }
      var ok := TryAll();
      if !ok {
        return;
      }
      removed := TryCandidates(original, candidates);
      if removed == {} {
        disk := WriteLines(codec, original);
        return;
      }
      var last := FindLast(candidates);
      var boundary := CountKept(removed, last + 1);
      BoundaryFits(original, removed, last);
      var final := Cleaned(Kept(original, removed), boundary);
      if !apply {
        disk := WriteLines(codec, original);
        return;
      }
      CleanedHeaders(resolve, Kept(original, removed), boundary);
      disk := WriteLines(codec, final);
      ok := TryAll();
      if !ok {
        disk := WriteLines(codec, original);
        removed := {};
      }
    }

    /** A dry run leaves every file alone that is the encoding of a text without carriage returns, and
        any other exactly when it gives up. */
    method DryRun(candidates: seq<nat>) returns (removed: set<nat>)
      requires ReadsWhatItWrites(codec)
      requires forall i :: 0 <= i < |candidates| ==> candidates[i] < |ReadLines(codec, disk)|
      requires forall l :: IsBlank(l) ==> resolve(l).None?
      modifies this`disk
      ensures (exists s :: codec.encode(s) == old(disk) && '\r' !in s) ==> disk == old(disk)
      ensures !(exists s :: codec.encode(s) == old(disk) && '\r' !in s) ==>
                (disk == old(disk) <==> GivesUp(candidates, old(disk)))
      ensures removed == if GivesUp(candidates, old(disk)) then {}
        else Swept(ReadLines(codec, old(disk)), candidates, |candidates|)
    {
      hide ReadLines, WriteLines, Swept, Final, Builds;
      RewriteIff(codec, disk);
      removed := ProcessFile(candidates, false);
    }
  }

  const DOS_FILE: string := "#include \"a.h\"\r\n"

  /** A file with a carriage return, one include and one command that builds it: the dry run changes it. */
  method DryRunRewrites(codec: Codec) returns (before: seq<Byte>, after: seq<Byte>)
    requires ReadsWhatItWrites(codec)
    ensures before == codec.encode(DOS_FILE) && after != before
  {
    hide ReadLines, WriteLines;
    before := codec.encode(DOS_FILE);
    var sweeper := new Sweeper(map[], l => None, codec, (k, file) => true, 1, before);
    assert '\r' in DOS_FILE by { assert DOS_FILE[14] == '\r'; }
    NotEncoded(codec, DOS_FILE);
    LinesNotEmpty(codec, before);
    var removed := sweeper.DryRun([0]);
    after := sweeper.disk;
  }

  lemma LinesNotEmpty(c: Codec, disk: seq<Byte>)
    ensures ReadLines(c, disk) != []
  {
  }

  lemma NotEncoded(c: Codec, s: string)
    requires ReadsWhatItWrites(c) && '\r' in s
    ensures !exists u :: c.encode(u) == c.encode(s) && '\r' !in u
  {
    forall u | c.encode(u) == c.encode(s) ensures u == s {
      assert c.decode(c.encode(u)) == u && c.decode(c.encode(s)) == s;
    }
  }

  /** Every text with a carriage return is changed by being read and written back. */
  lemma RewriteChanges(c: Codec, s: string)
    requires ReadsWhatItWrites(c) && '\r' in s
    ensures WriteLines(c, ReadLines(c, c.encode(s))) != c.encode(s)
  {
    hide ReadLines, WriteLines;
    NotEncoded(c, s);
    RewriteIff(c, c.encode(s));
  }

  /** What an edited file is: the lines kept, with runs of blank lines squeezed up to the last
      candidate, and with the headers of the lines kept. */
  ghost predicate Edited(c: Codec, resolve: string -> Option<Node>, original: seq<string>, removed: set<nat>,
                         candidates: seq<nat>, disk: seq<Byte>)
    requires candidates != []
  {
    var kept, b := Kept(original, removed), CountKept(removed, Last(candidates) + 1);
    && b <= |kept| && disk == WriteLines(c, Cleaned(kept, b))
    && Headers(resolve, Cleaned(kept, b)) == Headers(resolve, kept)
  }

  /** The lines kept, blank runs squeezed up to the last candidate. */
  function Final(original: seq<string>, removed: set<nat>, candidates: seq<nat>): (r: seq<string>)
    requires candidates != [] && Last(candidates) < |original|
  {
    BoundaryFits(original, removed, Last(candidates));
    Cleaned(Kept(original, removed), CountKept(removed, Last(candidates) + 1))
  }

  /** The largest of the candidates. */
  function Last(s: seq<nat>): (m: nat)
    requires s != []
    ensures m in s && forall i :: 0 <= i < |s| ==> s[i] <= m
  {
    var k := |s| - 1;
    if k == 0 then s[0]
    else
      var m := Last(s[..k]);
      assert forall i :: 0 <= i < k ==> s[i] == s[..k][i];
      if s[k] > m then s[k] else m
  }

  method FindLast(s: seq<nat>) returns (m: nat)
    requires s != []
    ensures m == Last(s)
  {
    m := s[0];
    assert s[..1] == [s[0]];
    for i := 1 to |s|
      invariant m == Last(s[..i])
    {
      assert s[..i + 1][..i] == s[..i];
      if s[i] > m { m := s[i]; }
    }
    assert s[..|s|] == s;
  }

  lemma NothingRemoved(g: Graph, resolve: string -> Option<Node>, lines: seq<string>)
    ensures Kept(lines, {}) == lines && NoneNeeded(g, resolve, lines, {}, lines)
  {
    KeptAll(lines, 0);
  }

  lemma {:induction false} KeptAll(lines: seq<string>, i: nat)
    requires i <= |lines|
    ensures KeptFrom(lines, {}, i) == lines[i..]
    decreases |lines| - i
  {
    if i < |lines| { KeptAll(lines, i + 1); }
  }

  lemma BoundaryFits(lines: seq<string>, removed: set<nat>, last: nat)
    requires last < |lines|
    ensures CountKept(removed, last + 1) <= |Kept(lines, removed)|
  {
    KeptLength(lines, removed, 0);
    CountGrows(removed, last + 1, |lines|);
  }
}
