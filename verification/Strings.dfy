/** Splitting and trimming of strings (shared/string-util.h). */
module Strings {

  /** The pieces that repeated shr_strsep() calls cut a string into. */
  function Split(s: string, sep: char): (r: seq<string>)
    ensures r != []
  {
    if s == "" then [""]
    else
      var r := Split(s[1..], sep);
      if s[0] == sep then [""] + r else [[s[0]] + r[0]] + r[1..]
  }

  /** The first c, or the end: what strchr() finds. */
  function IndexOf(s: string, c: char): (k: nat)
    ensures k <= |s| && c !in s[..k] && (k < |s| ==> s[k] == c)
  {
    if s == "" || s[0] == c then 0
    else
      assert s[..1 + IndexOf(s[1..], c)] == [s[0]] + s[1..][..IndexOf(s[1..], c)];
      1 + IndexOf(s[1..], c)
  }

  /** The first piece and the rest. */
  lemma SplitAt(s: string, sep: char)
    ensures var k := IndexOf(s, sep); Split(s, sep) == if k == |s| then [s] else [s[..k]] + Split(s[k + 1..], sep)
  {
    var k := IndexOf(s, sep);
    if k == |s| {
      assert s[..k] == s;
      SplitWhole(s, sep);
    } else {
      assert s == s[..k] + ([sep] + s[k + 1..]);
      SplitFront(s[..k], s[k + 1..], sep);
    }
  }

  function Join(pieces: seq<string>, sep: char): (s: string)
    requires pieces != []
  {
    if |pieces| == 1 then pieces[0] else pieces[0] + ([sep] + Join(pieces[1..], sep))
  }

  lemma {:induction false} SplitFront(p: string, rest: string, sep: char)
    requires sep !in p
    ensures Split(p + ([sep] + rest), sep) == [p] + Split(rest, sep)
  {
    var s := p + ([sep] + rest);
    if p == "" {
      assert s[1..] == rest;
    } else {
      assert s[1..] == p[1..] + ([sep] + rest);
      SplitFront(p[1..], rest, sep);
      assert p == [p[0]] + p[1..];
    }
  }

  lemma {:induction false} SplitWhole(p: string, sep: char)
    requires sep !in p
    ensures Split(p, sep) == [p]
  {
    if p != "" {
      SplitWhole(p[1..], sep);
      assert p == [p[0]] + p[1..];
    }
  }

  /** Splitting undoes joining. */
  lemma {:induction false} SplitJoin(pieces: seq<string>, sep: char)
    requires pieces != [] && forall i :: 0 <= i < |pieces| ==> sep !in pieces[i]
    ensures Split(Join(pieces, sep), sep) == pieces
  {
    if |pieces| == 1 {
      SplitWhole(pieces[0], sep);
    } else {
      SplitFront(pieces[0], Join(pieces[1..], sep), sep);
      SplitJoin(pieces[1..], sep);
    }
  }

  /** Joining undoes splitting. */
  lemma {:induction false} JoinSplit(s: string, sep: char)
    ensures Join(Split(s, sep), sep) == s
  {
    if s != "" {
      var r := Split(s[1..], sep);
      JoinSplit(s[1..], sep);
      assert s == [s[0]] + s[1..];
      if s[0] == sep {
        assert ([""] + r)[1..] == r;
      } else {
        JoinFront(s[0], r, sep);
      }
    }
  }

  lemma JoinFront(c: char, r: seq<string>, sep: char)
    requires r != []
    ensures Join([[c] + r[0]] + r[1..], sep) == [c] + Join(r, sep)
  {
    var x := [[c] + r[0]] + r[1..];
    if |r| > 1 {
      assert x[1..] == r[1..];
    }
  }

  /** isspace() in the C locale */
  predicate IsSpace(c: char)
  {
    c == ' ' || c == '\t' || c == '\n' || c == '\r' || c as int == 11 || c as int == 12
  }

  function TrimRight(s: string): (r: string)
    ensures |r| <= |s|
  {
    if s != "" && IsSpace(s[|s| - 1]) then TrimRight(s[..|s| - 1]) else s
  }

  function TrimLeft(s: string): (r: string)
    ensures |r| <= |s|
  {
    if s != "" && IsSpace(s[0]) then TrimLeft(s[1..]) else s
  }

  function Trim(s: string): (r: string)
    ensures |r| <= |s|
  {
    TrimLeft(TrimRight(s))
  }

  /** What starts and ends without a space is left as it is. */
  lemma TrimNothing(s: string)
    requires s != "" ==> !IsSpace(s[0]) && !IsSpace(s[|s| - 1])
    ensures Trim(s) == s
  {
  }

  predicate Blank(s: string)
  {
    forall i :: 0 <= i < |s| ==> IsSpace(s[i])
  }

  lemma {:induction false} TrimRightBlank(s: string, b: string)
    requires Blank(b) && (s != "" ==> !IsSpace(s[|s| - 1]))
    ensures TrimRight(s + b) == s
    decreases |b|
  {
    if b == "" {
      assert s + b == s;
    } else {
      assert (s + b)[..|s + b| - 1] == s + b[..|b| - 1];
      TrimRightBlank(s, b[..|b| - 1]);
    }
  }

  lemma {:induction false} TrimLeftBlank(a: string, s: string)
    requires Blank(a) && (s != "" ==> !IsSpace(s[0]))
    ensures TrimLeft(a + s) == s
    decreases |a|
  {
    if a == "" {
      assert a + s == s;
    } else {
      assert (a + s)[1..] == a[1..] + s;
      TrimLeftBlank(a[1..], s);
    }
  }

  /** Spaces on both sides are cut off, and nothing else. */
  lemma TrimBoth(a: string, s: string, b: string)
    requires Blank(a) && Blank(b) && s != "" && !IsSpace(s[0]) && !IsSpace(s[|s| - 1])
    ensures Trim(a + s + b) == s
  {
    TrimRightBlank(a + s, b);
    TrimLeftBlank(a, s);
  }

  lemma TrimBlank(a: string)
    requires Blank(a)
    ensures Trim(a) == "" && TrimRight(a) == ""
  {
    TrimRightBlank("", a);
    assert "" + a == a;
  }

  lemma {:induction false} RightTrimmed(s: string)
    ensures var t := TrimRight(s);
        t == s[..|t|] && (forall i :: |t| <= i < |s| ==> IsSpace(s[i])) && (t != "" ==> !IsSpace(t[|t| - 1]))
  {
    hide IsSpace;
    if s != "" && IsSpace(s[|s| - 1]) {
      var u := s[..|s| - 1];
      RightTrimmed(u);
      var t := TrimRight(u);
      assert s[..|t|] == u[..|t|];
      forall i | |t| <= i < |s| ensures IsSpace(s[i]) {
        if i < |s| - 1 { assert s[i] == u[i]; }
      }
    } else {
      assert s[..|s|] == s;
    }
  }

  lemma {:induction false} LeftTrimmed(s: string)
    ensures var t := TrimLeft(s); t == s[|s| - |t|..] && Blank(s[..|s| - |t|]) && (t != "" ==> !IsSpace(t[0]))
  {
    if s != "" && IsSpace(s[0]) {
      LeftTrimmed(s[1..]);
      var t := TrimLeft(s[1..]);
      assert s[..|s| - |t|] == [s[0]] + s[1..][..|s| - 1 - |t|];
    }
  }

  /** A trimmed string is empty or starts and ends without a space; only spaces are cut off. */
  lemma Trimmed(s: string)
    ensures var t := Trim(s); t != "" ==> !IsSpace(t[0]) && !IsSpace(t[|t| - 1])
  {
    RightTrimmed(s);
    LeftTrimmed(TrimRight(s));
  }

  // ----- runs of characters -----

  /** How many characters in front have the property: strspn(), or the loop over digits. */
  function Span(s: string, p: char -> bool): (n: nat)
    ensures n <= |s|
  {
    if s == "" || !p(s[0]) then 0 else 1 + Span(s[1..], p)
  }

  /** It is the longest such run. */
  lemma {:induction false} SpanFacts(s: string, p: char -> bool)
    ensures var n := Span(s, p); (forall i :: 0 <= i < n ==> p(s[i])) && (n < |s| ==> !p(s[n]))
  {
    if s != "" && p(s[0]) { SpanFacts(s[1..], p); }
  }

  lemma {:induction false} SpanIs(s: string, p: char -> bool, k: nat)
    requires k <= |s| && (forall j :: 0 <= j < k ==> p(s[j])) && (k < |s| ==> !p(s[k]))
    ensures Span(s, p) == k
    decreases k
  {
    if k > 0 { SpanIs(s[1..], p, k - 1); }
  }

  lemma SpanStep(s: string, p: char -> bool, k: nat)
    requires k < |s| && p(s[k])
    ensures Span(s[k..], p) == 1 + Span(s[k + 1..], p)
  {
    assert s[k..][1..] == s[k + 1..];
  }

  lemma SpanTwice(s: string, p: char -> bool)
    ensures Span(s[Span(s, p)..], p) == 0
  {
    SpanFacts(s, p);
    var k := Span(s, p);
    if k < |s| { assert s[k..][0] == s[k]; }
  }
}
