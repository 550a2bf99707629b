/**
 C strings in an array: terminated by NUL, cut and trimmed in place (shared/string-util.h).
 */
module CStrings {
  import opened Strings

  // ----- strings at positions -----

  /** The C string at p is t. */
  predicate Holds(b: seq<char>, p: nat, t: string)
  {
    p + |t| < |b| && b[p..p + |t|] == t && b[p + |t|] == '\0' && '\0' !in t
  }

  /** It stays so as long as nothing is written up to its terminator. */
  lemma HoldsStill(b: seq<char>, c: seq<char>, p: nat, t: string, n: nat)
    requires Holds(b, p, t) && p + |t| < n <= |b| && |c| == |b| && c[..n] == b[..n]
    ensures Holds(c, p, t)
  {
    assert b[p..p + |t|] == b[..n][p..p + |t|] && c[p..p + |t|] == c[..n][p..p + |t|];
    assert b[p + |t|] == b[..n][p + |t|] && c[p + |t|] == c[..n][p + |t|];
  }

  /** A part of a string that ends where the string ends, or at a new terminator. */
  lemma HoldsTail(b: seq<char>, p: nat, t: string, k: nat)
    requires Holds(b, p, t) && k <= |t|
    ensures Holds(b, p + k, t[k..])
  {
    assert b[p + k..p + |t|] == b[p..p + |t|][k..];
  }

  lemma HoldsCut(b: seq<char>, p: nat, t: string, k: nat)
    requires Holds(b, p, t) && k <= |t|
    ensures Holds(b[p + k := '\0'], p, t[..k])
  {
    var c := b[p + k := '\0'];
    assert c[p..p + k] == b[p..p + |t|][..k];
  }

  /** A string that ends below n. */
  lemma HoldsIn(b: seq<char>, p: nat, t: string, n: nat)
    requires Holds(b, p, t) && p + |t| < n <= |b|
    ensures Holds(b[..n], p, t)
  {
    assert b[..n][p..p + |t|] == b[p..p + |t|];
  }

  lemma RestHolds(b: seq<char>, p: nat, rest: string)
    requires p <= |b| && b[p..] == rest + ['\0'] && '\0' !in rest
    ensures Holds(b, p, rest)
  {
    assert b[p..p + |rest|] == b[p..][..|rest|];
    assert b[p + |rest|] == b[p..][|rest|];
  }

  lemma CharAt(b: seq<char>, s: nat, t: string, k: nat)
    requires Holds(b, s, t) && k <= |t|
    ensures s + |t| < |b| && if k < |t| then b[s + k] == t[k] && t[k] != '\0' else b[s + k] == '\0'
  {
    if k < |t| { NotNul(b, s, t, s + k); }
  }

  lemma IndexFound(t: string, c: char, k: nat)
    requires k <= |t| && c !in t[..k] && (k < |t| ==> t[k] == c)
    ensures IndexOf(t, c) == k
  {
    if k < |t| {
      IndexIs(t, c, k);
    } else {
      assert t[..k] == t;
      NotFound(t, c);
    }
  }

  lemma {:induction false} NotFound(t: string, c: char)
    requires c !in t
    ensures IndexOf(t, c) == |t|
  {
    if t != "" { NotFound(t[1..], c); }
  }

  /** A terminator in front of a string leaves it alone. */
  lemma CutKeepsTail(b: seq<char>, i: nat, p: nat, t: string)
    requires Holds(b, p, t) && i < p
    ensures Holds(b[i := '\0'], p, t)
  {
    assert b[i := '\0'][p..p + |t|] == b[p..p + |t|];
  }

  lemma SameBuffer(b: seq<char>, s: nat, t: string)
    requires Holds(b, s, t)
    ensures b[s + |t| := '\0'] == b
  {
  }

  lemma SpaceAt(b: seq<char>, s: nat, t: string, k: nat)
    requires Holds(b, s, t) && k <= |t|
    ensures s + |t| < |b| && IsSpace(b[s + k]) == (k < |t| && IsSpace(t[k]))
  {
    if k < |t| { NotNul(b, s, t, s + k); }
  }

  lemma InBuffer(b: seq<char>, s: nat, t: string)
    requires Holds(b, s, t)
    ensures s + |t| < |b| && b[s + |t|] == '\0'
  {
  }

  lemma NotNul(b: seq<char>, s: nat, t: string, i: nat)
    requires Holds(b, s, t) && s <= i < s + |t|
    ensures b[i] != '\0' && b[i] == t[i - s]
  {
    assert b[i] == b[s..s + |t|][i - s];
  }

  lemma TrimRightIs(t: string, k: nat)
    requires k <= |t|
    ensures t[..|t|] == t
    ensures TrimRight(t[..k]) == if k > 0 && IsSpace(t[k - 1]) then TrimRight(t[..k - 1]) else t[..k]
  {
    if k > 0 { assert t[..k][..k - 1] == t[..k - 1]; }
  }

  lemma TrimLeftIs(t: string, k: nat)
    requires k <= |t|
    ensures t[0..] == t
    ensures TrimLeft(t[k..]) == if k < |t| && IsSpace(t[k]) then TrimLeft(t[k + 1..]) else t[k..]
  {
    if k < |t| { assert t[k..][1..] == t[k + 1..]; }
  }

  // ----- finding characters -----

  lemma {:induction false} IndexIs(s: string, c: char, k: nat)
    requires k < |s| && s[k] == c && c !in s[..k]
    ensures IndexOf(s, c) == k
    decreases k
  {
    if k > 0 {
      assert s[..k] == [s[0]] + s[1..][..k - 1];
      IndexIs(s[1..], c, k - 1);
    }
  }

  // ----- the operations -----

  method StrLen(buf: array<char>, s: nat, ghost t: string) returns (n: nat)
    requires Holds(buf[..], s, t)
    ensures n == |t|
  {
    n := 0;
    while buf[s + n] != '\0'
      invariant n <= |t|
      decreases |t| - n
    {
      n := n + 1;
    }
    if n < |t| { NotNul(buf[..], s, t, s + n); }
  }

  /** Behind the last character that is no space. */
  method EndOf(buf: array<char>, s: nat, ghost t: string) returns (end: nat)
    requires Holds(buf[..], s, t)
    ensures end == s + |TrimRight(t)| && TrimRight(t) == t[..end - s]
  {
    hide TrimRight, Holds;
    var n := StrLen(buf, s, t);
    end := s + n;
    TrimRightIs(t, n);
    InBuffer(buf[..], s, t);
    while end > s && IsSpace(buf[end - 1])
      invariant s <= end <= s + |t| < buf.Length && TrimRight(t) == TrimRight(t[..end - s])
      decreases end
    {
      NotNul(buf[..], s, t, end - 1);
      TrimRightIs(t, end - s);
      end := end - 1;
    }
    if end > s { NotNul(buf[..], s, t, end - 1); }
    TrimRightIs(t, end - s);
  }

  /** shr_ltrim: the first character that is no space */
  method StartOf(buf: array<char>, s: nat, ghost t: string) returns (q: nat)
    requires Holds(buf[..], s, t)
    ensures s <= q && q + |TrimLeft(t)| == s + |t| && TrimLeft(t) == t[q - s..]
  {
    hide TrimLeft, Holds, IsSpace;
    q := s;
    ghost var k: nat := 0;
    TrimLeftIs(t, 0);
    SpaceAt(buf[..], s, t, 0);
    while IsSpace(buf[q])
      invariant q == s + k && k <= |t| && s + |t| < buf.Length
      invariant TrimLeft(t) == TrimLeft(t[k..]) && IsSpace(buf[q]) == (k < |t| && IsSpace(t[k]))
      decreases |t| - k
    {
      TrimLeftIs(t, k);
      SpaceAt(buf[..], s, t, k + 1);
      q, k := q + 1, k + 1;
    }
    TrimLeftIs(t, k);
  }

  /** shr_trim: one terminator is written, behind the last character that is no space. */
  method TrimAt(buf: array<char>, s: nat, ghost t: string) returns (q: nat)
    requires Holds(buf[..], s, t)
    modifies buf
    ensures q + |Trim(t)| == s + |TrimRight(t)| && s <= q
    ensures buf[..] == old(buf[..])[s + |TrimRight(t)| := '\0']
    ensures Holds(buf[..], q, Trim(t))
  {
    hide TrimRight, TrimLeft;
    var end := EndOf(buf, s, t);
    HoldsCut(buf[..], s, t, end - s);
    buf[end] := '\0';
    q := StartOf(buf, s, TrimRight(t));
    HoldsTail(buf[..], s, TrimRight(t), q - s);
  }

  /** strchr: the index of c in the string, or its length */
  method FindChar(buf: array<char>, s: nat, ghost t: string, c: char) returns (k: nat)
    requires Holds(buf[..], s, t) && c != '\0'
    ensures k == IndexOf(t, c) && s + k < buf.Length && (k < |t| <==> buf[s + k] == c)
  {
    hide Holds;
    k := 0;
    CharAt(buf[..], s, t, 0);
    while buf[s + k] != '\0' && buf[s + k] != c
      invariant k <= |t| && s + |t| < buf.Length && c !in t[..k]
      invariant if k < |t| then buf[s + k] == t[k] && t[k] != '\0' else buf[s + k] == '\0'
      decreases |t| - k
    {
      CharAt(buf[..], s, t, k + 1);
      assert t[..k + 1] == t[..k] + [t[k]];
      k := k + 1;
    }
    IndexFound(t, c, k);
  }

  /** The characters up to the terminator. */
  method ReadString(buf: array<char>, s: nat, ghost t: string) returns (r: string)
    requires Holds(buf[..], s, t)
    ensures r == t
  {
    var n := StrLen(buf, s, t);
    r := buf[s..s + n];
    assert buf[..][s..s + n] == r;
  }
}
