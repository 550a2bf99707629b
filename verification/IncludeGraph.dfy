/**
 Reachability in the graph of #include lines (scripts/header-graph.py), on any graph, cycles
 included.
 */
module IncludeGraph {

  type Node = string
  type Graph = map<Node, seq<Node>>

  /** graph.get(n, ()) */
  function Includes(g: Graph, n: Node): (r: seq<Node>)
  {
    if n in g then g[n] else []
  }

  /** A walk along the edges, with at least one of them. */
  predicate Walk(g: Graph, p: seq<Node>)
  {
    |p| >= 2 && forall i :: 0 <= i < |p| - 1 ==> p[i + 1] in Includes(g, p[i])
  }

  ghost predicate Reaches(g: Graph, a: Node, b: Node)
  {
    exists p: seq<Node> :: Walk(g, p) && p[0] == a && p[|p| - 1] == b
  }

  ghost predicate ReachedFrom(g: Graph, starts: set<Node>, b: Node)
  {
    exists a :: a in starts && Reaches(g, a, b)
  }

  lemma OneEdge(g: Graph, a: Node, b: Node)
    requires b in Includes(g, a)
    ensures Reaches(g, a, b)
  {
    assert Walk(g, [a, b]) && [a, b][0] == a && [a, b][1] == b;
  }

  lemma OneMore(g: Graph, a: Node, b: Node, c: Node)
    requires Reaches(g, a, b) && c in Includes(g, b)
    ensures Reaches(g, a, c)
  {
    var p: seq<Node> :| Walk(g, p) && p[0] == a && p[|p| - 1] == b;
    var q := p + [c];
    assert Walk(g, q) && q[0] == a && q[|q| - 1] == c;
  }

  /** A set that holds the starts and is closed under edges holds everything on a walk. */
  lemma {:induction false} Closed(g: Graph, seen: set<Node>, p: seq<Node>, i: nat)
    requires Walk(g, p) && i < |p| && p[0] in seen
    requires forall n, m :: n in seen && m in Includes(g, n) ==> m in seen
    ensures p[i] in seen
  {
    if i > 0 {
      Closed(g, seen, p, i - 1);
      assert p[i - 1 + 1] in Includes(g, p[i - 1]);
    }
  }

  function Elements(s: seq<Node>): (r: set<Node>)
  {
    set n | n in s
  }

  /** Every node there is. */
  ghost function Universe(g: Graph, starts: seq<Node>): (r: set<Node>)
  {
    Elements(starts) + (set n, m | n in g && m in g[n] :: m)
  }

  lemma InUniverse(g: Graph, starts: seq<Node>, n: Node, m: Node)
    requires m in Includes(g, n)
    ensures m in Universe(g, starts)
  {
    assert n in g && m in g[n];
  }

  ghost predicate AllIn(s: seq<Node>, u: set<Node>)
  {
    forall i :: 0 <= i < |s| ==> s[i] in u
  }

  /** What has been seen or waits is a start, or reached from one. */
  ghost predicate Sound(g: Graph, starts: set<Node>, found: set<Node>)
  {
    forall n :: n in found ==> n in starts || ReachedFrom(g, starts, n)
  }

  lemma SoundMore(g: Graph, starts: set<Node>, found: set<Node>, n: Node, m: Node)
    requires Sound(g, starts, found) && n in found && m in Includes(g, n)
    ensures ReachedFrom(g, starts, m)
  {
    if n in starts {
      OneEdge(g, n, m);
    } else {
      var a :| a in starts && Reaches(g, a, n);
      OneMore(g, a, n, m);
    }
  }

  ghost predicate Followed(g: Graph, seen: set<Node>, waiting: seq<Node>)
  {
    forall n, m :: n in seen && m in Includes(g, n) ==> m in seen || m in waiting
  }

  lemma Shrinks(u: set<Node>, seen: set<Node>, n: Node)
    requires n in u && n !in seen
    ensures |u - (seen + {n})| < |u - seen|
  {
    assert u - (seen + {n}) == (u - seen) - {n};
  }

  lemma NothingFound(g: Graph, starts: set<Node>, seen: set<Node>, target: Node)
    requires starts <= seen && Followed(g, seen, [])
    requires forall n :: n in seen ==> target !in Includes(g, n)
    ensures !ReachedFrom(g, starts, target)
  {
    if ReachedFrom(g, starts, target) {
      var a :| a in starts && Reaches(g, a, target);
      var p: seq<Node> :| Walk(g, p) && p[0] == a && p[|p| - 1] == target;
      Closed(g, seen, p, |p| - 2);
      LastEdge(g, p);
    }
  }

  lemma LastEdge(g: Graph, p: seq<Node>)
    requires Walk(g, p)
    ensures p[|p| - 1] in Includes(g, p[|p| - 2])
  {
    var i := |p| - 2;
    assert p[i + 1] in Includes(g, p[i]);
  }

  /** The inner loop: stop at the target, otherwise push what has not been seen. */
  method Follow(next: seq<Node>, target: Node, seen: set<Node>, stack: seq<Node>) returns (hit: bool, pushed: seq<Node>)
    ensures hit <==> target in next
    ensures !hit ==> forall m :: m in next ==> m in seen || m in pushed
    ensures forall m :: m in stack ==> m in pushed
    ensures forall m :: m in pushed ==> m in stack || m in next
  {
    pushed := stack;
    for i := 0 to |next|
      invariant target !in next[..i]
      invariant forall m :: m in next[..i] ==> m in seen || m in pushed
      invariant forall m :: m in stack ==> m in pushed
      invariant forall m :: m in pushed ==> m in stack || m in next
    {
      if next[i] == target {
        return true, pushed;
      }
      if next[i] !in seen {
        pushed := pushed + [next[i]];
      }
      assert next[..i + 1] == next[..i] + [next[i]];
    }
    assert next[..|next|] == next;
    hit := false;
  }

  /** What the search keeps: where it came from, where it goes, and that it has not met target. */
  ghost predicate Searching(g: Graph, starts: set<Node>, u: set<Node>, target: Node, seen: set<Node>, stack: seq<Node>)
  {
    && AllIn(stack, u) && Sound(g, starts, seen + Elements(stack)) && starts <= seen + Elements(stack)
    && Followed(g, seen, stack) && forall n :: n in seen ==> target !in Includes(g, n)
  }

  lemma SearchStep(g: Graph, starts: seq<Node>, target: Node, seen: set<Node>, stack: seq<Node>, node: Node,
      pushed: seq<Node>)
    requires Searching(g, Elements(starts), Universe(g, starts), target, seen, stack + [node])
    requires target !in Includes(g, node)
    requires forall m :: m in Includes(g, node) ==> m in seen + {node} || m in pushed
    requires forall m :: m in stack ==> m in pushed
    requires forall m :: m in pushed ==> m in stack || m in Includes(g, node)
    ensures Searching(g, Elements(starts), Universe(g, starts), target, seen + {node}, pushed)
  {
    hide ReachedFrom, Universe;
    var from, u := Elements(starts), Universe(g, starts);
    assert node in stack + [node];
    forall m | m in Includes(g, node) ensures m in u && ReachedFrom(g, from, m) {
      InUniverse(g, starts, node, m);
      SoundMore(g, from, seen + Elements(stack + [node]), node, m);
    }
    forall m | m in stack ensures m in u { assert m in stack + [node]; }
  }

  lemma SearchSkip(g: Graph, starts: set<Node>, u: set<Node>, target: Node, seen: set<Node>, stack: seq<Node>,
      node: Node)
    requires Searching(g, starts, u, target, seen, stack + [node]) && node in seen
    ensures Searching(g, starts, u, target, seen, stack)
  {
    hide ReachedFrom;
    assert seen + Elements(stack + [node]) == seen + Elements(stack);
    forall i | 0 <= i < |stack| ensures stack[i] in u { assert (stack + [node])[i] == stack[i]; }
  }

  lemma SearchHit(g: Graph, starts: set<Node>, u: set<Node>, target: Node, seen: set<Node>, stack: seq<Node>,
      node: Node)
    requires Searching(g, starts, u, target, seen, stack + [node]) && target in Includes(g, node)
    ensures ReachedFrom(g, starts, target)
  {
    assert node in stack + [node];
    SoundMore(g, starts, seen + Elements(stack + [node]), node, target);
  }

  lemma SearchEnd(g: Graph, starts: set<Node>, u: set<Node>, target: Node, seen: set<Node>)
    requires Searching(g, starts, u, target, seen, [])
    ensures !ReachedFrom(g, starts, target)
  {
    NothingFound(g, starts, seen, target);
  }

  /** reachable(): true exactly when a walk with at least one edge leads from a start to target. */
  method Reachable(g: Graph, starts: seq<Node>, target: Node) returns (r: bool)
    ensures r <==> ReachedFrom(g, Elements(starts), target)
  {
    hide ReachedFrom, Universe, Searching, Elements;
    var seen: set<Node>, stack := {}, starts;
    ghost var from, u := Elements(starts), Universe(g, starts);
    SearchStart(g, starts, target);
    while |stack| > 0
      invariant Searching(g, from, u, target, seen, stack)
      decreases |u - seen|, |stack|
    {
      var node := stack[|stack| - 1];
      assert stack == stack[..|stack| - 1] + [node];
      stack := stack[..|stack| - 1];
      if node in seen {
        SearchSkip(g, from, u, target, seen, stack, node);
        continue;
      }
      NodeInUniverse(g, from, u, target, seen, stack, node);
      Shrinks(u, seen, node);
      var hit, pushed := Follow(Includes(g, node), target, seen + {node}, stack);
      if hit {
        SearchHit(g, from, u, target, seen, stack, node);
        return true;
      }
      SearchStep(g, starts, target, seen, stack, node, pushed);
      seen, stack := seen + {node}, pushed;
    }
    assert stack == [];
    SearchEnd(g, from, u, target, seen);
    r := false;
  }

  lemma SearchStart(g: Graph, starts: seq<Node>, target: Node)
    ensures Searching(g, Elements(starts), Universe(g, starts), target, {}, starts)
  {
    StartsIn(g, starts);
  }

  lemma NodeInUniverse(g: Graph, starts: set<Node>, u: set<Node>, target: Node, seen: set<Node>, stack: seq<Node>,
      node: Node)
    requires Searching(g, starts, u, target, seen, stack + [node])
    ensures node in u
  {
    assert (stack + [node])[|stack|] == node;
  }

  lemma StartsIn(g: Graph, starts: seq<Node>)
    ensures AllIn(starts, Universe(g, starts))
  {
  }

  /** What the collection keeps: all of it is reached, and all of it is seen or waits. */
  ghost predicate Collecting(g: Graph, file: Node, u: set<Node>, seen: set<Node>, stack: seq<Node>)
  {
    && AllIn(stack, u) && Followed(g, seen, stack)
    && (forall n :: n in seen || n in stack ==> Reaches(g, file, n))
    && (forall m :: m in Includes(g, file) ==> m in seen || m in stack)
  }

  lemma CollectStart(g: Graph, file: Node)
    ensures Collecting(g, file, Universe(g, []), {}, Includes(g, file))
  {
    hide Reaches;
    var stack := Includes(g, file);
    forall i | 0 <= i < |stack| ensures stack[i] in Universe(g, []) && Reaches(g, file, stack[i]) {
      InUniverse(g, [], file, stack[i]);
      OneEdge(g, file, stack[i]);
    }
  }

  lemma CollectStep(g: Graph, file: Node, seen: set<Node>, stack: seq<Node>, node: Node)
    requires Collecting(g, file, Universe(g, []), seen, stack + [node])
    ensures node in Universe(g, [])
    ensures node in seen ==> Collecting(g, file, Universe(g, []), seen, stack)
    ensures node !in seen ==> Collecting(g, file, Universe(g, []), seen + {node}, stack + Includes(g, node))
  {
    hide Reaches, Universe;
    var u, next := Universe(g, []), Includes(g, node);
    assert (stack + [node])[|stack|] == node;
    forall i | 0 <= i < |stack| ensures stack[i] in u { assert (stack + [node])[i] == stack[i]; }
    forall i | 0 <= i < |next| ensures next[i] in u && Reaches(g, file, next[i]) {
      InUniverse(g, [], node, next[i]);
      OneMore(g, file, node, next[i]);
    }
  }

  /** transitive_includes(): exactly what a walk leads to. */
  method TransitiveIncludes(g: Graph, file: Node) returns (seen: set<Node>)
    ensures forall n :: n in seen <==> Reaches(g, file, n)
  {
    hide Reaches, Universe, Collecting;
    var stack := Includes(g, file);
    seen := {};
    ghost var u := Universe(g, []);
    CollectStart(g, file);
    while |stack| > 0
      invariant Collecting(g, file, u, seen, stack)
      decreases |u - seen|, |stack|
    {
      var node := stack[|stack| - 1];
      assert stack == stack[..|stack| - 1] + [node];
      stack := stack[..|stack| - 1];
      CollectStep(g, file, seen, stack, node);
      if node in seen {
        continue;
      }
      Shrinks(u, seen, node);
      seen := seen + {node};
      stack := stack + Includes(g, node);
    }
    assert stack == [];
    CollectEnd(g, file, u, seen);
  }

  lemma CollectEnd(g: Graph, file: Node, u: set<Node>, seen: set<Node>)
    requires Collecting(g, file, u, seen, [])
    ensures forall n :: n in seen <==> Reaches(g, file, n)
  {
    hide Reaches;
    forall n | Reaches(g, file, n) ensures n in seen {
      WalkStays(g, file, seen, n);
    }
  }

  lemma WalkStays(g: Graph, file: Node, seen: set<Node>, n: Node)
    requires Followed(g, seen, []) && Reaches(g, file, n)
    requires forall m :: m in Includes(g, file) ==> m in seen
    ensures n in seen
  {
    var p: seq<Node> :| Walk(g, p) && p[0] == file && p[|p| - 1] == n;
    assert p[0 + 1] in Includes(g, p[0]);
    if |p| > 2 {
      var q := p[1..];
      assert Walk(g, q) by {
        forall i | 0 <= i < |q| - 1 ensures q[i + 1] in Includes(g, q[i]) {
          assert p[(i + 1) + 1] in Includes(g, p[i + 1]);
        }
      }
      Closed(g, seen, q, |q| - 1);
    }
  }
}
