/** Dependency graphs over any kind of node: walks along dependencies, cycles and chains. */
module DependencyGraph {
  import opened Sequences

  /** Each step with the set of steps it depends on. */
  type Graph<N(==)> = map<N, set<N>>

  predicate Dep<N>(g: Graph<N>, a: N, b: N) {
    a in g && b in g[a]
  }

  /** Every dependency is itself a step. */
  predicate Closed<N>(g: Graph<N>) {
    forall a | a in g :: g[a] <= g.Keys
  }

  ghost predicate IsWalk<N(!new)>(g: Graph<N>, w: seq<N>) {
    && |w| >= 1
    && forall i, j {:trigger w[i], w[j]} :: 0 <= i && j == i + 1 < |w| ==> Dep(g, w[i], w[j])
  }

  ghost predicate Connects<N(!new)>(g: Graph<N>, w: seq<N>, a: N, b: N) {
    IsWalk(g, w) && |w| >= 2 && w[0] == a && w[|w| - 1] == b
  }

  /** b is upstream of a: the transitive closure of the dependency relation. */
  ghost predicate Upstream<N(!new)>(g: Graph<N>, a: N, b: N) {
    exists w :: Connects(g, w, a, b)
  }

  ghost predicate Acyclic<N(!new)>(g: Graph<N>) {
    forall a :: !Upstream(g, a, a)
  }

  lemma UpstreamDep<N(!new)>(g: Graph<N>, a: N, b: N)
    requires Dep(g, a, b)
    ensures Upstream(g, a, b)
  {
    assert Connects(g, [a, b], a, b);
  }

  lemma UpstreamTransitive<N(!new)>(g: Graph<N>, a: N, b: N, c: N)
    requires Upstream(g, a, b) && Upstream(g, b, c)
    ensures Upstream(g, a, c)
  {
    var v :| Connects(g, v, a, b);
    var w :| Connects(g, w, b, c);
    var vw := v + w[1..];
    forall i, j | 0 <= i && j == i + 1 < |vw|
      ensures Dep(g, vw[i], vw[j])
    {
      if j < |v| {
        assert Dep(g, v[i], v[j]);
      } else {
        var k := i - (|v| - 1);
        assert Dep(g, w[k], w[k + 1]);
      }
    }
    assert Connects(g, vw, a, c);
  }

  lemma WalkTail<N(!new)>(g: Graph<N>, w: seq<N>)
    requires IsWalk(g, w) && |w| >= 2
    ensures Dep(g, w[0], w[1]) && IsWalk(g, w[1..])
  {
    var t := w[1..];
    forall i, j | 0 <= i && j == i + 1 < |t| ensures Dep(g, t[i], t[j]) {
      assert Dep(g, w[i + 1], w[j + 1]);
    }
  }

  /** The first step of a walk, seen from its start. */
  lemma UpstreamFirst<N(!new)>(g: Graph<N>, a: N, c: N) returns (b: N)
    requires Upstream(g, a, c)
    ensures Dep(g, a, b) && (b == c || Upstream(g, b, c))
  {
    var w :| Connects(g, w, a, c);
    b := w[1];
    WalkTail(g, w);
    if |w| > 2 {
      assert Connects(g, w[1..], b, c);
    }
  }

  /** A set closed under dependencies keeps everything upstream of its members. */
  lemma {:induction false} ClosedSetKeepsUpstream<N(!new)>(g: Graph<N>, s: set<N>, w: seq<N>)
    requires forall a, b :: a in s && Dep(g, a, b) ==> b in s
    requires IsWalk(g, w) && w[0] in s
    ensures w[|w| - 1] in s
    decreases |w|
  {
    if |w| > 1 {
      WalkTail(g, w);
      ClosedSetKeepsUpstream(g, s, w[1..]);
    }
  }

  /** A walk that visits some step twice closes a cycle. */
  lemma RepeatMakesCycle<N(!new)>(g: Graph<N>, w: seq<N>, i: nat, j: nat)
    requires IsWalk(g, w) && i < j < |w| && w[i] == w[j]
    ensures Upstream(g, w[i], w[i])
  {
    var c := w[i..j + 1];
    forall k, l | 0 <= k && l == k + 1 < |c| ensures Dep(g, c[k], c[l]) {
      assert Dep(g, w[i + k], w[i + l]);
    }
    assert Connects(g, c, w[i], w[i]);
  }

  ghost predicate DependsInside<N(!new)>(g: Graph<N>, s: set<N>, a: N) {
    exists b :: b in s && Dep(g, a, b)
  }

  /** A nonempty set whose members each depend on a member contains a cycle: a walk
      inside it can always be extended, and must at some point meet itself. */
  lemma {:induction false} TrappedSetHasCycle<N(!new)>(g: Graph<N>, s: set<N>, w: seq<N>) returns (c: N)
    requires IsWalk(g, w) && Distinct(w) && forall x :: x in w ==> x in s
    requires forall a :: a in s ==> DependsInside(g, s, a)
    ensures Upstream(g, c, c)
    decreases |s| - |w|
  {
    DistinctCardinality(w, s);
    var last := w[|w| - 1];
    assert last in w;
    assert DependsInside(g, s, last);
    var next :| next in s && Dep(g, last, next);
    var longer := WalkExtend(g, w, next);
    if next in w {
      var i :| 0 <= i < |w| && w[i] == next;
      RepeatMakesCycle(g, longer, i, |w|);
      c := next;
    } else {
      DistinctCardinality(longer, s);
      c := TrappedSetHasCycle(g, s, longer);
    }
  }

  lemma WalkExtend<N(!new)>(g: Graph<N>, w: seq<N>, next: N) returns (longer: seq<N>)
    requires IsWalk(g, w) && Dep(g, w[|w| - 1], next)
    ensures longer == w + [next] && IsWalk(g, longer)
  {
    longer := w + [next];
    forall i, j | 0 <= i && j == i + 1 < |longer| ensures Dep(g, longer[i], longer[j]) {
      if j < |w| { assert Dep(g, w[i], w[j]); }
    }
  }

  /** order lists steps with everything they depend on before them. */
  ghost predicate TopoOrder<N(!new)>(g: Graph<N>, order: seq<N>) {
    && Distinct(order)
    && (forall i :: 0 <= i < |order| ==> order[i] in g)
    && (forall i, d :: 0 <= i < |order| && Dep(g, order[i], d) ==> d in order[..i])
  }

  lemma TopoAppend<N(!new)>(g: Graph<N>, order: seq<N>, a: N)
    requires TopoOrder(g, order) && a in g && a !in order
    requires forall d :: Dep(g, a, d) ==> d in order
    ensures TopoOrder(g, order + [a])
  {
    var longer := order + [a];
    forall i, d | 0 <= i < |longer| && Dep(g, longer[i], d) ensures d in longer[..i] {
      if i < |order| {
        assert d in order[..i];
        assert longer[..i] == order[..i];
      } else {
        assert longer[..i] == order;
      }
    }
  }

  /** A dependency order of part of a set that holds its own dependencies extends to all of it. */
  lemma {:induction false} ExtendWithin<N(!new)>(g: Graph<N>, s: set<N>, order: seq<N>) returns (full: seq<N>)
    requires Acyclic(g) && s <= g.Keys && TopoOrder(g, order) && forall a :: a in order ==> a in s
    requires forall a, b :: a in s && Dep(g, a, b) ==> b in s
    ensures TopoOrder(g, full) && order <= full && forall a :: a in full <==> a in s
    decreases |s| - |order|
  {
    DistinctCardinality(order, s);
    if left :| left in s && left !in order {
      var next := FirstFree(g, s, order, left);
      TopoAppend(g, order, next);
      DistinctCardinality(order + [next], s);
      full := ExtendWithin(g, s, order + [next]);
    } else {
      full := order;
    }
  }

  /** Of what is left to order, something depends on nothing that is left. */
  lemma FirstFree<N(!new)>(g: Graph<N>, s: set<N>, order: seq<N>, left: N) returns (a: N)
    requires Acyclic(g) && left in s && left !in order
    requires forall a, b :: a in s && Dep(g, a, b) ==> b in s
    ensures a in s && a !in order && forall d :: Dep(g, a, d) ==> d in order
  {
    var rest := set x | x in s && x !in order;
    if forall x :: x in rest ==> DependsInside(g, rest, x) {
      var c := TrappedSetHasCycle(g, rest, [left]);
      assert false;
    }
    a :| a in rest && !DependsInside(g, rest, a);
  }

  /** If a does not depend on x, some dependency order puts a before x. */
  lemma OrderBefore<N(!new)>(g: Graph<N>, a: N, x: N) returns (order: seq<N>, i: nat)
    requires Closed(g) && Acyclic(g) && a in g && !Upstream(g, a, x)
    ensures TopoOrder(g, order) && (forall y :: y in order <==> y in g)
    ensures i < |order| && order[i] == a && x !in order[..i]
  {
    var above := set y | y in g && Upstream(g, a, y);
    forall y, b | y in above && Dep(g, y, b) ensures b in above {
      UpstreamDep(g, y, b);
      UpstreamTransitive(g, a, y, b);
    }
    var before := ExtendWithin(g, above, []);
    forall d | Dep(g, a, d) ensures d in before {
      UpstreamDep(g, a, d);
    }
    TopoAppend(g, before, a);
    order := ExtendWithin(g, g.Keys, before + [a]);
    i := |before|;
    assert order[i] == (before + [a])[i] && order[..i] == (before + [a])[..i] == before;
  }

  lemma {:induction false} UpstreamComesBefore<N(!new)>(g: Graph<N>, order: seq<N>, i: nat, w: seq<N>)
    requires TopoOrder(g, order) && i < |order|
    requires IsWalk(g, w) && |w| >= 2 && w[0] == order[i]
    ensures w[|w| - 1] in order[..i]
    decreases i
  {
    WalkTail(g, w);
    var j :| 0 <= j < i && order[j] == w[1];
    if |w| > 2 {
      UpstreamComesBefore(g, order, j, w[1..]);
    }
  }

  lemma TopoOrderRulesOutCycles<N(!new)>(g: Graph<N>, order: seq<N>, a: N)
    requires TopoOrder(g, order) && a in order
    ensures !Upstream(g, a, a)
  {
    if Upstream(g, a, a) {
      var i :| 0 <= i < |order| && order[i] == a;
      var w :| Connects(g, w, a, a);
      UpstreamComesBefore(g, order, i, w);
      assert false;
    }
  }

  /** A dependency chain of n edges starts at a. */
  ghost predicate HasChain<N(!new)>(g: Graph<N>, a: N, n: nat)
    decreases n
  {
    n == 0 || (a in g && exists b :: b in g[a] && HasChain(g, b, n - 1))
  }

  /** n is the length of the longest dependency chain from a. */
  ghost predicate LongestChain<N(!new)>(g: Graph<N>, a: N, n: nat) {
    HasChain(g, a, n) && !HasChain(g, a, n + 1)
  }

  lemma {:induction false} ChainPrefix<N(!new)>(g: Graph<N>, a: N, m: nat, n: nat)
    requires HasChain(g, a, n) && m <= n
    ensures HasChain(g, a, m)
    decreases n
  {
    if m > 0 {
      var b :| b in g[a] && HasChain(g, b, n - 1);
      ChainPrefix(g, b, m - 1, n - 1);
    }
  }

  lemma {:induction false} ChainWalk<N(!new)>(g: Graph<N>, a: N, n: nat) returns (w: seq<N>)
    requires HasChain(g, a, n)
    ensures IsWalk(g, w) && |w| == n + 1 && w[0] == a
    decreases n
  {
    if n == 0 {
      w := [a];
    } else {
      var b :| b in g[a] && HasChain(g, b, n - 1);
      var t := ChainWalk(g, b, n - 1);
      w := [a] + t;
      forall i, j | 0 <= i && j == i + 1 < |w| ensures Dep(g, w[i], w[j]) {
        if i > 0 { assert Dep(g, t[i - 1], t[j - 1]); }
      }
    }
  }

  /** In an acyclic graph no chain has more edges than there are steps. */
  lemma AcyclicBoundsChains<N(!new)>(g: Graph<N>, a: N)
    requires Acyclic(g)
    ensures !HasChain(g, a, |g.Keys| + 1)
  {
    if HasChain(g, a, |g.Keys| + 1) {
      var w := ChainWalk(g, a, |g.Keys| + 1);
      var sources := w[..|w| - 1];
      forall i, j | 0 <= i < j < |sources| ensures sources[i] != sources[j] {
        if w[i] == w[j] { RepeatMakesCycle(g, w, i, j); }
      }
      forall x | x in sources ensures x in g.Keys {
        var i :| 0 <= i < |sources| && sources[i] == x;
        assert Dep(g, w[i], w[i + 1]);
      }
      DistinctCardinality(sources, g.Keys);
    }
  }

  /** Every step of an acyclic graph has a longest chain. */
  lemma LongestChainExists<N(!new)>(g: Graph<N>, a: N) returns (n: nat)
    requires Acyclic(g)
    ensures LongestChain(g, a, n) && n <= |g.Keys|
  {
    AcyclicBoundsChains(g, a);
    n := 0;
    while HasChain(g, a, n + 1)
      invariant HasChain(g, a, n) && n <= |g.Keys|
      decreases |g.Keys| - n
    {
      n := n + 1;
    }
  }
}
