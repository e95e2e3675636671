/** Kahn's algorithm as validateStructure runs it (internal/workflow/validate.go:135-175):
    edges counted with their multiplicity, a work queue, and a count of processed nodes. */
module Kahn {
  import opened DependencyGraph
  import opened Sequences

  /** An edge from a dependency to the step that names it, once for each time it is named. */
  datatype Edge<N> = Edge(dep: N, id: N)

  /** The steps that name d, once for each time they do. */
  function Targets<N(==)>(edges: seq<Edge<N>>, d: N): seq<N> {
    if edges == [] then [] else
    var e := edges[|edges| - 1];
    Targets(edges[..|edges| - 1], d) + if e.dep == d then [e.id] else []
  }

  /** Edges into id from steps not yet processed. */
  function Unprocessed<N(==)>(edges: seq<Edge<N>>, id: N, done: set<N>): nat {
    if edges == [] then 0 else
    var e := edges[|edges| - 1];
    Unprocessed(edges[..|edges| - 1], id, done) + if e.id == id && e.dep !in done then 1 else 0
  }

  function Occurrences<N(==)>(ids: seq<N>, id: N): nat {
    if ids == [] then 0 else Occurrences(ids[1..], id) + if ids[0] == id then 1 else 0
  }

  lemma {:induction false} OccurrencesSnoc<N(!new)>(ids: seq<N>, x: N, id: N)
    ensures Occurrences(ids + [x], id) == Occurrences(ids, id) + if x == id then 1 else 0
  {
    if ids != [] {
      assert (ids + [x])[1..] == ids[1..] + [x];
      OccurrencesSnoc(ids[1..], x, id);
    }
  }

  /** Processing cur accounts for exactly the edges that leave it. */
  lemma {:induction false} ProcessingStep<N(!new)>(edges: seq<Edge<N>>, id: N, done: set<N>, cur: N)
    requires cur !in done
    ensures Unprocessed(edges, id, done) ==
            Unprocessed(edges, id, done + {cur}) + Occurrences(Targets(edges, cur), id)
  {
    if edges != [] {
      var init, e := edges[..|edges| - 1], edges[|edges| - 1];
      ProcessingStep(init, id, done, cur);
      if e.dep == cur {
        OccurrencesSnoc(Targets(init, cur), e.id, id);
        assert Targets(edges, cur) == Targets(init, cur) + [e.id];
      } else {
        assert Targets(edges, cur) == Targets(init, cur);
        assert e.dep in done + {cur} <==> e.dep in done;
      }
    }
  }

  lemma {:induction false} UnprocessedPositive<N(!new)>(edges: seq<Edge<N>>, id: N, done: set<N>)
    ensures Unprocessed(edges, id, done) > 0 <==> exists e :: e in edges && e.id == id && e.dep !in done
  {
    if edges != [] {
      UnprocessedPositive(edges[..|edges| - 1], id, done);
      var e := edges[|edges| - 1];
      assert forall x :: x in edges <==> x in edges[..|edges| - 1] || x == e;
    }
  }

  lemma {:induction false} TargetsAreEdges<N(!new)>(edges: seq<Edge<N>>, d: N, id: N)
    ensures id in Targets(edges, d) <==> Edge(d, id) in edges
  {
    if edges != [] {
      TargetsAreEdges(edges[..|edges| - 1], d, id);
      assert forall x :: x in edges <==> x in edges[..|edges| - 1] || x == edges[|edges| - 1];
    }
  }

  /** The edge list says exactly what the graph says. */
  ghost predicate EdgesOf<N(!new)>(edges: seq<Edge<N>>, g: Graph<N>) {
    && (forall e :: e in edges ==> Dep(g, e.id, e.dep))
    && (forall id, d :: Dep(g, id, d) ==> Edge(d, id) in edges)
  }

  /** inDegree and adj record exactly the edges met so far. */
  ghost predicate Tabulates<N(!new)>(inDegree: map<N, int>, adj: map<N, seq<N>>, edges: seq<Edge<N>>) {
    && (forall id :: id in inDegree ==> inDegree[id] == Unprocessed(edges, id, {}))
    && (forall d :: (if d in adj then adj[d] else []) == Targets(edges, d))
    && (forall e :: e in edges ==> e.id in inDegree)
  }

  lemma SnocEdge<N(!new)>(edges: seq<Edge<N>>, e: Edge, x: N, done: set<N>)
    ensures Targets(edges + [e], x) == Targets(edges, x) + if e.dep == x then [e.id] else []
    ensures Unprocessed(edges + [e], x, done) ==
            Unprocessed(edges, x, done) + if e.id == x && e.dep !in done then 1 else 0
  {
    assert (edges + [e])[..|edges|] == edges;
  }

  lemma TabulateEdge<N(!new)>(inDegree: map<N, int>, adj: map<N, seq<N>>, edges: seq<Edge<N>>, e: Edge<N>)
    requires Tabulates(inDegree, adj, edges) && e.id in inDegree
    ensures Tabulates(inDegree[e.id := inDegree[e.id] + 1],
                      adj[e.dep := (if e.dep in adj then adj[e.dep] else []) + [e.id]], edges + [e])
  {
    hide Targets, Unprocessed;
    forall x ensures Targets(edges + [e], x) == Targets(edges, x) + (if e.dep == x then [e.id] else [])
                  && Unprocessed(edges + [e], x, {}) == Unprocessed(edges, x, {}) + (if e.id == x then 1 else 0) {
      SnocEdge(edges, e, x, {});
    }
  }

  lemma TabulateStep<N(!new)>(inDegree: map<N, int>, adj: map<N, seq<N>>, edges: seq<Edge<N>>, id: N)
    requires Tabulates(inDegree, adj, edges) && id !in inDegree
    ensures Tabulates(inDegree[id := 0], adj, edges)
  {
    UnprocessedPositive(edges, id, {});
  }

  /** The queue holds exactly the unprocessed IDs whose count has come down to zero. */
  ghost predicate QueueReady<N(!new)>(queue: seq<N>, inDegree: map<N, int>, done: set<N>) {
    && Distinct(queue)
    && forall id :: id in queue <==> id in inDegree && id !in done && inDegree[id] == 0
  }

  /** The initial queue, in whatever order the map iteration gives it. */
  method InitialQueue<N(==,!new)>(inDegree: map<N, int>) returns (queue: seq<N>)
    ensures QueueReady(queue, inDegree, {})
  {
    queue := [];
    var todo := inDegree.Keys;
    while todo != {}
      invariant todo <= inDegree.Keys && Distinct(queue)
      invariant forall id :: id in queue <==> id in inDegree && id !in todo && inDegree[id] == 0
      decreases todo
    {
      var id :| id in todo;
      todo := todo - {id};
      if inDegree[id] == 0 {
        queue := queue + [id];
      }
    }
  }

  /** What holds whenever the queue loop tests its guard. */
  ghost predicate KahnInvariant<N(!new)>(g: Graph<N>, edges: seq<Edge<N>>, inDegree: map<N, int>,
                                queue: seq<N>, dequeued: seq<N>, done: set<N>) {
    && inDegree.Keys == g.Keys
    && done == (set id | id in dequeued)
    && QueueReady(queue, inDegree, done)
    && TopoOrder(g, dequeued)
    && forall id :: id in g ==> inDegree[id] == Unprocessed(edges, id, done)
  }

  /** The queue loop. processed counts the IDs that come off the queue: each at most once,
      after everything it depends on, and all of them exactly when there is no cycle. */
  method CountProcessed<N(==,!new)>(ghost g: Graph<N>, inDegree0: map<N, int>, adj: map<N, seq<N>>,
                                    ghost edges: seq<Edge<N>>)
    returns (processed: nat, dequeued: seq<N>)
    requires EdgesOf(edges, g) && Closed(g) && inDegree0.Keys == g.Keys
    requires Tabulates(inDegree0, adj, edges)
    ensures processed == |dequeued| && TopoOrder(g, dequeued)
    ensures processed <= |g| && (processed == |g| <==> Acyclic(g))
  {
    var inDegree := inDegree0;
    var queue := InitialQueue(inDegree);
    dequeued, processed := [], 0;
    ghost var done: set<N> := {};
    assert KahnInvariant(g, edges, inDegree, queue, dequeued, done);
    hide KahnInvariant, QueueReady, Tabulates, TopoOrder, EdgesOf, Unprocessed;
    while |queue| > 0
      invariant KahnInvariant(g, edges, inDegree, queue, dequeued, done) && processed == |dequeued|
      decreases g.Keys - done
    {
      var cur := queue[0];
      var nexts := if cur in adj then adj[cur] else [];
      NextsAreTargets(inDegree0, adj, edges, cur);
      DequeueStep(g, edges, inDegree, queue, dequeued, done, nexts);
      queue := queue[1..];
      processed := processed + 1;
      dequeued := dequeued + [cur];
      done := done + {cur};
      inDegree, queue := Decrement(g, inDegree, queue, done, nexts, edges, cur);
      KahnResumes(g, edges, inDegree, queue, dequeued, done);
    }
    KahnVerdict(g, edges, inDegree, queue, dequeued, done);
  }

  lemma NextsAreTargets<N(!new)>(inDegree: map<N, int>, adj: map<N, seq<N>>, edges: seq<Edge<N>>, cur: N)
    requires Tabulates(inDegree, adj, edges)
    ensures (if cur in adj then adj[cur] else []) == Targets(edges, cur)
  {
  }

  lemma KahnResumes<N(!new)>(g: Graph<N>, edges: seq<Edge<N>>, inDegree: map<N, int>, queue: seq<N>,
                    dequeued: seq<N>, done: set<N>)
    requires inDegree.Keys == g.Keys && done == (set id | id in dequeued)
    requires QueueReady(queue, inDegree, done) && TopoOrder(g, dequeued)
    requires forall id :: id in g ==> inDegree[id] == Unprocessed(edges, id, done)
    ensures KahnInvariant(g, edges, inDegree, queue, dequeued, done)
  {
  }

  /** Taking the head off the queue: its dependencies are processed, and the edges that
      leave it are the difference the inner loop still has to subtract. */
  lemma DequeueStep<N(!new)>(g: Graph<N>, edges: seq<Edge<N>>, inDegree: map<N, int>, queue: seq<N>,
                    dequeued: seq<N>, done: set<N>, nexts: seq<N>)
    requires EdgesOf(edges, g) && KahnInvariant(g, edges, inDegree, queue, dequeued, done)
    requires |queue| > 0 && nexts == Targets(edges, queue[0])
    ensures inDegree.Keys == g.Keys && queue[0] in g && queue[0] !in done
    ensures QueueReady(queue[1..], inDegree, done + {queue[0]})
    ensures TopoOrder(g, dequeued + [queue[0]])
    ensures done + {queue[0]} == set id | id in dequeued + [queue[0]]
    ensures forall id :: id in g ==> inDegree[id] == Unprocessed(edges, id, done + {queue[0]}) + Occurrences(nexts, id)
    ensures forall id :: id in g && id in done + {queue[0]} ==> inDegree[id] == 0
  {
    var cur := queue[0];
    assert cur in queue;
    AllSourcesDone(g, edges, cur, done);
    TopoAppend(g, dequeued, cur);
    forall id | id in g
      ensures inDegree[id] == Unprocessed(edges, id, done + {cur}) + Occurrences(nexts, id)
    {
      ProcessingStep(edges, id, done, cur);
    }
    forall id | id in g && id in done ensures inDegree[id] == 0 {
      var i :| 0 <= i < |dequeued| && dequeued[i] == id;
      UnprocessedPositive(edges, id, done);
    }
  }

  lemma AllSourcesDone<N(!new)>(g: Graph<N>, edges: seq<Edge<N>>, cur: N, done: set<N>)
    requires EdgesOf(edges, g) && Unprocessed(edges, cur, done) == 0
    ensures forall d :: Dep(g, cur, d) ==> d in done
  {
    UnprocessedPositive(edges, cur, done);
    forall d | Dep(g, cur, d) ensures d in done {
      assert Edge(d, cur) in edges;
    }
  }

  /** The inner loop of Kahn's algorithm. */
  method Decrement<N(==,!new)>(ghost g: Graph<N>, inDegree0: map<N, int>, queue0: seq<N>, ghost done: set<N>,
                   nexts: seq<N>, ghost edges: seq<Edge<N>>, ghost cur: N)
    returns (inDegree: map<N, int>, queue: seq<N>)
    requires EdgesOf(edges, g) && inDegree0.Keys == g.Keys && nexts == Targets(edges, cur)
    requires QueueReady(queue0, inDegree0, done)
    requires forall id :: id in g && id in done ==> inDegree0[id] == 0
    requires forall id :: id in g ==> inDegree0[id] == Unprocessed(edges, id, done) + Occurrences(nexts, id)
    ensures inDegree.Keys == g.Keys && QueueReady(queue, inDegree, done)
    ensures forall id :: id in g ==> inDegree[id] == Unprocessed(edges, id, done)
  {
    inDegree, queue := inDegree0, queue0;
    for n := 0 to |nexts|
      invariant inDegree.Keys == g.Keys && QueueReady(queue, inDegree, done)
      invariant forall id :: id in g && id in done ==> inDegree[id] == 0
      invariant forall id :: id in g ==> inDegree[id] == Unprocessed(edges, id, done) + Occurrences(nexts[n..], id)
    {
      var next := nexts[n];
      assert next in Targets(edges, cur);
      TargetsAreEdges(edges, cur, next);
      assert nexts[n..][1..] == nexts[n + 1..];
      assert inDegree[next] >= 1 && next !in done && next !in queue;
      inDegree := inDegree[next := inDegree[next] - 1];
      if inDegree[next] == 0 {
        queue := queue + [next];
      }
    }
    assert nexts[|nexts|..] == [];
  }

  lemma KahnVerdict<N(!new)>(g: Graph<N>, edges: seq<Edge<N>>, inDegree: map<N, int>, queue: seq<N>,
                    dequeued: seq<N>, done: set<N>)
    requires EdgesOf(edges, g) && Closed(g)
    requires KahnInvariant(g, edges, inDegree, queue, dequeued, done) && queue == []
    ensures TopoOrder(g, dequeued)
    ensures |dequeued| <= |g| && (|dequeued| == |g| <==> Acyclic(g))
  {
    DistinctCardinality(dequeued, g.Keys);
    SetOfDistinct(dequeued);
    if |dequeued| == |g| {
      assert done <= g.Keys;
      SubsetOfSameSize(done, g.Keys);
      forall a ensures !Upstream(g, a, a) {
        if a in g {
          TopoOrderRulesOutCycles(g, dequeued, a);
        } else if Upstream(g, a, a) {
          var _ := UpstreamFirst(g, a, a);
        }
      }
    } else {
      var left := g.Keys - done;
      forall a | a in left ensures DependsInside(g, left, a) {
        UnprocessedPositive(edges, a, done);
        var e :| e in edges && e.id == a && e.dep !in done;
        assert Dep(g, a, e.dep);
      }
      if left == {} {
        forall a | a in g.Keys ensures a in done { assert a !in left; }
        SubsetSize(g.Keys, done);
      }
      var a :| a in left;
      var c := TrappedSetHasCycle(g, left, [a]);
    }
  }

  lemma {:induction false} SetOfDistinct<N(!new)>(s: seq<N>)
    requires Distinct(s)
    ensures |set x | x in s| == |s|
  {
    if s != [] {
      var t, x := s[..|s| - 1], s[|s| - 1];
      SetOfDistinct(t);
      assert (set y | y in s) == (set y | y in t) + {x};
    }
  }

  lemma SubsetOfSameSize<N(!new)>(a: set<N>, b: set<N>)
    requires a <= b && |a| == |b|
    ensures a == b
  {
    if x :| x in b && x !in a {
      assert a <= b - {x};
      SubsetSize(a, b - {x});
    }
  }
}
