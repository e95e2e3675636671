/** upstreamOf (internal/workflow/validate.go:561-583): a breadth-first search along depends_on. */
module UpstreamSearch {
  import opened WorkflowModel
  import opened DependencyGraph
  import opened StructureValidator

  /** The graph a map of dependency lists draws. */
  ghost function ListGraph<N>(dependsMap: map<N, seq<N>>): Graph<N> {
    map n | n in dependsMap :: set d | d in dependsMap[n]
  }

  /** What holds whenever the search tests its guard: everything visited is upstream, and a
      node whose dependencies are not all visited is still queued. */
  ghost predicate SearchInvariant<N(!new)>(g: Graph<N>, source: N, visited: set<N>, queue: seq<N>) {
    && (forall n :: n in visited ==> Upstream(g, source, n))
    && (forall n :: n in queue ==> n == source || n in visited)
    && (forall n, d :: (n == source || n in visited) && n !in queue && Dep(g, n, d) ==> d in visited)
  }

  method Search<N(==,!new)>(source: N, dependsMap: map<N, seq<N>>) returns (visited: set<N>)
    ensures forall n :: n in visited <==> Upstream(ListGraph(dependsMap), source, n)
  {
    ghost var g := ListGraph(dependsMap);
    ghost var nodes := set n, d | n in dependsMap && d in dependsMap[n] :: d;
    visited := {};
    var queue := [source];
    while |queue| > 0
      invariant visited <= nodes && SearchInvariant(g, source, visited, queue)
      decreases nodes - visited, |queue|
    {
      var cur := queue[0];
      assert cur in queue;
      ghost var visited0, queue0 := visited, queue;
      queue := queue[1..];
      var deps := if cur in dependsMap then dependsMap[cur] else [];
      for i := 0 to |deps|
        invariant visited0 <= visited <= nodes
        invariant queue0[1..] <= queue
        invariant visited == visited0 ==> queue == queue0[1..]
        invariant forall n :: n in visited ==> Upstream(g, source, n)
        invariant forall n :: n in queue ==> n == source || n in visited
        invariant forall n :: n in visited && n !in visited0 ==> n in queue
        invariant forall j :: 0 <= j < i ==> deps[j] in visited
      {
        var dep := deps[i];
        if dep !in visited {
          UpstreamStep(g, source, cur, dep, visited0);
          visited := visited + {dep};
          queue := queue + [dep];
        }
      }
      assert forall n :: n in queue0 ==> n == cur || n in queue0[1..];
    }
    SearchComplete(g, source, visited);
  }

  lemma UpstreamStep<N(!new)>(g: Graph<N>, source: N, cur: N, dep: N, visited: set<N>)
    requires Dep(g, cur, dep)
    requires cur == source || Upstream(g, source, cur)
    ensures Upstream(g, source, dep)
  {
    UpstreamDep(g, cur, dep);
    if cur != source {
      UpstreamTransitive(g, source, cur, dep);
    }
  }

  lemma SearchComplete<N(!new)>(g: Graph<N>, source: N, visited: set<N>)
    requires SearchInvariant(g, source, visited, [])
    ensures forall n :: Upstream(g, source, n) ==> n in visited
  {
    forall n | Upstream(g, source, n) ensures n in visited {
      var b := UpstreamFirst(g, source, n);
      if b != n {
        var w :| Connects(g, w, b, n);
        ClosedSetKeepsUpstream(g, visited, w);
      }
    }
  }

  /** upstreamOf finds the transitive closure of depends_on, exactly, on any step list. */
  method UpstreamOf(stepId: StepId, steps: seq<StepDef>) returns (visited: set<StepId>)
    ensures forall id :: id in visited <==> Upstream(GraphOf(StepMap(steps)), stepId, id)
  {
    var dependsMap: map<StepId, seq<StepId>> := map[];
    for n := 0 to |steps|
      invariant dependsMap == map id | id in StepMap(steps[..n]) :: StepMap(steps[..n])[id].dependsOn
    {
      assert steps[..n + 1][..n] == steps[..n];
      dependsMap := dependsMap[steps[n].id := steps[n].dependsOn];
    }
    assert steps[..|steps|] == steps;
    assert ListGraph(dependsMap) == GraphOf(StepMap(steps));
    visited := Search(stepId, dependsMap);
  }
}
