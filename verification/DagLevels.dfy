/** computeLevels of the run view (web/src/components/DAGGraph.tsx:221-244): a memoised
    depth-first search for the longest dependency chain of each step. */
module DagLevels {
  import opened WorkflowModel
  import opened DependencyGraph
  import opened StructureValidator

  /** steps.find(s => s.id === id) */
  function Find(steps: seq<StepDef>, id: StepId): Option<StepDef> {
    if steps == [] then None else if steps[0].id == id then Some(steps[0]) else Find(steps[1..], id)
  }

  function IdsOf(steps: seq<StepDef>): set<StepId> {
    set s | s in steps :: s.id
  }

  /** The graph the search walks: of steps sharing an ID the first counts. */
  function FoundGraph(steps: seq<StepDef>): Graph<StepId> {
    map id | id in IdsOf(steps) :: FoundDeps(steps, id)
  }

  function FoundDeps(steps: seq<StepDef>, id: StepId): set<StepId> {
    var f := Find(steps, id);
    if f.None? then {} else set d | d in f.value.dependsOn
  }

  lemma {:induction false} FindFinds(steps: seq<StepDef>, id: StepId)
    ensures Find(steps, id).Some? <==> id in IdsOf(steps)
    ensures Find(steps, id).Some? ==> Find(steps, id).value in steps && Find(steps, id).value.id == id
  {
    if steps != [] {
      FindFinds(steps[1..], id);
      assert forall s :: s in steps <==> s == steps[0] || s in steps[1..];
    }
  }

  /** With unique IDs this is the graph the scheduler runs. */
  lemma FoundGraphIsStepGraph(steps: seq<StepDef>)
    requires UniqueIds(steps)
    ensures FoundGraph(steps) == GraphOf(StepMap(steps))
  {
    StepMapContents(steps);
    hide StepMap, Find, UniqueIds;
    forall id | id in IdsOf(steps) ensures FoundDeps(steps, id) == GraphOf(StepMap(steps))[id] {
      FindFinds(steps, id);
      assert Find(steps, id).value == StepMap(steps)[id];
    }
    hide FoundDeps;
    assert FoundGraph(steps).Keys == GraphOf(StepMap(steps)).Keys;
  }

  class LevelSearch {
    const steps: seq<StepDef>
    var levels: map<StepId, nat>
    var visited: set<StepId>

    constructor (steps: seq<StepDef>)
      ensures this.steps == steps && levels == map[] && visited == {}
    {
      this.steps, levels, visited := steps, map[], {};
    }

    ghost function G(): Graph<StepId> {
      FoundGraph(steps)
    }

    /** The visited IDs are those with a level and those whose visit is still on the stack;
        without a cycle every level set is the length of the longest chain. */
    ghost predicate Valid(stack: set<StepId>)
      reads this
    {
      && visited == levels.Keys + stack && levels.Keys !! stack
      && (Acyclic(G()) ==> forall id :: id in levels ==> LongestChain(G(), id, levels[id]))
    }

    /** Everything on the stack depends on id. */
    ghost predicate Above(stack: set<StepId>, id: StepId) {
      forall s :: s in stack ==> Upstream(G(), s, id)
    }

    /** visit(id). It ends on cyclic input too: a step is expanded only on its first visit. */
    method Visit(id: StepId, ghost stack: set<StepId>) returns (level: nat)
      requires Valid(stack) && Above(stack, id)
      modifies this
      ensures Valid(stack) && old(visited) <= visited
      ensures id in visited
      ensures Acyclic(G()) ==> LongestChain(G(), id, level)
      decreases IdsOf(steps) - visited
    {
      if id in levels {
        return levels[id];
      }
      if id in visited {
        return 0;
      }
      visited := visited + {id};
      var step := Find(steps, id);
      FindFinds(steps, id);
      if step.None? || |step.value.dependsOn| == 0 {
        NoChain(G(), id);
        levels := levels[id := 0];
        return 0;
      }
      var deps := step.value.dependsOn;
      var maxDep := 0;
      for i := 0 to |deps|
        invariant Valid(stack + {id}) && old(visited) + {id} <= visited
        invariant i > 0 ==> maxDep > 0
        invariant Acyclic(G()) ==> HasChain(G(), id, maxDep)
        invariant Acyclic(G()) ==> forall d :: d in deps[..i] ==> !HasChain(G(), d, maxDep)
      {
        UnderDep(G(), stack, id, deps[i]);
        var sub := Visit(deps[i], stack + {id});
        if Acyclic(G()) {
          ChainMax(G(), id, deps[..i], deps[i], maxDep, sub);
        }
        maxDep := if sub + 1 > maxDep then sub + 1 else maxDep;
        assert deps[..i + 1] == deps[..i] + [deps[i]];
      }
      assert deps[..|deps|] == deps;
      if Acyclic(G()) {
        assert !HasChain(G(), id, maxDep + 1);
      }
      levels := levels[id := maxDep];
      return maxDep;
    }
  }

  lemma NoChain(g: Graph<StepId>, id: StepId)
    requires id !in g || g[id] == {}
    ensures LongestChain(g, id, 0)
  {
  }

  lemma UnderDep(g: Graph<StepId>, stack: set<StepId>, id: StepId, d: StepId)
    requires Dep(g, id, d) && forall s :: s in stack ==> Upstream(g, s, id)
    ensures forall s :: s in stack + {id} ==> Upstream(g, s, d)
  {
    UpstreamDep(g, id, d);
    forall s | s in stack ensures Upstream(g, s, d) {
      UpstreamTransitive(g, s, id, d);
    }
  }

  /** The running maximum covers one dependency more. */
  lemma ChainMax(g: Graph<StepId>, id: StepId, seen: seq<StepId>, d: StepId, maxDep: nat, sub: nat)
    requires Dep(g, id, d) && LongestChain(g, d, sub) && HasChain(g, id, maxDep)
    requires forall x :: x in seen ==> !HasChain(g, x, maxDep)
    ensures var m := if sub + 1 > maxDep then sub + 1 else maxDep;
      && HasChain(g, id, m)
      && forall x :: x in seen + [d] ==> !HasChain(g, x, m)
  {
    var m := if sub + 1 > maxDep then sub + 1 else maxDep;
    assert HasChain(g, id, sub + 1);
    forall x | x in seen + [d] ensures !HasChain(g, x, m) {
      if HasChain(g, x, m) {
        if x == d { ChainPrefix(g, d, sub + 1, m); } else { ChainPrefix(g, x, maxDep, m); }
      }
    }
  }

  /** computeLevels: every step gets a level, and in an acyclic workflow it is the length of
      the step's longest dependency chain. */
  method ComputeLevels(steps: seq<StepDef>) returns (levels: map<StepId, nat>)
    ensures forall s :: s in steps ==> s.id in levels
    ensures Acyclic(FoundGraph(steps)) ==> forall id :: id in levels ==> LongestChain(FoundGraph(steps), id, levels[id])
  {
    var search := new LevelSearch(steps);
    for i := 0 to |steps|
      invariant search.steps == steps && search.Valid({})
      invariant forall j :: 0 <= j < i ==> steps[j].id in search.visited
    {
      var _ := search.Visit(steps[i].id, {});
    }
    levels := search.levels;
  }
}
