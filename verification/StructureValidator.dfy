/** validateStructure (internal/workflow/validate.go): step IDs, dependency references,
    cycle detection by Kahn's algorithm, and step kinds. */
module StructureValidator {
  import opened WorkflowModel
  import opened DependencyGraph
  import opened Kahn

  /** One constructor for each error the function can report; its arguments fix the message. */
  datatype ValidationError =
    | EmptyId
    | BadId(id: StepId)
    | DuplicateId(id: StepId)
    | UnknownDependency(id: StepId, dep: StepId)
    | CycleDetected
    | BothKinds(id: StepId)
    | NeitherKind(id: StepId)

  /** ^[a-z][a-z0-9_-]*$ */
  predicate MatchesStepId(s: string) {
    && |s| > 0
    && 'a' <= s[0] <= 'z'
    && forall i | 0 < i < |s| :: 'a' <= s[i] <= 'z' || '0' <= s[i] <= '9' || s[i] == '_' || s[i] == '-'
  }

  function ValidIds(steps: seq<StepDef>): set<StepId> {
    set s | s in steps && s.id.name != "" && MatchesStepId(s.id.name) :: s.id
  }

  /** The dependency relation over the valid IDs; steps that share an ID pool their dependencies. */
  function ValidGraph(steps: seq<StepDef>): Graph<StepId> {
    map id | id in ValidIds(steps) :: DepsOf(steps, id)
  }

  function DepsOf(steps: seq<StepDef>, id: StepId): set<StepId> {
    set s, d | s in steps && s.id == id && d in s.dependsOn && d in ValidIds(steps) :: d
  }

  // --- what is reported -------------------------------------------------

  function IdErrors(steps: seq<StepDef>): seq<ValidationError> {
    if steps == [] then [] else
    var earlier, s := steps[..|steps| - 1], steps[|steps| - 1];
    IdErrors(earlier) +
    if s.id.name == "" then [EmptyId] else
      (if MatchesStepId(s.id.name) then [] else [BadId(s.id)]) +
      (if exists e :: e in earlier && e.id == s.id then [DuplicateId(s.id)] else [])
  }

  function UnknownDeps(id: StepId, deps: seq<StepId>, valid: set<StepId>): seq<ValidationError> {
    if deps == [] then [] else
    UnknownDeps(id, deps[..|deps| - 1], valid) +
    if deps[|deps| - 1] in valid then [] else [UnknownDependency(id, deps[|deps| - 1])]
  }

  function DependencyErrors(steps: seq<StepDef>, valid: set<StepId>): seq<ValidationError> {
    if steps == [] then [] else
    var s := steps[|steps| - 1];
    DependencyErrors(steps[..|steps| - 1], valid) + UnknownDeps(s.id, s.dependsOn, valid)
  }

  function KindErrors(steps: seq<StepDef>): seq<ValidationError> {
    if steps == [] then [] else
    var s := steps[|steps| - 1];
    KindErrors(steps[..|steps| - 1]) +
    if s.execution.Some? && s.action.Some? then [BothKinds(s.id)]
    else if s.execution.None? && s.action.None? then [NeitherKind(s.id)]
    else []
  }

  ghost function CycleErrors(g: Graph<StepId>): seq<ValidationError> {
    if Acyclic(g) then [] else [CycleDetected]
  }

  ghost function StructureErrors(steps: seq<StepDef>): seq<ValidationError> {
    IdErrors(steps) + DependencyErrors(steps, ValidIds(steps)) + CycleErrors(ValidGraph(steps)) + KindErrors(steps)
  }

  // --- the tables of Kahn's algorithm

  /** The edges one step adds: one for each time it names a valid ID. */
  function StepEdges(id: StepId, deps: seq<StepId>, valid: set<StepId>): seq<Edge<StepId>> {
    if deps == [] then [] else
    StepEdges(id, deps[..|deps| - 1], valid) + if deps[|deps| - 1] in valid then [Edge(deps[|deps| - 1], id)] else []
  }

  /** The edges of the first n steps, in the order they are met. */
  function EdgeList(steps: seq<StepDef>, valid: set<StepId>, n: nat): seq<Edge<StepId>>
    requires n <= |steps|
  {
    if n == 0 then [] else
    EdgeList(steps, valid, n - 1) + if steps[n - 1].id in valid
        then StepEdges(steps[n - 1].id, steps[n - 1].dependsOn, valid) else []
  }

  lemma {:induction false} StepEdgesAre(id: StepId, deps: seq<StepId>, valid: set<StepId>, e: Edge<StepId>)
    ensures e in StepEdges(id, deps, valid) <==> e.id == id && e.dep in deps && e.dep in valid
  {
    if deps != [] {
      StepEdgesAre(id, deps[..|deps| - 1], valid, e);
      assert deps == deps[..|deps| - 1] + [deps[|deps| - 1]];
    }
  }

  lemma {:induction false} EdgeListIs(steps: seq<StepDef>, valid: set<StepId>, n: nat, e: Edge<StepId>)
    requires n <= |steps|
    ensures e in EdgeList(steps, valid, n) <==>
      e.id in valid && e.dep in valid && exists k :: 0 <= k < n && steps[k].id == e.id && e.dep in steps[k].dependsOn
  {
    if n > 0 {
      EdgeListIs(steps, valid, n - 1, e);
      StepEdgesAre(steps[n - 1].id, steps[n - 1].dependsOn, valid, e);
    }
  }

  /** The valid IDs among the first n steps. */
  function Tabled(steps: seq<StepDef>, valid: set<StepId>, n: nat): set<StepId>
    requires n <= |steps|
  {
    if n == 0 then {} else
    Tabled(steps, valid, n - 1) + if steps[n - 1].id in valid then {steps[n - 1].id} else {}
  }

  /** The tables validateStructure builds before the queue loop: every edge counted as often as it is
      named. */
  method BuildTables(steps: seq<StepDef>, validIds: set<StepId>)
    returns (inDegree: map<StepId, int>, adj: map<StepId, seq<StepId>>)
    ensures Tabulates(inDegree, adj, EdgeList(steps, validIds, |steps|)) &&
        inDegree.Keys == Tabled(steps, validIds, |steps|)
  {
    hide Tabulates, StepEdges;
    inDegree, adj := map[], map[];
    EmptyTables();
    for n := 0 to |steps|
      invariant Tabulates(inDegree, adj, EdgeList(steps, validIds, n)) && inDegree.Keys == Tabled(steps, validIds, n)
    {
      if steps[n].id in validIds {
        inDegree, adj := AddStep(steps[n], validIds, inDegree, adj, EdgeList(steps, validIds, n));
      } else {
        assert EdgeList(steps, validIds, n + 1) == EdgeList(steps, validIds, n);
      }
    }
  }

  lemma EmptyTables()
    ensures Tabulates<StepId>(map[], map[], [])
  {
  }

  /** One step's row, and the loop over its depends_on list. */
  method AddStep(step: StepDef, validIds: set<StepId>,
                 inDegree0: map<StepId, int>, adj0: map<StepId, seq<StepId>>, ghost edges: seq<Edge<StepId>>)
    returns (inDegree: map<StepId, int>, adj: map<StepId, seq<StepId>>)
    requires step.id in validIds && Tabulates(inDegree0, adj0, edges)
    ensures inDegree.Keys == inDegree0.Keys + {step.id}
    ensures Tabulates(inDegree, adj, edges + StepEdges(step.id, step.dependsOn, validIds))
  {
    hide Tabulates;
    inDegree, adj := inDegree0, adj0;
    if step.id !in inDegree {
      TabulateStep(inDegree, adj, edges, step.id);
      inDegree := inDegree[step.id := 0];
    }
    assert edges + [] == edges;
    for m := 0 to |step.dependsOn|
      invariant inDegree.Keys == inDegree0.Keys + {step.id}
      invariant Tabulates(inDegree, adj, edges + StepEdges(step.id, step.dependsOn[..m], validIds))
    {
      var dep := step.dependsOn[m];
      ghost var met := StepEdges(step.id, step.dependsOn[..m], validIds);
      assert step.dependsOn[..m + 1][..m] == step.dependsOn[..m];
      if dep in validIds {
        TabulateEdge(inDegree, adj, edges + met, Edge(dep, step.id));
        adj := adj[dep := (if dep in adj then adj[dep] else []) + [step.id]];
        inDegree := inDegree[step.id := inDegree[step.id] + 1];
        assert edges + (met + [Edge(dep, step.id)]) == edges + met + [Edge(dep, step.id)];
      } else {
        assert met + [] == met;
      }
    }
    assert step.dependsOn[..|step.dependsOn|] == step.dependsOn;
  }

  /** The edges met are the dependency relation over the valid IDs. */
  lemma AllEdgesMet(steps: seq<StepDef>)
    ensures EdgesOf(EdgeList(steps, ValidIds(steps), |steps|), ValidGraph(steps))
  {
    var valid, g := ValidIds(steps), ValidGraph(steps);
    var edges := EdgeList(steps, valid, |steps|);
    forall id, d | Dep(g, id, d) ensures Edge(d, id) in edges {
      var s :| s in steps && s.id == id && d in s.dependsOn && d in valid;
      var k :| 0 <= k < |steps| && steps[k] == s;
      EdgeListIs(steps, valid, |steps|, Edge(d, id));
    }
    forall e | e in edges ensures Dep(g, e.id, e.dep) {
      EdgeListIs(steps, valid, |steps|, e);
      assert e.dep in DepsOf(steps, e.id);
    }
  }

  lemma {:induction false} TabledIds(steps: seq<StepDef>, valid: set<StepId>, n: nat)
    requires n <= |steps|
    ensures Tabled(steps, valid, n) <= valid
    ensures forall k :: 0 <= k < n && steps[k].id in valid ==> steps[k].id in Tabled(steps, valid, n)
  {
    if n > 0 {
      TabledIds(steps, valid, n - 1);
    }
  }

  lemma AllIdsTabled(steps: seq<StepDef>)
    ensures Tabled(steps, ValidIds(steps), |steps|) == ValidIds(steps)
  {
    TabledIds(steps, ValidIds(steps), |steps|);
    forall id | id in ValidIds(steps) ensures id in Tabled(steps, ValidIds(steps), |steps|) {
      var s :| s in steps && s.id == id;
      var k :| 0 <= k < |steps| && steps[k] == s;
    }
  }

  // --- the whole check -------------------------------------------------------

  method CheckIds(steps: seq<StepDef>) returns (errs: seq<ValidationError>)
    ensures errs == IdErrors(steps)
  {
    hide MatchesStepId;
    errs := [];
    var seen: set<StepId> := {};
    for n := 0 to |steps|
      invariant errs == IdErrors(steps[..n])
      invariant seen == set k | 0 <= k < n && steps[k].id.name != "" :: steps[k].id
    {
      var step := steps[n];
      assert steps[..n + 1][..n] == steps[..n];
      if step.id.name == "" {
        errs := errs + [EmptyId];
        continue;
      }
      assert step.id in seen <==> exists e :: e in steps[..n] && e.id == step.id;
      var found: seq<ValidationError> := [];
      if !MatchesStepId(step.id.name) {
        found := found + [BadId(step.id)];
      }
      if step.id in seen {
        found := found + [DuplicateId(step.id)];
      }
      errs := errs + found;
      seen := seen + {step.id};
    }
    assert steps[..|steps|] == steps;
  }

  method CheckDependencies(steps: seq<StepDef>, validIds: set<StepId>) returns (errs: seq<ValidationError>)
    ensures errs == DependencyErrors(steps, validIds)
  {
    errs := [];
    for n := 0 to |steps|
      invariant errs == DependencyErrors(steps[..n], validIds)
    {
      var step := steps[n];
      assert steps[..n + 1][..n] == steps[..n];
      var unknown := CheckStepDependencies(step.id, step.dependsOn, validIds);
      errs := errs + unknown;
    }
    assert steps[..|steps|] == steps;
  }

  method CheckStepDependencies(id: StepId, deps: seq<StepId>, validIds: set<StepId>)
    returns (errs: seq<ValidationError>)
    ensures errs == UnknownDeps(id, deps, validIds)
  {
    errs := [];
    for m := 0 to |deps|
      invariant errs == UnknownDeps(id, deps[..m], validIds)
    {
      assert deps[..m + 1][..m] == deps[..m];
      if deps[m] !in validIds {
        errs := errs + [UnknownDependency(id, deps[m])];
      }
    }
    assert deps[..|deps|] == deps;
  }

  method CheckKinds(steps: seq<StepDef>) returns (errs: seq<ValidationError>)
    ensures errs == KindErrors(steps)
  {
    errs := [];
    for n := 0 to |steps|
      invariant errs == KindErrors(steps[..n])
    {
      assert steps[..n + 1][..n] == steps[..n];
      var hasExec, hasAction := steps[n].execution.Some?, steps[n].action.Some?;
      if hasExec && hasAction {
        errs := errs + [BothKinds(steps[n].id)];
      } else if !hasExec && !hasAction {
        errs := errs + [NeitherKind(steps[n].id)];
      }
    }
    assert steps[..|steps|] == steps;
  }

  lemma ValidGraphKeys(steps: seq<StepDef>)
    ensures ValidGraph(steps).Keys == ValidIds(steps) && Closed(ValidGraph(steps))
  {
  }

  method ValidateStructure(steps: seq<StepDef>) returns (errs: seq<ValidationError>)
    ensures errs == StructureErrors(steps)
  {
    ValidGraphKeys(steps);
    hide IdErrors, DependencyErrors, KindErrors, EdgeList, ValidGraph, Tabled, ValidIds, Tabulates, Acyclic, EdgesOf,
        Closed;
    errs := CheckIds(steps);
    var validIds := ValidIds(steps);
    var depErrs := CheckDependencies(steps, validIds);
    errs := errs + depErrs;
    var inDegree, adj := BuildTables(steps, validIds);
    AllEdgesMet(steps);
    AllIdsTabled(steps);
    var processed, _ := CountProcessed(ValidGraph(steps), inDegree, adj, EdgeList(steps, validIds, |steps|));
    assert |inDegree| == |inDegree.Keys| == |ValidGraph(steps).Keys| == |ValidGraph(steps)|;
    if processed < |inDegree| {
      errs := errs + [CycleDetected];
    }
    var kindErrs := CheckKinds(steps);
    errs := errs + kindErrs;
  }

  // --- what an empty error list means -----------------------------------------

  /** The pending map of the scheduler, and the graph the steps draw: a later step with
      the same ID replaces an earlier one. */
  function StepMap(steps: seq<StepDef>): map<StepId, StepDef> {
    if steps == [] then map[] else
    StepMap(steps[..|steps| - 1])[steps[|steps| - 1].id := steps[|steps| - 1]]
  }

  function GraphOf(defs: map<StepId, StepDef>): Graph<StepId> {
    map id | id in defs :: set d | d in defs[id].dependsOn
  }

  /** Unique well-formed IDs, known dependencies, no cycle, one kind for each step. */
  ghost predicate WellFormed(steps: seq<StepDef>) {
    && GoodIds(steps)
    && UniqueIds(steps)
    && Closed(GraphOf(StepMap(steps)))
    && Acyclic(GraphOf(StepMap(steps)))
    && (forall i :: 0 <= i < |steps| ==> steps[i].execution.Some? != steps[i].action.Some?)
  }

  predicate UniqueIds(steps: seq<StepDef>) {
    forall i, j :: 0 <= i < j < |steps| ==> steps[i].id != steps[j].id
  }

  predicate GoodIds(steps: seq<StepDef>) {
    forall i :: 0 <= i < |steps| ==> MatchesStepId(steps[i].id.name)
  }

  lemma UniqueSnoc(earlier: seq<StepDef>, s: StepDef)
    ensures UniqueIds(earlier + [s]) <==> UniqueIds(earlier) && !exists e :: e in earlier && e.id == s.id
  {
    var steps := earlier + [s];
    if UniqueIds(steps) {
      forall i, j | 0 <= i < j < |earlier| ensures earlier[i].id != earlier[j].id {
        assert steps[i].id != steps[j].id;
      }
      forall e | e in earlier ensures e.id != s.id {
        var i :| 0 <= i < |earlier| && earlier[i] == e;
        assert steps[i].id != steps[|earlier|].id;
      }
    }
  }

  lemma GoodSnoc(earlier: seq<StepDef>, s: StepDef)
    ensures GoodIds(earlier + [s]) <==> GoodIds(earlier) && MatchesStepId(s.id.name)
  {
    hide MatchesStepId;
    assert (earlier + [s])[|earlier|] == s;
    assert forall i :: 0 <= i < |earlier| ==> (earlier + [s])[i] == earlier[i];
  }

  lemma IdErrorsSnoc(earlier: seq<StepDef>, s: StepDef)
    ensures IdErrors(earlier + [s]) == [] <==>
            IdErrors(earlier) == [] && s.id.name != "" && MatchesStepId(s.id.name) && !exists e ::
                e in earlier && e.id == s.id
  {
    hide MatchesStepId;
    assert (earlier + [s])[..|earlier|] == earlier;
  }

  lemma {:induction false} NoIdErrors(steps: seq<StepDef>)
    ensures IdErrors(steps) == [] <==> GoodIds(steps) && UniqueIds(steps)
  {
    hide UniqueIds, GoodIds, MatchesStepId, IdErrors;
    EmptyIsGood();
    if steps != [] {
      var earlier, s := steps[..|steps| - 1], steps[|steps| - 1];
      NoIdErrors(earlier);
      assert steps == earlier + [s];
      IdErrorsSnoc(earlier, s);
      UniqueSnoc(earlier, s);
      GoodSnoc(earlier, s);
    }
  }

  lemma EmptyIsGood()
    ensures IdErrors([]) == [] && GoodIds([]) && UniqueIds([]) && !MatchesStepId("")
  {
  }

  lemma {:induction false} NoUnknownDeps(id: StepId, deps: seq<StepId>, valid: set<StepId>)
    ensures UnknownDeps(id, deps, valid) == [] <==> forall d :: d in deps ==> d in valid
  {
    if deps != [] {
      NoUnknownDeps(id, deps[..|deps| - 1], valid);
      assert forall d :: d in deps <==> d in deps[..|deps| - 1] || d == deps[|deps| - 1];
    }
  }

  lemma {:induction false} NoDependencyErrors(steps: seq<StepDef>, valid: set<StepId>)
    ensures DependencyErrors(steps, valid) == [] <==>
            forall s, d :: s in steps && d in s.dependsOn ==> d in valid
  {
    if steps != [] {
      var s := steps[|steps| - 1];
      NoDependencyErrors(steps[..|steps| - 1], valid);
      NoUnknownDeps(s.id, s.dependsOn, valid);
      assert forall x :: x in steps <==> x in steps[..|steps| - 1] || x == s;
    }
  }

  lemma {:induction false} NoKindErrors(steps: seq<StepDef>)
    ensures KindErrors(steps) == [] <==>
            forall i :: 0 <= i < |steps| ==> steps[i].execution.Some? != steps[i].action.Some?
  {
    hide KindErrors;
    if steps == [] {
      NoStepsNoKindErrors();
    } else {
      var earlier, s := steps[..|steps| - 1], steps[|steps| - 1];
      NoKindErrors(earlier);
      KindErrorsSnoc(earlier, s);
      assert steps == earlier + [s];
    }
  }

  lemma NoStepsNoKindErrors()
    ensures KindErrors([]) == []
  {
  }

  lemma KindErrorsSnoc(earlier: seq<StepDef>, s: StepDef)
    ensures KindErrors(earlier + [s]) == [] <==> KindErrors(earlier) == [] && s.execution.Some? != s.action.Some?
  {
    assert (earlier + [s])[..|earlier|] == earlier;
  }

  lemma {:induction false} StepMapContents(steps: seq<StepDef>)
    ensures forall id :: id in StepMap(steps) <==> exists s :: s in steps && s.id == id
    ensures forall id :: id in StepMap(steps) ==> StepMap(steps)[id] in steps && StepMap(steps)[id].id == id
    ensures UniqueIds(steps) ==>
            forall s :: s in steps ==> s.id in StepMap(steps) && StepMap(steps)[s.id] == s
  {
    if steps != [] {
      var earlier, last := steps[..|steps| - 1], steps[|steps| - 1];
      StepMapContents(earlier);
      assert forall s :: s in steps <==> s in earlier || s == last;
      assert last.id in StepMap(steps);
    }
  }

  /** steps are the values of a map keyed by their own IDs. */
  ghost predicate Indexes(defs: map<StepId, StepDef>, steps: seq<StepDef>) {
    && (forall id :: id in defs ==> defs[id] in steps && defs[id].id == id)
    && (forall s :: s in steps ==> s.id in defs && defs[s.id] == s)
  }

  lemma ClosedMeansKnown(defs: map<StepId, StepDef>, steps: seq<StepDef>)
    requires Indexes(defs, steps)
    ensures (forall s, d :: s in steps && d in s.dependsOn ==> d in defs) <==> Closed(GraphOf(defs))
  {
    var g := GraphOf(defs);
    if Closed(g) {
      forall s, d | s in steps && d in s.dependsOn ensures d in defs {
        assert s.id in g && d in g[s.id];
      }
    }
  }

  lemma ValidIdsIndexed(defs: map<StepId, StepDef>, steps: seq<StepDef>)
    requires Indexes(defs, steps)
    requires GoodIds(steps)
    ensures ValidIds(steps) == defs.Keys
  {
    forall s | s in steps ensures s.id in ValidIds(steps) {
      var i :| 0 <= i < |steps| && steps[i] == s;
    }
  }

  lemma DepsOfIndexed(defs: map<StepId, StepDef>, steps: seq<StepDef>, id: StepId)
    requires Indexes(defs, steps) && id in defs
    requires ValidIds(steps) == defs.Keys && Closed(GraphOf(defs))
    ensures DepsOf(steps, id) == GraphOf(defs)[id]
  {
    var deps := GraphOf(defs)[id];
    assert deps <= defs.Keys;
    forall d | d in DepsOf(steps, id) ensures d in deps {
      var s :| s in steps && s.id == id && d in s.dependsOn;
    }
  }

  lemma ValidGraphIndexed(defs: map<StepId, StepDef>, steps: seq<StepDef>)
    requires Indexes(defs, steps) && ValidIds(steps) == defs.Keys && Closed(GraphOf(defs))
    ensures ValidGraph(steps) == GraphOf(defs)
  {
    forall id | id in defs ensures DepsOf(steps, id) == GraphOf(defs)[id] {
      DepsOfIndexed(defs, steps, id);
    }
    hide DepsOf, ValidIds, Indexes, Closed;
  }

  /** With unique well-formed IDs the graph Kahn's algorithm checks, once every dependency
      is known, is the graph the scheduler walks. */
  lemma ValidGraphIsStepGraph(steps: seq<StepDef>)
    requires GoodIds(steps)
    requires UniqueIds(steps)
    ensures ValidIds(steps) == StepMap(steps).Keys && Indexes(StepMap(steps), steps)
    ensures Closed(GraphOf(StepMap(steps))) ==> ValidGraph(steps) == GraphOf(StepMap(steps))
  {
    assert Indexes(StepMap(steps), steps) by { StepMapContents(steps); }
    ValidIdsIndexed(StepMap(steps), steps);
    if Closed(GraphOf(StepMap(steps))) {
      ValidGraphIndexed(StepMap(steps), steps);
    }
    hide *;
  }

  /** The structural check accepts exactly the well-formed step lists. */
  lemma StructureAccepts(steps: seq<StepDef>)
    ensures StructureErrors(steps) == [] <==> WellFormed(steps)
  {
    NoIdErrors(steps);
    NoDependencyErrors(steps, ValidIds(steps));
    NoKindErrors(steps);
    if IdErrors(steps) == [] {
      ValidGraphIsStepGraph(steps);
      ClosedMeansKnown(StepMap(steps), steps);
    }
  }
}
