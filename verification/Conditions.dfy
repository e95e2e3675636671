/** When conditions make the order of steps matter (internal/workflow/validate.go:685-707,
    internal/workflow/dag.go:345-349, 815-852): a condition may name any step, upstream or not. */
module Conditions {
  import opened WorkflowModel
  import opened DependencyGraph
  import opened StructureValidator
  import opened TemplateRefs
  import opened FanOut
  import opened StepBody
  import opened WaveSemantics
  import opened Scheduler
  import opened RunTheorems

  /** The step's condition mentions the result of x. */
  ghost predicate Names(step: StepDef, x: StepId) {
    exists r :: r in StepRefs(ConditionSite, step.condition) && StepId(r.stepId) == x
  }

  /** Every step a condition names is the step itself, upstream of it or downstream of it. */
  ghost predicate ConditionsComparable(defs: Defs) {
    forall id, x :: id in defs && Names(defs[id], x) ==> Comparable(GraphOf(defs), id, x)
  }

  ghost predicate Comparable(g: Graph<StepId>, id: StepId, x: StepId) {
    x == id || Upstream(g, id, x) || Upstream(g, x, id)
  }

  ghost predicate AgreeOnNamed(step: StepDef, o: Outputs, o': Outputs) {
    forall x :: Names(step, x) ==> (x in o <==> x in o') && (x in o ==> o[x] == o'[x])
  }

  /** Conditions read the steps they name and nothing else; every other answer is local. */
  ghost predicate ReadsNamed(w: World, defs: Defs) {
    forall id :: id in defs ==>
      && OtherwiseLocalTo(w, GraphOf(defs), defs[id])
      && forall o: Outputs, o': Outputs :: AgreeOnNamed(defs[id], o, o') ==>
          w.condition(defs[id], o) == w.condition(defs[id], o')
  }

  ghost predicate Orders(defs: Defs, order: seq<StepId>) {
    TopoOrder(GraphOf(defs), order) && forall id :: id in order <==> id in defs
  }

  /** Every way of running the steps one at a time gives what the waves give. */
  ghost predicate OrderIrrelevant(w: World, defs: Defs) {
    forall order :: Orders(defs, order) ==> InOrder(w, defs, order) == Waves(w, defs, |defs.Keys| + 1)
  }

  // --- comparable conditions are local ---------------------------------------------------------

  lemma ComparableIsLocal(w: World, defs: Defs)
    requires KeyedById(defs) && ReadsNamed(w, defs) && ConditionsComparable(defs)
    ensures AllLocal(w, defs)
  {
    var g := GraphOf(defs);
    forall id, o: Outputs | id in defs && Launchable(g, o, id)
      ensures w.condition(defs[id], o) == w.condition(defs[id], Visible(g, o, id)) {
      forall x | Names(defs[id], x) ensures x in o <==> x in Visible(g, o, id) {
        assert Comparable(g, id, x);
      }
      assert AgreeOnNamed(defs[id], o, Visible(g, o, id));
    }
  }

  // --- incomparable ones are not ---------------------------------------------------------------

  /** Everything completes, and every condition is true but that of step id, which asks whether x
      is complete, as `{{eq .steps.x.status "complete"}}` does. */
  function Peeking(id: StepId, x: StepId): World {
    World(
      (s: StepDef, o: Outputs) => Ok(0),
      (s: StepDef, o: Outputs) => Ok(()),
      (s: StepDef, o: Outputs) => s.id == id ==> x in o && o[x].status == Complete,
      (s: StepDef, o: Outputs, j: nat) => Ok(()),
      (s: StepDef, o: Outputs) => Ok(()),
      (s: StepDef, o: Outputs) => Ok(map[]),
      (s: StepDef, o: Outputs, j: nat) => Ok(PlainOutput(s.id, Complete, "")),
      (s: StepDef, o: Outputs) => TimedOut)
  }

  lemma PeekingReadsNamed(defs: Defs, id: StepId, x: StepId)
    requires KeyedById(defs) && id in defs && Names(defs[id], x)
    ensures ReadsNamed(Peeking(id, x), defs)
  {
    var w := Peeking(id, x);
    forall y, o: Outputs, o': Outputs | y in defs && AgreeOnNamed(defs[y], o, o')
      ensures w.condition(defs[y], o) == w.condition(defs[y], o') {
      if y == id {
        assert Names(defs[id], x);
      }
    }
  }

  ghost predicate DepsComplete(step: StepDef, o: Outputs) {
    forall d :: d in step.dependsOn ==> d in o && o[d].status == Complete
  }

  lemma {:induction false} NoBlocker(deps: seq<StepId>, o: Outputs)
    requires forall d :: d in deps ==> d in o && o[d].status == Complete
    ensures Blocker(deps, o).None?
  {
    if deps != [] {
      NoBlocker(deps[1..], o);
    }
  }

  /** With its dependencies complete a step completes, but for the peeking one. */
  lemma PeekingResult(id: StepId, x: StepId, step: StepDef, o: Outputs)
    requires DepsComplete(step, o)
    ensures StepResult(Peeking(id, x), step, o).status ==
      if step.id == id && step.condition != EmptyTemplate && !(x in o && o[x].status == Complete)
      then Skipped else Complete
  {
    NoBlocker(step.dependsOn, o);
  }

  /** Running in order up to the p-th step, and what that step then gets. */
  lemma {:induction false} InOrderAt(w: World, defs: Defs, order: seq<StepId>, p: nat)
    requires TopoOrder(GraphOf(defs), order) && (forall y :: y in order ==> y in defs) && p < |order|
    ensures TopoOrder(GraphOf(defs), order[..p]) && (forall y :: y in order[..p] ==> y in defs)
    ensures forall y :: y in InOrder(w, defs, order[..p]) <==> y in order[..p]
    ensures order[p] in InOrder(w, defs, order)
    ensures InOrder(w, defs, order)[order[p]] == StepResult(w, defs[order[p]], InOrder(w, defs, order[..p]))
    decreases |order|
  {
    hide StepResult;
    var init, last := order[..|order| - 1], order[|order| - 1];
    assert order == init + [last];
    TopoSnoc(GraphOf(defs), init, last);
    if p < |init| {
      assert init[..p] == order[..p] && init[p] == order[p];
      InOrderAt(w, defs, init, p);
    } else {
      assert order[..p] == init;
      InOrderKeys(w, defs, init);
    }
  }

  lemma {:induction false} InOrderKeys(w: World, defs: Defs, order: seq<StepId>)
    requires forall y :: y in order ==> y in defs
    ensures forall y :: y in InOrder(w, defs, order) <==> y in order
  {
    hide StepResult;
    if order != [] {
      InOrderKeys(w, defs, order[..|order| - 1]);
      assert order == order[..|order| - 1] + [order[|order| - 1]];
    }
  }

  /** Whatever is neither the peeking step nor downstream of it completes. */
  lemma {:induction false} OthersComplete(defs: Defs, id: StepId, x: StepId, order: seq<StepId>, p: nat)
    requires KeyedById(defs) && TopoOrder(GraphOf(defs), order) && (forall y :: y in order ==> y in defs)
    requires p < |order| && order[p] != id && !Upstream(GraphOf(defs), order[p], id)
    ensures order[p] in InOrder(Peeking(id, x), defs, order)
    ensures InOrder(Peeking(id, x), defs, order)[order[p]].status == Complete
    decreases |order|
  {
    var w, before := Peeking(id, x), order[..p];
    InOrderAt(w, defs, order, p);
    DepsBefore(defs, id, x, order, p);
    PeekingResult(id, x, defs[order[p]], InOrder(w, defs, before));
  }

  /** The dependencies of such a step, or of the peeking step itself, have completed before it. */
  lemma {:induction false} DepsBefore(defs: Defs, id: StepId, x: StepId, order: seq<StepId>, p: nat)
    requires KeyedById(defs) && TopoOrder(GraphOf(defs), order) && (forall y :: y in order ==> y in defs)
    requires p < |order| && !Upstream(GraphOf(defs), order[p], id)
    ensures TopoOrder(GraphOf(defs), order[..p])
    ensures DepsComplete(defs[order[p]], InOrder(Peeking(id, x), defs, order[..p]))
    decreases |order|, 0
  {
    var w, before, g := Peeking(id, x), order[..p], GraphOf(defs);
    InOrderAt(w, defs, order, p);
    forall d | d in defs[order[p]].dependsOn
      ensures d in InOrder(w, defs, before) && InOrder(w, defs, before)[d].status == Complete {
      assert Dep(g, order[p], d);
      UpstreamDep(g, order[p], d);
      if Upstream(g, d, id) {
        UpstreamTransitive(g, order[p], d, id);
        assert false;
      }
      var q :| 0 <= q < |before| && before[q] == d;
      OthersComplete(defs, id, x, before, q);
    }
  }

  /** The peeking step runs if x is before it in the order, and is skipped otherwise. */
  lemma PeekingAt(defs: Defs, id: StepId, x: StepId, order: seq<StepId>, i: nat)
    requires KeyedById(defs) && Orders(defs, order) && i < |order| && order[i] == id
    requires defs[id].condition != EmptyTemplate && x != id && !Upstream(GraphOf(defs), x, id)
    ensures id in InOrder(Peeking(id, x), defs, order)
    ensures InOrder(Peeking(id, x), defs, order)[id].status == if x in order[..i] then Complete else Skipped
  {
    hide StepResult;
    var w, before := Peeking(id, x), order[..i];
    InOrderAt(w, defs, order, i);
    TopoOrderRulesOutCycles(GraphOf(defs), order, id);
    DepsBefore(defs, id, x, order, i);
    PeekingResult(id, x, defs[id], InOrder(w, defs, before));
    if x in before {
      var q :| 0 <= q < |before| && before[q] == x;
      OthersComplete(defs, id, x, before, q);
    }
  }

  lemma NamingNeedsTemplate(step: StepDef, x: StepId)
    requires Names(step, x)
    ensures step.condition != EmptyTemplate
  {
  }

  /** If a condition names a step that is not comparable to its own, two orders differ in some
      world whose conditions read only what they name. */
  lemma IncomparableMatters(defs: Defs, id: StepId, x: StepId)
    requires KeyedById(defs) && Closed(GraphOf(defs)) && Acyclic(GraphOf(defs))
    requires id in defs && x in defs && Names(defs[id], x) && !Comparable(GraphOf(defs), id, x)
    ensures ReadsNamed(Peeking(id, x), defs) && !OrderIrrelevant(Peeking(id, x), defs)
  {
    var g, w := GraphOf(defs), Peeking(id, x);
    PeekingReadsNamed(defs, id, x);
    NamingNeedsTemplate(defs[id], x);
    var first, i := OrderBefore(g, id, x);
    var second, j := OrderBefore(g, x, id);
    var k :| 0 <= k < |second| && second[k] == id;
    hide ReadsNamed, StepResult, Names, Peeking, Comparable;
    assert forall q :: 0 <= q < j ==> second[q] == second[..j][q];
    assert second[..k][j] == x;
    assert Orders(defs, first) && Orders(defs, second);
    PeekingAt(defs, id, x, first, i);
    PeekingAt(defs, id, x, second, k);
  }

  /** For an accepted workflow: the order of steps never matters, in any world whose conditions read
      only the steps they name, if and only if every step a condition names is comparable to the
      condition's own. */
  lemma OrderIrrelevantExactly(steps: seq<StepDef>, params: set<string>, contracts: map<string, set<string>>)
    requires StructureErrors(steps) == [] && RefsResolve(steps, params, contracts)
    ensures (forall w :: ReadsNamed(w, StepMap(steps)) ==> OrderIrrelevant(w, StepMap(steps))) <==>
        ConditionsComparable(StepMap(steps))
  {
    var defs := StepMap(steps);
    StructureAccepts(steps);
    AcceptedKeyed(steps);
    hide StructureErrors, RefsResolve, ReadsNamed, OrderIrrelevant, StepMap;
    if ConditionsComparable(defs) {
      forall w | ReadsNamed(w, defs) ensures OrderIrrelevant(w, defs) {
        ComparableIsIrrelevant(w, defs);
      }
    } else {
      var id, x :| id in defs && Names(defs[id], x) && !Comparable(GraphOf(defs), id, x);
      NamedIsKnown(steps, params, contracts, id, x);
      IncomparableMatters(defs, id, x);
    }
  }

  lemma ComparableIsIrrelevant(w: World, defs: Defs)
    requires KeyedById(defs) && Closed(GraphOf(defs)) && Acyclic(GraphOf(defs))
    requires ReadsNamed(w, defs) && ConditionsComparable(defs)
    ensures OrderIrrelevant(w, defs)
  {
    ComparableIsLocal(w, defs);
    hide ReadsNamed, ConditionsComparable, AllLocal, KeyedById, Closed, Acyclic, TopoOrder, Waves, InOrder;
    WavesFinish(w, defs, |defs.Keys| + 1);
    forall order | Orders(defs, order) ensures InOrder(w, defs, order) == Waves(w, defs, |defs.Keys| + 1) {
      Confluence(w, defs, order, |defs.Keys| + 1);
    }
  }

  /** So if conditions name only comparable steps, a completed run of an accepted workflow has the
      outputs of every order. */
  lemma ComparableRunIsSequential(steps: seq<StepDef>, w: World, wave: nat, pending: Defs, outputs: Outputs,
                                  order: seq<StepId>)
    requires StructureErrors(steps) == [] && ConditionsComparable(StepMap(steps)) && ReadsNamed(w, StepMap(steps))
    requires WavesOutcome(w, StepMap(steps), wave, pending, outputs, None) && Orders(StepMap(steps), order)
    ensures outputs == InOrder(w, StepMap(steps), order)
  {
    var defs := StepMap(steps);
    StructureAccepts(steps);
    AcceptedKeyed(steps);
    ComparableIsLocal(w, defs);
    hide StructureErrors, ReadsNamed, ConditionsComparable, AllLocal, WavesOutcome, KeyedById, TopoOrder, InOrder,
        StepMap;
    CompletedRunIsSequential(w, defs, wave, pending, outputs, order);
  }

  lemma AcceptedKeyed(steps: seq<StepDef>)
    requires UniqueIds(steps)
    ensures KeyedById(StepMap(steps)) && Indexes(StepMap(steps), steps)
  {
    StepMapContents(steps);
  }

  /** Validation only lets conditions name steps there are. */
  lemma NamedIsKnown(steps: seq<StepDef>, params: set<string>, contracts: map<string, set<string>>, id: StepId,
                     x: StepId)
    requires RefsResolve(steps, params, contracts) && Indexes(StepMap(steps), steps)
    requires id in StepMap(steps) && Names(StepMap(steps)[id], x)
    ensures x in StepMap(steps)
  {
    var defs := StepMap(steps);
    var scope := Scope(defs, params, contracts);
    var i :| 0 <= i < |steps| && steps[i] == defs[id];
    var r :| r in StepRefs(ConditionSite, steps[i].condition) && StepId(r.stepId) == x;
    if x !in defs {
      var e := UnknownStep(steps[i].id, ConditionSite, r.stepId);
      assert RefFault(scope, steps[i].id, ConditionSite, r, e);
      assert TemplateFault(scope, steps[i].id, ConditionSite, steps[i].condition, e);
      assert Carries(steps[i], ConditionSite, steps[i].condition);
      assert StepFault(scope, steps[i], e);
      assert false;
    }
  }

  // --- an accepted workflow where it matters ---------------------------------------------------

  predicate PlainName(id: StepId) {
    MatchesStepId(id.name) && '.' !in id.name
  }

  /** `{{eq .steps.x.status "complete"}}` */
  function CompleteCheck(x: StepId): Template
    requires PlainName(x)
  {
    Parsed(List([Action(Pipe([Command([Other, Field(StatusOf(x)), Other])]))]))
  }

  function StatusOf(x: StepId): seq<Ident>
    requires PlainName(x)
  {
    ["steps", x.name, "status"]
  }

  function AgentStep(id: StepId, condition: Template): StepDef {
    StepDef(id, "", [], "", "", Some(ExecutionDef(EmptyTemplate, false, None)), "", false, condition, false, None)
  }

  lemma CheckChains(x: StepId)
    requires PlainName(x)
    ensures TemplateChains(CompleteCheck(x)) == {StatusOf(x)}
  {
    var field := Field(StatusOf(x));
    var args := [Other] + [field] + [Other];
    assert args == [Other, field, Other];
    OneChain(Other);
    ChainsSnoc([Other], field);
    ChainsSnoc([Other] + [field], Other);
    OneChain(Command(args));
    OneChain(Action(Pipe([Command(args)])));
  }

  lemma ChainsSnoc(nodes: seq<Node>, n: Node)
    ensures ChainsOf(nodes + [n]) == ChainsOf(nodes) + Chains(n)
  {
    assert (nodes + [n])[..|nodes|] == nodes;
  }

  lemma OneChain(n: Node)
    ensures ChainsOf([n]) == Chains(n)
  {
    assert [n][..0] == [];
  }

  lemma CheckNames(id: StepId, x: StepId, y: StepId)
    requires PlainName(x)
    ensures Names(AgentStep(id, CompleteCheck(x)), y) <==> y == x
  {
    CheckChains(x);
    var chain := StatusOf(x);
    assert RefOf(chain) in StepRefs(ConditionSite, CompleteCheck(x));
  }

  /** Two agent steps without dependencies, the second on the condition that the first is complete. */
  function TwoSteps(a: StepId, b: StepId): seq<StepDef>
    requires PlainName(a)
  {
    [AgentStep(a, EmptyTemplate), AgentStep(b, CompleteCheck(a))]
  }

  lemma TwoStepsMap(a: StepId, b: StepId)
    requires PlainName(a) && PlainName(b) && a != b
    ensures StepMap(TwoSteps(a, b)) == map[a := TwoSteps(a, b)[0], b := TwoSteps(a, b)[1]]
    ensures UniqueIds(TwoSteps(a, b))
    ensures GraphOf(StepMap(TwoSteps(a, b))) == map[a := {}, b := {}]
  {
    var steps := TwoSteps(a, b);
    StepMapSnoc([], steps[0]);
    StepMapSnoc([steps[0]], steps[1]);
    assert [] + [steps[0]] == [steps[0]] && [steps[0]] + [steps[1]] == steps;
    assert StepMap([]) == map[];
    var g := GraphOf(StepMap(steps));
    assert g.Keys == {a, b} && g[a] == {} && g[b] == {};
  }

  lemma StepMapSnoc(steps: seq<StepDef>, s: StepDef)
    ensures StepMap(steps + [s]) == StepMap(steps)[s.id := s]
  {
    assert (steps + [s])[..|steps|] == steps;
  }

  lemma NoEdges(g: Graph<StepId>, x: StepId, y: StepId)
    requires forall z :: z in g ==> g[z] == {}
    ensures !Upstream(g, x, y)
  {
    if Upstream(g, x, y) {
      var _ := UpstreamFirst(g, x, y);
      assert false;
    }
  }

  lemma TwoStepsAccepted(a: StepId, b: StepId)
    requires PlainName(a) && PlainName(b) && a != b
    ensures StructureErrors(TwoSteps(a, b)) == [] && RefsResolve(TwoSteps(a, b), {}, map[])
  {
    hide MatchesStepId, StructureErrors;
    var steps := TwoSteps(a, b);
    var defs := StepMap(steps);
    TwoStepsMap(a, b);
    forall x { NoEdges(GraphOf(defs), x, x); }
    StructureAccepts(steps);
    CheckChains(a);
    forall i, e | 0 <= i < |steps| ensures !StepFault(Scope(defs, {}, map[]), steps[i], e) {
      forall site, t | Carries(steps[i], site, t) 
        ensures !TemplateFault(Scope(defs, {}, map[]), steps[i].id, site, t, e) {
        OnlyCheckCarried(a, b, i, site, t);
      }
    }
  }

  lemma OnlyCheckCarried(a: StepId, b: StepId, i: nat, site: Site, t: Template)
    requires PlainName(a) && i < 2 && Carries(TwoSteps(a, b)[i], site, t)
    ensures i == 1 && site == ConditionSite && t == CompleteCheck(a)
  {
  }

  /** An accepted workflow in which the order matters: b does not depend on a, but runs only if a
      has completed, so it is skipped when it comes first. */
  lemma NonLocalConditionBreaksConfluence(a: StepId, b: StepId)
    requires PlainName(a) && PlainName(b) && a != b
    ensures StructureErrors(TwoSteps(a, b)) == [] && RefsResolve(TwoSteps(a, b), {}, map[])
    ensures var defs, w := StepMap(TwoSteps(a, b)), Peeking(b, a);
      && ReadsNamed(w, defs) && Orders(defs, [a, b]) && Orders(defs, [b, a])
      && b in InOrder(w, defs, [a, b]) && InOrder(w, defs, [a, b])[b].status == Complete
      && b in InOrder(w, defs, [b, a]) && InOrder(w, defs, [b, a])[b].status == Skipped
  {
    hide MatchesStepId, StructureErrors, RefsResolve, StepMap, StepResult, Names, InOrder;
    var defs := StepMap(TwoSteps(a, b));
    TwoStepsAccepted(a, b);
    TwoStepsMap(a, b);
    CheckNames(b, a, a);
    PeekingReadsNamed(defs, b, a);
    NoEdges(GraphOf(defs), a, b);
    hide ReadsNamed, Peeking;
    assert [a, b][..1] == [a] && [b, a][..0] == [];
    PeekingAt(defs, b, a, [a, b], 1);
    PeekingAt(defs, b, a, [b, a], 0);
  }
}
