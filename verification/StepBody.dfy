/** What one goroutine of a wave does with its step (internal/workflow/dag.go:294-590). */
module StepBody {
  import opened WorkflowModel
  import opened DependencyGraph
  import opened FanOut

  datatype Reply<+T> = Ok(value: T) | Err(message: string)

  /** Everything a goroutine calls that this model does not look inside: template rendering,
      condition evaluation, activities, child workflows and the operator. Each answers with some
      function of the step, the outputs visible when the wave starts, and a repository index. */
  datatype World = World(
    resolve: (StepDef, Outputs) -> Reply<nat>,               // resolveStep: how many repositories
    renderPlugins: (StepDef, Outputs) -> Reply<()>,          // execution.eval_plugins
    condition: (StepDef, Outputs) -> bool,                   // evalCondition
    createRun: (StepDef, Outputs, nat) -> Reply<()>,         // CreateStepRun
    renderConfig: (StepDef, Outputs) -> Reply<()>,           // action.config
    action: (StepDef, Outputs) -> Reply<map<string, Json>>,  // ExecuteAction
    child: (StepDef, Outputs, nat) -> Reply<StepOutput>,     // StepWorkflow
    decision: (StepDef, Outputs) -> Decision)                // fan_out_resolve or the 48h timer

  /** A child workflow's result carries the ID of the step it ran
      (internal/activity/execute.go:290-308, 373-379). */
  ghost predicate Honest(w: World) {
    forall s, o, j :: w.child(s, o, j).Ok? ==> w.child(s, o, j).value.stepId == s.id
  }

  predicate Unsuccessful(out: StepOutput) {
    out.status == Skipped || out.status == Failed
  }

  /** One child, from its step_run record to its result. */
  function ChildSlot(w: World, step: StepDef, outputs: Outputs, j: nat): Slot {
    match w.createRun(step, outputs, j)
    case Err(m) => Some(PlainOutput(step.id, Failed, "create step run: " + m))
    case Ok(_) =>
      match w.child(step, outputs, j)
      case Err(m) => Some(PlainOutput(step.id, Failed, m))
      case Ok(out) => Some(out)
  }

  function ChildSlots(w: World, step: StepDef, outputs: Outputs, n: nat): seq<Slot> {
    seq(n, j requires 0 <= j < n => ChildSlot(w, step, outputs, j))
  }

  /** The first dependency, in list order, whose result blocks the step. */
  function Blocker(deps: seq<StepId>, outputs: Outputs): Option<StepId> {
    if deps == [] then None
    else if deps[0] in outputs && Unsuccessful(outputs[deps[0]]) then Some(deps[0])
    else Blocker(deps[1..], outputs)
  }

  function ActionResult(w: World, step: StepDef, outputs: Outputs): StepOutput {
    match w.createRun(step, outputs, 0)
    case Err(m) => PlainOutput(step.id, Failed, "create step run: " + m)
    case Ok(_) =>
      match w.renderConfig(step, outputs)
      case Err(m) => PlainOutput(step.id, Failed, "render action config " + m)
      case Ok(_) =>
        match w.action(step, outputs)
        case Err(m) => PlainOutput(step.id, Failed, m)
        case Ok(result) => PlainOutput(step.id, Complete, "").(output := result)
  }

  /** The result a step produces when it is launched with these outputs. */
  function StepResult(w: World, step: StepDef, outputs: Outputs): StepOutput {
    var blocker := if step.optional then None else Blocker(step.dependsOn, outputs);
    if blocker.Some? then
      PlainOutput(step.id, Skipped, "skipped: dependency " + blocker.value.name + " did not complete successfully")
    else
      match w.resolve(step, outputs)
      case Err(m) => PlainOutput(step.id, Failed, m)
      case Ok(repos) =>
        if step.execution.Some? && w.renderPlugins(step, outputs).Err? then
          PlainOutput(step.id, Failed, "render eval_plugin for step " + step.id.name + ": " +
              w.renderPlugins(step, outputs).message)
        else if step.condition != EmptyTemplate && !w.condition(step, outputs) then
          PlainOutput(step.id, Skipped, "")
        else if step.action.Some? then
          ActionResult(w, step, outputs)
        else if repos <= 1 then
          ChildSlot(w, step, outputs, 0).value
        else
          Settle(step.id, ChildSlots(w, step, outputs, repos), w.decision(step, outputs))
  }

  lemma ResultCarriesId(w: World, step: StepDef, outputs: Outputs)
    requires Honest(w)
    ensures StepResult(w, step, outputs).stepId == step.id
  {
  }

  /** The dependency at position i is the first, in list order, that was skipped or failed. */
  predicate FirstBad(deps: seq<StepId>, outputs: Outputs, i: nat) {
    && i < |deps| && deps[i] in outputs && outputs[deps[i]].status in {Skipped, Failed}
    && forall j :: 0 <= j < i ==> !(deps[j] in outputs && outputs[deps[j]].status in {Skipped, Failed})
  }

  predicate NoneBad(deps: seq<StepId>, outputs: Outputs) {
    forall d :: d in deps && d in outputs ==> outputs[d].status != Skipped && outputs[d].status != Failed
  }

  /** What a step that nothing upstream holds back comes to, one call at a time. */
  ghost predicate Delivers(w: World, step: StepDef, outputs: Outputs, out: StepOutput) {
    var resolved := w.resolve(step, outputs);
    var rendered := step.execution.None? || w.renderPlugins(step, outputs).Ok?;
    var wanted := step.condition == EmptyTemplate || w.condition(step, outputs);
    var runs := resolved.Ok? && rendered && wanted;
    && (resolved.Err? ==> out == PlainOutput(step.id, Failed, resolved.message))
    && (resolved.Ok? && !rendered ==> out.status == Failed && out.output == map[])
    && (resolved.Ok? && rendered && !wanted ==> out == PlainOutput(step.id, Skipped, ""))
    && (runs && step.action.Some? ==> DeliversAction(w, step, outputs, out))
    && (runs && step.action.None? && resolved.value <= 1 ==> DeliversChild(w, step, outputs, 0, Some(out)))
    && (runs && step.action.None? && resolved.value > 1 ==>
          exists slots: seq<Slot> :: |slots| == resolved.value &&
              out == Settle(step.id, slots, w.decision(step, outputs)) &&
            forall j :: 0 <= j < |slots| ==> DeliversChild(w, step, outputs, j, slots[j]))
  }

  /** An action's own output, if its record, its config and the call succeed, and a failure otherwise. */
  ghost predicate DeliversAction(w: World, step: StepDef, outputs: Outputs, out: StepOutput) {
    var called := w.action(step, outputs);
    if w.createRun(step, outputs, 0).Ok? && w.renderConfig(step, outputs).Ok? && called.Ok?
    then out.status == Complete && out.output == called.value && out.error == ""
    else out.status == Failed && out.output == map[]
  }

  /** A child's own result, if its record and the child workflow succeed, and a failure otherwise. */
  ghost predicate DeliversChild(w: World, step: StepDef, outputs: Outputs, j: nat, slot: Slot) {
    slot.Some? &&
    if w.createRun(step, outputs, j).Ok? && w.child(step, outputs, j).Ok?
        then slot.value == w.child(step, outputs, j).value
    else slot.value.status == Failed && slot.value.output == map[]
  }

  lemma {:induction false} BlockerIs(deps: seq<StepId>, outputs: Outputs)
    ensures Blocker(deps, outputs).None? <==> NoneBad(deps, outputs)
    ensures Blocker(deps, outputs).Some? ==> exists i: nat ::
        FirstBad(deps, outputs, i) && deps[i] == Blocker(deps, outputs).value
  {
    if deps != [] {
      BlockerIs(deps[1..], outputs);
      if deps[0] in outputs && Unsuccessful(outputs[deps[0]]) {
        assert FirstBad(deps, outputs, 0);
      } else if Blocker(deps[1..], outputs).Some? {
        var i: nat :| FirstBad(deps[1..], outputs, i) && deps[1..][i] == Blocker(deps[1..], outputs).value;
        assert deps[i + 1] == deps[1..][i] && forall j :: 0 < j <= i ==> deps[j] == deps[1..][j - 1];
        assert FirstBad(deps, outputs, i + 1);
      }
    }
  }

  lemma FirstBadUnique(deps: seq<StepId>, outputs: Outputs, i: nat, j: nat)
    requires FirstBad(deps, outputs, i) && FirstBad(deps, outputs, j)
    ensures i == j
  {
  }

  /** What a launched step comes to: a step that is not optional is skipped for its first dependency that
      was skipped or failed; any other gets what its own calls deliver. */
  lemma ResultExactly(w: World, step: StepDef, outputs: Outputs)
    ensures !step.optional ==> forall i: nat :: FirstBad(step.dependsOn, outputs, i) ==>
      StepResult(w, step, outputs) ==
        PlainOutput(step.id, Skipped, "skipped: dependency " + step.dependsOn[i].name +
            " did not complete successfully")
    ensures step.optional || NoneBad(step.dependsOn, outputs) ==>
        Delivers(w, step, outputs, StepResult(w, step, outputs))
  {
    BlockerIs(step.dependsOn, outputs);
    forall i: nat | FirstBad(step.dependsOn, outputs, i) && !step.optional
      ensures StepResult(w, step, outputs) ==
        PlainOutput(step.id, Skipped, "skipped: dependency " + step.dependsOn[i].name +
            " did not complete successfully") {
      assert !NoneBad(step.dependsOn, outputs);
      var k: nat :| FirstBad(step.dependsOn, outputs, k) && step.dependsOn[k] == Blocker(step.dependsOn, outputs).value;
      FirstBadUnique(step.dependsOn, outputs, i, k);
    }
    if step.optional || NoneBad(step.dependsOn, outputs) {
      UnblockedDelivers(w, step, outputs);
    }
  }

  lemma UnblockedDelivers(w: World, step: StepDef, outputs: Outputs)
    requires step.optional || Blocker(step.dependsOn, outputs).None?
    ensures Delivers(w, step, outputs, StepResult(w, step, outputs))
  {
    hide Settle, Blocker;
    if w.resolve(step, outputs).Ok? {
      var slots := ChildSlots(w, step, outputs, w.resolve(step, outputs).value);
      assert forall j :: 0 <= j < |slots| ==> DeliversChild(w, step, outputs, j, slots[j]);
    }
  }

  /** The goroutine body. Its fan-out children finish in any order; each fills its own slot. */
  method RunStep(w: World, step: StepDef, outputs: Outputs) returns (out: StepOutput)
    ensures out == StepResult(w, step, outputs)
    ensures !step.optional ==> forall i: nat :: FirstBad(step.dependsOn, outputs, i) ==>
      out == PlainOutput(step.id, Skipped, "skipped: dependency " + step.dependsOn[i].name +
          " did not complete successfully")
    ensures step.optional || NoneBad(step.dependsOn, outputs) ==> Delivers(w, step, outputs, out)
  {
    hide Delivers, FirstBad, NoneBad;
    ResultExactly(w, step, outputs);
    if !step.optional {
      for i := 0 to |step.dependsOn|
        invariant Blocker(step.dependsOn, outputs) == Blocker(step.dependsOn[i..], outputs)
      {
        var dep := step.dependsOn[i];
        if dep in outputs && Unsuccessful(outputs[dep]) {
          return PlainOutput(step.id, Skipped, "skipped: dependency " + dep.name + " did not complete successfully");
        }
        assert step.dependsOn[i..][1..] == step.dependsOn[i + 1..];
      }
    }
    var resolved := w.resolve(step, outputs);
    if resolved.Err? {
      return PlainOutput(step.id, Failed, resolved.message);
    }
    if step.execution.Some? {
      var rendered := w.renderPlugins(step, outputs);
      if rendered.Err? {
        return PlainOutput(step.id, Failed, "render eval_plugin for step " + step.id.name + ": " + rendered.message);
      }
    }
    if step.condition != EmptyTemplate && !w.condition(step, outputs) {
      return PlainOutput(step.id, Skipped, "");
    }
    if step.action.Some? {
      return ActionResult(w, step, outputs);
    }
    if resolved.value <= 1 {
      return ChildSlot(w, step, outputs, 0).value;
    }
    var fanResults := RunChildren(w, step, outputs, resolved.value);
    out := SettleFanOut(step.id, fanResults, w.decision(step, outputs));
  }

  function Indices(n: nat): (r: set<nat>)
    ensures forall j: nat :: j in r <==> j < n
  {
    if n == 0 then {} else Indices(n - 1) + {n - 1}
  }

  method RunChildren(w: World, step: StepDef, outputs: Outputs, n: nat) returns (results: seq<Slot>)
    ensures results == ChildSlots(w, step, outputs, n)
  {
    var slots := new Slot[n](_ => None);
    var running := Indices(n);
    while running != {}
      invariant running <= Indices(n)
      invariant forall j :: 0 <= j < n && j !in running ==> slots[j] == ChildSlot(w, step, outputs, j)
      decreases running
    {
      var j :| j in running;
      slots[j] := ChildSlot(w, step, outputs, j);
      running := running - {j};
    }
    results := slots[..];
  }

  // --- what a step can see -------------------------------------------------------

  /** The outputs of the steps upstream of id. */
  ghost function Visible(g: Graph<StepId>, outputs: Outputs, id: StepId): Outputs {
    map k | k in outputs && Upstream(g, id, k) :: outputs[k]
  }

  /** Outputs a step can be launched with: nothing in them depends on it. */
  ghost predicate Launchable(g: Graph<StepId>, o: Outputs, id: StepId) {
    id !in o && forall x :: x in o ==> !Upstream(g, x, id)
  }

  /** Whatever a step can be launched with, every answer about it but the condition's depends on
      the results of the steps upstream of it and on nothing else. Validation does not establish
      this: it sees field chains only, so a template that ranges over or indexes `.Steps`, or one it
      does not look at (eval_plugins, repositories, pull-request texts), may read any result. */
  ghost predicate OtherwiseLocalTo(w: World, g: Graph<StepId>, step: StepDef) {
    forall o: Outputs :: Launchable(g, o, step.id) ==>
      var v := Visible(g, o, step.id);
      && w.resolve(step, o) == w.resolve(step, v)
      && w.renderPlugins(step, o) == w.renderPlugins(step, v)
      && (forall j: nat :: w.createRun(step, o, j) == w.createRun(step, v, j))
      && w.renderConfig(step, o) == w.renderConfig(step, v)
      && w.action(step, o) == w.action(step, v)
      && (forall j: nat :: w.child(step, o, j) == w.child(step, v, j))
      && w.decision(step, o) == w.decision(step, v)
  }

  /** The condition is like that too. */
  ghost predicate ConditionLocalTo(w: World, g: Graph<StepId>, step: StepDef) {
    forall o: Outputs :: Launchable(g, o, step.id) ==> w.condition(step, o) == w.condition(step, Visible(g, o, step.id))
  }

  ghost predicate LocalTo(w: World, g: Graph<StepId>, step: StepDef) {
    OtherwiseLocalTo(w, g, step) && ConditionLocalTo(w, g, step)
  }

  lemma {:induction false} BlockerLocal(g: Graph<StepId>, id: StepId, deps: seq<StepId>, o: Outputs)
    requires forall d :: d in deps ==> Dep(g, id, d)
    ensures Blocker(deps, o) == Blocker(deps, Visible(g, o, id))
  {
    if deps != [] {
      UpstreamDep(g, id, deps[0]);
      BlockerLocal(g, id, deps[1..], o);
    }
  }

  /** A local step's result is determined by the results upstream of it. */
  lemma ResultLocal(w: World, g: Graph<StepId>, step: StepDef, o: Outputs)
    requires LocalTo(w, g, step) && Launchable(g, o, step.id)
    requires forall d :: d in step.dependsOn ==> Dep(g, step.id, d)
    ensures StepResult(w, step, o) == StepResult(w, step, Visible(g, o, step.id))
  {
    var v := Visible(g, o, step.id);
    BlockerLocal(g, step.id, step.dependsOn, o);
    assert w.resolve(step, o) == w.resolve(step, v);
    forall j: nat ensures ChildSlot(w, step, o, j) == ChildSlot(w, step, v, j) {
    }
    forall n: nat ensures ChildSlots(w, step, o, n) == ChildSlots(w, step, v, n) {
    }
    assert ActionResult(w, step, o) == ActionResult(w, step, v);
  }
}
