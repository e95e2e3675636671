/** Template reference checking (internal/workflow/validate.go:335-447, 585-712): the walk over
    a parsed template that collects references, and the check that each can be resolved. */
module TemplateRefs {
  import opened WorkflowModel
  import opened Sequences
  import opened DependencyGraph
  import opened StructureValidator
  import opened UpstreamSearch
  import opened StringOrder

  /** A reference .Steps.X.F or .Steps.X.Output.K to another step's result. */
  datatype StepRef = StepRef(stepId: Ident, field: Ident, outputKey: Ident)

  // --- what a template mentions ------------------------------------------------

  /** The field chains that occur anywhere in a template. */
  ghost function Chains(n: Node): set<seq<Ident>> {
    match n
    case List(nodes) => ChainsOf(nodes)
    case Action(pipe) => Chains(pipe)
    case Branch(_, pipe, list, elseList) =>
      Chains(pipe) + Chains(list) + (match elseList case None => {} case Some(e) => Chains(e))
    case Pipe(cmds) => ChainsOf(cmds)
    case Command(args) => ChainsOf(args)
    case Field(idents) => {idents}
    case Other => {}
  }

  ghost function ChainsOf(nodes: seq<Node>): set<seq<Ident>> {
    if nodes == [] then {} else ChainsOf(nodes[..|nodes| - 1]) + Chains(nodes[|nodes| - 1])
  }

  ghost function TemplateChains(t: Template): set<seq<Ident>> {
    if t.Parsed? then Chains(t.root) else {}
  }

  predicate NamesParam(chain: seq<Ident>, paramKey: Ident) {
    |chain| >= 2 && chain[0] == paramKey
  }

  predicate NamesStep(chain: seq<Ident>, stepsKey: Ident) {
    |chain| >= 3 && chain[0] == stepsKey
  }

  function RefOf(chain: seq<Ident>): StepRef
    requires |chain| >= 3
  {
    StepRef(chain[1], chain[2], if |chain| >= 4 && chain[2] == "Output" then chain[3] else "")
  }

  ghost function ParamsIn(chains: set<seq<Ident>>, paramKey: Ident): set<Ident> {
    set c | c in chains && NamesParam(c, paramKey) :: c[1]
  }

  ghost function RefsIn(chains: set<seq<Ident>>, stepsKey: Ident): set<StepRef> {
    set c | c in chains && NamesStep(c, stepsKey) :: RefOf(c)
  }

  // --- the walk -----------------------------------------------------------------

  function CompositeKey(r: StepRef): string {
    r.stepId + "." + r.field + "." + r.outputKey
  }

  /** The first dot ends the first identifier. */
  lemma {:induction false} FirstDot(a: string, rest: string, a': string, rest': string)
    requires '.' !in a && '.' !in a' && a + "." + rest == a' + "." + rest'
    ensures a == a' && rest == rest'
  {
    var s, s' := a + "." + rest, a' + "." + rest';
    assert s[|a|] == '.' && s'[|a'|] == '.';
    assert forall i :: 0 <= i < |a| ==> s[i] == a[i] && a[i] in a;
    assert forall i :: 0 <= i < |a'| ==> s'[i] == a'[i] && a'[i] in a';
    assert |a| == |a'|;
    assert s[..|a|] == a && s'[..|a|] == a';
    assert s[|a| + 1..] == rest && s'[|a| + 1..] == rest';
  }

  /** The seen-set is keyed by a joined string, but distinct references have distinct keys. */
  lemma CompositeKeyInjective(r: StepRef, r': StepRef)
    requires CompositeKey(r) == CompositeKey(r')
    ensures r == r'
  {
    assert CompositeKey(r) == r.stepId + "." + (r.field + "." + r.outputKey);
    assert CompositeKey(r') == r'.stepId + "." + (r'.field + "." + r'.outputKey);
    FirstDot(r.stepId, r.field + "." + r.outputKey, r'.stepId, r'.field + "." + r'.outputKey);
    FirstDot(r.field, r.outputKey, r'.field, r'.outputKey);
  }

  lemma AddChain(chains: set<seq<Ident>>, c: seq<Ident>, paramKey: Ident, stepsKey: Ident)
    ensures ParamsIn(chains + {c}, paramKey) == ParamsIn(chains, paramKey) + if NamesParam(c, paramKey) then {c[1]}
        else {}
    ensures RefsIn(chains + {c}, stepsKey) == RefsIn(chains, stepsKey) + if NamesStep(c, stepsKey) then {RefOf(c)}
        else {}
  {
    assert forall x :: x in chains + {c} <==> x in chains || x == c;
  }

  /** The variables walkNode captures. */
  class RefWalker {
    const paramKey: Ident
    const stepsKey: Ident
    var paramSet: seq<Ident>
    var seenParams: set<Ident>
    var stepRefs: seq<StepRef>
    var seenSteps: set<string>

    constructor (paramKey: Ident, stepsKey: Ident)
      requires paramKey != stepsKey
      ensures this.paramKey == paramKey && this.stepsKey == stepsKey
      ensures Valid() && Collected({})
    {
      this.paramKey, this.stepsKey := paramKey, stepsKey;
      paramSet, seenParams, stepRefs, seenSteps := [], {}, [], {};
    }

    ghost predicate Valid()
      reads this
    {
      && paramKey != stepsKey
      && (forall p :: p in paramSet <==> p in seenParams) && Distinct(paramSet)
      && (forall r :: r in stepRefs ==> CompositeKey(r) in seenSteps)
      && (forall k :: k in seenSteps ==> exists r :: r in stepRefs && CompositeKey(r) == k)
      && Distinct(stepRefs)
    }

    /** The walker holds the references of exactly these chains. */
    ghost predicate Collected(chains: set<seq<Ident>>)
      reads this
    {
      && (set p | p in paramSet) == ParamsIn(chains, paramKey)
      && (set r | r in stepRefs) == RefsIn(chains, stepsKey)
    }

    method VisitField(idents: seq<Ident>, ghost chains: set<seq<Ident>>)
      requires Valid() && Collected(chains)
      modifies this
      ensures Valid() && Collected(chains + {idents})
    {
      AddChain(chains, idents, paramKey, stepsKey);
      if |idents| >= 2 && idents[0] == paramKey {
        var key := idents[1];
        if key !in seenParams {
          seenParams := seenParams + {key};
          paramSet := paramSet + [key];
        }
      } else if |idents| >= 3 && idents[0] == stepsKey {
        var ref := StepRef(idents[1], idents[2], "");
        if |idents| >= 4 && idents[2] == "Output" {
          ref := ref.(outputKey := idents[3]);
        }
        var compositeKey := CompositeKey(ref);
        if compositeKey !in seenSteps {
          seenSteps := seenSteps + {compositeKey};
          stepRefs := stepRefs + [ref];
        } else {
          var r :| r in stepRefs && CompositeKey(r) == compositeKey;
          CompositeKeyInjective(r, ref);
        }
      }
    }

    /** walkNode */
    method Walk(n: Node, ghost chains: set<seq<Ident>>)
      requires Valid() && Collected(chains)
      modifies this
      ensures Valid() && Collected(chains + Chains(n))
      decreases n, 1
    {
      match n
      case List(nodes) => WalkAll(n, nodes, chains);
      case Action(pipe) => Walk(pipe, chains);
      case Branch(_, pipe, list, elseList) =>
        Walk(pipe, chains);
        Walk(list, chains + Chains(pipe));
        if elseList.Some? {
          Walk(elseList.value, chains + Chains(pipe) + Chains(list));
          assert chains + Chains(n) == chains + Chains(pipe) + Chains(list) + Chains(elseList.value);
        } else {
          assert chains + Chains(n) == chains + Chains(pipe) + Chains(list);
        }
      case Pipe(cmds) => WalkAll(n, cmds, chains);
      case Command(args) => WalkAll(n, args, chains);
      case Field(idents) => VisitField(idents, chains);
      case Other => assert chains + Chains(n) == chains;
    }

    method WalkAll(ghost parent: Node, nodes: seq<Node>, ghost chains: set<seq<Ident>>)
      requires Valid() && Collected(chains)
      requires forall m :: m in nodes ==> m < parent
      modifies this
      ensures Valid() && Collected(chains + ChainsOf(nodes))
      decreases parent, 0
    {
      for i := 0 to |nodes|
        invariant Valid() && Collected(chains + ChainsOf(nodes[..i]))
      {
        assert nodes[i] in nodes;
        Walk(nodes[i], chains + ChainsOf(nodes[..i]));
        assert nodes[..i + 1][..i] == nodes[..i];
        assert chains + ChainsOf(nodes[..i + 1]) == chains + ChainsOf(nodes[..i]) + Chains(nodes[i]);
      }
      assert nodes[..|nodes|] == nodes;
    }
  }

  /** extractTemplateRefs: parameters in order, each step reference once, nothing else.
      An empty or unparsable template mentions nothing. */
  method ExtractTemplateRefs(t: Template, conditionCtx: bool)
    returns (paramRefs: seq<Ident>, stepRefs: seq<StepRef>)
    ensures Ascending(paramRefs, (p: Ident) => p)
    ensures (set p | p in paramRefs) == ParamsIn(TemplateChains(t), if conditionCtx then "params" else "Params")
    ensures (set r | r in stepRefs) == RefsIn(TemplateChains(t), if conditionCtx then "steps" else "Steps")
    ensures Distinct(stepRefs)
  {
    if !t.Parsed? {
      return [], [];
    }
    var walker := new RefWalker(if conditionCtx then "params" else "Params", if conditionCtx then "steps" else "Steps");
    walker.Walk(t.root, {});
    assert {} + Chains(t.root) == Chains(t.root);
    paramRefs := SortByKey(walker.paramSet, (p: Ident) => p);
    stepRefs := walker.stepRefs;
    assert (set p | p in paramRefs) == (set p | p in walker.paramSet);
  }

  // --- resolving the references ----------------------------------------------

  datatype Site = PromptSite | ConfigSite | ConditionSite

  datatype RefError =
    | UnknownParam(step: StepId, site: Site, param: string)
    | UnknownStep(step: StepId, site: Site, ref: string)
    | NotUpstream(step: StepId, site: Site, ref: string)
    | NotInSchema(step: StepId, site: Site, ref: string, key: string)
    | NotInContract(step: StepId, site: Site, ref: string, key: string)

  /** What references resolve against: the steps, the declared parameters, and the output
      fields each registered action type promises. */
  datatype Scope = Scope(defs: map<StepId, StepDef>, params: set<string>, contracts: map<string, set<string>>)

  /** step carries template t at this site. */
  ghost predicate Carries(step: StepDef, site: Site, t: Template) {
    && t != EmptyTemplate
    && match site
       case PromptSite => step.execution.Some? && step.execution.value.prompt == t
       case ConfigSite => step.action.Some? && exists k ::
           k in step.action.value.config && step.action.value.config[k] == TemplateValue(t)
       case ConditionSite => step.condition == t
  }

  ghost function ParamRefs(site: Site, t: Template): set<Ident> {
    ParamsIn(TemplateChains(t), if site.ConditionSite? then "params" else "Params")
  }

  ghost function StepRefs(site: Site, t: Template): set<StepRef> {
    RefsIn(TemplateChains(t), if site.ConditionSite? then "steps" else "Steps")
  }

  predicate SchemaLacks(target: StepDef, key: string) {
    target.execution.Some? && target.execution.value.outputSchema.Some? &&
        key !in target.execution.value.outputSchema.value
  }

  predicate ContractLacks(scope: Scope, target: StepDef, key: string) {
    && target.action.Some?
    && target.action.value.actionType in scope.contracts
    && key !in scope.contracts[target.action.value.actionType]
  }

  /** e is what is wrong with reference r made by step at this site. A condition may name any step. */
  ghost predicate RefFault(scope: Scope, step: StepId, site: Site, r: StepRef, e: RefError) {
    var id := StepId(r.stepId);
    if id !in scope.defs then e == UnknownStep(step, site, r.stepId)
    else if site.ConditionSite? then false
    else if !Upstream(GraphOf(scope.defs), step, id) then e == NotUpstream(step, site, r.stepId)
    else
      || (r.outputKey != "" && SchemaLacks(scope.defs[id], r.outputKey) &&
          e == NotInSchema(step, site, r.stepId, r.outputKey))
      || (r.outputKey != "" && ContractLacks(scope, scope.defs[id], r.outputKey) &&
          e == NotInContract(step, site, r.stepId, r.outputKey))
  }

  ghost predicate TemplateFault(scope: Scope, step: StepId, site: Site, t: Template, e: RefError) {
    || (exists p :: p in ParamRefs(site, t) && p !in scope.params && e == UnknownParam(step, site, p))
    || (exists r :: r in StepRefs(site, t) && RefFault(scope, step, site, r, e))
  }

  ghost predicate StepFault(scope: Scope, step: StepDef, e: RefError) {
    exists site, t :: Carries(step, site, t) && TemplateFault(scope, step.id, site, t, e)
  }

  method CheckRef(scope: Scope, step: StepId, site: Site, r: StepRef, upstream: set<StepId>)
    returns (errs: seq<RefError>)
    requires forall id :: id in upstream <==> Upstream(GraphOf(scope.defs), step, id)
    ensures forall e :: e in errs <==> RefFault(scope, step, site, r, e)
  {
    errs := [];
    var id := StepId(r.stepId);
    if id !in scope.defs {
      return [UnknownStep(step, site, r.stepId)];
    }
    if site.ConditionSite? {
      return [];
    }
    if id !in upstream {
      return [NotUpstream(step, site, r.stepId)];
    }
    if r.outputKey != "" && SchemaLacks(scope.defs[id], r.outputKey) {
      errs := errs + [NotInSchema(step, site, r.stepId, r.outputKey)];
    }
    if r.outputKey != "" && ContractLacks(scope, scope.defs[id], r.outputKey) {
      errs := errs + [NotInContract(step, site, r.stepId, r.outputKey)];
    }
  }

  method CheckTemplate(scope: Scope, step: StepId, site: Site, t: Template, upstream: set<StepId>)
    returns (errs: seq<RefError>)
    requires forall id :: id in upstream <==> Upstream(GraphOf(scope.defs), step, id)
    ensures forall e :: e in errs <==> TemplateFault(scope, step, site, t, e)
  {
    var paramRefs, stepRefs := ExtractTemplateRefs(t, site.ConditionSite?);
    assert forall p :: p in paramRefs <==> p in (set x | x in paramRefs);
    assert forall r :: r in stepRefs <==> r in (set x | x in stepRefs);
    hide TemplateChains, Chains, Ascending;
    errs := [];
    for n := 0 to |paramRefs|
      invariant forall e :: e in errs <==>
                  exists j :: 0 <= j < n && paramRefs[j] !in scope.params && e == UnknownParam(step, site, paramRefs[j])
    {
      if paramRefs[n] !in scope.params {
        errs := errs + [UnknownParam(step, site, paramRefs[n])];
      }
    }
    ghost var paramErrs := errs;
    hide RefFault;
    for n := 0 to |stepRefs|
      invariant forall e :: e in errs <==>
                  e in paramErrs || exists j :: 0 <= j < n && RefFault(scope, step, site, stepRefs[j], e)
    {
      var found := CheckRef(scope, step, site, stepRefs[n], upstream);
      errs := errs + found;
    }
  }

  function ConfigTemplates(config: map<string, ConfigValue>, keys: seq<string>): seq<(Site, Template)>
    requires forall k :: k in keys ==> k in config
  {
    if keys == [] then [] else
    var v := config[keys[|keys| - 1]];
    ConfigTemplates(config, keys[..|keys| - 1]) + if v.TemplateValue? && v.template != EmptyTemplate
        then [(ConfigSite, v.template)] else []
  }

  lemma {:induction false} ConfigTemplatesAre(config: map<string, ConfigValue>, keys: seq<string>, x: (Site, Template))
    requires forall k :: k in keys ==> k in config
    ensures x in ConfigTemplates(config, keys) <==>
      x.0 == ConfigSite && x.1 != EmptyTemplate && exists k :: k in keys && config[k] == TemplateValue(x.1)
  {
    if keys != [] {
      ConfigTemplatesAre(config, keys[..|keys| - 1], x);
      assert forall k :: k in keys <==> k in keys[..|keys| - 1] || k == keys[|keys| - 1];
    }
  }

  function PromptTemplates(step: StepDef): seq<(Site, Template)> {
    if step.execution.Some? && step.execution.value.prompt != EmptyTemplate
        then [(PromptSite, step.execution.value.prompt)] else []
  }

  function ConditionTemplates(step: StepDef): seq<(Site, Template)> {
    if step.condition != EmptyTemplate then [(ConditionSite, step.condition)] else []
  }

  /** The prompt, the config values by key, then the condition. */
  ghost predicate InSourceOrder(step: StepDef, templates: seq<(Site, Template)>) {
    if step.action.None? then templates == PromptTemplates(step) + ConditionTemplates(step)
    else
      var config := step.action.value.config;
      exists keys :: Ascending(keys, (k: string) => k) && (forall k :: k in keys <==> k in config) &&
        templates == PromptTemplates(step) + ConfigTemplates(config, keys) + ConditionTemplates(step)
  }

  lemma InOrderCarries(step: StepDef, templates: seq<(Site, Template)>, site: Site, t: Template)
    requires InSourceOrder(step, templates)
    ensures (site, t) in templates <==> Carries(step, site, t)
  {
    hide Ascending;
    if step.action.Some? {
      var config := step.action.value.config;
      var keys :| Ascending(keys, (k: string) => k) && (forall k :: k in keys <==> k in config) &&
        templates == PromptTemplates(step) + ConfigTemplates(config, keys) + ConditionTemplates(step);
      ConfigTemplatesAre(config, keys, (site, t));
    }
  }

  /** The string values of an action's config, by key. */
  method CollectConfig(config: map<string, ConfigValue>) returns (found: seq<(Site, Template)>, keys: seq<string>)
    ensures Ascending(keys, (k: string) => k) && forall k :: k in keys <==> k in config
    ensures found == ConfigTemplates(config, keys)
  {
    hide Ascending;
    keys := SortedKeys(config);
    found := [];
    for n := 0 to |keys|
      invariant found == ConfigTemplates(config, keys[..n])
    {
      var v := config[keys[n]];
      assert keys[..n + 1][..n] == keys[..n];
      if v.TemplateValue? && v.template != EmptyTemplate {
        found := found + [(ConfigSite, v.template)];
      }
    }
    assert keys[..|keys|] == keys;
  }

  /** The templates one step carries, in the order they are checked. */
  method StepTemplates(step: StepDef) returns (templates: seq<(Site, Template)>)
    ensures InSourceOrder(step, templates)
    ensures forall site, t :: (site, t) in templates <==> Carries(step, site, t)
  {
    hide Ascending, Carries, ConfigTemplates;
    templates := [];
    if step.execution.Some? && step.execution.value.prompt != EmptyTemplate {
      templates := [(PromptSite, step.execution.value.prompt)];
    }
    if step.action.Some? {
      var found, _ := CollectConfig(step.action.value.config);
      templates := templates + found;
    }
    if step.condition != EmptyTemplate {
      templates := templates + [(ConditionSite, step.condition)];
    }
    assert InSourceOrder(step, templates);
    hide InSourceOrder;
    forall site, t { InOrderCarries(step, templates, site, t); }
  }

  method SortedKeys(config: map<string, ConfigValue>) returns (keys: seq<string>)
    ensures forall k :: k in keys <==> k in config
    ensures Ascending(keys, (k: string) => k)
  {
    var unsorted: seq<string> := [];
    var todo := config.Keys;
    while todo != {}
      invariant todo <= config.Keys && Distinct(unsorted)
      invariant forall k :: k in unsorted <==> k in config && k !in todo
      decreases todo
    {
      var k :| k in todo;
      unsorted, todo := unsorted + [k], todo - {k};
    }
    keys := SortByKey(unsorted, (k: string) => k);
  }

  method CheckStep(scope: Scope, steps: seq<StepDef>, step: StepDef) returns (errs: seq<RefError>)
    requires scope.defs == StepMap(steps)
    ensures forall e :: e in errs <==> StepFault(scope, step, e)
  {
    var upstream := UpstreamOf(step.id, steps);
    var templates := StepTemplates(step);
    hide TemplateFault, Carries;
    errs := [];
    for n := 0 to |templates|
      invariant forall e :: e in errs <==>
                  exists j :: 0 <= j < n && TemplateFault(scope, step.id, templates[j].0, templates[j].1, e)
    {
      var found := CheckTemplate(scope, step.id, templates[n].0, templates[n].1, upstream);
      errs := errs + found;
    }
    forall e ensures e in errs <==> StepFault(scope, step, e) {
      if StepFault(scope, step, e) {
        var site, t :| Carries(step, site, t) && TemplateFault(scope, step.id, site, t, e);
        assert (site, t) in templates;
      }
    }
  }

  /** The check reports exactly the faults there are. */
  method ValidateTemplateRefs(steps: seq<StepDef>, params: set<string>, contracts: map<string, set<string>>)
    returns (errs: seq<RefError>)
    ensures forall e :: e in errs <==>
              exists i :: 0 <= i < |steps| && StepFault(Scope(StepMap(steps), params, contracts), steps[i], e)
  {
    var scope := Scope(StepMap(steps), params, contracts);
    errs := [];
    hide StepFault;
    for n := 0 to |steps|
      invariant forall e :: e in errs <==> exists i :: 0 <= i < n && StepFault(scope, steps[i], e)
    {
      var found := CheckStep(scope, steps, steps[n]);
      errs := errs + found;
    }
  }

  /** Nothing reported for any step. */
  ghost predicate RefsResolve(steps: seq<StepDef>, params: set<string>, contracts: map<string, set<string>>) {
    forall i, e :: 0 <= i < |steps| ==> !StepFault(Scope(StepMap(steps), params, contracts), steps[i], e)
  }

  /** In an accepted workflow every reference a prompt or action config makes is to a step
      upstream of the one that makes it. */
  lemma AcceptedRefsAreUpstream(steps: seq<StepDef>, params: set<string>, contracts: map<string, set<string>>,
                                i: nat, site: Site, t: Template, r: StepRef)
    requires RefsResolve(steps, params, contracts) && i < |steps|
    requires Carries(steps[i], site, t) && !site.ConditionSite? && r in StepRefs(site, t)
    ensures Upstream(GraphOf(StepMap(steps)), steps[i].id, StepId(r.stepId))
  {
    var scope := Scope(StepMap(steps), params, contracts);
    var id := steps[i].id;
    if StepId(r.stepId) !in scope.defs {
      assert RefFault(scope, id, site, r, UnknownStep(id, site, r.stepId));
      assert TemplateFault(scope, id, site, t, UnknownStep(id, site, r.stepId));
      assert StepFault(scope, steps[i], UnknownStep(id, site, r.stepId));
    } else if !Upstream(GraphOf(scope.defs), id, StepId(r.stepId)) {
      assert RefFault(scope, id, site, r, NotUpstream(id, site, r.stepId));
      assert TemplateFault(scope, id, site, t, NotUpstream(id, site, r.stepId));
      assert StepFault(scope, steps[i], NotUpstream(id, site, r.stepId));
    }
  }
}
