/** What the template check promises, in terms of the field chains a workflow's templates contain
    (internal/workflow/validate.go:342-447, 585-712). */
module TemplateMeaning {
  import opened WorkflowModel
  import opened DependencyGraph
  import opened StructureValidator
  import opened TemplateRefs

  // --- the chains of a template -----------------------------------------------------

  /** The nodes the walk goes on to from a node. */
  function Children(n: Node): seq<Node> {
    match n
    case List(nodes) => nodes
    case Action(pipe) => [pipe]
    case Branch(_, pipe, list, elseList) => [pipe, list] + if elseList.Some? then [elseList.value] else []
    case Pipe(cmds) => cmds
    case Command(args) => args
    case Field(_) => []
    case Other => []
  }

  /** A way down the tree from n to m. */
  ghost predicate LeadsTo(path: seq<Node>, n: Node, m: Node) {
    && |path| > 0 && path[0] == n && path[|path| - 1] == m
    && forall i :: 0 <= i < |path| - 1 ==> path[i + 1] in Children(path[i])
  }

  ghost predicate Inside(n: Node, m: Node) {
    exists path :: LeadsTo(path, n, m)
  }

  lemma ChildIsInside(n: Node, child: Node, m: Node)
    requires child in Children(n) && Inside(child, m)
    ensures Inside(n, m)
  {
    var path :| LeadsTo(path, child, m);
    assert LeadsTo([n] + path, n, m);
  }

  lemma {:induction false} ChainsAreInside(n: Node, c: seq<Ident>)
    requires c in Chains(n)
    ensures Inside(n, Field(c))
    decreases n, 1
  {
    match n
    case List(nodes) => ListChainsAreInside(n, nodes, c);
    case Pipe(cmds) => ListChainsAreInside(n, cmds, c);
    case Command(args) => ListChainsAreInside(n, args, c);
    case Action(pipe) => ChainsAreInside(pipe, c); ChildIsInside(n, pipe, Field(c));
    case Branch(_, pipe, list, elseList) =>
      var child := if c in Chains(pipe) then pipe else if c in Chains(list) then list else elseList.value;
      ChainsAreInside(child, c);
      ChildIsInside(n, child, Field(c));
    case Field(idents) => assert LeadsTo([n], n, Field(c));
  }

  lemma {:induction false} ListChainsAreInside(n: Node, nodes: seq<Node>, c: seq<Ident>)
    requires c in ChainsOf(nodes) && forall m :: m in nodes ==> m in Children(n) && m < n
    ensures Inside(n, Field(c))
    decreases n, 0, |nodes|
  {
    var last := nodes[|nodes| - 1];
    assert last in nodes;
    if c in Chains(last) {
      ChainsAreInside(last, c);
      ChildIsInside(n, last, Field(c));
    } else {
      ListChainsAreInside(n, nodes[..|nodes| - 1], c);
    }
  }

  lemma {:induction false} ListChainsHold(nodes: seq<Node>, m: Node, c: seq<Ident>)
    requires m in nodes && c in Chains(m)
    ensures c in ChainsOf(nodes)
  {
    if m != nodes[|nodes| - 1] {
      ListChainsHold(nodes[..|nodes| - 1], m, c);
    }
  }

  lemma {:induction false} InsideIsChain(path: seq<Node>, n: Node, c: seq<Ident>)
    requires LeadsTo(path, n, Field(c))
    ensures c in Chains(n)
    decreases |path|
  {
    if |path| > 1 {
      var child := path[1];
      assert child in Children(path[0]);
      assert LeadsTo(path[1..], child, Field(c));
      InsideIsChain(path[1..], child, c);
      match n
      case List(nodes) => ListChainsHold(nodes, child, c);
      case Pipe(cmds) => ListChainsHold(cmds, child, c);
      case Command(args) => ListChainsHold(args, child, c);
      case _ =>
    }
  }

  /** The chains of a template are the field nodes that can be reached from its root. */
  lemma ChainsExactly(n: Node, c: seq<Ident>)
    ensures c in Chains(n) <==> Inside(n, Field(c))
  {
    if c in Chains(n) {
      ChainsAreInside(n, c);
    }
    if Inside(n, Field(c)) {
      var path :| LeadsTo(path, n, Field(c));
      InsideIsChain(path, n, c);
    }
  }

  // --- what the check decides ----------------------------------------------------------

  /** The chain occurs in the step's prompt, in a string of its action's config, or in its condition. */
  ghost predicate Reads(step: StepDef, site: Site, c: seq<Ident>) {
    match site
    case PromptSite => step.execution.Some? && c in TemplateChains(step.execution.value.prompt)
    case ConfigSite =>
      step.action.Some? && exists k ::
        k in step.action.value.config && step.action.value.config[k].TemplateValue? &&
        c in TemplateChains(step.action.value.config[k].template)
    case ConditionSite => c in TemplateChains(step.condition)
  }

  /** The chain reads a parameter, which is then called p. */
  predicate ReadsParam(site: Site, c: seq<Ident>, p: string) {
    |c| >= 2 && c[0] == (if site == ConditionSite then "params" else "Params") && c[1] == p
  }

  /** The chain reads something of a step, which is then called x. */
  predicate ReadsStep(site: Site, c: seq<Ident>, x: string) {
    |c| >= 3 && c[0] == (if site == ConditionSite then "steps" else "Steps") && c[1] == x
  }

  /** The chain reads the output called key of a step. */
  predicate ReadsOutput(c: seq<Ident>, key: string) {
    |c| >= 4 && c[2] == "Output" && c[3] == key != ""
  }

  /** The step does not promise an output of that name although it declares what it promises. */
  predicate NotDeclared(target: StepDef, key: string) {
    match target.execution
    case Some(ExecutionDef(_, _, Some(schema))) => key !in schema
    case _ => false
  }

  predicate NotRegistered(contracts: map<string, set<string>>, target: StepDef, key: string) {
    match target.action
    case Some(ActionDef(name, _)) => name in contracts && key !in contracts[name]
    case None => false
  }

  /** A chain resolves: its parameter is declared; its step exists and, outside conditions, comes before
      the reader and has the output read, as far as it declares its outputs. */
  ghost predicate Resolves(scope: Scope, step: StepId, site: Site, c: seq<Ident>) {
    && (forall p :: ReadsParam(site, c, p) ==> p in scope.params)
    && forall x :: ReadsStep(site, c, x) ==>
      && StepId(x) in scope.defs
      && (site != ConditionSite ==> Upstream(GraphOf(scope.defs), step, StepId(x)))
      && forall key :: site != ConditionSite && ReadsOutput(c, key) ==>
        && !NotDeclared(scope.defs[StepId(x)], key)
        && !NotRegistered(scope.contracts, scope.defs[StepId(x)], key)
  }

  /** e is what the chain gives rise to. */
  ghost predicate Objects(scope: Scope, step: StepId, site: Site, c: seq<Ident>, e: RefError) {
    e.step == step && e.site == site &&
    match e
    case UnknownParam(_, _, p) => ReadsParam(site, c, p) && p !in scope.params
    case UnknownStep(_, _, x) => ReadsStep(site, c, x) && StepId(x) !in scope.defs
    case NotUpstream(_, _, x) =>
      && site != ConditionSite && ReadsStep(site, c, x) && StepId(x) in scope.defs
      && !Upstream(GraphOf(scope.defs), step, StepId(x))
    case NotInSchema(_, _, x, key) =>
      && site != ConditionSite && ReadsStep(site, c, x) && StepId(x) in scope.defs
      && Upstream(GraphOf(scope.defs), step, StepId(x))
      && ReadsOutput(c, key) && NotDeclared(scope.defs[StepId(x)], key)
    case NotInContract(_, _, x, key) =>
      && site != ConditionSite && ReadsStep(site, c, x) && StepId(x) in scope.defs
      && Upstream(GraphOf(scope.defs), step, StepId(x))
      && ReadsOutput(c, key) && NotRegistered(scope.contracts, scope.defs[StepId(x)], key)
  }

  lemma ParamFaultsExactly(scope: Scope, step: StepId, site: Site, t: Template, e: RefError)
    ensures (exists p :: p in ParamRefs(site, t) && p !in scope.params && e == UnknownParam(step, site, p)) <==>
            e.UnknownParam? && exists c :: c in TemplateChains(t) && Objects(scope, step, site, c, e)
  {
    if p :| p in ParamRefs(site, t) && p !in scope.params && e == UnknownParam(step, site, p) {
      var key: Ident := if site.ConditionSite? then "params" else "Params";
      var c :| c in TemplateChains(t) && NamesParam(c, key) && c[1] == p;
      assert Objects(scope, step, site, c, e);
    }
    if e.UnknownParam? {
      if c :| c in TemplateChains(t) && Objects(scope, step, site, c, e) {
        assert c[1] in ParamRefs(site, t);
      }
    }
  }

  lemma ChainFaultExactly(scope: Scope, step: StepId, site: Site, c: seq<Ident>, e: RefError)
    ensures !e.UnknownParam? ==>
      (Objects(scope, step, site, c, e) <==>
        NamesStep(c, if site.ConditionSite? then "steps" else "Steps") && RefFault(scope, step, site, RefOf(c), e))
    ensures e.UnknownParam? && |c| >= 3 ==> !RefFault(scope, step, site, RefOf(c), e)
  {
    hide Upstream, GraphOf;
  }

  lemma StepFaultsExactly(scope: Scope, step: StepId, site: Site, t: Template, e: RefError)
    ensures (exists r :: r in StepRefs(site, t) && RefFault(scope, step, site, r, e)) <==>
            !e.UnknownParam? && exists c :: c in TemplateChains(t) && Objects(scope, step, site, c, e)
  {
    hide RefFault, Objects;
    if r :| r in StepRefs(site, t) && RefFault(scope, step, site, r, e) {
      var key: Ident := if site.ConditionSite? then "steps" else "Steps";
      var c :| c in TemplateChains(t) && NamesStep(c, key) && RefOf(c) == r;
      ChainFaultExactly(scope, step, site, c, e);
    }
    if !e.UnknownParam? {
      if c :| c in TemplateChains(t) && Objects(scope, step, site, c, e) {
        ChainFaultExactly(scope, step, site, c, e);
        assert RefOf(c) in StepRefs(site, t);
      }
    }
  }

  lemma TemplateFaultsExactly(scope: Scope, step: StepId, site: Site, t: Template, e: RefError)
    ensures TemplateFault(scope, step, site, t, e) <==>
            exists c :: c in TemplateChains(t) && Objects(scope, step, site, c, e)
  {
    ParamFaultsExactly(scope, step, site, t, e);
    StepFaultsExactly(scope, step, site, t, e);
    hide RefFault, Objects, TemplateChains, StepRefs, ParamRefs;
  }

  lemma ReadsCarried(step: StepDef, site: Site, c: seq<Ident>)
    ensures Reads(step, site, c) <==> exists t :: Carries(step, site, t) && c in TemplateChains(t)
  {
    hide Chains;
    if Reads(step, site, c) {
      var t := match site
        case PromptSite => step.execution.value.prompt
        case ConfigSite =>
          var k :| k in step.action.value.config && step.action.value.config[k].TemplateValue? &&
            c in TemplateChains(step.action.value.config[k].template);
          step.action.value.config[k].template
        case ConditionSite => step.condition;
      assert Carries(step, site, t);
    }
  }

  /** The check reports, for each chain a step reads, exactly what that chain gives rise to. */
  lemma FaultsExactly(scope: Scope, step: StepDef, e: RefError)
    ensures StepFault(scope, step, e) <==>
            exists site, c :: Reads(step, site, c) && Objects(scope, step.id, site, c, e)
  {
    hide TemplateFault, Objects, Reads, Carries, TemplateChains;
    if StepFault(scope, step, e) {
      var site, t :| Carries(step, site, t) && TemplateFault(scope, step.id, site, t, e);
      TemplateFaultsExactly(scope, step.id, site, t, e);
      var c :| c in TemplateChains(t) && Objects(scope, step.id, site, c, e);
      ReadsCarried(step, site, c);
    }
    if site, c :| Reads(step, site, c) && Objects(scope, step.id, site, c, e) {
      ReadsCarried(step, site, c);
      var t :| Carries(step, site, t) && c in TemplateChains(t);
      TemplateFaultsExactly(scope, step.id, site, t, e);
    }
  }

  lemma ObjectionsExactly(scope: Scope, step: StepId, site: Site, c: seq<Ident>)
    ensures Resolves(scope, step, site, c) <==> forall e :: !Objects(scope, step, site, c, e)
  {
    hide Upstream, GraphOf, NotDeclared, NotRegistered;
    if !Resolves(scope, step, site, c) {
      if |c| >= 2 && ReadsParam(site, c, c[1]) && c[1] !in scope.params {
        assert Objects(scope, step, site, c, UnknownParam(step, site, c[1]));
      } else {
        var x := c[1];
        if StepId(x) !in scope.defs {
          assert Objects(scope, step, site, c, UnknownStep(step, site, x));
        } else if !Upstream(GraphOf(scope.defs), step, StepId(x)) {
          assert Objects(scope, step, site, c, NotUpstream(step, site, x));
        } else if NotDeclared(scope.defs[StepId(x)], c[3]) {
          assert Objects(scope, step, site, c, NotInSchema(step, site, x, c[3]));
        } else {
          assert Objects(scope, step, site, c, NotInContract(step, site, x, c[3]));
        }
      }
    }
  }

  /** Every chain that any prompt, config or condition reads resolves. */
  ghost predicate AllResolve(steps: seq<StepDef>, params: set<string>, contracts: map<string, set<string>>) {
    forall i, site, c :: 0 <= i < |steps| && Reads(steps[i], site, c) ==>
      Resolves(Scope(StepMap(steps), params, contracts), steps[i].id, site, c)
  }

  /** Nothing is reported if and only if all of them do. */
  lemma RefsResolveExactly(steps: seq<StepDef>, params: set<string>, contracts: map<string, set<string>>)
    ensures RefsResolve(steps, params, contracts) <==> AllResolve(steps, params, contracts)
  {
    var scope := Scope(StepMap(steps), params, contracts);
    hide StepFault, Objects, Reads, Resolves;
    forall i | 0 <= i < |steps|
      ensures (forall e :: !StepFault(scope, steps[i], e)) <==>
              forall site, c :: Reads(steps[i], site, c) ==> Resolves(scope, steps[i].id, site, c)
    {
      StepResolvesExactly(scope, steps[i]);
    }
  }

  lemma StepResolvesExactly(scope: Scope, step: StepDef)
    ensures (forall e :: !StepFault(scope, step, e)) <==>
            forall site, c :: Reads(step, site, c) ==> Resolves(scope, step.id, site, c)
  {
    hide StepFault, Objects, Reads, Resolves;
    if e :| StepFault(scope, step, e) {
      FaultsExactly(scope, step, e);
      var site, c :| Reads(step, site, c) && Objects(scope, step.id, site, c, e);
      ObjectionsExactly(scope, step.id, site, c);
    }
    if site, c :| Reads(step, site, c) && !Resolves(scope, step.id, site, c) {
      ObjectionsExactly(scope, step.id, site, c);
      var e :| Objects(scope, step.id, site, c, e);
      FaultsExactly(scope, step, e);
    }
  }
}
