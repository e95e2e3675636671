/** What the wave loop computes, as a function, and what that function is worth: which step
    runs in which wave, and that no other dependency-respecting order gives anything else. */
module WaveSemantics {
  import opened WorkflowModel
  import opened DependencyGraph
  import opened StructureValidator
  import opened StepBody

  type Defs = map<StepId, StepDef>

  ghost predicate KeyedById(defs: Defs) {
    forall id :: id in defs ==> defs[id].id == id
  }

  /** The steps without a result whose dependencies all have one. */
  function Ready(g: Graph<StepId>, done: set<StepId>): set<StepId> {
    set id | id in g && id !in done && g[id] <= done
  }

  /** The results of one wave: every ready step, launched with the same outputs. */
  function WaveResults(w: World, defs: Defs, outputs: Outputs): Outputs {
    map id | id in Ready(GraphOf(defs), outputs.Keys) :: StepResult(w, defs[id], outputs)
  }

  /** The outputs after k waves. */
  function Waves(w: World, defs: Defs, k: nat): Outputs {
    if k == 0 then map[] else
    var before := Waves(w, defs, k - 1);
    before + WaveResults(w, defs, before)
  }

  lemma ReadyStep(w: World, defs: Defs, k: nat)
    ensures Waves(w, defs, k + 1).Keys == Waves(w, defs, k).Keys + Ready(GraphOf(defs), Waves(w, defs, k).Keys)
    ensures forall id :: id in Waves(w, defs, k) ==> Waves(w, defs, k + 1)[id] == Waves(w, defs, k)[id]
  {
  }

  /** The chain predicate one step at a time. */
  lemma ChainStep(g: Graph<StepId>, id: StepId, k: nat)
    requires id in g
    ensures HasChain(g, id, k + 1) <==> exists d :: d in g[id] && HasChain(g, d, k)
  {
  }

  /** The steps with no dependency chain of n edges. */
  ghost function Shallow(g: Graph<StepId>, n: nat): set<StepId> {
    set id | id in g && !HasChain(g, id, n)
  }

  lemma ShallowExtends(g: Graph<StepId>, n: nat)
    requires Closed(g)
    ensures Shallow(g, n + 1) == Shallow(g, n) + Ready(g, Shallow(g, n))
  {
    var done := Shallow(g, n);
    forall id | id in g ensures id in done + Ready(g, done) <==> !HasChain(g, id, n + 1) {
      ChainStep(g, id, n);
      if HasChain(g, id, n + 1) {
        ChainPrefix(g, id, n, n + 1);
      }
      if id !in done && !(g[id] <= done) {
        var d :| d in g[id] && d !in done;
        assert d in g;
      }
    }
  }

  lemma NoWaves(w: World, defs: Defs)
    ensures Waves(w, defs, 0) == map[]
  {
  }

  lemma NoneShallow(g: Graph<StepId>)
    ensures Shallow(g, 0) == {}
  {
  }

  lemma {:induction false} WaveIsShallow(w: World, defs: Defs, k: nat)
    requires Closed(GraphOf(defs))
    ensures Waves(w, defs, k).Keys == Shallow(GraphOf(defs), k)
  {
    hide Waves, Shallow, GraphOf, Closed, Ready, WaveResults;
    if k == 0 {
      NoneShallow(GraphOf(defs));
      NoWaves(w, defs);
    } else {
      WaveIsShallow(w, defs, k - 1);
      ReadyStep(w, defs, k - 1);
      ShallowExtends(GraphOf(defs), k - 1);
    }
  }

  /** After k waves exactly the steps whose longest dependency chain is shorter than k have
      results: on any closed graph, with or without cycles. */
  lemma WaveDomain(w: World, defs: Defs, k: nat)
    requires Closed(GraphOf(defs))
    ensures forall id :: id in Waves(w, defs, k) <==> id in defs && !HasChain(GraphOf(defs), id, k)
  {
    WaveIsShallow(w, defs, k);
    hide Waves, HasChain;
  }

  /** A step runs in the wave numbered by its longest dependency chain. */
  lemma WaveIsLongestChain(w: World, defs: Defs, id: StepId, k: nat)
    requires Closed(GraphOf(defs)) && id in defs
    ensures id in Ready(GraphOf(defs), Waves(w, defs, k).Keys) <==> LongestChain(GraphOf(defs), id, k)
  {
    hide Waves, HasChain, GraphOf, Closed;
    WaveDomain(w, defs, k);
    WaveDomain(w, defs, k + 1);
    ReadyStep(w, defs, k);
    if HasChain(GraphOf(defs), id, k + 1) { ChainPrefix(GraphOf(defs), id, k, k + 1); }
  }

  ghost predicate HoldsDeps(g: Graph<StepId>, done: set<StepId>) {
    done <= g.Keys && forall id, d :: id in done && Dep(g, id, d) ==> d in done
  }

  lemma ReadyHoldsDeps(g: Graph<StepId>, done: set<StepId>)
    requires HoldsDeps(g, done)
    ensures HoldsDeps(g, done + Ready(g, done))
  {
  }

  lemma {:induction false} WavesHoldDeps(w: World, defs: Defs, k: nat)
    ensures HoldsDeps(GraphOf(defs), Waves(w, defs, k).Keys)
  {
    if k > 0 {
      hide HoldsDeps, Waves, Ready;
      WavesHoldDeps(w, defs, k - 1);
      ReadyHoldsDeps(GraphOf(defs), Waves(w, defs, k - 1).Keys);
      ReadyStep(w, defs, k - 1);
    }
  }

  /** The outputs after any number of waves hold every dependency of every step they hold. */
  lemma WavesClosedUnderDeps(w: World, defs: Defs, k: nat)
    ensures forall id, d :: id in Waves(w, defs, k) && Dep(GraphOf(defs), id, d) ==> d in Waves(w, defs, k)
    ensures Waves(w, defs, k).Keys <= defs.Keys
  {
    WavesHoldDeps(w, defs, k);
    hide Waves;
  }

  /** When a step is launched, everything upstream of it has a result. */
  lemma UpstreamPresentAtLaunch(w: World, defs: Defs, k: nat, id: StepId, x: StepId)
    requires id in Ready(GraphOf(defs), Waves(w, defs, k).Keys)
    requires Upstream(GraphOf(defs), id, x)
    ensures x in Waves(w, defs, k)
  {
    var g := GraphOf(defs);
    WavesClosedUnderDeps(w, defs, k);
    var b := UpstreamFirst(g, id, x);
    if b != x {
      var walk :| Connects(g, walk, b, x);
      ClosedSetKeepsUpstream(g, Waves(w, defs, k).Keys, walk);
    }
  }

  lemma Missing<T>(all: set<T>, some: set<T>) returns (x: T)
    requires some <= all && some != all
    ensures x in all - some
  {
    x :| x in all && x !in some;
  }

  /** A wave with nothing ready leaves a step that can never run: a dependency is unknown, or
      the steps left depend on each other in a circle. */
  lemma StuckMeansBroken(w: World, defs: Defs, k: nat)
    requires Ready(GraphOf(defs), Waves(w, defs, k).Keys) == {} && Waves(w, defs, k).Keys != defs.Keys
    ensures !(Closed(GraphOf(defs)) && Acyclic(GraphOf(defs)))
  {
    var g := GraphOf(defs);
    WavesClosedUnderDeps(w, defs, k);
    var left := defs.Keys - Waves(w, defs, k).Keys;
    var a := Missing(defs.Keys, Waves(w, defs, k).Keys);
    hide Waves;
    if Closed(g) {
      forall x | x in left ensures DependsInside(g, left, x) {
        assert x !in Ready(g, Waves(w, defs, k).Keys);
        var d :| d in g[x] && d !in Waves(w, defs, k);
        assert Dep(g, x, d);
      }
      var c := TrappedSetHasCycle(g, left, [a]);
    }
  }

  /** On a well-formed graph one wave more than there are steps suffice for every step. */
  lemma WavesFinish(w: World, defs: Defs, k: nat)
    requires Closed(GraphOf(defs)) && Acyclic(GraphOf(defs)) && k > |defs.Keys|
    ensures Waves(w, defs, k).Keys == defs.Keys
  {
    var g := GraphOf(defs);
    assert g.Keys == defs.Keys;
    hide *;
    WaveDomain(w, defs, k);
    WavesClosedUnderDeps(w, defs, k);
    forall id | id in defs ensures id in Waves(w, defs, k) {
      AcyclicBoundsChains(g, id);
      if HasChain(g, id, k) { ChainPrefix(g, id, |g.Keys| + 1, k); }
    }
  }

  // --- confluence --------------------------------------------------------------------

  ghost predicate AllLocal(w: World, defs: Defs) {
    forall id :: id in defs ==> LocalTo(w, GraphOf(defs), defs[id])
  }

  /** Every result in outputs is what its step produces from the results upstream of it. */
  ghost predicate Consistent(w: World, defs: Defs, outputs: Outputs) {
    && outputs.Keys <= defs.Keys
    && (forall id, d :: id in outputs && Dep(GraphOf(defs), id, d) ==> d in outputs)
    && forall id :: id in outputs ==>
         outputs[id] == StepResult(w, defs[id], Visible(GraphOf(defs), outputs, id))
  }

  /** A step is launched after everything upstream of it and before anything it could not
      see, so adding its result, or anyone else's, changes no visible part. */
  lemma VisibleStable(g: Graph<StepId>, outputs: Outputs, more: Outputs, id: StepId)
    requires outputs.Keys <= more.Keys && forall x :: x in outputs ==> more[x] == outputs[x]
    requires forall a, b :: a in outputs && Dep(g, a, b) ==> b in outputs
    requires id in g && g[id] <= outputs.Keys
    ensures Visible(g, more, id) == Visible(g, outputs, id)
  {
    forall x | Upstream(g, id, x) ensures x in outputs {
      var b := UpstreamFirst(g, id, x);
      if b != x {
        var walk :| Connects(g, walk, b, x);
        ClosedSetKeepsUpstream(g, outputs.Keys, walk);
      }
    }
  }

  lemma ReadyLaunchable(g: Graph<StepId>, outputs: Outputs, id: StepId)
    requires forall a, b :: a in outputs && Dep(g, a, b) ==> b in outputs
    requires id !in outputs
    ensures Launchable(g, outputs, id)
  {
    forall x | x in outputs ensures !Upstream(g, x, id) {
      if Upstream(g, x, id) {
        UpstreamInside(g, outputs.Keys, x, id);
        assert false;
      }
    }
  }

  /** Adding the results of any set of ready steps keeps the outputs consistent. */
  lemma ConsistentBatch(w: World, defs: Defs, outputs: Outputs, batch: set<StepId>, more: Outputs)
    requires KeyedById(defs) && AllLocal(w, defs) && Consistent(w, defs, outputs)
    requires batch <= Ready(GraphOf(defs), outputs.Keys)
    requires more == outputs + map id | id in batch :: StepResult(w, defs[id], outputs)
    ensures Consistent(w, defs, more)
  {
    var g := GraphOf(defs);
    forall id | id in more
      ensures more[id] == StepResult(w, defs[id], Visible(g, more, id))
    {
      assert g[id] <= outputs.Keys by {
        if id in outputs {
          forall d | d in g[id] ensures d in outputs { assert Dep(g, id, d); }
        }
      }
      VisibleStable(g, outputs, more, id);
      if id !in outputs {
        ReadyLaunchable(g, outputs, id);
        ResultLocal(w, g, defs[id], outputs);
      }
    }
  }

  lemma {:induction false} WavesConsistent(w: World, defs: Defs, k: nat)
    requires KeyedById(defs) && AllLocal(w, defs)
    ensures Consistent(w, defs, Waves(w, defs, k))
  {
    if k > 0 {
      WavesConsistent(w, defs, k - 1);
      var before := Waves(w, defs, k - 1);
      ConsistentBatch(w, defs, before, Ready(GraphOf(defs), before.Keys), Waves(w, defs, k));
    }
  }

  /** Running the steps one at a time in the given order. */
  function InOrder(w: World, defs: Defs, order: seq<StepId>): Outputs
    requires forall id :: id in order ==> id in defs
  {
    if order == [] then map[] else
    var init, last := order[..|order| - 1], order[|order| - 1];
    InOrder(w, defs, init)[last := StepResult(w, defs[last], InOrder(w, defs, init))]
  }

  lemma {:induction false} InOrderConsistent(w: World, defs: Defs, order: seq<StepId>)
    requires KeyedById(defs) && AllLocal(w, defs)
    requires TopoOrder(GraphOf(defs), order)
    requires forall id :: id in order ==> id in defs
    ensures InOrder(w, defs, order).Keys == set id | id in order
    ensures Consistent(w, defs, InOrder(w, defs, order))
  {
    if order != [] {
      var init, last := order[..|order| - 1], order[|order| - 1];
      assert order == init + [last];
      TopoSnoc(GraphOf(defs), init, last);
      InOrderConsistent(w, defs, init);
      InOrderStep(w, defs, init, last);
    }
  }

  lemma InOrderStep(w: World, defs: Defs, init: seq<StepId>, last: StepId)
    requires KeyedById(defs) && AllLocal(w, defs)
    requires forall id :: id in init + [last] ==> id in defs
    requires last !in init && last in defs && GraphOf(defs)[last] <= set id | id in init
    requires forall id :: id in init ==> id in defs
    requires InOrder(w, defs, init).Keys == (set id | id in init) && Consistent(w, defs, InOrder(w, defs, init))
    ensures InOrder(w, defs, init + [last]).Keys == set id | id in init + [last]
    ensures Consistent(w, defs, InOrder(w, defs, init + [last]))
  {
    hide StepResult, AllLocal, KeyedById, Consistent;
    var before := InOrder(w, defs, init);
    assert (init + [last])[..|init|] == init;
    var after := before + map id | id in {last} :: StepResult(w, defs[id], before);
    assert after == InOrder(w, defs, init + [last]);
    ConsistentBatch(w, defs, before, {last}, after);
  }

  lemma TopoSnoc(g: Graph<StepId>, init: seq<StepId>, last: StepId)
    requires TopoOrder(g, init + [last])
    ensures TopoOrder(g, init)
    ensures last in g && last !in init && forall d :: d in g[last] ==> d in init
  {
    var order := init + [last];
    assert order[|init|] == last && forall i :: 0 <= i < |init| ==> order[i] == init[i];
    forall i, d | 0 <= i < |init| && Dep(g, init[i], d) ensures d in init[..i] {
      assert d in order[..i] && order[..i] == init[..i];
    }
    forall d | d in g[last] ensures d in init {
      assert Dep(g, order[|init|], d);
      assert order[..|init|] == init;
    }
    forall i | 0 <= i < |init| ensures init[i] != last {
      assert order[i] != order[|init|];
    }
  }

  /** Two consistent outputs of an acyclic workflow agree wherever both have a result. */
  lemma {:induction false} ConsistentAgree(w: World, defs: Defs, o1: Outputs, o2: Outputs, id: StepId, n: nat)
    requires KeyedById(defs) && AllLocal(w, defs) && Acyclic(GraphOf(defs))
    requires Consistent(w, defs, o1) && Consistent(w, defs, o2)
    requires id in o1 && id in o2 && !HasChain(GraphOf(defs), id, n)
    ensures o1[id] == o2[id]
    decreases n
  {
    var g := GraphOf(defs);
    hide StepResult, AllLocal, Upstream, HasChain, Acyclic;
    forall x | Upstream(g, id, x)
      ensures x in o1 && x in o2 && o1[x] == o2[x]
    {
      UpstreamShortens(g, id, x, n);
      UpstreamInside(g, o1.Keys, id, x);
      UpstreamInside(g, o2.Keys, id, x);
      ConsistentAgree(w, defs, o1, o2, x, n - 1);
    }
    assert Visible(g, o1, id) == Visible(g, o2, id);
  }

  lemma UpstreamInside(g: Graph<StepId>, s: set<StepId>, id: StepId, x: StepId)
    requires forall a, b :: a in s && Dep(g, a, b) ==> b in s
    requires id in s && Upstream(g, id, x)
    ensures x in s
  {
    var walk :| Connects(g, walk, id, x);
    ClosedSetKeepsUpstream(g, s, walk);
  }

  /** Chains only get shorter upstream. */
  lemma UpstreamShortens(g: Graph<StepId>, id: StepId, x: StepId, n: nat)
    requires Upstream(g, id, x) && !HasChain(g, id, n)
    ensures n > 0 && !HasChain(g, x, n - 1)
  {
    var walk :| Connects(g, walk, id, x);
    WalkShortens(g, walk, n);
  }

  lemma {:induction false} WalkShortens(g: Graph<StepId>, walk: seq<StepId>, n: nat)
    requires IsWalk(g, walk) && |walk| >= 2 && !HasChain(g, walk[0], n)
    ensures n > 0 && !HasChain(g, walk[|walk| - 1], n - 1)
    decreases |walk|
  {
    WalkTail(g, walk);
    assert n > 0;
    assert !HasChain(g, walk[1], n - 1);
    if |walk| > 2 {
      WalkShortens(g, walk[1..], n - 1);
      var last := walk[|walk| - 1];
      if HasChain(g, last, n - 1) { ChainPrefix(g, last, n - 2, n - 1); }
    }
  }

  /** Confluence: for a closed acyclic workflow of local steps, running all steps one at a time
      in any order that respects dependencies gives exactly the outputs the waves give. */
  lemma Confluence(w: World, defs: Defs, order: seq<StepId>, k: nat)
    requires KeyedById(defs) && AllLocal(w, defs)
    requires Closed(GraphOf(defs)) && Acyclic(GraphOf(defs))
    requires TopoOrder(GraphOf(defs), order) && forall id :: id in defs <==> id in order
    requires Waves(w, defs, k).Keys == defs.Keys
    ensures InOrder(w, defs, order) == Waves(w, defs, k)
  {
    hide *;
    WavesConsistent(w, defs, k);
    InOrderConsistent(w, defs, order);
    var o1, o2 := InOrder(w, defs, order), Waves(w, defs, k);
    assert o1.Keys == defs.Keys;
    forall id | id in defs ensures o1[id] == o2[id] {
      AcyclicBoundsChains(GraphOf(defs), id);
      ConsistentAgree(w, defs, o1, o2, id, |GraphOf(defs).Keys| + 1);
    }
  }
}
