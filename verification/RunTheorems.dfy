/** What holds between the validator, the scheduler and the run view: the run handler starts a
    workflow only when validation reports nothing (internal/server/handlers/runs.go:97-103). */
module RunTheorems {
  import opened WorkflowModel
  import opened DependencyGraph
  import opened StructureValidator
  import opened TemplateRefs
  import opened StepBody
  import opened WaveSemantics
  import opened SkipSpec
  import opened RunLog
  import opened Scheduler
  import opened DagLevels

  // --- the validator against the scheduler ---------------------------------------------

  lemma {:induction false} CycleHasChains(g: Graph<StepId>, w: seq<StepId>, n: nat)
    requires |w| > 0 && Connects(g, w, w[0], w[0])
    ensures HasChain(g, w[0], n)
    decreases n
  {
    if n > 0 {
      CycleChainFrom(g, w, 0, n);
    }
  }

  lemma {:induction false} CycleChainFrom(g: Graph<StepId>, w: seq<StepId>, i: nat, n: nat)
    requires |w| > 0 && Connects(g, w, w[0], w[0]) && i < |w| - 1
    ensures HasChain(g, w[i], n)
    decreases n
  {
    if n > 0 {
      assert Dep(g, w[i], w[i + 1]);
      if i + 1 < |w| - 1 {
        CycleChainFrom(g, w, i + 1, n - 1);
      } else {
        CycleChainFrom(g, w, 0, n - 1);
      }
    }
  }

  /** If some number of waves gives every step a result, the graph is closed and acyclic. */
  lemma FinishedMeansSound(w: World, defs: Defs, k: nat)
    requires Waves(w, defs, k).Keys == defs.Keys
    ensures Closed(GraphOf(defs)) && Acyclic(GraphOf(defs))
  {
    var g := GraphOf(defs);
    WavesClosedUnderDeps(w, defs, k);
    hide Waves;
    forall id, d | id in g && d in g[id] ensures d in g {
      assert Dep(g, id, d);
    }
    assert Closed(g);
    WaveDomain(w, defs, k);
    forall a ensures !Upstream(g, a, a) {
      if Upstream(g, a, a) {
        var walk :| Connects(g, walk, a, a);
        CycleHasChains(g, walk, k);
        var _ := UpstreamFirst(g, a, a);
      }
    }
  }

  /** A run that is not cut short by a cancellation, a provisioning error or a fatal step
      deadlocks exactly when the workflow has an unknown dependency or a cycle. */
  lemma DeadlockExactly(w: World, defs: Defs, wave: nat, pending: Defs, outputs: Outputs, err: Option<RunError>)
    requires WavesOutcome(w, defs, wave, pending, outputs, err)
    requires err == None || err == Some(Deadlock)
    ensures err == Some(Deadlock) <==> !(Closed(GraphOf(defs)) && Acyclic(GraphOf(defs)))
  {
    hide NoneFatal, FailedWave, Waves, Closed, Acyclic;
    if err == None {
      assert outputs.Keys == defs.Keys;
      FinishedMeansSound(w, defs, wave);
    } else {
      assert outputs.Keys != defs.Keys;
      StuckMeansBroken(w, defs, wave);
    }
  }

  /** A workflow the structural check accepts never deadlocks, whatever its steps do. */
  lemma ValidatedNeverDeadlocks(steps: seq<StepDef>, w: World, wave: nat, pending: Defs, outputs: Outputs,
                                err: Option<RunError>)
    requires StructureErrors(steps) == []
    requires WavesOutcome(w, StepMap(steps), wave, pending, outputs, err)
    ensures err != Some(Deadlock)
  {
    StructureAccepts(steps);
    hide WavesOutcome, StructureErrors, StepMap;
    if err == Some(Deadlock) {
      DeadlockExactly(w, StepMap(steps), wave, pending, outputs, err);
    }
  }

  /** Every reference .Steps.X.F that an accepted workflow's prompt or action config makes has
      an entry in the outputs the step is launched with. */
  lemma ReferencesPresentAtLaunch(steps: seq<StepDef>, params: set<string>, contracts: map<string, set<string>>,
                                  log: seq<Event>, p: nat, i: nat, site: Site, t: Template, r: StepRef)
    requires RefsResolve(steps, params, contracts)
    requires LaunchLog(GraphOf(StepMap(steps)), log)
    requires p < |log| && log[p].Launched? && i < |steps| && steps[i].id == log[p].id
    requires Carries(steps[i], site, t) && !site.ConditionSite? && r in StepRefs(site, t)
    ensures StepId(r.stepId) in log[p].visible && Before(log, p, Recorded(StepId(r.stepId)))
  {
    AcceptedRefsAreUpstream(steps, params, contracts, i, site, t, r);
    assert GoodLaunch(GraphOf(StepMap(steps)), log[p]);
  }

  // --- the run view against the scheduler ------------------------------------------------

  /** A step runs in the wave whose number computeLevels shows for it. */
  lemma WaveIsLevel(steps: seq<StepDef>, levels: map<StepId, nat>, log: seq<Event>, p: nat)
    requires StructureErrors(steps) == []
    requires forall id :: id in levels ==> LongestChain(FoundGraph(steps), id, levels[id])
    requires LaunchLog(GraphOf(StepMap(steps)), log)
    requires p < |log| && log[p].Launched? && log[p].id in levels
    ensures log[p].wave == levels[log[p].id]
  {
    StructureAccepts(steps);
    FoundGraphIsStepGraph(steps);
    var g := GraphOf(StepMap(steps));
    assert GoodLaunch(g, log[p]);
    LongestChainUnique(g, log[p].id, log[p].wave, levels[log[p].id]);
  }

  lemma LongestChainUnique(g: Graph<StepId>, id: StepId, m: nat, n: nat)
    requires LongestChain(g, id, m) && LongestChain(g, id, n)
    ensures m == n
  {
    hide HasChain;
    if m < n { ChainPrefix(g, id, m + 1, n); }
    if n < m { ChainPrefix(g, id, n + 1, m); }
  }

  ghost predicate LevelBelow(g: Graph<StepId>, id: StepId, bound: nat) {
    exists n: nat :: LongestChain(g, id, n) && n < bound
  }

  /** A completed run took exactly one wave more than the highest level there is, and none if there
      are no steps: every step has a level, no level reaches the number of waves, and some step has
      the last one. */
  lemma WavesTaken(w: World, defs: Defs, wave: nat, pending: Defs, outputs: Outputs)
    requires WavesOutcome(w, defs, wave, pending, outputs, None)
    ensures forall id :: id in defs ==> LevelBelow(GraphOf(defs), id, wave)
    ensures forall id, n: nat :: id in defs && LongestChain(GraphOf(defs), id, n) ==> n < wave
    ensures wave > 0 ==> exists id :: id in defs && LongestChain(GraphOf(defs), id, wave - 1)
  {
    var g := GraphOf(defs);
    OutcomeKeys(w, defs, wave, pending, outputs);
    FinishedMeansSound(w, defs, wave);
    LastWave(w, defs, wave);
    hide WavesOutcome, GraphOf, LongestChain, Waves, Acyclic, Closed;
    forall id | id in defs ensures LevelBelow(g, id, wave) {
      var n := LongestChainExists(g, id);
    }
  }

  lemma OutcomeKeys(w: World, defs: Defs, wave: nat, pending: Defs, outputs: Outputs)
    requires WavesOutcome(w, defs, wave, pending, outputs, None)
    ensures Waves(w, defs, wave).Keys == defs.Keys && (wave > 0 ==> Waves(w, defs, wave - 1).Keys != defs.Keys)
  {
    hide NoneFatal, FailedWave, Waves;
  }

  lemma LastWave(w: World, defs: Defs, wave: nat)
    requires Closed(GraphOf(defs)) && Waves(w, defs, wave).Keys == defs.Keys
    requires wave > 0 ==> Waves(w, defs, wave - 1).Keys != defs.Keys
    ensures forall id, n: nat :: id in defs && LongestChain(GraphOf(defs), id, n) ==> n < wave
    ensures wave > 0 ==> exists id :: id in defs && LongestChain(GraphOf(defs), id, wave - 1)
  {
    var g := GraphOf(defs);
    hide Waves, HasChain, Closed, GraphOf;
    WaveDomain(w, defs, wave);
    forall id, n: nat | id in defs && LongestChain(g, id, n) ensures n < wave {
      if n >= wave { ChainPrefix(g, id, wave, n); }
    }
    if wave > 0 {
      WaveDomain(w, defs, wave - 1);
      WavesClosedUnderDeps(w, defs, wave - 1);
      var id := Missing(defs.Keys, Waves(w, defs, wave - 1).Keys);
      assert LongestChain(g, id, wave - 1);
    }
  }

  // --- skipping and failing --------------------------------------------------------------

  /** A step that is not optional is skipped when a step it depends on was skipped or failed. */
  ghost predicate SkipsSpread(defs: Defs, outputs: Outputs) {
    forall id, d ::
      id in outputs && id in defs && !defs[id].optional && d in defs[id].dependsOn &&
      d in outputs && (outputs[d].status == Skipped || outputs[d].status == Failed) ==>
        outputs[id].status == Skipped
  }

  /** Its result then names the first dependency of that kind. */
  ghost predicate SkipsNameFirst(defs: Defs, outputs: Outputs) {
    forall id, i: nat ::
      id in outputs && id in defs && !defs[id].optional && FirstBad(defs[id].dependsOn, outputs, i) ==>
        outputs[id] == PlainOutput(id, Skipped,
                           "skipped: dependency " + defs[id].dependsOn[i].name + " did not complete successfully")
  }

  lemma {:induction false} WavesSkip(w: World, defs: Defs, k: nat)
    requires KeyedById(defs)
    ensures SkipsNameFirst(defs, Waves(w, defs, k))
  {
    hide SkipsNameFirst, WaveResults, GraphOf, KeyedById;
    if k > 0 {
      WavesSkip(w, defs, k - 1);
      WavesClosedUnderDeps(w, defs, k - 1);
      WaveSkips(w, defs, Waves(w, defs, k - 1));
    } else {
      NothingSkips(defs);
    }
  }

  lemma NothingSkips(defs: Defs)
    ensures SkipsNameFirst(defs, map[])
  {
  }

  /** One more wave keeps it so. */
  lemma WaveSkips(w: World, defs: Defs, before: Outputs)
    requires KeyedById(defs) && SkipsNameFirst(defs, before)
    requires forall x, d :: x in before && Dep(GraphOf(defs), x, d) ==> d in before
    ensures SkipsNameFirst(defs, before + WaveResults(w, defs, before))
  {
    hide StepResult;
    var now := before + WaveResults(w, defs, before);
    forall id, i: nat | id in now && id in defs && !defs[id].optional && FirstBad(defs[id].dependsOn, now, i)
      ensures now[id] == PlainOutput(id, Skipped,
          "skipped: dependency " + defs[id].dependsOn[i].name + " did not complete successfully") {
      DepsBefore(defs, before, id);
      FirstBadEarlier(defs[id].dependsOn, before, now, i);
      if id !in before {
        ResultExactly(w, defs[id], before);
      }
    }
  }

  lemma FirstBadEarlier(deps: seq<StepId>, before: Outputs, now: Outputs, i: nat)
    requires forall d :: d in deps ==> d in before
    requires forall d :: d in before ==> d in now && now[d] == before[d]
    requires FirstBad(deps, now, i)
    ensures FirstBad(deps, before, i)
  {
  }

  /** Every dependency of a step with a result, or of one that is ready, has a result. */
  lemma DepsBefore(defs: Defs, before: Outputs, id: StepId)
    requires forall x, d :: x in before && Dep(GraphOf(defs), x, d) ==> d in before
    requires id in defs && (id in before || id in Ready(GraphOf(defs), before.Keys))
    ensures forall d :: d in defs[id].dependsOn ==> d in before
  {
    forall d | d in defs[id].dependsOn ensures d in before {
      assert d in GraphOf(defs)[id];
      assert Dep(GraphOf(defs), id, d);
    }
  }

  lemma NamedMeansSpread(defs: Defs, outputs: Outputs)
    requires SkipsNameFirst(defs, outputs)
    ensures SkipsSpread(defs, outputs)
  {
    forall id, d | id in outputs && id in defs && !defs[id].optional && d in defs[id].dependsOn && d in outputs &&
      (outputs[d].status == Skipped || outputs[d].status == Failed)
      ensures outputs[id].status == Skipped {
      BlockerIs(defs[id].dependsOn, outputs);
      assert !NoneBad(defs[id].dependsOn, outputs);
      var i: nat :| FirstBad(defs[id].dependsOn, outputs, i);
    }
  }

  /** However a run ends, skips have spread to every step that is not optional, and unless a failure
      ended it each of them names the first dependency that caused it. */
  lemma BadDependencySkips(w: World, defs: Defs, wave: nat, pending: Defs, outputs: Outputs, err: Option<RunError>)
    requires KeyedById(defs) && WavesOutcome(w, defs, wave, pending, outputs, err)
    ensures SkipsSpread(defs, outputs)
    ensures !(err.Some? && err.value.StepsFailed?) ==> SkipsNameFirst(defs, outputs)
  {
    hide Waves, NoneFatal, FailedWave, SkipsSpread, SkipsNameFirst, KeyedById;
    WavesSkip(w, defs, wave);
    NamedMeansSpread(defs, Waves(w, defs, wave));
    if err.Some? && err.value.StepsFailed? {
      FailedWaveSkips(w, defs, wave - 1, pending, outputs, err.value.messages);
    }
  }

  lemma FailedWaveSkips(w: World, defs: Defs, k: nat, pending: Defs, outputs: Outputs, messages: seq<string>)
    requires KeyedById(defs) && FailedWave(w, defs, Waves(w, defs, k), pending, outputs, messages)
    ensures SkipsSpread(defs, outputs)
  {
    var after := Waves(w, defs, k + 1);
    assert after == Waves(w, defs, k) + WaveResults(w, defs, Waves(w, defs, k));
    WavesSkip(w, defs, k + 1);
    NamedMeansSpread(defs, after);
    WavesClosedUnderDeps(w, defs, k + 1);
    FailedWaveKeeps(w, defs, Waves(w, defs, k), pending, outputs, messages);
    hide Waves, FailedWave, WaveResults;
    forall id, d | id in outputs && id in defs && !defs[id].optional && d in defs[id].dependsOn && d in outputs &&
      (outputs[d].status == Skipped || outputs[d].status == Failed)
      ensures outputs[id].status == Skipped {
      if id in after {
        DepsBefore(defs, after, id);
      }
    }
  }

  lemma FailedWaveKeeps(w: World, defs: Defs, before: Outputs, pending: Defs, outputs: Outputs, messages: seq<string>)
    requires FailedWave(w, defs, before, pending, outputs, messages)
    ensures var after := before + WaveResults(w, defs, before);
      forall id :: id in outputs ==> if id in after then outputs[id] == after[id] else outputs[id].status == Skipped
  {
    hide StepResult, DownstreamOfAny, IsReadyList, FailureMessages, ResultsOf, WaveResults, GraphOf, NoneFatal, Fatal;
  }

  /** The step was skipped for a dependency that failed, or was itself skipped for one. */
  ghost predicate SkippedDownstream(defs: Defs, launched: set<StepId>, outputs: Outputs, id: StepId) {
    id in defs && id in outputs &&
    exists c :: c in defs[id].dependsOn && c in defs && c in outputs &&
      (c !in launched || (outputs[c].status == Failed && !defs[c].optional)) &&
      outputs[id] == PlainOutput(id, Skipped, "skipped: dependency " + c.name + " failed")
  }

  /** A failure skips exactly the steps not yet launched from which some failed step can be reached through
      such steps. */
  lemma AbortSkipsDownstream(w: World, defs: Defs, wave: nat, pending: Defs, outputs: Outputs, messages: seq<string>)
    requires WavesOutcome(w, defs, wave, pending, outputs, Some(StepsFailed(messages)))
    ensures var launched := Waves(w, defs, wave).Keys;
      && launched <= outputs.Keys <= defs.Keys
      && (forall id :: id in defs && id !in launched ==>
            (id in outputs <==>
              exists f :: f in launched && outputs[f].status == Failed && !defs[f].optional &&
                Downstream(GraphOf(defs), defs.Keys - launched, f, id)))
      && (forall id :: id in outputs && id !in launched ==> SkippedDownstream(defs, launched, outputs, id))
  {
    var before := Waves(w, defs, wave - 1);
    var after := Waves(w, defs, wave);
    assert after == before + WaveResults(w, defs, before);
    AbortedWave(w, defs, before, pending, outputs, messages);
  }

  lemma AbortedWave(w: World, defs: Defs, before: Outputs, pending: Defs, outputs: Outputs, messages: seq<string>)
    requires FailedWave(w, defs, before, pending, outputs, messages)
    ensures var launched := (before + WaveResults(w, defs, before)).Keys;
      && launched <= outputs.Keys <= defs.Keys
      && (forall id :: id in defs && id !in launched ==>
            (id in outputs <==>
              exists f :: f in launched && outputs[f].status == Failed && !defs[f].optional &&
                Downstream(GraphOf(defs), defs.Keys - launched, f, id)))
      && (forall id :: id in outputs && id !in launched ==> SkippedDownstream(defs, launched, outputs, id))
  {
    hide StepResult, Downstream, IsReadyList, FailureMessages, ResultsOf, WaveResults, NoneFatal;
    var after := before + WaveResults(w, defs, before);
    var fatal := set id | id in after && Fatal(defs, id, after[id]);
    var rest := defs.Keys - after.Keys;
    assert forall id :: id in fatal <==> id in after.Keys && outputs[id].status == Failed && !defs[id].optional;
    forall id | id in defs && id !in after.Keys
      ensures id in outputs <==>
              exists f :: f in after.Keys && outputs[f].status == Failed && !defs[f].optional &&
                Downstream(GraphOf(defs), rest, f, id)
    {
      assert id in outputs <==> DownstreamOfAny(GraphOf(defs), rest, fatal, id);
    }
    forall id | id in outputs && id !in after.Keys ensures SkippedDownstream(defs, after.Keys, outputs, id) {
      assert SkippedFor(SkipOutput, GraphOf(defs), (rest - pending.Keys) + fatal, id, outputs);
    }
  }

  /** The record of a run says complete exactly for a run without error, and then every step has a result
      and whatever failed was optional. */
  lemma CompleteExactly(defs: Defs, outputs: Outputs, err: Option<RunError>, calls: seq<Event>)
    requires StatusTold(err, calls) && SettledBy(defs, outputs, err)
    requires !(err.Some? && err.value.NotMarkedRunning?)
    ensures StatusSet(RunComplete, "") in calls <==> err.None?
    ensures StatusSet(RunComplete, "") in calls ==>
              outputs.Keys == defs.Keys && forall id :: id in defs && outputs[id].status == Failed ==> defs[id].optional
  {
  }

  // --- confluence --------------------------------------------------------------------------

  /** A completed run of local steps has exactly the outputs of running the steps one at a time,
      in any order that respects dependencies. */
  lemma CompletedRunIsSequential(w: World, defs: Defs, wave: nat, pending: Defs, outputs: Outputs, order: seq<StepId>)
    requires KeyedById(defs) && AllLocal(w, defs)
    requires WavesOutcome(w, defs, wave, pending, outputs, None)
    requires TopoOrder(GraphOf(defs), order) && forall id :: id in defs <==> id in order
    ensures outputs == InOrder(w, defs, order)
  {
    hide NoneFatal, FailedWave, Waves, TopoOrder, AllLocal, KeyedById;
    FinishedMeansSound(w, defs, wave);
    Confluence(w, defs, order, wave);
  }

  lemma {:induction false} WavesKeep(w: World, defs: Defs, j: nat, k: nat)
    requires j <= k
    ensures forall id :: id in Waves(w, defs, j) ==>
        id in Waves(w, defs, k) && Waves(w, defs, k)[id] == Waves(w, defs, j)[id]
  {
    if j < k {
      WavesKeep(w, defs, j, k - 1);
      ReadyStep(w, defs, k - 1);
    }
  }

  /** Whether a run of an accepted workflow completes or fails is decided by the sequential
      results alone: it fails exactly when some non-optional step's result there is Failed. */
  lemma FailureIsSequential(w: World, defs: Defs, wave: nat, pending: Defs, outputs: Outputs, err: Option<RunError>,
                            order: seq<StepId>)
    requires KeyedById(defs) && AllLocal(w, defs)
    requires Closed(GraphOf(defs)) && Acyclic(GraphOf(defs))
    requires TopoOrder(GraphOf(defs), order) && forall id :: id in defs <==> id in order
    requires WavesOutcome(w, defs, wave, pending, outputs, err)
    requires err.None? || err.value.StepsFailed?
    ensures InOrder(w, defs, order).Keys == defs.Keys
    ensures err.None? <==> OnlyOptionalFailed(defs, InOrder(w, defs, order))
  {
    hide TopoOrder, AllLocal, KeyedById, Waves, InOrder, Closed, Acyclic, NoneFatal, WavesOutcome, OnlyOptionalFailed,
        GraphOf;
    FatalIsSequential(w, defs, wave, pending, outputs, err, order);
    InOrderKeys(w, defs, order);
    NoneFatalMeans(defs, InOrder(w, defs, order));
  }

  lemma FatalIsSequential(w: World, defs: Defs, wave: nat, pending: Defs, outputs: Outputs, err: Option<RunError>,
                          order: seq<StepId>)
    requires KeyedById(defs) && AllLocal(w, defs)
    requires Closed(GraphOf(defs)) && Acyclic(GraphOf(defs))
    requires TopoOrder(GraphOf(defs), order) && forall id :: id in defs <==> id in order
    requires WavesOutcome(w, defs, wave, pending, outputs, err)
    requires err.None? || err.value.StepsFailed?
    ensures err.None? <==> NoneFatal(defs, InOrder(w, defs, order))
  {
    hide TopoOrder, AllLocal, KeyedById, Waves, InOrder, Closed, Acyclic, NoneFatal, FailedWave, AtHead;
    if err.None? {
      CompletedRunIsSequential(w, defs, wave, pending, outputs, order);
      HeadNoneFatal(w, defs, wave, pending, outputs);
    } else {
      var final := if wave > |defs.Keys| then wave else |defs.Keys| + 1;
      WavesFinish(w, defs, final);
      Confluence(w, defs, order, final);
      FailedWaveShows(w, defs, wave - 1, pending, outputs, err.value.messages, final);
    }
  }

  lemma NoneFatalMeans(defs: Defs, outputs: Outputs)
    requires outputs.Keys == defs.Keys
    ensures NoneFatal(defs, outputs) <==> OnlyOptionalFailed(defs, outputs)
  {
    if NoneFatal(defs, outputs) {
      forall id | id in outputs && outputs[id].status == Failed ensures defs[id].optional {
        assert !Fatal(defs, id, outputs[id]);
      }
    }
  }

  lemma {:induction false} InOrderKeys(w: World, defs: Defs, order: seq<StepId>)
    requires forall id :: id in order ==> id in defs
    ensures InOrder(w, defs, order).Keys == set id | id in order
  {
    hide StepResult;
    if order != [] {
      InOrderKeys(w, defs, order[..|order| - 1]);
      assert order == order[..|order| - 1] + [order[|order| - 1]];
    }
  }

  lemma HeadNoneFatal(w: World, defs: Defs, wave: nat, pending: Defs, outputs: Outputs)
    requires WavesOutcome(w, defs, wave, pending, outputs, None)
    ensures NoneFatal(defs, outputs)
  {
    hide NoneFatal, FailedWave, Waves, StepResult;
  }

  lemma FailedHasFatal(w: World, defs: Defs, before: Outputs, pending: Defs, outputs: Outputs, messages: seq<string>)
    returns (id: StepId)
    requires FailedWave(w, defs, before, pending, outputs, messages)
    ensures var after := before + WaveResults(w, defs, before); id in after && Fatal(defs, id, after[id])
  {
    hide StepResult, Fatal, SkippedFor, DownstreamOfAny, IsReadyList, GraphOf, ResultsOf, FailureMessages, WaveResults;
    var after := before + WaveResults(w, defs, before);
    var fatal := set x | x in after && Fatal(defs, x, after[x]);
    id :| id in fatal;
  }

  lemma FailedWaveShows(w: World, defs: Defs, k: nat, pending: Defs, outputs: Outputs, messages: seq<string>,
                        final: nat)
    requires k < final && FailedWave(w, defs, Waves(w, defs, k), pending, outputs, messages)
    ensures !NoneFatal(defs, Waves(w, defs, final))
  {
    hide FailedWave, Fatal, WaveResults;
    var id := FailedHasFatal(w, defs, Waves(w, defs, k), pending, outputs, messages);
    assert Waves(w, defs, k) + WaveResults(w, defs, Waves(w, defs, k)) == Waves(w, defs, k + 1);
    WavesKeep(w, defs, k + 1, final);
    hide Waves;
  }
}
