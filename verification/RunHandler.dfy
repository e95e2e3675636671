/** Validation and execution put together, as the run handler does
    (internal/server/handlers/runs.go:97-103, internal/workflow/validate.go:84-95). */
module RunHandler {
  import opened WorkflowModel
  import opened StructureValidator
  import opened TemplateRefs
  import opened TemplateMeaning
  import opened StepBody
  import opened WaveSemantics
  import opened RunLog
  import opened Scheduler
  import opened RunTheorems

  /** Every reference a launched step's prompt or action config makes has a result to read. */
  ghost predicate ReferencesServed(steps: seq<StepDef>, log: seq<Event>) {
    forall p, i, site, t, r ::
      0 <= p < |log| && log[p].Launched? && 0 <= i < |steps| && steps[i].id == log[p].id &&
      Carries(steps[i], site, t) && !site.ConditionSite? && r in StepRefs(site, t) ==>
      StepId(r.stepId) in log[p].visible
  }

  lemma AcceptedReferencesServed(steps: seq<StepDef>, params: set<string>, contracts: map<string, set<string>>,
                                 log: seq<Event>)
    requires RefsResolve(steps, params, contracts) && LaunchLog(GraphOf(StepMap(steps)), log)
    ensures ReferencesServed(steps, log)
  {
    forall p, i, site, t, r |
      0 <= p < |log| && log[p].Launched? && 0 <= i < |steps| && steps[i].id == log[p].id &&
      Carries(steps[i], site, t) && !site.ConditionSite? && r in StepRefs(site, t)
      ensures StepId(r.stepId) in log[p].visible {
      hide Carries, StepRefs, RefsResolve, LaunchLog;
      ReferencesPresentAtLaunch(steps, params, contracts, log, p, i, site, t, r);
    }
  }

  /** What the activity log, the results and the error of a run that was let through look like. */
  ghost predicate SoundRun(steps: seq<StepDef>, calls: seq<Event>, body: seq<Event>, outputs: Outputs,
                           err: Option<RunError>) {
    && err != Some(Deadlock)
    && StatusTold(err, calls)
    && SettledBy(StepMap(steps), outputs, err)
    && OperatorTold(StepMap(steps), outputs, calls)
    && SkipsSpread(StepMap(steps), outputs)
    && LaunchLog(GraphOf(StepMap(steps)), body)
    && ReferencesServed(steps, body)
    && (if err.Some? && err.value.NotMarkedRunning? then calls == [StatusSet(RunRunning, "")]
        else exists groups, sandboxes, sent ::
          CompleteLog(calls, body, groups, sandboxes, FinalState(err), FinalError(err), sent))
  }

  lemma NoFaultsResolve(steps: seq<StepDef>, params: set<string>, contracts: map<string, set<string>>,
                        errs: seq<RefError>)
    requires forall e :: e in errs <==>
      exists i :: 0 <= i < |steps| && StepFault(Scope(StepMap(steps), params, contracts), steps[i], e)
    ensures errs == [] <==> RefsResolve(steps, params, contracts)
  {
    hide StepFault;
    if errs == [] {
      forall i, e | 0 <= i < |steps| ensures !StepFault(Scope(StepMap(steps), params, contracts), steps[i], e) {
        assert e !in errs;
      }
    } else {
      assert errs[0] in errs;
    }
  }

  lemma AcceptedKeyed(steps: seq<StepDef>)
    requires StructureErrors(steps) == []
    ensures KeyedById(StepMap(steps)) && UniqueIds(steps)
  {
    StructureAccepts(steps);
    StepMapContents(steps);
  }

  lemma NothingSpreads(defs: Defs)
    ensures SkipsSpread(defs, map[])
  {
  }

  lemma EmptyRunServed(steps: seq<StepDef>)
    ensures LaunchLog(GraphOf(StepMap(steps)), []) && ReferencesServed(steps, [])
  {
  }

  lemma AcceptedRunsSoundly(steps: seq<StepDef>, params: set<string>, contracts: map<string, set<string>>, run: DagRun,
                            err: Option<RunError>, calls: seq<Event>, groups: seq<string>)
    requires StructureErrors(steps) == [] && RefsResolve(steps, params, contracts) && run.defs == StepMap(steps)
    requires CompleteLog(calls, run.log, groups, run.sandboxes, FinalState(err), FinalError(err),
        run.sentStepFailedNotification)
    requires LaunchLog(GraphOf(StepMap(steps)), run.log)
    requires run.Ended(err) || (BeforeAnyStep(err) && run.outputs == map[])
    requires StatusTold(err, calls) && SettledBy(StepMap(steps), run.outputs, err)
    requires OperatorTold(StepMap(steps), run.outputs, calls)
    requires !(err.Some? && err.value.NotMarkedRunning?)
    ensures SoundRun(steps, calls, run.log, run.outputs, err)
  {
    hide StructureErrors, RefsResolve, ReferencesServed, LaunchLog, CompleteLog, WavesOutcome, StatusTold, SettledBy,
        OperatorTold, SkipsSpread, GraphOf, StepMap, GoodLog, ItemsFor, Grave;
    AcceptedReferencesServed(steps, params, contracts, run.log);
    if run.Ended(err) {
      AcceptedOutcome(steps, run.world, run.wave, run.pending, run.outputs, err);
    } else {
      NothingSpreads(StepMap(steps));
    }
  }

  lemma AcceptedOutcome(steps: seq<StepDef>, w: World, wave: nat, pending: Defs, outputs: Outputs,
                        err: Option<RunError>)
    requires StructureErrors(steps) == [] && WavesOutcome(w, StepMap(steps), wave, pending, outputs, err)
    ensures err != Some(Deadlock) && SkipsSpread(StepMap(steps), outputs)
  {
    AcceptedKeyed(steps);
    hide StructureErrors, WavesOutcome, SkipsSpread, SkipsNameFirst, KeyedById, StepMap, UniqueIds;
    BadDependencySkips(w, StepMap(steps), wave, pending, outputs, err);
    if err == Some(Deadlock) {
      ValidatedNeverDeadlocks(steps, w, wave, pending, outputs, err);
    }
  }

  lemma Completeness(steps: seq<StepDef>, outputs: Outputs, err: Option<RunError>, calls: seq<Event>)
    requires UniqueIds(steps) && StatusTold(err, calls) && SettledBy(StepMap(steps), outputs, err)
    ensures !(err.Some? && err.value.NotMarkedRunning?) ==> (StatusSet(RunComplete, "") in calls <==> err.None?)
    ensures err.None? ==>
              && (forall s :: s in steps ==> s.id in outputs)
              && (forall s :: s in steps && outputs[s.id].status == Failed ==> s.optional)
  {
    StepMapContents(steps);
    if !(err.Some? && err.value.NotMarkedRunning?) {
      CompleteExactly(StepMap(steps), outputs, err, calls);
    }
  }

  /** A run is only started when validation reports nothing, neither in the two checks modelled nor in
      the six others, which report otherErrors errors. Whatever it then meets, it never deadlocks,
      launches each step at most once and after everything it refers to, and logs a complete run. It is
      recorded as complete exactly if it ended without an error, and then every step has a result and
      whatever failed was optional. */
  method CreateRun(steps: seq<StepDef>, params: set<string>, contracts: map<string, set<string>>,
                   otherErrors: nat, world: World, hasProfile: bool, hasCredentials: bool)
    returns (started: bool, err: Option<RunError>, outputs: Outputs, ghost calls: seq<Event>, ghost body: seq<Event>)
    requires Honest(world)
    ensures started <==> WellFormed(steps) && AllResolve(steps, params, contracts) && otherErrors == 0
    ensures !started ==> calls == body == []
    ensures started ==> SoundRun(steps, calls, body, outputs, err)
    ensures started && !(err.Some? && err.value.NotMarkedRunning?) ==>
        (StatusSet(RunComplete, "") in calls <==> err.None?)
    ensures started && err.None? ==>
              && (forall s :: s in steps ==> s.id in outputs)
              && (forall s :: s in steps && outputs[s.id].status == Failed ==> s.optional)
  {
    hide StructureErrors, WellFormed, AllResolve, RefsResolve, StepFault, ReferencesServed, LaunchLog, CompleteLog,
        Honest, StatusTold, SettledBy,
        OperatorTold, SkipsSpread;
    started, err, outputs, calls, body := false, None, map[], [], [];
    var structure := ValidateStructure(steps);
    var refs := ValidateTemplateRefs(steps, params, contracts);
    NoFaultsResolve(steps, params, contracts, refs);
    RefsResolveExactly(steps, params, contracts);
    StructureAccepts(steps);
    if |structure| + otherErrors + |refs| > 0 {
      return;
    }
    AcceptedKeyed(steps);
    var run := new DagRun(steps, world);
    ghost var groups;
    started := true;
    err, calls, groups := run.Execute(hasProfile, hasCredentials);
    outputs := run.outputs;
    Completeness(steps, outputs, err, calls);
    if !(err.Some? && err.value.NotMarkedRunning?) {
      body := run.log;
      AcceptedRunsSoundly(steps, params, contracts, run, err, calls, groups);
    } else {
      EmptyRunServed(steps);
      NothingSpreads(StepMap(steps));
    }
  }
}
