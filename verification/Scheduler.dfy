/** The wave loop of DAGWorkflow with findReady and skipDownstream
    (internal/workflow/dag.go:171-175, 239-669, 880-907). */
module Scheduler {
  import opened WorkflowModel
  import opened Sequences
  import opened DependencyGraph
  import opened StructureValidator
  import opened StringOrder
  import opened FanOut
  import opened StepBody
  import opened WaveSemantics
  import opened SkipSpec
  import opened RunLog

  function IdText(s: StepDef): string {
    s.id.name
  }

  // --- findReady -------------------------------------------------------------------

  /** The ready steps, in ID order: the same list for every iteration order of the map. */
  ghost predicate IsReadyList(defs: Defs, done: set<StepId>, ready: seq<StepDef>, among: set<StepId>) {
    && Ascending(ready, IdText)
    && forall s :: s in ready <==> s.id in among && s.id in defs && defs[s.id] == s && GraphOf(defs)[s.id] <= done
  }

  method FindReady(pending: Defs, done: Outputs) returns (ready: seq<StepDef>)
    requires KeyedById(pending)
    ensures IsReadyList(pending, done.Keys, ready, pending.Keys)
  {
    var found: seq<StepDef> := [];
    var todo := pending.Keys;
    while todo != {}
      invariant todo <= pending.Keys
      invariant forall s :: s in found <==>
                  s.id in pending && s.id !in todo && pending[s.id] == s && GraphOf(pending)[s.id] <= done.Keys
      invariant forall i, j :: 0 <= i < j < |found| ==> found[i].id != found[j].id
      decreases todo
    {
      var id :| id in todo;
      todo := todo - {id};
      var step := pending[id];
      var allDone := AllDone(step, done);
      assert GraphOf(pending)[id] == set d | d in step.dependsOn;
      if allDone {
        forall i | 0 <= i < |found| ensures found[i].id != id {
          assert found[i] in found;
        }
        found := found + [step];
      }
    }
    forall i, j | 0 <= i < j < |found| ensures IdText(found[i]) != IdText(found[j]) {
      assert found[i].id != found[j].id;
    }
    ready := SortByKey(found, IdText);
  }

  method AllDone(step: StepDef, done: Outputs) returns (allDone: bool)
    ensures allDone <==> (set d | d in step.dependsOn) <= done.Keys
  {
    allDone := true;
    for i := 0 to |step.dependsOn|
      invariant allDone && forall j :: 0 <= j < i ==> step.dependsOn[j] in done
    {
      if step.dependsOn[i] !in done {
        return false;
      }
    }
  }

  /** Two answers of findReady to the same question are the same list. */
  lemma ReadyListUnique(defs: Defs, done: set<StepId>, among: set<StepId>, r1: seq<StepDef>, r2: seq<StepDef>)
    requires IsReadyList(defs, done, r1, among) && IsReadyList(defs, done, r2, among)
    ensures r1 == r2
  {
    AscendingUnique(r1, r2, IdText);
  }

  /** isOptional */
  method IsOptional(steps: seq<StepDef>, id: StepId) returns (optional: bool)
    ensures forall defs: Defs :: Indexes(defs, steps) && id in defs ==> optional == defs[id].optional
    ensures forall i :: 0 <= i < |steps| && steps[i].id == id && (forall j :: 0 <= j < i ==> steps[j].id != id) ==>
              optional == steps[i].optional
    ensures (forall i :: 0 <= i < |steps| ==> steps[i].id != id) ==> !optional
  {
    for i := 0 to |steps|
      invariant forall j :: 0 <= j < i ==> steps[j].id != id
    {
      if steps[i].id == id {
        return steps[i].optional;
      }
    }
    return false;
  }

  // --- one run -------------------------------------------------------------------------

  function SkipOutput(id: StepId, cause: StepId): (r: StepOutput)
    ensures r.stepId == id && r.status == Skipped && r.output == map[] && r.error != ""
  {
    PlainOutput(id, Skipped, "skipped: dependency " + cause.name + " failed")
  }

  /** A failure that ends the run. */
  predicate Fatal(defs: Defs, id: StepId, out: StepOutput) {
    out.status == Failed && id in defs && !defs[id].optional
  }

  function FailureMessage(out: StepOutput): string {
    if out.error != "" then "step " + out.stepId.name + " failed: " + out.error
    else "step " + out.stepId.name + " failed"
  }

  /** What outputs become when results are recorded one by one. */
  function Record(outputs: Outputs, results: seq<StepOutput>): Outputs {
    if results == [] then outputs else
    Record(outputs, results[..|results| - 1])[results[|results| - 1].stepId := results[|results| - 1]]
  }

  /** Steps named by the results that are fatal. */
  ghost function FatalIds(defs: Defs, results: seq<StepOutput>): set<StepId> {
    set r | r in results && Fatal(defs, r.stepId, r) :: r.stepId
  }

  function FailureMessages(defs: Defs, results: seq<StepOutput>): seq<string> {
    if results == [] then [] else
    var r := results[|results| - 1];
    FailureMessages(defs, results[..|results| - 1]) + if Fatal(defs, r.stepId, r) then [FailureMessage(r)] else []
  }

  /** Why a run ended early; cancelled tells whether the error is or wraps a cancellation. */
  datatype RunError =
    | NotMarkedRunning(cancelled: bool, message: string)
    | Cancellation
    | ProfileFailed(cancelled: bool, message: string)
    | PreflightFailed(cancelled: bool, message: string)
    | Deadlock
    | ProvisioningFailed(group: string, cancelled: bool, message: string)
    | StepsFailed(messages: seq<string>)

  class DagRun {
    const steps: seq<StepDef>
    const world: World
    ghost const defs: Defs
    var pending: Defs
    var outputs: Outputs
    var sandboxes: map<string, string>
    var sentStepFailedNotification: bool
    ghost var log: seq<Event>
    ghost var launched: set<StepId>
    ghost var recorded: set<StepId>
    ghost var wave: nat

    /** Every step is pending at the start (dag.go:171-175). */
    constructor (steps: seq<StepDef>, world: World)
      requires UniqueIds(steps)
      ensures this.steps == steps && this.world == world && defs == StepMap(steps) && Indexes(defs, steps)
      ensures pending == defs && outputs == map[] && sandboxes == map[] && !sentStepFailedNotification
      ensures log == [] && launched == {} && recorded == {} && wave == 0
    {
      this.steps, this.world := steps, world;
      defs := StepMap(steps);
      outputs, sandboxes, sentStepFailedNotification := map[], map[], false;
      log, launched, recorded, wave := [], {}, {}, 0;
      var all: Defs := map[];
      for n := 0 to |steps|
        invariant all == StepMap(steps[..n])
      {
        assert steps[..n + 1][..n] == steps[..n];
        all := all[steps[n].id := steps[n]];
      }
      assert steps[..|steps|] == steps;
      pending := all;
      StepMapContents(steps);
    }

    ghost function G(): Graph<StepId> {
      GraphOf(defs)
    }

    /** skipDownstream: exactly the pending steps that depend on failedId through pending
        steps are dropped, each with a Skipped result naming its cause. The recursion ends
        because each call has fewer pending steps, also on cyclic graphs. */
    method SkipDownstream(failedId: StepId)
      requires Indexes(defs, steps)
      requires pending.Keys !! outputs.Keys && failedId !in pending && pending.Keys <= defs.Keys
      modifies this`pending, this`outputs
      ensures Skips(SkipOutput, G(), failedId, old(pending), old(outputs), pending, outputs)
      ensures Clear(G(), pending.Keys, (old(pending).Keys - pending.Keys) + {failedId})
      decreases |pending.Keys|
    {
      SkipsNothing(SkipOutput, G(), failedId, pending, outputs);
      assert Scanned(steps, 0, pending.Keys, failedId);
      hide SkipOutput, Skips, Indexes, Clear, Scanned;
      ghost var p0, o0 := pending, outputs;
      for i := 0 to |steps|
        invariant Skips(SkipOutput, G(), failedId, p0, o0, pending, outputs)
        invariant Clear(G(), pending.Keys, p0.Keys - pending.Keys) && pending.Keys <= p0.Keys
        invariant Scanned(steps, i, pending.Keys, failedId)
      {
        var step := steps[i];
        ghost var p1, o1 := pending, outputs;
        if step.id in pending && failedId in step.dependsOn {
          NamedDep(defs, steps, step, failedId);
          SkipsDrops(SkipOutput, G(), failedId, p0, o0, p1, o1);
          outputs := outputs[step.id := SkipOutput(step.id, failedId)];
          pending := pending - {step.id};
          RestSmaller(p0, p1, pending, step.id);
          SkipDownstream(step.id);
          SkipAnother(G(), failedId, step.id, p0, o0, p1, o1, pending, outputs);
        }
        ScannedStep(steps, i, p1.Keys, pending.Keys, failedId);
      }
      ClearOfFailed(defs, steps, pending, failedId);
      ClearMore(G(), pending.Keys, pending.Keys, p0.Keys - pending.Keys, {failedId});
    }

    // --- one wave ----------------------------------------------------------------------

    /** The log so far is in order. */
    ghost predicate Logged()
      reads this
    {
      GoodLog(G(), log, sandboxes, sentStepFailedNotification, launched, recorded)
    }

    /** Sandboxes for the groups of this wave that have none yet (dag.go:250-288). */
    method ProvisionGroups(ready: seq<StepDef>)
      returns (err: Option<RunError>)
      requires Logged() && GroupsKnown(sandboxes)
      modifies this`sandboxes, this`log
      ensures Logged() && GroupsKnown(sandboxes) && ItemsFor(log) == ItemsFor(old(log))
      ensures err.Some? ==> err.value.ProvisioningFailed?
      ensures err.None? ==> forall s :: s in ready && s.sandboxGroup != "" ==> s.sandboxGroup in sandboxes
      ensures forall group :: group in old(sandboxes) ==>
          group in sandboxes && sandboxes[group] == old(sandboxes)[group]
    {
      hide GoodLog, ItemsFor;
      assert recorded + {} == recorded;
      for i := 0 to |ready|
        invariant Logged() && GroupsKnown(sandboxes) && ItemsFor(log) == ItemsFor(old(log))
        invariant forall j :: 0 <= j < i && ready[j].sandboxGroup != "" ==> ready[j].sandboxGroup in sandboxes
        invariant forall group :: group in old(sandboxes) ==>
            group in sandboxes && sandboxes[group] == old(sandboxes)[group]
      {
        var group := ready[i].sandboxGroup;
        if group != "" && (if group in sandboxes then sandboxes[group] else "") == "" {
          var ok: bool := *;
          if !ok {
            var cancelled: bool, message: string := *, *;
            LogCall(G(), log, sandboxes, sentStepFailedNotification, launched, recorded, ProvisionFailed(group));
            OneItem(log, ProvisionFailed(group));
            log := log + [ProvisionFailed(group)];
            return Some(ProvisioningFailed(group, cancelled, message));
          }
          var sandboxId := NewSandboxId();
          LogCall(G(), log, sandboxes, sentStepFailedNotification, launched, recorded, Provisioned(group, sandboxId));
          OneItem(log, Provisioned(group, sandboxId));
          log := log + [Provisioned(group, sandboxId)];
          sandboxes := sandboxes[group := sandboxId];
        }
      }
      return None;
    }

    /** The goroutines of one wave, in whatever order they get to run (dag.go:290-591). Each
        reads the same outputs and fills its own slot. */
    method LaunchWave(ready: seq<StepDef>) returns (results: seq<Option<StepOutput>>)
      requires Logged() && launched == recorded == outputs.Keys
      requires UniqueIds(ready)
      requires forall i :: 0 <= i < |ready| ==>
                 ready[i].id !in outputs && GoodLaunch(G(), Launched(ready[i].id, wave, outputs.Keys))
      modifies this`log, this`launched
      ensures Logged() && launched == outputs.Keys + Ids(ready) && ItemsFor(log) == ItemsFor(old(log))
      ensures |results| == |ready|
      ensures forall i :: 0 <= i < |ready| ==> results[i] == Some(StepResult(world, ready[i], outputs))
    {
      hide GoodLog, GoodLaunch, StepResult, UniqueIds, Started, ItemsFor;
      var slots := new Option<StepOutput>[|ready|](_ => None);
      var waiting := Indices(|ready|);
      StartedNone(ready, waiting);
      while waiting != {}
        invariant waiting <= Indices(|ready|)
        invariant Logged() && recorded == outputs.Keys && launched == outputs.Keys + Started(ready, waiting)
        invariant ItemsFor(log) == ItemsFor(old(log))
        invariant forall i :: 0 <= i < |ready| && i !in waiting ==>
            slots[i] == Some(StepResult(world, ready[i], outputs))
        decreases waiting
      {
        var i :| i in waiting;
        StartedOne(ready, waiting, i);
        ghost var e := Launched(ready[i].id, wave, outputs.Keys);
        LogLaunch(G(), log, sandboxes, sentStepFailedNotification, launched, recorded, e);
        OneItem(log, e);
        log, launched := log + [e], launched + {ready[i].id};
        waiting := waiting - {i};
        var out := RunStep(world, ready[i], outputs);
        slots[i] := Some(out);
      }
      StartedAll(ready);
      results := slots[..];
    }

    /** Recording one result; a fatal one is reported to the operator and its downstream is
        skipped (dag.go:609-637). */
    method RecordResult(r: StepOutput, ghost done: set<StepId>, ghost w: set<StepId>, ghost later: set<StepId>,
                        ghost causes: set<StepId>, ghost rest: Defs, ghost base: Outputs)
      returns (fatal: bool)
      requires Indexes(defs, steps) && Logged() && pending.Keys <= defs.Keys
      requires Collecting(SkipOutput, G(), done, w, later, causes, rest, base, pending, outputs) && r.stepId in later
      modifies this`pending, this`outputs, this`sentStepFailedNotification, this`log, this`recorded
      ensures Logged() && recorded == old(recorded) + {r.stepId} && pending.Keys <= defs.Keys
      ensures fatal == Fatal(defs, r.stepId, r)
      ensures r.stepId in defs && (fatal <==> r.status == Failed && !defs[r.stepId].optional)
      ensures fatal ==> exists stored :: log == old(log) + [Recorded(r.stepId), StepFailedItem(r.stepId, stored)]
      ensures !fatal ==> log == old(log) + [Recorded(r.stepId)]
      ensures Collecting(SkipOutput, G(), done, w, later - {r.stepId}, causes + (if fatal then {r.stepId} else {}),
                         rest, base[r.stepId := r], pending, outputs)
    {
      hide SkipOutput, GoodLog, Collecting, Skips, Indexes, GraphOf;
      var id := r.stepId;
      CollectingSets(SkipOutput, G(), done, w, later, causes, rest, base, pending, outputs);
      CollectRecord(SkipOutput, G(), done, w, later, causes, rest, base, pending, outputs, id, r);
      outputs := outputs[id := r];
      pending := pending - {id};
      LogCall(G(), log, sandboxes, sentStepFailedNotification, launched, recorded, Recorded(id));
      log, recorded := log + [Recorded(id)], recorded + {id};
      var optional := IsOptional(steps, id);
      fatal := r.status == Failed && !optional;
      if fatal {
        NotifyStepFailed(id);
        ghost var p1, o1 := pending, outputs;
        CollectingSets(SkipOutput, G(), done, w, later - {id}, causes, rest, base[id := r], pending, outputs);
        SkipDownstream(id);
        CollectSkip(SkipOutput, G(), done, w, later - {id}, causes, rest, base[id := r], p1, o1, id, pending, outputs);
        SkipsDrops(SkipOutput, G(), id, p1, o1, pending, outputs);
      } else {
        assert causes + {} == causes;
      }
    }

    /** The step_failed inbox item (dag.go:613-634). */
    method NotifyStepFailed(id: StepId)
      requires Logged()
      modifies this`sentStepFailedNotification, this`log
      ensures Logged() && exists stored :: log == old(log) + [StepFailedItem(id, stored)]
    {
      hide GoodLog;
      var stored: bool := *;
      LogCall(G(), log, sandboxes, sentStepFailedNotification, launched, recorded, StepFailedItem(id, stored));
      log := log + [StepFailedItem(id, stored)];
      assert recorded + {} == recorded;
      if stored {
        sentStepFailedNotification := true;
      }
    }

    /** Recording the results of a wave in ID order (dag.go:598-643). */
    method Collect(ready: seq<StepDef>, slots: seq<Option<StepOutput>>) returns (stepErrors: seq<string>)
      requires Indexes(defs, steps) && Logged()
      requires pending.Keys <= defs.Keys && Ids(ready) <= pending.Keys && pending.Keys !! outputs.Keys
      requires UniqueIds(ready)
      requires |slots| == |ready| && Reported(ready, slots)
      requires DepsDone(G(), Ids(ready), outputs.Keys)
      modifies this`pending, this`outputs, this`sentStepFailedNotification, this`log, this`recorded
      ensures Logged() && recorded == old(recorded) + Ids(ready)
      ensures ItemsFor(log) == ItemsFor(old(log)) + FatalIds(defs, Reports(ready, slots))
      ensures stepErrors == FailureMessages(defs, Reports(ready, slots))
      ensures Collecting(SkipOutput, G(), old(outputs).Keys, Ids(ready), {}, FatalIds(defs, Reports(ready, slots)),
                         old(pending) - Ids(ready), Record(old(outputs), Reports(ready, slots)), pending, outputs)
    {
      NothingCollected(defs, outputs);
      hide SkipOutput, GoodLog, Fatal, Collecting, FailureMessage, ItemsFor, FatalIds, FailureMessages, Record;
      ghost var outs, w, done, rest := Reports(ready, slots), Ids(ready), outputs.Keys, pending - Ids(ready);
      ghost var o0, causes, base := outputs, {}, outputs;
      ghost var later, recorded0 := w, recorded;
      stepErrors := [];
      CollectStart(SkipOutput, G(), done, w, pending, outputs);
      assert ready[0..] == ready;
      for idx := 0 to |slots|
        invariant later == Ids(ready[idx..]) && recorded == recorded0 + Ids(ready[..idx])
        invariant causes == FatalIds(defs, outs[..idx]) && base == Record(o0, outs[..idx])
        invariant pending.Keys <= defs.Keys && Logged() && ItemsFor(log) == ItemsFor(old(log)) + causes
        invariant stepErrors == FailureMessages(defs, outs[..idx])
        invariant Collecting(SkipOutput, G(), done, w, later, causes, rest, base, pending, outputs)
      {
        var r := Report(ready[idx], slots[idx]);
        OneMore(defs, ready, outs, o0, idx);
        ghost var before := log;
        var fatal := RecordResult(r, done, w, later, causes, rest, base);
        ItemsAfter(before, log, r.stepId, fatal);
        if fatal {
          stepErrors := stepErrors + [FailureMessage(r)];
          causes := causes + {r.stepId};
        }
        later, base := later - {r.stepId}, base[r.stepId := r];
      }
      assert outs[..|outs|] == outs && ready[..|ready|] == ready && Ids(ready[|ready|..]) == {};
    }

    /** What holds at the top of the loop. */
    ghost predicate Head()
      reads this
    {
      && Honest(world) && Indexes(defs, steps)
      && AtHead(world, defs, wave, pending, outputs)
      && GroupsKnown(sandboxes) && Logged() && launched == recorded == outputs.Keys && ItemsFor(log) == {}
    }

    /** What holds when every goroutine of a wave has returned. */
    ghost predicate InFlight(ready: seq<StepDef>, results: seq<Option<StepOutput>>)
      reads this
    {
      && Honest(world) && Indexes(defs, steps) && GroupsKnown(sandboxes) && Logged()
      && IsWave(world, defs, wave, pending, outputs, ready) && |ready| > 0 && |results| == |ready|
      && Reports(ready, results) == ResultsOf(world, ready, outputs)
      && launched == outputs.Keys + Ids(ready) && recorded == outputs.Keys && ItemsFor(log) == {}
    }

    /** What holds when the loop has been left with this error, or with none. */
    ghost predicate Ended(err: Option<RunError>)
      reads this
    {
      WavesOutcome(world, defs, wave, pending, outputs, err) && Logged() && ItemsFor(log) == Grave(defs, outputs)
    }

    /** From the top of the loop to the end of the parallel section (dag.go:240-596). */
    method StartWave() returns (err: Option<RunError>, ready: seq<StepDef>, results: seq<Option<StepOutput>>)
      requires Head() && |pending.Keys| > 0
      modifies this`sandboxes, this`log, this`launched
      ensures err.Some? ==> Ended(err)
      ensures err.None? ==> InFlight(ready, results)
    {
      hide GoodLog, AtHead, IsReadyList, WavesOutcome, StepResult, Reported, Reports, ResultsOf, Honest, Indexes,
          IsWave;
      OutcomeAtHead(world, defs, steps, wave, pending, outputs);
      ready, results := [], [];
      var cancelled: bool := *;
      if cancelled {
        return Some(Cancellation), ready, results;
      }
      ready := FindReady(pending, outputs);
      ReadyIsWave(world, defs, steps, wave, pending, outputs, ready);
      if |ready| == 0 {
        OutcomeDeadlock(world, defs, wave, pending, outputs, ready);
        return Some(Deadlock), ready, results;
      }
      err := ProvisionGroups(ready);
      if err.Some? {
        return;
      }
      WaveLaunchable(world, defs, wave, pending, outputs, ready);
      results := LaunchWave(ready);
      AllReported(world, ready, results, outputs);
      cancelled := *;
      if cancelled {
        err := Some(Cancellation);
      }
    }

    /** The rest of the loop body (dag.go:598-646). */
    method FinishWave(ready: seq<StepDef>, results: seq<Option<StepOutput>>) returns (err: Option<RunError>)
      requires InFlight(ready, results)
      modifies this`pending, this`outputs, this`sentStepFailedNotification, this`log, this`recorded, this`wave
      ensures err.None? ==> Head() && |pending.Keys| < |old(pending).Keys|
      ensures err.Some? ==> Ended(err)
    {
      hide GoodLog, AtHead, WavesOutcome, FailedWave, StepResult, Reported, Reports, ResultsOf, Honest, Indexes,
          IsWave, Collecting, ItemsFor, Grave,
        FailureMessages, FatalIds, Record, Ids, Waves;
      ghost var pending0, before := pending, outputs;
      WaveCollectable(world, defs, wave, pending, outputs, ready, results);
      var stepErrors := Collect(ready, results);
      ghost var outs := ResultsOf(world, ready, before);
      assert Reports(ready, results) == outs;
      assert Collecting(SkipOutput, GraphOf(defs), before.Keys, Ids(ready), {}, FatalIds(defs, outs),
                        pending0 - Ids(ready), Record(before, outs), pending, outputs);
      AfterWave(world, defs, wave, pending0, before, ready, outs, pending, outputs, stepErrors);
      wave := wave + 1;
      if |stepErrors| > 0 {
        OutcomeFailed(world, defs, wave, pending, outputs, stepErrors);
        return Some(StepsFailed(stepErrors));
      }
      return None;
    }

    /** The loop of DAGWorkflow (dag.go:239-649). ctx.Err() may report a cancellation at either
        check; each wave removes at least one pending step. */
    method RunWaves() returns (err: Option<RunError>)
      requires Head()
      modifies this
      ensures Ended(err)
    {
      hide Head, InFlight, Ended;
      while |pending.Keys| > 0
        invariant Head()
        decreases |pending.Keys|
      {
        var ready, results;
        err, ready, results := StartWave();
        if err.Some? {
          return;
        }
        err := FinishWave(ready, results);
        if err.Some? {
          return;
        }
      }
      LoopDone();
      return None;
    }

    /** Resolving the agent profile and checking credentials before any step (dag.go:118-168). */
    method Preflight(hasProfile: bool, hasCredentials: bool) returns (err: Option<RunError>)
      ensures err.Some? ==> err.value.ProfileFailed? || err.value.PreflightFailed?
    {
      if hasProfile {
        var ok: bool, cancelled: bool, message: string := *, *, *;
        if !ok {
          return Some(ProfileFailed(cancelled, message));
        }
      }
      if hasCredentials {
        var ok: bool, cancelled: bool, message: string := *, *, *;
        if !ok {
          return Some(PreflightFailed(cancelled, message));
        }
      }
      return None;
    }

    /** The deferred cleanup: every group of the map, sorted (dag.go:218-237). */
    method CleanupGroups() returns (groups: seq<string>, ghost calls: seq<Event>)
      ensures Ascending(groups, (s: string) => s) && (forall group :: group in groups <==> group in sandboxes)
      ensures calls == Cleanups(groups, sandboxes)
    {
      var unsorted: seq<string> := [];
      var todo := sandboxes.Keys;
      while todo != {}
        invariant todo <= sandboxes.Keys && Distinct(unsorted)
        invariant forall group :: group in unsorted <==> group in sandboxes && group !in todo
        decreases todo
      {
        var group :| group in todo;
        unsorted, todo := unsorted + [group], todo - {group};
      }
      groups := SortByKey(unsorted, (s: string) => s);
      hide Ascending;
      calls := [];
      for i := 0 to |groups|
        invariant calls == Cleanups(groups[..i], sandboxes)
      {
        assert groups[i] in groups;
        assert groups[..i + 1][..i] == groups[..i];
        calls := calls + [Cleaned(groups[i], sandboxes[groups[i]])];
      }
      assert groups[..|groups|] == groups;
    }

    /** The deferred status writer (dag.go:58-112). */
    method FinishRun(err: Option<RunError>) returns (finalStatus: RunState, finalError: string, ghost calls: seq<Event>)
      ensures finalStatus == FinalState(err) && finalError == FinalError(err)
      ensures calls == Closing(FinalState(err), FinalError(err), sentStepFailedNotification)
      ensures Verdict(err, finalStatus, finalError)
    {
      VerdictHolds(err);
      hide Verdict;
      finalStatus, finalError := RunComplete, "";
      if err.Some? {
        if IsCanceled(err.value) {
          finalStatus := RunCancelled;
        } else {
          finalStatus := RunFailed;
          finalError := ErrorText(err.value);
        }
      }
      calls := [StatusSet(finalStatus, finalError)];
      if finalStatus != RunCancelled && !(finalStatus == RunFailed && sentStepFailedNotification) {
        calls := calls + [RunItem(finalStatus)];
      }
    }

    /** DAGWorkflow (dag.go:39-650): mark the run running, preflight, the waves, and on every exit
        after the marking the two deferred functions, cleanup first. */
    method Execute(hasProfile: bool, hasCredentials: bool)
      returns (err: Option<RunError>, ghost calls: seq<Event>, ghost groups: seq<string>)
      requires Honest(world) && Indexes(defs, steps)
      requires pending == defs && outputs == map[] && sandboxes == map[] && !sentStepFailedNotification
      requires log == [] && launched == recorded == {} && wave == 0
      modifies this
      ensures err.Some? && err.value.NotMarkedRunning? ==> calls == [StatusSet(RunRunning, "")]
      ensures StatusTold(err, calls) && SettledBy(defs, outputs, err) && OperatorTold(defs, outputs, calls)
      ensures !(err.Some? && err.value.NotMarkedRunning?) ==>
                && CompleteLog(calls, log, groups, sandboxes, FinalState(err), FinalError(err),
                    sentStepFailedNotification)
                && LaunchLog(G(), log)
                && (Ended(err) || (BeforeAnyStep(err) && log == []))
      ensures BeforeAnyStep(err) ==> outputs == map[]
    {
      calls, groups := [StatusSet(RunRunning, "")], [];
      var ok: bool := *;
      hide StatusTold, Verdict, SettledBy, OperatorTold, ItemsFor, Grave;
      NoItems(defs);
      if !ok {
        var cancelled: bool, message: string := *, *;
        err := Some(NotMarkedRunning(cancelled, message));
        NothingRun(defs, err, calls);
        ClosingTellsNothing(RunRunning, "", false);
        ItemsTell(defs, outputs, calls);
        return;
      }
      hide Ended, AtHead, GoodLog, WavesOutcome, BodyLog, SandboxLog, LaunchLog, Cleanups, Closing, Ascending, Honest,
          Indexes;
      EmptyLog(G());
      err := Preflight(hasProfile, hasCredentials);
      if err.None? {
        HeadAtStart(world, defs, pending, outputs);
        err := RunWaves();
        EndedLogged(err);
        EndedSettled(err);
      } else {
        NothingRun(defs, err, calls);
      }
      LogParts(G(), log, sandboxes, sentStepFailedNotification, launched, recorded);
      ghost var cleanups;
      groups, cleanups := CleanupGroups();
      var _, _, closing := FinishRun(err);
      calls := calls + log + cleanups + closing;
      ToldByLog(err, calls, log, groups, sandboxes, sentStepFailedNotification);
      ItemsOfBody(calls, log, groups, sandboxes, FinalState(err), FinalError(err), sentStepFailedNotification);
      ItemsTell(defs, outputs, calls);
    }

    lemma EndedSettled(err: Option<RunError>)
      requires Ended(err) && Honest(world) && Indexes(defs, steps)
      ensures SettledBy(defs, outputs, err)
    {
      hide WavesOutcome, SettledBy, GoodLog, Honest;
      OutcomeSettles(world, defs, wave, pending, outputs, err);
    }

    lemma EndedLogged(err: Option<RunError>)
      requires Ended(err)
      ensures Logged() && !(err.Some? && err.value.NotMarkedRunning?) && ItemsFor(log) == Grave(defs, outputs)
    {
      hide AtHead, FailedWave, GoodLog;
    }

    lemma LoopDone()
      requires Head() && |pending.Keys| <= 0
      ensures Ended(None)
    {
      hide AtHead, WavesOutcome, GoodLog;
      OutcomeFinished(world, defs, wave, pending, outputs);
    }
  }

  /** A slot's result; an empty slot is a failure of its step (dag.go:601-608). */
  function Report(step: StepDef, slot: Option<StepOutput>): StepOutput {
    match slot
    case Some(out) => out
    case None => PlainOutput(step.id, Failed, "step goroutine exited without producing a result")
  }

  function Reports(ready: seq<StepDef>, slots: seq<Option<StepOutput>>): seq<StepOutput>
    requires |slots| == |ready|
  {
    seq(|ready|, i requires 0 <= i < |ready| => Report(ready[i], slots[i]))
  }

  /** Each result carries the ID of its step. */
  predicate Reported(ready: seq<StepDef>, slots: seq<Option<StepOutput>>)
    requires |slots| == |ready|
  {
    forall i :: 0 <= i < |ready| ==> Report(ready[i], slots[i]).stepId == ready[i].id
  }

  lemma NothingCollected(defs: Defs, outputs: Outputs)
    ensures FatalIds(defs, []) == {} && FailureMessages(defs, []) == [] && Record(outputs, []) == outputs
  {
  }

  lemma ItemsAfter(log: seq<Event>, longer: seq<Event>, id: StepId, fatal: bool)
    requires fatal ==> exists stored :: longer == log + [Recorded(id), StepFailedItem(id, stored)]
    requires !fatal ==> longer == log + [Recorded(id)]
    ensures ItemsFor(longer) == ItemsFor(log) + if fatal then {id} else {}
  {
    hide ItemsFor;
    if fatal {
      var stored :| longer == log + [Recorded(id), StepFailedItem(id, stored)];
      assert longer == (log + [Recorded(id)]) + [StepFailedItem(id, stored)];
      OneItem(log + [Recorded(id)], StepFailedItem(id, stored));
    }
    OneItem(log, Recorded(id));
  }

  lemma OneMore(defs: Defs, ready: seq<StepDef>, outs: seq<StepOutput>, o0: Outputs, idx: nat)
    requires idx < |ready| == |outs| && outs[idx].stepId == ready[idx].id
    requires UniqueIds(ready)
    ensures ready[idx].id in Ids(ready[idx..]) && Ids(ready[idx + 1..]) == Ids(ready[idx..]) - {ready[idx].id}
    ensures Ids(ready[..idx + 1]) == Ids(ready[..idx]) + {ready[idx].id}
    ensures FatalIds(defs, outs[..idx + 1]) ==
            FatalIds(defs, outs[..idx]) + if Fatal(defs, ready[idx].id, outs[idx]) then {ready[idx].id} else {}
    ensures FailureMessages(defs, outs[..idx + 1]) == FailureMessages(defs, outs[..idx]) +
        if Fatal(defs, ready[idx].id, outs[idx]) then [FailureMessage(outs[idx])] else []
    ensures Record(o0, outs[..idx + 1]) == Record(o0, outs[..idx])[outs[idx].stepId := outs[idx]]
  {
    var id := ready[idx].id;
    assert ready[idx..] == [ready[idx]] + ready[idx + 1..];
    assert ready[..idx + 1] == ready[..idx] + [ready[idx]];
    assert outs[..idx + 1] == outs[..idx] + [outs[idx]] && outs[..idx + 1][..idx] == outs[..idx];
    hide Fatal, FailureMessage;
    IdsSnoc(ready[..idx], ready[idx]);
    IdsCons(ready[idx], ready[idx + 1..]);
    FatalSnoc(defs, outs[..idx], outs[idx]);
    var tail := ready[idx + 1..];
    forall k | 0 <= k < |tail| ensures tail[k].id != id {
      assert tail[k] == ready[idx + 1 + k];
    }
  }

  lemma FatalSnoc(defs: Defs, outs: seq<StepOutput>, r: StepOutput)
    ensures FatalIds(defs, outs + [r]) == FatalIds(defs, outs) + if Fatal(defs, r.stepId, r) then {r.stepId} else {}
  {
    hide Fatal;
    assert forall x :: x in outs + [r] <==> x in outs || x == r;
  }

  lemma IdsSnoc(s: seq<StepDef>, x: StepDef)
    ensures Ids(s + [x]) == Ids(s) + {x.id}
  {
    forall id ensures id in Ids(s + [x]) <==> id in Ids(s) + {x.id} {
      if id in Ids(s) {
        var i :| 0 <= i < |s| && s[i].id == id;
        assert (s + [x])[i].id == id;
      }
      assert (s + [x])[|s|].id == x.id;
    }
  }

  lemma IdsCons(x: StepDef, s: seq<StepDef>)
    ensures Ids([x] + s) == {x.id} + Ids(s)
  {
    forall id ensures id in Ids([x] + s) <==> id in {x.id} + Ids(s) {
      if id in Ids(s) {
        var i :| 0 <= i < |s| && s[i].id == id;
        assert ([x] + s)[i + 1].id == id;
      }
      assert ([x] + s)[0].id == x.id;
    }
  }

  /** temporal.IsCanceledError: the error is a cancellation or wraps one. */
  predicate IsCanceled(e: RunError) {
    match e
    case NotMarkedRunning(c, _) => c
    case Cancellation => true
    case ProfileFailed(c, _) => c
    case PreflightFailed(c, _) => c
    case Deadlock => false
    case ProvisioningFailed(_, c, _) => c
    case StepsFailed(_) => false
  }

  function ErrorText(e: RunError): string {
    match e
    case NotMarkedRunning(_, m) => "mark run running: " + m
    case Cancellation => "canceled"
    case ProfileFailed(_, m) => "resolve agent profile: " + m
    case PreflightFailed(_, m) => "credential preflight: " + m
    case Deadlock => "DAG deadlock: circular dependency or all steps blocked"
    case ProvisioningFailed(group, _, m) => "provision sandbox group " + group + ": " + m
    case StepsFailed(messages) => Joined(messages)
  }

  /** The terminal status a run's error leads to. */
  function FinalState(err: Option<RunError>): RunState {
    if err.None? then RunComplete else if IsCanceled(err.value) then RunCancelled else RunFailed
  }

  function FinalError(err: Option<RunError>): string {
    if err.Some? && !IsCanceled(err.value) then ErrorText(err.value) else ""
  }

  /** The statuses written are the running mark and this one. */
  ghost predicate Writes(calls: seq<Event>, state: RunState, text: string) {
    forall s, t :: StatusSet(s, t) in calls <==> (s == RunRunning && t == "") || (s == state && t == text)
  }

  /** The terminal status and text for each way a run can end (dag.go:58-69). */
  ghost predicate Verdict(err: Option<RunError>, state: RunState, text: string) {
    && (err.None? ==> state == RunComplete && text == "")
    && (err == Some(Cancellation) ==> state == RunCancelled && text == "")
    && (err == Some(Deadlock) ==>
          state == RunFailed && text == "DAG deadlock: circular dependency or all steps blocked")
    && (forall ms :: err == Some(StepsFailed(ms)) ==> state == RunFailed && text == Joined(ms))
    && (forall c, m :: err == Some(ProfileFailed(c, m)) ==>
          if c then state == RunCancelled && text == ""
          else state == RunFailed && text == "resolve agent profile: " + m)
    && (forall c, m :: err == Some(PreflightFailed(c, m)) ==>
          if c then state == RunCancelled && text == ""
          else state == RunFailed && text == "credential preflight: " + m)
    && (forall group, c, m :: err == Some(ProvisioningFailed(group, c, m)) ==>
          if c then state == RunCancelled && text == ""
          else state == RunFailed && text == "provision sandbox group " + group + ": " + m)
  }

  lemma VerdictHolds(err: Option<RunError>)
    ensures Verdict(err, FinalState(err), FinalError(err))
  {
    hide Joined;
  }

  /** The run's record was told how the run ended, once it had been told that it runs. */
  ghost predicate StatusTold(err: Option<RunError>, calls: seq<Event>) {
    (err.Some? && err.value.NotMarkedRunning?) ||
    exists state, text :: Verdict(err, state, text) && Writes(calls, state, text)
  }

  lemma ToldByLog(err: Option<RunError>, calls: seq<Event>, body: seq<Event>, groups: seq<string>,
                  sandboxes: map<string, string>, sent: bool)
    requires CompleteLog(calls, body, groups, sandboxes, FinalState(err), FinalError(err), sent)
    requires Verdict(err, FinalState(err), FinalError(err))
    ensures StatusTold(err, calls)
  {
    hide CompleteLog, Closing, Cleanups;
    forall s, t
      ensures StatusSet(s, t) in calls <==>
        (s == RunRunning && t == "") || (s == FinalState(err) && t == FinalError(err))
    {
      LogCount(calls, body, groups, sandboxes, FinalState(err), FinalError(err), sent, StatusSet(s, t));
      ClosingCounts(FinalState(err), FinalError(err), sent, StatusSet(s, t));
      NoStatusInBody(calls, body, groups, sandboxes, FinalState(err), FinalError(err), sent, s, t);
      assert StatusSet(s, t) in calls <==> multiset(calls)[StatusSet(s, t)] > 0;
    }
  }

  lemma NoStatusInBody(calls: seq<Event>, body: seq<Event>, groups: seq<string>, sandboxes: map<string, string>,
                       state: RunState, error: string, sent: bool, s: RunState, t: string)
    requires CompleteLog(calls, body, groups, sandboxes, state, error, sent)
    ensures multiset(body)[StatusSet(s, t)] == 0
  {
    NotInBody(body, sent, StatusSet(s, t));
  }

  // --- what a run ends with -------------------------------------------------------------

  function IdName(id: StepId): string {
    id.name
  }

  function ReportName(r: StepOutput): string {
    r.stepId.name
  }

  /** The steps that failed without being optional. */
  function Grave(defs: Defs, outputs: Outputs): set<StepId> {
    set id | id in outputs && outputs[id].status == Failed && id in defs && !defs[id].optional
  }

  /** The operator is told of exactly the steps that failed without being optional. */
  ghost predicate OperatorTold(defs: Defs, outputs: Outputs, calls: seq<Event>) {
    forall id :: (exists stored :: StepFailedItem(id, stored) in calls) <==>
      id in outputs && outputs[id].status == Failed && id in defs && !defs[id].optional
  }

  lemma ItemsTell(defs: Defs, outputs: Outputs, calls: seq<Event>)
    requires ItemsFor(calls) == Grave(defs, outputs)
    ensures OperatorTold(defs, outputs, calls)
  {
    forall id
      ensures (exists stored :: StepFailedItem(id, stored) in calls) <==>
        id in outputs && outputs[id].status == Failed && id in defs && !defs[id].optional
    {
      assert id in Grave(defs, outputs) <==>
        id in outputs && outputs[id].status == Failed && id in defs && !defs[id].optional;
      if id in ItemsFor(calls) {
        var e :| e in calls && e.StepFailedItem? && e.id == id;
        assert e == StepFailedItem(id, e.stored);
      }
      if stored :| StepFailedItem(id, stored) in calls {
        assert StepFailedItem(id, stored).id in ItemsFor(calls);
      }
    }
  }

  lemma NoItems(defs: Defs)
    ensures ItemsFor([]) == {} == Grave(defs, map[])
  {
  }

  /** Whatever failed was marked optional. */
  ghost predicate OnlyOptionalFailed(defs: Defs, outputs: Outputs) {
    forall id :: id in outputs && outputs[id].status == Failed ==> id in defs && defs[id].optional
  }

  /** One message for each step that failed without being optional, in the order of the IDs. */
  ghost predicate FailuresNamed(defs: Defs, outputs: Outputs, messages: seq<string>, ids: seq<StepId>) {
    && Ascending(ids, IdName)
    && (forall id :: id in ids <==> id in outputs && outputs[id].status == Failed && id in defs && !defs[id].optional)
    && |messages| == |ids| > 0
    && forall j :: 0 <= j < |ids| ==>
        messages[j] == "step " + ids[j].name + " failed" +
                       if outputs[ids[j]].error != "" then ": " + outputs[ids[j]].error else ""
  }

  /** What the recorded results say about the way a run ended. */
  ghost predicate SettledBy(defs: Defs, outputs: Outputs, err: Option<RunError>) {
    && outputs.Keys <= defs.Keys
    && (err.None? ==> outputs.Keys == defs.Keys)
    && (err == Some(Deadlock) ==> outputs.Keys != defs.Keys)
    && (forall ms :: err == Some(StepsFailed(ms)) ==> exists ids :: FailuresNamed(defs, outputs, ms, ids))
    && (!(err.Some? && err.value.StepsFailed?) ==> OnlyOptionalFailed(defs, outputs))
  }

  ghost predicate NoneFatal(defs: Defs, outputs: Outputs) {
    forall id :: id in outputs ==> !Fatal(defs, id, outputs[id])
  }

  /** What holds whenever the loop tests its guard: pending and outputs divide the steps
      between them, and outputs is what the waves so far compute. */
  ghost predicate AtHead(w: World, defs: Defs, wave: nat, pending: Defs, outputs: Outputs) {
    && outputs == Waves(w, defs, wave) && NoneFatal(defs, outputs)
    && (wave > 0 ==> Waves(w, defs, wave - 1).Keys != outputs.Keys)
    && pending.Keys + outputs.Keys == defs.Keys && pending.Keys !! outputs.Keys
    && forall id :: id in pending ==> pending[id] == defs[id]
  }

  /** The ready steps' results, in ID order. */
  ghost function ResultsOf(w: World, ready: seq<StepDef>, outputs: Outputs): seq<StepOutput> {
    seq(|ready|, i requires 0 <= i < |ready| => StepResult(w, ready[i], outputs))
  }

  /** The last wave had fatal failures: every step downstream of one of them has a Skipped
      result naming its cause, and every other step that had not run is still pending. */
  ghost predicate FailedWave(w: World, defs: Defs, before: Outputs, pending: Defs, outputs: Outputs,
                             messages: seq<string>) {
    var g := GraphOf(defs);
    var after := before + WaveResults(w, defs, before);
    var fatal := set id | id in after && Fatal(defs, id, after[id]);
    var rest := defs.Keys - after.Keys;
    && NoneFatal(defs, before) && fatal != {}
    && pending.Keys <= rest
    && outputs.Keys == defs.Keys - pending.Keys
    && (forall id :: id in after ==> id in outputs && outputs[id] == after[id])
    && (forall id :: id in rest ==> (id !in pending <==> DownstreamOfAny(g, rest, fatal, id)))
    && (forall id :: id in rest && id !in pending ==>
          SkippedFor(SkipOutput, g, (rest - pending.Keys) + fatal, id, outputs))
    && exists ready :: IsReadyList(defs, before.Keys, ready, defs.Keys - before.Keys) &&
        messages == FailureMessages(defs, ResultsOf(w, ready, before))
  }

  ghost predicate WavesOutcome(w: World, defs: Defs, wave: nat, pending: Defs, outputs: Outputs,
                               err: Option<RunError>) {
    match err
    case None => AtHead(w, defs, wave, pending, outputs) && pending == map[]
    case Some(Deadlock) =>
      AtHead(w, defs, wave, pending, outputs) && pending != map[] && Ready(GraphOf(defs), outputs.Keys) == {}
    case Some(StepsFailed(messages)) =>
      wave > 0 && FailedWave(w, defs, Waves(w, defs, wave - 1), pending, outputs, messages)
    case Some(Cancellation) => AtHead(w, defs, wave, pending, outputs)
    case Some(ProvisioningFailed(_, _, _)) => AtHead(w, defs, wave, pending, outputs)
    case _ => false
  }

  /** The run ended before its waves. */
  predicate BeforeAnyStep(err: Option<RunError>) {
    err.Some? && (err.value.NotMarkedRunning? || err.value.ProfileFailed? || err.value.PreflightFailed?)
  }

  lemma NothingRun(defs: Defs, err: Option<RunError>, calls: seq<Event>)
    requires BeforeAnyStep(err)
    ensures SettledBy(defs, map[], err)
    ensures err.value.NotMarkedRunning? ==> StatusTold(err, calls)
  {
  }

  /** However the loop ends, the statuses and the optional flags show why. */
  lemma OutcomeSettles(w: World, defs: Defs, wave: nat, pending: Defs, outputs: Outputs, err: Option<RunError>)
    requires Honest(w) && KeyedById(defs) && WavesOutcome(w, defs, wave, pending, outputs, err)
    ensures SettledBy(defs, outputs, err)
  {
    hide FailedWave, Waves, Honest, KeyedById;
    if err.Some? && err.value.StepsFailed? {
      hide OnlyOptionalFailed, FailuresNamed;
      var _ := FailedWaveNames(w, defs, Waves(w, defs, wave - 1), pending, outputs, err.value.messages);
    }
  }

  lemma FailedWaveNames(w: World, defs: Defs, before: Outputs, pending: Defs, outputs: Outputs, messages: seq<string>)
    returns (ids: seq<StepId>)
    requires Honest(w) && KeyedById(defs) && FailedWave(w, defs, before, pending, outputs, messages)
    ensures FailuresNamed(defs, outputs, messages, ids) && outputs.Keys <= defs.Keys
  {
    hide FailuresNamed;
    var ready := FailedWaveList(w, defs, before, pending, outputs, messages);
    var after := before + WaveResults(w, defs, before);
    FailedWaveStatuses(w, defs, before, pending, outputs, messages);
    hide FailedWave;
    ReadyResults(w, defs, ready, before);
    hide WaveResults, StepResult, ResultsOf, IsReadyList, Names, Messages;
    ids := MessagesName(defs, ResultsOf(w, ready, before), after);
    NamedInOutputs(defs, ResultsOf(w, ready, before), after, outputs, messages, ids);
  }

  lemma FailedWaveList(w: World, defs: Defs, before: Outputs, pending: Defs, outputs: Outputs, messages: seq<string>)
    returns (ready: seq<StepDef>)
    requires FailedWave(w, defs, before, pending, outputs, messages)
    ensures IsReadyList(defs, before.Keys, ready, defs.Keys - before.Keys)
    ensures messages == FailureMessages(defs, ResultsOf(w, ready, before))
  {
    hide StepResult, Fatal, SkippedFor, DownstreamOfAny, IsReadyList, FailureMessages, ResultsOf, WaveResults,
        NoneFatal,
        GraphOf;
    ready :| IsReadyList(defs, before.Keys, ready, defs.Keys - before.Keys) &&
      messages == FailureMessages(defs, ResultsOf(w, ready, before));
  }

  lemma FailedWaveStatuses(w: World, defs: Defs, before: Outputs, pending: Defs, outputs: Outputs,
                           messages: seq<string>)
    requires FailedWave(w, defs, before, pending, outputs, messages)
    ensures var after := before + WaveResults(w, defs, before);
      && outputs.Keys <= defs.Keys
      && (forall id :: id in after ==> id in outputs && outputs[id] == after[id])
      && (forall id :: id in outputs && outputs[id].status == Failed && id in defs && !defs[id].optional ==>
            id in WaveResults(w, defs, before))
      && exists id :: id in outputs && outputs[id].status == Failed && id in defs && !defs[id].optional
  {
    hide StepResult, DownstreamOfAny, IsReadyList, FailureMessages, ResultsOf, WaveResults, GraphOf;
    var after := before + WaveResults(w, defs, before);
    forall id | id in outputs && outputs[id].status == Failed && id in defs && !defs[id].optional
      ensures id in WaveResults(w, defs, before) {
      assert Fatal(defs, id, outputs[id]);
    }
    var fatal := set id | id in after && Fatal(defs, id, after[id]);
    var id :| id in fatal;
    assert outputs[id].status == Failed;
  }

  lemma ReadyResults(w: World, defs: Defs, ready: seq<StepDef>, before: Outputs)
    requires Honest(w) && KeyedById(defs) && IsReadyList(defs, before.Keys, ready, defs.Keys - before.Keys)
    ensures var outs, after := ResultsOf(w, ready, before), before + WaveResults(w, defs, before);
      && Ascending(outs, ReportName)
      && (forall r :: r in outs ==> r.stepId in after && after[r.stepId] == r)
      && Names(outs) == WaveResults(w, defs, before).Keys
  {
    var outs := ResultsOf(w, ready, before);
    forall i | 0 <= i < |ready| ensures outs[i].stepId == ready[i].id && ready[i] in ready {
      ResultCarriesId(w, ready[i], before);
    }
    hide StepResult;
    forall id | id in WaveResults(w, defs, before) ensures id in Names(outs) {
      assert defs[id] in ready;
      var i :| 0 <= i < |ready| && ready[i] == defs[id];
      assert outs[i] in outs;
    }
  }

  lemma NamedInOutputs(defs: Defs, outs: seq<StepOutput>, after: Outputs, outputs: Outputs, messages: seq<string>,
                       ids: seq<StepId>)
    requires Names(outs) <= after.Keys && Messages(defs, outs, after, messages, ids)
    requires forall id :: id in after ==> id in outputs && outputs[id] == after[id]
    requires forall id :: id in outputs && outputs[id].status == Failed && id in defs && !defs[id].optional ==>
               id in Names(outs)
    requires exists id :: id in outputs && outputs[id].status == Failed && id in defs && !defs[id].optional
    ensures FailuresNamed(defs, outputs, messages, ids)
  {
    hide Ascending;
  }

  function Names(outs: seq<StepOutput>): set<StepId> {
    set r | r in outs :: r.stepId
  }

  /** One message for each of the results that failed without being optional. */
  ghost predicate Messages(defs: Defs, outs: seq<StepOutput>, after: Outputs, messages: seq<string>, ids: seq<StepId>)
    requires Names(outs) <= after.Keys
  {
    && Ascending(ids, IdName)
    && (forall id :: id in ids <==> id in Names(outs) && after[id].status == Failed && id in defs && !defs[id].optional)
    && |messages| == |ids|
    && forall j :: 0 <= j < |ids| ==>
        messages[j] == "step " + ids[j].name + " failed" +
                       if after[ids[j]].error != "" then ": " + after[ids[j]].error else ""
  }

  lemma {:induction false} MessagesName(defs: Defs, outs: seq<StepOutput>, after: Outputs) returns (ids: seq<StepId>)
    requires Ascending(outs, ReportName)
    requires forall r :: r in outs ==> r.stepId in after && after[r.stepId] == r
    ensures Messages(defs, outs, after, FailureMessages(defs, outs), ids)
  {
    hide FailureMessages, Messages, Fatal;
    if outs == [] {
      ids := [];
      NoMessages(defs, after);
    } else {
      var init, r := outs[..|outs| - 1], outs[|outs| - 1];
      assert outs == init + [r];
      ids := MessagesName(defs, init, after);
      MessagesSnoc(defs, init, r, after, FailureMessages(defs, init), ids);
      MessagesGrow(defs, init, r);
      ids := ids + if Fatal(defs, r.stepId, r) then [r.stepId] else [];
    }
  }

  lemma NoMessages(defs: Defs, after: Outputs)
    ensures Messages(defs, [], after, FailureMessages(defs, []), [])
  {
  }

  lemma MessagesGrow(defs: Defs, init: seq<StepOutput>, r: StepOutput)
    ensures FailureMessages(defs, init + [r]) ==
            FailureMessages(defs, init) + if Fatal(defs, r.stepId, r) then [FailureMessage(r)] else []
  {
    assert (init + [r])[..|init|] == init;
    hide Fatal, FailureMessage;
  }

  lemma MessagesSnoc(defs: Defs, init: seq<StepOutput>, r: StepOutput, after: Outputs, messages: seq<string>,
                     ids: seq<StepId>)
    requires Ascending(init + [r], ReportName)
    requires forall o :: o in init + [r] ==> o.stepId in after && after[o.stepId] == o
    requires Names(init) <= after.Keys && Messages(defs, init, after, messages, ids)
    ensures Names(init + [r]) <= after.Keys
    ensures Messages(defs, init + [r], after,
                     messages + (if Fatal(defs, r.stepId, r) then [FailureMessage(r)] else []),
                     ids + if Fatal(defs, r.stepId, r) then [r.stepId] else [])
  {
    hide Less;
    assert forall o :: o in init + [r] <==> o in init || o == r;
    assert Names(init + [r]) == Names(init) + {r.stepId};
    forall id | id in Names(init) ensures Less(id.name, r.stepId.name) {
      var o :| o in init && o.stepId == id;
      var i :| 0 <= i < |init| && init[i] == o;
      assert (init + [r])[i] == o && (init + [r])[|init|] == r;
    }
    LessIrreflexive(r.stepId.name);
  }

  /** The steps of the wave whose goroutine has started. */
  ghost function Started(ready: seq<StepDef>, waiting: set<nat>): set<StepId> {
    set i | 0 <= i < |ready| && i !in waiting :: ready[i].id
  }

  lemma StartedNone(ready: seq<StepDef>, waiting: set<nat>)
    requires waiting == Indices(|ready|)
    ensures Started(ready, waiting) == {}
  {
  }

  lemma StartedOne(ready: seq<StepDef>, waiting: set<nat>, i: nat)
    requires UniqueIds(ready) && i in waiting && i < |ready|
    ensures ready[i].id !in Started(ready, waiting)
    ensures Started(ready, waiting - {i}) == Started(ready, waiting) + {ready[i].id}
  {
    forall j | 0 <= j < |ready| && j !in waiting ensures ready[j].id != ready[i].id {
      assert j != i;
    }
  }

  lemma StartedAll(ready: seq<StepDef>)
    ensures Started(ready, {}) == Ids(ready)
  {
  }

  ghost predicate DepsDone(g: Graph<StepId>, ids: set<StepId>, done: set<StepId>) {
    forall y, d :: y in ids && Dep(g, y, d) ==> d in done
  }

  ghost predicate GroupsKnown(sandboxes: map<string, string>) {
    forall group :: group in sandboxes ==> sandboxes[group] != ""
  }

  /** ProvisionSandbox answers with the ID of a sandbox, never the empty string. */
  method NewSandboxId() returns (id: string)
    ensures id != ""
  {
    assert "s" != "";
    id :| id != "";
  }

  function Ids(ready: seq<StepDef>): set<StepId> {
    set i | 0 <= i < |ready| :: ready[i].id
  }

  lemma HeadAtStart(w: World, defs: Defs, pending: Defs, outputs: Outputs)
    requires pending == defs && outputs == map[]
    ensures AtHead(w, defs, 0, pending, outputs)
  {
  }

  lemma OutcomeAtHead(w: World, defs: Defs, steps: seq<StepDef>, wave: nat, pending: Defs, outputs: Outputs)
    requires Indexes(defs, steps) && AtHead(w, defs, wave, pending, outputs)
    ensures WavesOutcome(w, defs, wave, pending, outputs, Some(Cancellation))
    ensures forall group, c, m :: WavesOutcome(w, defs, wave, pending, outputs, Some(ProvisioningFailed(group, c, m)))
    ensures KeyedById(pending) && pending.Keys <= defs.Keys && pending.Keys !! outputs.Keys
    ensures Grave(defs, outputs) == {}
  {
    NoneGrave(defs, outputs);
    hide Waves, NoneFatal, Grave;
  }

  lemma NoneGrave(defs: Defs, outputs: Outputs)
    ensures NoneFatal(defs, outputs) <==> Grave(defs, outputs) == {}
  {
    forall id | id in outputs ensures Fatal(defs, id, outputs[id]) <==> id in Grave(defs, outputs) {
    }
  }

  lemma HeadHasNone(w: World, defs: Defs, wave: nat, pending: Defs, outputs: Outputs)
    requires AtHead(w, defs, wave, pending, outputs)
    ensures NoneFatal(defs, outputs)
  {
    hide Waves, NoneFatal;
  }

  lemma OutcomeDeadlock(w: World, defs: Defs, wave: nat, pending: Defs, outputs: Outputs, ready: seq<StepDef>)
    requires AtHead(w, defs, wave, pending, outputs) && ready == [] && Ids(ready) == Ready(GraphOf(defs), outputs.Keys)
    requires |pending.Keys| > 0
    ensures WavesOutcome(w, defs, wave, pending, outputs, Some(Deadlock))
  {
    hide AtHead, Ready;
    assert Ids(ready) == {};
  }

  lemma OutcomeFailed(w: World, defs: Defs, wave: nat, pending: Defs, outputs: Outputs, messages: seq<string>)
    requires wave > 0 && FailedWave(w, defs, Waves(w, defs, wave - 1), pending, outputs, messages)
    ensures WavesOutcome(w, defs, wave, pending, outputs, Some(StepsFailed(messages)))
  {
    hide FailedWave, Waves;
  }

  lemma OutcomeFinished(w: World, defs: Defs, wave: nat, pending: Defs, outputs: Outputs)
    requires AtHead(w, defs, wave, pending, outputs) && |pending.Keys| <= 0
    ensures WavesOutcome(w, defs, wave, pending, outputs, None) && Grave(defs, outputs) == {}
  {
    NoneGrave(defs, outputs);
    HeadHasNone(w, defs, wave, pending, outputs);
    hide AtHead, Grave;
    assert pending.Keys == {};
  }

  /** ready is the wave to run next: the semantics' ready set, in ID order. */
  ghost predicate IsWave(w: World, defs: Defs, wave: nat, pending: Defs, outputs: Outputs, ready: seq<StepDef>) {
    && AtHead(w, defs, wave, pending, outputs)
    && IsReadyList(defs, outputs.Keys, ready, defs.Keys - outputs.Keys)
    && Ids(ready) == Ready(GraphOf(defs), outputs.Keys)
    && (UniqueIds(ready))
    && (forall i :: 0 <= i < |ready| ==> ready[i].id in defs && defs[ready[i].id] == ready[i])
  }

  /** findReady's list is that wave. */
  lemma ReadyIsWave(w: World, defs: Defs, steps: seq<StepDef>, wave: nat, pending: Defs, outputs: Outputs,
                    ready: seq<StepDef>)
    requires Indexes(defs, steps) && AtHead(w, defs, wave, pending, outputs)
    requires IsReadyList(pending, outputs.Keys, ready, pending.Keys)
    ensures IsWave(w, defs, wave, pending, outputs, ready)
    ensures Ids(ready) == Ready(GraphOf(defs), outputs.Keys)
  {
    var g := GraphOf(defs);
    hide Waves, StepResult, NoneFatal;
    assert forall id :: id in pending ==> GraphOf(pending)[id] == g[id];
    assert defs.Keys - outputs.Keys == pending.Keys;
    forall i | 0 <= i < |ready|
      ensures ready[i].id in Ready(g, outputs.Keys) && defs[ready[i].id] == ready[i]
    {
      assert ready[i] in ready;
    }
    forall id | id in Ready(g, outputs.Keys) ensures id in Ids(ready) {
      assert defs[id] in ready;
      var i :| 0 <= i < |ready| && ready[i] == defs[id];
    }
    forall i, j | 0 <= i < j < |ready| ensures ready[i].id != ready[j].id {
      LessIrreflexive(IdText(ready[i]));
    }
  }

  lemma WaveLaunchable(w: World, defs: Defs, wave: nat, pending: Defs, outputs: Outputs, ready: seq<StepDef>)
    requires IsWave(w, defs, wave, pending, outputs, ready)
    ensures UniqueIds(ready)
    ensures forall i :: 0 <= i < |ready| ==>
              ready[i].id !in outputs && GoodLaunch(GraphOf(defs), Launched(ready[i].id, wave, outputs.Keys))
  {
    hide StepResult, NoneFatal, IsReadyList, GoodLaunch, Waves;
    forall i | 0 <= i < |ready|
      ensures ready[i].id !in outputs && GoodLaunch(GraphOf(defs), Launched(ready[i].id, wave, outputs.Keys))
    {
      assert ready[i].id in Ids(ready);
      LaunchIsGood(w, defs, wave, ready[i].id);
    }
  }

  lemma WaveCollectable(w: World, defs: Defs, wave: nat, pending: Defs, outputs: Outputs, ready: seq<StepDef>,
                        results: seq<Option<StepOutput>>)
    requires Honest(w) && IsWave(w, defs, wave, pending, outputs, ready)
    requires |results| == |ready| && Reports(ready, results) == ResultsOf(w, ready, outputs)
    ensures pending.Keys <= defs.Keys && Ids(ready) <= pending.Keys && pending.Keys !! outputs.Keys
    ensures UniqueIds(ready)
    ensures Reported(ready, results)
    ensures DepsDone(GraphOf(defs), Ids(ready), outputs.Keys)
  {
    forall i | 0 <= i < |ready| ensures Report(ready[i], results[i]).stepId == ready[i].id {
      ResultCarriesId(w, ready[i], outputs);
      assert Reports(ready, results)[i] == ResultsOf(w, ready, outputs)[i];
    }
    hide StepResult, Waves, NoneFatal, IsReadyList;
  }

  lemma LaunchIsGood(w: World, defs: Defs, wave: nat, id: StepId)
    requires id in Ready(GraphOf(defs), Waves(w, defs, wave).Keys)
    ensures GoodLaunch(GraphOf(defs), Launched(id, wave, Waves(w, defs, wave).Keys))
  {
    var g := GraphOf(defs);
    forall x | Upstream(g, id, x) ensures x in Waves(w, defs, wave) {
      UpstreamPresentAtLaunch(w, defs, wave, id, x);
    }
    if Closed(g) {
      WaveIsLongestChain(w, defs, id, wave);
    }
  }

  lemma AllReported(w: World, ready: seq<StepDef>, results: seq<Option<StepOutput>>, outputs: Outputs)
    requires Honest(w) && |results| == |ready|
    requires forall i :: 0 <= i < |ready| ==> results[i] == Some(StepResult(w, ready[i], outputs))
    ensures Reported(ready, results) && Reports(ready, results) == ResultsOf(w, ready, outputs)
  {
    forall i | 0 <= i < |ready| ensures Report(ready[i], results[i]).stepId == ready[i].id {
      ResultCarriesId(w, ready[i], outputs);
    }
  }

  lemma {:induction false} RecordAll(outputs: Outputs, outs: seq<StepOutput>, results: Outputs)
    requires forall i, j :: 0 <= i < j < |outs| ==> outs[i].stepId != outs[j].stepId
    requires forall i :: 0 <= i < |outs| ==> outs[i].stepId in results && results[outs[i].stepId] == outs[i]
    ensures forall id :: id in Record(outputs, outs) <==>
        id in outputs || exists i :: 0 <= i < |outs| && outs[i].stepId == id
    ensures forall i :: 0 <= i < |outs| ==> Record(outputs, outs)[outs[i].stepId] == outs[i]
    ensures forall id :: id in outputs && id !in results ==> Record(outputs, outs)[id] == outputs[id]
  {
    if outs != [] {
      var init, last := outs[..|outs| - 1], outs[|outs| - 1];
      RecordAll(outputs, init, results);
      assert forall i :: 0 <= i < |init| ==> init[i] == outs[i];
    }
  }

  /** Recording the results of a wave one by one adds the wave's results. */
  lemma RecordResults(w: World, defs: Defs, ready: seq<StepDef>, outputs: Outputs)
    requires Honest(w) && Ids(ready) == Ready(GraphOf(defs), outputs.Keys)
    requires UniqueIds(ready)
    requires forall i :: 0 <= i < |ready| ==> ready[i].id in defs && defs[ready[i].id] == ready[i]
    ensures Record(outputs, ResultsOf(w, ready, outputs)) == outputs + WaveResults(w, defs, outputs)
  {
    hide StepResult, ResultsOf, WaveResults, Honest, GraphOf, Ready, Ids, Record, UniqueIds;
    var outs, results := ResultsOf(w, ready, outputs), WaveResults(w, defs, outputs);
    ResultsAre(w, defs, ready, outputs);
    RecordSum(outputs, outs, results);
  }

  lemma RecordSum(outputs: Outputs, outs: seq<StepOutput>, results: Outputs)
    requires forall i, j :: 0 <= i < j < |outs| ==> outs[i].stepId != outs[j].stepId
    requires forall i :: 0 <= i < |outs| ==> outs[i].stepId in results && results[outs[i].stepId] == outs[i]
    requires forall id :: id in results ==> exists i :: 0 <= i < |outs| && outs[i].stepId == id
    ensures Record(outputs, outs) == outputs + results
  {
    hide Record;
    RecordAll(outputs, outs, results);
    var r := Record(outputs, outs);
    forall id ensures id in r <==> id in outputs || id in results {
    }
    assert forall id :: id in results ==> r[id] == results[id];
  }

  lemma ResultsAre(w: World, defs: Defs, ready: seq<StepDef>, outputs: Outputs)
    requires Honest(w) && Ids(ready) == Ready(GraphOf(defs), outputs.Keys) && UniqueIds(ready)
    requires forall i :: 0 <= i < |ready| ==> ready[i].id in defs && defs[ready[i].id] == ready[i]
    ensures var outs, results := ResultsOf(w, ready, outputs), WaveResults(w, defs, outputs);
      && (forall i, j :: 0 <= i < j < |outs| ==> outs[i].stepId != outs[j].stepId)
      && (forall i :: 0 <= i < |outs| ==> outs[i].stepId in results && results[outs[i].stepId] == outs[i])
      && (forall id :: id in results ==> exists i :: 0 <= i < |outs| && outs[i].stepId == id)
  {
    var outs, results := ResultsOf(w, ready, outputs), WaveResults(w, defs, outputs);
    forall i | 0 <= i < |outs|
      ensures outs[i].stepId == ready[i].id && ready[i].id in results && results[ready[i].id] == outs[i]
    {
      ResultCarriesId(w, ready[i], outputs);
      assert ready[i].id in Ids(ready);
    }
    hide StepResult;
    forall id | id in results ensures exists i :: 0 <= i < |outs| && outs[i].stepId == id {
      assert id in Ids(ready);
      var i :| 0 <= i < |ready| && ready[i].id == id;
      assert outs[i].stepId == id;
    }
  }

  lemma {:induction false} MessagesMeanFatal(defs: Defs, outs: seq<StepOutput>)
    ensures FailureMessages(defs, outs) == [] <==> FatalIds(defs, outs) == {}
  {
    if outs != [] {
      var init, last := outs[..|outs| - 1], outs[|outs| - 1];
      MessagesMeanFatal(defs, init);
      FatalSnoc(defs, init, last);
      assert outs == init + [last];
      hide Fatal, FailureMessage, FatalIds;
    }
  }

  /** The fatal results of a wave are the fatal entries of the outputs it leaves. */
  lemma FatalOfWave(w: World, defs: Defs, ready: seq<StepDef>, before: Outputs)
    requires Honest(w) && NoneFatal(defs, before)
    requires Ids(ready) == Ready(GraphOf(defs), before.Keys)
    requires forall i :: 0 <= i < |ready| ==> ready[i].id in defs && defs[ready[i].id] == ready[i]
    ensures var after := before + WaveResults(w, defs, before);
      FatalIds(defs, ResultsOf(w, ready, before)) == set id | id in after && Fatal(defs, id, after[id])
  {
    var after := before + WaveResults(w, defs, before);
    var outs := ResultsOf(w, ready, before);
    hide Fatal;
    forall i | 0 <= i < |outs|
      ensures outs[i].stepId == ready[i].id && ready[i].id in after && after[ready[i].id] == outs[i] {
      ResultCarriesId(w, ready[i], before);
      assert ready[i].id in Ids(ready);
    }
    hide StepResult;
    forall id | id in after && Fatal(defs, id, after[id]) ensures id in FatalIds(defs, outs) {
      assert id in Ids(ready);
      var i :| 0 <= i < |ready| && ready[i].id == id;
      assert outs[i] in outs;
    }
    forall id | id in FatalIds(defs, outs) ensures id in after && Fatal(defs, id, after[id]) {
      var r :| r in outs && Fatal(defs, r.stepId, r) && r.stepId == id;
      var i :| 0 <= i < |outs| && outs[i] == r;
    }
  }

  /** A fully recorded wave: everything downstream of the fatal steps is skipped, the rest
      of what was pending still is. */
  ghost predicate WaveEnded(defs: Defs, after: Outputs, fatal: set<StepId>, pending: Defs, outputs: Outputs) {
    var g := GraphOf(defs);
    var rest := defs.Keys - after.Keys;
    && pending.Keys <= rest && (forall id :: id in pending ==> pending[id] == defs[id])
    && outputs.Keys == after.Keys + (rest - pending.Keys)
    && (forall id :: id in after ==> outputs[id] == after[id])
    && (forall id :: id in rest ==> (id !in pending <==> DownstreamOfAny(g, rest, fatal, id)))
    && (forall id :: id in rest - pending.Keys ==> SkippedFor(SkipOutput, g, (rest - pending.Keys) + fatal, id,
        outputs))
    && (fatal == {} ==> pending.Keys == rest && outputs == after)
  }

  lemma WaveEnds(w: World, defs: Defs, wave: nat, pending0: Defs, before: Outputs, ready: seq<StepDef>,
                 after: Outputs, fatal: set<StepId>, pending: Defs, outputs: Outputs)
    requires IsWave(w, defs, wave, pending0, before, ready)
    requires after == before + WaveResults(w, defs, before)
    requires Collecting(SkipOutput, GraphOf(defs), before.Keys, Ids(ready), {}, fatal, pending0 - Ids(ready), after,
        pending, outputs)
    ensures WaveEnded(defs, after, fatal, pending, outputs)
  {
    hide StepResult, SkipOutput, Collecting, SkippedFor, DownstreamOfAny, IsWave, WaveResults, Ids, GraphOf;
    CollectEnd(SkipOutput, GraphOf(defs), before.Keys, Ids(ready), fatal, pending0 - Ids(ready), after, pending,
        outputs);
    RestOfWave(w, defs, wave, pending0, before, ready, after);
  }

  /** Skipping fails nothing. */
  lemma GraveOfWave(defs: Defs, after: Outputs, fatal: set<StepId>, pending: Defs, outputs: Outputs)
    requires WaveEnded(defs, after, fatal, pending, outputs)
    requires fatal == set id | id in after && Fatal(defs, id, after[id])
    ensures Grave(defs, outputs) == fatal
  {
    hide DownstreamOfAny, GraphOf;
    forall id | id in outputs ensures id in Grave(defs, outputs) <==> id in fatal {
      assert id !in after ==> id in defs.Keys - after.Keys - pending.Keys;
    }
  }

  lemma WaveShrinks(w: World, defs: Defs, wave: nat, pending0: Defs, before: Outputs, ready: seq<StepDef>,
                    after: Outputs,
                    p: set<StepId>)
    requires IsWave(w, defs, wave, pending0, before, ready) && |ready| > 0
    requires after == before + WaveResults(w, defs, before) && p <= defs.Keys - after.Keys
    ensures |p| < |pending0.Keys|
  {
    hide IsWave, WaveResults, Ids;
    RestOfWave(w, defs, wave, pending0, before, ready, after);
    RestSmallerByOne(pending0, ready, p);
  }

  lemma RestSmallerByOne(pending0: Defs, ready: seq<StepDef>, p: set<StepId>)
    requires |ready| > 0 && Ids(ready) <= pending0.Keys && p <= (pending0 - Ids(ready)).Keys
    ensures |p| < |pending0.Keys|
  {
    assert ready[0].id in Ids(ready);
    SmallerPending(p, (pending0 - Ids(ready)).Keys, pending0.Keys, ready[0].id);
  }

  lemma RestOfWave(w: World, defs: Defs, wave: nat, pending: Defs, before: Outputs, ready: seq<StepDef>, after: Outputs)
    requires IsWave(w, defs, wave, pending, before, ready) && after == before + WaveResults(w, defs, before)
    ensures Ids(ready) <= pending.Keys && (pending - Ids(ready)).Keys == defs.Keys - after.Keys
    ensures forall id :: id in pending ==> id in defs && pending[id] == defs[id]
  {
    WaveKeys(w, defs, before, ready);
    hide StepResult, NoneFatal, Waves, IsReadyList, WaveResults;
  }

  lemma SomeId(ready: seq<StepDef>)
    requires |ready| > 0
    ensures Ids(ready) != {}
  {
    assert ready[0].id in Ids(ready);
  }

  /** One turn of the loop: with no fatal failure the invariant holds one wave on and fewer
      steps are pending; with one, the run ends as FailedWave says. */
  lemma AfterWave(w: World, defs: Defs, wave: nat, pending0: Defs, before: Outputs, ready: seq<StepDef>,
                  outs: seq<StepOutput>, pending: Defs, outputs: Outputs, messages: seq<string>)
    requires Honest(w) && IsWave(w, defs, wave, pending0, before, ready) && |ready| > 0
    requires outs == ResultsOf(w, ready, before) && messages == FailureMessages(defs, outs)
    requires Collecting(SkipOutput, GraphOf(defs), before.Keys, Ids(ready), {}, FatalIds(defs, outs),
                        pending0 - Ids(ready), Record(before, outs), pending, outputs)
    ensures |pending.Keys| < |pending0.Keys|
    ensures |messages| == 0 ==> AtHead(w, defs, wave + 1, pending, outputs) &&
                                outputs.Keys == before.Keys + Ids(ready) && FatalIds(defs, outs) == {}
    ensures |messages| > 0 ==> FailedWave(w, defs, Waves(w, defs, wave), pending, outputs, messages) &&
                               Grave(defs, outputs) == FatalIds(defs, outs)
  {
    var after := before + WaveResults(w, defs, before);
    var fatal := FatalIds(defs, outs);
    IsWaveFacts(w, defs, wave, pending0, before, ready);
    hide IsWave, Honest, AtHead, NoneFatal, FailedWave, Waves, Collecting, FailureMessages, Record, Reports,
        Grave, ResultsOf, FatalIds, WaveResults, Ready, Ids, UniqueIds, GraphOf;
    RecordResults(w, defs, ready, before);
    FatalOfWave(w, defs, ready, before);
    MessagesMeanFatal(defs, outs);
    WaveEnds(w, defs, wave, pending0, before, ready, after, fatal, pending, outputs);
    WaveShrinks(w, defs, wave, pending0, before, ready, after, pending.Keys);
    if |messages| == 0 {
      SomeId(ready);
      GoodWave(w, defs, wave, before, fatal, pending, outputs);
      WaveKeys(w, defs, before, ready);
    } else {
      BadWave(w, defs, wave, pending0, before, ready, fatal, pending, outputs, messages);
      GraveOfWave(defs, after, fatal, pending, outputs);
    }
  }

  lemma IsWaveFacts(w: World, defs: Defs, wave: nat, pending: Defs, outputs: Outputs, ready: seq<StepDef>)
    requires IsWave(w, defs, wave, pending, outputs, ready)
    ensures NoneFatal(defs, outputs) && outputs == Waves(w, defs, wave) && outputs.Keys <= defs.Keys
    ensures Ids(ready) == Ready(GraphOf(defs), outputs.Keys)
    ensures UniqueIds(ready)
    ensures forall i :: 0 <= i < |ready| ==> ready[i].id in defs && defs[ready[i].id] == ready[i]
  {
    hide Waves, NoneFatal, IsReadyList, Ids, Ready;
  }

  lemma WaveKeys(w: World, defs: Defs, before: Outputs, ready: seq<StepDef>)
    requires Ids(ready) == Ready(GraphOf(defs), before.Keys)
    ensures (before + WaveResults(w, defs, before)).Keys == before.Keys + Ids(ready)
  {
    hide StepResult;
  }

  lemma GoodWave(w: World, defs: Defs, wave: nat, before: Outputs, fatal: set<StepId>, pending: Defs, outputs: Outputs)
    requires before == Waves(w, defs, wave) && before.Keys <= defs.Keys
    requires WaveEnded(defs, before + WaveResults(w, defs, before), fatal, pending, outputs)
    requires fatal == (set id | id in before + WaveResults(w, defs, before) &&
        Fatal(defs, id, (before + WaveResults(w, defs, before))[id]))
    requires fatal == {} && Ready(GraphOf(defs), before.Keys) != {}
    ensures AtHead(w, defs, wave + 1, pending, outputs) && outputs == before + WaveResults(w, defs, before)
  {
    hide StepResult, Fatal, SkippedFor, DownstreamOfAny, Waves, WaveResults, GraphOf;
    WaveRan(w, defs, wave);
    WaveWithin(w, defs, before);
    forall id | id in outputs ensures !Fatal(defs, id, outputs[id]) {
      assert id !in fatal;
    }
  }

  lemma WaveRan(w: World, defs: Defs, wave: nat)
    requires Ready(GraphOf(defs), Waves(w, defs, wave).Keys) != {}
    ensures Waves(w, defs, wave + 1) == Waves(w, defs, wave) + WaveResults(w, defs, Waves(w, defs, wave))
    ensures Waves(w, defs, wave + 1).Keys != Waves(w, defs, wave).Keys
  {
    hide StepResult, GraphOf;
    ReadyStep(w, defs, wave);
    var id :| id in Ready(GraphOf(defs), Waves(w, defs, wave).Keys);
    assert id in Waves(w, defs, wave + 1).Keys && id !in Waves(w, defs, wave).Keys;
  }

  lemma BadWave(w: World, defs: Defs, wave: nat, pending0: Defs, before: Outputs, ready: seq<StepDef>,
                fatal: set<StepId>,
                pending: Defs, outputs: Outputs, messages: seq<string>)
    requires before == Waves(w, defs, wave) && before.Keys <= defs.Keys && NoneFatal(defs, before) && fatal != {}
    requires IsWave(w, defs, wave, pending0, before, ready)
    requires WaveEnded(defs, before + WaveResults(w, defs, before), fatal, pending, outputs)
    requires fatal == (set id | id in before + WaveResults(w, defs, before) &&
        Fatal(defs, id, (before + WaveResults(w, defs, before))[id]))
    requires messages == FailureMessages(defs, ResultsOf(w, ready, before))
    ensures FailedWave(w, defs, before, pending, outputs, messages)
  {
    hide StepResult, Fatal, SkippedFor, DownstreamOfAny, Waves, WaveResults, GraphOf, Ids, FailureMessages, ResultsOf,
        IsReadyList;
    WaveWithin(w, defs, before);
  }

  lemma WaveWithin(w: World, defs: Defs, before: Outputs)
    requires before.Keys <= defs.Keys
    ensures (before + WaveResults(w, defs, before)).Keys <= defs.Keys
  {
    hide StepResult;
  }

  lemma SmallerPending(p: set<StepId>, rest: set<StepId>, p0: set<StepId>, id: StepId)
    requires p <= rest <= p0 && id in p0 && id !in rest
    ensures |p| < |p0|
  {
    SubsetSize(p, p0 - {id});
  }

  /** Skipping step because it depends on failedId, and then what is downstream of step. */
  lemma SkipAnother(g: Graph<StepId>, failedId: StepId, id: StepId, p0: Defs, o0: Outputs, p1: Defs, o1: Outputs,
                    p2: Defs, o2: Outputs)
    requires Skips(SkipOutput, g, failedId, p0, o0, p1, o1) && Clear(g, p1.Keys, p0.Keys - p1.Keys)
    requires id in p1 && Dep(g, id, failedId) && p0.Keys !! o0.Keys
    requires Skips(SkipOutput, g, id, p1 - {id}, o1[id := SkipOutput(id, failedId)], p2, o2)
    requires Clear(g, p2.Keys, ((p1 - {id}).Keys - p2.Keys) + {id})
    ensures Skips(SkipOutput, g, failedId, p0, o0, p2, o2)
    ensures Clear(g, p2.Keys, p0.Keys - p2.Keys) && p2.Keys <= p1.Keys && id !in p2
  {
    hide SkipOutput, Skips, Clear;
    SkipsCompose(SkipOutput, g, failedId, id, p0, o0, p1, o1, p2, o2);
    SkipsDrops(SkipOutput, g, failedId, p0, o0, p1, o1);
    SkipsDrops(SkipOutput, g, id, p1 - {id}, o1[id := SkipOutput(id, failedId)], p2, o2);
    ClearMore(g, p1.Keys, p2.Keys, p0.Keys - p1.Keys, ((p1 - {id}).Keys - p2.Keys) + {id});
    KeysSplit(p0.Keys, p1.Keys, (p1 - {id}).Keys, p2.Keys, id);
  }

  lemma KeysSplit(p0: set<StepId>, p1: set<StepId>, q: set<StepId>, p2: set<StepId>, id: StepId)
    requires p1 <= p0 && id in p1 && q == p1 - {id} && p2 <= q
    ensures (p0 - p1) + ((q - p2) + {id}) == p0 - p2
  {
  }

  /** None of the first n steps is both pending and directly dependent on f. */
  ghost predicate Scanned(steps: seq<StepDef>, n: nat, p: set<StepId>, f: StepId)
    requires n <= |steps|
  {
    forall j :: 0 <= j < n && steps[j].id in p ==> f !in steps[j].dependsOn
  }

  lemma ScannedStep(steps: seq<StepDef>, n: nat, p: set<StepId>, p2: set<StepId>, f: StepId)
    requires n < |steps| && Scanned(steps, n, p, f) && p2 <= p
    requires steps[n].id in p2 ==> f !in steps[n].dependsOn
    ensures Scanned(steps, n + 1, p2, f)
  {
  }

  lemma ClearOfFailed(defs: Defs, steps: seq<StepDef>, pending: Defs, failedId: StepId)
    requires Indexes(defs, steps) && pending.Keys <= defs.Keys
    requires Scanned(steps, |steps|, pending.Keys, failedId)
    ensures Clear(GraphOf(defs), pending.Keys, {failedId})
  {
    forall x | x in pending ensures !Dep(GraphOf(defs), x, failedId) {
      assert defs[x] in steps;
    }
  }

  lemma NamedDep(defs: Defs, steps: seq<StepDef>, step: StepDef, d: StepId)
    requires Indexes(defs, steps) && step in steps && d in step.dependsOn
    ensures step.id in defs && defs[step.id] == step && Dep(GraphOf(defs), step.id, d)
  {
  }

  lemma RestSmaller(p0: Defs, p1: Defs, p2: Defs, id: StepId)
    requires p1.Keys <= p0.Keys && id in p1 && p2 == p1 - {id}
    ensures |p2.Keys| < |p0.Keys|
  {
    assert p2.Keys == p1.Keys - {id};
    SubsetSize(p1.Keys, p0.Keys);
  }
}
