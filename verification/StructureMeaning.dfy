/** What the structural check promises, in terms of the steps alone
    (internal/workflow/validate.go:98-189). */
module StructureMeaning {
  import opened WorkflowModel
  import opened DependencyGraph
  import opened StructureValidator

  /** A step has this ID and the ID is well formed. */
  ghost predicate Known(steps: seq<StepDef>, id: StepId) {
    MatchesStepId(id.name) && exists s :: s in steps && s.id == id
  }

  ghost predicate DependsOn(steps: seq<StepDef>, id: StepId, d: StepId) {
    exists s :: s in steps && s.id == id && d in s.dependsOn
  }

  /** Known steps that depend on one another in a circle. */
  ghost predicate Circle(steps: seq<StepDef>, ids: seq<StepId>) {
    && |ids| >= 2 && ids[0] == ids[|ids| - 1]
    && (forall i :: 0 <= i < |ids| ==> Known(steps, ids[i]))
    && forall i :: 0 <= i < |ids| - 1 ==> DependsOn(steps, ids[i], ids[i + 1])
  }

  /** What there has to be for each error. */
  ghost predicate Wrong(steps: seq<StepDef>, e: ValidationError) {
    match e
    case EmptyId => exists s :: s in steps && s.id.name == ""
    case BadId(id) => id.name != "" && !MatchesStepId(id.name) && exists s :: s in steps && s.id == id
    case DuplicateId(id) =>
      id.name != "" && exists i, j :: 0 <= i < j < |steps| && steps[i].id == id && steps[j].id == id
    case UnknownDependency(id, d) => DependsOn(steps, id, d) && !Known(steps, d)
    case CycleDetected => exists ids :: Circle(steps, ids)
    case BothKinds(id) => exists s :: s in steps && s.id == id && s.execution.Some? && s.action.Some?
    case NeitherKind(id) => exists s :: s in steps && s.id == id && s.execution.None? && s.action.None?
  }

  lemma {:induction false} IdErrorsExactly(steps: seq<StepDef>, e: ValidationError)
    ensures e in IdErrors(steps) <==> (e.EmptyId? || e.BadId? || e.DuplicateId?) && Wrong(steps, e)
  {
    if steps != [] {
      hide MatchesStepId;
      var earlier, s := steps[..|steps| - 1], steps[|steps| - 1];
      IdErrorsExactly(earlier, e);
      assert forall x :: x in steps <==> x in earlier || x == s;
      if e.DuplicateId? {
        DuplicateSnoc(steps, e.id);
      }
    }
  }

  lemma DuplicateSnoc(steps: seq<StepDef>, id: StepId)
    requires steps != []
    ensures (exists i, j :: 0 <= i < j < |steps| && steps[i].id == id && steps[j].id == id) <==>
      var earlier, s := steps[..|steps| - 1], steps[|steps| - 1];
      || (exists i, j :: 0 <= i < j < |earlier| && earlier[i].id == id && earlier[j].id == id)
      || (s.id == id && exists x :: x in earlier && x.id == id)
  {
    var earlier, s := steps[..|steps| - 1], steps[|steps| - 1];
    if i, j :| 0 <= i < j < |steps| && steps[i].id == id && steps[j].id == id {
      assert earlier[i] == steps[i] && earlier[i] in earlier;
      assert j < |earlier| ==> earlier[j] == steps[j];
    }
    if i, j :| 0 <= i < j < |earlier| && earlier[i].id == id && earlier[j].id == id {
      assert steps[i] == earlier[i] && steps[j] == earlier[j];
    }
    if s.id == id {
      if x :| x in earlier && x.id == id {
        var i :| 0 <= i < |earlier| && earlier[i] == x;
        assert steps[i] == x && steps[|earlier|] == s;
      }
    }
  }

  lemma {:induction false} UnknownDepsExactly(id: StepId, deps: seq<StepId>, valid: set<StepId>, e: ValidationError)
    ensures e in UnknownDeps(id, deps, valid) <==>
            e.UnknownDependency? && e.id == id && e.dep in deps && e.dep !in valid
  {
    if deps != [] {
      UnknownDepsExactly(id, deps[..|deps| - 1], valid, e);
      assert forall d :: d in deps <==> d in deps[..|deps| - 1] || d == deps[|deps| - 1];
    }
  }

  lemma {:induction false} DependencyErrorsExactly(steps: seq<StepDef>, valid: set<StepId>, e: ValidationError)
    ensures e in DependencyErrors(steps, valid) <==>
            e.UnknownDependency? && DependsOn(steps, e.id, e.dep) && e.dep !in valid
  {
    if steps != [] {
      var earlier, s := steps[..|steps| - 1], steps[|steps| - 1];
      DependencyErrorsExactly(earlier, valid, e);
      UnknownDepsExactly(s.id, s.dependsOn, valid, e);
      assert forall x :: x in steps <==> x in earlier || x == s;
    }
  }

  lemma {:induction false} KindErrorsExactly(steps: seq<StepDef>, e: ValidationError)
    ensures e in KindErrors(steps) <==> (e.BothKinds? || e.NeitherKind?) && Wrong(steps, e)
  {
    if steps != [] {
      var earlier, s := steps[..|steps| - 1], steps[|steps| - 1];
      KindErrorsExactly(earlier, e);
      assert forall x :: x in steps <==> x in earlier || x == s;
    }
  }

  lemma ValidIdsKnown(steps: seq<StepDef>, id: StepId)
    ensures id in ValidIds(steps) <==> Known(steps, id)
  {
  }

  /** The edges Kahn's algorithm counts are the dependencies between known steps. */
  lemma ValidGraphDependsOn(steps: seq<StepDef>, id: StepId, d: StepId)
    ensures Dep(ValidGraph(steps), id, d) <==> Known(steps, id) && Known(steps, d) && DependsOn(steps, id, d)
  {
    ValidIdsKnown(steps, id);
    ValidIdsKnown(steps, d);
    hide ValidIds, Known;
  }

  lemma CycleExactly(steps: seq<StepDef>)
    ensures Acyclic(ValidGraph(steps)) <==> !exists ids :: Circle(steps, ids)
  {
    var g := ValidGraph(steps);
    forall x, d ensures Dep(g, x, d) <==> Known(steps, x) && Known(steps, d) && DependsOn(steps, x, d) {
      ValidGraphDependsOn(steps, x, d);
    }
    hide ValidGraph, Known, DependsOn;
    if ids :| Circle(steps, ids) {
      forall i | 0 <= i < |ids| - 1 ensures Dep(g, ids[i], ids[i + 1]) {
        assert DependsOn(steps, ids[i], ids[i + 1]);
      }
      assert Connects(g, ids, ids[0], ids[0]);
      assert Upstream(g, ids[0], ids[0]);
    }
    if !Acyclic(g) {
      var a :| Upstream(g, a, a);
      var walk :| Connects(g, walk, a, a);
      forall i | 0 <= i < |walk| ensures Known(steps, walk[i]) {
        if i < |walk| - 1 { assert Dep(g, walk[i], walk[i + 1]); } else { assert Dep(g, walk[i - 1], walk[i]); }
      }
      assert Circle(steps, walk);
    }
  }

  /** An error is reported if and only if what it says is wrong with the steps. */
  lemma ErrorsExactly(steps: seq<StepDef>, e: ValidationError)
    ensures e in StructureErrors(steps) <==> Wrong(steps, e)
  {
    IdErrorsExactly(steps, e);
    DependencyErrorsExactly(steps, ValidIds(steps), e);
    KindErrorsExactly(steps, e);
    CycleExactly(steps);
    if e.UnknownDependency? {
      ValidIdsKnown(steps, e.dep);
    }
    var cycle := CycleErrors(ValidGraph(steps));
    assert e in StructureErrors(steps) <==>
      e in IdErrors(steps) || e in DependencyErrors(steps, ValidIds(steps)) || e in cycle || e in KindErrors(steps);
    assert e in cycle <==> e.CycleDetected? && !Acyclic(ValidGraph(steps));
    hide IdErrors, DependencyErrors, KindErrors, ValidIds, ValidGraph, Acyclic, Circle, Known, MatchesStepId, DependsOn,
        CycleErrors, StructureErrors;
  }

  /** IDs first, then dependencies, then the cycle, then kinds. */
  function Rank(e: ValidationError): nat {
    match e
    case EmptyId => 0
    case BadId(_) => 0
    case DuplicateId(_) => 0
    case UnknownDependency(_, _) => 1
    case CycleDetected => 2
    case BothKinds(_) => 3
    case NeitherKind(_) => 3
  }

  lemma ErrorsInOrder(steps: seq<StepDef>, i: nat, j: nat)
    requires i < j < |StructureErrors(steps)|
    ensures Rank(StructureErrors(steps)[i]) <= Rank(StructureErrors(steps)[j])
    ensures StructureErrors(steps)[i].CycleDetected? ==> !StructureErrors(steps)[j].CycleDetected?
  {
    var ids, deps, cycle, kinds := IdErrors(steps), DependencyErrors(steps, ValidIds(steps)),
      CycleErrors(ValidGraph(steps)), KindErrors(steps);
    forall k | 0 <= k < |ids| ensures Rank(ids[k]) == 0 { IdErrorsExactly(steps, ids[k]); }
    forall k | 0 <= k < |deps| ensures Rank(deps[k]) == 1 { DependencyErrorsExactly(steps, ValidIds(steps), deps[k]); }
    forall k | 0 <= k < |kinds| ensures Rank(kinds[k]) == 3 { KindErrorsExactly(steps, kinds[k]); }
    hide IdErrors, DependencyErrors, KindErrors, ValidIds, ValidGraph, Acyclic;
  }
}
