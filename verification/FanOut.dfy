/** Fanning a step out over several repositories (internal/workflow/dag.go:458-588, 763-813):
    what becomes of the children's results, and the operator's decision on a partial failure. */
module FanOut {
  import opened WorkflowModel

  /** A child's slot in the result list; a goroutine that dies leaves it empty. */
  type Slot = Option<StepOutput>

  predicate IsFailure(r: Slot) {
    r.Some? && r.value.status == Failed
  }

  predicate IsSuccess(r: Slot) {
    r.Some? && r.value.status != Failed
  }

  /** An empty slot counts as a failed child once results are aggregated. */
  function Filled(stepId: StepId, r: Slot): StepOutput {
    match r
    case Some(out) => out
    case None => PlainOutput(stepId, Failed, "fan-out child failed to produce result")
  }

  /** The successful children, in repository order. */
  function Successes(results: seq<Slot>): (kept: seq<Slot>)
    ensures forall r :: r in kept <==> r in results && IsSuccess(r)
  {
    if results == [] then [] else
    var init, last := results[..|results| - 1], results[|results| - 1];
    assert forall r :: r in results <==> r in init || r == last;
    Successes(init) + if IsSuccess(last) then [last] else []
  }

  function FilledAll(stepId: StepId, results: seq<Slot>): seq<StepOutput> {
    seq(|results|, i requires 0 <= i < |results| => Filled(stepId, results[i]))
  }

  /** The errors of the failed children, in repository order. */
  function FailureErrors(outs: seq<StepOutput>): seq<string> {
    if outs == [] then [] else
    var last := outs[|outs| - 1];
    FailureErrors(outs[..|outs| - 1]) + if last.status == Failed && last.error != "" then [last.error] else []
  }

  /** strings.Join with "; " */
  function Joined(parts: seq<string>): string {
    if parts == [] then "" else
    if |parts| == 1 then parts[0] else
    Joined(parts[..|parts| - 1]) + "; " + parts[|parts| - 1]
  }

  /** errs are the error texts of the outputs that failed with one, which are at these positions. */
  ghost predicate ErrorsAt(outs: seq<StepOutput>, at: seq<nat>, errs: seq<string>) {
    && (forall i, j :: 0 <= i < j < |at| ==> at[i] < at[j])
    && (forall i: nat :: i in at <==> i < |outs| && outs[i].status == Failed && outs[i].error != "")
    && |errs| == |at|
    && forall j :: 0 <= j < |at| ==> at[j] < |outs| && errs[j] == outs[at[j]].error
  }

  lemma {:induction false} FailureErrorsExactly(outs: seq<StepOutput>) returns (at: seq<nat>)
    ensures ErrorsAt(outs, at, FailureErrors(outs))
  {
    hide FailureErrors, ErrorsAt;
    at := [];
    if outs == [] {
      NoErrors();
    } else {
      var init, r := outs[..|outs| - 1], outs[|outs| - 1];
      at := FailureErrorsExactly(init);
      assert outs == init + [r];
      AddOutput(init, r);
      ErrorsSnoc(init, r, at, FailureErrors(init));
      assert FailureErrors(init) + [] == FailureErrors(init);
      if r.status == Failed && r.error != "" {
        at := at + [|init|];
      }
    }
  }

  lemma NoErrors()
    ensures ErrorsAt([], [], FailureErrors([]))
  {
  }

  lemma ErrorsSnoc(outs: seq<StepOutput>, r: StepOutput, at: seq<nat>, errs: seq<string>)
    requires ErrorsAt(outs, at, errs)
    ensures if r.status == Failed && r.error != "" then ErrorsAt(outs + [r], at + [|outs|], errs + [r.error])
            else ErrorsAt(outs + [r], at, errs)
  {
  }

  /** Joining puts one separator between neighbours and nothing else. */
  lemma {:induction false} JoinedExactly(a: seq<string>, b: seq<string>)
    ensures Joined([]) == "" && (|a| == 1 ==> Joined(a) == a[0])
    ensures a != [] && b != [] ==> Joined(a + b) == Joined(a) + "; " + Joined(b)
    decreases |b|
  {
    if a != [] && b != [] {
      var init, last := b[..|b| - 1], b[|b| - 1];
      assert (a + b)[..|a + b| - 1] == a + init && (a + b)[|a + b| - 1] == last;
      if init == [] {
        assert a + init == a;
      } else {
        JoinedExactly(a, init);
      }
    }
  }

  predicate AnyFailed(outs: seq<StepOutput>) {
    exists o :: o in outs && o.status == Failed
  }

  function Aggregate(stepId: StepId, results: seq<Slot>): StepOutput {
    if |results| == 1 && results[0].Some? then
      results[0].value.(stepId := stepId)
    else
      var outs := FilledAll(stepId, results);
      PlainOutput(stepId, if AnyFailed(outs) then Failed else Complete, Joined(FailureErrors(outs))).(outputs := outs)
  }

  lemma AddOutput(outs: seq<StepOutput>, r: StepOutput)
    ensures AnyFailed(outs + [r]) <==> AnyFailed(outs) || r.status == Failed
    ensures FailureErrors(outs + [r]) ==
            FailureErrors(outs) + if r.status == Failed && r.error != "" then [r.error] else []
  {
    assert forall o :: o in outs + [r] <==> o in outs || o == r;
    assert (outs + [r])[..|outs|] == outs;
  }

  method AggregateFanOut(stepId: StepId, results: seq<Slot>) returns (agg: StepOutput)
    ensures agg == Aggregate(stepId, results)
  {
    if |results| == 1 && results[0].Some? {
      return results[0].value.(stepId := stepId);
    }
    assert !AnyFailed([]) && FailureErrors([]) == [];
    hide AnyFailed, FailureErrors, Filled;
    var status := Complete;
    var outs: seq<StepOutput> := [];
    var errs: seq<string> := [];
    for i := 0 to |results|
      invariant outs == FilledAll(stepId, results[..i])
      invariant status == if AnyFailed(outs) then Failed else Complete
      invariant errs == FailureErrors(outs)
    {
      var r := Filled(stepId, results[i]);
      assert FilledAll(stepId, results[..i + 1]) == outs + [r];
      AddOutput(outs, r);
      outs := outs + [r];
      if r.status == Failed {
        status := Failed;
        if r.error != "" {
          errs := errs + [r.error];
        }
      }
    }
    assert results[..|results|] == results;
    agg := PlainOutput(stepId, status, Joined(errs)).(outputs := outs);
  }

  /** What the wait for fan_out_resolve ends with. */
  datatype Decision = TimedOut | Answered(action: string)

  /** Some children succeeded and some failed. */
  predicate Partial(results: seq<Slot>) {
    (exists r :: r in results && IsSuccess(r)) && (exists r :: r in results && IsFailure(r))
  }

  function Failures(results: seq<Slot>): nat {
    if results == [] then 0 else
    Failures(results[..|results| - 1]) + if IsFailure(results[|results| - 1]) then 1 else 0
  }

  /** n in decimal */
  function Decimal(n: nat): string {
    (if n < 10 then "" else Decimal(n / 10)) + ["0123456789"[n % 10]]
  }

  function RepoCounts(results: seq<Slot>): string {
    " (" + Decimal(Failures(results)) + "/" + Decimal(|results|) + " repos failed)"
  }

  /** The result of a fanned-out step; decision is consulted only after a partial failure. */
  function Settle(stepId: StepId, results: seq<Slot>, decision: Decision): StepOutput {
    if !Partial(results) then Aggregate(stepId, results)
    else if decision.TimedOut? then
      PlainOutput(stepId, Failed, "fan-out partial failure timed out after 48h waiting for operator decision" +
          RepoCounts(results))
    else if decision.action == "terminate" then
      PlainOutput(stepId, Failed, "operator terminated after partial failure" + RepoCounts(results))
    else Aggregate(stepId, Successes(results))
  }

  /** Without a partial failure, and unless there is one result to pass on, every child is carried in its
      place, a child without a result as a failed one, and the error texts there are make up the error. */
  lemma CarriesAll(stepId: StepId, results: seq<Slot>, decision: Decision) returns (at: seq<nat>, errs: seq<string>)
    requires !Partial(results) && (|results| == 1 ==> results[0].None?)
    ensures var out := Settle(stepId, results, decision);
      && |out.outputs| == |results|
      && (forall j :: 0 <= j < |results| && results[j].Some? ==> out.outputs[j] == results[j].value)
      && (forall j :: 0 <= j < |results| && results[j].None? ==>
            out.outputs[j] == PlainOutput(stepId, Failed, "fan-out child failed to produce result"))
      && ErrorsAt(out.outputs, at, errs) && out.error == Joined(errs)
  {
    hide FailureErrors, Joined, AnyFailed, Failures, Decimal;
    errs := FailureErrors(FilledAll(stepId, results));
    at := FailureErrorsExactly(FilledAll(stepId, results));
  }

  /** How many children failed. */
  lemma {:induction false} FailuresExactly(results: seq<Slot>)
    ensures Failures(results) == |FailedAt(results)|
  {
    if results != [] {
      var init := results[..|results| - 1];
      FailuresExactly(init);
      assert FailedAt(results) == FailedAt(init) + if IsFailure(results[|init|]) then {|init|} else {};
    } else {
      assert FailedAt(results) == {};
    }
  }

  /** The positions of the children that failed. */
  function FailedAt(results: seq<Slot>): set<nat> {
    set i: nat | i < |results| && IsFailure(results[i])
  }

  /** What a numeral stands for. */
  function Value(numeral: string): nat {
    if numeral == "" then 0 else
    10 * Value(numeral[..|numeral| - 1]) +
      (if '0' <= numeral[|numeral| - 1] <= '9' then numeral[|numeral| - 1] as int - '0' as int else 0)
  }

  /** The counts are written as numerals without leading zeros. */
  lemma {:induction false} DecimalExactly(n: nat)
    ensures Value(Decimal(n)) == n && Decimal(n) != "" && (n > 0 ==> Decimal(n)[0] != '0')
    ensures forall c :: c in Decimal(n) ==> '0' <= c <= '9'
  {
    var digit := "0123456789"[n % 10];
    assert digit as int - '0' as int == n % 10;
    if n >= 10 {
      DecimalExactly(n / 10);
      assert Decimal(n)[..|Decimal(n)| - 1] == Decimal(n / 10);
    } else {
      assert Decimal(n) == [digit] && [digit][..0] == "";
    }
  }

  /** A partial failure the operator does not see through says how many of how many failed. */
  lemma PartialFailureText(stepId: StepId, results: seq<Slot>, decision: Decision)
    requires Partial(results)
    ensures var counts := " (" + Decimal(|FailedAt(results)|) + "/" + Decimal(|results|) + " repos failed)";
      var late := "fan-out partial failure timed out after 48h waiting for operator decision" + counts;
      var ended := "operator terminated after partial failure" + counts;
      && (decision.TimedOut? ==> Settle(stepId, results, decision) == PlainOutput(stepId, Failed, late))
      && (decision == Answered("terminate") ==>
            Settle(stepId, results, decision) == PlainOutput(stepId, Failed, ended))
  {
    FailuresExactly(results);
    hide Partial, Failures, Decimal, Aggregate, IsFailure;
  }

  method SuccessResults(results: seq<Slot>) returns (kept: seq<Slot>)
    ensures kept == Successes(results)
  {
    kept := [];
    for i := 0 to |results|
      invariant kept == Successes(results[..i])
    {
      assert results[..i + 1][..i] == results[..i];
      if IsSuccess(results[i]) {
        kept := kept + [results[i]];
      }
    }
    assert results[..|results|] == results;
  }

  method SettleFanOut(stepId: StepId, results: seq<Slot>, decision: Decision) returns (out: StepOutput)
    ensures out == Settle(stepId, results, decision)
  {
    hide Aggregate, Successes, Partial, Failures, Decimal;
    var fanSuccesses, fanFailures := CountResults(results);
    if fanSuccesses > 0 && fanFailures > 0 {
      var counts := " (" + Decimal(fanFailures) + "/" + Decimal(|results|) + " repos failed)";
      if decision.TimedOut? {
        return PlainOutput(stepId, Failed,
            "fan-out partial failure timed out after 48h waiting for operator decision" + counts);
      }
      if decision.action == "terminate" {
        return PlainOutput(stepId, Failed, "operator terminated after partial failure" + counts);
      }
      var successResults := SuccessResults(results);
      out := AggregateFanOut(stepId, successResults);
      return;
    }
    out := AggregateFanOut(stepId, results);
  }

  /** The counts the partial-failure check reads (dag.go:523-532). */
  method CountResults(results: seq<Slot>) returns (fanSuccesses: nat, fanFailures: nat)
    ensures fanSuccesses > 0 && fanFailures > 0 <==> Partial(results)
    ensures fanFailures == Failures(results)
  {
    fanSuccesses, fanFailures := 0, 0;
    for i := 0 to |results|
      invariant fanFailures == Failures(results[..i])
      invariant fanSuccesses > 0 <==> exists j :: 0 <= j < i && IsSuccess(results[j])
      invariant fanFailures > 0 <==> exists j :: 0 <= j < i && IsFailure(results[j])
      invariant fanSuccesses >= 0 && fanFailures >= 0
    {
      assert results[..i + 1][..i] == results[..i];
      if IsFailure(results[i]) {
        fanFailures := fanFailures + 1;
      } else if results[i].Some? {
        fanSuccesses := fanSuccesses + 1;
      }
    }
    assert results[..|results|] == results;
  }

  /** Every child ended Complete or Failed. */
  predicate AllSettled(results: seq<Slot>) {
    forall r :: r in results ==> r.Some? && r.value.status in {Complete, Failed}
  }

  /** The per-repository results an aggregate carries: its outputs list, or the aggregate
      itself when there was only one result to carry. */
  function Carried(out: StepOutput, n: nat): seq<StepOutput> {
    if n == 1 then [out] else out.outputs
  }

  /** With every child Complete or Failed, the aggregate is Complete exactly when no child
      failed, or some but not all did and the operator answered with anything but "terminate". */
  lemma SettledStatus(stepId: StepId, results: seq<Slot>, decision: Decision)
    requires |results| >= 2 && AllSettled(results)
    ensures var out := Settle(stepId, results, decision);
      && out.stepId == stepId
      && out.status in {Complete, Failed}
      && (out.status == Complete <==>
            || (forall r :: r in results ==> !IsFailure(r))
            || (Partial(results) && decision.Answered? && decision.action != "terminate"))
  {
    hide Failures, Decimal;
    if !Partial(results) {
      AggregateStatus(stepId, results);
      assert results[0] in results && results[1] in results;
    } else {
      var r :| r in results && IsSuccess(r);
      assert r in Successes(results);
      AggregateStatus(stepId, Successes(results));
    }
  }

  lemma AggregateStatus(stepId: StepId, results: seq<Slot>)
    requires |results| >= 1 && forall r :: r in results ==> r.Some? && r.value.status in {Complete, Failed}
    ensures Aggregate(stepId, results).stepId == stepId
    ensures Aggregate(stepId, results).status == if exists r :: r in results && IsFailure(r) then Failed else Complete
  {
    var outs := FilledAll(stepId, results);
    if r :| r in results && IsFailure(r) {
      var i :| 0 <= i < |results| && results[i] == r;
      assert outs[i] in outs;
    }
    if AnyFailed(outs) {
      var o :| o in outs && o.status == Failed;
      var i :| 0 <= i < |outs| && outs[i] == o;
      assert results[i] in results && IsFailure(results[i]);
    }
    assert |results| == 1 ==> results[0] in results;
  }

  /** A Complete aggregate carries exactly the successful children's results, in repository
      order, each as its child reported it. */
  lemma CompleteCarriesSuccesses(stepId: StepId, results: seq<Slot>, decision: Decision)
    requires |results| >= 2 && AllSettled(results)
    requires forall r :: r in results ==> r.value.stepId == stepId
    requires Settle(stepId, results, decision).status == Complete
    ensures Carried(Settle(stepId, results, decision), |Successes(results)|) == Values(Successes(results))
  {
    SettledStatus(stepId, results, decision);
    var kept := Successes(results);
    if !Partial(results) {
      AllSucceed(results);
    }
    assert FilledAll(stepId, kept) == Values(kept);
    if |kept| == 1 {
      assert kept[0] in kept;
    }
  }

  lemma {:induction false} AllSucceed(results: seq<Slot>)
    requires forall r :: r in results ==> IsSuccess(r)
    ensures Successes(results) == results
  {
    if results != [] {
      hide IsSuccess;
      var init, last := results[..|results| - 1], results[|results| - 1];
      assert last in results && forall r :: r in init ==> r in results;
      AllSucceed(init);
      assert results == init + [last];
    }
  }

  function Values(results: seq<Slot>): seq<StepOutput>
    requires forall r :: r in results ==> r.Some?
  {
    seq(|results|, i requires 0 <= i < |results| => assert results[i] in results; results[i].value)
  }
}
