/** What a run of the step workflow does and returns, read off its events alone
    (internal/workflow/step.go:117-505): set-up, gate, continuation, pull request and result. */
module StepOutcomes {
  import opened WorkflowModel
  import opened StepBody
  import opened StepMachine

  // --- the gate --------------------------------------------------------------------------------

  /** Whether an output pauses, read off the attempts before it. */
  lemma PauseExactly(step: StepDef, trace: seq<Event>)
    requires Produced(trace).Some?
    ensures ShouldPause(step, Produced(trace).value) <==>
      || step.approvalPolicy == "always"
      || (step.approvalPolicy == "on_changes" &&
          exists j :: 0 <= j < |trace| && IsAttempt(trace[j]) && trace[j].outcome.value.diff != "")
      || (step.approvalPolicy == "agent" && ReviewWanted(trace))
  {
    DiffEmptyExactly(trace);
    ReviewExactly(trace);
    hide ReviewWanted, Produced;
  }

  lemma PassedEnds(input: StepInput, trace: seq<Event>) returns (a: Event)
    requires Passed(input, trace)
    ensures IsAttempt(a) && Produced(trace).Some?
    ensures EndsWith(trace, [a] + (if input.verifiers then [Verify(a.sandbox, Acked)] else []) +
        (if ShouldPause(input.stepDef, Produced(trace).value) then [SetAwaiting(Acked), Consume(Approve)] else []))
  {
    hide ShouldPause, EndsWith;
    a :| IsAttempt(a) && EndsWith(trace, GatePassage(input, a, Produced(trace).value));
  }

  /** Outside continuations a pull request directly follows an attempt, its verification if configured,
      and an approval: always under "always", under "on_changes" if any attempt so far changed
      something, under "agent" if the last attempt that said so wanted a review; otherwise directly,
      without a pause. */
  lemma PullRequestFollows(input: StepInput, trace: seq<Event>, i: nat) returns (a: Event)
    requires Possible(input, trace) && i < |trace| && trace[i].CreatePR? && !Continued(trace[..i])
    ensures IsAttempt(a)
    ensures var before := trace[..i];
      var checked := [a] + if input.verifiers then [Verify(a.sandbox, Acked)] else [];
      var policy := input.stepDef.approvalPolicy;
      var approved := EndsWith(before, checked + [SetAwaiting(Acked), Consume(Approve)]);
      && (policy == "always" ==> approved)
      && (policy == "on_changes" ==>
            if exists j :: 0 <= j < |before| && IsAttempt(before[j]) && before[j].outcome.value.diff != ""
            then approved else EndsWith(before, checked))
      && (policy == "agent" ==> if ReviewWanted(before) then approved else EndsWith(before, checked))
      && (policy !in {"always", "on_changes", "agent"} ==> EndsWith(before, checked))
  {
    hide After, Continued, EndsWith, ShouldPause, Produced, Passed, ReviewWanted;
    PullRequestNeedsGate(input, trace, i);
    a := PassedEnds(input, trace[..i]);
    PauseExactly(input.stepDef, trace[..i]);
    var checked := [a] + if input.verifiers then [Verify(a.sandbox, Acked)] else [];
    assert checked + [] == checked;
  }

  /** A run is only ever set to await input under one of the three policies that pause, and then for a
      reason; under any other policy no run contains a pause. */
  lemma PausesExactly(input: StepInput, trace: seq<Event>, i: nat)
    requires Possible(input, trace) && i < |trace| && trace[i].SetAwaiting?
    ensures var before, policy := trace[..i], input.stepDef.approvalPolicy;
      || policy == "always"
      || (policy == "on_changes" &&
          exists j :: 0 <= j < |before| && IsAttempt(before[j]) && before[j].outcome.value.diff != "")
      || (policy == "agent" && ReviewWanted(before))
  {
    hide ShouldPause, Produced, ReviewWanted;
    PrefixPossible(input, trace, i);
    PrefixPossible(input, trace, i + 1);
    GateHolds(input, trace[..i]);
    hide After;
    PauseExactly(input.stepDef, trace[..i]);
  }

  // --- set-up and sandbox ----------------------------------------------------------------------

  /** What comes before the first attempt. */
  ghost predicate SetupInvariant(input: StepInput, trace: seq<Event>, s: State) {
    var provisioned := if input.sandboxId == "" then [Provision(Ok(s.sandbox))] else [];
    var known := input.sandboxId != "" ==> s.sandbox == input.sandboxId;
    match s.phase
    case ToProvision => input.sandboxId == "" && trace == []
    case ToPreflight => input.preflight && known && trace == provisioned
    case ToExecute(_, None) =>
      known && trace == provisioned + if input.preflight then [RunPreflight(s.sandbox, Acked)] else []
    case _ => true
  }

  lemma SetupMain(input: StepInput, trace: seq<Event>, s: State, e: Event)
    requires SetupInvariant(input, trace, s) && NextMain(input, s, e).Some?
    ensures SetupInvariant(input, trace + [e], NextMain(input, s, e).value)
  {
    hide Decoded, AfterGate, Finalize, Fail, Steered, Rejection, VerifyFailure, ShouldPause;
  }

  lemma SetupRest(input: StepInput, trace: seq<Event>, s: State, e: Event)
    requires !InMain(s.phase) && Next(input, s, e).Some?
    ensures SetupInvariant(input, trace + [e], Next(input, s, e).value)
  {
    hide AfterGate, AfterPR, Finalize, Fail, AfterContinuation;
  }

  lemma {:induction false} SetupHolds(input: StepInput, trace: seq<Event>)
    requires Possible(input, trace)
    ensures SetupInvariant(input, trace, After(input, trace).value)
  {
    if trace != [] {
      hide SetupInvariant, NextMain, NextContinuation, NextExit;
      var init, e := trace[..|trace| - 1], trace[|trace| - 1];
      assert trace == init + [e];
      SetupHolds(input, init);
      var s := After(input, init).value;
      if InMain(s.phase) {
        SetupMain(input, init, s, e);
      } else {
        SetupRest(input, init, s, e);
      }
    }
  }

  /** Before the first attempt a sandbox is provisioned exactly if none was handed in, and the
      pre-flight is run in it exactly if there is one; then the attempt runs there. */
  lemma SetupExactly(input: StepInput, trace: seq<Event>, i: nat)
    requires Possible(input, trace) && i < |trace| && trace[i].Execute? && Produced(trace[..i]).None?
    ensures trace[..i] == (if input.sandboxId == "" then [Provision(Ok(trace[i].sandbox))] else []) +
                          (if input.preflight then [RunPreflight(trace[i].sandbox, Acked)] else [])
    ensures input.sandboxId != "" ==> trace[i].sandbox == input.sandboxId
  {
    hide Produced;
    PrefixPossible(input, trace, i);
    PrefixPossible(input, trace, i + 1);
    GateHolds(input, trace[..i]);
    SetupHolds(input, trace[..i]);
    hide After;
  }

  // --- the result ------------------------------------------------------------------------------

  /** What an event makes of the output: an attempt's reply is decoded over it, a rejection or a failed
      verification replaces it, so does a continuation, and a pull request leaves its mark. */
  function Shape(input: StepInput, o: Option<StepOutput>, e: Event): Option<StepOutput> {
    match e
    case Execute(_, _, _, Ok(reply)) => Some(Decoded(o, reply))
    case Verify(_, Refused(m)) => Some(PlainOutput(input.stepDef.id, Failed, "verification failed: " + m))
    case Consume(Reject) => Some(PlainOutput(input.stepDef.id, Failed, "rejected by user"))
    case Consume(Cancel) => Some(PlainOutput(input.stepDef.id, Failed, "rejected by user"))
    case ExecuteContinuation(_, _, _, _, Ok(out)) => Some(out)
    case CreatePR(_, Ok(url)) => if o.Some? then Some(o.value.(prUrl := url)) else None
    case CreatePR(_, Err(m)) =>
      if o.Some? then Some(o.value.(error := "step completed but PR creation failed: " + m)) else None
    case _ => o
  }

  function Output(input: StepInput, trace: seq<Event>): Option<StepOutput> {
    if trace == [] then None else Shape(input, Output(input, trace[..|trace| - 1]), trace[|trace| - 1])
  }

  /** What went wrong in an event, if it ends the workflow with an error. */
  function FaultIn(input: StepInput, e: Event): Option<string> {
    match e
    case Provision(Err(m)) => Some("provision sandbox: " + m)
    case RunPreflight(_, Refused(m)) => Some("pre-flight: " + m)
    case Execute(_, _, _, Err(m)) => Some(m)
    case SetAwaiting(Refused(m)) => Some("set step status to awaiting_input: " + m)
    case CreateContinuation(_, Refused(m)) => Some("create continuation step_run: " + m)
    case ProvisionContinuation(Err(m)) => Some("provision continuation sandbox: " + m)
    case ExecuteContinuation(_, _, _, _, Err(m)) => Some("continuation step execution: " + m)
    case ExecuteContinuation(_, _, _, _, Ok(out)) =>
      if out.status != AwaitingInput then None else
      Some("nested request_input is not supported: continuation steps cannot request additional human input")
    case CompleteRun(_, _, _, _, Refused(m)) => Some("finalize step run " + input.stepRunId + ": " + m)
    case _ => None
  }

  /** The first thing that went wrong. */
  function Fault(input: StepInput, trace: seq<Event>): Option<string> {
    if trace == [] then None else
    var earlier := Fault(input, trace[..|trace| - 1]);
    if earlier.Some? then earlier else FaultIn(input, trace[|trace| - 1])
  }

  /** The phase agrees with the output o and the fault f so far. */
  ghost predicate Agrees(input: StepInput, p: Phase, o: Option<StepOutput>, f: Option<string>) {
    match p
    case ToProvision => o == None && f == None
    case ToPreflight => o == None && f == None
    case ToExecute(_, held) => o == held && f == None
    case ToVerify(out, _) => o == Some(out) && f == None
    case ToSetAwaiting(out, _) => o == Some(out) && f == None
    case ToSignal(out, _) => o == Some(out) && f == None
    case ToAnswer(out) => f == None
    case ToContinuation(out, _) => f == None
    case ToProvisionContinuation(out, _) => f == None
    case ToExecuteContinuation(out, _, _) => f == None
    case ToCleanupContinuation(_, _, r) => AgreesContinued(o, f, r)
    case ToCleanupBranch(_, r) => AgreesContinued(o, f, r)
    case ToPR(out) => o == Some(out) && f == None
    case ToCleanup(out) => o == Some(out) && f == None
    case ToFinalize(out) => o == Some(out) && f == None
    case ToMarkFailed(m) => f == Some(m)
    case Done(Returned(out)) => o == Some(out) && f == None
    case Done(Errored(m)) => f == Some(m)
  }

  ghost predicate AgreesContinued(o: Option<StepOutput>, f: Option<string>, r: Reply<StepOutput>) {
    match ContinuationVerdict(r)
    case Ok(out) => o == Some(out) && f == None
    case Err(m) => f == Some(m)
  }

  lemma LeavesAgreeing(input: StepInput, out: StepOutput)
    ensures Agrees(input, Finalize(input, out), Some(out), None)
    ensures Agrees(input, AfterPR(input, out), Some(out), None)
    ensures Agrees(input, AfterGate(input, out), Some(out), None)
  {
  }

  lemma FailsAgreeing(input: StepInput, o: Option<StepOutput>, m: string)
    ensures Agrees(input, Fail(input, m), o, Some(m))
  {
  }

  lemma AttemptAgrees(input: StepInput, out: StepOutput, history: string)
    ensures Agrees(input, AfterVerify(input, out, history), Some(out), None)
    ensures Agrees(input, AfterExecute(input, out, history), Some(out), None)
  {
    hide AfterGate;
    LeavesAgreeing(input, out);
  }

  lemma ContinuationAgrees(input: StepInput, o: Option<StepOutput>, f: Option<string>, r: Reply<StepOutput>)
    requires AgreesContinued(o, f, r)
    ensures Agrees(input, AfterContinuation(input, r), o, f)
  {
    hide AfterGate, Fail, Agrees, ContinuationVerdict;
    match ContinuationVerdict(r)
    case Ok(out) => LeavesAgreeing(input, out);
    case Err(m) => FailsAgreeing(input, o, m);
  }

  function NextFault(input: StepInput, f: Option<string>, e: Event): Option<string> {
    if f.Some? then f else FaultIn(input, e)
  }

  lemma AgreesMain(input: StepInput, s: State, o: Option<StepOutput>, f: Option<string>, e: Event)
    requires Agrees(input, s.phase, o, f) && NextMain(input, s, e).Some?
    ensures Agrees(input, NextMain(input, s, e).value.phase, Shape(input, o, e), NextFault(input, f, e))
  {
    hide AfterGate, AfterExecute, AfterVerify, Finalize, Fail, Decoded, Steered;
    match s.phase
    case ToProvision =>
      if e.result.Err? { FailsAgreeing(input, o, "provision sandbox: " + e.result.message); }
    case ToPreflight =>
      if e.done.Refused? { FailsAgreeing(input, o, "pre-flight: " + e.done.message); }
    case ToExecute(h, held) =>
      if e.outcome.Err? {
        FailsAgreeing(input, o, e.outcome.message);
      } else {
        AttemptAgrees(input, Decoded(held, e.outcome.value), h);
      }
    case ToVerify(out, h) =>
      if e.done.Refused? {
        LeavesAgreeing(input, VerifyFailure(input, e.done.message));
      } else {
        AttemptAgrees(input, out, h);
      }
    case ToSetAwaiting(_, _) =>
      if e.done.Refused? { FailsAgreeing(input, o, "set step status to awaiting_input: " + e.done.message); }
    case ToSignal(out, _) =>
      LeavesAgreeing(input, out);
      LeavesAgreeing(input, Rejection(input));
  }

  lemma RanAgreeing(input: StepInput, o: Option<StepOutput>, e: Event)
    requires e.ExecuteContinuation?
    ensures AgreesContinued(Shape(input, o, e), NextFault(input, None, e), e.outcome)
  {
  }

  lemma AgreesWaiting(input: StepInput, s: State, o: Option<StepOutput>, f: Option<string>, e: Event)
    requires Agrees(input, s.phase, o, f) && NextContinuation(input, s, e).Some?
    ensures Agrees(input, NextContinuation(input, s, e).value.phase, Shape(input, o, e), NextFault(input, f, e))
  {
    hide AfterContinuation, Fail, ContinuationVerdict, AgreesContinued, Decoded, NextMain, NextExit;
    match s.phase
    case ToExecuteContinuation(_, _, _) => RanAgreeing(input, o, e);
    case ToContinuation(_, _) =>
      if e.done.Refused? { FailsAgreeing(input, o, "create continuation step_run: " + e.done.message); }
    case ToProvisionContinuation(_, _) =>
      if e.result.Err? { FailsAgreeing(input, o, "provision continuation sandbox: " + e.result.message); }
    case ToCleanupContinuation(_, _, r) => ContinuationAgrees(input, o, f, r);
    case ToCleanupBranch(_, r) => ContinuationAgrees(input, o, f, r);
    case _ =>
  }

  lemma AgreesExit(input: StepInput, s: State, o: Option<StepOutput>, f: Option<string>, e: Event)
    requires Agrees(input, s.phase, o, f) && NextExit(input, s, e).Some?
    ensures Agrees(input, NextExit(input, s, e).value.phase, Shape(input, o, e), NextFault(input, f, e))
  {
    hide AfterPR, Finalize;
    match s.phase
    case ToPR(out) => LeavesAgreeing(input, Shape(input, o, e).value);
    case ToCleanup(out) => LeavesAgreeing(input, out);
    case _ =>
  }

  lemma {:induction false} AgreementHolds(input: StepInput, trace: seq<Event>)
    requires Possible(input, trace)
    ensures Agrees(input, After(input, trace).value.phase, Output(input, trace), Fault(input, trace))
  {
    if trace == [] {
      StartAgrees(input);
    } else {
      hide Agrees, NextMain, NextContinuation, NextExit, Shape, FaultIn;
      var init, e := trace[..|trace| - 1], trace[|trace| - 1];
      AgreementHolds(input, init);
      var s, o, f := After(input, init).value, Output(input, init), Fault(input, init);
      if InMain(s.phase) {
        AgreesMain(input, s, o, f, e);
      } else if InExit(s.phase) {
        AgreesExit(input, s, o, f, e);
      } else {
        AgreesWaiting(input, s, o, f, e);
      }
    }
  }

  lemma StartAgrees(input: StepInput)
    ensures Agrees(input, Start(input).phase, None, None)
  {
  }

  /** The result of every finished run: the error of the first thing that went wrong, and if nothing did,
      the output its events add up to. */
  lemma ResultExactly(input: StepInput, trace: seq<Event>)
    requires Possible(input, trace) && After(input, trace).value.phase.Done?
    ensures match Fault(input, trace)
            case Some(m) => After(input, trace).value.phase == Done(Errored(m))
            case None =>
              Output(input, trace).Some? &&
              After(input, trace).value.phase == Done(Returned(Output(input, trace).value))
  {
    hide After, Output, Fault;
    AgreementHolds(input, trace);
  }

  // --- the shared output -----------------------------------------------------------------------

  /** The last non-empty value of a field among the attempts of a trace. */
  function LastOf(trace: seq<Event>, field: StepOutput -> string): string {
    if trace == [] then "" else
    var e := trace[|trace| - 1];
    if IsAttempt(e) && field(e.outcome.value) != "" then field(e.outcome.value) else LastOf(trace[..|trace| - 1], field)
  }

  /** What the attempts leave in the output they share: the ID and status of the last one, each text
      field from the last one that set it, and each key from the last one that reported it. */
  lemma {:induction false} SharedOutput(trace: seq<Event>, out: StepOutput)
    requires Produced(trace) == Some(out)
    ensures out.diff == LastOf(trace, (o: StepOutput) => o.diff)
    ensures out.prUrl == LastOf(trace, (o: StepOutput) => o.prUrl)
    ensures out.error == LastOf(trace, (o: StepOutput) => o.error)
    ensures out.inboxItemId == LastOf(trace, (o: StepOutput) => o.inboxItemId)
    ensures out.question == LastOf(trace, (o: StepOutput) => o.question)
    ensures out.checkpointBranch == LastOf(trace, (o: StepOutput) => o.checkpointBranch)
    ensures out.stateArtifactId == LastOf(trace, (o: StepOutput) => o.stateArtifactId)
    ensures exists i: nat :: LastAttempt(trace, i) && Reports(trace[i].outcome.value, out.stepId, out.status)
  {
    var init, e := trace[..|trace| - 1], trace[|trace| - 1];
    if IsAttempt(e) {
      assert LastAttempt(trace, |trace| - 1);
      if Produced(init).Some? {
        SharedOutput(init, Produced(init).value);
      } else {
        NothingBefore(init);
      }
    } else {
      SharedOutput(init, out);
      var i: nat :| LastAttempt(init, i) && Reports(init[i].outcome.value, out.stepId, out.status);
      assert trace[i] == init[i] && LastAttempt(trace, i);
    }
  }

  predicate Reports(reply: StepOutput, id: StepId, status: Status) {
    reply.stepId == id && reply.status == status
  }

  /** The value of a key in the last attempt that reported it. */
  function LastKey(trace: seq<Event>, key: string): Option<Json> {
    if trace == [] then None else
    var e := trace[|trace| - 1];
    if IsAttempt(e) && key in e.outcome.value.output then Some(e.outcome.value.output[key])
    else LastKey(trace[..|trace| - 1], key)
  }

  lemma {:induction false} SharedKeys(trace: seq<Event>, key: string)
    ensures LastKey(trace, key) ==
      if Produced(trace).Some? && key in Produced(trace).value.output then Some(Produced(trace).value.output[key])
          else None
  {
    if trace != [] {
      SharedKeys(trace[..|trace| - 1], key);
    }
  }

  predicate LastAttempt(trace: seq<Event>, i: nat) {
    i < |trace| && IsAttempt(trace[i]) && forall j :: i < j < |trace| ==> !IsAttempt(trace[j])
  }

  lemma {:induction false} NothingBefore(trace: seq<Event>)
    requires Produced(trace).None?
    ensures forall field: StepOutput -> string :: LastOf(trace, field) == ""
  {
    if trace != [] {
      NothingBefore(trace[..|trace| - 1]);
    }
  }

  // --- the pull request ------------------------------------------------------------------------

  /** With prs pull requests and this many setbacks so far. */
  ghost predicate RequestInvariant(input: StepInput, p: Phase, prs: nat, setbacks: nat) {
    var wanted := if input.stepDef.mode == "transform" && input.stepDef.pullRequest then 1 else 0;
    if Closing(p) then prs == if setbacks == 0 then wanted else 0
    else if p.ToCleanup? then setbacks == 0 && prs == wanted
    else if p.ToCleanupContinuation? || p.ToCleanupBranch? then prs == 0 && (setbacks == 0 <==> GoodSoFar(p.continued))
    else prs == 0 && setbacks == 0 && (p.ToPR? ==> wanted == 1)
  }

  lemma LeavesRequesting(input: StepInput, out: StepOutput)
    ensures RequestInvariant(input, AfterGate(input, out), 0, 0)
  {
  }

  lemma ClosesEarly(input: StepInput, out: StepOutput, m: string, setbacks: nat)
    requires setbacks > 0
    ensures RequestInvariant(input, Finalize(input, out), 0, setbacks) &&
        RequestInvariant(input, Fail(input, m), 0, setbacks)
  {
  }

  lemma RequestMain(input: StepInput, s: State, prs: nat, setbacks: nat, e: Event)
    requires RequestInvariant(input, s.phase, prs, setbacks) && NextMain(input, s, e).Some?
    ensures RequestInvariant(input, NextMain(input, s, e).value.phase, prs + (if e.CreatePR? then 1 else 0),
                             setbacks + (if Aborts(e) || BadContinuation(e) then 1 else 0))
  {
    hide AfterGate, Finalize, Fail, Decoded, Steered, Rejection, VerifyFailure, ShouldPause;
    forall out, m { ClosesEarly(input, out, m, 1); }
    forall out { LeavesRequesting(input, out); }
  }

  lemma RequestWaiting(input: StepInput, s: State, prs: nat, setbacks: nat, e: Event)
    requires RequestInvariant(input, s.phase, prs, setbacks) && NextContinuation(input, s, e).Some?
    ensures RequestInvariant(input, NextContinuation(input, s, e).value.phase, prs + (if e.CreatePR? then 1 else 0),
                             setbacks + (if Aborts(e) || BadContinuation(e) then 1 else 0))
  {
    hide AfterGate, Finalize, Fail, ContinuationVerdict;
    forall out, m, n: nat | n > 0 { ClosesEarly(input, out, m, n); }
    forall out { LeavesRequesting(input, out); }
  }

  lemma RequestExit(input: StepInput, s: State, prs: nat, setbacks: nat, e: Event)
    requires RequestInvariant(input, s.phase, prs, setbacks) && NextExit(input, s, e).Some?
    ensures RequestInvariant(input, NextExit(input, s, e).value.phase, prs + (if e.CreatePR? then 1 else 0),
                             setbacks + (if Aborts(e) || BadContinuation(e) then 1 else 0))
  {
  }

  lemma {:induction false} RequestsHold(input: StepInput, trace: seq<Event>)
    requires Possible(input, trace)
    ensures RequestInvariant(input, After(input, trace).value.phase, PullRequests(trace), Setbacks(trace))
  {
    if trace != [] {
      hide RequestInvariant, NextMain, NextContinuation, NextExit, Aborts, BadContinuation;
      var init, e := trace[..|trace| - 1], trace[|trace| - 1];
      RequestsHold(input, init);
      var s := After(input, init).value;
      if InMain(s.phase) {
        RequestMain(input, s, PullRequests(init), Setbacks(init), e);
      } else if InExit(s.phase) {
        RequestExit(input, s, PullRequests(init), Setbacks(init), e);
      } else {
        RequestWaiting(input, s, PullRequests(init), Setbacks(init), e);
      }
    }
  }

  /** A finished run has attempted one pull request if the step transforms and asks for one and nothing
      went wrong on the way, and none otherwise. */
  lemma PullRequestExactly(input: StepInput, trace: seq<Event>)
    requires Possible(input, trace) && After(input, trace).value.phase.Done?
    ensures PullRequests(trace) ==
      if input.stepDef.mode == "transform" && input.stepDef.pullRequest && Setbacks(trace) == 0 then 1 else 0
  {
    RequestsHold(input, trace);
  }

  lemma Continues(input: StepInput, s: State) returns (e: Event)
    requires !s.phase.Done?
    ensures Next(input, s, e).Some?
  {
    hide AfterGate, AfterPR, Finalize, Fail, AfterContinuation, AfterExecute, AfterVerify, AfterSandbox, Steered,
        Decoded;
    match s.phase {
      case ToProvision => e := Provision(Ok(""));
      case ToPreflight => e := RunPreflight(s.sandbox, Acked);
      case ToExecute(h, _) => e := Execute(s.sandbox, input.prompt, h, Err(""));
      case ToVerify(_, _) => e := Verify(s.sandbox, Acked);
      case ToSetAwaiting(_, _) => e := SetAwaiting(Acked);
      case ToSignal(_, _) => e := Consume(Approve);
      case ToAnswer(_) => e := Answer("");
      case ToContinuation(out, _) => e := CreateContinuation(out.checkpointBranch, Acked);
      case ToProvisionContinuation(_, _) => e := ProvisionContinuation(Ok(""));
      case ToExecuteContinuation(out, t, sandbox) => e := ExecuteContinuation(sandbox, input.prompt, out.question, t,
          Err(""));
      case ToCleanupContinuation(_, sandbox, _) => e := CleanupContinuation(sandbox);
      case ToCleanupBranch(out, _) => e := CleanupBranch(out.checkpointBranch);
      case ToPR(_) => e := CreatePR(s.sandbox, Ok(""));
      case ToCleanup(_) => e := Cleanup(s.sandbox);
      case ToFinalize(out) => e := CompleteRun(out.status, out.output, out.diff, out.error, Acked);
      case ToMarkFailed(m) => e := CompleteRun(Failed, map[], "", m, Acked);
    }
  }

  /** No run gets stuck: until it is done there is something it does next, whatever it has done. */
  lemma NeverStuck(input: StepInput, trace: seq<Event>) returns (e: Event)
    requires Possible(input, trace) && !After(input, trace).value.phase.Done?
    ensures Possible(input, trace + [e])
  {
    e := Continues(input, After(input, trace).value);
    AfterSnoc(input, trace, e);
  }

  // --- the sandbox -----------------------------------------------------------------------------

  /** The sandbox an event works in, if it works in the step's own. */
  function SandboxOf(e: Event): Option<string> {
    match e
    case RunPreflight(sandbox, _) => Some(sandbox)
    case Execute(sandbox, _, _, _) => Some(sandbox)
    case Verify(sandbox, _) => Some(sandbox)
    case CreatePR(sandbox, _) => Some(sandbox)
    case Cleanup(sandbox) => Some(sandbox)
    case _ => None
  }

  ghost predicate InSandbox(trace: seq<Event>, s: State) {
    forall i :: 0 <= i < |trace| && SandboxOf(trace[i]).Some? ==>
        !s.phase.ToProvision? && SandboxOf(trace[i]) == Some(s.sandbox)
  }

  lemma SandboxStep(input: StepInput, s: State, e: Event)
    requires Next(input, s, e).Some?
    ensures SandboxOf(e).Some? ==> SandboxOf(e) == Some(s.sandbox)
    ensures !Next(input, s, e).value.phase.ToProvision?
    ensures !s.phase.ToProvision? ==> Next(input, s, e).value.sandbox == s.sandbox
    ensures s.phase.ToProvision? ==> SandboxOf(e).None?
  {
    hide AfterGate, AfterPR, Finalize, Fail, Decoded, Steered, Rejection, VerifyFailure, ContinuationVerdict;
  }

  /** Pre-flight, attempts, verifications, pull request and clean-up all happen in one sandbox. */
  lemma {:induction false} OneSandbox(input: StepInput, trace: seq<Event>)
    requires Possible(input, trace)
    ensures InSandbox(trace, After(input, trace).value)
  {
    if trace != [] {
      hide Next, SandboxOf;
      var init, e := trace[..|trace| - 1], trace[|trace| - 1];
      OneSandbox(input, init);
      SandboxStep(input, After(input, init).value, e);
      assert trace == init + [e];
      forall i | 0 <= i < |trace| && SandboxOf(trace[i]).Some?
        ensures SandboxOf(trace[i]) == Some(After(input, trace).value.sandbox) {
        assert i < |init| ==> trace[i] == init[i];
      }
    }
  }

  // --- the continuation ------------------------------------------------------------------------

  /** What has happened since the attempt that asked a question. */
  ghost predicate AskedInvariant(trace: seq<Event>, s: State) {
    match s.phase
    case ToAnswer(out) => Asked(trace, s.sandbox, out, [])
    case ToContinuation(out, t) => Asked(trace, s.sandbox, out, [Answer(t)])
    case ToProvisionContinuation(out, t) => Asked(trace, s.sandbox, out,
        [Answer(t), CreateContinuation(out.checkpointBranch, Acked)])
    case ToExecuteContinuation(out, t, sandbox) =>
      Asked(trace, s.sandbox, out,
            [Answer(t), CreateContinuation(out.checkpointBranch, Acked), ProvisionContinuation(Ok(sandbox))])
    case _ => true
  }

  ghost predicate Asked(trace: seq<Event>, sandbox: string, out: StepOutput, tail: seq<Event>) {
    Produced(trace) == Some(out) && out.status == AwaitingInput && AttemptEnds(trace, sandbox, tail)
  }

  lemma AskedGoesOn(trace: seq<Event>, sandbox: string, out: StepOutput, tail: seq<Event>, e: Event, longer: seq<Event>)
    requires Asked(trace, sandbox, out, tail) && !IsAttempt(e) && longer == tail + [e]
    ensures Asked(trace + [e], sandbox, out, longer)
  {
    hide AttemptEnds, Produced;
    ProducedSnoc(trace, e);
    AttemptGoesOn(trace, sandbox, tail, e);
  }

  lemma AskedMain(input: StepInput, trace: seq<Event>, s: State, e: Event)
    requires InMain(s.phase) && GateInvariant(input, trace, s) && NextMain(input, s, e).Some?
    ensures AskedInvariant(trace + [e], NextMain(input, s, e).value)
  {
    hide AttemptEnds, Passed, ShouldPause, Fail, Finalize, AfterGate, Decoded, Produced, Steered, Rejection,
        VerifyFailure;
    ProducedSnoc(trace, e);
    if s.phase.ToExecute? && IsAttempt(e) {
      AttemptBegins(trace, e);
    }
  }

  lemma AskedWaiting(input: StepInput, trace: seq<Event>, s: State, e: Event)
    requires AskedInvariant(trace, s) && NextContinuation(input, s, e).Some?
    ensures AskedInvariant(trace + [e], NextContinuation(input, s, e).value)
  {
    hide Asked, AfterContinuation, Fail;
    match s.phase
    case ToAnswer(out) => AskedGoesOn(trace, s.sandbox, out, [], e, [e]);
    case ToContinuation(out, t) => AskedGoesOn(trace, s.sandbox, out, [Answer(t)], e, [Answer(t), e]);
    case ToProvisionContinuation(out, t) =>
      var created := CreateContinuation(out.checkpointBranch, Acked);
      AskedGoesOn(trace, s.sandbox, out, [Answer(t), created], e, [Answer(t), created, e]);
    case _ =>
  }

  lemma AskedExit(input: StepInput, trace: seq<Event>, s: State, e: Event)
    requires NextExit(input, s, e).Some?
    ensures AskedInvariant(trace + [e], NextExit(input, s, e).value)
  {
    hide Asked;
  }

  lemma {:induction false} AskedHolds(input: StepInput, trace: seq<Event>)
    requires Possible(input, trace)
    ensures AskedInvariant(trace, After(input, trace).value)
  {
    if trace != [] {
      hide AskedInvariant, GateInvariant, NextMain, NextContinuation, NextExit;
      var init, e := trace[..|trace| - 1], trace[|trace| - 1];
      assert trace == init + [e];
      AskedHolds(input, init);
      GateHolds(input, init);
      var s := After(input, init).value;
      if InMain(s.phase) {
        AskedMain(input, init, s, e);
      } else if InExit(s.phase) {
        AskedExit(input, init, s, e);
      } else {
        AskedWaiting(input, init, s, e);
      }
    } else {
      StartNotAsked(input);
    }
  }

  lemma StartNotAsked(input: StepInput)
    ensures AskedInvariant([], Start(input))
  {
  }

  /** Coming back from a continuation: its sandbox is cleaned, then the checkpoint branch if there is one
      and a repository. */
  lemma CleansUp(input: StepInput, s: State, e: Event, next: Event, last: Event)
    requires s.phase.ToExecuteContinuation? && Next(input, s, e).Some?
    ensures var t := Next(input, s, e).value;
      && (Next(input, t, next).Some? ==> next == CleanupContinuation(e.sandbox))
      && (Next(input, t, next).Some? && Next(input, Next(input, t, next).value, last).Some? ==>
            (last.CleanupBranch? <==> s.phase.out.checkpointBranch != "" && input.repos) &&
            (last.CleanupBranch? ==> last.branch == s.phase.out.checkpointBranch))
  {
    hide AfterGate, Finalize, Fail, ContinuationVerdict, NextMain;
  }

  /** A continuation runs directly after an attempt that asked for input, the answer, its record and a
      sandbox of its own, with the original prompt, the question and the answer. */
  lemma ContinuationFollows(input: StepInput, trace: seq<Event>, i: nat) returns (a: Event)
    requires Possible(input, trace) && i < |trace| && trace[i].ExecuteContinuation?
    ensures IsAttempt(a) && Produced(trace[..i]).Some? && Produced(trace[..i]).value.status == AwaitingInput
    ensures var e, out := trace[i], Produced(trace[..i]).value;
      && e.prompt == input.prompt && e.question == out.question
      && EndsWith(trace[..i], [a] + [Answer(e.text), CreateContinuation(out.checkpointBranch, Acked),
                                     ProvisionContinuation(Ok(e.sandbox))])
  {
    hide After, EndsWith, Produced;
    PrefixPossible(input, trace, i);
    PrefixPossible(input, trace, i + 1);
    AskedHolds(input, trace[..i]);
    var s := After(input, trace[..i]).value;
    var tail := [Answer(trace[i].text), CreateContinuation(s.phase.out.checkpointBranch, Acked),
                 ProvisionContinuation(Ok(trace[i].sandbox))];
    assert AttemptEnds(trace[..i], s.sandbox, tail);
    a :| IsAttempt(a) && a.sandbox == s.sandbox && EndsWith(trace[..i], [a] + tail);
  }

  /** What follows a continuation is the clean-up of its sandbox, and then of the checkpoint branch of the
      attempt that asked, exactly if there is one and a repository. */
  lemma ContinuationTidied(input: StepInput, trace: seq<Event>, i: nat)
    requires Possible(input, trace) && i < |trace| && trace[i].ExecuteContinuation?
    ensures i + 1 < |trace| ==> trace[i + 1] == CleanupContinuation(trace[i].sandbox)
    ensures i + 2 < |trace| && Produced(trace[..i]).Some? ==>
      var branch := Produced(trace[..i]).value.checkpointBranch;
      && (trace[i + 2].CleanupBranch? <==> branch != "" && input.repos)
      && (trace[i + 2].CleanupBranch? ==> trace[i + 2].branch == branch)
  {
    hide After, Next, Produced, AttemptEnds;
    PrefixPossible(input, trace, i);
    PrefixPossible(input, trace, i + 1);
    AskedHolds(input, trace[..i]);
    var s := After(input, trace[..i]).value;
    OnlyThere(input, s, trace[i]);
    if i + 1 < |trace| {
      PrefixPossible(input, trace, i + 2);
      CleansUp(input, s, trace[i], trace[i + 1], trace[i + 1]);
    }
    if i + 2 < |trace| {
      PrefixPossible(input, trace, i + 3);
      CleansUp(input, s, trace[i], trace[i + 1], trace[i + 2]);
    }
  }

  lemma OnlyThere(input: StepInput, s: State, e: Event)
    requires e.ExecuteContinuation? && Next(input, s, e).Some?
    ensures s.phase.ToExecuteContinuation?
  {
  }
}
