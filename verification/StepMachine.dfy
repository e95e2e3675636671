/** StepWorkflow as a transition system over its activity calls and the signals it consumes
    (internal/workflow/step.go:117-505), and what holds on every run of it. */
module StepMachine {
  import opened WorkflowModel
  import opened StepBody

  datatype StepInput = StepInput(
    stepRunId: string,
    stepDef: StepDef,
    prompt: string,
    sandboxId: string,
    verifiers: bool,
    preflight: bool,      // an effective profile or eval plugins
    repos: bool)          // at least one repository

  /** The reply of an activity whose result is not used. */
  datatype Ack = Acked | Refused(message: string)

  datatype Signal = Approve | Reject | Steer(instruction: string) | Cancel

  /** One activity call with its reply, or one consumed signal. */
  datatype Event =
    | Provision(result: Reply<string>)
    | RunPreflight(sandbox: string, done: Ack)
    | Execute(sandbox: string, prompt: string, history: string, outcome: Reply<StepOutput>)
    | Verify(sandbox: string, done: Ack)
    | SetAwaiting(done: Ack)
    | Consume(signal: Signal)
    | Answer(text: string)
    | CreateContinuation(checkpointBranch: string, done: Ack)
    | ProvisionContinuation(result: Reply<string>)
    | ExecuteContinuation(sandbox: string, prompt: string, question: string, text: string, outcome: Reply<StepOutput>)
    | CleanupContinuation(sandbox: string)
    | CleanupBranch(branch: string)
    | CreatePR(sandbox: string, result: Reply<string>)
    | Cleanup(sandbox: string)
    | CompleteRun(status: Status, output: map<string, Json>, diff: string, error: string, done: Ack)

  datatype Result = Returned(out: StepOutput) | Errored(message: string)

  /** What the workflow is about to do. */
  datatype Phase =
    | ToProvision
    | ToPreflight
    | ToExecute(history: string, held: Option<StepOutput>)   // held: what output points to
    | ToVerify(out: StepOutput, history: string)
    | ToSetAwaiting(out: StepOutput, history: string)
    | ToSignal(out: StepOutput, history: string)
    | ToAnswer(out: StepOutput)
    | ToContinuation(out: StepOutput, text: string)
    | ToProvisionContinuation(out: StepOutput, text: string)
    | ToExecuteContinuation(out: StepOutput, text: string, newSandbox: string)
    | ToCleanupContinuation(out: StepOutput, newSandbox: string, continued: Reply<StepOutput>)
    | ToCleanupBranch(out: StepOutput, continued: Reply<StepOutput>)
    | ToPR(out: StepOutput)
    | ToCleanup(out: StepOutput)
    | ToFinalize(out: StepOutput)
    | ToMarkFailed(message: string)
    | Done(result: Result)

  datatype State = State(phase: Phase, sandbox: string)

  /** An attempt's reply decoded over what output already points to: step.go:201-223 reuses one
      pointer, and decoding JSON into it keeps every field the reply leaves out, as the omitempty
      fields do when they are empty (internal/model/step.go:57-73), and adds to the output map. */
  function Decoded(held: Option<StepOutput>, reply: StepOutput): StepOutput {
    match held
    case None => reply
    case Some(before) =>
      StepOutput(
        reply.stepId,
        reply.status,
        before.output + reply.output,
        Kept(before.diff, reply.diff),
        Kept(before.prUrl, reply.prUrl),
        if reply.outputs == [] then before.outputs else reply.outputs,
        Kept(before.error, reply.error),
        Kept(before.inboxItemId, reply.inboxItemId),
        Kept(before.question, reply.question),
        Kept(before.checkpointBranch, reply.checkpointBranch),
        Kept(before.stateArtifactId, reply.stateArtifactId))
  }

  function Kept(before: string, reply: string): string {
    if reply == "" then before else reply
  }

  /** shouldPause */
  predicate ShouldPause(step: StepDef, out: StepOutput) {
    if step.approvalPolicy == "always" then true
    else if step.approvalPolicy == "agent" then "needs_review" in out.output && out.output["needs_review"] == Bool(true)
    else step.approvalPolicy == "on_changes" && out.diff != ""
  }

  function Steered(history: string, diff: string, instruction: string): string {
    history + "\n\nPrevious attempt output:\n" + diff + "\n\nSteering instruction:\n" + instruction
  }

  function Rejection(input: StepInput): StepOutput {
    PlainOutput(input.stepDef.id, Failed, "rejected by user")
  }

  function VerifyFailure(input: StepInput, m: string): StepOutput {
    PlainOutput(input.stepDef.id, Failed, "verification failed: " + m)
  }

  // --- transitions -------------------------------------------------------------------

  function Start(input: StepInput): State {
    if input.sandboxId != "" then State(AfterSandbox(input), input.sandboxId) else State(ToProvision, "")
  }

  function AfterSandbox(input: StepInput): (p: Phase)
    ensures p == ToPreflight || p == ToExecute("", None)
  {
    if input.preflight then ToPreflight else ToExecute("", None)
  }

  function AfterExecute(input: StepInput, out: StepOutput, history: string): (p: Phase)
    ensures p == ToAnswer(out) || p == ToVerify(out, history) || p == ToSetAwaiting(out, history) || Leaving(input, p)
    ensures p.ToPR? ==> p.out == out
  {
    if out.status == AwaitingInput then ToAnswer(out)
    else if input.verifiers then ToVerify(out, history)
    else AfterVerify(input, out, history)
  }

  function AfterVerify(input: StepInput, out: StepOutput, history: string): (p: Phase)
    ensures p == ToSetAwaiting(out, history) || Leaving(input, p)
    ensures p.ToPR? ==> p.out == out
  {
    if ShouldPause(input.stepDef, out) then ToSetAwaiting(out, history) else AfterGate(input, out)
  }

  /** What the continuation counts as. */
  function ContinuationVerdict(continued: Reply<StepOutput>): (r: Reply<StepOutput>)
    ensures r.Ok? <==> continued.Ok? && continued.value.status != AwaitingInput
    ensures r.Ok? ==> r == continued
  {
    match continued
    case Err(m) => Err("continuation step execution: " + m)
    case Ok(out) =>
      if out.status == AwaitingInput then
        Err("nested request_input is not supported: continuation steps cannot request additional human input")
      else continued
  }

  function AfterContinuation(input: StepInput, continued: Reply<StepOutput>): (p: Phase)
    ensures if continued.Ok? && continued.value.status != AwaitingInput then Leaving(input, p) else Ending(input, p)
  {
    match ContinuationVerdict(continued)
    case Err(m) => Fail(input, m)
    case Ok(out) => AfterGate(input, out)
  }

  /** Where a run goes once its output has passed the gate. */
  predicate Leaving(input: StepInput, p: Phase) {
    || (p.ToPR? && input.stepDef.mode == "transform" && input.stepDef.pullRequest)
    || (p.ToCleanup? && Ungrouped(input))
    || (!Ungrouped(input) && Ending(input, p))
  }

  /** Only the write to the record is left, if there is a record. */
  predicate Ending(input: StepInput, p: Phase) {
    if input.stepRunId == "" then p.Done? else p.ToFinalize? || p.ToMarkFailed?
  }

  /** The workflow provisions a sandbox of its own and has to clean it up. */
  predicate Ungrouped(input: StepInput) {
    input.stepDef.sandboxGroup == "" && input.sandboxId == ""
  }

  function AfterGate(input: StepInput, out: StepOutput): (p: Phase)
    ensures Leaving(input, p) && (p.ToPR? ==> p.out == out)
  {
    if input.stepDef.mode == "transform" && input.stepDef.pullRequest then ToPR(out) else AfterPR(input, out)
  }

  function AfterPR(input: StepInput, out: StepOutput): (p: Phase)
    ensures Leaving(input, p) && !p.ToPR?
  {
    if Ungrouped(input) then ToCleanup(out) else Finalize(input, out)
  }

  function Finalize(input: StepInput, out: StepOutput): (p: Phase)
    ensures Ending(input, p) && (p.Done? ==> p.result == Returned(out))
  {
    if input.stepRunId == "" then Done(Returned(out)) else ToFinalize(out)
  }

  /** An error returned before finalizing, on its way to the deferred writer. */
  function Fail(input: StepInput, m: string): (p: Phase)
    ensures Ending(input, p) && !p.ToFinalize?
  {
    if input.stepRunId == "" then Done(Errored(m)) else ToMarkFailed(m)
  }

  predicate InMain(p: Phase) {
    p.ToProvision? || p.ToPreflight? || p.ToExecute? || p.ToVerify? || p.ToSetAwaiting? || p.ToSignal?
  }

  predicate InExit(p: Phase) {
    p.ToPR? || p.ToCleanup? || p.ToFinalize? || p.ToMarkFailed? || p.Done?
  }

  /** Provisioning and the execute, verify, pause, signal loop (step.go:150-229, 348-429). */
  function NextMain(input: StepInput, s: State, e: Event): Option<State> {
    match s.phase
    case ToProvision =>
      if !e.Provision? then None else
      (match e.result case Err(m) => Some(s.(phase := Fail(input, "provision sandbox: " + m)))
                      case Ok(id) => Some(State(AfterSandbox(input), id)))
    case ToPreflight =>
      if !e.RunPreflight? || e.sandbox != s.sandbox then None else
      (match e.done case Refused(m) => Some(s.(phase := Fail(input, "pre-flight: " + m)))
                    case Acked => Some(s.(phase := ToExecute("", None))))
    case ToExecute(h, held) =>
      if !e.Execute? || e.sandbox != s.sandbox || e.prompt != input.prompt || e.history != h then None else
      (match e.outcome case Err(m) => Some(s.(phase := Fail(input, m)))
                       case Ok(reply) => Some(s.(phase := AfterExecute(input, Decoded(held, reply), h))))
    case ToVerify(out, h) =>
      if !e.Verify? || e.sandbox != s.sandbox then None else
      (match e.done case Refused(m) => Some(s.(phase := Finalize(input, VerifyFailure(input, m))))
                    case Acked => Some(s.(phase := AfterVerify(input, out, h))))
    case ToSetAwaiting(out, h) =>
      if !e.SetAwaiting? then None else
      (match e.done case Refused(m) => Some(s.(phase := Fail(input, "set step status to awaiting_input: " + m)))
                    case Acked => Some(s.(phase := ToSignal(out, h))))
    case ToSignal(out, h) =>
      if !e.Consume? then None else
      (match e.signal case Approve => Some(s.(phase := AfterGate(input, out)))
                      case Reject => Some(s.(phase := Finalize(input, Rejection(input))))
                      case Cancel => Some(s.(phase := Finalize(input, Rejection(input))))
                      case Steer(p) => Some(s.(phase := ToExecute(Steered(h, out.diff, p), Some(out)))))
    case _ => None
  }

  /** Waiting for a human answer and the one continuation (step.go:230-346). */
  function NextContinuation(input: StepInput, s: State, e: Event): Option<State> {
    match s.phase
    case ToAnswer(out) =>
      if !e.Answer? then None else Some(s.(phase := ToContinuation(out, e.text)))
    case ToContinuation(out, t) =>
      if !e.CreateContinuation? || e.checkpointBranch != out.checkpointBranch then None else
      (match e.done case Refused(m) => Some(s.(phase := Fail(input, "create continuation step_run: " + m)))
                    case Acked => Some(s.(phase := ToProvisionContinuation(out, t))))
    case ToProvisionContinuation(out, t) =>
      if !e.ProvisionContinuation? then None else
      (match e.result case Err(m) => Some(s.(phase := Fail(input, "provision continuation sandbox: " + m)))
                      case Ok(id) => Some(s.(phase := ToExecuteContinuation(out, t, id))))
    case ToExecuteContinuation(out, t, newSandbox) =>
      if !e.ExecuteContinuation? || e.sandbox != newSandbox || e.prompt != input.prompt ||
          e.question != out.question || e.text != t then None
      else Some(s.(phase := ToCleanupContinuation(out, newSandbox, e.outcome)))
    case ToCleanupContinuation(out, newSandbox, r) =>
      if !e.CleanupContinuation? || e.sandbox != newSandbox then None
      else Some(s.(phase := if out.checkpointBranch != "" && input.repos then ToCleanupBranch(out, r)
          else AfterContinuation(input, r)))
    case ToCleanupBranch(out, r) =>
      if !e.CleanupBranch? || e.branch != out.checkpointBranch then None
          else Some(s.(phase := AfterContinuation(input, r)))
    case _ => None
  }

  /** Pull request, cleanup, and the write to the step_run record (step.go:131-148, 431-468). */
  function NextExit(input: StepInput, s: State, e: Event): Option<State> {
    match s.phase
    case ToPR(out) =>
      if !e.CreatePR? || e.sandbox != s.sandbox then None else
      (match e.result case Err(m) => Some(s.(phase := AfterPR(input,
          out.(error := "step completed but PR creation failed: " + m))))
                      case Ok(url) => Some(s.(phase := AfterPR(input, out.(prUrl := url)))))
    case ToCleanup(out) =>
      if !e.Cleanup? || e.sandbox != s.sandbox then None else Some(s.(phase := Finalize(input, out)))
    case ToFinalize(out) =>
      if !e.CompleteRun? || e != CompleteRun(out.status, out.output, out.diff, out.error, e.done) then None else
      (match e.done case Refused(m) => Some(s.(phase := Done(Errored("finalize step run " + input.stepRunId + ": " +
          m))))
                    case Acked => Some(s.(phase := Done(Returned(out)))))
    case ToMarkFailed(m) =>
      if !e.CompleteRun? || e != CompleteRun(Failed, map[], "", m, e.done) then None
          else Some(s.(phase := Done(Errored(m))))
    case _ => None
  }

  /** The state after one more event, when the workflow could do that event. */
  function Next(input: StepInput, s: State, e: Event): Option<State> {
    if InMain(s.phase) then NextMain(input, s, e)
    else if InExit(s.phase) then NextExit(input, s, e)
    else NextContinuation(input, s, e)
  }

  /** The state after a whole trace. */
  function After(input: StepInput, trace: seq<Event>): Option<State> {
    if trace == [] then Some(Start(input)) else
    match After(input, trace[..|trace| - 1])
    case None => None
    case Some(s) => Next(input, s, trace[|trace| - 1])
  }

  /** A trace the workflow can produce, complete or not. */
  predicate Possible(input: StepInput, trace: seq<Event>) {
    After(input, trace).Some?
  }

  lemma AfterSnoc(input: StepInput, trace: seq<Event>, e: Event)
    requires Possible(input, trace)
    ensures After(input, trace + [e]) == Next(input, After(input, trace).value, e)
  {
    assert (trace + [e])[..|trace|] == trace;
  }

  lemma {:induction false} PrefixPossible(input: StepInput, trace: seq<Event>, n: nat)
    requires Possible(input, trace) && n <= |trace|
    ensures Possible(input, trace[..n])
    ensures n < |trace| ==> After(input, trace[..n + 1]) == Next(input, After(input, trace[..n]).value, trace[n])
    decreases |trace|
  {
    if n == |trace| {
      assert trace[..n] == trace;
    } else {
      var init := trace[..|trace| - 1];
      if n < |trace| - 1 {
        PrefixPossible(input, init, n);
        assert init[..n] == trace[..n] && init[..n + 1] == trace[..n + 1];
      } else {
        assert trace[..n + 1] == trace;
      }
    }
  }

  // --- the record is completed once --------------------------------------------------------

  function Writes(trace: seq<Event>): nat {
    if trace == [] then 0 else Writes(trace[..|trace| - 1]) + if trace[|trace| - 1].CompleteRun? then 1 else 0
  }

  /** What the last write says about how the run ended. */
  ghost predicate WroteResult(e: Event, r: Result) {
    e.CompleteRun? &&
    match r
    case Returned(out) => e.done.Acked? && e == CompleteRun(out.status, out.output, out.diff, out.error, e.done)
    case Errored(m) => e.done.Refused? || e == CompleteRun(Failed, map[], "", m, e.done)
  }

  /** n writes so far, the last event being e. */
  ghost predicate WriteInvariant(input: StepInput, s: State, n: nat, e: Option<Event>) {
    && n == (if s.phase.Done? && input.stepRunId != "" then 1 else 0)
    && (s.phase.ToFinalize? || s.phase.ToMarkFailed? ==> input.stepRunId != "")
    && (s.phase.Done? && input.stepRunId != "" ==> e.Some? && WroteResult(e.value, s.phase.result))
  }

  lemma WriteStepMain(input: StepInput, s: State, n: nat, e0: Option<Event>, e: Event)
    requires WriteInvariant(input, s, n, e0) && NextMain(input, s, e).Some?
    ensures WriteInvariant(input, NextMain(input, s, e).value, n + (if e.CompleteRun? then 1 else 0), Some(e))
  {
    hide Decoded, AfterGate, AfterPR, Finalize, Fail, AfterVerify, AfterExecute, AfterContinuation, AfterSandbox,
        Steered, Rejection, VerifyFailure;
  }

  lemma WriteStepContinuation(input: StepInput, s: State, n: nat, e0: Option<Event>, e: Event)
    requires WriteInvariant(input, s, n, e0) && NextContinuation(input, s, e).Some?
    ensures WriteInvariant(input, NextContinuation(input, s, e).value, n + (if e.CompleteRun? then 1 else 0), Some(e))
  {
    hide Decoded, AfterGate, AfterPR, Finalize, Fail, AfterVerify, AfterExecute, AfterContinuation, AfterSandbox,
        Steered, Rejection, VerifyFailure;
  }

  lemma WriteStepExit(input: StepInput, s: State, n: nat, e0: Option<Event>, e: Event)
    requires WriteInvariant(input, s, n, e0) && NextExit(input, s, e).Some?
    ensures WriteInvariant(input, NextExit(input, s, e).value, n + (if e.CompleteRun? then 1 else 0), Some(e))
  {
    hide Decoded, AfterGate, AfterPR, Finalize, Fail, AfterVerify, AfterExecute, AfterContinuation, AfterSandbox,
        Steered, Rejection, VerifyFailure;
  }

  lemma WriteStep(input: StepInput, s: State, n: nat, e0: Option<Event>, e: Event)
    requires WriteInvariant(input, s, n, e0) && Next(input, s, e).Some?
    ensures WriteInvariant(input, Next(input, s, e).value, n + (if e.CompleteRun? then 1 else 0), Some(e))
  {
    hide NextMain, NextContinuation, NextExit, WriteInvariant;
    if InMain(s.phase) {
      WriteStepMain(input, s, n, e0, e);
    } else if InExit(s.phase) {
      WriteStepExit(input, s, n, e0, e);
    } else {
      WriteStepContinuation(input, s, n, e0, e);
    }
  }

  /** On every run, over any number of steers, the step_run record is completed at most once,
      and exactly once by the time the workflow ends when there is a record: with the returned
      output's status, or with failed and the error's text, unless the write itself failed. */
  lemma {:induction false} OneTerminalWrite(input: StepInput, trace: seq<Event>)
    requires Possible(input, trace)
    ensures var s := After(input, trace).value;
      && Writes(trace) == (if s.phase.Done? && input.stepRunId != "" then 1 else 0)
      && (s.phase.ToFinalize? || s.phase.ToMarkFailed? ==> input.stepRunId != "")
      && (s.phase.Done? && input.stepRunId != "" ==> |trace| > 0 && WroteResult(trace[|trace| - 1], s.phase.result))
  {
    if trace != [] {
      hide Next, WroteResult;
      var init, e := trace[..|trace| - 1], trace[|trace| - 1];
      OneTerminalWrite(input, init);
      var e0 := if init == [] then None else Some(init[|init| - 1]);
      WriteStep(input, After(input, init).value, Writes(init), e0, e);
    }
  }

  // --- executions and steers ----------------------------------------------------------------

  function Executions(trace: seq<Event>): nat {
    if trace == [] then 0 else Executions(trace[..|trace| - 1]) + if trace[|trace| - 1].Execute? then 1 else 0
  }

  function Steers(trace: seq<Event>): nat {
    if trace == [] then 0 else
    Steers(trace[..|trace| - 1]) + if trace[|trace| - 1].Consume? && trace[|trace| - 1].signal.Steer? then 1 else 0
  }

  predicate BeforeExecution(p: Phase) {
    p.ToProvision? || p.ToPreflight? || p.ToExecute?
  }

  /** With n executions and k steers consumed. */
  ghost predicate CountInvariant(s: State, n: nat, k: nat) {
    && (s.phase.ToProvision? || s.phase.ToPreflight? ==> n == 0)
    && n == k + (if s.phase.ToExecute? || n == 0 then 0 else 1)
    && (n == 0 ==> BeforeExecution(s.phase) || s.phase.ToMarkFailed? || s.phase.Done?)
  }

  lemma CountStepMain(input: StepInput, s: State, n: nat, k: nat, e: Event)
    requires CountInvariant(s, n, k) && NextMain(input, s, e).Some?
    ensures CountInvariant(NextMain(input, s, e).value, n + (if e.Execute? then 1 else 0),
                           k + (if e.Consume? && e.signal.Steer? then 1 else 0))
  {
    hide Decoded, AfterGate, AfterPR, Finalize, Fail, AfterVerify, AfterExecute, AfterContinuation, AfterSandbox,
        Steered, Rejection, VerifyFailure;
  }

  lemma CountStepContinuation(input: StepInput, s: State, n: nat, k: nat, e: Event)
    requires CountInvariant(s, n, k) && NextContinuation(input, s, e).Some?
    ensures CountInvariant(NextContinuation(input, s, e).value, n + (if e.Execute? then 1 else 0),
                           k + (if e.Consume? && e.signal.Steer? then 1 else 0))
  {
    hide Decoded, AfterGate, AfterPR, Finalize, Fail, AfterVerify, AfterExecute, AfterContinuation, AfterSandbox,
        Steered, Rejection, VerifyFailure;
  }

  lemma CountStepExit(input: StepInput, s: State, n: nat, k: nat, e: Event)
    requires CountInvariant(s, n, k) && NextExit(input, s, e).Some?
    ensures CountInvariant(NextExit(input, s, e).value, n + (if e.Execute? then 1 else 0),
                           k + (if e.Consume? && e.signal.Steer? then 1 else 0))
  {
    hide Decoded, AfterGate, AfterPR, Finalize, Fail, AfterVerify, AfterExecute, AfterContinuation, AfterSandbox,
        Steered, Rejection, VerifyFailure;
  }

  lemma CountStep(input: StepInput, s: State, n: nat, k: nat, e: Event)
    requires CountInvariant(s, n, k) && Next(input, s, e).Some?
    ensures CountInvariant(Next(input, s, e).value, n + (if e.Execute? then 1 else 0),
                           k + (if e.Consume? && e.signal.Steer? then 1 else 0))
  {
    hide NextMain, NextContinuation, NextExit, CountInvariant;
    if InMain(s.phase) {
      CountStepMain(input, s, n, k, e);
    } else if InExit(s.phase) {
      CountStepExit(input, s, n, k, e);
    } else {
      CountStepContinuation(input, s, n, k, e);
    }
  }

  /** There is one execution more than steers consumed, except between a steer and the
      execution it asks for, and on runs that fail before executing anything. */
  lemma {:induction false} OneExecutionPerSteer(input: StepInput, trace: seq<Event>)
    requires Possible(input, trace)
    ensures CountInvariant(After(input, trace).value, Executions(trace), Steers(trace))
  {
    if trace != [] {
      hide Next, CountInvariant;
      var init := trace[..|trace| - 1];
      OneExecutionPerSteer(input, init);
      CountStep(input, After(input, init).value, Executions(init), Steers(init), trace[|trace| - 1]);
    }
  }

  /** The conversation so far: the diff of the last attempt that had one, and the text that steering
      has built up, in the order it happened. */
  function Conversation(trace: seq<Event>): (string, string) {
    if trace == [] then ("", "") else Talk(Conversation(trace[..|trace| - 1]), trace[|trace| - 1])
  }

  function Talk(c: (string, string), e: Event): (string, string) {
    if e.Execute? && e.outcome.Ok? then (Kept(c.0, e.outcome.value.diff), c.1)
    else if e.Consume? && e.signal.Steer? then (c.0, Steered(c.1, c.0, e.signal.instruction))
    else c
  }

  ghost predicate TalkInvariant(p: Phase, c: (string, string)) {
    && (p.ToProvision? || p.ToPreflight? ==> c == ("", ""))
    && (p.ToExecute? ==> p.history == c.1 && (if p.held.None? then "" else p.held.value.diff) == c.0)
    && (p.ToVerify? || p.ToSetAwaiting? || p.ToSignal? ==> (p.out.diff, p.history) == c)
  }

  lemma TalkStepMain(input: StepInput, s: State, c: (string, string), e: Event)
    requires TalkInvariant(s.phase, c) && NextMain(input, s, e).Some?
    ensures TalkInvariant(NextMain(input, s, e).value.phase, Talk(c, e))
  {
    hide AfterGate, AfterPR, Finalize, Fail, AfterVerify, AfterExecute, AfterContinuation, AfterSandbox, Steered,
        Rejection, VerifyFailure;
  }

  lemma TalkStepContinuation(input: StepInput, s: State, c: (string, string), e: Event)
    requires TalkInvariant(s.phase, c) && NextContinuation(input, s, e).Some?
    ensures TalkInvariant(NextContinuation(input, s, e).value.phase, Talk(c, e))
  {
    hide Decoded, AfterGate, AfterPR, Finalize, Fail, AfterVerify, AfterExecute, AfterContinuation, AfterSandbox,
        Steered, Rejection, VerifyFailure;
  }

  lemma TalkStepExit(input: StepInput, s: State, c: (string, string), e: Event)
    requires TalkInvariant(s.phase, c) && NextExit(input, s, e).Some?
    ensures TalkInvariant(NextExit(input, s, e).value.phase, Talk(c, e))
  {
    hide Decoded, AfterGate, AfterPR, Finalize, Fail, AfterVerify, AfterExecute, AfterContinuation, AfterSandbox,
        Steered, Rejection, VerifyFailure;
  }

  lemma TalkStep(input: StepInput, s: State, c: (string, string), e: Event)
    requires TalkInvariant(s.phase, c) && Next(input, s, e).Some?
    ensures TalkInvariant(Next(input, s, e).value.phase, Talk(c, e))
  {
    hide NextMain, NextContinuation, NextExit, TalkInvariant;
    if InMain(s.phase) {
      TalkStepMain(input, s, c, e);
    } else if InExit(s.phase) {
      TalkStepExit(input, s, c, e);
    } else {
      TalkStepContinuation(input, s, c, e);
    }
  }

  /** Steering carries the whole conversation: what the next attempt will be told is what the
      attempts and instructions so far add up to. */
  lemma {:induction false} ConversationKept(input: StepInput, trace: seq<Event>)
    requires Possible(input, trace)
    ensures TalkInvariant(After(input, trace).value.phase, Conversation(trace))
  {
    if trace != [] {
      hide Next, TalkInvariant, Talk;
      var init := trace[..|trace| - 1];
      ConversationKept(input, init);
      TalkStep(input, After(input, init).value, Conversation(init), trace[|trace| - 1]);
    }
  }

  /** Every attempt gets the original prompt and the whole conversation before it. */
  lemma AttemptSeesConversation(input: StepInput, trace: seq<Event>, i: nat)
    requires Possible(input, trace) && i < |trace| && trace[i].Execute?
    ensures trace[i].prompt == input.prompt && trace[i].history == Conversation(trace[..i]).1
  {
    PrefixPossible(input, trace, i);
    PrefixPossible(input, trace, i + 1);
    ConversationKept(input, trace[..i]);
  }

  // --- the approval gate ------------------------------------------------------------------

  predicate IsAttempt(a: Event) {
    a.Execute? && a.outcome.Ok?
  }

  /** What output points to after a trace: each attempt's reply decoded over what was there. */
  function Produced(trace: seq<Event>): Option<StepOutput> {
    if trace == [] then None else Produce(Produced(trace[..|trace| - 1]), trace[|trace| - 1])
  }

  function Produce(held: Option<StepOutput>, e: Event): Option<StepOutput> {
    if IsAttempt(e) then Some(Decoded(held, e.outcome.value)) else held
  }

  lemma ProducedSnoc(trace: seq<Event>, e: Event)
    ensures Produced(trace + [e]) == Produce(Produced(trace), e)
  {
    assert (trace + [e])[..|trace|] == trace;
  }

  /** The diff that the gate and the conversation see is the last attempt's own exactly if that
      attempt has one or no earlier attempt did. */
  lemma {:induction false} DiffOwnExactly(trace: seq<Event>, a: Event)
    requires IsAttempt(a)
    ensures Produced(trace + [a]).value.diff == a.outcome.value.diff <==>
      a.outcome.value.diff != "" || forall i :: 0 <= i < |trace| && IsAttempt(trace[i]) ==>
          trace[i].outcome.value.diff == ""
  {
    ProducedSnoc(trace, a);
    DiffEmptyExactly(trace);
  }

  lemma {:induction false} DiffEmptyExactly(trace: seq<Event>)
    ensures Produced(trace).None? || Produced(trace).value.diff == "" <==>
      forall i :: 0 <= i < |trace| && IsAttempt(trace[i]) ==> trace[i].outcome.value.diff == ""
  {
    if trace != [] {
      var init, e := trace[..|trace| - 1], trace[|trace| - 1];
      DiffEmptyExactly(init);
      assert forall i :: 0 <= i < |init| ==> init[i] == trace[i];
      assert trace[|init|] == e;
    }
  }

  /** The reply says whether it wants a review. */
  predicate SaysReview(e: Event) {
    IsAttempt(e) && "needs_review" in e.outcome.value.output
  }

  /** The last attempt that said whether it wants a review wanted one. */
  ghost predicate ReviewWanted(trace: seq<Event>) {
    exists i :: 0 <= i < |trace| && SaysReview(trace[i]) &&
      trace[i].outcome.value.output["needs_review"] == Bool(true) &&
      forall j :: i < j < |trace| ==> !SaysReview(trace[j])
  }

  predicate AsksReview(out: Option<StepOutput>) {
    out.Some? && "needs_review" in out.value.output && out.value.output["needs_review"] == Bool(true)
  }

  lemma ReviewSnoc(trace: seq<Event>, e: Event)
    ensures ReviewWanted(trace + [e]) <==>
      if SaysReview(e) then e.outcome.value.output["needs_review"] == Bool(true) else ReviewWanted(trace)
  {
    var longer := trace + [e];
    assert longer[|trace|] == e && forall i :: 0 <= i < |trace| ==> longer[i] == trace[i];
    if !SaysReview(e) && ReviewWanted(trace) {
      var i :| 0 <= i < |trace| && SaysReview(trace[i]) &&
        trace[i].outcome.value.output["needs_review"] == Bool(true) &&
        forall j :: i < j < |trace| ==> !SaysReview(trace[j]);
      assert longer[i] == trace[i];
    }
    if !SaysReview(e) && ReviewWanted(longer) {
      var i :| 0 <= i < |longer| && SaysReview(longer[i]) &&
        longer[i].outcome.value.output["needs_review"] == Bool(true) &&
        forall j :: i < j < |longer| ==> !SaysReview(longer[j]);
      assert trace[i] == longer[i] && forall j :: i < j < |trace| ==> trace[j] == longer[j];
    }
  }

  lemma {:induction false} ReviewExactly(trace: seq<Event>)
    ensures AsksReview(Produced(trace)) <==> ReviewWanted(trace)
  {
    if trace != [] {
      hide ReviewWanted;
      var init, e := trace[..|trace| - 1], trace[|trace| - 1];
      assert trace == init + [e];
      ReviewExactly(init);
      ReviewSnoc(init, e);
    }
  }

  /** An earlier attempt makes the gate pause for one that does not call for it. */
  ghost predicate Stale(step: StepDef, trace: seq<Event>, a: Event)
    requires IsAttempt(a)
  {
    || (step.approvalPolicy == "on_changes" && a.outcome.value.diff == "" &&
        exists i :: 0 <= i < |trace| && IsAttempt(trace[i]) && trace[i].outcome.value.diff != "")
    || (step.approvalPolicy == "agent" && !SaysReview(a) && ReviewWanted(trace))
  }

  /** The gate decides as the attempt's own reply would if and only if nothing earlier is stale: under
      on_changes an empty diff after a non-empty one, under agent a reply that does not mention
      needs_review after one that wanted it. */
  lemma GateOwnExactly(step: StepDef, trace: seq<Event>, a: Event)
    requires IsAttempt(a)
    ensures Produced(trace + [a]).Some?
    ensures ShouldPause(step, Produced(trace + [a]).value) == ShouldPause(step, a.outcome.value) <==>
        !Stale(step, trace, a)
  {
    ProducedSnoc(trace, a);
    DiffEmptyExactly(trace);
    ReviewExactly(trace);
    hide ReviewWanted, Produced;
  }

  /** It never errs the other way: what calls for a pause by itself is paused. */
  lemma GateNeverLaxer(step: StepDef, held: Option<StepOutput>, reply: StepOutput)
    requires ShouldPause(step, reply)
    ensures ShouldPause(step, Decoded(held, reply))
  {
  }

  // A run in which that happens.

  lemma ExecutedChanges(input: StepInput, held: Option<StepOutput>, history: string, reply: StepOutput)
    requires input.stepDef.approvalPolicy == "on_changes" && !input.verifiers
    requires reply.status != AwaitingInput && Decoded(held, reply).diff != ""
    ensures Next(input, State(ToExecute(history, held), input.sandboxId),
                 Execute(input.sandboxId, input.prompt, history, Ok(reply))) ==
            Some(State(ToSetAwaiting(Decoded(held, reply), history), input.sandboxId))
  {
    hide Decoded;
    assert Decoded(held, reply).status == reply.status by {
      DecodedStatus(held, reply);
    }
  }

  lemma DecodedStatus(held: Option<StepOutput>, reply: StepOutput)
    ensures Decoded(held, reply).status == reply.status
  {
  }

  lemma SteeredOn(input: StepInput, out: StepOutput, history: string, text: string)
    ensures Next(input, State(ToSetAwaiting(out, history), input.sandboxId), SetAwaiting(Acked)) ==
            Some(State(ToSignal(out, history), input.sandboxId))
    ensures Next(input, State(ToSignal(out, history), input.sandboxId), Consume(Steer(text))) ==
            Some(State(ToExecute(Steered(history, out.diff, text), Some(out)), input.sandboxId))
  {
    hide Steered;
  }

  lemma BeginsExecuting(input: StepInput)
    requires input.sandboxId != "" && !input.preflight
    ensures After(input, []) == Some(State(ToExecute("", None), input.sandboxId))
  {
  }

  /** A run held at the gate for an earlier attempt's diff: the first attempt changes something and is
      steered; the second changes nothing and would not pause by itself, yet waits for approval. */
  lemma StaleDiffPauses(input: StepInput, first: StepOutput, second: StepOutput, text: string)
    returns (trace: seq<Event>)
    requires input.stepDef.approvalPolicy == "on_changes" && input.sandboxId != "" && !input.preflight &&
        !input.verifiers
    requires first.status != AwaitingInput && second.status != AwaitingInput && first.diff != "" && second.diff == ""
    ensures |trace| == 4 && IsAttempt(trace[3]) && trace[3].outcome == Ok(second)
    ensures Possible(input, trace) && After(input, trace).value.phase.ToSetAwaiting?
    ensures !ShouldPause(input.stepDef, second)
  {
    hide Next, After, Steered, Start;
    var a := Execute(input.sandboxId, input.prompt, "", Ok(first));
    var b, c := SetAwaiting(Acked), Consume(Steer(text));
    var history := Steered("", first.diff, text);
    var d := Execute(input.sandboxId, input.prompt, history, Ok(second));
    BeginsExecuting(input);
    ExecutedChanges(input, None, "", first);
    SteeredOn(input, first, "", text);
    ExecutedChanges(input, Some(first), history, second);
    assert [] + [a] == [a] && [a] + [b] == [a, b] && [a, b] + [c] == [a, b, c] && [a, b, c] + [d] == [a, b, c, d];
    AfterSnoc(input, [], a);
    AfterSnoc(input, [a], b);
    AfterSnoc(input, [a, b], c);
    AfterSnoc(input, [a, b, c], d);
    trace := [a, b, c, d];
  }

  /** The verification of an attempt, if configured. */
  function Verified(input: StepInput, sandbox: string): seq<Event> {
    if input.verifiers then [Verify(sandbox, Acked)] else []
  }

  /** What the trace must end with for an output to have passed the gate: the last attempt, its
      verification if configured, and if the output calls for a pause an approval. */
  function GatePassage(input: StepInput, attempt: Event, out: StepOutput): seq<Event>
    requires IsAttempt(attempt)
  {
    [attempt] + Verified(input, attempt.sandbox) +
    if ShouldPause(input.stepDef, out) then [SetAwaiting(Acked), Consume(Approve)] else []
  }

  ghost predicate EndsWith(trace: seq<Event>, tail: seq<Event>) {
    |tail| <= |trace| && trace[|trace| - |tail|..] == tail
  }

  /** The last attempt has passed the gate, with the output it was decoded into. */
  ghost predicate Passed(input: StepInput, trace: seq<Event>) {
    && Produced(trace).Some? && Produced(trace).value.status != AwaitingInput
    && exists a :: IsAttempt(a) && EndsWith(trace, GatePassage(input, a, Produced(trace).value))
  }

  /** A human answered and the continuation ran to its end. */
  ghost predicate Continued(trace: seq<Event>) {
    exists a :: a in trace && a.ExecuteContinuation? && a.outcome.Ok? && a.outcome.value.status != AwaitingInput
  }

  /** The trace ends with an attempt in this sandbox and what followed it. */
  ghost predicate AttemptEnds(trace: seq<Event>, sandbox: string, tail: seq<Event>) {
    exists a :: IsAttempt(a) && a.sandbox == sandbox && EndsWith(trace, [a] + tail)
  }

  ghost predicate GateInvariant(input: StepInput, trace: seq<Event>, s: State) {
    match s.phase
    case ToProvision => Produced(trace).None?
    case ToPreflight => Produced(trace).None?
    case ToExecute(_, held) => Produced(trace) == held
    case ToVerify(out, h) =>
      Produced(trace) == Some(out) && input.verifiers && out.status != AwaitingInput &&
          AttemptEnds(trace, s.sandbox, [])
    case ToSetAwaiting(out, h) =>
      Produced(trace) == Some(out) && ShouldPause(input.stepDef, out) && out.status != AwaitingInput &&
      AttemptEnds(trace, s.sandbox, Verified(input, s.sandbox))
    case ToSignal(out, h) =>
      Produced(trace) == Some(out) && ShouldPause(input.stepDef, out) && out.status != AwaitingInput &&
      AttemptEnds(trace, s.sandbox, Verified(input, s.sandbox) + [SetAwaiting(Acked)])
    case ToCleanupContinuation(_, _, r) => r.Ok? && r.value.status != AwaitingInput ==> Continued(trace)
    case ToCleanupBranch(_, r) => r.Ok? && r.value.status != AwaitingInput ==> Continued(trace)
    case ToPR(out) => (Passed(input, trace) && Produced(trace) == Some(out)) || Continued(trace)
    case _ => true
  }

  lemma AttemptBegins(trace: seq<Event>, a: Event)
    requires IsAttempt(a)
    ensures AttemptEnds(trace + [a], a.sandbox, [])
  {
    assert [a] + [] == [a];
    assert EndsWith(trace + [a], [a] + []);
  }

  lemma AttemptGoesOn(trace: seq<Event>, sandbox: string, tail: seq<Event>, e: Event)
    requires AttemptEnds(trace, sandbox, tail)
    ensures AttemptEnds(trace + [e], sandbox, tail + [e])
  {
    var a :| IsAttempt(a) && a.sandbox == sandbox && EndsWith(trace, [a] + tail);
    var k := |trace| - |[a] + tail|;
    assert (trace + [e])[k..] == trace[k..] + [e];
    assert ([a] + tail) + [e] == [a] + (tail + [e]);
    assert EndsWith(trace + [e], [a] + (tail + [e]));
  }

  lemma AttemptPasses(input: StepInput, trace: seq<Event>, sandbox: string, tail: seq<Event>, out: StepOutput)
    requires Produced(trace) == Some(out) && out.status != AwaitingInput && AttemptEnds(trace, sandbox, tail)
    requires tail == Verified(input, sandbox) + if ShouldPause(input.stepDef, out)
        then [SetAwaiting(Acked), Consume(Approve)] else []
    ensures Passed(input, trace)
  {
    hide EndsWith, ShouldPause, Verified, Produced;
    var a :| IsAttempt(a) && a.sandbox == sandbox && EndsWith(trace, [a] + tail);
    assert [a] + tail == GatePassage(input, a, out);
  }

  lemma ContinuedSnoc(trace: seq<Event>, e: Event)
    requires Continued(trace)
    ensures Continued(trace + [e])
  {
  }

  // The gate invariant through one attempt: executed, verified, paused, approved.

  lemma GateExecuted(input: StepInput, trace: seq<Event>, s: State, e: Event)
    requires s.phase.ToExecute? && GateInvariant(input, trace, s) && NextMain(input, s, e).Some?
    ensures GateInvariant(input, trace + [e], NextMain(input, s, e).value)
  {
    hide AttemptEnds, Passed, ShouldPause, Fail, AfterGate, Decoded, Produced;
    ProducedSnoc(trace, e);
    if IsAttempt(e) {
      AttemptBegins(trace, e);
      var out := Decoded(s.phase.held, e.outcome.value);
      if out.status != AwaitingInput && !input.verifiers && !ShouldPause(input.stepDef, out) {
        AttemptPasses(input, trace + [e], e.sandbox, [], out);
      }
    }
  }

  lemma GateVerified(input: StepInput, trace: seq<Event>, s: State, e: Event)
    requires s.phase.ToVerify? && GateInvariant(input, trace, s) && NextMain(input, s, e).Some?
    ensures GateInvariant(input, trace + [e], NextMain(input, s, e).value)
  {
    hide AttemptEnds, Passed, ShouldPause, Finalize, AfterGate, Produced;
    ProducedSnoc(trace, e);
    AttemptGoesOn(trace, s.sandbox, [], e);
    assert [] + [e] == [e];
    if e.done.Acked? && !ShouldPause(input.stepDef, s.phase.out) {
      AttemptPasses(input, trace + [e], s.sandbox, [e], s.phase.out);
    }
  }

  lemma GatePaused(input: StepInput, trace: seq<Event>, s: State, e: Event)
    requires s.phase.ToSetAwaiting? || s.phase.ToSignal?
    requires GateInvariant(input, trace, s) && NextMain(input, s, e).Some?
    ensures GateInvariant(input, trace + [e], NextMain(input, s, e).value)
  {
    hide AttemptEnds, Passed, ShouldPause, Finalize, Fail, AfterGate, Steered, Produced, Verified;
    ProducedSnoc(trace, e);
    var checked := Verified(input, s.sandbox);
    if s.phase.ToSetAwaiting? {
      AttemptGoesOn(trace, s.sandbox, checked, e);
    } else {
      AttemptGoesOn(trace, s.sandbox, checked + [SetAwaiting(Acked)], e);
      if e.signal.Approve? {
        assert checked + [SetAwaiting(Acked)] + [e] == checked + [SetAwaiting(Acked), Consume(Approve)];
        AttemptPasses(input, trace + [e], s.sandbox, checked + [SetAwaiting(Acked)] + [e], s.phase.out);
      }
    }
  }

  lemma GatePrepared(input: StepInput, trace: seq<Event>, s: State, e: Event)
    requires s.phase.ToProvision? || s.phase.ToPreflight?
    requires GateInvariant(input, trace, s) && NextMain(input, s, e).Some?
    ensures GateInvariant(input, trace + [e], NextMain(input, s, e).value)
  {
    hide Fail, Produced;
    ProducedSnoc(trace, e);
  }

  lemma GateContinued(input: StepInput, trace: seq<Event>, s: State, e: Event)
    requires !InMain(s.phase) && !InExit(s.phase) && GateInvariant(input, trace, s) &&
        NextContinuation(input, s, e).Some?
    ensures GateInvariant(input, trace + [e], NextContinuation(input, s, e).value)
  {
    hide Produced, AttemptEnds, Passed, ShouldPause, Fail, AfterContinuation;
    if s.phase.ToExecuteContinuation? {
      assert e in trace + [e];
    } else if Continued(trace) {
      ContinuedSnoc(trace, e);
    }
    hide Continued;
  }

  lemma GateLeft(input: StepInput, trace: seq<Event>, s: State, e: Event)
    requires InExit(s.phase) && NextExit(input, s, e).Some?
    ensures GateInvariant(input, trace + [e], NextExit(input, s, e).value)
  {
    hide Produced, AttemptEnds, Passed, Continued, ShouldPause, AfterPR, Finalize;
  }

  lemma GateStep(input: StepInput, trace: seq<Event>, s: State, e: Event)
    requires GateInvariant(input, trace, s) && Next(input, s, e).Some?
    ensures GateInvariant(input, trace + [e], Next(input, s, e).value)
  {
    hide Produced, AttemptEnds, Passed, Continued, NextMain, NextContinuation, NextExit, AfterSandbox, Fail;
    if s.phase.ToProvision? || s.phase.ToPreflight? {
      GatePrepared(input, trace, s, e);
    } else if s.phase.ToExecute? {
      GateExecuted(input, trace, s, e);
    } else if s.phase.ToVerify? {
      GateVerified(input, trace, s, e);
    } else if s.phase.ToSetAwaiting? || s.phase.ToSignal? {
      GatePaused(input, trace, s, e);
    } else if InExit(s.phase) {
      GateLeft(input, trace, s, e);
    } else if !InMain(s.phase) {
      GateContinued(input, trace, s, e);
    }
  }

  lemma GateBegins(input: StepInput)
    ensures GateInvariant(input, [], Start(input))
  {
    hide AttemptEnds, Passed, Continued;
  }

  lemma {:induction false} GateHolds(input: StepInput, trace: seq<Event>)
    requires Possible(input, trace)
    ensures GateInvariant(input, trace, After(input, trace).value)
  {
    if trace == [] {
      GateBegins(input);
    } else {
      hide GateInvariant, Next;
      var init, e := trace[..|trace| - 1], trace[|trace| - 1];
      assert trace == init + [e];
      GateHolds(input, init);
      GateStep(input, init, After(input, init).value, e);
    }
  }

  /** A pull request is only ever created right after the last attempt passed its configured
      verifiers and, if it called for a pause, an approval; or after an answered continuation,
      which is neither verified nor approved. */
  lemma PullRequestNeedsGate(input: StepInput, trace: seq<Event>, i: nat)
    requires Possible(input, trace) && i < |trace| && trace[i].CreatePR?
    ensures Passed(input, trace[..i]) || Continued(trace[..i])
  {
    PrefixPossible(input, trace, i);
    PrefixPossible(input, trace, i + 1);
    GateHolds(input, trace[..i]);
  }

  lemma {:induction false} ProducedQuiet(trace: seq<Event>, tail: seq<Event>)
    requires forall i :: 0 <= i < |tail| ==> !IsAttempt(tail[i])
    ensures Produced(trace + tail) == Produced(trace)
    decreases |tail|
  {
    if tail == [] {
      assert trace + tail == trace;
    } else {
      var init, e := tail[..|tail| - 1], tail[|tail| - 1];
      assert trace + tail == (trace + init) + [e];
      ProducedQuiet(trace, init);
      ProducedSnoc(trace + init, e);
    }
  }

  /** A passage that ends the trace starts with its last attempt. */
  lemma PassageProduces(input: StepInput, trace: seq<Event>, a: Event, out: StepOutput)
    requires IsAttempt(a) && EndsWith(trace, GatePassage(input, a, out))
    ensures exists held :: Produced(trace) == Some(Decoded(held, a.outcome.value))
  {
    hide ShouldPause, Decoded;
    var passage := GatePassage(input, a, out);
    var before, tail := trace[..|trace| - |passage|], passage[1..];
    assert trace == before + passage && passage == [a] + tail;
    assert trace == (before + [a]) + tail;
    ProducedSnoc(before, a);
    ProducedQuiet(before + [a], tail);
    hide Produced;
    assert Produced(trace) == Some(Decoded(Produced(before), a.outcome.value));
  }

  /** Outside continuations no pull request follows an attempt whose own reply calls for a pause unless
      the operator approved it. */
  lemma PullRequestNeedsApproval(input: StepInput, trace: seq<Event>, i: nat) returns (a: Event)
    requires Possible(input, trace) && i < |trace| && trace[i].CreatePR? && !Continued(trace[..i])
    ensures IsAttempt(a) && Produced(trace[..i]).Some?
    ensures if ShouldPause(input.stepDef, a.outcome.value)
            then EndsWith(trace[..i], [a] + Verified(input, a.sandbox) + [SetAwaiting(Acked), Consume(Approve)])
            else EndsWith(trace[..i], GatePassage(input, a, Produced(trace[..i]).value))
  {
    hide After, Continued, EndsWith, ShouldPause, Produced;
    PullRequestNeedsGate(input, trace, i);
    var out := Produced(trace[..i]).value;
    a :| IsAttempt(a) && EndsWith(trace[..i], GatePassage(input, a, out));
    PassageProduces(input, trace[..i], a, out);
    var held :| Produced(trace[..i]) == Some(Decoded(held, a.outcome.value));
    if ShouldPause(input.stepDef, a.outcome.value) {
      GateNeverLaxer(input.stepDef, held, a.outcome.value);
    }
  }

  /** Phases after which only the record is still to be written. */
  predicate Closing(p: Phase) {
    p.ToFinalize? || p.ToMarkFailed? || p.Done?
  }

  lemma ClosingStep(input: StepInput, s: State, e: Event)
    requires Closing(s.phase) && Next(input, s, e).Some?
    ensures e.CompleteRun? && Next(input, s, e).value.phase.Done?
  {
  }

  lemma NoneAfterDone(input: StepInput, s: State, e: Event)
    requires s.phase.Done?
    ensures Next(input, s, e).None?
  {
  }

  /** Once closing, at most the one write follows. */
  lemma ClosingStays(input: StepInput, trace: seq<Event>, i: nat, j: nat)
    requires Possible(input, trace) && i <= j < |trace|
    requires Possible(input, trace[..i]) && Closing(After(input, trace[..i]).value.phase)
    ensures trace[j].CompleteRun? && j == i
  {
    hide Next, After;
    PrefixPossible(input, trace, i);
    PrefixPossible(input, trace, i + 1);
    ClosingStep(input, After(input, trace[..i]).value, trace[i]);
    if i < j {
      PrefixPossible(input, trace, i + 2);
      NoneAfterDone(input, After(input, trace[..i + 1]).value, trace[i + 1]);
    }
  }

  /** An event that ends the run without passing the gate. */
  predicate Aborts(e: Event) {
    match e
    case Provision(r) => r.Err?
    case RunPreflight(_, d) => d.Refused?
    case Execute(_, _, _, r) => r.Err?
    case Verify(_, d) => d.Refused?
    case SetAwaiting(d) => d.Refused?
    case Consume(s) => s.Reject? || s.Cancel?
    case CreateContinuation(_, d) => d.Refused?
    case ProvisionContinuation(r) => r.Err?
    case _ => false
  }

  lemma AbortCloses(input: StepInput, s: State, e: Event)
    requires Aborts(e) && Next(input, s, e).Some?
    ensures Closing(Next(input, s, e).value.phase)
  {
  }

  /** After a reject, a cancel, a failed verification or an error, nothing but the one write to
      the step_run record follows: no execution, no pull request. */
  lemma NothingAfterAbort(input: StepInput, trace: seq<Event>, i: nat, j: nat)
    requires Possible(input, trace) && i < j < |trace| && Aborts(trace[i])
    ensures trace[j].CompleteRun? && j == i + 1
  {
    hide Next, After, Aborts;
    PrefixPossible(input, trace, i);
    PrefixPossible(input, trace, i + 1);
    AbortCloses(input, After(input, trace[..i]).value, trace[i]);
    ClosingStays(input, trace, i + 1, j);
  }

  function PullRequests(trace: seq<Event>): nat {
    if trace == [] then 0 else PullRequests(trace[..|trace| - 1]) + if trace[|trace| - 1].CreatePR? then 1 else 0
  }

  function Cleanups(trace: seq<Event>): nat {
    if trace == [] then 0 else Cleanups(trace[..|trace| - 1]) + if trace[|trace| - 1].Cleanup? then 1 else 0
  }

  ghost predicate OnceInvariant(input: StepInput, s: State, prs: nat, cleanups: nat) {
    && prs <= (if s.phase.ToCleanup? || Closing(s.phase) then 1 else 0)
    && cleanups <= (if Closing(s.phase) then 1 else 0)
    && (s.phase.ToCleanup? || cleanups > 0 ==> Ungrouped(input))
  }

  lemma OnceStepMain(input: StepInput, s: State, prs: nat, cleanups: nat, e: Event)
    requires OnceInvariant(input, s, prs, cleanups) && NextMain(input, s, e).Some?
    ensures OnceInvariant(input, NextMain(input, s, e).value, prs + (if e.CreatePR? then 1 else 0),
        cleanups + (if e.Cleanup? then 1 else 0))
  {
    hide Decoded, AfterGate, AfterPR, Finalize, Fail, AfterVerify, AfterExecute, AfterContinuation, AfterSandbox,
        Steered, Rejection, VerifyFailure;
  }

  lemma OnceStepContinuation(input: StepInput, s: State, prs: nat, cleanups: nat, e: Event)
    requires OnceInvariant(input, s, prs, cleanups) && NextContinuation(input, s, e).Some?
    ensures OnceInvariant(input, NextContinuation(input, s, e).value, prs + (if e.CreatePR? then 1 else 0),
        cleanups + (if e.Cleanup? then 1 else 0))
  {
    hide Decoded, AfterGate, AfterPR, Finalize, Fail, AfterVerify, AfterExecute, AfterContinuation, AfterSandbox,
        Steered, Rejection, VerifyFailure;
  }

  lemma OnceStepExit(input: StepInput, s: State, prs: nat, cleanups: nat, e: Event)
    requires OnceInvariant(input, s, prs, cleanups) && NextExit(input, s, e).Some?
    ensures OnceInvariant(input, NextExit(input, s, e).value, prs + (if e.CreatePR? then 1 else 0),
        cleanups + (if e.Cleanup? then 1 else 0))
  {
    hide Decoded, AfterGate, AfterPR, Finalize, Fail, AfterVerify, AfterExecute, AfterContinuation, AfterSandbox,
        Steered, Rejection, VerifyFailure;
  }

  lemma OnceStep(input: StepInput, s: State, prs: nat, cleanups: nat, e: Event)
    requires OnceInvariant(input, s, prs, cleanups) && Next(input, s, e).Some?
    ensures OnceInvariant(input, Next(input, s, e).value, prs + (if e.CreatePR? then 1 else 0),
        cleanups + (if e.Cleanup? then 1 else 0))
  {
    hide NextMain, NextContinuation, NextExit, OnceInvariant;
    if InMain(s.phase) {
      OnceStepMain(input, s, prs, cleanups, e);
    } else if InExit(s.phase) {
      OnceStepExit(input, s, prs, cleanups, e);
    } else {
      OnceStepContinuation(input, s, prs, cleanups, e);
    }
  }

  /** At most one pull request is attempted and the workflow's own sandbox is cleaned at most
      once, and never when it belongs to a group or was handed in. */
  lemma {:induction false} AtMostOnePullRequest(input: StepInput, trace: seq<Event>)
    requires Possible(input, trace)
    ensures OnceInvariant(input, After(input, trace).value, PullRequests(trace), Cleanups(trace))
    ensures PullRequests(trace) <= 1 && Cleanups(trace) <= 1
  {
    if trace != [] {
      hide Next;
      var init := trace[..|trace| - 1];
      AtMostOnePullRequest(input, init);
      OnceStep(input, After(input, init).value, PullRequests(init), Cleanups(init), trace[|trace| - 1]);
    }
  }

  /** A continuation that fails, or asks for input again, also ends the run. */
  predicate BadContinuation(e: Event) {
    e.ExecuteContinuation? && (e.outcome.Err? || e.outcome.value.status == AwaitingInput)
  }

  function Setbacks(trace: seq<Event>): nat {
    if trace == [] then 0 else
    var e := trace[|trace| - 1];
    Setbacks(trace[..|trace| - 1]) + if Aborts(e) || BadContinuation(e) then 1 else 0
  }

  predicate GoodSoFar(r: Reply<StepOutput>) {
    r.Ok? && r.value.status != AwaitingInput
  }

  ghost predicate CleanupInvariant(p: Phase, cleanups: nat, setbacks: nat) {
    && (Closing(p) ==> (cleanups > 0 <==> setbacks == 0))
    && (!Closing(p) ==> cleanups == 0)
    && (!Closing(p) && !p.ToCleanupContinuation? && !p.ToCleanupBranch? ==> setbacks == 0)
    && (p.ToCleanupContinuation? || p.ToCleanupBranch? ==> (setbacks == 0 <==> GoodSoFar(p.continued)))
  }

  lemma CleanupStepMain(input: StepInput, s: State, cleanups: nat, setbacks: nat, e: Event)
    requires Ungrouped(input)
    requires CleanupInvariant(s.phase, cleanups, setbacks) && NextMain(input, s, e).Some?
    ensures CleanupInvariant(NextMain(input, s, e).value.phase, cleanups + (if e.Cleanup? then 1 else 0),
                             setbacks + (if Aborts(e) || BadContinuation(e) then 1 else 0))
  {
    hide Decoded, AfterGate, AfterPR, Finalize, Fail, AfterVerify, AfterExecute, AfterContinuation, AfterSandbox,
        Steered, Rejection, VerifyFailure;
  }

  lemma CleanupStepContinuation(input: StepInput, s: State, cleanups: nat, setbacks: nat, e: Event)
    requires Ungrouped(input)
    requires CleanupInvariant(s.phase, cleanups, setbacks) && NextContinuation(input, s, e).Some?
    ensures CleanupInvariant(NextContinuation(input, s, e).value.phase, cleanups + (if e.Cleanup? then 1 else 0),
                             setbacks + (if Aborts(e) || BadContinuation(e) then 1 else 0))
  {
    hide Decoded, AfterGate, AfterPR, Finalize, Fail, AfterVerify, AfterExecute, AfterContinuation, AfterSandbox,
        Steered, Rejection, VerifyFailure;
  }

  lemma CleanupStepExit(input: StepInput, s: State, cleanups: nat, setbacks: nat, e: Event)
    requires Ungrouped(input)
    requires CleanupInvariant(s.phase, cleanups, setbacks) && NextExit(input, s, e).Some?
    ensures CleanupInvariant(NextExit(input, s, e).value.phase, cleanups + (if e.Cleanup? then 1 else 0),
                             setbacks + (if Aborts(e) || BadContinuation(e) then 1 else 0))
  {
    hide Decoded, AfterGate, AfterPR, Finalize, Fail, AfterVerify, AfterExecute, AfterContinuation, AfterSandbox,
        Steered, Rejection, VerifyFailure;
  }

  lemma CleanupStep(input: StepInput, s: State, cleanups: nat, setbacks: nat, e: Event)
    requires Ungrouped(input)
    requires CleanupInvariant(s.phase, cleanups, setbacks) && Next(input, s, e).Some?
    ensures CleanupInvariant(Next(input, s, e).value.phase, cleanups + (if e.Cleanup? then 1 else 0),
                             setbacks + (if Aborts(e) || BadContinuation(e) then 1 else 0))
  {
    hide NextMain, NextContinuation, NextExit, CleanupInvariant, Aborts, BadContinuation;
    if InMain(s.phase) {
      CleanupStepMain(input, s, cleanups, setbacks, e);
    } else if InExit(s.phase) {
      CleanupStepExit(input, s, cleanups, setbacks, e);
    } else {
      CleanupStepContinuation(input, s, cleanups, setbacks, e);
    }
  }

  lemma {:induction false} CleanupHolds(input: StepInput, trace: seq<Event>)
    requires Possible(input, trace)
    requires Ungrouped(input)
    ensures CleanupInvariant(After(input, trace).value.phase, Cleanups(trace), Setbacks(trace))
  {
    if trace != [] {
      hide Next, CleanupInvariant, Aborts, BadContinuation;
      var init := trace[..|trace| - 1];
      CleanupHolds(input, init);
      CleanupStep(input, After(input, init).value, Cleanups(init), Setbacks(init), trace[|trace| - 1]);
    }
  }

  /** A finished workflow that provisioned its own ungrouped sandbox has cleaned it exactly
      when nothing went wrong on the way: every early return leaves it behind. */
  lemma OwnSandboxCleanedExactly(input: StepInput, trace: seq<Event>)
    requires Possible(input, trace) && After(input, trace).value.phase.Done?
    requires Ungrouped(input)
    ensures Cleanups(trace) == if Setbacks(trace) == 0 then 1 else 0
  {
    CleanupHolds(input, trace);
    AtMostOnePullRequest(input, trace);
  }

  /** One more event of a run that has cleaned nothing up. */
  lemma GoesUncleaned(input: StepInput, trace: seq<Event>, s: State, e: Event) returns (longer: seq<Event>, t: State)
    requires After(input, trace) == Some(s) && Next(input, s, e).Some? && Cleanups(trace) == 0 && !e.Cleanup?
    ensures longer == trace + [e] && t == Next(input, s, e).value
    ensures After(input, longer) == Some(t) && Cleanups(longer) == 0
  {
    longer, t := trace + [e], Next(input, s, e).value;
    AfterSnoc(input, trace, e);
    assert longer[..|trace|] == trace;
  }

  /** A rejected step leaves the sandbox it provisioned behind. */
  lemma RejectLeavesSandbox(input: StepInput, sandbox: string, out: StepOutput) returns (trace: seq<Event>)
    requires Ungrouped(input) && !input.preflight && !input.verifiers && input.stepRunId != ""
    requires ShouldPause(input.stepDef, out) && out.status != AwaitingInput
    ensures Possible(input, trace) && After(input, trace).value.phase == Done(Returned(Rejection(input)))
    ensures |trace| > 0 && trace[0] == Provision(Ok(sandbox)) && Cleanups(trace) == 0 && Setbacks(trace) > 0
  {
    hide ShouldPause, Cleanups;
    NothingYet(input);
    var s;
    trace, s := GoesUncleaned(input, [], Start(input), Provision(Ok(sandbox)));
    hide After, Start;
    trace, s := GoesUncleaned(input, trace, s, Execute(sandbox, input.prompt, "", Ok(out)));
    trace, s := GoesUncleaned(input, trace, s, SetAwaiting(Acked));
    trace, s := GoesUncleaned(input, trace, s, Consume(Reject));
    trace, s := GoesUncleaned(input, trace, s, CompleteRun(Failed, map[], "", "rejected by user", Acked));
    OwnSandboxCleanedExactly(input, trace);
  }

  lemma NothingYet(input: StepInput)
    ensures After(input, []) == Some(Start(input)) && Cleanups([]) == 0
  {
  }

  // --- the returned output ------------------------------------------------------------------------

  /** Every output an activity produced in the trace bears the step's own ID. */
  ghost predicate OwnReplies(input: StepInput, trace: seq<Event>) {
    forall i :: 0 <= i < |trace| ==> OwnReply(input, trace[i])
  }

  predicate OwnReply(input: StepInput, e: Event) {
    match e
    case Execute(_, _, _, r) => r.Ok? ==> r.value.stepId == input.stepDef.id
    case ExecuteContinuation(_, _, _, _, r) => r.Ok? ==> r.value.stepId == input.stepDef.id
    case _ => true
  }

  /** Every output the workflow holds bears the step's own ID. */
  predicate OwnPhase(input: StepInput, p: Phase) {
    var id := input.stepDef.id;
    match p
    case ToVerify(out, _) => out.stepId == id
    case ToSetAwaiting(out, _) => out.stepId == id
    case ToSignal(out, _) => out.stepId == id
    case ToCleanupContinuation(_, _, r) => r.Ok? ==> r.value.stepId == id
    case ToCleanupBranch(_, r) => r.Ok? ==> r.value.stepId == id
    case ToPR(out) => out.stepId == id
    case ToCleanup(out) => out.stepId == id
    case ToFinalize(out) => out.stepId == id
    case Done(r) => r.Returned? ==> r.out.stepId == id
    case _ => true
  }

  lemma OwnStepMain(input: StepInput, s: State, e: Event)
    requires OwnPhase(input, s.phase) && OwnReply(input, e) && NextMain(input, s, e).Some?
    ensures OwnPhase(input, NextMain(input, s, e).value.phase)
  {
    hide ShouldPause, Steered;
  }

  lemma OwnFinalize(input: StepInput, out: StepOutput)
    requires out.stepId == input.stepDef.id
    ensures OwnPhase(input, Finalize(input, out)) && OwnPhase(input, AfterPR(input, out)) &&
        OwnPhase(input, AfterGate(input, out))
  {
  }

  lemma OwnFail(input: StepInput, m: string)
    ensures OwnPhase(input, Fail(input, m))
  {
  }

  lemma OwnContinued(input: StepInput, r: Reply<StepOutput>)
    requires r.Ok? ==> r.value.stepId == input.stepDef.id
    ensures OwnPhase(input, AfterContinuation(input, r))
  {
    hide OwnPhase, AfterGate, Fail, ContinuationVerdict;
    match ContinuationVerdict(r)
    case Ok(out) => OwnFinalize(input, out);
    case Err(m) => OwnFail(input, m);
  }

  lemma OwnStepContinuation(input: StepInput, s: State, e: Event)
    requires OwnPhase(input, s.phase) && OwnReply(input, e) && NextContinuation(input, s, e).Some?
    ensures OwnPhase(input, NextContinuation(input, s, e).value.phase)
  {
    hide AfterContinuation, Fail;
    forall m { OwnFail(input, m); }
    if s.phase.ToCleanupContinuation? || s.phase.ToCleanupBranch? {
      OwnContinued(input, s.phase.continued);
    }
  }

  lemma OwnStepExit(input: StepInput, s: State, e: Event)
    requires OwnPhase(input, s.phase) && NextExit(input, s, e).Some?
    ensures OwnPhase(input, NextExit(input, s, e).value.phase)
  {
    hide AfterPR, Finalize;
    match s.phase
    case ToPR(out) =>
      match e.result {
        case Err(m) => OwnFinalize(input, out.(error := "step completed but PR creation failed: " + m));
        case Ok(url) => OwnFinalize(input, out.(prUrl := url));
      }
    case ToCleanup(out) => OwnFinalize(input, out);
    case _ =>
  }

  /** If every execution reports the step's own ID, so does the output the workflow returns. */
  lemma {:induction false} ReturnsOwnId(input: StepInput, trace: seq<Event>)
    requires Possible(input, trace) && OwnReplies(input, trace)
    ensures OwnPhase(input, After(input, trace).value.phase)
  {
    if trace != [] {
      hide OwnPhase, OwnReply, NextMain, NextContinuation, NextExit;
      var init, e := trace[..|trace| - 1], trace[|trace| - 1];
      ReturnsOwnId(input, init);
      var s := After(input, init).value;
      if InMain(s.phase) {
        OwnStepMain(input, s, e);
      } else if InExit(s.phase) {
        OwnStepExit(input, s, e);
      } else {
        OwnStepContinuation(input, s, e);
      }
    }
  }
}
