/** StepWorkflow as the loop it is (internal/workflow/step.go:117-490), proved to follow the
    transition system. Every activity answers as it likes; what the operator sends is a finite
    script of signals, in the order the selector takes them, and at most one answer. */
module StepWorkflow {
  import opened WorkflowModel
  import opened StepBody
  import opened StepMachine

  /** How the activities reply: any function of what has happened so far. */
  datatype Activities = Activities(
    ack: seq<Event> -> Ack,
    url: seq<Event> -> Reply<string>,          // provisioning and pull requests
    execute: seq<Event> -> Reply<StepOutput>)

  /** The signals a trace has consumed. */
  function Consumed(trace: seq<Event>): seq<Signal> {
    if trace == [] then [] else
    var e := trace[|trace| - 1];
    WithSignal(Consumed(trace[..|trace| - 1]), e)
  }

  function WithSignal(signals: seq<Signal>, e: Event): seq<Signal> {
    if e.Consume? then signals + [e.signal] else signals
  }

  function WithAnswer(answers: seq<string>, e: Event): seq<string> {
    if e.Answer? then answers + [e.text] else answers
  }

  /** The answers a trace has received. */
  function Answers(trace: seq<Event>): seq<string> {
    if trace == [] then [] else
    var e := trace[|trace| - 1];
    WithAnswer(Answers(trace[..|trace| - 1]), e)
  }

  /** An event carries the reply its activity gives at that point. */
  predicate Answered(activities: Activities, before: seq<Event>, e: Event) {
    match e
    case Provision(r) => r == activities.url(before)
    case RunPreflight(_, d) => d == activities.ack(before)
    case Execute(_, _, _, r) => r == activities.execute(before)
    case Verify(_, d) => d == activities.ack(before)
    case SetAwaiting(d) => d == activities.ack(before)
    case CreateContinuation(_, d) => d == activities.ack(before)
    case ProvisionContinuation(r) => r == activities.url(before)
    case ExecuteContinuation(_, _, _, _, r) => r == activities.execute(before)
    case CreatePR(_, r) => r == activities.url(before)
    case CompleteRun(_, _, _, _, d) => d == activities.ack(before)
    case _ => true
  }

  ghost predicate AllAnswered(activities: Activities, trace: seq<Event>) {
    forall i :: 0 <= i < |trace| ==> Answered(activities, trace[..i], trace[i])
  }

  /** The trace leads to phase p with this sandbox, with the replies the activities give, having
      consumed these signals and answers. */
  ghost predicate Reached(activities: Activities, input: StepInput, trace: seq<Event>, p: Phase, sandbox: string,
                          signals: seq<Signal>, answers: seq<string>) {
    && After(input, trace) == Some(State(p, sandbox))
    && Consumed(trace) == signals
    && Answers(trace) == answers
    && AllAnswered(activities, trace)
  }

  lemma Begun(activities: Activities, input: StepInput)
    ensures Reached(activities, input, [], Start(input).phase, Start(input).sandbox, [], [])
  {
  }

  lemma Emitted(activities: Activities, input: StepInput, trace: seq<Event>, p: Phase, sandbox: string,
                signals: seq<Signal>, answers: seq<string>, e: Event)
    requires Reached(activities, input, trace, p, sandbox, signals, answers) && Next(input, State(p, sandbox), e).Some?
    requires Answered(activities, trace, e)
    ensures var s := Next(input, State(p, sandbox), e).value;
      Reached(activities, input, trace + [e], s.phase, s.sandbox, WithSignal(signals, e), WithAnswer(answers, e))
  {
    hide Next, Answered;
    AfterSnoc(input, trace, e);
    var longer := trace + [e];
    assert longer[..|trace|] == trace;
    forall i | 0 <= i < |longer| ensures Answered(activities, longer[..i], longer[i]) {
      assert i < |trace| ==> longer[..i] == trace[..i];
    }
  }

  /** finalizeStep */
  method FinalizeStep(activities: Activities, input: StepInput, trace0: seq<Event>, out: StepOutput,
                      ghost sandbox: string, ghost sent: seq<Signal>, ghost answered: seq<string>)
    returns (trace: seq<Event>, result: Result)
    requires Reached(activities, input, trace0, Finalize(input, out), sandbox, sent, answered)
    ensures Reached(activities, input, trace, Done(result), sandbox, sent, answered)
    ensures result.Returned? ==> result.out == out
  {
    hide Reached;
    trace := trace0;
    if input.stepRunId == "" {
      return trace, Returned(out);
    }
    var done := activities.ack(trace);
    var e := CompleteRun(out.status, out.output, out.diff, out.error, done);
    Emitted(activities, input, trace, Finalize(input, out), sandbox, sent, answered, e);
    trace := trace + [e];
    match done {
      case Refused(m) => result := Errored("finalize step run " + input.stepRunId + ": " + m);
      case Acked => result := Returned(out);
    }
  }

  ghost predicate ContinuedTo(activities: Activities, input: StepInput, trace: seq<Event>, continued: Reply<StepOutput>,
                              sandbox: string, sent: seq<Signal>, answer: string) {
    Reached(activities, input, trace, if continued.Ok? then AfterGate(input, continued.value)
        else Fail(input, continued.message),
            sandbox, sent, [answer])
  }

  lemma ContinuationRan(input: StepInput, sandbox: string, out: StepOutput, answer: string, newSandbox: string,
                        e: Event)
    requires e.ExecuteContinuation? && e == ExecuteContinuation(newSandbox, input.prompt, out.question, answer,
        e.outcome)
    ensures Next(input, State(ToExecuteContinuation(out, answer, newSandbox), sandbox), e) ==
            Some(State(ToCleanupContinuation(out, newSandbox, e.outcome), sandbox))
  {
  }

  lemma ContinuationCleaned(input: StepInput, sandbox: string, out: StepOutput, newSandbox: string,
                            r: Reply<StepOutput>)
    ensures Next(input, State(ToCleanupContinuation(out, newSandbox, r), sandbox), CleanupContinuation(newSandbox)) ==
            Some(State(if out.checkpointBranch != "" && input.repos then ToCleanupBranch(out, r)
                else AfterContinuation(input, r), sandbox))
    ensures Next(input, State(ToCleanupBranch(out, r), sandbox), CleanupBranch(out.checkpointBranch)) ==
            Some(State(AfterContinuation(input, r), sandbox))
  {
    hide AfterContinuation;
  }

  /** Cleaning up after the continuation, whatever came of it. */
  method CleanUpContinuation(activities: Activities, input: StepInput, trace0: seq<Event>, output: StepOutput,
                             newSandbox: string,
                             ghost outcome: Reply<StepOutput>, ghost sandbox: string, ghost sent: seq<Signal>,
                             ghost answer: string)
    returns (trace: seq<Event>)
    requires Reached(activities, input, trace0, ToCleanupContinuation(output, newSandbox, outcome), sandbox, sent,
        [answer])
    ensures Reached(activities, input, trace, AfterContinuation(input, outcome), sandbox, sent, [answer])
  {
    hide Reached, Next, AfterContinuation;
    trace := trace0;
    ContinuationCleaned(input, sandbox, output, newSandbox, outcome);
    var e := CleanupContinuation(newSandbox);
    Emitted(activities, input, trace, ToCleanupContinuation(output, newSandbox, outcome), sandbox, sent, [answer], e);
    trace := trace + [e];
    if output.checkpointBranch != "" && input.repos {
      e := CleanupBranch(output.checkpointBranch);
      Emitted(activities, input, trace, ToCleanupBranch(output, outcome), sandbox, sent, [answer], e);
      trace := trace + [e];
    }
  }

  /** The continuation in its sandbox, which is cleaned whatever comes of it. */
  method RunContinuation(activities: Activities, input: StepInput, trace0: seq<Event>, output: StepOutput,
                         answer: string,
                         newSandbox: string, ghost sandbox: string, ghost sent: seq<Signal>)
    returns (trace: seq<Event>, continued: Reply<StepOutput>)
    requires Reached(activities, input, trace0, ToExecuteContinuation(output, answer, newSandbox), sandbox, sent,
        [answer])
    ensures ContinuedTo(activities, input, trace, continued, sandbox, sent, answer)
  {
    hide Reached, Next, AfterGate, Fail, ContinuationVerdict;
    var outcome := activities.execute(trace0);
    var e := ExecuteContinuation(newSandbox, input.prompt, output.question, answer, outcome);
    ContinuationRan(input, sandbox, output, answer, newSandbox, e);
    Emitted(activities, input, trace0, ToExecuteContinuation(output, answer, newSandbox), sandbox, sent, [answer], e);
    trace := CleanUpContinuation(activities, input, trace0 + [e], output, newSandbox, outcome, sandbox, sent, answer);
    continued := ContinuationVerdict(outcome);
  }

  /** What the operator's answer leads to: a continuation in a sandbox of its own. */
  method Continue(activities: Activities, input: StepInput, trace0: seq<Event>, output: StepOutput, answer: string,
                  ghost sandbox: string, ghost sent: seq<Signal>)
    returns (trace: seq<Event>, continued: Reply<StepOutput>)
    requires Reached(activities, input, trace0, ToAnswer(output), sandbox, sent, [])
    ensures ContinuedTo(activities, input, trace, continued, sandbox, sent, answer)
  {
    hide Reached, AfterGate, Fail, NextMain, NextExit;
    trace := trace0;
    Emitted(activities, input, trace, ToAnswer(output), sandbox, sent, [], Answer(answer));
    trace := trace + [Answer(answer)];
    assert [] + [answer] == [answer];

    var created := activities.ack(trace);
    var e := CreateContinuation(output.checkpointBranch, created);
    Emitted(activities, input, trace, ToContinuation(output, answer), sandbox, sent, [answer], e);
    trace := trace + [e];
    if created.Refused? {
      return trace, Err("create continuation step_run: " + created.message);
    }

    var provisioned := activities.url(trace);
    e := ProvisionContinuation(provisioned);
    Emitted(activities, input, trace, ToProvisionContinuation(output, answer), sandbox, sent, [answer], e);
    trace := trace + [e];
    if provisioned.Err? {
      return trace, Err("provision continuation sandbox: " + provisioned.message);
    }
    var newSandbox := provisioned.value;

    trace, continued := RunContinuation(activities, input, trace, output, answer, newSandbox, sandbox, sent);
  }

  /** Provisioning and the pre-flight. */
  method Prepare(activities: Activities, input: StepInput) returns (trace: seq<Event>, sandbox: Reply<string>)
    ensures sandbox.Ok? ==> Reached(activities, input, trace, ToExecute("", None), sandbox.value, [], [])
    ensures sandbox.Err? ==> exists s :: Reached(activities, input, trace, Fail(input, sandbox.message), s, [], [])
  {
    hide Reached, Fail;
    trace := [];
    Begun(activities, input);
    var sandboxId := input.sandboxId;
    if input.sandboxId == "" {
      var provisioned := activities.url(trace);
      var e := Provision(provisioned);
      Emitted(activities, input, trace, ToProvision, "", [], [], e);
      trace := trace + [e];
      if provisioned.Err? {
        assert Reached(activities, input, trace, Fail(input, "provision sandbox: " + provisioned.message), "", [], []);
        return trace, Err("provision sandbox: " + provisioned.message);
      }
      sandboxId := provisioned.value;
    }
    if input.preflight {
      var done := activities.ack(trace);
      var e := RunPreflight(sandboxId, done);
      Emitted(activities, input, trace, ToPreflight, sandboxId, [], [], e);
      trace := trace + [e];
      if done.Refused? {
        assert Reached(activities, input, trace, Fail(input, "pre-flight: " + done.message), sandboxId, [], []);
        return trace, Err("pre-flight: " + done.message);
      }
    }
    sandbox := Ok(sandboxId);
  }

  /** How one turn of the loop ends. */
  datatype Turn =
    | Again                      // steered: execute once more
    | Break(out: StepOutput)     // through the gate
    | Finished(out: StepOutput)  // rejected, cancelled or not verified
    | Failing(message: string)
    | Waiting                    // nothing to consume yet

  /** Where a turn that ends the loop leaves the workflow. */
  function TurnPhase(input: StepInput, turn: Turn): Phase
    requires !turn.Again? && !turn.Waiting?
  {
    match turn
    case Break(out) => AfterGate(input, out)
    case Finished(out) => Finalize(input, out)
    case Failing(m) => Fail(input, m)
  }

  /** The workflow waits, and what it waits for has not been sent: every signal is consumed, or
      there is no answer. */
  ghost predicate Starved(activities: Activities, input: StepInput, trace: seq<Event>, sandbox: string,
                          signals: seq<Signal>, answer: Option<string>) {
    || (exists out, h :: Reached(activities, input, trace, ToSignal(out, h), sandbox, signals, []))
    || (answer.None? && exists out, k {:trigger Reached(activities, input, trace, ToAnswer(out), sandbox,
        signals[..k], [])} ::
          0 <= k <= |signals| && Reached(activities, input, trace, ToAnswer(out), sandbox, signals[..k], []))
  }

  /** An ending that is reached after some of the signals and perhaps the answer. */
  ghost predicate Ended(activities: Activities, input: StepInput, trace: seq<Event>, p: Phase, signals: seq<Signal>,
                        answer: Option<string>) {
    exists sandbox, sent, answered :: Reached(activities, input, trace, p, sandbox, sent, answered) &&
        FromScript(sent, answered, signals, answer)
  }

  ghost predicate FromScript(sent: seq<Signal>, answered: seq<string>, signals: seq<Signal>, answer: Option<string>) {
    sent <= signals && (answered == [] || (answer.Some? && answered == [answer.value]))
  }

  /** Waiting for the operator: what a signal does to the turn. */
  method Pause(activities: Activities, input: StepInput, trace0: seq<Event>, output: StepOutput, sandbox: string,
               history0: string, signals: seq<Signal>, k0: nat)
    returns (trace: seq<Event>, turn: Turn, history: string, k: nat)
    requires k0 <= |signals| && Reached(activities, input, trace0, ToSetAwaiting(output, history0), sandbox,
        signals[..k0], [])
    ensures k0 <= k <= |signals|
    ensures turn.Again? ==> k == k0 + 1 && Reached(activities, input, trace, ToExecute(history, Some(output)),
        sandbox, signals[..k], [])
    ensures turn.Waiting? ==> k == |signals| && Reached(activities, input, trace, ToSignal(output, history), sandbox,
        signals, [])
    ensures !turn.Again? && !turn.Waiting? ==> Reached(activities, input, trace, TurnPhase(input, turn), sandbox,
        signals[..k], [])
  {
    hide Reached, AfterGate, Fail, Finalize, Steered, Rejection, NextContinuation, NextExit;
    trace, history, k := trace0, history0, k0;
    ghost var sent := signals[..k0];
    var done := activities.ack(trace);
    var e := SetAwaiting(done);
    Emitted(activities, input, trace, ToSetAwaiting(output, history), sandbox, sent, [], e);
    trace := trace + [e];
    if done.Refused? {
      turn := Failing("set step status to awaiting_input: " + done.message);
      return;
    }
    if k == |signals| {
      assert sent == signals;
      turn := Waiting;
      return;
    }
    e := Consume(signals[k]);
    Emitted(activities, input, trace, ToSignal(output, history), sandbox, sent, [], e);
    assert sent + [signals[k]] == signals[..k + 1];
    trace, k := trace + [e], k + 1;
    match e.signal {
      case Approve => turn := Break(output);
      case Reject => turn := Finished(Rejection(input));
      case Cancel => turn := Finished(Rejection(input));
      case Steer(instruction) =>
        history := Steered(history, output.diff, instruction);
        turn := Again;
    }
  }

  /** One turn: execute, verify, and if the output calls for it wait for a signal. */
  method Attempt(activities: Activities, input: StepInput, trace0: seq<Event>, sandbox: string, history0: string,
                 held0: Option<StepOutput>, signals: seq<Signal>, k0: nat, answer: Option<string>)
    returns (trace: seq<Event>, turn: Turn, history: string, held: Option<StepOutput>, k: nat,
        ghost answered: seq<string>)
    requires k0 <= |signals| && Reached(activities, input, trace0, ToExecute(history0, held0), sandbox, signals[..k0],
        [])
    ensures k0 <= k <= |signals| && FromScript(signals[..k], answered, signals, answer)
    ensures turn.Again? ==> k == k0 + 1 && Reached(activities, input, trace, ToExecute(history, held), sandbox,
        signals[..k], [])
    ensures turn.Waiting? ==> Starved(activities, input, trace, sandbox, signals, answer)
    ensures !turn.Again? && !turn.Waiting? ==> Reached(activities, input, trace, TurnPhase(input, turn), sandbox,
        signals[..k], answered)
  {
    hide Reached, AfterGate, Fail, Finalize, ShouldPause, VerifyFailure, Decoded, NextContinuation, NextExit;
    trace, history, held, k, answered := trace0, history0, held0, k0, [];
    ghost var sent := signals[..k0];

    var outcome := activities.execute(trace);
    var e := Execute(sandbox, input.prompt, history, outcome);
    Emitted(activities, input, trace, ToExecute(history, held), sandbox, sent, [], e);
    trace := trace + [e];
    if outcome.Err? {
      return trace, Failing(outcome.message), history, held, k, answered;
    }
    var output := Decoded(held, outcome.value);
    held := Some(output);

    if output.status == AwaitingInput {
      if answer.None? {
        assert Reached(activities, input, trace, ToAnswer(output), sandbox, signals[..k], []);
        return trace, Waiting, history, held, k, answered;
      }
      var continued;
      trace, continued := Continue(activities, input, trace, output, answer.value, sandbox, sent);
      answered := [answer.value];
      turn := if continued.Ok? then Break(continued.value) else Failing(continued.message);
      return;
    }

    if input.verifiers {
      var done := activities.ack(trace);
      e := Verify(sandbox, done);
      Emitted(activities, input, trace, ToVerify(output, history), sandbox, sent, [], e);
      trace := trace + [e];
      if done.Refused? {
        return trace, Finished(VerifyFailure(input, done.message)), history, held, k, answered;
      }
    }

    if !ShouldPause(input.stepDef, output) {
      return trace, Break(output), history, held, k, answered;
    }

    trace, turn, history, k := Pause(activities, input, trace, output, sandbox, history, signals, k);
    if turn.Waiting? {
      assert Reached(activities, input, trace, ToSignal(output, history), sandbox, signals, []);
    }
  }

  /** After the gate: pull request, cleanup and the write to the record. */
  method Leave(activities: Activities, input: StepInput, trace0: seq<Event>, output0: StepOutput, sandbox: string,
               ghost sent: seq<Signal>, ghost answered: seq<string>)
    returns (trace: seq<Event>, result: Result)
    requires Reached(activities, input, trace0, AfterGate(input, output0), sandbox, sent, answered)
    ensures Reached(activities, input, trace, Done(result), sandbox, sent, answered)
  {
    hide Reached, Finalize;
    trace := trace0;
    var output := output0;
    if input.stepDef.mode == "transform" && input.stepDef.pullRequest {
      var url := activities.url(trace);
      var e := CreatePR(sandbox, url);
      Emitted(activities, input, trace, ToPR(output), sandbox, sent, answered, e);
      trace := trace + [e];
      match url {
        case Ok(u) => output := output.(prUrl := u);
        case Err(m) => output := output.(error := "step completed but PR creation failed: " + m);
      }
    }
    if input.stepDef.sandboxGroup == "" && input.sandboxId == "" {
      var e := Cleanup(sandbox);
      Emitted(activities, input, trace, ToCleanup(output), sandbox, sent, answered, e);
      trace := trace + [e];
    }
    trace, result := FinalizeStep(activities, input, trace, output, sandbox, sent, answered);
  }

  /** The deferred writer, for an error returned before finalizeStep was started. */
  method MarkFailed(activities: Activities, input: StepInput, trace0: seq<Event>, m: string,
                    ghost sandbox: string, ghost sent: seq<Signal>, ghost answered: seq<string>)
    returns (trace: seq<Event>)
    requires Reached(activities, input, trace0, Fail(input, m), sandbox, sent, answered)
    ensures Reached(activities, input, trace, Done(Errored(m)), sandbox, sent, answered)
  {
    hide Reached;
    trace := trace0;
    if input.stepRunId != "" {
      var done := activities.ack(trace);
      var e := CompleteRun(Failed, map[], "", m, done);
      Emitted(activities, input, trace, ToMarkFailed(m), sandbox, sent, answered, e);
      trace := trace + [e];
    }
  }

  /** Whatever an execution reports, it reports for this step (internal/activity/execute.go:290-379). */
  ghost predicate ExecutesOwnStep(activities: Activities, input: StepInput) {
    forall before :: activities.execute(before).Ok? ==> activities.execute(before).value.stepId == input.stepDef.id
  }

  /** StepWorkflow: whatever the activities reply and whatever the operator sends, the calls it
      makes are a run of the transition system, which either has ended with the result returned
      or waits for a signal or an answer that was not sent. */
  method Run(activities: Activities, input: StepInput, signals: seq<Signal>, answer: Option<string>)
    returns (trace: seq<Event>, result: Option<Result>)
    ensures result.Some? ==> Ended(activities, input, trace, Done(result.value), signals, answer)
    ensures result.Some? && input.stepRunId != "" ==>
        Writes(trace) == 1 && |trace| > 0 && WroteResult(trace[|trace| - 1], result.value)
    ensures result.Some? && result.value.Returned? && ExecutesOwnStep(activities, input) ==>
        result.value.out.stepId == input.stepDef.id
    ensures result.None? ==> exists sandbox :: Starved(activities, input, trace, sandbox, signals, answer)
  {
    hide Reached, Fail, AfterGate, Finalize, Writes, WroteResult, ExecutesOwnStep;
    var prepared;
    trace, prepared := Prepare(activities, input);
    if prepared.Err? {
      ghost var s :| Reached(activities, input, trace, Fail(input, prepared.message), s, [], []);
      trace := MarkFailed(activities, input, trace, prepared.message, s, [], []);
      assert FromScript([], [], signals, answer);
      EndedWell(activities, input, trace, Errored(prepared.message), signals, answer);
      return trace, Some(Errored(prepared.message));
    }
    var sandbox := prepared.value;
    var history, turn, k := "", Again, 0;
    var held: Option<StepOutput> := None;
    ghost var answered: seq<string> := [];
    while turn.Again?
      invariant k <= |signals| && FromScript(signals[..k], answered, signals, answer)
      invariant turn.Again? ==> Reached(activities, input, trace, ToExecute(history, held), sandbox, signals[..k], [])
      invariant turn.Waiting? ==> Starved(activities, input, trace, sandbox, signals, answer)
      invariant !turn.Again? && !turn.Waiting? ==> Reached(activities, input, trace, TurnPhase(input, turn), sandbox,
          signals[..k], answered)
      decreases turn.Again?, |signals| - k
    {
      trace, turn, history, held, k, answered := Attempt(activities, input, trace, sandbox, history, held, signals, k,
          answer);
    }
    var r;
    match turn {
      case Waiting => return trace, None;
      case Break(out) => trace, r := Leave(activities, input, trace, out, sandbox, signals[..k], answered);
      case Finished(out) => trace, r := FinalizeStep(activities, input, trace, out, sandbox, signals[..k], answered);
      case Failing(m) =>
        r := Errored(m);
        trace := MarkFailed(activities, input, trace, m, sandbox, signals[..k], answered);
    }
    EndedWell(activities, input, trace, r, signals, answer);
    result := Some(r);
  }

  lemma EndedWell(activities: Activities, input: StepInput, trace: seq<Event>, r: Result, signals: seq<Signal>,
                  answer: Option<string>)
    requires Ended(activities, input, trace, Done(r), signals, answer)
    ensures input.stepRunId != "" ==> Writes(trace) == 1 && |trace| > 0 && WroteResult(trace[|trace| - 1], r)
    ensures r.Returned? && ExecutesOwnStep(activities, input) ==> r.out.stepId == input.stepDef.id
  {
    hide WroteResult, Writes, After, OwnReplies;
    OneTerminalWrite(input, trace);
    if ExecutesOwnStep(activities, input) {
      RepliesOwn(activities, input, trace);
      ReturnsOwnId(input, trace);
    }
  }

  lemma RepliesOwn(activities: Activities, input: StepInput, trace: seq<Event>)
    requires AllAnswered(activities, trace) && ExecutesOwnStep(activities, input)
    ensures OwnReplies(input, trace)
  {
    forall i | 0 <= i < |trace| ensures OwnReply(input, trace[i]) {
      assert Answered(activities, trace[..i], trace[i]);
    }
  }

  /** Some run of StepWorkflow on this step, whose executions report for the step, returned out. */
  ghost predicate ReturnedBy(step: StepDef, out: StepOutput) {
    exists activities: Activities, input: StepInput, trace, signals, answer ::
      && input.stepDef == step && ExecutesOwnStep(activities, input)
      && Ended(activities, input, trace, Done(Returned(out)), signals, answer)
  }

  /** The children of w are such runs. */
  ghost predicate ChildrenAreRuns(w: World) {
    forall step, outputs, j :: w.child(step, outputs, j).Ok? ==> ReturnedBy(step, w.child(step, outputs, j).value)
  }

  /** The contract the scheduler puts on child workflows holds of them. */
  lemma ChildrenHonest(w: World)
    requires ChildrenAreRuns(w)
    ensures Honest(w)
  {
    hide Ended, ExecutesOwnStep;
    forall step, outputs, j | w.child(step, outputs, j).Ok?
      ensures w.child(step, outputs, j).value.stepId == step.id {
      var out := w.child(step, outputs, j).value;
      assert ReturnedBy(step, out);
      var activities: Activities, input: StepInput, trace: seq<Event>, signals: seq<Signal>, answer: Option<string> :|
        && input.stepDef == step && ExecutesOwnStep(activities, input)
        && Ended(activities, input, trace, Done(Returned(out)), signals, answer);
      EndedWell(activities, input, trace, Returned(out), signals, answer);
    }
  }
}
