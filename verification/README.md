# Fleetlift, modelled and verified

Fleetlift runs coding agents over repositories. A workflow is a list of steps with dependencies;
a static validator checks it, `DAGWorkflow` runs it wave by wave, and `StepWorkflow` runs one
step: execute, verify, wait for the operator, open a pull request, write the record. This project
models that engine and proves how the validator, the scheduler, the step machine and the run view
fit together. It then proves the central law of several modules around the engine.

Loops, mutable maps and records keep their form: `DagRun` holds the scheduler's `pending`,
`outputs` and `sandboxes`, the validator's queue and tables are loop variables, and the walkers,
caches and tables are classes. Each method is tied to a specification, and the theorems are lemmas
about the specifications. Activities, signals, clocks, random numbers and the database reply
as they like, within the contracts listed at the end.

## The main results

* **Validated runs are sound.** `RunHandler.CreateRun` puts the checks and the scheduler together. A
  workflow is started exactly when its steps are well formed, everything its templates refer to
  resolves and the other checks report nothing. Whatever its steps then do, the run never reaches
  the deadlock branch, launches each step at most once, and launches it after everything upstream of
  it and after every step its prompt or action config names in a field chain `.Steps.X.F`. It
  provisions each sandbox group at most once, cleans what it provisioned exactly once, and writes
  one terminal status: complete exactly if it ended without an error, and then every step has a
  result and only optional ones failed; failed, with one line for each step that failed without
  being optional; or cancelled.
* **Deadlock, exactly.** A run that is not cut short by a cancellation, a provisioning error or a
  failed step reaches the deadlock branch exactly when the workflow has an unknown dependency or a
  cycle (`RunTheorems.DeadlockExactly`). The Kahn check reports exactly the cycles, for every queue
  order, with repeated edges, self-loops and duplicate IDs.
* **Confluence, exactly.** A condition may name any step. In an accepted workflow the order of steps
  never matters, in any world whose conditions read only the steps they name, if and only if every
  step a condition names is the condition's own, upstream of it or downstream of it
  (`Conditions.OrderIrrelevantExactly`); `Conditions.NonLocalConditionBreaksConfluence` is an
  accepted workflow where it does matter. Then a completed run has the outputs of running the steps
  one at a time in any dependency order, and whether a run fails is fixed in the same way.
* **A step's wave is its level.** After k waves exactly the steps whose longest dependency chain is
  shorter than k have results, `computeLevels` in the run view computes that number, and a completed
  run takes exactly one wave more than the highest level.
* **The step machine** completes its record exactly once, opens a pull request only behind the gate
  of its approval policy, and exactly one if the step asks for one and nothing goes wrong, returns
  the first error or the output its events add up to, executes once more than it was steered, and
  does nothing after an abort. Attempts share one output, so fields a later reply leaves out
  survive; gate and conversation are stated over that output, with the exact condition under which
  the gate decides as the attempt's own reply would. The imperative loop is proved to produce only
  runs of the transition system these hold of.
* **Around it:** fan-out settlement and signal routing, profile merging as an associative and
  idempotent override, refresh-token rotation over any history, the log stream's wake-up protocol,
  shell quoting against the shell's own rules, the bridge's line and chunk handling, the key cache.

## Files

| file | content |
|---|---|
| `WorkflowModel.dfy`, `Sequences.dfy`, `DependencyGraph.dfy`, `StringOrder.dfy` | shared data, lists, graphs and chains, ID order |
| `Kahn.dfy`, `StructureValidator.dfy` | the structural check |
| `UpstreamSearch.dfy`, `TemplateRefs.dfy` | upstream search and template references |
| `StructureMeaning.dfy`, `TemplateMeaning.dfy` | what the two checks accept and report, in terms of the workflow alone |
| `StepBody.dfy`, `FanOut.dfy`, `FanOutDispatch.dfy` | one step of a wave, fan-out, signal routing |
| `WaveSemantics.dfy`, `SkipSpec.dfy`, `RunLog.dfy`, `Scheduler.dfy` | the wave loop and its meaning |
| `DagLevels.dfy`, `RunTheorems.dfy`, `RunHandler.dfy` | the run view and the theorems between the parts |
| `Conditions.dfy` | when conditions make the order of steps matter |
| `StepMachine.dfy`, `StepOutcomes.dfy`, `StepWorkflow.dfy` | the step workflow: transition system, what its runs do and return, the code |
| `KeyedMerge.dfy`, `AgentProfile.dfy` | profile merge |
| `RefreshTokens.dfy` | refresh-token rotation |
| `Listener.dfy`, `LogStream.dfy` | notifications and log streaming |
| `ShellQuote.dfy` | shell quoting |
| `Bridge.dfy` | line and chunk handling |
| `ImproverCache.dfy` | the key cache |

## Model

| member | source | states |
|---|---|---|
| Kahn.InitialQueue | internal/workflow/validate.go:155-160 | the queue starts with exactly the IDs without dependencies, each once, whatever the map's iteration order |
| Kahn.CountProcessed | internal/workflow/validate.go:161-172 | each ID is dequeued at most once; fewer IDs are dequeued than tabulated exactly when the graph has a cycle |
| Kahn.Decrement | internal/workflow/validate.go:163-171 | taking one dequeued ID's edges off keeps every in-degree the number of edges from undequeued IDs, and queues exactly the IDs that reach zero |
| Kahn.KahnVerdict | internal/workflow/validate.go:161-175 | with an empty queue the dequeued IDs are all IDs exactly when the dependency relation is acyclic |
| StructureValidator.BuildTables | internal/workflow/validate.go:137-153 | in-degree map and adjacency lists tabulate the dependencies between valid IDs in the order they are listed, each as often as it is named |
| StructureValidator.CheckIds | internal/workflow/validate.go:101-115 | exactly the empty, malformed and duplicate IDs are reported, in step order |
| StructureValidator.CheckDependencies | internal/workflow/validate.go:126-133 | exactly the dependencies on IDs that are not valid are reported, in order |
| StructureValidator.CheckKinds | internal/workflow/validate.go:177-186 | exactly the steps with both or neither of execution and action are reported |
| StructureValidator.ValidateStructure | internal/workflow/validate.go:98-189 | the report is the ID, dependency, cycle and kind errors in that order, the cycle error exactly when there is a cycle over valid IDs |
| StructureValidator.StructureAccepts | internal/workflow/validate.go:98-189 | nothing is reported exactly for unique well-formed IDs, known dependencies, no cycle and one kind per step |
| StructureMeaning.ErrorsExactly | internal/workflow/validate.go:98-189 | an error is reported if and only if what it says is wrong with the steps; the cycle error if and only if known steps depend on one another in a circle |
| StructureMeaning.ErrorsInOrder | internal/workflow/validate.go:98-189 | ID errors come before unknown dependencies, these before the cycle error, of which there is one at most, and that before kind errors |
| StructureValidator.ValidGraphIsStepGraph | internal/workflow/validate.go:117-153 | on accepted IDs the graph Kahn's algorithm sees is the graph the scheduler runs |
| UpstreamSearch.Search | internal/workflow/validate.go:571-583 | the breadth-first search finds exactly the transitive closure, on cyclic graphs too, and ends |
| UpstreamSearch.UpstreamOf | internal/workflow/validate.go:561-583 | upstreamOf is exactly the transitive closure of depends_on, the source included only on a cycle |
| TemplateRefs.CompositeKeyInjective | internal/workflow/validate.go:374-437 | the dotted key by which references are deduplicated never identifies two different references |
| TemplateRefs.RefWalker.VisitField | internal/workflow/validate.go:374-437 | one field chain adds exactly its parameter or step reference to what was collected |
| TemplateRefs.RefWalker.Walk | internal/workflow/validate.go:374-437 | the walk collects exactly the references of all field chains anywhere in the tree |
| TemplateRefs.ExtractTemplateRefs | internal/workflow/validate.go:348-447 | the parameters in order and each step reference once, exactly those the template mentions |
| TemplateRefs.CheckRef | internal/workflow/validate.go:641-682 | a reference is reported exactly for its fault: unknown step, not upstream, not in the schema or contract |
| TemplateRefs.CheckTemplate | internal/workflow/validate.go:628-684 | a template's report is exactly its unknown parameters and faulty references |
| TemplateRefs.StepTemplates | internal/workflow/validate.go:605-626 | exactly the prompt, the non-empty string config values in key order, and the condition |
| TemplateRefs.ValidateTemplateRefs | internal/workflow/validate.go:587-712 | the check reports exactly the faults of all prompts, configs and conditions |
| TemplateRefs.AcceptedRefsAreUpstream | internal/workflow/validate.go:641-658 | with nothing reported, every step a prompt or config refers to is upstream of the referring step |
| TemplateMeaning.ChainsExactly | internal/workflow/validate.go:374-437 | the chains of a template are exactly the field nodes that can be reached from its root, through pipelines, arguments and every branch |
| TemplateMeaning.FaultsExactly | internal/workflow/validate.go:587-712 | an error is reported for a step if and only if one of the chains it reads gives rise to it: an undeclared parameter, an unknown step, one not upstream, an output not in the schema or the contract |
| TemplateMeaning.RefsResolveExactly | internal/workflow/validate.go:587-712 | nothing is reported if and only if, for every chain a prompt, config or condition reads, the parameter is declared, the step exists and, outside conditions, is upstream and promises the output as far as it declares any |
| FanOut.AggregateFanOut | internal/workflow/dag.go:779-813 | a single result is passed on under the step's ID; otherwise results in order, empty slots as failures, Failed if any failed, errors joined |
| FanOut.SuccessResults | internal/workflow/dag.go:577-583 | exactly the successes are kept, in repository order |
| FanOut.CountResults | internal/workflow/dag.go:523-533 | the number of failed children; both counts are positive exactly when some children succeeded and some failed |
| FanOut.SettleFanOut | internal/workflow/dag.go:521-588 | the decision matters only for a partial failure: timeout, terminate, or go on with the successes |
| FanOut.SettledStatus | internal/workflow/dag.go:521-588 | with children Complete or Failed, Complete exactly if none failed, or the failure was partial and the operator did not terminate |
| FanOut.CompleteCarriesSuccesses | internal/workflow/dag.go:577-588 | a Complete aggregate carries exactly the successful results in repository order |
| FanOut.CarriesAll | internal/workflow/dag.go:779-813 | an aggregate without a partial failure carries every result in its place, a missing one as a failure; its error is the error texts there, in order, joined |
| FanOut.FailureErrorsExactly | internal/workflow/dag.go:801-808 | the error texts are exactly those of the failed outputs that have one, in order |
| FanOut.JoinedExactly | internal/workflow/dag.go:809-811 | joining puts one "; " between neighbours and nothing else |
| FanOut.PartialFailureText | internal/workflow/dag.go:560-576 | a timeout or termination says how many of how many children failed |
| FanOut.DecimalExactly | internal/workflow/dag.go:565-573 | the two counts are written as numerals without leading zeros that stand for them |
| FanOutDispatch.FirstOwnSignalWins | internal/workflow/dag.go:197-213 | a waiting step acts only on the first payload that bears its own ID |
| FanOutDispatch.SettlesOnFirstSignal | internal/workflow/dag.go:549-588 | a partial failure that has waited ends Complete if and only if the wait received a signal and the first one that arrived for the step was not terminate |
| FanOutDispatch.PromptNeverBlocks | internal/workflow/dag.go:197-213 | if each signal for a known step arrives while that step waits, no send ever stays blocked |
| FanOutDispatch.StuckExactly | internal/workflow/dag.go:199-215 | over any run: with its queue drained, each step still to come waiting when its signal is sent, the dispatcher is stuck if and only if more signals arrived for some known step than it takes: one, or none if it ended without receiving |
| FanOutDispatch.StuckNowExactly | internal/workflow/dag.go:208-209 | with nothing to dispatch and no send to a step still to come, it is stuck if and only if some step that has ended got more signals than it received |
| FanOutDispatch.StuckStays | internal/workflow/dag.go:208-209 | once stuck it stays stuck, and no step receives anything more |
| FanOutDispatch.SendCompletes | internal/workflow/dag.go:208-209 | a send to a step still to come completes when that step waits |
| FanOutDispatch.DrainIsRun | internal/workflow/dag.go:202-213 | draining the queue is something the dispatcher and the steps can do, with no further signal |
| FanOutDispatch.DuplicateSignalSticks | internal/workflow/dag.go:208-209 | two signals for one waiting step block the dispatcher for good |
| FanOutDispatch.StraySignalSticks | internal/workflow/dag.go:186-209 | one signal for a step that ends without ever waiting blocks it too |
| StepBody.RunStep | internal/workflow/dag.go:294-590 | a step that is not optional gets Skipped, naming its first dependency that was skipped or failed; any other gets what its own calls deliver: resolve error, plugin error, false condition, action, single child or fan-out, in that order of precedence, whatever order fan-out children end in |
| StepBody.ResultExactly | internal/workflow/dag.go:302-588 | the same of the result as a function of the step and the outputs it is launched with |
| StepBody.ResultCarriesId | internal/workflow/dag.go:299-588 | the result of a step carries the step's ID on every path |
| StepBody.ResultLocal | internal/workflow/dag.go:294-590 | the result of a step that looks only upstream is fixed by the results upstream |
| WaveSemantics.WaveDomain | internal/workflow/dag.go:239-248 | after k waves exactly the steps whose longest dependency chain is shorter than k have results |
| WaveSemantics.WaveIsLongestChain | internal/workflow/dag.go:653-669 | a step is ready in exactly the wave numbered by its longest chain |
| WaveSemantics.WavesClosedUnderDeps | internal/workflow/dag.go:239-248 | outputs is closed under dependencies at every loop head |
| WaveSemantics.UpstreamPresentAtLaunch | internal/workflow/dag.go:653-669 | everything upstream of a ready step has a result |
| WaveSemantics.StuckMeansBroken | internal/workflow/dag.go:245-248 | nothing ready with steps left means an unknown dependency or a cycle |
| WaveSemantics.WavesFinish | internal/workflow/dag.go:239-248 | on a closed acyclic graph every step has a result after at most one wave more than there are steps |
| WaveSemantics.Confluence | internal/workflow/dag.go:239-647 | for local steps, one step at a time in any dependency order gives exactly the waves' outputs |
| SkipSpec.SkipsExactly | internal/workflow/dag.go:891-907 | once skipping stops, exactly the pending steps that reach the failed one through pending steps are gone |
| SkipSpec.WaveUntouched | internal/workflow/dag.go:598-643 | skipping while results are collected never touches a step of the same wave |
| SkipSpec.CollectEnd | internal/workflow/dag.go:598-643 | after a whole wave is collected exactly what is downstream of its fatal steps has been skipped |
| Scheduler.FindReady | internal/workflow/dag.go:653-669 | exactly the pending steps whose dependencies all have results, in ID order, for every map iteration order |
| Scheduler.ReadyListUnique | internal/workflow/dag.go:667 | that list is the only one: the iteration order leaves no trace |
| Scheduler.IsOptional | internal/workflow/dag.go:881-888 | the flag of the first step with the ID, false for unknown IDs |
| Scheduler.DagRun.constructor | internal/workflow/dag.go:171-175 | every step starts pending under its ID |
| Scheduler.DagRun.SkipDownstream | internal/workflow/dag.go:891-907 | drops exactly the downstream of the failed step from pending, gives each a Skipped result naming its cause, and ends on cyclic graphs |
| Scheduler.DagRun.ProvisionGroups | internal/workflow/dag.go:250-288 | every group of the wave has a sandbox afterwards, none is provisioned twice, none is replaced |
| Scheduler.DagRun.LaunchWave | internal/workflow/dag.go:290-591 | for every interleaving each slot gets the result of its step on the outputs the wave began with |
| Scheduler.DagRun.RecordResult | internal/workflow/dag.go:609-641 | one result is recorded; the step_failed item is attempted, and the downstream skipped, exactly if the result is Failed and the step is not optional |
| Scheduler.DagRun.Collect | internal/workflow/dag.go:598-643 | all results of the wave are recorded and the error lines are those of the fatal ones in order |
| Scheduler.DagRun.RunWaves | internal/workflow/dag.go:239-649 | the loop ends with all steps recorded, a deadlock, a cancellation, a provisioning error or a failed wave, and in each case pending and outputs are what the semantics says |
| Scheduler.DagRun.CleanupGroups | internal/workflow/dag.go:218-237 | exactly the sandboxes in the map are cleaned, in group order |
| Scheduler.DagRun.FinishRun | internal/workflow/dag.go:58-112 | complete without an error, cancelled for a cancellation or an error that wraps one, failed with its text for any other; the run item follows from the status and whether a step item was stored |
| Scheduler.DagRun.Execute | internal/workflow/dag.go:39-650 | every run that was marked running ends with a complete log: body, cleanup, then closing; exactly one terminal status is in it, the one its error calls for; complete means every step has a result and whatever failed was optional, failed steps are named one by one, and step_failed items are attempted for exactly the steps that failed without being optional |
| Scheduler.OutcomeSettles | internal/workflow/dag.go:598-649 | in statuses and flags: without an error every step has a result and whatever failed was optional; the error of a failed run has one line, with its error text, for each step that failed without being optional, in ID order |
| RunLog.EachGroupCleanedOnce | internal/workflow/dag.go:218-288 | each sandbox is cleaned exactly as often as it was provisioned, and each group is provisioned at most once |
| RunLog.OneTerminalStatus | internal/workflow/dag.go:58-84 | exactly one terminal status is written |
| RunLog.RunItemRule | internal/workflow/dag.go:86-112 | the run item is attempted once for a completed run, for a failed one exactly if no step_failed item was stored, never for a cancelled one |
| DagLevels.FoundGraphIsStepGraph | web/src/components/DAGGraph.tsx:229 | with unique IDs the graph the layout walks is the scheduler's |
| DagLevels.LevelSearch.Visit | web/src/components/DAGGraph.tsx:225-238 | a visit ends on cyclic input too, and on acyclic input memoises the longest chain |
| DagLevels.ComputeLevels | web/src/components/DAGGraph.tsx:221-244 | every step gets a level, and on acyclic input it is the length of its longest dependency chain |
| RunTheorems.FinishedMeansSound | internal/workflow/dag.go:239-248 | if the waves ever cover all steps, the graph has no unknown dependency and no cycle |
| RunTheorems.DeadlockExactly | internal/workflow/dag.go:245-248 | a run not cut short deadlocks exactly for an unknown dependency or a cycle |
| RunTheorems.ValidatedNeverDeadlocks | internal/workflow/validate.go:97-189 | a structurally accepted workflow never deadlocks |
| RunTheorems.ReferencesPresentAtLaunch | internal/workflow/dag.go:316 | every step a validated prompt or config refers to has its result recorded before the launch |
| RunTheorems.WaveIsLevel | web/src/components/DAGGraph.tsx:221-244 | the wave a step is launched in is the level computeLevels gives it |
| RunTheorems.WavesTaken | internal/workflow/dag.go:239-248 | a completed run takes exactly one wave more than the highest level, none for a workflow without steps |
| RunTheorems.BadDependencySkips | internal/workflow/dag.go:302-313 | however a run ends, every step with a result that is not optional and depends on one skipped or failed is Skipped, and unless a failure ended the run its error names the first such dependency |
| RunTheorems.AbortSkipsDownstream | internal/workflow/dag.go:598-643 | a failure skips exactly the steps not yet launched from which a failed step can be reached through such steps, and each names a dependency that failed or was skipped for it |
| RunTheorems.CompleteExactly | internal/workflow/dag.go:58-84 | the record says complete exactly for a run without an error, and then every step has a result and whatever failed was optional |
| RunTheorems.CompletedRunIsSequential | internal/workflow/dag.go:239-647 | a completed run of local steps has the outputs of any sequential order |
| RunTheorems.FailureIsSequential | internal/workflow/dag.go:610-646 | a run of local steps fails exactly when some step that is not optional is Failed in the sequential results |
| Conditions.OrderIrrelevantExactly | internal/workflow/validate.go:685-707 | in an accepted workflow all orders give the waves' outputs, in every world whose conditions read what they name, if and only if each named step is the condition's own, upstream or downstream |
| Conditions.ComparableIsLocal | internal/workflow/dag.go:345-349 | a condition on such steps is fixed by the upstream results of its step in whatever outputs that can be launched with |
| Conditions.IncomparableMatters | internal/workflow/dag.go:345-349 | a condition on any other step has a world in which two orders differ |
| Conditions.ComparableRunIsSequential | internal/workflow/dag.go:239-647 | then a completed run of an accepted workflow has the outputs of every order |
| Conditions.NonLocalConditionBreaksConfluence | internal/workflow/validate.go:705-706 | two accepted steps, the second on the condition that the first is complete, give different outputs in their two orders |
| RunHandler.CreateRun | internal/server/handlers/runs.go:97-103 | a run is started exactly if the steps are well formed, every reference resolves and the other checks report nothing; it is then sound from launch to clean-up, skips spread, and it is recorded complete exactly if it ended without an error, every step having a result and no step that is not optional having failed |
| StepMachine.OneTerminalWrite | internal/workflow/step.go:121-148 | the record is completed at most once, exactly once by the end, with the returned status or with failed and the error |
| StepMachine.OneExecutionPerSteer | internal/workflow/step.go:200-429 | executions are one more than the steers consumed |
| StepMachine.ConversationKept | internal/workflow/step.go:425-428 | the history handed to the next attempt is the conversation so far, each instruction with the last diff any attempt had |
| StepMachine.AttemptSeesConversation | internal/workflow/step.go:213-225 | every attempt gets the original prompt and that conversation |
| StepMachine.PullRequestNeedsGate | internal/workflow/step.go:348-444 | a pull request follows an attempt that passed its verifiers and, if the output it was decoded into called for a pause, an approval; or a finished continuation |
| StepMachine.PullRequestNeedsApproval | internal/workflow/step.go:371-444 | outside continuations no pull request follows an attempt whose own reply calls for a pause unless it was approved |
| StepMachine.DiffOwnExactly | internal/workflow/step.go:201-223 | the diff that gate and conversation see is the attempt's own if and only if it has one or no earlier attempt did |
| StepMachine.GateOwnExactly | internal/workflow/step.go:492-505 | the gate decides as the attempt's own reply would if and only if there is neither an empty diff after a non-empty one under on_changes nor, under agent, a reply silent on needs_review after one that wanted it |
| StepMachine.GateNeverLaxer | internal/workflow/step.go:492-505 | a reply that calls for a pause by itself is always paused |
| StepMachine.StaleDiffPauses | internal/workflow/step.go:201-428 | a run in which a steered attempt without changes waits for approval because an earlier attempt had some |
| StepMachine.NothingAfterAbort | internal/workflow/step.go:358-369 | after a reject, cancel, failed verification or error only the write to the record follows |
| StepMachine.AtMostOnePullRequest | internal/workflow/step.go:431-459 | at most one pull request and at most one clean-up of the own sandbox |
| StepMachine.OwnSandboxCleanedExactly | internal/workflow/step.go:446-459 | a finished ungrouped step has cleaned its sandbox exactly if nothing went wrong on the way |
| StepMachine.RejectLeavesSandbox | internal/workflow/step.go:413-424 | a rejected run ends with the sandbox it provisioned uncleaned |
| StepMachine.ReturnsOwnId | internal/workflow/step.go:358-467 | if every execution reports the step's own ID, so does the returned output |
| StepOutcomes.PullRequestFollows | internal/workflow/step.go:348-444 | outside continuations a pull request directly follows an attempt, its verification if configured, and then set-awaiting and an approval: always under "always", under "on_changes" if an attempt so far had a diff, under "agent" if the last attempt that said so wanted a review; otherwise it follows without a pause |
| StepOutcomes.PausesExactly | internal/workflow/step.go:371-375 | a run is only set to await input under one of these three policies and for that reason, so never under any other |
| StepOutcomes.PullRequestExactly | internal/workflow/step.go:431-444 | a finished run has attempted one pull request if the step transforms, asks for one and nothing went wrong, and none otherwise |
| StepOutcomes.SetupExactly | internal/workflow/step.go:150-198 | before the first attempt a sandbox is provisioned exactly if none was handed in, and the pre-flight run there exactly if there is one |
| StepOutcomes.ResultExactly | internal/workflow/step.go:117-468 | a finished run returns the error of the first thing that went wrong, and if nothing did the output its events add up to |
| StepOutcomes.SharedOutput | internal/workflow/step.go:201-223 | the attempts leave the ID and status of the last one and each text field from the last one that set it |
| StepOutcomes.SharedKeys | internal/workflow/step.go:201-223 | and each output key from the last attempt that reported it |
| StepOutcomes.OneSandbox | internal/workflow/step.go:150-459 | pre-flight, attempts, verifications, pull request and clean-up all happen in one sandbox |
| StepOutcomes.ContinuationFollows | internal/workflow/step.go:230-304 | a continuation follows an attempt that asked for input, the answer, its record and a sandbox of its own, with the original prompt, the question and the answer |
| StepOutcomes.ContinuationTidied | internal/workflow/step.go:306-331 | after it its sandbox is cleaned, then the checkpoint branch exactly if there is one and a repository |
| StepOutcomes.NeverStuck | internal/workflow/step.go:117-468 | until a run is done there is something it can do next |
| StepWorkflow.Prepare | internal/workflow/step.go:150-198 | a handed-in sandbox is used as it is; provisioning and pre-flight errors end the run |
| StepWorkflow.Attempt | internal/workflow/step.go:205-429 | one turn of the loop follows the transition system and consumes at most one signal |
| StepWorkflow.Pause | internal/workflow/step.go:376-429 | what each signal does: through the gate, a rejection, or another attempt with the grown history |
| StepWorkflow.Continue | internal/workflow/step.go:230-346 | the one continuation, from the answer to its clean-up, follows the transition system |
| StepWorkflow.RunContinuation | internal/workflow/step.go:283-341 | the continuation runs in its own sandbox, which is cleaned whatever comes of it, and its error or second question ends the run |
| StepWorkflow.Leave | internal/workflow/step.go:431-467 | pull request, clean-up and final write follow the transition system |
| StepWorkflow.FinalizeStep | internal/workflow/step.go:471-490 | nothing is written without a record; otherwise the output's own status is, and a failed write becomes the error |
| StepWorkflow.MarkFailed | internal/workflow/step.go:131-148 | the deferred writer marks the record failed with the error's text, if there is a record |
| StepWorkflow.Run | internal/workflow/step.go:117-468 | whatever activities reply and operators send, the run is one of the transition system; it ends with its record written once and, for executions of this step, its own ID returned, or waits for something that was not sent |
| StepWorkflow.ChildrenHonest | internal/activity/execute.go:290-379 | children that are runs of the step workflow, with executions that report their own step, meet the scheduler's contract |
| KeyedMerge.MergeByKey | internal/model/agent_profile.go:136-151 | the two loops over the index map compute the ordered override, also on a baseline with duplicates |
| KeyedMerge.MergedEntry | internal/model/agent_profile.go:142-150 | looking up a key finds the last workflow entry, else the last baseline entry |
| KeyedMerge.MergedKeys | internal/model/agent_profile.go:136-151 | the keys are the baseline's in order, then the new ones in order of first appearance |
| KeyedMerge.MergedAt | internal/model/agent_profile.go:144-145 | position by position: only the last baseline entry of a key is ever replaced |
| KeyedMerge.MergedUniqueExactly | internal/model/agent_profile.go:136-151 | the merged keys are unique exactly if the baseline's are |
| KeyedMerge.OverrideAssociative | internal/model/agent_profile.go:133-183 | merging is associative on all lists |
| KeyedMerge.OverrideAgain | internal/model/agent_profile.go:133-183 | merging the same list again changes nothing |
| KeyedMerge.EmptyBaselineExactly | internal/model/agent_profile.go:133-151 | an empty baseline gives the list back exactly if its keys are unique |
| AgentProfile.PluginKeyExactly | internal/model/agent_profile.go:84-89 | two plugins collide exactly if they have the same URL, or no URL and the same name |
| AgentProfile.SkillKeyExactly | internal/model/agent_profile.go:112-117 | the same for skills |
| AgentProfile.McpKeyExactly | internal/model/agent_profile.go:168-180 | two MCPs collide exactly if they have the same name |
| AgentProfile.MergeProfiles | internal/model/agent_profile.go:133-183 | plugins, skills and MCPs are each merged by their key, nil as empty |
| AgentProfile.MergeAssociative | internal/model/agent_profile.go:133-183 | layering profiles does not depend on the grouping |
| AgentProfile.MergeAgain | internal/model/agent_profile.go:133-183 | re-merging a profile changes nothing |
| AgentProfile.NilIdentityExactly | internal/model/agent_profile.go:185-204 | nil is a right identity, and a left identity exactly for key-unique profiles |
| AgentProfile.MergeUniqueExactly | internal/model/agent_profile.go:133-183 | keys stay unique exactly if the baseline's are |
| RefreshTokens.TokenStore.RefreshSession | internal/auth/jwt.go:90-145 | whichever statement fails, the committed table and the outcome are those of one atomic rotation |
| RefreshTokens.TokenStore.Transact | internal/auth/jwt.go:108-144 | the statements of the transaction, reuse committing before its error is returned |
| RefreshTokens.TokenStore.IssueRefreshToken | internal/auth/jwt.go:168-179 | a fresh unused row for 30 days, or nothing |
| RefreshTokens.TokenStore.IssueSession | internal/auth/jwt.go:74-77 | a login adds one fresh row for the user, or nothing |
| RefreshTokens.OutcomeExactly | internal/auth/jwt.go:108-145 | exactly when each of the five outcomes happens; anything but success and reuse leaves the table alone |
| RefreshTokens.SuccessRotates | internal/auth/jwt.go:128-144 | a success uses up one row, adds one new one, and touches nothing else |
| RefreshTokens.SuccessConserves | internal/auth/jwt.go:128-144 | a success conserves every user's number of live tokens |
| RefreshTokens.ReuseDeletesUser | internal/auth/jwt.go:112-123 | reuse deletes all rows of that user and no other |
| RefreshTokens.LoginExactly | internal/auth/jwt.go:168-179 | a login adds exactly one unused row of that user, good for 30 days, or changes nothing |
| RefreshTokens.AtMostOneSuccess | internal/auth/jwt.go:90-145 | over any history a token gives at most one successful refresh |
| RefreshTokens.ReuseKillsEarlierTokens | internal/auth/jwt.go:112-123 | after reuse no token issued to that user before is ever found again |
| RefreshTokens.LiveTokensBounded | internal/auth/jwt.go:66-145 | over any history a user has at most as many live tokens as logins |
| RefreshTokens.LiveTokensExactly | internal/auth/jwt.go:66-145 | it has exactly as many as it has logged in without an error since reuse of one of its tokens was last detected |
| Listener.Listener.Subscribe | internal/server/notify/listener.go:45-51 | a new empty channel is appended to the run's subscribers |
| Listener.Listener.Unsubscribe | internal/server/notify/listener.go:54-63 | exactly that channel is removed |
| Listener.Listener.FanOut | internal/server/notify/listener.go:67-77 | every subscriber of the run ends with a signal, and no other channel changes |
| LogStream.SelectExactly | internal/server/handlers/runs.go:329-332 | the query returns exactly the run's rows above the cursor, ascending |
| LogStream.StreamFlush | internal/server/handlers/runs.go:326-355 | the rows are written in order and the cursor ends at the last; a failed query moves nothing |
| LogStream.Stream | internal/server/handlers/runs.go:394-411 | whatever writers and listener do in between, the loop is a run of the protocol and writes the rows the protocol sends |
| LogStream.InvariantHolds | internal/server/handlers/runs.go:394-411 | over every interleaving the rows sent are the run's rows up to the cursor, but for overtaken ones |
| LogStream.SubscribeStarts | internal/server/notify/listener.go:45-51 | the listener's Subscribe gives the stream the channel its protocol starts with |
| LogStream.FanOutNotifies | internal/server/notify/listener.go:67-77 | the listener's fanOut does to the stream's channel what the protocol's notification does |
| LogStream.SentInOrder | internal/server/handlers/runs.go:326-340 | IDs sent rise strictly, so none is sent twice |
| LogStream.NoLostWakeUp | internal/server/handlers/runs.go:394-411 | waiting on an empty channel after a successful query, of all rows due exactly the overtaken are unsent |
| LogStream.SentOfDueExactly | internal/server/handlers/runs.go:326-344 | in any state a due row was sent if and only if the cursor has reached it and it was not overtaken |
| LogStream.InOrderNoneOvertaken | internal/server/handlers/runs.go:329-340 | if IDs rise in commit order no row is overtaken |
| LogStream.FailedQueryLosesWakeUp | internal/server/handlers/runs.go:333-344 | a failed log query can leave a due row unsent on an empty channel |
| LogStream.OvertakenRowLost | internal/server/handlers/runs.go:329-340 | a row committed behind the cursor is not sent although its notification arrives |
| ShellQuote.RunQuoted | internal/shellquote/quote.go:7-10 | a quoted text adds exactly that text to the word being read, unless it holds NUL |
| ShellQuote.CommandSplitsExactly | internal/activity/pr.go:63-85 | a command of literal and quoted pieces splits into exactly the intended arguments if and only if none holds NUL |
| ShellQuote.QuotedWordsSplitExactly | internal/shellquote/quote.go:7-10 | joining quoted words with spaces and splitting gives back the list if and only if no word holds NUL |
| ShellQuote.CommitCommandSplits | internal/activity/pr.go:75-81 | git gets directory, identity and title each as one unchanged argument |
| Bridge.EmitToolResultChunks | docker/bridge.js:66-81 | chunks are numbered 1 to their number, full but for the last, and concatenate to the text |
| Bridge.SplitExactly | docker/bridge.js:176 | splitting is the one list of newline-free lines that joins to the text |
| Bridge.SplitConcat | docker/bridge.js:175-177 | later input changes only the unfinished last line |
| Bridge.LineStream.OnData | docker/bridge.js:174-184 | the buffer is always the unfinished last line of everything received, and all lines before it were delivered |
| Bridge.LineStream.OnEnd | docker/bridge.js:185-190 | at the end all lines of the input were delivered |
| Bridge.StreamLines | docker/bridge.js:171-191 | for every cut of the input into chunks, the calls are the trimmed non-empty lines of the whole |
| Bridge.KeptExactly | docker/bridge.js:178-183 | these are, in order, the trimmed texts of exactly the lines that have something in them |
| Bridge.TrimExactly | docker/bridge.js:179 | trimming removes only space, and all of it at both ends |
| ImproverCache.PromptHandlers.ResolveImprover | internal/server/handlers/prompt.go:89-130 | not configured, cache hit, error, unchanged key or new client, with the whole new cache |
| ImproverCache.OutcomeExactly | internal/server/handlers/prompt.go:89-116 | exactly when each error is reported; a client stamped less than a minute ago is handed out without a read |
| ImproverCache.ResolvedKeyIsRecent | internal/server/handlers/prompt.go:97-100 | a returned improver's key was read by this call or by one stamped less than the TTL before |
| ImproverCache.KeyStoredWithinTTL | internal/server/handlers/prompt.go:97-100 | with reading and stamping in one instant, the key was the stored key less than the TTL ago |
| ImproverCache.ReadsApart | internal/server/handlers/prompt.go:97-129 | successful reads are at least the TTL apart |
| ImproverCache.CacheChangesExactly | internal/server/handlers/prompt.go:103-129 | a call changes the cache if and only if it reads a key |
| ImproverCache.ClientKeptExactly | internal/server/handlers/prompt.go:118-129 | a read keeps the client if the key is unchanged and makes a new one otherwise |

## Left out

Contracts on what the model does not look inside:

- An execution reports the ID of the step it ran (internal/activity/execute.go:290-308, 373-379); from that StepWorkflow.ChildrenHonest gives the contract StepBody.Honest, which the scheduler puts on its children.
- Execution outputs are not nil, and provisioning answers with a non-empty sandbox ID.
- Random refresh tokens never repeat, nor do their hashes; a refresh is one atomic transaction, so non-serialisable isolation and a failed commit that took effect are not modelled. The row's id column is not modelled: token_hash is unique and identifies it. buildAccessToken does not write the table.
- The listener's fan-out is atomic; the in-place shift of a subscriber slice seen by a concurrent fan-out is not modelled.
- The scheduler is given unique step IDs, which validation establishes.

Not stated, because the code does not behave so:

- StepWorkflow does not always free its own sandbox: early returns and errors leave it; OwnSandboxCleanedExactly says exactly when.
- The continuation's own step_run row is not finalised, continuations pass neither verifiers nor approval, and a pull request may be opened for an output that is not Complete.
- Log rows written just before a stream closes may be missed: rows are read before the status.
- Fan-out child workflow IDs can collide with the ID of another step.

Not modelled:

- RunHandler.CreateRun: of validation, the structural and the template-reference check are modelled; the parameter, action-type, agent-type, sandbox-group, credential and JSON-parameter checks enter by their number of errors. Authentication, the database rows and the Temporal start call of the handler are not modelled.
- Templates: the parser and renderer. References through `default`, of the form `.Steps.X` without a field, and the upstream position of condition references are not checked by the code either.
- Temporal: retries, timeouts, heartbeats and replay, beyond that any activity may fail.
- StepBody.World: template rendering, conditions, activities and children answer with functions of the step and the outputs it is launched with; nothing else in the run influences them. The sandbox handed to a child, titles and logging have no influence either.
- TemplateRefs.CheckTemplate: which faults of a template are reported, not in what order or how often.
- TemplateRefs.ValidateTemplateRefs: which faults are reported, not in what order or how often.
- StepMachine.Decoded: a non-empty list of outputs replaces the one before, where decoding would reuse its elements one by one; executions never report that list (internal/activity/execute.go:290-379).
- FanOut.SettleFanOut: the inbox item raised for a partial failure and its summary text.
- Scheduler.DagRun.LaunchWave: goroutines of a wave run one after another in an arbitrary order; they share only the outputs, which nobody writes while they run. A goroutine that dies without a result is handled when results are collected but does not occur in LaunchWave.
- StepWorkflow.Run: the selector is a script of signals in the order they are taken, and the operator's answer is given once; nothing is said about when they are sent. Costs and branch names are not carried.
- StepOutput.costUsd and the eval plugin directories: nothing modelled reads them.
- LogStream: the text of rows, the status event, the nil-listener mode and the per-step stream (internal/server/handlers/runs.go:413-440), which repeats the flush.
- ShellQuote.Split: refuses unquoted special characters, expansions and backslashes instead of modelling them; Go strings are sequences of characters here, not bytes.
- Bridge.StreamLines: UTF-8 decoding of the stream; JavaScript strings are sequences of characters here, and length counts those.
- Bridge.EmitToolResultChunks: the ceiling is computed over integers, not floating point.
- ImproverCache: the HTTP client behind an improver and AES-GCM; the wall clock does not go back.
- DagLevels: only computeLevels; layout and drawing are not modelled. On cyclic input nothing is said about the levels but that every step has one.
- The registry, credential and knowledge handlers, GitHub, Slack, YAML and JSON parsing, the CLI and the MCP shim are not part of this model.
