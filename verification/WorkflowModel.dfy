/** The entities shared by the validator, the scheduler and the step workflow
    (internal/model/workflow.go, internal/model/step.go). */
module WorkflowModel {
  /** A step ID: a string, kept apart from other text. */
  datatype StepId = StepId(name: string)

  datatype Option<+T> = None | Some(value: T)

  /** model.StepStatus */
  datatype Status =
    | Pending | Cloning | Running | Verifying | AwaitingInput
    | Complete | Failed | Skipped

  /** Values found in a step's structured output. */
  datatype Json = Null | Bool(b: bool) | Number(n: int) | Text(s: string) | Array(items: seq<Json>)

  /** model.StepOutput; the cost and branch name, which nothing here reads, are dropped. */
  datatype StepOutput = StepOutput(
    stepId: StepId,
    status: Status,
    output: map<string, Json>,
    diff: string,
    prUrl: string,
    outputs: seq<StepOutput>,
    error: string,
    inboxItemId: string,
    question: string,
    checkpointBranch: string,
    stateArtifactId: string)

  /** The literal `&model.StepOutput{StepID: id, Status: status, Error: error}`. */
  function PlainOutput(id: StepId, status: Status, error: string): StepOutput {
    StepOutput(id, status, map[], "", "", [], error, "", "", "", "")
  }

  type Outputs = map<StepId, StepOutput>

  /** One identifier of a template field chain: the lexer of text/template splits
      chains at dots, so no identifier contains one. */
  type Ident = s: string | '.' !in s

  datatype BranchKind = IfBranch | RangeBranch | WithBranch

  /** A parsed template, with the node kinds that reference extraction walks;
      every other kind (text, variables, literals, chains) is Other. */
  datatype Node =
    | List(nodes: seq<Node>)
    | Action(pipe: Node)
    | Branch(kind: BranchKind, pipe: Node, list: Node, elseList: Option<Node>)
    | Pipe(cmds: seq<Node>)
    | Command(args: seq<Node>)
    | Field(idents: seq<Ident>)
    | Other

  /** A template string: "" or one the parser rejects or one it parses. */
  datatype Template = EmptyTemplate | Malformed | Parsed(root: Node)

  datatype ConfigValue = TemplateValue(template: Template) | OtherValue

  datatype ExecutionDef = ExecutionDef(
    prompt: Template,
    verifiers: bool,
    outputSchema: Option<set<string>>)

  datatype ActionDef = ActionDef(actionType: string, config: map<string, ConfigValue>)

  datatype StepDef = StepDef(
    id: StepId,
    title: string,
    dependsOn: seq<StepId>,
    sandboxGroup: string,
    mode: string,
    execution: Option<ExecutionDef>,
    approvalPolicy: string,
    pullRequest: bool,
    condition: Template,
    optional: bool,
    action: Option<ActionDef>)
}
