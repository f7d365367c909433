/** Policies as trees of steps, and the execution context one decision threads through them. */
module PolicyModel {
  import opened Common
  import opened JsonValue

  /** Steps without children. `Other` is any type the dispatcher does not know. */
  datatype Kind =
    Connector | Rule | Scorecard | DecisionTable | Model | Transform | Action | ReviewGate | Monitor | Other

  datatype Arm = Arm(condition: Option<string>, steps: seq<Step>)

  /** `when` is `config.condition`, `abort` is `config.onFailure == "abort"`. */
  datatype Step =
    | Leaf(id: string, when: Option<string>, abort: bool, kind: Kind, ref: string, key: string)
    | SetOutcome(id: string, when: Option<string>, abort: bool, ref: string, configured: string, caption: string)
    | Loop(id: string, when: Option<string>, abort: bool, over: string, itemName: string, indexName: string,
           maxIterations: int, parallel: bool, body: seq<Step>)
    | Branch(id: string, when: Option<string>, abort: bool, arms: seq<Arm>, otherwise: seq<Step>)
    | Workflow(id: string, when: Option<string>, abort: bool, ref: string, aliasName: string)

  /** Steps whose failure escalates the decision to review. */
  predicate IsGate(step: Step) {
    || (step.Leaf? && (step.kind.Rule? || step.kind.Scorecard? || step.kind.DecisionTable? || step.kind.Model?))
    || step.Workflow?
  }

  datatype Status = Running | Paused | Failed | Completed

  datatype Taken = TookArm(index: nat) | TookDefault | TookNothing

  datatype StepResult =
    | NoResult
    | Plain(value: Json)
    | Verdict(outcome: string)
    | LoopReport(count: nat, truncated: bool, parallel: bool, iterations: seq<Iteration>)
    | BranchReport(taken: Taken)
    | ChildReport(ref: string, outcome: string)

  datatype Iteration = Iteration(index: nat, item: Json, before: string, after: string,
                                 steps: seq<TraceEntry>, paused: bool, failed: bool)

  datatype TraceEntry =
    | Ran(step: Step, result: StepResult, error: Option<string>)
    | Skipped(step: Step)
    | Note(text: Json)
    | GuardFired(guard: string, original: string)

  /** The part of the execution context that steps and guards read or write. */
  datatype Context = Context(
    payload: map<string, Json>,
    variables: map<string, Json>,
    variableErrors: map<string, string>,
    fetchErrors: map<string, string>,
    ruleResults: seq<(string, Json)>,
    scorecards: map<string, Json>,
    tables: map<string, Json>,
    transforms: map<string, Json>,
    actionResults: seq<Json>,
    loopScope: map<string, Json>,
    outcome: string,
    status: Status,
    currentStep: nat,
    pausedAt: Option<nat>,
    trace: seq<TraceEntry>)

  /** What conditions, rules and templates can see of a context. */
  datatype View = View(
    payload: map<string, Json>,
    variables: map<string, Json>,
    scorecards: map<string, Json>,
    tables: map<string, Json>,
    transforms: map<string, Json>,
    loopScope: map<string, Json>,
    outcome: string)

  function ViewOf(c: Context): View {
    View(c.payload, c.variables, c.scorecards, c.tables, c.transforms, c.loopScope, c.outcome)
  }

  /** One context plus what the executor keeps beside it. `entered` and `reached` record which
      sub-workflows and connector steps the run went into; `tick` numbers the outside answers. */
  datatype State = State(ctx: Context, visited: set<string>, entered: seq<string>, reached: set<string>, tick: nat)

  datatype Check = Holds | Fails | Breaks

  /** What the outside world (rule engine, models, providers, review gates) says to one leaf step.
      `produced` is a connector's sample payload or a model's prediction. */
  datatype Answer = Answer(raised: Option<string>, paused: bool, outcome: Option<string>, value: Json,
                           produced: Option<Json>, attempts: seq<Json>, notes: seq<Json>)

  /** Everything a run consults but does not own. `raced` says that a concurrent loop iteration
      entered the sub-workflow first; `order` is the completion order of a parallel loop. */
  datatype Env = Env(
    store: map<string, seq<Step>>,
    aliases: map<string, string>,
    condition: (string, View) -> Check,
    answer: (Step, View, nat) -> Answer,
    collection: (string, View) -> seq<Json>,
    raced: (string, nat) -> bool,
    order: (nat, nat) -> seq<nat>,
    debugStop: Option<nat>)
}
