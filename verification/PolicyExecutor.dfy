/** The executor as the source writes it: one mutable context per run, one visited set per executor.
    Every method is proved to leave exactly the state the reference semantics gives. */
module PolicyExecutor {
  import opened Common
  import opened JsonValue
  import opened OutcomeLattice
  import opened PolicyModel
  import opened Interpreter
  import opened Decisions

  class ExecutionContext {
    var payload: map<string, Json>
    var variables: map<string, Json>
    var variableErrors: map<string, string>
    var fetchErrors: map<string, string>
    var ruleResults: seq<(string, Json)>
    var scorecards: map<string, Json>
    var tables: map<string, Json>
    var transforms: map<string, Json>
    var actionResults: seq<Json>
    var loopScope: map<string, Json>
    var outcome: string
    var status: Status
    var currentStep: nat
    var pausedAt: Option<nat>
    var trace: seq<TraceEntry>

    constructor (c: Context)
      ensures Snapshot() == c
    {
      payload, variables, variableErrors, fetchErrors := c.payload, c.variables, c.variableErrors, c.fetchErrors;
      ruleResults, scorecards, tables, transforms := c.ruleResults, c.scorecards, c.tables, c.transforms;
      actionResults, loopScope, outcome, status := c.actionResults, c.loopScope, c.outcome, c.status;
      currentStep, pausedAt, trace := c.currentStep, c.pausedAt, c.trace;
    }

    /** `_clone_for_iteration` */
    constructor CloneForIteration(c: ExecutionContext, scope: map<string, Json>)
      ensures Snapshot() == Clone(c.Snapshot(), scope)
    {
      payload, variables, variableErrors, fetchErrors := c.payload, c.variables, c.variableErrors, c.fetchErrors;
      ruleResults, scorecards, tables, transforms := [], map[], map[], map[];
      actionResults, loopScope, outcome, status := [], scope, c.outcome, Running;
      currentStep, pausedAt, trace := c.currentStep, c.pausedAt, [];
    }

    function Snapshot(): Context
      reads this
    {
      Context(payload, variables, variableErrors, fetchErrors, ruleResults, scorecards, tables, transforms,
              actionResults, loopScope, outcome, status, currentStep, pausedAt, trace)
    }

    method Record(entry: TraceEntry)
      modifies this`trace
      ensures trace == old(trace) + [entry]
    {
      trace := trace + [entry];
    }

    /** `_execute_rule` and its siblings, once the outside world has answered. */
    method TakeAnswer(step: Step, a: Answer)
      requires step.Leaf?
      modifies this
      ensures Snapshot() == ApplyLeaf(step, a, old(Snapshot()))
    {
      hide ApplyLeaf;
      if step.kind.Rule? || step.kind.DecisionTable? || step.kind.Action? || step.kind.ReviewGate? {
        TakeVerdict(step, a);
      } else {
        TakeData(step, a);
      }
    }

    method TakeVerdict(step: Step, a: Answer)
      requires step.Leaf? && (step.kind.Rule? || step.kind.DecisionTable? || step.kind.Action? || step.kind.ReviewGate?)
      modifies this
      ensures Snapshot() == ApplyLeaf(step, a, old(Snapshot()))
    {
      hide Merge;
      if step.kind.Action? {
        TakeAction(step, a);
      } else if step.kind.Rule? {
        ruleResults := ruleResults + [(step.ref, a.value)];
        outcome := Merge(outcome, a.outcome);
      } else if step.kind.DecisionTable? {
        tables := tables[step.ref := a.value];
        outcome := Merge(outcome, a.outcome);
      } else if a.paused {
        status, pausedAt := Paused, Some(currentStep);
      } else {
        outcome := Merge(outcome, a.outcome);
      }
    }

    method TakeAction(step: Step, a: Answer)
      requires step.Leaf? && step.kind.Action?
      modifies this
      ensures Snapshot() == ApplyLeaf(step, a, old(Snapshot()))
    {
      hide Merge;
      hide Notes;
      ghost var c := Snapshot();
      actionResults := actionResults + a.attempts;
      trace := trace + Notes(a.notes);
      assert Snapshot() == Attempted(step, a, c);
      outcome := Merge(outcome, a.outcome);
      if a.paused { status, pausedAt := Paused, Some(currentStep); }
    }

    method TakeData(step: Step, a: Answer)
      requires step.Leaf?
      requires step.kind.Connector? || step.kind.Scorecard? || step.kind.Model? || step.kind.Transform?
                || step.kind.Monitor? || step.kind.Other?
      modifies this
      ensures Snapshot() == ApplyLeaf(step, a, old(Snapshot()))
    {
      if step.kind.Connector? {
        if a.produced.Some? && step.ref != "" { payload := payload[step.ref := a.produced.value]; }
      } else if step.kind.Scorecard? {
        scorecards := scorecards[step.ref := a.value];
      } else if step.kind.Model? {
        if a.produced.Some? { variables := variables[step.key := a.produced.value]; }
      } else if step.kind.Transform? {
        transforms := transforms[step.key := a.value];
      } else if step.kind.Monitor? {
        actionResults := actionResults + a.attempts;
      }
    }

    /** Fold one finished child into this context. */
    method Absorb(child: Context)
      modifies this
      ensures Snapshot() == MergeChild(old(Snapshot()), child)
    {
      hide Merge;
      AbsorbResults(child);
      trace := trace + child.trace;
      outcome := Merge(outcome, Some(child.outcome));
      if child.status.Failed? { status := Failed; }
    }

    method AbsorbResults(child: Context)
      modifies this
      ensures Snapshot() == old(Snapshot()).(
        ruleResults := old(ruleResults) + child.ruleResults, actionResults := old(actionResults) + child.actionResults,
        scorecards := old(scorecards) + child.scorecards, tables := old(tables) + child.tables,
        transforms := old(transforms) + child.transforms)
    {
      ruleResults := ruleResults + child.ruleResults;
      actionResults := actionResults + child.actionResults;
      scorecards := scorecards + child.scorecards;
      tables := tables + child.tables;
      transforms := transforms + child.transforms;
    }

    /** `_fail_closed_on_fetch_errors` */
    method FailClosedOnFetchErrors()
      modifies this
      ensures Snapshot() == FetchGuard(old(Snapshot()))
    {
      if FailedSources(Snapshot()) != {} && outcome != "review" {
        trace := trace + [GuardFired("source_fetch_guard", outcome)];
        outcome := "review";
      }
    }

    /** `_fail_closed_on_variable_errors` */
    method FailClosedOnVariableErrors(failOpen: bool)
      modifies this
      ensures Snapshot() == VariableGuard(old(Snapshot()), failOpen)
    {
      if variableErrors == map[] || failOpen || outcome == "review" { return; }
      trace := trace + [GuardFired("variable_error_guard", outcome)];
      outcome := "review";
    }
  }

  /** How a step body ended when it did not throw. */
  datatype Ending = Returned(result: StepResult, error: Option<string>) | Raised(message: string)

  function EndingOf(b: BodyRun): Ending {
    match b
    case Done(_, result, error) => Returned(result, error)
    case Threw(_, message) => Raised(message)
  }

  /** What one iteration of the step loop does next. */
  datatype Next = GoOn | Leave(raised: Option<string>)

  function StepOnce(env: Env, step: Step, index: nat, depth: nat, s: State): (State, Next) {
    var s0 := if depth == 0 then s.(ctx := s.ctx.(currentStep := index)) else s;
    if StopsBefore(env, index, depth) then (s0.(ctx := PausedAt(s0.ctx, index)), Leave(None))
    else match Ask(env, step.when, ViewOf(s0.ctx))
      case Breaks => (s0, Leave(Some(CONDITION_ERROR)))
      case Fails => (Traced(s0, Skipped(step)), GoOn)
      case Holds =>
        var (s1, stop) := Finish(step, StepBody(env, step, depth, s0));
        (s1, if stop then Leave(None) else GoOn)
  }

  lemma RunFromByOne(env: Env, steps: seq<Step>, i: nat, depth: nat, s: State)
    requires i < |steps|
    ensures var (s1, next) := StepOnce(env, steps[i], i, depth, s);
            RunFrom(env, steps, i, depth, s) == if next.GoOn? then RunFrom(env, steps, i + 1, depth, s1)
                else Run(s1, next.raised)
  {
  }

  /** One sequential iteration: the run of the body and its report. */
  function IterationOnce(env: Env, step: Step, item: Json, index: nat, depth: nat, scope: map<string, Json>,
                         s: State): (Run, Iteration)
    requires step.Loop?
  {
    var run := RunFrom(env, step.body, 0, depth + 1, s.(ctx := s.ctx.(loopScope := Bound(step, scope, item, index))));
    var c := run.state.ctx;
    (run, Iteration(index, item, s.ctx.outcome, c.outcome, Tail(s.ctx.trace, c.trace), c.status.Paused?,
        c.status.Failed?))
  }

  lemma RunIterationsByOne(env: Env, step: Step, items: seq<Json>, j: nat, depth: nat, scope: map<string, Json>,
                           s: State, done: seq<Iteration>)
    requires step.Loop? && j < |items|
    ensures var (run, it) := IterationOnce(env, step, items[j], j, depth, scope, s);
            var r := RunIterations(env, step, items, j, depth, scope, s);
            if run.raised.Some? then r.state == run.state && r.raised == run.raised
            else if it.paused || it.failed then r.state == run.state && r.raised.None?
                && done + r.iterations == done + [it]
            else var rest := RunIterations(env, step, items, j + 1, depth, scope, run.state);
                 r.state == rest.state && r.raised == rest.raised
                     && done + r.iterations == done + [it] + rest.iterations
  {
    hide RunFrom;
  }

  lemma RunChildrenByOne(env: Env, step: Step, items: seq<Json>, order: seq<nat>, k: nat, depth: nat, s: State,
                         children: map<nat, Context>, raised: Option<string>)
    requires step.Loop? && k < |order| && (forall i :: 0 <= i < |order| ==> order[i] < |items|)
    requires raised.None? || raised == Some(CONDITION_ERROR)
    ensures var run := ChildRun(env, step, depth, ChildState(step, items, order[k], s));
            RunChildren(env, step, items, order, k, depth, s, children, raised) ==
            RunChildren(env, step, items, order, k + 1, depth, AfterChild(s, run), children[order[k] := run.state.ctx],
                        if raised.Some? then raised else run.raised)
  {
  }

  lemma MergeByOne(c: Context, items: seq<Json>, children: map<nat, Context>, j: nat, done: seq<Iteration>)
    requires j < |items| && forall x: nat :: x < |items| ==> x in children
    ensures var m := MergeChild(c, children[j]);
            var it := Iteration(j, items[j], c.outcome, m.outcome, children[j].trace, false,
                children[j].status.Failed?);
            var r, rest := MergeChildren(c, items, children, j), MergeChildren(m, items, children, j + 1);
            r.0 == rest.0 && done + r.1 == done + [it] + rest.1
  {
    hide MergeChild;
  }

  class PolicyExecutor {
    const env: Env
    var visited: set<string>
    var entered: seq<string>
    var reached: set<string>
    var tick: nat

    constructor (env: Env)
      ensures this.env == env
    {
      this.env := env;
      visited, entered, reached, tick := {}, [], {}, 0;
    }

    /** The executor's bookkeeping and one context, as the reference semantics sees them. */
    function StateOf(ctx: ExecutionContext): State
      reads this, ctx
    {
      State(ctx.Snapshot(), visited, entered, reached, tick)
    }

    /** `_run_steps` */
    method RunSteps(steps: seq<Step>, ctx: ExecutionContext, depth: nat, start: nat) returns (raised: Option<string>)
      requires start <= |steps|
      modifies this, ctx
      ensures RunFrom(env, steps, start, depth, old(StateOf(ctx))) == Run(StateOf(ctx), raised)
      decreases Unvisited(env, StateOf(ctx)), steps, 3, 0
    {
      hide StepOnce;
      for index := start to |steps|
        invariant visited >= old(visited)
        invariant RunFrom(env, steps, index, depth, StateOf(ctx))
                  == RunFrom(env, steps, start, depth, old(StateOf(ctx)))
      {
        RunFromByOne(env, steps, index, depth, StateOf(ctx));
        hide RunFrom;
        var next := RunStep(steps[index], index, ctx, depth);
        if next.Leave? { return next.raised; }
      }
      return None;
    }

    /** One iteration of `_run_steps`. */
    method RunStep(step: Step, index: nat, ctx: ExecutionContext, depth: nat) returns (next: Next)
      modifies this, ctx
      ensures visited >= old(visited)
      ensures StepOnce(env, step, index, depth, old(StateOf(ctx))) == (StateOf(ctx), next)
      decreases Unvisited(env, StateOf(ctx)), step, 3, 0
    {
      hide StepBody;
      hide Finish;
      hide ViewOf;
      ghost var s := StateOf(ctx);
      if depth == 0 {
        ctx.currentStep := index;
        assert StateOf(ctx) == s.(ctx := s.ctx.(currentStep := index));
        if env.debugStop.Some? && index >= env.debugStop.value {
          ghost var s0 := StateOf(ctx);
          ctx.status, ctx.pausedAt := Paused, Some(index);
          assert StateOf(ctx) == s0.(ctx := PausedAt(s0.ctx, index));
          return Leave(None);
        }
      }
      assert !StopsBefore(env, index, depth);
      match Ask(env, step.when, ViewOf(ctx.Snapshot())) {
        case Breaks => return Leave(Some(CONDITION_ERROR));
        case Fails =>
          ctx.Record(Skipped(step));
          return GoOn;
        case Holds =>
          var stop := RunHeldStep(step, ctx, depth);
          return if stop then Leave(None) else GoOn;
      }
    }

    method RunHeldStep(step: Step, ctx: ExecutionContext, depth: nat) returns (stop: bool)
      modifies this, ctx
      ensures visited >= old(visited)
      ensures Finish(step, StepBody(env, step, depth, old(StateOf(ctx)))) == (StateOf(ctx), stop)
      decreases Unvisited(env, StateOf(ctx)), step, 2, 1
    {
      ghost var b := StepBody(env, step, depth, StateOf(ctx));
      hide StepBody;
      hide Finish;
      var ending := ExecuteStepBody(step, ctx, depth);
      stop := FinishStep(step, ctx, ending, b);
    }

    /** The tail of one `_run_steps` iteration: record the step, escalate, decide whether to stop. */
    method FinishStep(step: Step, ctx: ExecutionContext, ending: Ending, ghost b: BodyRun) returns (stop: bool)
      requires StateOf(ctx) == b.state && ending == EndingOf(b)
      modifies ctx
      ensures Finish(step, b) == (StateOf(ctx), stop)
    {
      hide Merge;
      match ending {
        case Returned(result, error) =>
          ctx.Record(Ran(step, result, error));
          return ctx.status.Paused? || ctx.status.Failed?;
        case Raised(message) =>
          if IsGate(step) { ctx.outcome := Merge(ctx.outcome, Some("review")); }
          if step.abort { ctx.status := Failed; }
          ctx.Record(Ran(step, NoResult, Some(message)));
          return ctx.status.Failed?;
      }
    }

    /** `_execute_step_body` */
    method ExecuteStepBody(step: Step, ctx: ExecutionContext, depth: nat) returns (ending: Ending)
      modifies this, ctx
      ensures var b := StepBody(env, step, depth, old(StateOf(ctx))); StateOf(ctx) == b.state && ending == EndingOf(b)
      decreases Unvisited(env, StateOf(ctx)), step, 2, 0
    {
      match step {
        case Leaf(_, _, _, _, _, _) => ending := ExecuteLeaf(step, ctx);
        case SetOutcome(_, _, _, _, _, _) =>
          ctx.outcome := Merge(ctx.outcome, Some(ChosenOutcome(step)));
          ending := Returned(Verdict(ctx.outcome), None);
        case Loop(_, _, _, _, _, _, _, _, _) => ending := ExecuteLoop(step, ctx, depth);
        case Branch(_, _, _, _, _) => ending := ExecuteBranch(step, ctx, depth);
        case Workflow(_, _, _, _, _) => ending := ExecuteSubworkflow(step, ctx, depth);
      }
    }

    method ExecuteLeaf(step: Step, ctx: ExecutionContext) returns (ending: Ending)
      requires step.Leaf?
      modifies this, ctx
      ensures var b := LeafBody(env, step, old(StateOf(ctx))); StateOf(ctx) == b.state && ending == EndingOf(b)
    {
      var a := env.answer(step, ViewOf(ctx.Snapshot()), tick);
      tick := tick + 1;
      if step.kind.Connector? { reached := reached + {step.ref}; }
      if step.kind.Other? { return Returned(NoResult, Some("Unknown step type")); }
      if a.raised.Some? {
        if step.kind.Action? {
          ctx.actionResults := ctx.actionResults + a.attempts;
          ctx.trace := ctx.trace + Notes(a.notes);
          if a.outcome.Some? { ctx.outcome := Merge(ctx.outcome, a.outcome); }
        }
        return Raised(a.raised.value);
      }
      ctx.TakeAnswer(step, a);
      return Returned(Plain(a.value), None);
    }

    /** `_execute_branch` */
    method ExecuteBranch(step: Step, ctx: ExecutionContext, depth: nat) returns (ending: Ending)
      requires step.Branch?
      modifies this, ctx
      ensures var b := BranchBody(env, step, depth, old(StateOf(ctx))); StateOf(ctx) == b.state && ending == EndingOf(b)
      decreases Unvisited(env, StateOf(ctx)), step, 1, 0
    {
      var view := ViewOf(ctx.Snapshot());
      for i := 0 to |step.arms|
        invariant visited == old(visited) && StateOf(ctx) == old(StateOf(ctx))
        invariant PickArm(env, step.arms, i, view) == PickArm(env, step.arms, 0, view)
      {
        match Ask(env, step.arms[i].condition, view) {
          case Breaks => return Raised(CONDITION_ERROR);
          case Fails =>
          case Holds =>
            assert step.arms[i] < step;
            var raised := RunSteps(step.arms[i].steps, ctx, depth + 1, 0);
            return if raised.Some? then Raised(raised.value) else Returned(BranchReport(TookArm(i)), None);
        }
      }
      if step.otherwise != [] {
        var raised := RunSteps(step.otherwise, ctx, depth + 1, 0);
        return if raised.Some? then Raised(raised.value) else Returned(BranchReport(TookDefault), None);
      }
      return Returned(BranchReport(TookNothing), None);
    }

    /** `_execute_subworkflow` */
    method ExecuteSubworkflow(step: Step, ctx: ExecutionContext, depth: nat) returns (ending: Ending)
      requires step.Workflow?
      modifies this, ctx
      ensures var b := WorkflowBody(env, step, depth, old(StateOf(ctx)));
              StateOf(ctx) == b.state && ending == EndingOf(b)
      decreases Unvisited(env, StateOf(ctx)), step, 1, 0
    {
      hide RunFrom;
      hide ResolveRef;
      if depth >= MAX_WORKFLOW_DEPTH { return Raised("Max sub-workflow depth exceeded"); }
      var target := ResolveRef(env, step);
      if target.Err? { return Raised(target.reason); }
      var ref := target.value;
      var refused := ref in visited || env.raced(ref, tick);
      tick := tick + 1;
      if refused { return Raised("Sub-workflow cycle detected"); }
      if ref !in env.store { return Raised("Unknown sub-workflow"); }
      ghost var before := Unvisited(env, StateOf(ctx));
      visited, entered := visited + {ref}, entered + [ref];
      assert ref in before && ref !in Unvisited(env, StateOf(ctx));
      var raised := RunSteps(env.store[ref], ctx, depth + 1, 0);
      return if raised.Some? then Raised(raised.value) else Returned(ChildReport(ref, ctx.outcome), None);
    }

    /** `_execute_loop` */
    method ExecuteLoop(step: Step, ctx: ExecutionContext, depth: nat) returns (ending: Ending)
      requires step.Loop?
      modifies this, ctx
      ensures var b := LoopBody(env, step, depth, old(StateOf(ctx))); StateOf(ctx) == b.state && ending == EndingOf(b)
      decreases Unvisited(env, StateOf(ctx)), step, 1, 0
    {
      if depth >= MAX_WORKFLOW_DEPTH { return Raised("Max loop/workflow nesting depth exceeded"); }
      if step.parallel && LoopSlice(env, step, StateOf(ctx)) != [] {
        ending := RunLoopParallel(step, ctx, depth);
      } else {
        ending := RunLoopSequential(step, ctx, depth);
      }
    }

    method RunLoopSequential(step: Step, ctx: ExecutionContext, depth: nat) returns (ending: Ending)
      requires step.Loop?
      modifies this, ctx
      ensures var b := SequentialBody(env, step, depth, old(StateOf(ctx)));
              StateOf(ctx) == b.state && ending == EndingOf(b)
      decreases Unvisited(env, StateOf(ctx)), step, 0, 1
    {
      hide RunFrom;
      hide IterationOnce;
      hide LoopItems;
      hide LoopSlice;
      var count, items := |LoopItems(env, step, StateOf(ctx))|, LoopSlice(env, step, StateOf(ctx));
      var outerScope := ctx.loopScope;
      var iterations: seq<Iteration> := [];
      ghost var all := RunIterations(env, step, items, 0, depth, outerScope, StateOf(ctx));
      assert [] + all.iterations == all.iterations;
      for index := 0 to |items|
        invariant visited >= old(visited)
        invariant var rest := RunIterations(env, step, items, index, depth, outerScope, StateOf(ctx));
                  all.state == rest.state && all.iterations == iterations + rest.iterations && all.raised == rest.raised
      {
        RunIterationsByOne(env, step, items, index, depth, outerScope, StateOf(ctx), iterations);
        hide RunIterations;
        var report, raised := RunIteration(step, items[index], index, ctx, depth, outerScope);
        if raised.Some? { return Raised(raised.value); }
        iterations := iterations + [report];
        if report.paused || report.failed { break; }
      }
      assert iterations == all.iterations;
      ctx.loopScope := outerScope;
      ending := Returned(LoopReport(count, count > LoopLimit(step), step.parallel, iterations), None);
    }

    /** One iteration of the sequential loop on the live context. */
    method RunIteration(step: Step, item: Json, index: nat, ctx: ExecutionContext, depth: nat,
                        outerScope: map<string, Json>)
      returns (report: Iteration, raised: Option<string>)
      requires step.Loop?
      modifies this, ctx
      ensures visited >= old(visited)
      ensures IterationOnce(env, step, item, index, depth, outerScope, old(StateOf(ctx)))
              == (Run(StateOf(ctx), raised), report)
      decreases Unvisited(env, StateOf(ctx)), step, 0, 0
    {
      hide RunFrom;
      var before, traceStart := ctx.outcome, ctx.trace;
      ctx.loopScope := Bound(step, outerScope, item, index);
      raised := RunSteps(step.body, ctx, depth + 1, 0);
      report := Iteration(index, item, before, ctx.outcome, Tail(traceStart, ctx.trace), ctx.status.Paused?,
          ctx.status.Failed?);
    }

    /** `_run_loop_parallel`, one child at a time in completion order. */
    method RunLoopParallel(step: Step, ctx: ExecutionContext, depth: nat) returns (ending: Ending)
      requires step.Loop?
      modifies this, ctx
      ensures var b := ParallelBody(env, step, depth, old(StateOf(ctx)));
              StateOf(ctx) == b.state && ending == EndingOf(b)
      decreases Unvisited(env, StateOf(ctx)), step, 0, 1
    {
      hide RunFrom;
      hide Gathered;
      hide ChildRun;
      var count, items := |LoopItems(env, step, StateOf(ctx))|, LoopSlice(env, step, StateOf(ctx));
      var order := Schedule(env, |items|, tick);
      var results: map<nat, Context> := map[];
      var raised: Option<string> := None;
      ghost var all := RunChildren(env, step, items, order, 0, depth, StateOf(ctx), map[], None);
      for k := 0 to |order|
        invariant visited >= old(visited)
        invariant raised.None? || raised == Some(CONDITION_ERROR)
        invariant RunChildren(env, step, items, order, k, depth, StateOf(ctx), results, raised) == all
      {
        RunChildrenByOne(env, step, items, order, k, depth, StateOf(ctx), results, raised);
        hide RunChildren;
        hide Clone;
        var child, escaped := RunChild(step, items, order[k], ctx, depth);
        results := results[order[k] := child];
        if raised.None? { raised := escaped; }
      }
      ending := MergeResults(count, LoopLimit(step), items, ctx, ChildRuns(StateOf(ctx), results, raised));
    }

    /** `run_one`: a clone runs the body, and leaves its payload to the parent it shares it with. */
    method RunChild(step: Step, items: seq<Json>, index: nat, ctx: ExecutionContext, depth: nat)
      returns (child: Context, escaped: Option<string>)
      requires step.Loop? && index < |items|
      modifies this, ctx
      ensures visited >= old(visited)
      ensures escaped.None? || escaped == Some(CONDITION_ERROR)
      ensures var run := ChildRun(env, step, depth, ChildState(step, items, index, old(StateOf(ctx))));
              StateOf(ctx) == AfterChild(old(StateOf(ctx)), run) && child == run.state.ctx && escaped == run.raised
      decreases Unvisited(env, StateOf(ctx)), step, 0, 0
    {
      hide RunFrom;
      var clone := new ExecutionContext.CloneForIteration(ctx, Bound(step, ctx.loopScope, items[index], index));
      assert StateOf(clone) == ChildState(step, items, index, StateOf(ctx));
      escaped := RunSteps(step.body, clone, depth + 1, 0);
      ctx.payload := clone.payload;
      child := clone.Snapshot();
    }

    /** The second half of `_run_loop_parallel`: reject pauses, merge in index order. */
    method MergeResults(count: nat, limit: int, items: seq<Json>, ctx: ExecutionContext, runs: ChildRuns)
      returns (ending: Ending)
      requires forall x: nat :: x < |items| ==> x in runs.children
      requires runs.state == StateOf(ctx)
      modifies ctx
      ensures var b := Gathered(count, limit, items, runs); StateOf(ctx) == b.state && ending == EndingOf(b)
    {
      hide MergeChild;
      hide Merge;
      if runs.raised.Some? { return Raised(runs.raised.value); }
      if exists x: nat :: x < |items| && runs.children[x].status.Paused? {
        return Raised("durable pauses are not supported inside a parallel loop");
      }
      var iterations: seq<Iteration> := [];
      ghost var all := MergeChildren(ctx.Snapshot(), items, runs.children, 0);
      assert [] + all.1 == all.1;
      for j := 0 to |items|
        invariant var rest := MergeChildren(ctx.Snapshot(), items, runs.children, j);
                  all.0 == rest.0 && all.1 == iterations + rest.1
      {
        hide MergeChildren;
        MergeByOne(ctx.Snapshot(), items, runs.children, j, iterations);
        var child := runs.children[j];
        var before := ctx.outcome;
        ctx.Absorb(child);
        iterations := iterations + [Iteration(j, items[j], before, ctx.outcome, child.trace, false,
            child.status.Failed?)];
      }
      assert all.1 == iterations && all.0 == ctx.Snapshot();
      ending := Returned(LoopReport(count, count > limit, true, iterations), None);
    }

    /** The step-running core of `execute`, with the guards that follow it. */
    method Execute(policy: string, steps: seq<Step>, start: nat, ctx: ExecutionContext, failOpen: bool)
      returns (decision: Decision)
      modifies this, ctx
      ensures decision == Decide(env, policy, steps, start, old(ctx.Snapshot()), failOpen)
      ensures decision.Escaped? || ctx.Snapshot() == decision.ctx
    {
      ctx.status := Running;
      visited, entered, reached, tick := {policy}, [], {}, 0;
      var raised := RunSteps(steps, ctx, 0, if start < |steps| then start else |steps|);
      if raised.Some? { return Escaped(raised.value); }
      if ctx.status.Paused? { return Suspended(ctx.Snapshot()); }
      if ctx.status.Running? { ctx.status := Completed; }
      ctx.FailClosedOnFetchErrors();
      ctx.FailClosedOnVariableErrors(failOpen);
      return Decided(ctx.Snapshot());
    }
  }
}
