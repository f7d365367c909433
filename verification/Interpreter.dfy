/** Reference semantics of a policy run: what `_run_steps` and the step bodies it dispatches to do
    to an execution context. Every branch that can throw is kept apart from the ones that return. */
module Interpreter {
  import opened Common
  import opened JsonValue
  import opened OutcomeLattice
  import opened PolicyModel

  const MAX_WORKFLOW_DEPTH := 10
  const MAX_ITERATIONS := 10000
  const CONDITION_ERROR := "Unsupported condition expression"

  /** Outcome of running a list of steps: the state it leaves, and the exception that escaped. */
  datatype Run = Run(state: State, raised: Option<string>)

  /** Outcome of one step body: `error` is a returned error, `Threw` an exception. */
  datatype BodyRun =
    | Done(state: State, result: StepResult, error: Option<string>)
    | Threw(state: State, message: string)

  datatype LoopRun = LoopRun(state: State, iterations: seq<Iteration>, raised: Option<string>)

  datatype ChildRuns = ChildRuns(state: State, children: map<nat, Context>, raised: Option<string>)

  /** Policies not yet entered; the first component of every termination measure here. */
  function Unvisited(env: Env, s: State): set<string> {
    env.store.Keys - s.visited
  }

  // ---------------------------------------------------------------- small updates

  function Traced(s: State, entry: TraceEntry): State {
    s.(ctx := s.ctx.(trace := s.ctx.trace + [entry]))
  }

  function PausedAt(c: Context, index: nat): Context {
    c.(status := Paused, pausedAt := Some(index))
  }

  function WithPayload(c: Context, payload: map<string, Json>): Context {
    c.(payload := payload)
  }

  function Ask(env: Env, condition: Option<string>, view: View): Check {
    if condition.None? || condition.value == "" then Holds else env.condition(condition.value, view)
  }

  function StopsBefore(env: Env, index: nat, depth: nat): bool {
    depth == 0 && env.debugStop.Some? && index >= env.debugStop.value
  }

  // ---------------------------------------------------------------- leaf steps

  function Notes(texts: seq<Json>): (r: seq<TraceEntry>)
    ensures forall e :: e in r ==> e.Note?
  {
    seq(|texts|, i requires 0 <= i < |texts| => Note(texts[i]))
  }

  /** Requests an action or monitor made before it answered, in order. */
  function Attempted(step: Step, a: Answer, c: Context): Context
    requires step.Leaf?
  {
    if step.kind.Action? then
      c.(actionResults := c.actionResults + a.attempts, trace := c.trace + Notes(a.notes))
    else c
  }

  /** What an action that raises has done by then: a failed request may have asked for review already. */
  function Interrupted(step: Step, a: Answer, c: Context): Context
    requires step.Leaf?
  {
    var c1 := Attempted(step, a, c);
    if step.kind.Action? && a.outcome.Some? then c1.(outcome := Merge(c.outcome, a.outcome)) else c1
  }

  function ApplyLeaf(step: Step, a: Answer, c: Context): Context
    requires step.Leaf?
  {
    match step.kind
    case Connector => if a.produced.Some? && step.ref != ""
        then c.(payload := c.payload[step.ref := a.produced.value]) else c
    case Rule => c.(ruleResults := c.ruleResults + [(step.ref, a.value)], outcome := Merge(c.outcome, a.outcome))
    case Scorecard => c.(scorecards := c.scorecards[step.ref := a.value])
    case DecisionTable => c.(tables := c.tables[step.ref := a.value], outcome := Merge(c.outcome, a.outcome))
    case Model => if a.produced.Some? then c.(variables := c.variables[step.key := a.produced.value]) else c
    case Transform => c.(transforms := c.transforms[step.key := a.value])
    case Action =>
      var c1 := Attempted(step, a, c).(outcome := Merge(c.outcome, a.outcome));
      if a.paused then PausedAt(c1, c1.currentStep) else c1
    case ReviewGate => if a.paused then PausedAt(c, c.currentStep) else c.(outcome := Merge(c.outcome, a.outcome))
    case Monitor => c.(actionResults := c.actionResults + a.attempts)
    case Other => c
  }

  function LeafBody(env: Env, step: Step, s: State): BodyRun
    requires step.Leaf?
  {
    var a := env.answer(step, ViewOf(s.ctx), s.tick);
    var s1 := s.(tick := s.tick + 1, reached := if step.kind.Connector? then s.reached + {step.ref} else s.reached);
    if step.kind.Other? then Done(s1, NoResult, Some("Unknown step type"))
    else if a.raised.Some? then Threw(s1.(ctx := Interrupted(step, a, s.ctx)), a.raised.value)
    else Done(s1.(ctx := ApplyLeaf(step, a, s.ctx)), Plain(a.value), None)
  }

  /** `ref_id`, else the configured outcome, else the label, else review. */
  function ChosenOutcome(step: Step): (r: string)
    requires step.SetOutcome?
    ensures r != ""
  {
    if step.ref != "" then step.ref
    else if step.configured != "" then step.configured
    else if step.caption != "" then step.caption
    else "review"
  }

  function OutcomeBody(step: Step, s: State): BodyRun
    requires step.SetOutcome?
  {
    var merged := Merge(s.ctx.outcome, Some(ChosenOutcome(step)));
    Done(s.(ctx := s.ctx.(outcome := merged)), Verdict(merged), None)
  }

  // ---------------------------------------------------------------- choosing what to run

  /** First arm whose condition is absent or holds. `Err` when a condition cannot be evaluated. */
  function PickArm(env: Env, arms: seq<Arm>, from: nat, view: View): (r: Result<nat>)
    requires from <= |arms|
    ensures r.Ok? ==> from <= r.value <= |arms|
    decreases |arms| - from
  {
    if from == |arms| then Ok(from)
    else match Ask(env, arms[from].condition, view)
      case Holds => Ok(from)
      case Breaks => Err(CONDITION_ERROR)
      case Fails => PickArm(env, arms, from + 1, view)
  }

  /** The policy id a sub-workflow step runs: an alias wins over a raw id. */
  function ResolveRef(env: Env, step: Step): Result<string>
    requires step.Workflow?
  {
    if step.aliasName != "" then
      if step.aliasName in env.aliases && env.aliases[step.aliasName] != "" then Ok(env.aliases[step.aliasName])
      else Err("alias not registered")
    else if step.ref != "" then Ok(step.ref)
    else Err("missing ref_id")
  }

  /** `items[:limit]`, negative limits counting from the end. */
  function Sliced<T>(items: seq<T>, limit: int): (r: seq<T>)
    ensures r <= items
    ensures 0 <= limit ==> |r| == if limit < |items| then limit else |items|
  {
    if limit >= |items| then items
    else if limit >= 0 then items[..limit]
    else if -limit >= |items| then []
    else items[..|items| + limit]
  }

  function LoopItems(env: Env, step: Step, s: State): seq<Json>
    requires step.Loop?
  {
    env.collection(step.over, ViewOf(s.ctx))
  }

  function LoopLimit(step: Step): int
    requires step.Loop?
  {
    if step.maxIterations < MAX_ITERATIONS then step.maxIterations else MAX_ITERATIONS
  }

  function LoopSlice(env: Env, step: Step, s: State): seq<Json>
    requires step.Loop?
  {
    Sliced(LoopItems(env, step, s), LoopLimit(step))
  }

  function Bound(step: Step, scope: map<string, Json>, item: Json, index: nat): map<string, Json>
    requires step.Loop?
  {
    scope[step.itemName := item][step.indexName := Number(index as real)]
  }

  /** A child context: own copies of everything steps write, an empty record, the entry outcome. */
  function Clone(c: Context, scope: map<string, Json>): Context {
    c.(ruleResults := [], scorecards := map[], tables := map[], transforms := map[], actionResults := [],
       trace := [], loopScope := scope, status := Running)
  }

  predicate IsSchedule(order: seq<nat>, n: nat) {
    && |order| == n
    && (forall i :: 0 <= i < n ==> order[i] < n)
    && (forall x :: 0 <= x < n ==> x in order)
  }

  function IndexOrder(n: nat): seq<nat> {
    seq(n, i requires 0 <= i < n => i as nat)
  }

  lemma IndexOrderIsSchedule(n: nat)
    ensures IsSchedule(IndexOrder(n), n)
  {
    forall x: nat | x < n ensures x in IndexOrder(n) {
      assert IndexOrder(n)[x] == x;
    }
  }

  /** Completion order of a parallel loop; anything that is not one falls back to index order. */
  function Schedule(env: Env, n: nat, tick: nat): (r: seq<nat>)
    ensures IsSchedule(r, n)
  {
    var order := env.order(n, tick);
    if IsSchedule(order, n) then order
    else
      IndexOrderIsSchedule(n);
      IndexOrder(n)
  }

  /** One child's record folded into the parent's. */
  function MergeChild(c: Context, child: Context): Context {
    c.(ruleResults := c.ruleResults + child.ruleResults,
       actionResults := c.actionResults + child.actionResults,
       scorecards := c.scorecards + child.scorecards,
       tables := c.tables + child.tables,
       transforms := c.transforms + child.transforms,
       trace := c.trace + child.trace,
       outcome := Merge(c.outcome, Some(child.outcome)),
       status := if child.status.Failed? then Failed else c.status)
  }

  /** Merge the finished children into the parent in index order. */
  function MergeChildren(c: Context, items: seq<Json>, children: map<nat, Context>, j: nat): (Context, seq<Iteration>)
    requires j <= |items|
    requires forall x :: j <= x < |items| ==> x in children
    decreases |items| - j
  {
    if j == |items| then (c, [])
    else
      var child := children[j];
      var merged := MergeChild(c, child);
      var (rest, iterations) := MergeChildren(merged, items, children, j + 1);
      (rest, [Iteration(j, items[j], c.outcome, merged.outcome, child.trace, false, child.status.Failed?)] + iterations)
  }

  // ---------------------------------------------------------------- the recursive interpreter

  /** A step body has finished: record it and say whether the list stops here. */
  function Finish(step: Step, b: BodyRun): (State, bool) {
    match b
    case Done(s, result, error) =>
      (Traced(s, Ran(step, result, error)), s.ctx.status.Paused? || s.ctx.status.Failed?)
    case Threw(s, message) =>
      var escalated := if IsGate(step) then s.ctx.(outcome := Merge(s.ctx.outcome, Some("review"))) else s.ctx;
      var settled := if step.abort then escalated.(status := Failed) else escalated;
      (Traced(s.(ctx := settled), Ran(step, NoResult, Some(message))), settled.status.Failed?)
  }

  /** Only a condition that cannot be evaluated escapes a list of steps; bodies are caught. */
  function RunFrom(env: Env, steps: seq<Step>, i: nat, depth: nat, s: State): (r: Run)
    requires i <= |steps|
    ensures s.visited <= r.state.visited
    ensures r.raised.None? || r.raised == Some(CONDITION_ERROR)
    decreases Unvisited(env, s), steps, 0, |steps| - i
  {
    if i == |steps| then Run(s, None)
    else
      var s0 := if depth == 0 then s.(ctx := s.ctx.(currentStep := i)) else s;
      if StopsBefore(env, i, depth) then Run(s0.(ctx := PausedAt(s0.ctx, i)), None)
      else match Ask(env, steps[i].when, ViewOf(s0.ctx))
        case Breaks => Run(s0, Some(CONDITION_ERROR))
        case Fails => RunFrom(env, steps, i + 1, depth, Traced(s0, Skipped(steps[i])))
        case Holds =>
          var (s1, stop) := Finish(steps[i], StepBody(env, steps[i], depth, s0));
          if stop then Run(s1, None) else RunFrom(env, steps, i + 1, depth, s1)
  }

  function StepBody(env: Env, step: Step, depth: nat, s: State): (r: BodyRun)
    ensures s.visited <= r.state.visited
    decreases Unvisited(env, s), step, 2, 0
  {
    match step
    case Leaf(_, _, _, _, _, _) => LeafBody(env, step, s)
    case SetOutcome(_, _, _, _, _, _) => OutcomeBody(step, s)
    case Loop(_, _, _, _, _, _, _, _, _) => LoopBody(env, step, depth, s)
    case Branch(_, _, _, _, _) => BranchBody(env, step, depth, s)
    case Workflow(_, _, _, _, _) => WorkflowBody(env, step, depth, s)
  }

  function BranchBody(env: Env, step: Step, depth: nat, s: State): (r: BodyRun)
    requires step.Branch?
    ensures s.visited <= r.state.visited
    decreases Unvisited(env, s), step, 1, 0
  {
    match PickArm(env, step.arms, 0, ViewOf(s.ctx))
    case Err(reason) => Threw(s, reason)
    case Ok(k) =>
      if k < |step.arms| then
        assert step.arms[k] < step;
        AfterRun(RunFrom(env, step.arms[k].steps, 0, depth + 1, s), BranchReport(TookArm(k)))
      else if step.otherwise == [] then Done(s, BranchReport(TookNothing), None)
      else AfterRun(RunFrom(env, step.otherwise, 0, depth + 1, s), BranchReport(TookDefault))
  }

  function WorkflowBody(env: Env, step: Step, depth: nat, s: State): (r: BodyRun)
    requires step.Workflow?
    ensures s.visited <= r.state.visited
    decreases Unvisited(env, s), step, 1, 0
  {
    if depth >= MAX_WORKFLOW_DEPTH then Threw(s, "Max sub-workflow depth exceeded")
    else match ResolveRef(env, step)
      case Err(reason) => Threw(s, reason)
      case Ok(ref) =>
        if Refused(env, ref, s) then Threw(s.(tick := s.tick + 1), "Sub-workflow cycle detected")
        else if ref !in env.store then Threw(s.(tick := s.tick + 1), "Unknown sub-workflow")
        else
          assert ref in Unvisited(env, s) && ref !in Unvisited(env, Entered(ref, s));
          var run := RunFrom(env, env.store[ref], 0, depth + 1, Entered(ref, s));
          AfterRun(run, ChildReport(ref, run.state.ctx.outcome))
  }

  /** The cycle guard: this run, or an iteration running beside it, has entered the id already. */
  predicate Refused(env: Env, ref: string, s: State) {
    ref in s.visited || env.raced(ref, s.tick)
  }

  function Entered(ref: string, s: State): State {
    s.(tick := s.tick + 1, visited := s.visited + {ref}, entered := s.entered + [ref])
  }

  function AfterRun(run: Run, report: StepResult): BodyRun {
    if run.raised.Some? then Threw(run.state, run.raised.value) else Done(run.state, report, None)
  }

  function LoopBody(env: Env, step: Step, depth: nat, s: State): (r: BodyRun)
    requires step.Loop?
    ensures s.visited <= r.state.visited
    decreases Unvisited(env, s), step, 1, 1
  {
    if depth >= MAX_WORKFLOW_DEPTH then Threw(s, "Max loop/workflow nesting depth exceeded")
    else if step.parallel && LoopSlice(env, step, s) != [] then ParallelBody(env, step, depth, s)
    else SequentialBody(env, step, depth, s)
  }

  /** The report says which mode the step asks for, also when nothing was there to iterate. */
  function SequentialBody(env: Env, step: Step, depth: nat, s: State): (r: BodyRun)
    requires step.Loop?
    ensures s.visited <= r.state.visited
    decreases Unvisited(env, s), step, 1, 0
  {
    var count, items := |LoopItems(env, step, s)|, LoopSlice(env, step, s);
    var run := RunIterations(env, step, items, 0, depth, s.ctx.loopScope, s);
    if run.raised.Some? then Threw(run.state, run.raised.value)
    else Done(run.state.(ctx := run.state.ctx.(loopScope := s.ctx.loopScope)),
              LoopReport(count, count > LoopLimit(step), step.parallel, run.iterations), None)
  }

  function ParallelBody(env: Env, step: Step, depth: nat, s: State): (r: BodyRun)
    requires step.Loop?
    ensures s.visited <= r.state.visited
    decreases Unvisited(env, s), step, 1, 0
  {
    var count, items := |LoopItems(env, step, s)|, LoopSlice(env, step, s);
    var order := Schedule(env, |items|, s.tick);
    var runs := RunChildren(env, step, items, order, 0, depth, s, map[], None);
    Gathered(count, LoopLimit(step), items, runs)
  }

  /** All children are in: reject a pause, else merge them. */
  function Gathered(count: nat, limit: int, items: seq<Json>, runs: ChildRuns): BodyRun
    requires forall x: nat :: x < |items| ==> x in runs.children
  {
    if runs.raised.Some? then Threw(runs.state, runs.raised.value)
    else if exists x: nat :: x < |items| && runs.children[x].status.Paused? then
      Threw(runs.state, "durable pauses are not supported inside a parallel loop")
    else
      var (merged, iterations) := MergeChildren(runs.state.ctx, items, runs.children, 0);
      Done(runs.state.(ctx := merged), LoopReport(count, count > limit, true, iterations), None)
  }

  /** Sequential iterations from index `j` on, each on the live context. */
  function RunIterations(env: Env, step: Step, items: seq<Json>, j: nat, depth: nat, scope: map<string, Json>,
                         s: State): (r: LoopRun)
    requires step.Loop? && j <= |items|
    ensures s.visited <= r.state.visited
    ensures r.raised.None? || r.raised == Some(CONDITION_ERROR)
    decreases Unvisited(env, s), step, 0, |items| - j
  {
    if j == |items| then LoopRun(s, [], None)
    else
      var s0 := s.(ctx := s.ctx.(loopScope := Bound(step, scope, items[j], j)));
      var run := RunFrom(env, step.body, 0, depth + 1, s0);
      if run.raised.Some? then LoopRun(run.state, [], run.raised)
      else
        var after := run.state.ctx;
        var iteration := Iteration(j, items[j], s.ctx.outcome, after.outcome, Tail(s.ctx.trace, after.trace),
                                   after.status.Paused?, after.status.Failed?);
        if iteration.paused || iteration.failed then LoopRun(run.state, [iteration], None)
        else
          var rest := RunIterations(env, step, items, j + 1, depth, scope, run.state);
          LoopRun(rest.state, [iteration] + rest.iterations, rest.raised)
  }

  /** `after[len(before):]` */
  function Tail<T>(before: seq<T>, after: seq<T>): seq<T> {
    if |before| <= |after| then after[|before|..] else []
  }

  /** Parallel iterations in completion order. Children share the payload and the visited set,
      nothing else; the parent's record is untouched until they are merged. */
  function RunChildren(env: Env, step: Step, items: seq<Json>, order: seq<nat>, k: nat, depth: nat, s: State,
                       children: map<nat, Context>, raised: Option<string>): (r: ChildRuns)
    requires step.Loop? && k <= |order|
    requires forall i :: 0 <= i < |order| ==> order[i] < |items|
    requires raised.None? || raised == Some(CONDITION_ERROR)
    ensures s.visited <= r.state.visited
    ensures r.raised.None? || r.raised == Some(CONDITION_ERROR)
    ensures forall x :: x in children || x in order[k..] ==> x in r.children
    decreases Unvisited(env, s), step, 0, |order| - k
  {
    if k == |order| then ChildRuns(s, children, raised)
    else
      var t := ChildState(step, items, order[k], s);
      var run := RunFrom(env, step.body, 0, depth + 1, t);
      RunChildren(env, step, items, order, k + 1, depth, AfterChild(s, run), children[order[k] := run.state.ctx],
                  if raised.Some? then raised else run.raised)
  }

  /** The state child `index` starts in when its turn comes. */
  function ChildState(step: Step, items: seq<Json>, index: nat, s: State): State
    requires step.Loop? && index < |items|
  {
    s.(ctx := Clone(s.ctx, Bound(step, s.ctx.loopScope, items[index], index)))
  }

  function ChildRun(env: Env, step: Step, depth: nat, t: State): Run
    requires step.Loop?
  {
    RunFrom(env, step.body, 0, depth + 1, t)
  }

  /** What a finished child leaves behind for its siblings and parent. */
  function AfterChild(s: State, run: Run): State {
    run.state.(ctx := WithPayload(s.ctx, run.state.ctx.payload))
  }
}
