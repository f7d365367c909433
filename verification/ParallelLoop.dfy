/** Why a parallel loop gives what the sequential loop gives, in any completion order, for bodies whose
    answers depend on the item and on inputs the body does not write. */
module ParallelLoop {
  import opened Common
  import opened JsonValue
  import opened OutcomeLattice
  import opened PolicyModel
  import opened Interpreter
  import opened RunSafety

  // ---------------------------------------------------------------- bodies in scope

  /** Variables and payload sources the body may write (model predictions, sample payloads). */
  datatype Writes = Writes(variables: set<string>, payload: set<string>)

  /** Two views that agree on the item and on every input outside `w`. */
  ghost predicate SameItem(w: Writes, v1: View, v2: View) {
    && v1.loopScope == v2.loopScope
    && v1.payload - w.payload == v2.payload - w.payload
    && v1.variables - w.variables == v2.variables - w.variables
  }

  ghost predicate FixedCondition(env: Env, w: Writes, condition: Option<string>) {
    forall v1, v2 :: SameItem(w, v1, v2) ==> Ask(env, condition, v1) == Ask(env, condition, v2)
  }

  ghost predicate FixedAnswer(env: Env, w: Writes, step: Step) {
    forall v1, v2, t1, t2 :: SameItem(w, v1, v2) ==> env.answer(step, v1, t1) == env.answer(step, v2, t2)
  }

  ghost predicate FixedCollection(env: Env, w: Writes, over: string) {
    forall v1, v2 :: SameItem(w, v1, v2) ==> env.collection(over, v1) == env.collection(over, v2)
  }

  /** No condition, answer or collection in these steps depends on anything but the item and inputs
      outside `w`, all writes stay inside `w`, and no sub-workflow is run. */
  ghost predicate ItemOnly(env: Env, w: Writes, steps: seq<Step>)
    decreases steps
  {
    forall k :: 0 <= k < |steps| ==> ItemOnlyStep(env, w, steps[k])
  }

  ghost predicate ItemOnlyStep(env: Env, w: Writes, step: Step)
    decreases step
  {
    FixedCondition(env, w, step.when) &&
    match step
    case Leaf(_, _, _, kind, ref, key) =>
      FixedAnswer(env, w, step) && (kind.Connector? ==> ref in w.payload) && (kind.Model? ==> key in w.variables)
    case SetOutcome(_, _, _, _, _, _) => true
    case Loop(_, _, _, over, _, _, _, _, body) => FixedCollection(env, w, over) && ItemOnly(env, w, body)
    case Branch(_, _, _, arms, otherwise) =>
      && (forall k :: 0 <= k < |arms| ==>
            assert arms[k] < step; FixedCondition(env, w, arms[k].condition) && ItemOnly(env, w, arms[k].steps))
      && ItemOnly(env, w, otherwise)
    case Workflow(_, _, _, _, _) => false
  }

  // ---------------------------------------------------------------- quoting from a higher outcome

  /** Some step results quote the running outcome: `outcome` steps and nested loop reports. Requoting them says what
      they would quote had the run started from `q` merged with where it did start. */
  function Requoted(q: string, result: StepResult): StepResult
    decreases result
  {
    match result
    case Verdict(outcome) => Verdict(Merge(q, Some(outcome)))
    case LoopReport(count, truncated, parallel, iterations) =>
      LoopReport(count, truncated, parallel, RequotedIterations(q, iterations))
    case _ => result
  }

  function RequotedIterations(q: string, iterations: seq<Iteration>): seq<Iteration>
    decreases iterations
  {
    seq(|iterations|, i requires 0 <= i < |iterations| => RequotedIteration(q, iterations[i]))
  }

  function RequotedIteration(q: string, iteration: Iteration): Iteration
    decreases iteration
  {
    iteration.(before := Merge(q, Some(iteration.before)), after := Merge(q, Some(iteration.after)),
               steps := RequotedTrace(q, iteration.steps))
  }

  lemma RequotedCons(q: string, first: Iteration, rest: seq<Iteration>)
    ensures RequotedIterations(q, [first] + rest) == [RequotedIteration(q, first)] + RequotedIterations(q, rest)
  {
  }

  function RequotedTrace(q: string, trace: seq<TraceEntry>): seq<TraceEntry>
    decreases trace
  {
    seq(|trace|, i requires 0 <= i < |trace| => RequotedEntry(q, trace[i]))
  }

  function RequotedEntry(q: string, e: TraceEntry): TraceEntry
    decreases e
  {
    if e.Ran? then e.(result := Requoted(q, e.result)) else e
  }

  lemma RequotedConcat(q: string, a: seq<TraceEntry>, b: seq<TraceEntry>)
    ensures RequotedTrace(q, a + b) == RequotedTrace(q, a) + RequotedTrace(q, b)
  {
  }

  // ---------------------------------------------------------------- two runs of one body

  /** `x` is what `y` is, on top of the record and outcome `p` already held: the sequential context
      `x` against the isolated child `y` of the same item. */
  ghost predicate Mirrors(w: Writes, p: Context, x: Context, y: Context) {
    && x.ruleResults == p.ruleResults + y.ruleResults
    && x.actionResults == p.actionResults + y.actionResults
    && x.trace == p.trace + RequotedTrace(p.outcome, y.trace)
    && x.scorecards == p.scorecards + y.scorecards
    && x.tables == p.tables + y.tables
    && x.transforms == p.transforms + y.transforms
    && x.outcome == Merge(p.outcome, Some(y.outcome))
    && x.status == y.status
    && SameItem(w, ViewOf(x), ViewOf(y))
    && x.payload - w.payload == p.payload - w.payload
    && x.variables - w.variables == p.variables - w.variables
    && y.outcome != "" && p.outcome != ""
  }

  lemma MergeIsNeverEmpty(a: string, b: Option<string>)
    ensures Merge(a, b) != ""
  {
  }

  lemma MirroredOutcomesAreSet(w: Writes, p: Context, x: Context, y: Context)
    requires Mirrors(w, p, x, y)
    ensures x.outcome != "" && y.outcome != "" && p.outcome != ""
  {
  }

  lemma TracedMirrors(w: Writes, p: Context, x: Context, y: Context, e1: TraceEntry, e2: TraceEntry)
    requires Mirrors(w, p, x, y) && e1 == RequotedEntry(p.outcome, e2)
    ensures Mirrors(w, p, x.(trace := x.trace + [e1]), y.(trace := y.trace + [e2]))
  {
    RequotedConcat(p.outcome, y.trace, [e2]);
    assert RequotedTrace(p.outcome, [e2]) == [e1];
  }

  lemma WrittenOutside<V>(m1: map<string, V>, m2: map<string, V>, key: string, v: V, w: set<string>)
    requires m1 - w == m2 - w && key in w
    ensures m1[key := v] - w == m2[key := v] - w == m1 - w
  {
    assert m1[key := v] - w == m1 - w;
    assert m2[key := v] - w == m2 - w;
  }

  lemma AttemptedMirrors(w: Writes, p: Context, x: Context, y: Context, step: Step, a: Answer)
    requires step.Leaf? && Mirrors(w, p, x, y)
    ensures Mirrors(w, p, Attempted(step, a, x), Attempted(step, a, y))
  {
    if step.kind.Action? {
      RequotedConcat(p.outcome, y.trace, Notes(a.notes));
      assert RequotedTrace(p.outcome, Notes(a.notes)) == Notes(a.notes);
    }
  }

  lemma OutcomeMirrors(w: Writes, p: Context, x: Context, y: Context, candidate: Option<string>)
    requires Mirrors(w, p, x, y)
    ensures Mirrors(w, p, x.(outcome := Merge(x.outcome, candidate)), y.(outcome := Merge(y.outcome, candidate)))
  {
  }

  lemma StatusMirrors(w: Writes, p: Context, x: Context, y: Context, status: Status)
    requires Mirrors(w, p, x, y)
    ensures Mirrors(w, p, x.(status := status), y.(status := status))
  {
  }

  lemma RuleMirrors(w: Writes, p: Context, x: Context, y: Context, step: Step, a: Answer)
    requires step.Leaf? && step.kind.Rule? && Mirrors(w, p, x, y)
    ensures Mirrors(w, p, ApplyLeaf(step, a, x), ApplyLeaf(step, a, y))
  {
    var x1, y1 := x.(ruleResults := x.ruleResults + [(step.ref, a.value)]),
        y.(ruleResults := y.ruleResults + [(step.ref, a.value)]);
    assert Mirrors(w, p, x1, y1);
    OutcomeMirrors(w, p, x1, y1, a.outcome);
  }

  lemma TablesMirror(w: Writes, p: Context, x: Context, y: Context, key: string, v: Json)
    requires Mirrors(w, p, x, y)
    ensures Mirrors(w, p, x.(tables := x.tables[key := v]), y.(tables := y.tables[key := v]))
  {
    UpdateOverUnion(p.tables, y.tables, key, v);
    var x1, y1 := x.(tables := x.tables[key := v]), y.(tables := y.tables[key := v]);
    assert x1.tables == p.tables + y1.tables;
    assert SameItem(w, ViewOf(x1), ViewOf(y1));
  }

  lemma TableMirrors(w: Writes, p: Context, x: Context, y: Context, step: Step, a: Answer)
    requires step.Leaf? && step.kind.DecisionTable? && Mirrors(w, p, x, y)
    ensures Mirrors(w, p, ApplyLeaf(step, a, x), ApplyLeaf(step, a, y))
  {
    var x1, y1 := x.(tables := x.tables[step.ref := a.value]), y.(tables := y.tables[step.ref := a.value]);
    TablesMirror(w, p, x, y, step.ref, a.value);
    OutcomeMirrors(w, p, x1, y1, a.outcome);
  }

  lemma AnsweredVerdictMirrors(w: Writes, p: Context, x: Context, y: Context, step: Step, a: Answer)
    requires step.Leaf? && Mirrors(w, p, x, y)
    requires step.kind.Action? || step.kind.ReviewGate?
    ensures Mirrors(w, p, ApplyLeaf(step, a, x), ApplyLeaf(step, a, y))
  {
    AttemptedMirrors(w, p, x, y, step, a);
    OutcomeMirrors(w, p, Attempted(step, a, x), Attempted(step, a, y), a.outcome);
  }

  lemma InterruptedMirrors(w: Writes, p: Context, x: Context, y: Context, step: Step, a: Answer)
    requires step.Leaf? && Mirrors(w, p, x, y)
    ensures Mirrors(w, p, Interrupted(step, a, x), Interrupted(step, a, y))
  {
    AttemptedMirrors(w, p, x, y, step, a);
    if step.kind.Action? {
      OutcomeMirrors(w, p, Attempted(step, a, x), Attempted(step, a, y), a.outcome);
    }
  }

  lemma WriteMirrors(w: Writes, p: Context, x: Context, y: Context, step: Step, a: Answer)
    requires step.Leaf? && Mirrors(w, p, x, y)
    requires step.kind.Connector? ==> step.ref in w.payload
    requires step.kind.Model? ==> step.key in w.variables
    requires step.kind.Connector? || step.kind.Model?
    ensures Mirrors(w, p, ApplyLeaf(step, a, x), ApplyLeaf(step, a, y))
  {
    if a.produced.Some? {
      if step.kind.Connector? {
        WrittenOutside(x.payload, y.payload, step.ref, a.produced.value, w.payload);
      } else {
        WrittenOutside(x.variables, y.variables, step.key, a.produced.value, w.variables);
      }
    }
  }

  lemma UpdateOverUnion<V>(m: map<string, V>, n: map<string, V>, key: string, v: V)
    ensures (m + n)[key := v] == m + n[key := v]
  {
  }

  lemma RecordMirrors(w: Writes, p: Context, x: Context, y: Context, step: Step, a: Answer)
    requires step.Leaf? && Mirrors(w, p, x, y)
    requires step.kind.Scorecard? || step.kind.Transform?
    ensures Mirrors(w, p, ApplyLeaf(step, a, x), ApplyLeaf(step, a, y))
  {
    if step.kind.Scorecard? {
      UpdateOverUnion(p.scorecards, y.scorecards, step.ref, a.value);
    } else {
      UpdateOverUnion(p.transforms, y.transforms, step.key, a.value);
    }
  }

  lemma AlertMirrors(w: Writes, p: Context, x: Context, y: Context, step: Step, a: Answer)
    requires step.Leaf? && Mirrors(w, p, x, y)
    requires step.kind.Monitor? || step.kind.Other?
    ensures Mirrors(w, p, ApplyLeaf(step, a, x), ApplyLeaf(step, a, y))
  {
  }

  /** Two bodies end alike: same kind of ending, same result but for what it quotes. */
  ghost predicate BodiesMirror(w: Writes, p: Context, b1: BodyRun, b2: BodyRun) {
    && Mirrors(w, p, b1.state.ctx, b2.state.ctx)
    && (b1.Done? <==> b2.Done?)
    && (b1.Done? ==> b1.result == Requoted(p.outcome, b2.result) && b1.error == b2.error)
    && (b1.Threw? ==> b1.message == b2.message)
  }

  lemma LeafMirrors(env: Env, w: Writes, p: Context, step: Step, s1: State, s2: State)
    requires step.Leaf? && ItemOnlyStep(env, w, step) && Mirrors(w, p, s1.ctx, s2.ctx)
    ensures BodiesMirror(w, p, LeafBody(env, step, s1), LeafBody(env, step, s2))
  {
    var a := env.answer(step, ViewOf(s1.ctx), s1.tick);
    assert a == env.answer(step, ViewOf(s2.ctx), s2.tick);
    if a.raised.Some? || step.kind.Other? {
      InterruptedMirrors(w, p, s1.ctx, s2.ctx, step, a);
    } else if step.kind.Rule? {
      RuleMirrors(w, p, s1.ctx, s2.ctx, step, a);
    } else if step.kind.DecisionTable? {
      TableMirrors(w, p, s1.ctx, s2.ctx, step, a);
    } else if step.kind.Action? || step.kind.ReviewGate? {
      AnsweredVerdictMirrors(w, p, s1.ctx, s2.ctx, step, a);
    } else if step.kind.Connector? || step.kind.Model? {
      WriteMirrors(w, p, s1.ctx, s2.ctx, step, a);
    } else if step.kind.Scorecard? || step.kind.Transform? {
      RecordMirrors(w, p, s1.ctx, s2.ctx, step, a);
    } else {
      AlertMirrors(w, p, s1.ctx, s2.ctx, step, a);
    }
  }

  /** What a caught exception does to a context before it is recorded. */
  function Caught(step: Step, c: Context): Context {
    var escalated := if IsGate(step) then c.(outcome := Merge(c.outcome, Some("review"))) else c;
    if step.abort then escalated.(status := Failed) else escalated
  }

  lemma CaughtMirrors(w: Writes, p: Context, step: Step, x: Context, y: Context)
    requires Mirrors(w, p, x, y)
    ensures Mirrors(w, p, Caught(step, x), Caught(step, y))
  {
    OutcomeMirrors(w, p, x, y, Some("review"));
    var gate := IsGate(step);
    var x1 := if gate then x.(outcome := Merge(x.outcome, Some("review"))) else x;
    var y1 := if gate then y.(outcome := Merge(y.outcome, Some("review"))) else y;
    StatusMirrors(w, p, x1, y1, Failed);
  }

  lemma FinishMirrors(w: Writes, p: Context, step: Step, b1: BodyRun, b2: BodyRun)
    requires BodiesMirror(w, p, b1, b2)
    ensures var (r1, stop1) := Finish(step, b1); var (r2, stop2) := Finish(step, b2);
            Mirrors(w, p, r1.ctx, r2.ctx) && stop1 == stop2
  {
    match b1
    case Done(s1, result, error) =>
      TracedMirrors(w, p, s1.ctx, b2.state.ctx, Ran(step, result, error), Ran(step, b2.result, error));
    case Threw(s1, message) =>
      var e := Ran(step, NoResult, Some(message));
      CaughtMirrors(w, p, step, s1.ctx, b2.state.ctx);
      TracedMirrors(w, p, Caught(step, s1.ctx), Caught(step, b2.state.ctx), e, e);
      assert Finish(step, b1).0.ctx == Traced(s1.(ctx := Caught(step, s1.ctx)), e).ctx;
      assert Finish(step, b2).0.ctx == Traced(b2.state.(ctx := Caught(step, b2.state.ctx)), e).ctx;
  }

  lemma {:induction false} PickArmMirrors(env: Env, w: Writes, step: Step, k: nat, v1: View, v2: View)
    requires step.Branch? && ItemOnlyStep(env, w, step) && k <= |step.arms| && SameItem(w, v1, v2)
    ensures PickArm(env, step.arms, k, v1) == PickArm(env, step.arms, k, v2)
    decreases |step.arms| - k
  {
    if k < |step.arms| {
      assert FixedCondition(env, w, step.arms[k].condition);
      PickArmMirrors(env, w, step, k + 1, v1, v2);
    }
  }

  lemma {:induction false} RunMirrors(env: Env, w: Writes, steps: seq<Step>, i: nat, depth: nat, p: Context,
                                      s1: State, s2: State)
    requires i <= |steps| && depth > 0 && ItemOnly(env, w, steps) && Mirrors(w, p, s1.ctx, s2.ctx)
    ensures var r1, r2 := RunFrom(env, steps, i, depth, s1), RunFrom(env, steps, i, depth, s2);
            Mirrors(w, p, r1.state.ctx, r2.state.ctx) && r1.raised == r2.raised
    decreases steps, 0, |steps| - i
  {
    hide Finish;
    hide BodiesMirror;
    if i < |steps| {
      assert ItemOnlyStep(env, w, steps[i]);
      assert FixedCondition(env, w, steps[i].when);
      match Ask(env, steps[i].when, ViewOf(s1.ctx))
      case Breaks =>
      case Fails =>
        TracedMirrors(w, p, s1.ctx, s2.ctx, Skipped(steps[i]), Skipped(steps[i]));
        RunMirrors(env, w, steps, i + 1, depth, p, Traced(s1, Skipped(steps[i])), Traced(s2, Skipped(steps[i])));
      case Holds =>
        var b1, b2 := StepBody(env, steps[i], depth, s1), StepBody(env, steps[i], depth, s2);
        StepMirrors(env, w, steps[i], depth, p, s1, s2);
        FinishMirrors(w, p, steps[i], b1, b2);
        if !Finish(steps[i], b1).1 {
          RunMirrors(env, w, steps, i + 1, depth, p, Finish(steps[i], b1).0, Finish(steps[i], b2).0);
        }
    }
  }

  lemma {:induction false} StepMirrors(env: Env, w: Writes, step: Step, depth: nat, p: Context, s1: State, s2: State)
    requires depth > 0 && ItemOnlyStep(env, w, step) && Mirrors(w, p, s1.ctx, s2.ctx)
    ensures BodiesMirror(w, p, StepBody(env, step, depth, s1), StepBody(env, step, depth, s2))
    decreases step, 6, 0
  {
    hide Merge;
    hide LoopBody;
    hide LeafBody;
    match step
    case Leaf(_, _, _, _, _, _) => LeafMirrors(env, w, p, step, s1, s2);
    case SetOutcome(_, _, _, _, _, _) => OutcomeMirrors(w, p, s1.ctx, s2.ctx, Some(ChosenOutcome(step)));
    case Loop(_, _, _, _, _, _, _, _, _) => LoopMirrors(env, w, step, depth, p, s1, s2);
    case Branch(_, _, _, arms, otherwise) =>
      var pick := PickArm(env, arms, 0, ViewOf(s1.ctx));
      PickArmMirrors(env, w, step, 0, ViewOf(s1.ctx), ViewOf(s2.ctx));
      if pick.Ok? {
        if pick.value < |arms| {
          assert arms[pick.value] < step;
          RunMirrors(env, w, arms[pick.value].steps, 0, depth + 1, p, s1, s2);
        } else if otherwise != [] {
          RunMirrors(env, w, otherwise, 0, depth + 1, p, s1, s2);
        }
      }
    case Workflow(_, _, _, _, _) => assert false;
  }

  lemma {:induction false} LoopMirrors(env: Env, w: Writes, step: Step, depth: nat, p: Context, s1: State, s2: State)
    requires step.Loop? && ItemOnlyStep(env, w, step) && Mirrors(w, p, s1.ctx, s2.ctx)
    ensures BodiesMirror(w, p, LoopBody(env, step, depth, s1), LoopBody(env, step, depth, s2))
    decreases step, 5, 0
  {
    hide RunIterations;
    hide ParallelBody;
    assert FixedCollection(env, w, step.over);
    assert LoopItems(env, step, s1) == LoopItems(env, step, s2);
    if depth < MAX_WORKFLOW_DEPTH {
      var items := LoopSlice(env, step, s1);
      if step.parallel && items != [] {
        ParallelMirrors(env, w, step, depth, p, s1, s2);
      } else {
        IterationsMirror(env, w, step, items, 0, depth, s1.ctx.loopScope, p, s1, s2);
      }
    }
  }

  /** Iteration `j` of a loop that is on its way in state `s`. */
  function BoundState(step: Step, items: seq<Json>, j: nat, scope: map<string, Json>, s: State): State
    requires step.Loop? && j < |items|
  {
    s.(ctx := s.ctx.(loopScope := Bound(step, scope, items[j], j)))
  }

  function ReportOf(items: seq<Json>, j: nat, s: State, run: Run): Iteration
    requires j < |items|
  {
    var after := run.state.ctx;
    Iteration(j, items[j], s.ctx.outcome, after.outcome, Tail(s.ctx.trace, after.trace), after.status.Paused?,
        after.status.Failed?)
  }

  lemma BoundMirrors(w: Writes, step: Step, items: seq<Json>, j: nat, scope: map<string, Json>, p: Context, s1: State,
                     s2: State)
    requires step.Loop? && j < |items| && Mirrors(w, p, s1.ctx, s2.ctx)
    ensures Mirrors(w, p, BoundState(step, items, j, scope, s1).ctx, BoundState(step, items, j, scope, s2).ctx)
  {
  }

  lemma {:induction false} IterationsMirror(env: Env, w: Writes, step: Step, items: seq<Json>, j: nat, depth: nat,
                                            scope: map<string, Json>, p: Context, s1: State, s2: State)
    requires step.Loop? && j <= |items| && ItemOnly(env, w, step.body) && Mirrors(w, p, s1.ctx, s2.ctx)
    ensures LoopsMirror(w, p, RunIterations(env, step, items, j, depth, scope, s1),
            RunIterations(env, step, items, j, depth, scope, s2))
    decreases step, 0, |items| - j
  {
    hide Mirrors;
    hide RunFrom;
    hide RequotedIteration;
    if j < |items| {
      var t1, t2 := BoundState(step, items, j, scope, s1), BoundState(step, items, j, scope, s2);
      BoundMirrors(w, step, items, j, scope, p, s1, s2);
      RunMirrors(env, w, step.body, 0, depth + 1, p, t1, t2);
      var r1, r2 := RunFrom(env, step.body, 0, depth + 1, t1), RunFrom(env, step.body, 0, depth + 1, t2);
      if r1.raised.None? {
        IterationTracesMirror(env, w, step, depth, p, t1, t2);
        ReportMirrors(w, p, items, j, t1, t2, r1, r2);
        var it1, it2 := ReportOf(items, j, t1, r1), ReportOf(items, j, t2, r2);
        RequotedCons(p.outcome, it2, []);
        if !it1.paused && !it1.failed {
          IterationsMirror(env, w, step, items, j + 1, depth, scope, p, r1.state, r2.state);
          RequotedCons(p.outcome, it2, RunIterations(env, step, items, j + 1, depth, scope, r2.state).iterations);
        }
      }
    }
  }

  lemma ReportMirrors(w: Writes, p: Context, items: seq<Json>, j: nat, s1: State, s2: State, r1: Run, r2: Run)
    requires j < |items| && Mirrors(w, p, s1.ctx, s2.ctx) && Mirrors(w, p, r1.state.ctx, r2.state.ctx)
    requires Tail(s1.ctx.trace, r1.state.ctx.trace) == RequotedTrace(p.outcome, Tail(s2.ctx.trace, r2.state.ctx.trace))
    ensures ReportOf(items, j, s1, r1) == RequotedIteration(p.outcome, ReportOf(items, j, s2, r2))
    ensures ReportOf(items, j, s1, r1).paused == ReportOf(items, j, s2, r2).paused
    ensures ReportOf(items, j, s1, r1).failed == ReportOf(items, j, s2, r2).failed
  {
  }

  ghost predicate LoopsMirror(w: Writes, p: Context, r1: LoopRun, r2: LoopRun) {
    && Mirrors(w, p, r1.state.ctx, r2.state.ctx) && r1.raised == r2.raised
    && r1.iterations == RequotedIterations(p.outcome, r2.iterations)
  }

  /** The entries an iteration adds are the same on both sides. */
  lemma IterationTracesMirror(env: Env, w: Writes, step: Step, depth: nat, p: Context, s1: State, s2: State)
    requires step.Loop? && Mirrors(w, p, s1.ctx, s2.ctx)
    requires Mirrors(w, p, RunFrom(env, step.body, 0, depth + 1, s1).state.ctx,
              RunFrom(env, step.body, 0, depth + 1, s2).state.ctx)
    ensures Tail(s1.ctx.trace, RunFrom(env, step.body, 0, depth + 1, s1).state.ctx.trace) ==
            RequotedTrace(p.outcome, Tail(s2.ctx.trace, RunFrom(env, step.body, 0, depth + 1, s2).state.ctx.trace))
  {
    RunFromIsSafe(env, step.body, 0, depth + 1, s1);
    RunFromIsSafe(env, step.body, 0, depth + 1, s2);
    var a1 := RunFrom(env, step.body, 0, depth + 1, s1).state.ctx.trace;
    var a2 := RunFrom(env, step.body, 0, depth + 1, s2).state.ctx.trace;
    TailsMirror(p, s1.ctx.trace, s2.ctx.trace, a1, a2);
  }

  lemma TailsMirror(p: Context, t1: seq<TraceEntry>, t2: seq<TraceEntry>, a1: seq<TraceEntry>, a2: seq<TraceEntry>)
    requires t1 <= a1 && t2 <= a2
    requires t1 == p.trace + RequotedTrace(p.outcome, t2) && a1 == p.trace + RequotedTrace(p.outcome, a2)
    ensures Tail(t1, a1) == RequotedTrace(p.outcome, Tail(t2, a2))
  {
    RequotedConcat(p.outcome, t2, Tail(t2, a2));
    assert a2 == t2 + Tail(t2, a2);
    assert a1 == t1 + RequotedTrace(p.outcome, Tail(t2, a2));
  }

  // ---------------------------------------------------------------- children of a parallel loop

  /** A state in which child `x` of the loop may start: its clone of the parent, with whatever the
      siblings before it have done to the shared payload, visited set and clock. */
  ghost predicate ChildStart(w: Writes, step: Step, items: seq<Json>, parent: Context, x: nat, t: State) {
    && step.Loop? && x < |items|
    && t.ctx == WithPayload(Clone(parent, Bound(step, parent.loopScope, items[x], x)), t.ctx.payload)
    && t.ctx.payload - w.payload == parent.payload - w.payload
  }

  /** `p`, emptied of its record. */
  function Blank(p: Context): Context {
    Clone(p, p.loopScope)
  }

  lemma StartsMirror(w: Writes, step: Step, items: seq<Json>, p: Context, c1: Context, c2: Context, x: nat, t1: State,
                     t2: State)
    requires ChildStart(w, step, items, c1, x, t1) && ChildStart(w, step, items, c2, x, t2)
    requires c1.outcome == Merge(p.outcome, Some(c2.outcome)) && c2.outcome != "" && p.outcome != ""
    requires SameItem(w, ViewOf(c1), ViewOf(c2))
    requires c1.payload - w.payload == p.payload - w.payload && c1.variables - w.variables == p.variables - w.variables
    ensures Mirrors(w, Blank(p), t1.ctx, t2.ctx)
  {
  }

  /** The loop's state before child number `i` in completion order starts. */
  function Before(env: Env, step: Step, items: seq<Json>, order: seq<nat>, i: nat, depth: nat, s: State): State
    requires Ordered(step, items, order) && i <= |order|
  {
    if i == 0 then s
    else
      var b := Before(env, step, items, order, i - 1, depth, s);
      AfterChild(b, ChildRun(env, step, depth, ChildState(step, items, order[i - 1], b)))
  }

  predicate Ordered(step: Step, items: seq<Json>, order: seq<nat>) {
    step.Loop? && forall i :: 0 <= i < |order| ==> order[i] < |items|
  }

  /** Child number `i` in completion order, run to its end. */
  function Child(env: Env, step: Step, items: seq<Json>, order: seq<nat>, i: nat, depth: nat, s: State): Run
    requires Ordered(step, items, order) && i < |order|
  {
    ChildRun(env, step, depth, ChildState(step, items, order[i], Before(env, step, items, order, i, depth, s)))
  }

  /** Siblings only change the shared payload inside `w`, so every child starts properly. */
  lemma {:induction false} BeforeKeepsParent(env: Env, w: Writes, step: Step, items: seq<Json>, order: seq<nat>,
                                             i: nat, depth: nat, s: State)
    requires Ordered(step, items, order) && i <= |order| && ItemOnly(env, w, step.body) && s.ctx.outcome != ""
    ensures var b := Before(env, step, items, order, i, depth, s).ctx;
            b == WithPayload(s.ctx, b.payload) && b.payload - w.payload == s.ctx.payload - w.payload
    decreases step, 2, i
  {
    hide RunFrom;
    if i > 0 {
      BeforeKeepsParent(env, w, step, items, order, i - 1, depth, s);
      var b := Before(env, step, items, order, i - 1, depth, s);
      PayloadStaysInside(env, w, step, items, depth, s.ctx, order[i - 1], ChildState(step, items, order[i - 1], b));
    }
  }

  /** `child` is what the child for item `x` ran to. */
  ghost predicate RunOf(env: Env, step: Step, items: seq<Json>, order: seq<nat>, k: nat, depth: nat, s: State, x: nat,
                        child: Context)
    requires Ordered(step, items, order)
  {
    exists i :: k <= i < |order| && order[i] == x && child == Child(env, step, items, order, i, depth, s).state.ctx
  }

  ghost predicate SomeRaised(env: Env, step: Step, items: seq<Json>, order: seq<nat>, k: nat, depth: nat, s: State)
    requires Ordered(step, items, order)
  {
    exists i :: k <= i < |order| && Child(env, step, items, order, i, depth, s).raised.Some?
  }

  lemma {:induction false} UntouchedChildrenStay(env: Env, step: Step, items: seq<Json>, order: seq<nat>, k: nat,
                                                 depth: nat, s: State, children: map<nat, Context>,
                                                 raised: Option<string>)
    requires Ordered(step, items, order) && k <= |order|
    requires raised.None? || raised == Some(CONDITION_ERROR)
    ensures var r := RunChildren(env, step, items, order, k, depth, s, children, raised);
            forall x :: x in children && x !in order[k..] ==> r.children[x] == children[x]
    decreases |order| - k
  {
    hide RunFrom;
    if k < |order| {
      var run := ChildRun(env, step, depth, ChildState(step, items, order[k], s));
      assert order[k..] == [order[k]] + order[k + 1..];
      UntouchedChildrenStay(env, step, items, order, k + 1, depth, AfterChild(s, run),
          children[order[k] := run.state.ctx],
                            if raised.Some? then raised else run.raised);
    }
  }

  /** The loop ends in the state after its last child, and throws when one of them did. */
  lemma {:induction false} ChildrenDecideTheLoop(env: Env, step: Step, items: seq<Json>, order: seq<nat>, k: nat,
                                                 depth: nat, s: State, children: map<nat, Context>,
                                                 raised: Option<string>)
    requires Ordered(step, items, order) && k <= |order|
    requires raised.None? || raised == Some(CONDITION_ERROR)
    ensures var r := RunChildren(env, step, items, order, k, depth, Before(env, step, items, order, k, depth, s),
            children, raised);
            && r.state == Before(env, step, items, order, |order|, depth, s)
            && (r.raised.Some? <==> raised.Some? || SomeRaised(env, step, items, order, k, depth, s))
    decreases |order| - k
  {
    hide Clone;
    hide RunFrom;
    if k < |order| {
      var run := Child(env, step, items, order, k, depth, s);
      ChildrenDecideTheLoop(env, step, items, order, k + 1, depth, s, children[order[k] := run.state.ctx],
                            if raised.Some? then raised else run.raised);
    }
  }

  /** What the loop collects for an item is the run of one of its children. */
  lemma {:induction false} CollectedChildIsRun(env: Env, step: Step, items: seq<Json>, order: seq<nat>, k: nat,
                                               depth: nat, s: State, children: map<nat, Context>,
                                               raised: Option<string>, x: nat)
    requires Ordered(step, items, order) && k <= |order| && x in order[k..]
    requires raised.None? || raised == Some(CONDITION_ERROR)
    ensures var r := RunChildren(env, step, items, order, k, depth, Before(env, step, items, order, k, depth, s),
            children, raised);
            RunOf(env, step, items, order, k, depth, s, x, r.children[x])
    decreases |order| - k
  {
    hide RunFrom;
    var b := Before(env, step, items, order, k, depth, s);
    var run := Child(env, step, items, order, k, depth, s);
    var raised' := if raised.Some? then raised else run.raised;
    var children' := children[order[k] := run.state.ctx];
    assert order[k..] == [order[k]] + order[k + 1..];
    if x in order[k + 1..] {
      CollectedChildIsRun(env, step, items, order, k + 1, depth, s, children', raised', x);
    } else {
      UntouchedChildrenStay(env, step, items, order, k + 1, depth, AfterChild(b, run), children', raised');
    }
  }

  /** A child compared with itself: what it writes to the payload stays inside `w`. */
  lemma {:induction false} PayloadStaysInside(env: Env, w: Writes, step: Step, items: seq<Json>, depth: nat,
                                              parent: Context, x: nat, t: State)
    requires ChildStart(w, step, items, parent, x, t) && ItemOnly(env, w, step.body) && parent.outcome != ""
    ensures ChildRun(env, step, depth, t).state.ctx.payload - w.payload == parent.payload - w.payload
    decreases step, 1, 0
  {
    StartsMirror(w, step, items, parent, parent, parent, x, t, t);
    RunMirrors(env, w, step.body, 0, depth + 1, Blank(parent), t, t);
  }

  /** Two loops over the same items in two orders: children of one item end alike. */
  ghost predicate PairsMirror(env: Env, w: Writes, p: Context, step: Step, items: seq<Json>, o1: seq<nat>, o2: seq<nat>,
                              depth: nat, s1: State, s2: State)
    requires Ordered(step, items, o1) && Ordered(step, items, o2)
  {
    forall i, j :: 0 <= i < |o1| && 0 <= j < |o2| && o1[i] == o2[j] ==>
      PairMirrors(w, p, Child(env, step, items, o1, i, depth, s1), Child(env, step, items, o2, j, depth, s2))
  }

  ghost predicate PairMirrors(w: Writes, p: Context, r1: Run, r2: Run) {
    r1.raised == r2.raised && Mirrors(w, p, r1.state.ctx, r2.state.ctx)
  }

  lemma {:induction false} ChildrenMirror(env: Env, w: Writes, p: Context, step: Step, items: seq<Json>, o1: seq<nat>,
                                          o2: seq<nat>, depth: nat, s1: State, s2: State)
    requires Ordered(step, items, o1) && Ordered(step, items, o2) && ItemOnly(env, w, step.body)
    requires Mirrors(w, p, s1.ctx, s2.ctx)
    ensures PairsMirror(env, w, Blank(p), step, items, o1, o2, depth, s1, s2)
    decreases step, 3, 0
  {
    hide Before;
    MergeIsNeverEmpty(p.outcome, Some(s2.ctx.outcome));
    forall i, j | 0 <= i < |o1| && 0 <= j < |o2| && o1[i] == o2[j]
      ensures PairMirrors(w, Blank(p), Child(env, step, items, o1, i, depth, s1),
              Child(env, step, items, o2, j, depth, s2))
    {
      BeforeKeepsParent(env, w, step, items, o1, i, depth, s1);
      BeforeKeepsParent(env, w, step, items, o2, j, depth, s2);
      var t1 := ChildState(step, items, o1[i], Before(env, step, items, o1, i, depth, s1));
      var t2 := ChildState(step, items, o2[j], Before(env, step, items, o2, j, depth, s2));
      StartsMirror(w, step, items, p, s1.ctx, s2.ctx, o1[i], t1, t2);
      RunMirrors(env, w, step.body, 0, depth + 1, Blank(p), t1, t2);
    }
  }

  lemma {:induction false} ParallelMirrors(env: Env, w: Writes, step: Step, depth: nat, p: Context, s1: State,
                                           s2: State)
    requires step.Loop? && ItemOnlyStep(env, w, step) && Mirrors(w, p, s1.ctx, s2.ctx)
    requires LoopItems(env, step, s1) == LoopItems(env, step, s2)
    ensures BodiesMirror(w, p, ParallelBody(env, step, depth, s1), ParallelBody(env, step, depth, s2))
    decreases step, 4, 0
  {
    hide Mirrors;
    hide Gathered;
    hide RunChildren;
    hide Before;
    var items := LoopSlice(env, step, s1);
    var o1, o2 := Schedule(env, |items|, s1.tick), Schedule(env, |items|, s2.tick);
    ChildrenMirror(env, w, p, step, items, o1, o2, depth, s1, s2);
    MirroredOutcomesAreSet(w, p, s1.ctx, s2.ctx);
    BeforeKeepsParent(env, w, step, items, o1, |o1|, depth, s1);
    BeforeKeepsParent(env, w, step, items, o2, |o2|, depth, s2);
    var b1 := Before(env, step, items, o1, |o1|, depth, s1).ctx;
    var b2 := Before(env, step, items, o2, |o2|, depth, s2).ctx;
    SharedPayloadMirrors(w, p, s1.ctx, s2.ctx, b1.payload, b2.payload);
    CollectedPairs(env, w, Blank(p), step, items, o1, o2, depth, s1, s2);
    GatheredMirrors(w, p, |LoopItems(env, step, s1)|, LoopLimit(step), items,
        RunChildren(env, step, items, o1, 0, depth, s1, map[], None),
                    RunChildren(env, step, items, o2, 0, depth, s2, map[], None));
  }

  lemma SharedPayloadMirrors(w: Writes, p: Context, x: Context, y: Context, px: map<string, Json>,
                             py: map<string, Json>)
    requires Mirrors(w, p, x, y) && px - w.payload == x.payload - w.payload && py - w.payload == y.payload - w.payload
    ensures Mirrors(w, p, WithPayload(x, px), WithPayload(y, py))
  {
  }

  lemma MirroredStatus(w: Writes, p: Context, x: Context, y: Context)
    requires Mirrors(w, p, x, y)
    ensures x.status == y.status
  {
  }

  lemma PausesAgree(w: Writes, p: Context, items: seq<Json>, children1: map<nat, Context>, children2: map<nat, Context>)
    requires forall x: nat :: x < |items| ==>
               x in children1 && x in children2 && Mirrors(w, p, children1[x], children2[x])
    ensures (exists x: nat :: x < |items| && children1[x].status.Paused?)
       <==> (exists x: nat :: x < |items| && children2[x].status.Paused?)
  {
    hide Mirrors;
    forall x: nat | x < |items| ensures children1[x].status == children2[x].status {
      MirroredStatus(w, p, children1[x], children2[x]);
    }
  }

  /** Alike children make the two loops end alike. */
  lemma GatheredMirrors(w: Writes, p: Context, count: nat, limit: int, items: seq<Json>, runs1: ChildRuns,
                        runs2: ChildRuns)
    requires forall x: nat :: x < |items| ==> x in runs1.children && x in runs2.children
    requires forall x: nat :: x < |items| ==> Mirrors(w, Blank(p), runs1.children[x], runs2.children[x])
    requires runs1.raised == runs2.raised && Mirrors(w, p, runs1.state.ctx, runs2.state.ctx)
    ensures BodiesMirror(w, p, Gathered(count, limit, items, runs1), Gathered(count, limit, items, runs2))
  {
    hide Mirrors;
    hide MergeChildren;
    hide RequotedIterations;
    PausesAgree(w, Blank(p), items, runs1.children, runs2.children);
    MergeMirrors(w, p, runs1.state.ctx, runs2.state.ctx, items, runs1.children, runs2.children, 0);
  }

  lemma CollectedPairs(env: Env, w: Writes, p: Context, step: Step, items: seq<Json>, o1: seq<nat>, o2: seq<nat>,
                       depth: nat, s1: State, s2: State)
    requires Ordered(step, items, o1) && Ordered(step, items, o2) && IsSchedule(o1, |items|) && IsSchedule(o2, |items|)
    requires PairsMirror(env, w, p, step, items, o1, o2, depth, s1, s2)
    ensures var r1 := RunChildren(env, step, items, o1, 0, depth, s1, map[], None);
            var r2 := RunChildren(env, step, items, o2, 0, depth, s2, map[], None);
            && r1.raised == r2.raised
            && r1.state == Before(env, step, items, o1, |o1|, depth, s1)
            && r2.state == Before(env, step, items, o2, |o2|, depth, s2)
            && forall x: nat :: x < |items| ==> Mirrors(w, p, r1.children[x], r2.children[x])
  {
    hide RunFrom;
    hide Mirrors;
    hide RunChildren;
    var n := |items|;
    ChildrenDecideTheLoop(env, step, items, o1, 0, depth, s1, map[], None);
    ChildrenDecideTheLoop(env, step, items, o2, 0, depth, s2, map[], None);
    assert o1[0..] == o1 && o2[0..] == o2;
    var r1 := RunChildren(env, step, items, o1, 0, depth, s1, map[], None);
    var r2 := RunChildren(env, step, items, o2, 0, depth, s2, map[], None);
    forall x: nat | x < n ensures Mirrors(w, p, r1.children[x], r2.children[x]) {
      assert x in o1 && x in o2;
      CollectedChildIsRun(env, step, items, o1, 0, depth, s1, map[], None, x);
      CollectedChildIsRun(env, step, items, o2, 0, depth, s2, map[], None, x);
      var i :| 0 <= i < n && o1[i] == x && r1.children[x] == Child(env, step, items, o1, i, depth, s1).state.ctx;
      var j :| 0 <= j < n && o2[j] == x && r2.children[x] == Child(env, step, items, o2, j, depth, s2).state.ctx;
      assert PairMirrors(w, p, Child(env, step, items, o1, i, depth, s1), Child(env, step, items, o2, j, depth, s2));
    }
    RaisedAgrees(env, w, p, step, items, o1, o2, depth, s1, s2);
  }

  lemma RaisedAgrees(env: Env, w: Writes, p: Context, step: Step, items: seq<Json>, o1: seq<nat>, o2: seq<nat>,
                     depth: nat, s1: State, s2: State)
    requires Ordered(step, items, o1) && Ordered(step, items, o2) && IsSchedule(o1, |items|) && IsSchedule(o2, |items|)
    requires PairsMirror(env, w, p, step, items, o1, o2, depth, s1, s2)
    ensures SomeRaised(env, step, items, o1, 0, depth, s1) <==> SomeRaised(env, step, items, o2, 0, depth, s2)
  {
    hide Mirrors;
    hide Child;
    var n := |items|;
    if SomeRaised(env, step, items, o1, 0, depth, s1) {
      var i :| 0 <= i < n && Child(env, step, items, o1, i, depth, s1).raised.Some?;
      assert o1[i] in o2;
      var j :| 0 <= j < n && o2[j] == o1[i];
      assert PairMirrors(w, p, Child(env, step, items, o1, i, depth, s1), Child(env, step, items, o2, j, depth, s2));
    }
    if SomeRaised(env, step, items, o2, 0, depth, s2) {
      var j :| 0 <= j < n && Child(env, step, items, o2, j, depth, s2).raised.Some?;
      assert o2[j] in o1;
      var i :| 0 <= i < n && o1[i] == o2[j];
      assert PairMirrors(w, p, Child(env, step, items, o1, i, depth, s1), Child(env, step, items, o2, j, depth, s2));
    }
  }

  lemma MergeDistributes(p: string, a: string, b: string)
    requires p != ""
    ensures Merge(Merge(p, Some(a)), Some(Merge(p, Some(b)))) == Merge(p, Some(Merge(a, Some(b))))
  {
  }

  /** A child's record appended to its parent's, outcome and status aside. */
  function WithRecord(c: Context, child: Context): Context {
    MergeChild(c, child).(outcome := c.outcome, status := c.status)
  }

  lemma WithRecordMirrors(w: Writes, p: Context, c1: Context, c2: Context, k1: Context, k2: Context)
    requires Mirrors(w, p, c1, c2) && Mirrors(w, Blank(p), k1, k2)
    ensures Mirrors(w, p, WithRecord(c1, k1), WithRecord(c2, k2))
  {
    hide Merge;
    hide RequotedTrace;
    BlankMirrorIsSame(w, p, k1, k2);
    RecordsJoin(p, c1, c2, k1, k2);
    assert SameItem(w, ViewOf(WithRecord(c1, k1)), ViewOf(WithRecord(c2, k2)));
  }

  /** Appending a child's record on both sides. */
  lemma RecordsJoin(p: Context, c1: Context, c2: Context, k1: Context, k2: Context)
    requires c1.ruleResults == p.ruleResults + c2.ruleResults && c1.actionResults == p.actionResults + c2.actionResults
    requires c1.trace == p.trace + RequotedTrace(p.outcome, c2.trace) && k1.trace == RequotedTrace(p.outcome, k2.trace)
    requires c1.scorecards == p.scorecards + c2.scorecards && c1.tables == p.tables + c2.tables
    requires c1.transforms == p.transforms + c2.transforms
    ensures c1.ruleResults + k2.ruleResults == p.ruleResults + (c2.ruleResults + k2.ruleResults)
    ensures c1.actionResults + k2.actionResults == p.actionResults + (c2.actionResults + k2.actionResults)
    ensures c1.trace + k1.trace == p.trace + RequotedTrace(p.outcome, c2.trace + k2.trace)
    ensures c1.scorecards + k2.scorecards == p.scorecards + (c2.scorecards + k2.scorecards)
    ensures c1.tables + k2.tables == p.tables + (c2.tables + k2.tables)
    ensures c1.transforms + k2.transforms == p.transforms + (c2.transforms + k2.transforms)
  {
    hide RequotedTrace;
    RequotedConcat(p.outcome, c2.trace, k2.trace);
    UnionAssociates(p.scorecards, c2.scorecards, k2.scorecards);
    UnionAssociates(p.tables, c2.tables, k2.tables);
    UnionAssociates(p.transforms, c2.transforms, k2.transforms);
  }

  lemma UnionAssociates<V>(a: map<string, V>, b: map<string, V>, c: map<string, V>)
    ensures (a + b) + c == a + (b + c)
  {
  }

  lemma BlankMirrorIsSame(w: Writes, p: Context, x: Context, y: Context)
    requires Mirrors(w, Blank(p), x, y)
    ensures x.ruleResults == y.ruleResults && x.actionResults == y.actionResults
    ensures x.scorecards == y.scorecards && x.tables == y.tables && x.transforms == y.transforms
    ensures x.trace == RequotedTrace(p.outcome, y.trace)
  {
  }

  lemma MergeChildMirrors(w: Writes, p: Context, c1: Context, c2: Context, k1: Context, k2: Context)
    requires Mirrors(w, p, c1, c2) && Mirrors(w, Blank(p), k1, k2)
    ensures Mirrors(w, p, MergeChild(c1, k1), MergeChild(c2, k2))
  {
    var r1, r2 := WithRecord(c1, k1), WithRecord(c2, k2);
    WithRecordMirrors(w, p, c1, c2, k1, k2);
    MergeDistributes(p.outcome, c2.outcome, k2.outcome);
    MergeIsNeverEmpty(c2.outcome, Some(k2.outcome));
    var m1, m2 := r1.(outcome := Merge(c1.outcome, Some(k1.outcome))),
        r2.(outcome := Merge(c2.outcome, Some(k2.outcome)));
    assert Mirrors(w, p, m1, m2) by {
      assert SameItem(w, ViewOf(m1), ViewOf(m2));
    }
    var status := if k1.status.Failed? then Failed else c1.status;
    StatusMirrors(w, p, m1, m2, status);
    assert MergeChild(c1, k1) == m1.(status := status) && MergeChild(c2, k2) == m2.(status := status);
  }

  lemma MirroredOutcome(w: Writes, p: Context, x: Context, y: Context)
    requires Mirrors(w, p, x, y)
    ensures x.outcome == Merge(p.outcome, Some(y.outcome))
  {
  }

  lemma {:induction false} MergeMirrors(w: Writes, p: Context, c1: Context, c2: Context, items: seq<Json>,
                                        children1: map<nat, Context>, children2: map<nat, Context>, j: nat)
    requires j <= |items| && Mirrors(w, p, c1, c2)
    requires forall x: nat :: x < |items| ==>
               x in children1 && x in children2 && Mirrors(w, Blank(p), children1[x], children2[x])
    ensures var (r1, it1) := MergeChildren(c1, items, children1, j);
            var (r2, it2) := MergeChildren(c2, items, children2, j);
            Mirrors(w, p, r1, r2) && it1 == RequotedIterations(p.outcome, it2)
    decreases |items| - j
  {
    hide Mirrors;
    hide MergeChild;
    if j < |items| {
      var k1, k2 := children1[j], children2[j];
      var m1, m2 := MergeChild(c1, k1), MergeChild(c2, k2);
      MergeChildMirrors(w, p, c1, c2, k1, k2);
      MergeMirrors(w, p, m1, m2, items, children1, children2, j + 1);
      BlankMirrorIsSame(w, p, k1, k2);
      MirroredStatus(w, Blank(p), k1, k2);
      MirroredOutcome(w, p, c1, c2);
      MirroredOutcome(w, p, m1, m2);
      RequotedCons(p.outcome, Iteration(j, items[j], c2.outcome, m2.outcome, k2.trace, false, k2.status.Failed?),
                   MergeChildren(m2, items, children2, j + 1).1);
    }
  }

  // ---------------------------------------------------------------- the two modes of one loop

  /** The sequential loop's live context next to the parallel loop's merged one. */
  ghost predicate SameRecord(x: Context, y: Context) {
    && x.ruleResults == y.ruleResults && x.actionResults == y.actionResults
    && x.scorecards == y.scorecards && x.tables == y.tables && x.transforms == y.transforms
    && x.outcome == y.outcome && x.status == y.status
  }

  /** The sequential report `x` of an iteration against the parallel one `y`: everything equal, but that the steps
      quote the running outcome from the iteration's own start instead of the loop's. */
  ghost predicate SameIteration(x: Iteration, y: Iteration) {
    && x.index == y.index && x.item == y.item && x.before == y.before && x.after == y.after
    && x.paused == y.paused && x.failed == y.failed
    && x.steps == RequotedTrace(y.before, y.steps)
  }

  /** What the iterations put on the trace, one after the other. */
  function StepsOf(iterations: seq<Iteration>): seq<TraceEntry> {
    if iterations == [] then [] else iterations[0].steps + StepsOf(iterations[1..])
  }

  lemma NoSteps(before: seq<TraceEntry>)
    ensures before + StepsOf([]) == before
  {
  }

  lemma StepsOfCons(first: Iteration, rest: seq<Iteration>, before: seq<TraceEntry>)
    ensures before + StepsOf([first] + rest) == before + first.steps + StepsOf(rest)
  {
    assert ([first] + rest)[1..] == rest;
  }

  ghost predicate SameIterations(x: seq<Iteration>, y: seq<Iteration>) {
    |x| == |y| && forall j :: 0 <= j < |x| ==> SameIteration(x[j], y[j])
  }

  /** No iteration paused or failed. */
  predicate Smooth(iterations: seq<Iteration>) {
    forall it :: it in iterations ==> !it.paused && !it.failed
  }

  /** Where the sequential loop may be before an iteration, given where the loop began. */
  ghost predicate Follows(w: Writes, start: Context, u: Context) {
    && u.payload - w.payload == start.payload - w.payload && u.variables - w.variables == start.variables - w.variables
    && Rank(start.outcome) <= Rank(u.outcome) && start.outcome != "" && u.outcome != "" && u.status.Running?
  }

  /** `child` is a child run of the loop for item `x`. */
  ghost predicate ChildFor(env: Env, w: Writes, step: Step, items: seq<Json>, depth: nat, parent: Context, x: nat,
                           child: Run)
    requires step.Loop?
  {
    exists t :: ChildStart(w, step, items, parent, x, t) && child == ChildRun(env, step, depth, t)
  }

  /** One iteration on the live context against its isolated child. */
  lemma IterationMirrors(env: Env, w: Writes, step: Step, items: seq<Json>, j: nat, depth: nat, parent: Context,
                         u: State, child: Run)
    requires step.Loop? && j < |items| && ItemOnly(env, w, step.body) && Follows(w, parent, u.ctx)
    requires ChildFor(env, w, step, items, depth, parent, j, child)
    ensures var live := Live(env, step, items, j, depth, parent.loopScope, u);
            live.raised == child.raised && Mirrors(w, u.ctx, live.state.ctx, child.state.ctx)
            && u.ctx.trace <= live.state.ctx.trace && (live.state.ctx.status.Completed? ==> false)
            && Rank(u.ctx.outcome) <= Rank(live.state.ctx.outcome)
  {
    var t :| ChildStart(w, step, items, parent, j, t) && child == ChildRun(env, step, depth, t);
    var v := u.(ctx := u.ctx.(loopScope := Bound(step, parent.loopScope, items[j], j)));
    MergeTakesHigherRank(u.ctx.outcome, Some(t.ctx.outcome));
    assert Mirrors(w, u.ctx, v.ctx, t.ctx);
    RunMirrors(env, w, step.body, 0, depth + 1, u.ctx, v, t);
    RunFromIsSafe(env, step.body, 0, depth + 1, v);
  }

  lemma {:induction false} IterationsMatchMerge(env: Env, w: Writes, step: Step, items: seq<Json>, j: nat, depth: nat,
                                                parent: Context, u: State, c: Context, runs: map<nat, Run>,
                                                children: map<nat, Context>)
    requires step.Loop? && j <= |items| && ItemOnly(env, w, step.body) && Follows(w, parent, u.ctx)
    requires SameRecord(u.ctx, c)
    requires forall x: nat :: j <= x < |items| ==> x in runs && ChildFor(env, w, step, items, depth, parent, x, runs[x])
    requires forall x: nat :: j <= x < |items| ==> x in children && children[x] == runs[x].state.ctx
    requires RunIterations(env, step, items, j, depth, parent.loopScope, u).raised.None?
    requires Smooth(RunIterations(env, step, items, j, depth, parent.loopScope, u).iterations)
    ensures forall x: nat :: j <= x < |items| ==> runs[x].raised.None? && runs[x].state.ctx.status.Running?
    ensures var r := RunIterations(env, step, items, j, depth, parent.loopScope, u);
            var (merged, iterations) := MergeChildren(c, items, children, j);
            && SameRecord(r.state.ctx, merged) && SameIterations(r.iterations, iterations)
            && r.state.ctx.trace == u.ctx.trace + StepsOf(r.iterations) && merged.trace == c.trace + StepsOf(iterations)
    decreases |items| - j
  {
    hide RunFrom;
    hide Follows;
    hide SameRecord;
    hide MergeChild;
    hide Live;
    hide ChildFor;
    hide ItemOnly;
    hide RequotedTrace;
    hide StepsOf;
    hide Tail;
    if j == |items| {
      NoSteps(u.ctx.trace);
      NoSteps(c.trace);
    } else {
      hide RunIterations;
      hide MergeChildren;
      hide Smooth;
      hide SameIterations;
      SmoothIteration(env, step, items, j, depth, parent.loopScope, u);
      IterationAdvances(env, w, step, items, j, depth, parent, u, c, runs[j]);
      var live := Live(env, step, items, j, depth, parent.loopScope, u).state;
      var m := MergeChild(c, runs[j].state.ctx);
      IterationsMatchMerge(env, w, step, items, j + 1, depth, parent, live, m, runs, children);
      var rest := RunIterations(env, step, items, j + 1, depth, parent.loopScope, live).iterations;
      var first := RunIterations(env, step, items, j, depth, parent.loopScope, u).iterations[0];
      var merged := Iteration(j, items[j], c.outcome, m.outcome, runs[j].state.ctx.trace, false, false);
      MergeChildrenCons(c, items, children, j);
      StepsOfCons(first, rest, u.ctx.trace);
      StepsOfCons(merged, MergeChildren(m, items, children, j + 1).1, c.trace);
      SameIterationsCons(first, rest, merged, MergeChildren(m, items, children, j + 1).1);
    }
  }

  lemma MergeChildrenCons(c: Context, items: seq<Json>, children: map<nat, Context>, j: nat)
    requires j < |items| && forall x :: j <= x < |items| ==> x in children
    ensures var m := MergeChild(c, children[j]);
            var (rest, iterations) := MergeChildren(m, items, children, j + 1);
            MergeChildren(c, items, children, j) ==
            (rest, [Iteration(j, items[j], c.outcome, m.outcome, children[j].trace, false,
                children[j].status.Failed?)] + iterations)
  {
    hide MergeChild;
  }

  lemma SameIterationsCons(x: Iteration, xs: seq<Iteration>, y: Iteration, ys: seq<Iteration>)
    requires SameIteration(x, y) && SameIterations(xs, ys)
    ensures SameIterations([x] + xs, [y] + ys)
  {
    hide SameIteration;
  }

  /** A smooth iteration leaves the loop where it can be compared again. */
  lemma IterationAdvances(env: Env, w: Writes, step: Step, items: seq<Json>, j: nat, depth: nat, parent: Context,
                          u: State, c: Context, child: Run)
    requires step.Loop? && j < |items| && ItemOnly(env, w, step.body) && Follows(w, parent, u.ctx)
    requires SameRecord(u.ctx, c)
    requires ChildFor(env, w, step, items, depth, parent, j, child)
    requires var live := Live(env, step, items, j, depth, parent.loopScope, u);
             live.raised.None? && !live.state.ctx.status.Paused? && !live.state.ctx.status.Failed?
    ensures child.raised.None? && child.state.ctx.status.Running?
    ensures var live := Live(env, step, items, j, depth, parent.loopScope, u).state.ctx;
            && Follows(w, parent, live)
            && SameRecord(live, MergeChild(c, child.state.ctx))
            && u.ctx.outcome == c.outcome && live.outcome == MergeChild(c, child.state.ctx).outcome
            && Tail(u.ctx.trace, live.trace) == RequotedTrace(c.outcome, child.state.ctx.trace)
            && live.trace == u.ctx.trace + Tail(u.ctx.trace, live.trace)
            && MergeChild(c, child.state.ctx).trace == c.trace + child.state.ctx.trace
  {
    hide RunFrom;
    hide Live;
    IterationMirrors(env, w, step, items, j, depth, parent, u, child);
    var live := Live(env, step, items, j, depth, parent.loopScope, u).state;
    LiveMatchesMerged(w, u.ctx, live.ctx, c, child.state.ctx);
    MirroredOutcomesAreSet(w, u.ctx, live.ctx, child.state.ctx);
  }

  /** The live context run through iteration `j`. */
  function Live(env: Env, step: Step, items: seq<Json>, j: nat, depth: nat, scope: map<string, Json>, u: State): Run
    requires step.Loop? && j < |items|
  {
    RunFrom(env, step.body, 0, depth + 1, u.(ctx := u.ctx.(loopScope := Bound(step, scope, items[j], j))))
  }

  lemma SmoothIteration(env: Env, step: Step, items: seq<Json>, j: nat, depth: nat, scope: map<string, Json>, u: State)
    requires step.Loop? && j < |items|
    requires RunIterations(env, step, items, j, depth, scope, u).raised.None?
    requires Smooth(RunIterations(env, step, items, j, depth, scope, u).iterations)
    ensures var r := RunIterations(env, step, items, j, depth, scope, u);
            var live := Live(env, step, items, j, depth, scope, u);
            var rest := RunIterations(env, step, items, j + 1, depth, scope, live.state);
            && live.raised.None? && !live.state.ctx.status.Paused? && !live.state.ctx.status.Failed?
            && r.state == rest.state && rest.raised.None? && Smooth(rest.iterations)
            && r.iterations == [Iteration(j, items[j], u.ctx.outcome, live.state.ctx.outcome,
                                          Tail(u.ctx.trace, live.state.ctx.trace), false, false)] + rest.iterations
  {
  }

  lemma LiveMatchesMerged(w: Writes, u: Context, live: Context, c: Context, child: Context)
    requires SameRecord(u, c) && Mirrors(w, u, live, child) && u.trace <= live.trace && u.status.Running?
    requires !live.status.Paused? && !live.status.Failed? && !live.status.Completed?
    ensures SameRecord(live, MergeChild(c, child))
    ensures Tail(u.trace, live.trace) == RequotedTrace(u.outcome, child.trace)
    ensures live.trace == u.trace + Tail(u.trace, live.trace)
  {
    hide Merge;
  }

  /** Child number `i` of the loop is a child run for its item. */
  lemma ChildIsChildFor(env: Env, w: Writes, step: Step, items: seq<Json>, order: seq<nat>, i: nat, depth: nat,
                        s: State)
    requires Ordered(step, items, order) && i < |order| && ItemOnly(env, w, step.body) && s.ctx.outcome != ""
    ensures ChildFor(env, w, step, items, depth, s.ctx, order[i], Child(env, step, items, order, i, depth, s))
  {
    hide RunFrom;
    BeforeKeepsParent(env, w, step, items, order, i, depth, s);
    var t := ChildState(step, items, order[i], Before(env, step, items, order, i, depth, s));
    assert ChildStart(w, step, items, s.ctx, order[i], t);
  }

  /** Whether an item's child throws does not depend on which siblings ran before it. */
  lemma SiblingsAgree(env: Env, w: Writes, step: Step, items: seq<Json>, depth: nat, parent: Context, x: nat, r1: Run,
                      r2: Run)
    requires step.Loop? && ItemOnly(env, w, step.body) && parent.outcome != ""
    requires ChildFor(env, w, step, items, depth, parent, x, r1) && ChildFor(env, w, step, items, depth, parent, x, r2)
    ensures r1.raised == r2.raised
  {
    hide Mirrors;
    hide RunFrom;
    hide Clone;
    var t1 :| ChildStart(w, step, items, parent, x, t1) && r1 == ChildRun(env, step, depth, t1);
    var t2 :| ChildStart(w, step, items, parent, x, t2) && r2 == ChildRun(env, step, depth, t2);
    StartsMirror(w, step, items, parent, parent, parent, x, t1, t2);
    hide ChildStart;
    RunMirrors(env, w, step.body, 0, depth + 1, Blank(parent), t1, t2);
  }

  lemma CollectedRun(env: Env, w: Writes, step: Step, items: seq<Json>, order: seq<nat>, depth: nat, s: State, x: nat)
    returns (run: Run)
    requires Ordered(step, items, order) && IsSchedule(order, |items|) && ItemOnly(env, w, step.body)
    requires s.ctx.outcome != ""
    requires x < |items|
    ensures ChildFor(env, w, step, items, depth, s.ctx, x, run)
    ensures RunChildren(env, step, items, order, 0, depth, s, map[], None).children[x] == run.state.ctx
  {
    hide RunFrom;
    hide RunChildren;
    hide ChildFor;
    hide Child;
    assert order[0..] == order && x in order;
    CollectedChildIsRun(env, step, items, order, 0, depth, s, map[], None, x);
    var i :| 0 <= i < |order| && order[i] == x
          && RunChildren(env, step, items, order, 0, depth, s, map[], None).children[x]
              == Child(env, step, items, order, i, depth, s).state.ctx;
    ChildIsChildFor(env, w, step, items, order, i, depth, s);
    run := Child(env, step, items, order, i, depth, s);
  }

  /** The collected children, each with the run it came from. */
  lemma CollectedRuns(env: Env, w: Writes, step: Step, items: seq<Json>, order: seq<nat>, depth: nat, s: State)
    returns (runs: map<nat, Run>)
    requires Ordered(step, items, order) && IsSchedule(order, |items|) && ItemOnly(env, w, step.body)
    requires s.ctx.outcome != ""
    ensures var r := RunChildren(env, step, items, order, 0, depth, s, map[], None);
            forall x: nat :: x < |items| ==>
              x in runs && ChildFor(env, w, step, items, depth, s.ctx, x, runs[x]) && r.children[x] == runs[x].state.ctx
  {
    hide RunFrom;
    hide RunChildren;
    hide ChildFor;
    runs := map[];
    for n := 0 to |items|
      invariant forall x: nat :: x < n ==>
        x in runs && ChildFor(env, w, step, items, depth, s.ctx, x, runs[x]) &&
        RunChildren(env, step, items, order, 0, depth, s, map[], None).children[x] == runs[x].state.ctx
    {
      var run := CollectedRun(env, w, step, items, order, depth, s, n);
      runs := runs[n := run];
    }
  }

  lemma CalmRunsRaiseNothing(env: Env, w: Writes, step: Step, items: seq<Json>, order: seq<nat>, depth: nat, s: State,
                             runs: map<nat, Run>)
    requires Ordered(step, items, order) && ItemOnly(env, w, step.body) && s.ctx.outcome != ""
    requires forall x: nat :: x < |items| ==>
               x in runs && ChildFor(env, w, step, items, depth, s.ctx, x, runs[x]) && runs[x].raised.None?
    ensures !SomeRaised(env, step, items, order, 0, depth, s)
  {
    hide Child;
    hide ChildFor;
    forall i | 0 <= i < |order| ensures Child(env, step, items, order, i, depth, s).raised.None? {
      ChildIsChildFor(env, w, step, items, order, i, depth, s);
      SiblingsAgree(env, w, step, items, depth, s.ctx, order[i], Child(env, step, items, order, i, depth, s),
          runs[order[i]]);
    }
  }

  /** A loop step's two bodies agree: same record, same outcome, same reports. */
  ghost predicate SameBodies(b1: BodyRun, b2: BodyRun) {
    && b1.Done? && b2.Done? && b1.error == b2.error
    && SameRecord(b1.state.ctx, b2.state.ctx)
    && b1.result.LoopReport? && b2.result.LoopReport?
    && b1.result.count == b2.result.count && b1.result.truncated == b2.result.truncated
    && SameIterations(b1.result.iterations, b2.result.iterations)
  }

  /** The parallel loop refines the sequential one: for a body that depends on the item and on inputs it
      does not write, in every completion order, if the sequential loop runs through without a pause,
      a failure or an exception, the parallel loop does too and leaves the same outcome, rule, action,
      scorecard, table and transform records, and per-iteration before/after outcomes; each iteration's steps are
      the parallel ones requoted from the outcome the iteration began with, and the traces are those steps in order. */
  lemma ParallelRefinesSequential(env: Env, w: Writes, step: Step, depth: nat, s: State)
    requires step.Loop? && ItemOnly(env, w, step.body) && s.ctx.status.Running? && s.ctx.outcome != ""
    requires SequentialBody(env, step, depth, s).Done?
    requires Smooth(SequentialBody(env, step, depth, s).result.iterations)
    ensures var sequential, parallel := SequentialBody(env, step, depth, s), ParallelBody(env, step, depth, s);
            && SameBodies(sequential, parallel)
            && sequential.state.ctx.trace == s.ctx.trace + StepsOf(sequential.result.iterations)
            && parallel.state.ctx.trace == s.ctx.trace + StepsOf(parallel.result.iterations)
  {
    hide RunFrom;
    hide ChildFor;
    hide MergeChildren;
    hide RunChildren;
    hide Child;
    hide ItemOnly;
    hide Gathered;
    hide StepsOf;
    hide SameIterations;
    var items := LoopSlice(env, step, s);
    var order := Schedule(env, |items|, s.tick);
    var gathered := RunChildren(env, step, items, order, 0, depth, s, map[], None);
    var runs := CollectedRuns(env, w, step, items, order, depth, s);
    assert SameRecord(s.ctx, gathered.state.ctx) && gathered.state.ctx.trace == s.ctx.trace by {
      ChildrenDecideTheLoop(env, step, items, order, 0, depth, s, map[], None);
      BeforeKeepsParent(env, w, step, items, order, |order|, depth, s);
    }
    IterationsMatchMerge(env, w, step, items, 0, depth, s.ctx, s, gathered.state.ctx, runs, gathered.children);
    assert gathered.raised.None? by {
      CalmRunsRaiseNothing(env, w, step, items, order, depth, s, runs);
      ChildrenDecideTheLoop(env, step, items, order, 0, depth, s, map[], None);
    }
    assert ParallelBody(env, step, depth, s) == Gathered(|LoopItems(env, step, s)|, LoopLimit(step), items, gathered);
    CalmChildrenAreMerged(|LoopItems(env, step, s)|, LoopLimit(step), items, gathered);
  }

  lemma CalmChildrenAreMerged(count: nat, limit: int, items: seq<Json>, runs: ChildRuns)
    requires forall x: nat :: x < |items| ==> x in runs.children && runs.children[x].status.Running?
    requires runs.raised.None?
    ensures var (merged, iterations) := MergeChildren(runs.state.ctx, items, runs.children, 0);
            Gathered(count, limit, items, runs) ==
            Done(runs.state.(ctx := merged), LoopReport(count, count > limit, true, iterations), None)
  {
    hide MergeChildren;
  }
}
