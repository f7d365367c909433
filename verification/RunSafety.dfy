/** What every run keeps: the outcome never weakens, a failed gate is never lost, the trace is
    append-only, and no sub-workflow is entered twice. Each lemma follows one interpreter function. */
module RunSafety {
  import opened Common
  import opened JsonValue
  import opened OutcomeLattice
  import opened PolicyModel
  import opened Interpreter

  /** A rule, scorecard, table, model or sub-workflow step that threw, as the trace records it. */
  predicate GateRaised(e: TraceEntry) {
    e.Ran? && IsGate(e.step) && e.error.Some?
  }

  /** Every gate failure on record has escalated the outcome to review or above. */
  ghost predicate FailsClosed(c: Context) {
    forall e :: e in c.trace && GateRaised(e) ==> Rank(c.outcome) >= REVIEW_RANK
  }

  ghost predicate EnteredOnce(env: Env, s: State) {
    Distinct(s.entered) && forall ref :: ref in s.entered ==> ref in s.visited && ref in env.store
  }

  /** `r` is a later state of the same run as `s`. */
  ghost predicate Advances(env: Env, s: State, r: State) {
    && Rank(s.ctx.outcome) <= Rank(r.ctx.outcome)
    && s.ctx.trace <= r.ctx.trace
    && SameInputs(s.ctx, r.ctx)
    && (FailsClosed(s.ctx) ==> FailsClosed(r.ctx))
    && (EnteredOnce(env, s) ==> EnteredOnce(env, r))
    && s.entered <= r.entered
    && (forall ref :: ref in r.entered && ref in s.visited ==> ref in s.entered)
    && (r.ctx.status.Completed? ==> s.ctx.status.Completed?)
  }

  /** Steps cannot clear what failed before they ran. */
  predicate SameInputs(c: Context, r: Context) {
    r.variableErrors == c.variableErrors && r.fetchErrors == c.fetchErrors
  }

  lemma AdvancesTransitively(env: Env, s: State, t: State, r: State)
    requires s.visited <= t.visited
    requires Advances(env, s, t) && Advances(env, t, r)
    ensures Advances(env, s, r)
  {
  }

  lemma AppendedEntryIsSafe(c: Context, e: TraceEntry)
    requires FailsClosed(c)
    requires GateRaised(e) ==> Rank(c.outcome) >= REVIEW_RANK
    ensures FailsClosed(c.(trace := c.trace + [e]))
  {
  }

  lemma AppendedNotesAreSafe(step: Step, a: Answer, c: Context)
    requires step.Leaf?
    ensures var r := Attempted(step, a, c);
            && c.trace <= r.trace && r.outcome == c.outcome && r.status == c.status
            && SameInputs(c, r) && (FailsClosed(c) ==> FailsClosed(r))
  {
    var r := Attempted(step, a, c);
    if step.kind.Action? {
      forall e | e in r.trace ensures e in c.trace || e in Notes(a.notes) {
      }
    }
  }

  lemma HigherOutcomeStaysSafe(c: Context, r: Context)
    requires r.trace == c.trace && Rank(c.outcome) <= Rank(r.outcome)
    ensures FailsClosed(c) ==> FailsClosed(r)
  {
  }

  /** A leaf step touches the outcome only through the merge, and the trace only through notes. */
  lemma LeafTouches(step: Step, a: Answer, c: Context)
    requires step.Leaf?
    ensures ApplyLeaf(step, a, c).trace == Attempted(step, a, c).trace
    ensures ApplyLeaf(step, a, c).outcome == c.outcome || ApplyLeaf(step, a, c).outcome == Merge(c.outcome, a.outcome)
    ensures SameInputs(c, ApplyLeaf(step, a, c)) && (ApplyLeaf(step, a, c).status.Completed? ==> c.status.Completed?)
  {
    if step.kind.Action? || step.kind.ReviewGate? || step.kind.Rule? || step.kind.DecisionTable? {
      LeafVerdictTouches(step, a, c);
    } else if step.kind.Connector? || step.kind.Model? || step.kind.Other? {
      LeafWriteTouches(step, a, c);
    } else {
      LeafRecordTouches(step, a, c);
    }
  }

  lemma LeafVerdictTouches(step: Step, a: Answer, c: Context)
    requires step.Leaf? && (step.kind.Action? || step.kind.ReviewGate? || step.kind.Rule? || step.kind.DecisionTable?)
    ensures ApplyLeaf(step, a, c).trace == Attempted(step, a, c).trace
    ensures ApplyLeaf(step, a, c).outcome == c.outcome || ApplyLeaf(step, a, c).outcome == Merge(c.outcome, a.outcome)
    ensures SameInputs(c, ApplyLeaf(step, a, c)) && (ApplyLeaf(step, a, c).status.Completed? ==> c.status.Completed?)
  {
  }

  lemma LeafWriteTouches(step: Step, a: Answer, c: Context)
    requires step.Leaf? && (step.kind.Connector? || step.kind.Model? || step.kind.Other?)
    ensures ApplyLeaf(step, a, c).trace == c.trace && ApplyLeaf(step, a, c).outcome == c.outcome
    ensures SameInputs(c, ApplyLeaf(step, a, c)) && (ApplyLeaf(step, a, c).status.Completed? ==> c.status.Completed?)
  {
    hide ApplyLeaf;
    if step.kind.Connector? { ConnectorTouches(step, a, c); }
    else if step.kind.Model? { ModelTouches(step, a, c); }
    else { OtherTouches(step, a, c); }
  }

  lemma ConnectorTouches(step: Step, a: Answer, c: Context)
    requires step.Leaf? && step.kind.Connector?
    ensures var r := ApplyLeaf(step, a, c); r == c.(payload := r.payload)
  {
  }

  lemma ModelTouches(step: Step, a: Answer, c: Context)
    requires step.Leaf? && step.kind.Model?
    ensures var r := ApplyLeaf(step, a, c); r == c.(variables := r.variables)
  {
  }

  lemma OtherTouches(step: Step, a: Answer, c: Context)
    requires step.Leaf? && step.kind.Other?
    ensures ApplyLeaf(step, a, c) == c
  {
  }

  lemma LeafRecordTouches(step: Step, a: Answer, c: Context)
    requires step.Leaf? && (step.kind.Scorecard? || step.kind.Transform? || step.kind.Monitor?)
    ensures ApplyLeaf(step, a, c).trace == c.trace && ApplyLeaf(step, a, c).outcome == c.outcome
    ensures SameInputs(c, ApplyLeaf(step, a, c)) && (ApplyLeaf(step, a, c).status.Completed? ==> c.status.Completed?)
  {
  }

  lemma LeafEffectIsSafe(step: Step, a: Answer, c: Context)
    requires step.Leaf?
    ensures var r := ApplyLeaf(step, a, c);
            && Rank(c.outcome) <= Rank(r.outcome) && c.trace <= r.trace && SameInputs(c, r)
            && (FailsClosed(c) ==> FailsClosed(r)) && (r.status.Completed? ==> c.status.Completed?)
  {
    LeafTouches(step, a, c);
    MergeTakesHigherRank(c.outcome, a.outcome);
    AppendedNotesAreSafe(step, a, c);
    HigherOutcomeStaysSafe(Attempted(step, a, c), ApplyLeaf(step, a, c));
  }

  lemma InterruptedIsSafe(step: Step, a: Answer, c: Context)
    requires step.Leaf?
    ensures var r := Interrupted(step, a, c);
            && Rank(c.outcome) <= Rank(r.outcome) && c.trace <= r.trace && SameInputs(c, r)
            && (FailsClosed(c) ==> FailsClosed(r)) && r.status == c.status
            && r.trace == Attempted(step, a, c).trace
  {
    hide Attempted;
    AppendedNotesAreSafe(step, a, c);
    MergeTakesHigherRank(c.outcome, a.outcome);
    HigherOutcomeStaysSafe(Attempted(step, a, c), Interrupted(step, a, c));
  }

  lemma LeafIsSafe(env: Env, step: Step, s: State)
    requires step.Leaf?
    ensures Advances(env, s, LeafBody(env, step, s).state)
  {
    hide ApplyLeaf;
    hide Interrupted;
    hide FailsClosed;
    var a := env.answer(step, ViewOf(s.ctx), s.tick);
    InterruptedIsSafe(step, a, s.ctx);
    LeafEffectIsSafe(step, a, s.ctx);
  }

  lemma FinishIsSafe(env: Env, step: Step, s: State, b: BodyRun)
    requires Advances(env, s, b.state)
    requires b.Done? && IsGate(step) ==> b.error.None?
    ensures Advances(env, s, Finish(step, b).0)
  {
    var r := Finish(step, b).0;
    MergeTakesHigherRank(b.state.ctx.outcome, Some("review"));
    if FailsClosed(s.ctx) {
      match b
      case Done(s1, result, error) =>
        AppendedEntryIsSafe(s1.ctx, Ran(step, result, error));
      case Threw(s1, message) =>
        var settled := r.ctx.(trace := s1.ctx.trace);
        assert FailsClosed(settled);
        AppendedEntryIsSafe(settled, Ran(step, NoResult, Some(message)));
        assert r.ctx == settled.(trace := settled.trace + [Ran(step, NoResult, Some(message))]);
    }
  }

  lemma StepIndexIsSafe(env: Env, s: State, i: nat)
    ensures Advances(env, s, s.(ctx := s.ctx.(currentStep := i)))
    ensures Advances(env, s, s.(ctx := PausedAt(s.ctx, i)))
    ensures Advances(env, s, s)
  {
  }

  lemma SkippingIsSafe(env: Env, s: State, step: Step)
    ensures Advances(env, s, Traced(s, Skipped(step)))
  {
  }

  lemma {:induction false} RunFromIsSafe(env: Env, steps: seq<Step>, i: nat, depth: nat, s: State)
    requires i <= |steps|
    ensures Advances(env, s, RunFrom(env, steps, i, depth, s).state)
    decreases Unvisited(env, s), steps, 0, |steps| - i
  {
    hide Advances;
    hide Finish;
    StepIndexIsSafe(env, s, i);
    if i < |steps| {
      var s0 := if depth == 0 then s.(ctx := s.ctx.(currentStep := i)) else s;
      StepIndexIsSafe(env, s0, i);
      if StopsBefore(env, i, depth) {
        AdvancesTransitively(env, s, s0, s0.(ctx := PausedAt(s0.ctx, i)));
      } else {
        match Ask(env, steps[i].when, ViewOf(s0.ctx))
        case Breaks =>
        case Fails =>
          var s1 := Traced(s0, Skipped(steps[i]));
          SkippingIsSafe(env, s0, steps[i]);
          RunFromIsSafe(env, steps, i + 1, depth, s1);
          AdvancesTransitively(env, s0, s1, RunFrom(env, steps, i + 1, depth, s1).state);
          AdvancesTransitively(env, s, s0, RunFrom(env, steps, i, depth, s).state);
        case Holds =>
          HeldStepIsSafe(env, steps, i, depth, s0);
          AdvancesTransitively(env, s, s0, RunFrom(env, steps, i, depth, s).state);
      }
    }
  }

  /** The step at `i` runs: its body, its record, and the rest of the list. */
  lemma {:induction false} HeldStepIsSafe(env: Env, steps: seq<Step>, i: nat, depth: nat, s: State)
    requires i < |steps|
    ensures var (s1, stop) := Finish(steps[i], StepBody(env, steps[i], depth, s));
            Advances(env, s, if stop then s1 else RunFrom(env, steps, i + 1, depth, s1).state)
    decreases Unvisited(env, s), steps, 0, |steps| - i, 0
  {
    hide Advances;
    var b := StepBody(env, steps[i], depth, s);
    StepBodyIsSafe(env, steps[i], depth, s);
    FinishIsSafe(env, steps[i], s, b);
    var (s1, stop) := Finish(steps[i], b);
    if !stop {
      RunFromIsSafe(env, steps, i + 1, depth, s1);
      AdvancesTransitively(env, s, s1, RunFrom(env, steps, i + 1, depth, s1).state);
    }
  }

  lemma {:induction false} StepBodyIsSafe(env: Env, step: Step, depth: nat, s: State)
    ensures Advances(env, s, StepBody(env, step, depth, s).state)
    ensures StepBody(env, step, depth, s).Done? && IsGate(step) ==> StepBody(env, step, depth, s).error.None?
    decreases Unvisited(env, s), step, 2, 0
  {
    match step
    case Leaf(_, _, _, _, _, _) => LeafIsSafe(env, step, s);
    case SetOutcome(_, _, _, _, _, _) => MergeTakesHigherRank(s.ctx.outcome, Some(ChosenOutcome(step)));
    case Loop(_, _, _, _, _, _, _, _, _) => LoopBodyIsSafe(env, step, depth, s);
    case Branch(_, _, _, _, _) => BranchBodyIsSafe(env, step, depth, s);
    case Workflow(_, _, _, _, _) => WorkflowBodyIsSafe(env, step, depth, s);
  }

  lemma {:induction false} BranchBodyIsSafe(env: Env, step: Step, depth: nat, s: State)
    requires step.Branch?
    ensures Advances(env, s, BranchBody(env, step, depth, s).state)
    decreases Unvisited(env, s), step, 1, 0
  {
    var pick := PickArm(env, step.arms, 0, ViewOf(s.ctx));
    if pick.Ok? {
      if pick.value < |step.arms| {
        assert step.arms[pick.value] < step;
        RunFromIsSafe(env, step.arms[pick.value].steps, 0, depth + 1, s);
      } else if step.otherwise != [] {
        RunFromIsSafe(env, step.otherwise, 0, depth + 1, s);
      }
    }
  }

  lemma TickingIsSafe(env: Env, s: State)
    ensures Advances(env, s, s.(tick := s.tick + 1))
  {
  }

  lemma EnteringIsSafe(env: Env, ref: string, s: State)
    requires ref in env.store && ref !in s.visited
    ensures Advances(env, s, Entered(ref, s))
    ensures ref in Unvisited(env, s) && ref !in Unvisited(env, Entered(ref, s))
  {
  }

  lemma {:induction false} WorkflowBodyIsSafe(env: Env, step: Step, depth: nat, s: State)
    requires step.Workflow?
    ensures Advances(env, s, WorkflowBody(env, step, depth, s).state)
    ensures WorkflowBody(env, step, depth, s).Done? ==> WorkflowBody(env, step, depth, s).error.None?
    decreases Unvisited(env, s), step, 1, 0
  {
    hide Advances;
    StepIndexIsSafe(env, s, 0);
    TickingIsSafe(env, s);
    var target := ResolveRef(env, step);
    if depth < MAX_WORKFLOW_DEPTH && target.Ok? && !Refused(env, target.value, s) && target.value in env.store {
      var ref := target.value;
      EnteringIsSafe(env, ref, s);
      RunFromIsSafe(env, env.store[ref], 0, depth + 1, Entered(ref, s));
      AdvancesTransitively(env, s, Entered(ref, s), RunFrom(env, env.store[ref], 0, depth + 1, Entered(ref, s)).state);
    }
  }

  lemma {:induction false} LoopBodyIsSafe(env: Env, step: Step, depth: nat, s: State)
    requires step.Loop?
    ensures Advances(env, s, LoopBody(env, step, depth, s).state)
    decreases Unvisited(env, s), step, 1, 1
  {
    hide Gathered;
    if depth < MAX_WORKFLOW_DEPTH {
      if step.parallel && LoopSlice(env, step, s) != [] {
        ParallelBodyIsSafe(env, step, depth, s);
      } else {
        RunIterationsIsSafe(env, step, LoopSlice(env, step, s), 0, depth, s.ctx.loopScope, s);
      }
    }
  }

  lemma {:induction false} ParallelBodyIsSafe(env: Env, step: Step, depth: nat, s: State)
    requires step.Loop?
    ensures Advances(env, s, ParallelBody(env, step, depth, s).state)
    decreases Unvisited(env, s), step, 1, 0
  {
    hide Advances;
    hide FailsClosed;
    hide Gathered;
    var items := LoopSlice(env, step, s);
    var order := Schedule(env, |items|, s.tick);
    RunChildrenIsSafe(env, step, items, order, 0, depth, s, map[], None);
    GatheringIsSafe(env, s, |LoopItems(env, step, s)|, LoopLimit(step), items,
        RunChildren(env, step, items, order, 0, depth, s, map[], None));
  }

  lemma GatheringIsSafe(env: Env, s: State, count: nat, limit: int, items: seq<Json>, runs: ChildRuns)
    requires forall x: nat :: x < |items| ==> x in runs.children
    requires forall x :: x in runs.children ==> FailsClosed(runs.children[x])
    requires Advances(env, s, runs.state)
    ensures Advances(env, s, Gathered(count, limit, items, runs).state)
  {
    MergeChildrenIsSafe(runs.state.ctx, items, runs.children, 0);
  }

  lemma {:induction false} RunIterationsIsSafe(env: Env, step: Step, items: seq<Json>, j: nat, depth: nat,
                                               scope: map<string, Json>, s: State)
    requires step.Loop? && j <= |items|
    ensures Advances(env, s, RunIterations(env, step, items, j, depth, scope, s).state)
    decreases Unvisited(env, s), step, 0, |items| - j
  {
    if j < |items| {
      var s0 := s.(ctx := s.ctx.(loopScope := Bound(step, scope, items[j], j)));
      RunFromIsSafe(env, step.body, 0, depth + 1, s0);
      var run := RunFrom(env, step.body, 0, depth + 1, s0);
      if run.raised.None? && !run.state.ctx.status.Paused? && !run.state.ctx.status.Failed? {
        RunIterationsIsSafe(env, step, items, j + 1, depth, scope, run.state);
      }
    }
  }

  /** A child starts with an empty record, so nothing on it can have failed unnoticed. */
  lemma ChildStateIsSafe(env: Env, step: Step, items: seq<Json>, x: nat, s: State)
    requires step.Loop? && x < |items|
    ensures FailsClosed(ChildState(step, items, x, s).ctx)
  {
  }

  /** What a child leaves to its siblings is a later state of the loop's run. */
  lemma AfterChildIsSafe(env: Env, step: Step, items: seq<Json>, x: nat, s: State, run: Run)
    requires step.Loop? && x < |items| && Advances(env, ChildState(step, items, x, s), run.state)
    ensures Advances(env, s, AfterChild(s, run)) && FailsClosed(run.state.ctx)
  {
    var t := ChildState(step, items, x, s);
    ChildStateIsSafe(env, step, items, x, s);
    assert EnteredOnce(env, s) ==> EnteredOnce(env, t);
  }

  lemma {:induction false} RunChildrenIsSafe(env: Env, step: Step, items: seq<Json>, order: seq<nat>, k: nat,
                                             depth: nat, s: State, children: map<nat, Context>, raised: Option<string>)
    requires step.Loop? && k <= |order|
    requires forall i :: 0 <= i < |order| ==> order[i] < |items|
    requires raised.None? || raised == Some(CONDITION_ERROR)
    requires forall x :: x in children ==> FailsClosed(children[x])
    ensures var r := RunChildren(env, step, items, order, k, depth, s, children, raised);
            && Advances(env, s, r.state)
            && r.state.ctx == WithPayload(s.ctx, r.state.ctx.payload)
            && forall x :: x in r.children ==> FailsClosed(r.children[x])
    decreases Unvisited(env, s), step, 0, |order| - k
  {
    hide Advances;
    hide FailsClosed;
    hide RunFrom;
    if k == |order| {
      StepIndexIsSafe(env, s, 0);
    } else {
      var t := ChildState(step, items, order[k], s);
      RunFromIsSafe(env, step.body, 0, depth + 1, t);
      var run := RunFrom(env, step.body, 0, depth + 1, t);
      AfterChildIsSafe(env, step, items, order[k], s, run);
      var next := AfterChild(s, run);
      var collected := children[order[k] := run.state.ctx];
      var raised' := if raised.Some? then raised else run.raised;
      RunChildrenIsSafe(env, step, items, order, k + 1, depth, next, collected, raised');
      AdvancesTransitively(env, s, next, RunChildren(env, step, items, order, k + 1, depth, next, collected,
          raised').state);
    }
  }

  lemma MergeChildIsSafe(c: Context, child: Context)
    requires FailsClosed(child)
    ensures var r := MergeChild(c, child);
            && Rank(c.outcome) <= Rank(r.outcome) && c.trace <= r.trace && SameInputs(c, r)
            && (FailsClosed(c) ==> FailsClosed(r)) && (r.status.Completed? ==> c.status.Completed?)
  {
    hide Merge;
    MergeTakesHigherRank(c.outcome, Some(child.outcome));
  }

  lemma {:induction false} MergeChildrenIsSafe(c: Context, items: seq<Json>, children: map<nat, Context>, j: nat)
    requires j <= |items|
    requires forall x :: j <= x < |items| ==> x in children
    requires forall x :: x in children ==> FailsClosed(children[x])
    ensures var r := MergeChildren(c, items, children, j).0;
            && Rank(c.outcome) <= Rank(r.outcome) && c.trace <= r.trace && SameInputs(c, r)
            && (FailsClosed(c) ==> FailsClosed(r)) && (r.status.Completed? ==> c.status.Completed?)
    decreases |items| - j
  {
    hide FailsClosed;
    hide MergeChild;
    if j < |items| {
      var child := children[j];
      var merged := MergeChild(c, child);
      MergeChildIsSafe(c, child);
      MergeChildrenIsSafe(merged, items, children, j + 1);
    }
  }
}
