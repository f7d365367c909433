/** When exactly the two loop modes leave the very same trace, and an input on which they do not. */
module ParallelTraces {
  import opened Common
  import opened JsonValue
  import opened OutcomeLattice
  import opened PolicyModel
  import opened Interpreter
  import opened RunSafety
  import opened ParallelLoop

  // ---------------------------------------------------------------- the exact condition

  /** Read off the parallel report alone: in every iteration, requoting the steps from the outcome the iteration
      began with leaves them as they are. */
  predicate QuotesItsOwn(iterations: seq<Iteration>) {
    forall j :: 0 <= j < |iterations| ==>
      RequotedTrace(iterations[j].before, iterations[j].steps) == iterations[j].steps
  }

  lemma {:induction false} EqualSteps(x: seq<Iteration>, y: seq<Iteration>)
    requires |x| == |y| && (forall j :: 0 <= j < |x| ==> |x[j].steps| == |y[j].steps|) && StepsOf(x) == StepsOf(y)
    ensures forall j :: 0 <= j < |x| ==> x[j].steps == y[j].steps
  {
    if x != [] {
      var n := |x[0].steps|;
      assert StepsOf(x)[..n] == x[0].steps && StepsOf(y)[..n] == y[0].steps;
      assert StepsOf(x)[n..] == StepsOf(x[1..]) && StepsOf(y)[n..] == StepsOf(y[1..]);
      EqualSteps(x[1..], y[1..]);
    }
  }

  lemma SameReportsIff(x: seq<Iteration>, y: seq<Iteration>)
    requires SameIterations(x, y)
    ensures x == y <==> QuotesItsOwn(y)
    ensures StepsOf(x) == StepsOf(y) <==> QuotesItsOwn(y)
  {
    hide RequotedTrace;
    assert forall j :: 0 <= j < |x| ==> SameIteration(x[j], y[j]);
    if QuotesItsOwn(y) {
      assert forall j :: 0 <= j < |x| ==> x[j] == y[j];
    }
    if StepsOf(x) == StepsOf(y) {
      forall j | 0 <= j < |x| ensures |x[j].steps| == |y[j].steps| { RequotingKeepsLength(y[j].before, y[j].steps); }
      EqualSteps(x, y);
      assert forall j :: 0 <= j < |x| ==> RequotedTrace(y[j].before, y[j].steps) == x[j].steps == y[j].steps;
    }
  }

  lemma RequotingKeepsLength(q: string, trace: seq<TraceEntry>)
    ensures |RequotedTrace(q, trace)| == |trace|
  {
  }

  /** The two modes leave identical iteration reports, and identical traces, exactly when every iteration of the
      parallel report quotes what it would quote from the outcome it began with. */
  lemma ModesLeaveTheSameTraceIff(env: Env, w: Writes, step: Step, depth: nat, s: State)
    requires step.Loop? && ItemOnly(env, w, step.body) && s.ctx.status.Running? && s.ctx.outcome != ""
    requires SequentialBody(env, step, depth, s).Done?
    requires Smooth(SequentialBody(env, step, depth, s).result.iterations)
    ensures var sequential, parallel := SequentialBody(env, step, depth, s), ParallelBody(env, step, depth, s);
            && parallel.Done? && parallel.result.LoopReport?
            && (sequential.result.iterations == parallel.result.iterations
                <==> QuotesItsOwn(parallel.result.iterations))
            && (sequential.state.ctx.trace == parallel.state.ctx.trace <==> QuotesItsOwn(parallel.result.iterations))
  {
    hide SequentialBody;
    hide ParallelBody;
    hide QuotesItsOwn;
    hide StepsOf;
    ParallelRefinesSequential(env, w, step, depth, s);
    var x, y := SequentialBody(env, step, depth, s), ParallelBody(env, step, depth, s);
    SameReportsIff(x.result.iterations, y.result.iterations);
    SamePrefix(s.ctx.trace, StepsOf(x.result.iterations), StepsOf(y.result.iterations));
  }

  lemma SamePrefix<T>(p: seq<T>, a: seq<T>, b: seq<T>)
    ensures p + a == p + b <==> a == b
  {
    assert (p + a)[|p|..] == a && (p + b)[|p|..] == b;
  }

  // ---------------------------------------------------------------- bodies that quote nothing

  /** The entry quotes no running outcome. */
  predicate PlainEntry(e: TraceEntry) {
    e.Ran? ==> !e.result.Verdict? && !e.result.LoopReport?
  }

  ghost predicate PlainFrom(n: nat, trace: seq<TraceEntry>) {
    forall i :: n <= i < |trace| ==> PlainEntry(trace[i])
  }

  /** No step of the body reports the running outcome: no outcome steps and no nested loops. */
  ghost predicate Silent(steps: seq<Step>)
    decreases steps
  {
    forall k :: 0 <= k < |steps| ==> SilentStep(steps[k])
  }

  ghost predicate SilentStep(step: Step)
    decreases step
  {
    match step
    case Leaf(_, _, _, _, _, _) => true
    case Branch(_, _, _, arms, otherwise) =>
      (forall k :: 0 <= k < |arms| ==> assert arms[k] < step; Silent(arms[k].steps)) && Silent(otherwise)
    case _ => false
  }

  lemma AppendedIsPlain(trace: seq<TraceEntry>, e: TraceEntry, n: nat)
    requires PlainFrom(n, trace) && PlainEntry(e)
    ensures PlainFrom(n, trace + [e])
  {
  }

  lemma FinishedIsPlain(step: Step, b: BodyRun, n: nat)
    requires PlainFrom(n, b.state.ctx.trace) && (b.Done? ==> !b.result.Verdict? && !b.result.LoopReport?)
    ensures PlainFrom(n, Finish(step, b).0.ctx.trace)
  {
  }

  lemma {:induction false} SilentRunIsPlain(env: Env, steps: seq<Step>, i: nat, depth: nat, s: State, n: nat)
    requires i <= |steps| && Silent(steps) && PlainFrom(n, s.ctx.trace)
    ensures PlainFrom(n, RunFrom(env, steps, i, depth, s).state.ctx.trace)
    decreases steps, 0, |steps| - i
  {
    hide PlainFrom;
    hide Finish;
    if i < |steps| {
      var s0 := if depth == 0 then s.(ctx := s.ctx.(currentStep := i)) else s;
      if !StopsBefore(env, i, depth) {
        match Ask(env, steps[i].when, ViewOf(s0.ctx))
        case Breaks =>
        case Fails =>
          SkippedStepIsPlain(env, steps, i, depth, s0, n);
        case Holds => HeldStepIsPlain(env, steps, i, depth, s0, n);
      }
    }
  }

  lemma {:induction false} SkippedStepIsPlain(env: Env, steps: seq<Step>, i: nat, depth: nat, s: State, n: nat)
    requires i < |steps| && Silent(steps) && PlainFrom(n, s.ctx.trace)
    ensures PlainFrom(n, RunFrom(env, steps, i + 1, depth, Traced(s, Skipped(steps[i]))).state.ctx.trace)
    decreases steps, 0, |steps| - i, 0
  {
    hide RunFrom;
    AppendedIsPlain(s.ctx.trace, Skipped(steps[i]), n);
    SilentRunIsPlain(env, steps, i + 1, depth, Traced(s, Skipped(steps[i])), n);
  }

  lemma {:induction false} HeldStepIsPlain(env: Env, steps: seq<Step>, i: nat, depth: nat, s: State, n: nat)
    requires i < |steps| && Silent(steps) && PlainFrom(n, s.ctx.trace)
    ensures var (s1, stop) := Finish(steps[i], StepBody(env, steps[i], depth, s));
            PlainFrom(n, (if stop then s1 else RunFrom(env, steps, i + 1, depth, s1).state).ctx.trace)
    decreases steps, 0, |steps| - i, 0
  {
    hide PlainFrom;
    hide RunFrom;
    assert SilentStep(steps[i]);
    SilentBodyIsPlain(env, steps[i], depth, s, n);
    FinishedIsPlain(steps[i], StepBody(env, steps[i], depth, s), n);
    var (s1, stop) := Finish(steps[i], StepBody(env, steps[i], depth, s));
    if !stop { SilentRunIsPlain(env, steps, i + 1, depth, s1, n); }
  }

  lemma {:induction false} SilentBodyIsPlain(env: Env, step: Step, depth: nat, s: State, n: nat)
    requires SilentStep(step) && PlainFrom(n, s.ctx.trace)
    ensures var b := StepBody(env, step, depth, s);
            PlainFrom(n, b.state.ctx.trace) && (b.Done? ==> !b.result.Verdict? && !b.result.LoopReport?)
    decreases step, 1, 0
  {
    if step.Leaf? {
      LeafTraceIsPlain(env, step, s, n);
    } else {
      var pick := PickArm(env, step.arms, 0, ViewOf(s.ctx));
      if pick.Ok? {
        if pick.value < |step.arms| {
          assert step.arms[pick.value] < step;
          SilentRunIsPlain(env, step.arms[pick.value].steps, 0, depth + 1, s, n);
        } else if step.otherwise != [] {
          SilentRunIsPlain(env, step.otherwise, 0, depth + 1, s, n);
        }
      }
    }
  }

  lemma LeafTraceIsPlain(env: Env, step: Step, s: State, n: nat)
    requires step.Leaf? && PlainFrom(n, s.ctx.trace)
    ensures var b := LeafBody(env, step, s);
            PlainFrom(n, b.state.ctx.trace) && (b.Done? ==> !b.result.Verdict? && !b.result.LoopReport?)
  {
    hide ApplyLeaf;
    hide Attempted;
    hide Interrupted;
    var a := env.answer(step, ViewOf(s.ctx), s.tick);
    LeafTouches(step, a, s.ctx);
    InterruptedIsSafe(step, a, s.ctx);
    AttemptedIsPlain(step, a, s.ctx, n);
  }

  lemma AttemptedIsPlain(step: Step, a: Answer, c: Context, n: nat)
    requires step.Leaf? && PlainFrom(n, c.trace)
    ensures PlainFrom(n, Attempted(step, a, c).trace)
  {
  }

  lemma {:induction false} SilentIterationsArePlain(env: Env, step: Step, items: seq<Json>, j: nat, depth: nat,
                                                    scope: map<string, Json>, s: State, n: nat)
    requires step.Loop? && j <= |items| && Silent(step.body) && n <= |s.ctx.trace| && PlainFrom(n, s.ctx.trace)
    ensures var r := RunIterations(env, step, items, j, depth, scope, s);
            PlainFrom(n, r.state.ctx.trace) && forall it :: it in r.iterations ==> PlainFrom(0, it.steps)
    decreases |items| - j
  {
    if j < |items| {
      var s0 := s.(ctx := s.ctx.(loopScope := Bound(step, scope, items[j], j)));
      SilentRunIsPlain(env, step.body, 0, depth + 1, s0, n);
      SilentRunIsPlain(env, step.body, 0, depth + 1, s0, |s.ctx.trace|);
      RunFromIsSafe(env, step.body, 0, depth + 1, s0);
      var run := RunFrom(env, step.body, 0, depth + 1, s0);
      hide RunFrom;
      if run.raised.None? && !run.state.ctx.status.Paused? && !run.state.ctx.status.Failed? {
        SilentIterationsArePlain(env, step, items, j + 1, depth, scope, run.state, n);
      }
    }
  }

  lemma PlainTracesStay(q: string, trace: seq<TraceEntry>)
    requires PlainFrom(0, RequotedTrace(q, trace))
    ensures RequotedTrace(q, trace) == trace
  {
    forall i | 0 <= i < |trace| ensures RequotedEntry(q, trace[i]) == trace[i] {
      assert PlainEntry(RequotedTrace(q, trace)[i]);
    }
  }

  /** For a silent body the condition holds: the same trace and the same iteration reports. */
  lemma SilentLoopsHaveSameTrace(env: Env, w: Writes, step: Step, depth: nat, s: State)
    requires step.Loop? && ItemOnly(env, w, step.body) && Silent(step.body) && s.ctx.status.Running?
    requires s.ctx.outcome != ""
    requires SequentialBody(env, step, depth, s).Done?
    requires Smooth(SequentialBody(env, step, depth, s).result.iterations)
    ensures var sequential, parallel := SequentialBody(env, step, depth, s), ParallelBody(env, step, depth, s);
            && parallel.Done? && parallel.state.ctx.trace == sequential.state.ctx.trace
            && parallel.result.LoopReport? && parallel.result.iterations == sequential.result.iterations
  {
    hide ParallelBody;
    hide RunIterations;
    hide RequotedTrace;
    hide PlainFrom;
    ParallelRefinesSequential(env, w, step, depth, s);
    ModesLeaveTheSameTraceIff(env, w, step, depth, s);
    var x, y := SequentialBody(env, step, depth, s).result.iterations,
        ParallelBody(env, step, depth, s).result.iterations;
    NothingOnTheTrace(s.ctx.trace);
    SilentIterationsArePlain(env, step, LoopSlice(env, step, s), 0, depth, s.ctx.loopScope, s, |s.ctx.trace|);
    forall j | 0 <= j < |y| ensures RequotedTrace(y[j].before, y[j].steps) == y[j].steps {
      assert SameIteration(x[j], y[j]) && x[j] in x;
      PlainTracesStay(y[j].before, y[j].steps);
    }
  }

  lemma NothingOnTheTrace(trace: seq<TraceEntry>)
    ensures PlainFrom(|trace|, trace)
  {
  }

  // ---------------------------------------------------------------- where the traces differ

  const REJECT_FIRST := SetOutcome("a", Some("index == 0"), false, "reject", "", "")
  const THEN_APPROVE := SetOutcome("b", None, false, "approve", "", "")
  const TWO_ITEMS := Loop("l", None, false, "items", "item", "index", 2, true, [REJECT_FIRST, THEN_APPROVE])

  ghost predicate EvaluatesIndex(env: Env) {
    && (forall v :: env.condition("index == 0", v) ==
          if "index" in v.loopScope && v.loopScope["index"] == Number(0.0) then Holds else Fails)
    && (forall v :: env.collection("items", v) == [Null, Null])
  }

  /** An outcome step, in closed form. */
  function Decided(step: Step, s: State): State
    requires step.SetOutcome?
  {
    var merged := Merge(s.ctx.outcome, Some(ChosenOutcome(step)));
    Traced(s.(ctx := s.ctx.(outcome := merged)), Ran(step, Verdict(merged), None))
  }

  lemma LastStepInFull(env: Env, depth: nat, s: State)
    requires depth > 0 && s.ctx.status.Running?
    ensures RunFrom(env, TWO_ITEMS.body, 1, depth, s) == Run(Decided(THEN_APPROVE, s), None)
  {
  }

  /** One iteration of that body, in closed form. */
  lemma IterationInFull(env: Env, depth: nat, s: State)
    requires EvaluatesIndex(env) && depth > 0 && s.ctx.status.Running? && "index" in s.ctx.loopScope
    ensures RunFrom(env, TWO_ITEMS.body, 0, depth, s)
         == Run(Decided(THEN_APPROVE, if s.ctx.loopScope["index"] == Number(0.0) then Decided(REJECT_FIRST, s)
                                     else Traced(s, Skipped(REJECT_FIRST))), None)
  {
    hide RunFrom;
    hide Decided;
    var first := s.ctx.loopScope["index"] == Number(0.0);
    assert Ask(env, REJECT_FIRST.when, ViewOf(s.ctx)) == if first then Holds else Fails;
    if first {
      FirstStepTaken(env, depth, s);
      DecidedRuns(REJECT_FIRST, s);
      LastStepInFull(env, depth, Decided(REJECT_FIRST, s));
    } else {
      FirstStepSkipped(env, depth, s);
      LastStepInFull(env, depth, Traced(s, Skipped(REJECT_FIRST)));
    }
  }

  lemma DecidedRuns(step: Step, s: State)
    requires step.SetOutcome?
    ensures Decided(step, s).ctx.status == s.ctx.status
  {
  }

  lemma FirstStepTaken(env: Env, depth: nat, s: State)
    requires depth > 0 && s.ctx.status.Running? && Ask(env, REJECT_FIRST.when, ViewOf(s.ctx)).Holds?
    ensures RunFrom(env, TWO_ITEMS.body, 0, depth, s) == RunFrom(env, TWO_ITEMS.body, 1, depth,
            Decided(REJECT_FIRST, s))
  {
  }

  lemma FirstStepSkipped(env: Env, depth: nat, s: State)
    requires depth > 0 && Ask(env, REJECT_FIRST.when, ViewOf(s.ctx)).Fails?
    ensures RunFrom(env, TWO_ITEMS.body, 0, depth, s) == RunFrom(env, TWO_ITEMS.body, 1, depth,
            Traced(s, Skipped(REJECT_FIRST)))
  {
  }

  /** Outcome steps quote the running outcome, and a child's runs from the entry outcome only: after a
      first item rejects, the second item's entry reads "reject" sequentially and "approve" in parallel. */
  lemma ReportedOutcomesDiffer(env: Env, depth: nat, s: State)
    requires EvaluatesIndex(env) && s.ctx.status.Running? && s.ctx.outcome == "pending"
    ensures var sequential, parallel := SequentialBody(env, TWO_ITEMS, depth, s),
            ParallelBody(env, TWO_ITEMS, depth, s);
            && sequential.Done? && parallel.Done?
            && sequential.state.ctx.outcome == parallel.state.ctx.outcome == "reject"
            && sequential.state.ctx.trace != parallel.state.ctx.trace
  {
    hide RunFrom;
    hide RunChildren;
    hide RunIterations;
    hide MergeChildren;
    hide Merge;
    var w := Writes({}, {});
    IndexBodyIsItemOnly(env, w);
    SequentialInFull(env, depth, s);
    ParallelRefinesSequential(env, w, TWO_ITEMS, depth, s);
    ParallelInFull(env, w, depth, s);
  }

  lemma IndexBodyIsItemOnly(env: Env, w: Writes)
    requires EvaluatesIndex(env)
    ensures ItemOnly(env, w, TWO_ITEMS.body)
  {
  }

  lemma SequentialInFull(env: Env, depth: nat, s: State)
    requires EvaluatesIndex(env) && s.ctx.status.Running? && s.ctx.outcome == "pending"
    ensures var b := SequentialBody(env, TWO_ITEMS, depth, s);
            && b.Done? && b.state.ctx.outcome == "reject" && Smooth(b.result.iterations)
            && b.state.ctx.trace != [] && Last(b.state.ctx.trace) == Ran(THEN_APPROVE, Verdict("reject"), None)
  {
    hide RunFrom;
    var step, items, scope := TWO_ITEMS, [Null, Null], s.ctx.loopScope;
    var v0 := s.(ctx := s.ctx.(loopScope := Bound(step, scope, items[0], 0)));
    IterationInFull(env, depth + 1, v0);
    var u1 := RunFrom(env, step.body, 0, depth + 1, v0).state;
    var v1 := u1.(ctx := u1.ctx.(loopScope := Bound(step, scope, items[1], 1)));
    IterationInFull(env, depth + 1, v1);
    var u2 := RunFrom(env, step.body, 0, depth + 1, v1).state;
    assert u1.ctx.outcome == "reject" && u2.ctx.outcome == "reject";
    assert LoopSlice(env, step, s) == items;
    assert RunIterations(env, step, items, 2, depth, scope, u2) == LoopRun(u2, [], None);
    assert RunIterations(env, step, items, 1, depth, scope, u1).state == u2;
    assert RunIterations(env, step, items, 0, depth, scope, s).state == u2;
  }

  lemma ParallelInFull(env: Env, w: Writes, depth: nat, s: State)
    requires EvaluatesIndex(env) && s.ctx.status.Running? && s.ctx.outcome == "pending"
    requires ItemOnly(env, w, TWO_ITEMS.body)
    requires ParallelBody(env, TWO_ITEMS, depth, s).Done?
    ensures var c := ParallelBody(env, TWO_ITEMS, depth, s).state.ctx;
            c.trace != [] && Last(c.trace) == Ran(THEN_APPROVE, Verdict("approve"), None)
  {
    hide RunFrom;
    hide RunChildren;
    hide MergeChildren;
    var step, items := TWO_ITEMS, [Null, Null];
    assert LoopSlice(env, step, s) == items;
    var order := Schedule(env, 2, s.tick);
    var gathered := RunChildren(env, step, items, order, 0, depth, s, map[], None);
    var runs := CollectedRuns(env, w, step, items, order, depth, s);
    hide ChildFor;
    SecondChildInFull(env, w, depth, s, runs[1]);
    LastOfTwo(gathered.state.ctx, items, gathered.children);
  }

  lemma SecondChildInFull(env: Env, w: Writes, depth: nat, s: State, child: Run)
    requires EvaluatesIndex(env) && s.ctx.outcome == "pending"
    requires ChildFor(env, w, TWO_ITEMS, [Null, Null], depth, s.ctx, 1, child)
    ensures child.state.ctx.trace != [] && Last(child.state.ctx.trace) == Ran(THEN_APPROVE, Verdict("approve"), None)
  {
    hide RunFrom;
    var t :| ChildStart(w, TWO_ITEMS, [Null, Null], s.ctx, 1, t) && child == ChildRun(env, TWO_ITEMS, depth, t);
    IterationInFull(env, depth + 1, t);
  }

  lemma LastOfTwo(c: Context, items: seq<Json>, children: map<nat, Context>)
    requires |items| == 2 && 0 in children && 1 in children && children[1].trace != []
    ensures var r := MergeChildren(c, items, children, 0).0; r.trace != [] && Last(r.trace) == Last(children[1].trace)
  {
    hide Merge;
    var m := MergeChild(c, children[0]);
    var n := MergeChild(m, children[1]);
    assert MergeChildren(n, items, children, 2).0 == n;
    assert MergeChildren(m, items, children, 1).0 == n;
    assert MergeChildren(c, items, children, 0).0 == n;
  }
}
