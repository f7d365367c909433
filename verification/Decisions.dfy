/** A whole decision: the run, then the two guards that refuse to answer on missing inputs. */
module Decisions {
  import opened Common
  import opened OutcomeLattice
  import opened PolicyModel
  import opened Interpreter
  import opened RunSafety

  const CONTINUE := "continue"

  datatype Decision = Escaped(message: string) | Suspended(ctx: Context) | Decided(ctx: Context)

  /** Sources whose retrieval failed and whose connector did not opt out. */
  function FailedSources(c: Context): set<string> {
    set source | source in c.fetchErrors && c.fetchErrors[source] != CONTINUE
  }

  function Guarded(c: Context, guard: string): Context {
    c.(outcome := "review", trace := c.trace + [GuardFired(guard, c.outcome)])
  }

  /** A guard fires when its inputs are missing and the outcome is not review already. */
  function GuardedIf(c: Context, missing: bool, guard: string): Context {
    if !missing || c.outcome == "review" then c else Guarded(c, guard)
  }

  function FetchGuard(c: Context): Context {
    GuardedIf(c, FailedSources(c) != {}, "source_fetch_guard")
  }

  function VariableGuard(c: Context, failOpen: bool): Context {
    GuardedIf(c, c.variableErrors != map[] && !failOpen, "variable_error_guard")
  }

  function Settled(c: Context): Context {
    if c.status.Running? then c.(status := Completed) else c
  }

  function Start(policy: string, c: Context): State {
    State(c.(status := Running), {policy}, [], {}, 0)
  }

  function RunPolicy(env: Env, policy: string, steps: seq<Step>, start: nat, c: Context): Run {
    RunFrom(env, steps, if start < |steps| then start else |steps|, 0, Start(policy, c))
  }

  function Decide(env: Env, policy: string, steps: seq<Step>, start: nat, c: Context, failOpen: bool): Decision {
    var run := RunPolicy(env, policy, steps, start, c);
    if run.raised.Some? then Escaped(run.raised.value)
    else if run.state.ctx.status.Paused? then Suspended(run.state.ctx)
    else Decided(VariableGuard(FetchGuard(Settled(run.state.ctx)), failOpen))
  }

  /** What the decision log stores for a decided context. */
  function LoggedOutcome(c: Context): string {
    if c.outcome == "pending" then "review" else c.outcome
  }

  /** Inputs that were declared and could not be had. */
  predicate InputsMissing(c: Context, failOpen: bool) {
    FailedSources(c) != {} || (c.variableErrors != map[] && !failOpen)
  }

  /** A guard forces review when its inputs are missing and is the identity otherwise. */
  lemma GuardIsExact(c: Context, missing: bool, guard: string)
    ensures var r := GuardedIf(c, missing, guard);
            && r.outcome == (if missing then "review" else c.outcome)
            && c.trace <= r.trace && SameInputs(c, r) && (FailsClosed(c) ==> FailsClosed(r))
  {
  }

  lemma GuardsForceReviewExactly(c: Context, failOpen: bool)
    ensures var r := VariableGuard(FetchGuard(c), failOpen);
            && r.outcome == (if InputsMissing(c, failOpen) then "review" else c.outcome)
            && c.trace <= r.trace && (FailsClosed(c) ==> FailsClosed(r))
  {
    hide FailsClosed;
    hide GuardedIf;
    GuardIsExact(c, FailedSources(c) != {}, "source_fetch_guard");
    var f := FetchGuard(c);
    GuardIsExact(f, f.variableErrors != map[] && !failOpen, "variable_error_guard");
  }

  /** The decision an input failure gets is review and nothing else; otherwise it is the run's own. */
  lemma DecidedOutcomeIsExact(env: Env, policy: string, steps: seq<Step>, start: nat, c: Context, failOpen: bool)
    requires Decide(env, policy, steps, start, c, failOpen).Decided?
    ensures Decide(env, policy, steps, start, c, failOpen).ctx.outcome ==
            if InputsMissing(c, failOpen) then "review" else RunPolicy(env, policy, steps, start, c).state.ctx.outcome
  {
    var from := if start < |steps| then start else |steps|;
    RunFromIsSafe(env, steps, from, 0, Start(policy, c));
    var ended := Settled(RunPolicy(env, policy, steps, start, c).state.ctx);
    GuardsForceReviewExactly(ended, failOpen);
    assert FailedSources(ended) == FailedSources(c);
  }

  /** Failing closed, end to end: if any gate step on the decision's trace threw, the decision is a
      review or a reject. A decision never weakens what it started from without a missing input. */
  lemma DecisionFailsClosed(env: Env, policy: string, steps: seq<Step>, start: nat, c: Context, failOpen: bool)
    requires FailsClosed(c)
    requires Decide(env, policy, steps, start, c, failOpen).Decided?
    ensures var d := Decide(env, policy, steps, start, c, failOpen).ctx;
            && ((exists e :: e in d.trace && GateRaised(e))
                ==> LoggedOutcome(d) == "review" || LoggedOutcome(d) == "reject")
            && (!InputsMissing(c, failOpen) ==> Rank(c.outcome) <= Rank(d.outcome))
            && c.trace <= d.trace
  {
    var from := if start < |steps| then start else |steps|;
    RunFromIsSafe(env, steps, from, 0, Start(policy, c));
    assert FailsClosed(c.(status := Running));
    var ended := Settled(RunPolicy(env, policy, steps, start, c).state.ctx);
    assert FailsClosed(ended);
    GuardsForceReviewExactly(ended, failOpen);
    DecidedOutcomeIsExact(env, policy, steps, start, c, failOpen);
    EscalatedMeansReviewOrReject(Decide(env, policy, steps, start, c, failOpen).ctx.outcome);
  }

  /** An approval therefore vouches for every gate and every input behind it. */
  lemma ApprovalHasNoFailureBehindIt(env: Env, policy: string, steps: seq<Step>, start: nat, c: Context, failOpen: bool)
    requires FailsClosed(c)
    requires Decide(env, policy, steps, start, c, failOpen).Decided?
    requires LoggedOutcome(Decide(env, policy, steps, start, c, failOpen).ctx) == "approve"
    ensures !InputsMissing(c, failOpen)
    ensures forall e :: e in Decide(env, policy, steps, start, c, failOpen).ctx.trace ==> !GateRaised(e)
  {
    DecisionFailsClosed(env, policy, steps, start, c, failOpen);
    DecidedOutcomeIsExact(env, policy, steps, start, c, failOpen);
  }

  /** Which thrown steps escalate, exactly: gates do; a loop, branch, action or transform that throws
      leaves the outcome as it was, even when gates sat inside it and never ran. */
  lemma ThrownStepEscalatesIff(step: Step, s: State, message: string)
    requires s.ctx.outcome != ""
    ensures var r := Finish(step, Threw(s, message)).0.ctx;
            && (Rank(r.outcome) >= REVIEW_RANK <==> IsGate(step) || Rank(s.ctx.outcome) >= REVIEW_RANK)
            && (!IsGate(step) ==> r.outcome == s.ctx.outcome)
            && Last(r.trace) == Ran(step, NoResult, Some(message))
  {
    MergeTakesHigherRank(s.ctx.outcome, Some("review"));
    EscalatedMeansReviewOrReject("review");
  }

  /** No sub-workflow is entered twice in one run, the running policy is never re-entered, and so a
      run enters at most one sub-workflow per stored policy, however cyclic the store. */
  lemma SubWorkflowsAreEnteredOnce(env: Env, policy: string, steps: seq<Step>, start: nat, c: Context)
    ensures var entered := RunPolicy(env, policy, steps, start, c).state.entered;
            Distinct(entered) && policy !in entered && |entered| <= |env.store|
  {
    var from := if start < |steps| then start else |steps|;
    var s := Start(policy, c);
    assert EnteredOnce(env, s);
    RunFromIsSafe(env, steps, from, 0, s);
    var r := RunFrom(env, steps, from, 0, s).state;
    assert policy in s.visited && policy !in s.entered;
    DistinctFits(r.entered, env.store.Keys);
  }

  lemma {:induction false} DistinctFits<T>(s: seq<T>, bound: set<T>)
    requires Distinct(s) && forall x :: x in s ==> x in bound
    ensures |s| <= |bound|
  {
    if s != [] {
      var last := |s| - 1;
      forall x | x in s[..last] ensures x in bound - {s[last]} {
      }
      DistinctFits(s[..last], bound - {s[last]});
    }
  }

  /** Re-entry, cyclic or not, is an error the parent escalates: a sub-workflow inside a loop
      runs in the first iteration only. */
  lemma RepeatedSubWorkflowForcesReview(env: Env, step: Step, depth: nat, s: State)
    requires step.Workflow? && ResolveRef(env, step).Ok? && ResolveRef(env, step).value in s.visited
    ensures StepBody(env, step, depth, s).Threw?
    ensures Rank(Finish(step, StepBody(env, step, depth, s)).0.ctx.outcome) >= REVIEW_RANK
  {
    MergeTakesHigherRank(s.ctx.outcome, Some("review"));
    EscalatedMeansReviewOrReject("review");
  }
}
