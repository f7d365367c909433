/** `_collect_connector_sources`: the static walk that decides which sources are fetched before a run,
    and why a run cannot reach a connector step the walk did not report. */
module ConnectorReach {
  import opened Common
  import opened JsonValue
  import opened OutcomeLattice
  import opened PolicyModel
  import opened Interpreter
  import opened RunSafety
  import opened Decisions

  datatype Found = Found(sources: set<string>, seen: set<string>)

  /** Where a walk goes from a sub-workflow step: the source reads the raw id, a run asks the alias
      registry first. The second walk is not in the source; it is what the first is measured by. */
  datatype Guide = RawIds | Registry(env: Env)

  function Target(guide: Guide, step: Step): string
    requires step.Workflow?
  {
    match guide
    case RawIds => step.ref
    case Registry(env) => if ResolveRef(env, step).Ok? then ResolveRef(env, step).value else ""
  }

  // ---------------------------------------------------------------- the walk

  function CollectFrom(guide: Guide, store: map<string, seq<Step>>, steps: seq<Step>, i: nat, acc: Found): (r: Found)
    requires i <= |steps|
    ensures acc.sources <= r.sources && acc.seen <= r.seen
    decreases store.Keys - acc.seen, steps, 0, |steps| - i
  {
    if i == |steps| then acc else CollectFrom(guide, store, steps, i + 1, CollectStep(guide, store, steps[i], acc))
  }

  function CollectStep(guide: Guide, store: map<string, seq<Step>>, step: Step, acc: Found): (r: Found)
    ensures acc.sources <= r.sources && acc.seen <= r.seen
    decreases store.Keys - acc.seen, step, 1, 0
  {
    match step
    case Leaf(_, _, _, kind, ref, _) => if kind.Connector? then acc.(sources := acc.sources + {ref}) else acc
    case SetOutcome(_, _, _, _, _, _) => acc
    case Loop(_, _, _, _, _, _, _, _, body) => CollectFrom(guide, store, body, 0, acc)
    case Branch(_, _, _, arms, otherwise) => CollectFrom(guide, store, otherwise, 0,
        CollectArms(guide, store, step, 0, acc))
    case Workflow(_, _, _, _, _) =>
      var ref := Target(guide, step);
      if ref == "" || ref in acc.seen then acc
      else
        var marked := acc.(seen := acc.seen + {ref});
        if ref in store then
          assert ref in store.Keys - acc.seen && ref !in store.Keys - marked.seen;
          CollectFrom(guide, store, store[ref], 0, marked)
        else marked
  }

  function CollectArms(guide: Guide, store: map<string, seq<Step>>, step: Step, k: nat, acc: Found): (r: Found)
    requires step.Branch? && k <= |step.arms|
    ensures acc.sources <= r.sources && acc.seen <= r.seen
    decreases store.Keys - acc.seen, step, 0, |step.arms| - k
  {
    if k == |step.arms| then acc
    else
      assert step.arms[k] < step;
      CollectArms(guide, store, step, k + 1, CollectFrom(guide, store, step.arms[k].steps, 0, acc))
  }

  /** The walk as the source runs it: one shared pair of sets filled in place. */
  class SourceCollector {
    const store: map<string, seq<Step>>
    var sources: set<string>
    var seen: set<string>

    constructor (store: map<string, seq<Step>>)
      ensures this.store == store && sources == {} && seen == {}
    {
      this.store := store;
      sources, seen := {}, {};
    }

    function Filled(): Found
      reads this
    {
      Found(sources, seen)
    }

    method Collect(steps: seq<Step>)
      modifies this
      ensures Filled() == CollectFrom(RawIds, store, steps, 0, old(Filled()))
      decreases store.Keys - seen, steps, 1, 0
    {
      for i := 0 to |steps|
        invariant seen >= old(seen)
        invariant CollectFrom(RawIds, store, steps, i, Filled()) == CollectFrom(RawIds, store, steps, 0, old(Filled()))
      {
        var step := steps[i];
        match step {
          case Leaf(_, _, _, kind, ref, _) =>
            if kind.Connector? { sources := sources + {ref}; }
          case SetOutcome(_, _, _, _, _, _) =>
          case Loop(_, _, _, _, _, _, _, _, body) =>
            Collect(body);
          case Branch(_, _, _, arms, otherwise) =>
            CollectBranch(step);
          case Workflow(_, _, _, ref, _) =>
            if ref != "" && ref !in seen {
              ghost var before := store.Keys - seen;
              seen := seen + {ref};
              if ref in store {
                assert ref in before && ref !in store.Keys - seen;
                Collect(store[ref]);
              }
            }
        }
      }
    }

    method CollectBranch(step: Step)
      requires step.Branch?
      modifies this
      ensures Filled() == CollectStep(RawIds, store, step, old(Filled()))
      decreases store.Keys - seen, step, 0, 0
    {
      for k := 0 to |step.arms|
        invariant seen >= old(seen)
        invariant CollectArms(RawIds, store, step, k, Filled()) == CollectArms(RawIds, store, step, 0, old(Filled()))
      {
        assert step.arms[k] < step;
        Collect(step.arms[k].steps);
      }
      Collect(step.otherwise);
    }
  }

  // ---------------------------------------------------------------- what the walk covers

  /** Every connector under these steps is in `f.sources`, every stored sub-workflow they name in `f.seen`. */
  ghost predicate Covered(env: Env, steps: seq<Step>, f: Found)
    decreases steps
  {
    forall k :: 0 <= k < |steps| ==> CoveredStep(env, steps[k], f)
  }

  ghost predicate CoveredStep(env: Env, step: Step, f: Found)
    decreases step
  {
    match step
    case Leaf(_, _, _, kind, ref, _) => kind.Connector? ==> ref in f.sources
    case SetOutcome(_, _, _, _, _, _) => true
    case Loop(_, _, _, _, _, _, _, _, body) => Covered(env, body, f)
    case Branch(_, _, _, arms, otherwise) =>
      && (forall k :: 0 <= k < |arms| ==> assert arms[k] < step; Covered(env, arms[k].steps, f))
      && Covered(env, otherwise, f)
    case Workflow(_, _, _, _, _) =>
      var target := ResolveRef(env, step);
      target.Ok? && target.value in env.store ==> target.value in f.seen
  }

  /** No alias diverts a sub-workflow step away from the id this walk follows. */
  ghost predicate Direct(env: Env, guide: Guide, steps: seq<Step>)
    decreases steps
  {
    forall k :: 0 <= k < |steps| ==> DirectStep(env, guide, steps[k])
  }

  ghost predicate DirectStep(env: Env, guide: Guide, step: Step)
    decreases step
  {
    match step
    case Loop(_, _, _, _, _, _, _, _, body) => Direct(env, guide, body)
    case Branch(_, _, _, arms, otherwise) =>
      && (forall k :: 0 <= k < |arms| ==> assert arms[k] < step; Direct(env, guide, arms[k].steps))
      && Direct(env, guide, otherwise)
    case Workflow(_, _, _, _, _) => ResolveRef(env, step).Ok?
        ==> ResolveRef(env, step).value == Target(guide, step) != ""
    case _ => true
  }

  ghost predicate DirectStore(env: Env, guide: Guide) {
    forall ref :: ref in env.store ==> Direct(env, guide, env.store[ref])
  }

  ghost predicate Includes(f: Found, g: Found) {
    f.sources <= g.sources && f.seen <= g.seen
  }

  lemma {:induction false} CoveredGrows(env: Env, steps: seq<Step>, f: Found, g: Found)
    requires Covered(env, steps, f) && Includes(f, g)
    ensures Covered(env, steps, g)
    decreases steps
  {
    forall k | 0 <= k < |steps| ensures CoveredStep(env, steps[k], g) {
      CoveredStepGrows(env, steps[k], f, g);
    }
  }

  lemma {:induction false} CoveredStepGrows(env: Env, step: Step, f: Found, g: Found)
    requires CoveredStep(env, step, f) && Includes(f, g)
    ensures CoveredStep(env, step, g)
    decreases step
  {
    match step
    case Loop(_, _, _, _, _, _, _, _, body) => CoveredGrows(env, body, f, g);
    case Branch(_, _, _, arms, otherwise) =>
      forall k | 0 <= k < |arms| ensures Covered(env, arms[k].steps, g) {
        assert arms[k] < step;
        CoveredGrows(env, arms[k].steps, f, g);
      }
      CoveredGrows(env, otherwise, f, g);
    case _ =>
  }

  /** Everything the walk has seen beyond `base` is covered by what it has found. */
  ghost predicate Explored(env: Env, base: Found, f: Found) {
    forall ref :: ref in f.seen && ref !in base.seen && ref in env.store ==> Covered(env, env.store[ref], f)
  }

  lemma ExploredComposes(env: Env, a: Found, b: Found, c: Found)
    requires Includes(a, b) && Includes(b, c) && Explored(env, a, b) && Explored(env, b, c)
    ensures Explored(env, a, c)
  {
    forall ref | ref in c.seen && ref !in a.seen && ref in env.store ensures Covered(env, env.store[ref], c) {
      if ref in b.seen { CoveredGrows(env, env.store[ref], b, c); }
    }
  }

  lemma {:induction false} CollectCovers(env: Env, guide: Guide, steps: seq<Step>, i: nat, acc: Found)
    requires i <= |steps| && Direct(env, guide, steps) && DirectStore(env, guide)
    ensures var r := CollectFrom(guide, env.store, steps, i, acc);
            Explored(env, acc, r) && forall k :: i <= k < |steps| ==> CoveredStep(env, steps[k], r)
    decreases env.store.Keys - acc.seen, steps, 0, |steps| - i
  {
    if i < |steps| {
      var mid := CollectStep(guide, env.store, steps[i], acc);
      CollectStepCovers(env, guide, steps[i], acc);
      CollectCovers(env, guide, steps, i + 1, mid);
      var r := CollectFrom(guide, env.store, steps, i + 1, mid);
      CoveredStepGrows(env, steps[i], mid, r);
      ExploredComposes(env, acc, mid, r);
    }
  }

  lemma {:induction false} CollectStepCovers(env: Env, guide: Guide, step: Step, acc: Found)
    requires DirectStep(env, guide, step) && DirectStore(env, guide)
    ensures var r := CollectStep(guide, env.store, step, acc); CoveredStep(env, step, r) && Explored(env, acc, r)
    decreases env.store.Keys - acc.seen, step, 1, 0
  {
    match step
    case Loop(_, _, _, _, _, _, _, _, body) => CollectCovers(env, guide, body, 0, acc);
    case Branch(_, _, _, arms, otherwise) =>
      var mid := CollectArms(guide, env.store, step, 0, acc);
      CollectArmsCovers(env, guide, step, 0, acc);
      CollectCovers(env, guide, otherwise, 0, mid);
      var r := CollectFrom(guide, env.store, otherwise, 0, mid);
      forall k | 0 <= k < |arms| ensures Covered(env, arms[k].steps, r) {
        CoveredGrows(env, arms[k].steps, mid, r);
      }
      ExploredComposes(env, acc, mid, r);
    case Workflow(_, _, _, _, _) =>
      var ref := Target(guide, step);
      if ref != "" && ref !in acc.seen && ref in env.store {
        var marked := acc.(seen := acc.seen + {ref});
        assert ref in env.store.Keys - acc.seen && ref !in env.store.Keys - marked.seen;
        CollectCovers(env, guide, env.store[ref], 0, marked);
      }
    case _ =>
  }

  lemma {:induction false} CollectArmsCovers(env: Env, guide: Guide, step: Step, k: nat, acc: Found)
    requires step.Branch? && k <= |step.arms| && DirectStep(env, guide, step) && DirectStore(env, guide)
    ensures var r := CollectArms(guide, env.store, step, k, acc);
            Explored(env, acc, r) && forall j :: k <= j < |step.arms| ==> Covered(env, step.arms[j].steps, r)
    decreases env.store.Keys - acc.seen, step, 0, |step.arms| - k
  {
    if k < |step.arms| {
      assert step.arms[k] < step;
      var mid := CollectFrom(guide, env.store, step.arms[k].steps, 0, acc);
      CollectCovers(env, guide, step.arms[k].steps, 0, acc);
      CollectArmsCovers(env, guide, step, k + 1, mid);
      var r := CollectArms(guide, env.store, step, k + 1, mid);
      CoveredGrows(env, step.arms[k].steps, mid, r);
      ExploredComposes(env, acc, mid, r);
    }
  }

  // ---------------------------------------------------------------- what a run reaches

  ghost predicate Closed(env: Env, f: Found) {
    forall ref :: ref in f.seen && ref in env.store ==> Covered(env, env.store[ref], f)
  }

  lemma {:induction false} RunStaysCovered(env: Env, steps: seq<Step>, i: nat, depth: nat, s: State, f: Found)
    requires i <= |steps| && Covered(env, steps, f) && Closed(env, f) && s.reached <= f.sources
    ensures RunFrom(env, steps, i, depth, s).state.reached <= f.sources
    decreases Unvisited(env, s), steps, 0, |steps| - i
  {
    if i < |steps| {
      var s0 := if depth == 0 then s.(ctx := s.ctx.(currentStep := i)) else s;
      if !StopsBefore(env, i, depth) {
        match Ask(env, steps[i].when, ViewOf(s0.ctx))
        case Breaks =>
        case Fails => RunStaysCovered(env, steps, i + 1, depth, Traced(s0, Skipped(steps[i])), f);
        case Holds =>
          StepStaysCovered(env, steps[i], depth, s0, f);
          var (s1, stop) := Finish(steps[i], StepBody(env, steps[i], depth, s0));
          if !stop { RunStaysCovered(env, steps, i + 1, depth, s1, f); }
      }
    }
  }

  lemma {:induction false} StepStaysCovered(env: Env, step: Step, depth: nat, s: State, f: Found)
    requires CoveredStep(env, step, f) && Closed(env, f) && s.reached <= f.sources
    ensures StepBody(env, step, depth, s).state.reached <= f.sources
    decreases Unvisited(env, s), step, 2, 0
  {
    match step
    case Leaf(_, _, _, _, _, _) =>
    case SetOutcome(_, _, _, _, _, _) =>
    case Loop(_, _, _, _, _, _, _, _, _) => LoopStaysCovered(env, step, depth, s, f);
    case Branch(_, _, _, arms, otherwise) =>
      var pick := PickArm(env, arms, 0, ViewOf(s.ctx));
      if pick.Ok? {
        if pick.value < |arms| {
          assert arms[pick.value] < step;
          RunStaysCovered(env, arms[pick.value].steps, 0, depth + 1, s, f);
        } else if otherwise != [] {
          RunStaysCovered(env, otherwise, 0, depth + 1, s, f);
        }
      }
    case Workflow(_, _, _, _, _) =>
      var target := ResolveRef(env, step);
      if depth < MAX_WORKFLOW_DEPTH && target.Ok? && !Refused(env, target.value, s) && target.value in env.store {
        assert target.value in Unvisited(env, s) && target.value !in Unvisited(env, Entered(target.value, s));
        RunStaysCovered(env, env.store[target.value], 0, depth + 1, Entered(target.value, s), f);
      }
  }

  lemma {:induction false} LoopStaysCovered(env: Env, step: Step, depth: nat, s: State, f: Found)
    requires step.Loop? && Covered(env, step.body, f) && Closed(env, f) && s.reached <= f.sources
    ensures LoopBody(env, step, depth, s).state.reached <= f.sources
    decreases Unvisited(env, s), step, 1, 0
  {
    if depth < MAX_WORKFLOW_DEPTH {
      var items := LoopSlice(env, step, s);
      if step.parallel && items != [] {
        var order := Schedule(env, |items|, s.tick);
        ChildrenStayCovered(env, step, items, order, 0, depth, s, map[], None, f);
        assert ParallelBody(env, step, depth, s).state.reached
            == RunChildren(env, step, items, order, 0, depth, s, map[], None).state.reached;
      } else {
        IterationsStayCovered(env, step, items, 0, depth, s.ctx.loopScope, s, f);
      }
    }
  }

  lemma {:induction false} IterationsStayCovered(env: Env, step: Step, items: seq<Json>, j: nat, depth: nat,
                                                 scope: map<string, Json>, s: State, f: Found)
    requires step.Loop? && j <= |items| && Covered(env, step.body, f) && Closed(env, f) && s.reached <= f.sources
    ensures RunIterations(env, step, items, j, depth, scope, s).state.reached <= f.sources
    decreases Unvisited(env, s), step, 0, |items| - j
  {
    if j < |items| {
      var s0 := s.(ctx := s.ctx.(loopScope := Bound(step, scope, items[j], j)));
      RunStaysCovered(env, step.body, 0, depth + 1, s0, f);
      var run := RunFrom(env, step.body, 0, depth + 1, s0);
      if run.raised.None? && !run.state.ctx.status.Paused? && !run.state.ctx.status.Failed? {
        IterationsStayCovered(env, step, items, j + 1, depth, scope, run.state, f);
      }
    }
  }

  lemma {:induction false} ChildrenStayCovered(env: Env, step: Step, items: seq<Json>, order: seq<nat>, k: nat,
                                               depth: nat, s: State, children: map<nat, Context>,
                                               raised: Option<string>, f: Found)
    requires step.Loop? && k <= |order| && forall i :: 0 <= i < |order| ==> order[i] < |items|
    requires raised.None? || raised == Some(CONDITION_ERROR)
    requires Covered(env, step.body, f) && Closed(env, f) && s.reached <= f.sources
    ensures RunChildren(env, step, items, order, k, depth, s, children, raised).state.reached <= f.sources
    decreases Unvisited(env, s), step, 0, |order| - k
  {
    if k < |order| {
      var t := ChildState(step, items, order[k], s);
      RunStaysCovered(env, step.body, 0, depth + 1, t, f);
      var run := RunFrom(env, step.body, 0, depth + 1, t);
      ChildrenStayCovered(env, step, items, order, k + 1, depth, AfterChild(s, run),
          children[order[k] := run.state.ctx],
                          if raised.Some? then raised else run.raised, f);
    }
  }

  /** What the source fetches before a run. */
  function Collected(env: Env, steps: seq<Step>): Found {
    CollectFrom(RawIds, env.store, steps, 0, Found({}, {}))
  }

  /** What the walk would find if it asked the alias registry. */
  function Resolved(env: Env, steps: seq<Step>): Found {
    CollectFrom(Registry(env), env.store, steps, 0, Found({}, {}))
  }

  lemma {:induction false} RegistryIsDirect(env: Env, steps: seq<Step>)
    ensures Direct(env, Registry(env), steps)
    decreases steps
  {
    forall k | 0 <= k < |steps| ensures DirectStep(env, Registry(env), steps[k]) {
      RegistryIsDirectStep(env, steps[k]);
    }
  }

  lemma {:induction false} RegistryIsDirectStep(env: Env, step: Step)
    ensures DirectStep(env, Registry(env), step)
    decreases step
  {
    match step
    case Loop(_, _, _, _, _, _, _, _, body) => RegistryIsDirect(env, body);
    case Branch(_, _, _, arms, otherwise) =>
      forall k | 0 <= k < |arms| ensures Direct(env, Registry(env), arms[k].steps) {
        assert arms[k] < step;
        RegistryIsDirect(env, arms[k].steps);
      }
      RegistryIsDirect(env, otherwise);
    case _ =>
  }

  /** Whatever the aliases, conditions, answers, collections, races and completion orders turn out to
      be, a connector step a run executes is found by the walk that asks the registry. */
  lemma RunReachesOnlyResolvedSources(env: Env, policy: string, steps: seq<Step>, start: nat, c: Context)
    ensures RunPolicy(env, policy, steps, start, c).state.reached <= Resolved(env, steps).sources
  {
    RegistryIsDirect(env, steps);
    forall ref | ref in env.store ensures Direct(env, Registry(env), env.store[ref]) {
      RegistryIsDirect(env, env.store[ref]);
    }
    CollectCovers(env, Registry(env), steps, 0, Found({}, {}));
    var from := if start < |steps| then start else |steps|;
    RunStaysCovered(env, steps, from, 0, Start(policy, c), Resolved(env, steps));
  }

  /** The source's own walk over-approximates every run as soon as what it found is closed under the
      registry: each stored policy that a step of a walked list resolves to was walked as well. */
  lemma RunReachesOnlyCollectedSources(env: Env, policy: string, steps: seq<Step>, start: nat, c: Context)
    requires Covered(env, steps, Collected(env, steps)) && Closed(env, Collected(env, steps))
    ensures RunPolicy(env, policy, steps, start, c).state.reached <= Collected(env, steps).sources
  {
    var from := if start < |steps| then start else |steps|;
    RunStaysCovered(env, steps, from, 0, Start(policy, c), Collected(env, steps));
  }

  /** Without diverting aliases the walk's result is always closed. */
  lemma DirectStoresAreCollected(env: Env, steps: seq<Step>)
    requires Direct(env, RawIds, steps) && DirectStore(env, RawIds)
    ensures Covered(env, steps, Collected(env, steps)) && Closed(env, Collected(env, steps))
  {
    CollectCovers(env, RawIds, steps, 0, Found({}, {}));
  }

  // ---------------------------------------------------------------- and not more than that

  /** Some connector step nested in these steps (not through sub-workflows) names `source`. */
  ghost predicate Mentions(steps: seq<Step>, source: string)
    decreases steps
  {
    exists k :: 0 <= k < |steps| && MentionsStep(steps[k], source)
  }

  ghost predicate MentionsStep(step: Step, source: string)
    decreases step
  {
    match step
    case Leaf(_, _, _, kind, ref, _) => kind.Connector? && ref == source
    case Loop(_, _, _, _, _, _, _, _, body) => Mentions(body, source)
    case Branch(_, _, _, arms, otherwise) =>
      || (exists k :: 0 <= k < |arms| && (assert arms[k] < step; Mentions(arms[k].steps, source)))
      || Mentions(otherwise, source)
    case _ => false
  }

  ghost predicate MentionedIn(store: map<string, seq<Step>>, source: string) {
    exists ref :: ref in store && Mentions(store[ref], source)
  }

  /** The walk reports nothing that no connector step names. */
  lemma {:induction false} CollectedIsMentioned(guide: Guide, store: map<string, seq<Step>>, steps: seq<Step>, i: nat,
                                                acc: Found, source: string)
    requires i <= |steps| && source in CollectFrom(guide, store, steps, i, acc).sources
    ensures source in acc.sources || Mentions(steps, source) || MentionedIn(store, source)
    decreases store.Keys - acc.seen, steps, 0, |steps| - i
  {
    if i < |steps| {
      var mid := CollectStep(guide, store, steps[i], acc);
      CollectedIsMentioned(guide, store, steps, i + 1, mid, source);
      if source in mid.sources { CollectedStepIsMentioned(guide, store, steps[i], acc, source); }
    }
  }

  lemma {:induction false} CollectedStepIsMentioned(guide: Guide, store: map<string, seq<Step>>, step: Step,
                                                    acc: Found, source: string)
    requires source in CollectStep(guide, store, step, acc).sources
    ensures source in acc.sources || MentionsStep(step, source) || MentionedIn(store, source)
    decreases store.Keys - acc.seen, step, 1, 0
  {
    match step
    case Loop(_, _, _, _, _, _, _, _, body) => CollectedIsMentioned(guide, store, body, 0, acc, source);
    case Branch(_, _, _, arms, otherwise) =>
      var mid := CollectArms(guide, store, step, 0, acc);
      CollectedIsMentioned(guide, store, otherwise, 0, mid, source);
      if source in mid.sources { CollectedArmIsMentioned(guide, store, step, 0, acc, source); }
    case Workflow(_, _, _, _, _) =>
      var ref := Target(guide, step);
      if ref != "" && ref !in acc.seen && ref in store {
        var marked := acc.(seen := acc.seen + {ref});
        assert ref in store.Keys - acc.seen && ref !in store.Keys - marked.seen;
        CollectedIsMentioned(guide, store, store[ref], 0, marked, source);
      }
    case _ =>
  }

  lemma {:induction false} CollectedArmIsMentioned(guide: Guide, store: map<string, seq<Step>>, step: Step, k: nat,
                                                   acc: Found, source: string)
    requires step.Branch? && k <= |step.arms| && source in CollectArms(guide, store, step, k, acc).sources
    ensures source in acc.sources || MentionsStep(step, source) || MentionedIn(store, source)
    decreases store.Keys - acc.seen, step, 0, |step.arms| - k
  {
    if k < |step.arms| {
      assert step.arms[k] < step;
      var mid := CollectFrom(guide, store, step.arms[k].steps, 0, acc);
      CollectedArmIsMentioned(guide, store, step, k + 1, mid, source);
      if source in mid.sources { CollectedIsMentioned(guide, store, step.arms[k].steps, 0, acc, source); }
    }
  }

  // ---------------------------------------------------------------- how sharp that is

  /** A walk that asks the registry stays inside every closed set. */
  lemma {:induction false} WalkStaysWithin(env: Env, steps: seq<Step>, i: nat, acc: Found, f: Found)
    requires i <= |steps| && Covered(env, steps, f) && Closed(env, f) && acc.sources <= f.sources
    ensures CollectFrom(Registry(env), env.store, steps, i, acc).sources <= f.sources
    decreases env.store.Keys - acc.seen, steps, 0, |steps| - i
  {
    if i < |steps| {
      WalkStepStaysWithin(env, steps[i], acc, f);
      WalkStaysWithin(env, steps, i + 1, CollectStep(Registry(env), env.store, steps[i], acc), f);
    }
  }

  lemma {:induction false} WalkStepStaysWithin(env: Env, step: Step, acc: Found, f: Found)
    requires CoveredStep(env, step, f) && Closed(env, f) && acc.sources <= f.sources
    ensures CollectStep(Registry(env), env.store, step, acc).sources <= f.sources
    decreases env.store.Keys - acc.seen, step, 1, 0
  {
    match step
    case Loop(_, _, _, _, _, _, _, _, body) => WalkStaysWithin(env, body, 0, acc, f);
    case Branch(_, _, _, arms, otherwise) =>
      WalkArmsStayWithin(env, step, 0, acc, f);
      WalkStaysWithin(env, otherwise, 0, CollectArms(Registry(env), env.store, step, 0, acc), f);
    case Workflow(_, _, _, _, _) =>
      var ref := Target(Registry(env), step);
      if ref != "" && ref !in acc.seen && ref in env.store {
        var marked := acc.(seen := acc.seen + {ref});
        assert ref in env.store.Keys - acc.seen && ref !in env.store.Keys - marked.seen;
        WalkStaysWithin(env, env.store[ref], 0, marked, f);
      }
    case _ =>
  }

  lemma {:induction false} WalkArmsStayWithin(env: Env, step: Step, k: nat, acc: Found, f: Found)
    requires step.Branch? && k <= |step.arms| && CoveredStep(env, step, f) && Closed(env, f)
    requires acc.sources <= f.sources
    ensures CollectArms(Registry(env), env.store, step, k, acc).sources <= f.sources
    decreases env.store.Keys - acc.seen, step, 0, |step.arms| - k
  {
    if k < |step.arms| {
      assert step.arms[k] < step;
      WalkStaysWithin(env, step.arms[k].steps, 0, acc, f);
      var mid := CollectFrom(Registry(env), env.store, step.arms[k].steps, 0, acc);
      WalkArmsStayWithin(env, step, k + 1, mid, f);
    }
  }

  /** Lists without loops and branches in which no refused sub-workflow aborts the run. */
  ghost predicate Flat(steps: seq<Step>) {
    forall k :: 0 <= k < |steps| ==>
      steps[k].Leaf? || steps[k].SetOutcome? || (steps[k].Workflow? && !steps[k].abort)
  }

  ghost predicate FlatStore(env: Env) {
    forall ref :: ref in env.store ==> Flat(env.store[ref])
  }

  /** An environment that lets a run go everywhere: conditions hold, answers come, nothing pauses. */
  ghost predicate Open(env: Env) {
    && env.debugStop.None?
    && (forall text, view :: env.condition(text, view).Holds?)
    && (forall step, view, tick :: env.answer(step, view, tick).raised.None? && !env.answer(step, view, tick).paused)
    && (forall ref, tick :: !env.raced(ref, tick))
  }

  /** What a run has fetched and entered so far, seen as the result of a walk. */
  function Footprint(s: State): Found {
    Found(s.reached, s.visited)
  }

  lemma EnteringCounts(stored: set<string>, visited: set<string>, ref: string)
    requires ref in stored && ref !in visited
    ensures |stored * (visited + {ref})| == |stored * visited| + 1
  {
    assert stored * (visited + {ref}) == stored * visited + {ref};
  }

  lemma AllAreVisited(stored: set<string>, visited: set<string>)
    requires |stored| <= |stored * visited|
    ensures stored <= visited
  {
    var rest := stored - visited;
    assert stored == rest + stored * visited && rest !! stored * visited;
    assert |stored| == |rest| + |stored * visited|;
    assert rest == {};
  }

  /** `r` continues `s`, still running, and has been everywhere that `steps[i..]` lead. */
  ghost predicate RanAll(env: Env, steps: seq<Step>, i: nat, s: State, r: Run) {
    && r.raised.None? && r.state.ctx.status.Running?
    && Includes(Footprint(s), Footprint(r.state)) && Explored(env, Footprint(s), Footprint(r.state))
    && forall k :: i <= k < |steps| ==> CoveredStep(env, steps[k], Footprint(r.state))
  }

  lemma RanOneMore(env: Env, steps: seq<Step>, i: nat, s: State, s1: State, r: Run)
    requires i < |steps| && CoveredStep(env, steps[i], Footprint(s1)) && RanAll(env, steps, i + 1, s1, r)
    requires Includes(Footprint(s), Footprint(s1)) && Explored(env, Footprint(s), Footprint(s1))
    ensures RanAll(env, steps, i, s, r)
  {
    hide CoveredStep;
    CoveredStepGrows(env, steps[i], Footprint(s1), Footprint(r.state));
    ExploredComposes(env, Footprint(s), Footprint(s1), Footprint(r.state));
  }

  /** In an open environment a run over flat lists leaves nothing out: with at most as many stored
      policies as the nesting limit, every step runs and every named policy is entered. */
  lemma {:induction false} FlatRunCovers(env: Env, steps: seq<Step>, i: nat, depth: nat, s: State)
    requires i <= |steps| && Flat(steps) && FlatStore(env) && Open(env) && s.ctx.status.Running?
    requires |env.store.Keys| <= MAX_WORKFLOW_DEPTH && depth <= |env.store.Keys * s.visited|
    ensures RanAll(env, steps, i, s, RunFrom(env, steps, i, depth, s))
    decreases Unvisited(env, s), |steps| - i, 1
  {
    hide StepBody;
    hide Finish;
    hide FlatStore;
    if i == |steps| {
      NothingToExplore(env, Footprint(s));
    } else {
      hide Open;
      hide RanAll;
      var s0 := if depth == 0 then s.(ctx := s.ctx.(currentStep := i)) else s;
      assert Footprint(s0) == Footprint(s);
      HeldFlatStepCovers(env, steps, i, depth, s0);
      OpenRunGoesOn(env, steps, i, depth, s);
      SameFootprint(env, steps, i, s0, s, RunFrom(env, steps, i, depth, s));
    }
  }

  lemma SameFootprint(env: Env, steps: seq<Step>, i: nat, s0: State, s: State, r: Run)
    requires Footprint(s0) == Footprint(s) && RanAll(env, steps, i, s0, r)
    ensures RanAll(env, steps, i, s, r)
  {
  }

  /** The step at `i` runs, and after it the rest of the list. */
  lemma {:induction false} HeldFlatStepCovers(env: Env, steps: seq<Step>, i: nat, depth: nat, s: State)
    requires i < |steps| && Flat(steps) && FlatStore(env) && Open(env) && s.ctx.status.Running?
    requires |env.store.Keys| <= MAX_WORKFLOW_DEPTH && depth <= |env.store.Keys * s.visited|
    ensures var (s1, stop) := Finish(steps[i], StepBody(env, steps[i], depth, s));
            !stop && RanAll(env, steps, i, s, RunFrom(env, steps, i + 1, depth, s1))
    decreases Unvisited(env, s), |steps| - i, 0
  {
    hide RunFrom;
    hide StepBody;
    hide Finish;
    hide FlatStore;
    hide Open;
    hide RanAll;
    var (s1, stop) := Finish(steps[i], StepBody(env, steps[i], depth, s));
    FlatStepCovers(env, steps[i], depth, s);
    VisitedOnlyGrow(env.store.Keys, s.visited, s1.visited);
    FlatRunCovers(env, steps, i + 1, depth, s1);
    RanOneMore(env, steps, i, s, s1, RunFrom(env, steps, i + 1, depth, s1));
  }

  lemma OpenRunGoesOn(env: Env, steps: seq<Step>, i: nat, depth: nat, s: State)
    requires i < |steps| && Open(env)
    ensures var s0 := if depth == 0 then s.(ctx := s.ctx.(currentStep := i)) else s;
            var (s1, stop) := Finish(steps[i], StepBody(env, steps[i], depth, s0));
            !stop ==> RunFrom(env, steps, i, depth, s) == RunFrom(env, steps, i + 1, depth, s1)
  {
    hide StepBody;
    hide Finish;
    var s0 := if depth == 0 then s.(ctx := s.ctx.(currentStep := i)) else s;
    assert Ask(env, steps[i].when, ViewOf(s0.ctx)).Holds?;
  }

  lemma VisitedOnlyGrow(stored: set<string>, before: set<string>, after: set<string>)
    requires before <= after
    ensures |stored * before| <= |stored * after|
  {
    assert stored * after == stored * before + stored * (after - before);
  }

  lemma {:induction false} FlatStepCovers(env: Env, step: Step, depth: nat, s: State)
    requires step.Leaf? || step.SetOutcome? || (step.Workflow? && !step.abort)
    requires FlatStore(env) && Open(env) && s.ctx.status.Running?
    requires |env.store.Keys| <= MAX_WORKFLOW_DEPTH && depth <= |env.store.Keys * s.visited|
    ensures var (r, stop) := Finish(step, StepBody(env, step, depth, s));
            && !stop && r.ctx.status.Running? && Includes(Footprint(s), Footprint(r))
            && Explored(env, Footprint(s), Footprint(r)) && CoveredStep(env, step, Footprint(r))
    decreases Unvisited(env, s), 0, 1
  {
    if step.Workflow? {
      FlatWorkflowCovers(env, step, depth, s);
    } else {
      OpenLeafCovers(env, step, depth, s);
    }
  }

  lemma OpenLeafCovers(env: Env, step: Step, depth: nat, s: State)
    requires step.Leaf? || step.SetOutcome?
    requires Open(env) && s.ctx.status.Running?
    ensures var (r, stop) := Finish(step, StepBody(env, step, depth, s));
            && !stop && r.ctx.status.Running? && Includes(Footprint(s), Footprint(r))
            && Explored(env, Footprint(s), Footprint(r)) && CoveredStep(env, step, Footprint(r))
  {
    hide Covered;
    if step.Leaf? {
      assert StepBody(env, step, depth, s) == LeafBody(env, step, s);
      LeafKeepsRunning(env, step, s);
    } else {
      assert StepBody(env, step, depth, s) == OutcomeBody(step, s);
    }
  }

  lemma LeafKeepsRunning(env: Env, step: Step, s: State)
    requires step.Leaf? && Open(env) && s.ctx.status.Running?
    ensures var b := LeafBody(env, step, s);
            && b.Done? && b.state.ctx.status.Running? && b.state.visited == s.visited
            && b.state.reached == if step.kind.Connector? then s.reached + {step.ref} else s.reached
  {
    var a := env.answer(step, ViewOf(s.ctx), s.tick);
    assert a.raised.None? && !a.paused;
    AnswerKeepsStatus(step, a, s.ctx);
  }

  lemma AnswerKeepsStatus(step: Step, a: Answer, c: Context)
    requires step.Leaf? && !a.paused
    ensures ApplyLeaf(step, a, c).status == c.status
  {
    hide ApplyLeaf;
    if step.kind.Action? || step.kind.ReviewGate? || step.kind.Rule? || step.kind.DecisionTable? {
      VerdictKeepsStatus(step, a, c);
    } else if step.kind.Connector? {
      ConnectorTouches(step, a, c);
    } else if step.kind.Model? {
      ModelTouches(step, a, c);
    } else if step.kind.Other? {
      OtherTouches(step, a, c);
    } else {
      RecordKeepsStatus(step, a, c);
    }
  }

  lemma VerdictKeepsStatus(step: Step, a: Answer, c: Context)
    requires step.Leaf? && !a.paused
    requires step.kind.Action? || step.kind.ReviewGate? || step.kind.Rule? || step.kind.DecisionTable?
    ensures ApplyLeaf(step, a, c).status == c.status
  {
    hide Merge;
    hide Notes;
  }

  lemma RecordKeepsStatus(step: Step, a: Answer, c: Context)
    requires step.Leaf? && (step.kind.Scorecard? || step.kind.Transform? || step.kind.Monitor?)
    ensures ApplyLeaf(step, a, c).status == c.status
  {
  }

  lemma {:induction false} FlatWorkflowCovers(env: Env, step: Step, depth: nat, s: State)
    requires step.Workflow? && !step.abort
    requires FlatStore(env) && Open(env) && s.ctx.status.Running?
    requires |env.store.Keys| <= MAX_WORKFLOW_DEPTH && depth <= |env.store.Keys * s.visited|
    ensures var (r, stop) := Finish(step, StepBody(env, step, depth, s));
            && !stop && r.ctx.status.Running? && Includes(Footprint(s), Footprint(r))
            && Explored(env, Footprint(s), Footprint(r)) && CoveredStep(env, step, Footprint(r))
    decreases Unvisited(env, s), 0, 0
  {
    hide RunFrom;
    hide Covered;
    hide Finish;
    hide Open;
    var target := ResolveRef(env, step);
    assert StepBody(env, step, depth, s) == WorkflowBody(env, step, depth, s);
    hide StepBody;
    NothingToExplore(env, Footprint(s));
    if depth >= MAX_WORKFLOW_DEPTH {
      AllAreVisited(env.store.Keys, s.visited);
    } else if target.Ok? && target.value !in s.visited && target.value in env.store {
      var entered := Entered(target.value, s);
      assert !Refused(env, target.value, s) by { NeverRaced(env, target.value, s.tick); }
      assert target.value in Unvisited(env, s) && target.value !in Unvisited(env, entered);
      EnteringCounts(env.store.Keys, s.visited, target.value);
      FlatRunCovers(env, env.store[target.value], 0, depth + 1, entered);
      var r := RunFrom(env, env.store[target.value], 0, depth + 1, entered).state;
      EnteredIsExplored(env, target.value, s, r);
    }
    FinishKeepsFootprint(step, WorkflowBody(env, step, depth, s));
  }

  lemma NeverRaced(env: Env, ref: string, tick: nat)
    requires Open(env)
    ensures !env.raced(ref, tick)
  {
  }

  lemma FinishKeepsFootprint(step: Step, b: BodyRun)
    requires b.Threw? ==> !step.abort
    requires b.state.ctx.status.Running?
    ensures var (r, stop) := Finish(step, b);
            !stop && r.ctx.status.Running? && Footprint(r) == Footprint(b.state)
  {
  }

  lemma NothingToExplore(env: Env, f: Found)
    ensures Explored(env, f, f)
  {
  }

  lemma EnteredIsExplored(env: Env, ref: string, s: State, r: State)
    requires ref in env.store && Explored(env, Footprint(Entered(ref, s)), Footprint(r))
    requires forall k :: 0 <= k < |env.store[ref]| ==> CoveredStep(env, env.store[ref][k], Footprint(r))
    ensures Explored(env, Footprint(s), Footprint(r))
  {
  }

  lemma OpenRunCovers(env: Env, policy: string, steps: seq<Step>, c: Context)
    requires Flat(steps) && FlatStore(env) && Open(env) && |env.store.Keys| <= MAX_WORKFLOW_DEPTH
    requires policy in env.store ==> env.store[policy] == steps
    ensures var f := Footprint(RunPolicy(env, policy, steps, 0, c).state);
            Covered(env, steps, f) && Closed(env, f)
  {
    FlatRunCovers(env, steps, 0, 0, Start(policy, c));
  }

  /** Exactly when the walk suffices: on flat policies an open run stays within what the source
      collected if and only if following the aliases would have found nothing more. */
  lemma CollectedSourcesSufficeIff(env: Env, policy: string, steps: seq<Step>, c: Context)
    requires Flat(steps) && FlatStore(env) && Open(env) && |env.store.Keys| <= MAX_WORKFLOW_DEPTH
    requires policy in env.store ==> env.store[policy] == steps
    ensures RunPolicy(env, policy, steps, 0, c).state.reached == Resolved(env, steps).sources
    ensures RunPolicy(env, policy, steps, 0, c).state.reached <= Collected(env, steps).sources
        <==> Resolved(env, steps).sources <= Collected(env, steps).sources
  {
    OpenRunCovers(env, policy, steps, c);
    WalkStaysWithin(env, steps, 0, Found({}, {}), Footprint(RunPolicy(env, policy, steps, 0, c).state));
    RunReachesOnlyResolvedSources(env, policy, steps, 0, c);
  }

  /** The promise fails through an alias: the run follows the registry, the walk the raw id. Every
      connector of the policy an alias names is reached, so one the walk did not collect is missed. */
  lemma AliasedChildIsMissed(env: Env, policy: string, steps: seq<Step>, k: nat, j: nat, c: Context)
    requires Flat(steps) && FlatStore(env) && Open(env) && |env.store.Keys| <= MAX_WORKFLOW_DEPTH
    requires policy in env.store ==> env.store[policy] == steps
    requires k < |steps| && steps[k].Workflow? && ResolveRef(env, steps[k]).Ok?
    requires var child := ResolveRef(env, steps[k]).value;
             && child in env.store && j < |env.store[child]|
             && env.store[child][j].Leaf? && env.store[child][j].kind.Connector?
             && env.store[child][j].ref !in Collected(env, steps).sources
    ensures !(RunPolicy(env, policy, steps, 0, c).state.reached <= Collected(env, steps).sources)
  {
    OpenRunCovers(env, policy, steps, c);
    var child := ResolveRef(env, steps[k]).value;
    var f := Footprint(RunPolicy(env, policy, steps, 0, c).state);
    assert CoveredStep(env, steps[k], f);
    assert CoveredStep(env, env.store[child][j], f);
  }

  /** Such a store in the smallest: one aliased child with one connector, and an empty collection. */
  lemma OneAliasIsEnough(env: Env, aliasName: string, child: string, source: string)
    requires aliasName != "" && child != "" && child != "main"
    requires aliasName in env.aliases && env.aliases[aliasName] == child
    requires child in env.store && Leaf("s1", None, false, Connector, source, "") in env.store[child]
    ensures var steps := [Workflow("s0", None, false, "", aliasName)];
            source in Resolved(env, steps).sources && Collected(env, steps) == Found({}, {})
  {
    var steps := [Workflow("s0", None, false, "", aliasName)];
    RegistryIsDirect(env, steps);
    forall ref | ref in env.store ensures Direct(env, Registry(env), env.store[ref]) {
      RegistryIsDirect(env, env.store[ref]);
    }
    CollectCovers(env, Registry(env), steps, 0, Found({}, {}));
    var f := Resolved(env, steps);
    assert ResolveRef(env, steps[0]) == Ok(child);
    assert CoveredStep(env, steps[0], f);
    assert Covered(env, env.store[child], f);
    assert CollectStep(RawIds, env.store, steps[0], Found({}, {})) == Found({}, {});
    assert CollectFrom(RawIds, env.store, steps, 1, Found({}, {})) == Found({}, {});
  }
}
