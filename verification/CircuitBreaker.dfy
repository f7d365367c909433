/** The circuit breaker as a class, and what holds over every sequence of calls and late results. */
module CircuitBreaker {
  import opened Common

  datatype Mode = Closed | Open | HalfOpen

  /** Thresholds are at least one, the cooldown is positive. */
  datatype Config = Config(threshold: nat, recovery: real, probes: nat)

  predicate Sensible(c: Config) {
    c.threshold >= 1 && c.recovery > 0.0 && c.probes >= 1
  }

  datatype State = State(mode: Mode, failures: nat, openedAt: real, halfOpenCalls: nat)

  const INIT := State(Closed, 0, 0.0, 0)

  /** A call asking to pass, the result of some earlier call, or somebody reading the state; each at a time. */
  datatype Event = Allow(now: real) | Success(now: real) | Failure(now: real) | Read(now: real)

  /** `_observed_state`: an open breaker becomes half open once the cooldown has passed. */
  function Observed(c: Config, s: State, now: real): State {
    if s.mode.Open? && now - s.openedAt >= c.recovery then s.(mode := HalfOpen, halfOpenCalls := 0) else s
  }

  predicate Admits(c: Config, s: State, now: real) {
    var o := Observed(c, s, now);
    o.mode.Closed? || (o.mode.HalfOpen? && o.halfOpenCalls < c.probes)
  }

  function Next(c: Config, s: State, e: Event): State {
    match e
    case Read(now) => Observed(c, s, now)
    case Success(_) => State(Closed, 0, s.openedAt, 0)
    case Allow(now) =>
      var o := Observed(c, s, now);
      if o.mode.HalfOpen? && o.halfOpenCalls < c.probes then o.(halfOpenCalls := o.halfOpenCalls + 1) else o
    case Failure(now) =>
      var o := Observed(c, s, now);
      if o.mode.HalfOpen? then o.(mode := Open, openedAt := now)
      else if o.failures + 1 >= c.threshold then o.(mode := Open, openedAt := now, failures := o.failures + 1)
      else o.(failures := o.failures + 1)
  }

  /** A failure that opens the breaker, or keeps it open and restarts the cooldown. */
  predicate Trips(c: Config, s: State, e: Event) {
    e.Failure? && (Observed(c, s, e.now).mode.HalfOpen? || Observed(c, s, e.now).failures + 1 >= c.threshold)
  }

  class Breaker {
    const config: Config
    var mode: Mode
    var failures: nat
    var openedAt: real
    var halfOpenCalls: nat
    var trips: nat
    var shortCircuits: nat

    constructor (c: Config)
      ensures config == c && Snapshot() == INIT && trips == 0 && shortCircuits == 0
    {
      config := c;
      mode, failures, openedAt, halfOpenCalls, trips, shortCircuits := Closed, 0, 0.0, 0, 0, 0;
    }

    function Snapshot(): State
      reads this
    {
      State(mode, failures, openedAt, halfOpenCalls)
    }

    method ObservedState(now: real) returns (observed: Mode)
      modifies this`mode, this`halfOpenCalls
      ensures Snapshot() == Observed(config, old(Snapshot()), now) && observed == mode
    {
      if mode.Open? && now - openedAt >= config.recovery {
        mode := HalfOpen;
        halfOpenCalls := 0;
      }
      observed := mode;
    }

    /** `allow`: false where it raises, with the seconds to wait. */
    method Allow(now: real) returns (admitted: bool, retryAfter: real)
      modifies this
      ensures Snapshot() == Next(config, old(Snapshot()), Event.Allow(now))
      ensures admitted == Admits(config, old(Snapshot()), now)
      ensures shortCircuits == old(shortCircuits) + (if admitted then 0 else 1) && trips == old(trips)
      ensures !admitted && mode.Open? ==> retryAfter > 0.0 && retryAfter == config.recovery - (now - openedAt)
    {
      var state := ObservedState(now);
      retryAfter := 0.0;
      if state.Open? {
        shortCircuits := shortCircuits + 1;
        return false, config.recovery - (now - openedAt);
      }
      if state.HalfOpen? {
        if halfOpenCalls >= config.probes {
          shortCircuits := shortCircuits + 1;
          return false, config.recovery;
        }
        halfOpenCalls := halfOpenCalls + 1;
      }
      admitted := true;
    }

    method RecordSuccess(now: real)
      modifies this
      ensures Snapshot() == Next(config, old(Snapshot()), Success(now))
      ensures trips == old(trips) && shortCircuits == old(shortCircuits)
    {
      mode, failures, halfOpenCalls := Closed, 0, 0;
    }

    method RecordFailure(now: real)
      modifies this
      ensures Snapshot() == Next(config, old(Snapshot()), Failure(now))
      ensures trips == old(trips) + (if Trips(config, old(Snapshot()), Failure(now)) then 1 else 0)
      ensures shortCircuits == old(shortCircuits)
    {
      var state := ObservedState(now);
      if state.HalfOpen? {
        mode := Open;
        openedAt := now;
        trips := trips + 1;
        return;
      }
      failures := failures + 1;
      if failures >= config.threshold {
        mode := Open;
        openedAt := now;
        trips := trips + 1;
      }
    }
  }

  // ---------------------------------------------------------------- runs

  ghost predicate ClockRuns(start: real, es: seq<Event>) {
    (forall i :: 0 <= i < |es| ==> start <= es[i].now) && forall i, j :: 0 <= i < j < |es| ==> es[i].now <= es[j].now
  }

  function Run(c: Config, s: State, es: seq<Event>): State
    decreases |es|
  {
    if es == [] then s else Run(c, Next(c, s, es[0]), es[1..])
  }

  /** How many calls a run lets through. */
  function Admitted(c: Config, s: State, es: seq<Event>): nat
    decreases |es|
  {
    if es == [] then 0
    else (if es[0].Allow? && Admits(c, s, es[0].now) then 1 else 0) + Admitted(c, Next(c, s, es[0]), es[1..])
  }

  lemma {:induction false} RunSnoc(c: Config, s: State, es: seq<Event>, e: Event)
    ensures Run(c, s, es + [e]) == Next(c, Run(c, s, es), e)
    decreases |es|
  {
    hide Next;
    if es == [] {
      assert [] + [e] == [e] && [e][1..] == [];
    } else {
      assert (es + [e])[0] == es[0] && (es + [e])[1..] == es[1..] + [e];
      RunSnoc(c, Next(c, s, es[0]), es[1..], e);
    }
  }

  lemma {:induction false} RunConcat(c: Config, s: State, a: seq<Event>, b: seq<Event>)
    ensures Run(c, s, a + b) == Run(c, Run(c, s, a), b)
    decreases |a|
  {
    hide Next;
    if a == [] {
      assert a + b == b;
    } else {
      assert (a + b)[0] == a[0] && (a + b)[1..] == a[1..] + b;
      RunConcat(c, Next(c, s, a[0]), a[1..], b);
    }
  }

  /** A closed breaker's counter is below the threshold; a half-open one has not exceeded its probes. */
  predicate Fits(c: Config, s: State) {
    && (s.mode.Closed? <==> s.failures < c.threshold)
    && (s.mode.HalfOpen? ==> s.halfOpenCalls <= c.probes)
  }

  lemma {:induction false} RunFits(c: Config, s: State, es: seq<Event>)
    requires Sensible(c) && Fits(c, s)
    ensures Fits(c, Run(c, s, es))
    decreases |es|
  {
    if es != [] { RunFits(c, Next(c, s, es[0]), es[1..]); }
  }

  /** How many failures were recorded after the last recorded success. */
  function FailuresSinceSuccess(es: seq<Event>): nat {
    if es == [] || Last(es).Success? then 0
    else FailuresSinceSuccess(es[..|es| - 1]) + if Last(es).Failure? then 1 else 0
  }

  /** In every run: closed exactly when fewer failures than the threshold were recorded since the last success,
      whatever the calls, probes and cooldowns in between; the counter is that number while it matters. */
  lemma {:induction false} ClosedMeansFewFailures(c: Config, es: seq<Event>)
    requires Sensible(c)
    ensures Run(c, INIT, es).mode.Closed? <==> FailuresSinceSuccess(es) < c.threshold
    ensures Run(c, INIT, es).mode.Closed? ==> Run(c, INIT, es).failures == FailuresSinceSuccess(es)
  {
    if es != [] {
      var earlier := es[..|es| - 1];
      ClosedMeansFewFailures(c, earlier);
      RunSnoc(c, INIT, earlier, Last(es));
      assert es == earlier + [Last(es)];
    }
  }

  ghost predicate NoSuccess(es: seq<Event>) {
    forall i :: 0 <= i < |es| ==> !es[i].Success?
  }

  lemma TailRuns(start: real, es: seq<Event>)
    requires ClockRuns(start, es) && es != []
    ensures ClockRuns(es[0].now, es[1..])
  {
  }

  /** Tripped at or after `since`, nothing is admitted before `since` plus the cooldown. */
  lemma {:induction false} NothingDuringCooldown(c: Config, s: State, since: real, start: real, es: seq<Event>)
    requires Sensible(c) && s.mode.Open? && s.failures >= c.threshold && since <= s.openedAt && since <= start
    requires ClockRuns(start, es)
    requires NoSuccess(es) && forall i :: 0 <= i < |es| ==> es[i].now < since + c.recovery
    ensures Admitted(c, s, es) == 0 && Run(c, s, es).mode.Open?
    decreases |es|
  {
    if es != [] {
      TailRuns(start, es);
      NothingDuringCooldown(c, Next(c, s, es[0]), since, es[0].now, es[1..]);
    }
  }

  /** No call is admitted within the recovery period after a trip unless a success was recorded in between: for
      every run up to the trip, and whatever else happens after it. */
  lemma TripShutsOut(c: Config, before: seq<Event>, trip: real, after: seq<Event>)
    requires Sensible(c) && Trips(c, Run(c, INIT, before), Failure(trip)) && ClockRuns(trip, after) && NoSuccess(after)
    requires forall i :: 0 <= i < |after| ==> after[i].now < trip + c.recovery
    ensures Admitted(c, Next(c, Run(c, INIT, before), Failure(trip)), after) == 0
  {
    var s := Run(c, INIT, before);
    RunFits(c, INIT, before);
    NothingDuringCooldown(c, Next(c, s, Failure(trip)), trip, trip, after);
  }

  /** Within a cooldown no probe is let through, so the breaker is closed or it is shut. */
  lemma {:induction false} NoProbesInCooldown(c: Config, s: State, since: real, start: real, es: seq<Event>)
    requires Sensible(c) && !s.mode.HalfOpen? && (s.mode.Open? ==> since <= s.openedAt)
    requires since <= start && ClockRuns(start, es) && forall i :: 0 <= i < |es| ==> es[i].now < since + c.recovery
    ensures var t := Run(c, s, es); !t.mode.HalfOpen? && (t.mode.Open? ==> since <= t.openedAt)
    decreases |es|
  {
    if es != [] {
      TailRuns(start, es);
      NoProbesInCooldown(c, Next(c, s, es[0]), since, es[0].now, es[1..]);
    }
  }

  /** What ends a cooldown early, exactly: during the recovery period after a trip a call is admitted if and only
      if a success has come in and fewer failures than the threshold since. */
  lemma AdmitsInCooldownIff(c: Config, before: seq<Event>, trip: real, after: seq<Event>, now: real)
    requires Sensible(c) && Trips(c, Run(c, INIT, before), Failure(trip)) && ClockRuns(trip, after)
    requires (forall i :: 0 <= i < |after| ==> after[i].now < trip + c.recovery) && trip <= now < trip + c.recovery
    ensures var es := before + [Failure(trip)] + after;
            Admits(c, Run(c, INIT, es), now) <==> FailuresSinceSuccess(es) < c.threshold
  {
    var es := before + [Failure(trip)] + after;
    RunSnoc(c, INIT, before, Failure(trip));
    RunConcat(c, INIT, before + [Failure(trip)], after);
    NoProbesInCooldown(c, Run(c, INIT, before + [Failure(trip)]), trip, trip, after);
    ClosedMeansFewFailures(c, es);
  }

  /** What may still be admitted: the probes left in a half-open period, or all of them once the cooldown ends. */
  function Left(c: Config, s: State): int {
    if s.mode.HalfOpen? then c.probes - s.halfOpenCalls else c.probes
  }

  /** Until a success, any stretch of events shorter than the cooldown admits at most the probe budget, through
      half-open periods, failed probes and late failures alike. */
  lemma {:induction false} ProbesAreBounded(c: Config, s: State, start: real, es: seq<Event>)
    requires Sensible(c) && Fits(c, s) && !s.mode.Closed? && ClockRuns(start, es) && NoSuccess(es)
    requires forall i :: 0 <= i < |es| ==> es[i].now < start + c.recovery
    ensures Admitted(c, s, es) <= Left(c, s)
    decreases |es|
  {
    if es != [] {
      TailRuns(start, es);
      var e, t := es[0], Next(c, s, es[0]);
      if e.Failure? {
        NothingDuringCooldown(c, t, e.now, e.now, es[1..]);
      } else {
        forall i | 0 <= i < |es[1..]| ensures es[1..][i].now < start + c.recovery { assert es[1..][i] == es[i + 1]; }
        ProbesAreBounded(c, t, e.now, es[1..]);
      }
    }
  }

  /** A half-open period, however long, admits at most the probe budget: between two results nothing more passes. */
  lemma {:induction false} HalfOpenPeriodIsBounded(c: Config, s: State, es: seq<Event>)
    requires Sensible(c) && Fits(c, s) && !s.mode.Closed?
    requires forall i :: 0 <= i < |es| ==> es[i].Allow? || es[i].Read?
    ensures Admitted(c, s, es) <= Left(c, s)
    decreases |es|
  {
    if es != [] { HalfOpenPeriodIsBounded(c, Next(c, s, es[0]), es[1..]); }
  }

  /** Such a run: two calls pass, the first one's failure trips the breaker, the second one's success comes in a
      second later, and a third call is admitted seven seconds before the cooldown ends. */
  lemma LateSuccessCloses()
    ensures var c := Config(1, 10.0, 1);
            var calls, after := [Event.Allow(0.0), Event.Allow(0.0)], [Success(2.0)];
            && Admitted(c, INIT, calls) == 2 && Trips(c, Run(c, INIT, calls), Failure(1.0))
            && Admits(c, Run(c, INIT, calls + [Failure(1.0)] + after), 4.0) && 4.0 < 1.0 + c.recovery
  {
    var c := Config(1, 10.0, 1);
    var calls, after := [Event.Allow(0.0), Event.Allow(0.0)], [Success(2.0)];
    assert calls[1..] == [Event.Allow(0.0)] && calls[1..][1..] == [];
    assert Run(c, INIT, calls) == INIT;
    var es := calls + [Failure(1.0)] + after;
    assert es[..|es| - 1] == calls + [Failure(1.0)] && Last(es) == Success(2.0);
    AdmitsInCooldownIff(c, calls, 1.0, after, 4.0);
  }
}
