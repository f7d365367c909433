/** One relay pass and one consumer pass as written; uninterrupted, each is a run of the delivery machine. */
module DeliveryWorkers {
  import opened Common
  import opened DecisionDelivery

  // ---------------------------------------------------------------- the relay

  /** What the producer does with one row. */
  datatype Fate = Fate(lands: bool, report: Report)

  ghost predicate Honest(fate: nat -> Fate) {
    forall k :: fate(k).report.Acknowledged? ==> fate(k).lands
  }

  /** The broker log and the pass after the rows still to do were produced; `fate(k)` is the first one's. */
  function ProduceAll(route: string -> nat, logs: map<nat, seq<Msg>>, p: Pass, fate: nat -> Fate,
                      k: nat): (map<nat, seq<Msg>>, Pass)
    decreases |p.todo|
  {
    if p.todo == [] then (logs, p)
    else
      var key := p.todo[0];
      var part := route(key.tenant);
      var soFar := if part in logs then logs[part] else [];
      ProduceAll(route, if fate(k).lands then logs[part := soFar + [Event(key)]] else logs,
                 Pass(p.taken, p.todo[1..], if fate(k).report.Acknowledged? then p.acked + {key} else p.acked), fate,
                     k + 1)
  }

  function Produces(r: nat, n: nat, fate: nat -> Fate, k: nat): seq<Step>
    decreases n
  {
    if n == 0 then [] else [Produce(r, fate(k).lands, fate(k).report)] + Produces(r, n - 1, fate, k + 1)
  }

  /** The produce loop is what the machine's produce steps add up to. */
  lemma {:induction false} ProducesProduceAll(g: Guards, route: string -> nat, s: State, r: nat, fate: nat -> Fate,
                                              k: nat)
    requires Honest(fate) && r in s.passes
    ensures var (logs, p) := ProduceAll(route, s.logs, s.passes[r], fate, k);
            Run(g, route, s, Produces(r, |s.passes[r].todo|, fate, k))
                == Some(s.(logs := logs, passes := s.passes[r := p]))
    decreases |s.passes[r].todo|
  {
    var p := s.passes[r];
    if p.todo == [] {
      assert s.passes[r := p] == s.passes;
    } else {
      var steps := Produces(r, |p.todo|, fate, k);
      assert steps[1..] == Produces(r, |p.todo| - 1, fate, k + 1);
      var t := Next(route, s, steps[0]).value;
      ProducesProduceAll(g, route, t, r, fate, k + 1);
      var (logs, p') := ProduceAll(route, t.logs, t.passes[r], fate, k + 1);
      assert t.passes[r := p'] == s.passes[r := p'];
    }
  }

  /** What a whole pass does to the rows and the log. */
  function Relayed(route: string -> nat, rows: seq<Row>, logs: map<nat, seq<Msg>>, limit: nat, fate: nat -> Fate)
    : (seq<Row>, map<nat, seq<Msg>>)
  {
    var taken := Pending(rows, limit);
    var (logs', p) := ProduceAll(route, logs, Pass(taken, taken, {}), fate, 0);
    (StampAll(rows, p), logs')
  }

  /** An uninterrupted pass is start, produce everything, stamp: three kinds of machine step, one after the other. */
  lemma PassIsMachineRun(g: Guards, route: string -> nat, s: State, r: nat, limit: nat, fate: nat -> Fate)
    requires Honest(fate) && r !in s.passes
    ensures var (rows, logs) := Relayed(route, s.rows, s.logs, limit, fate);
            var n := |Pending(s.rows, limit)|;
            Run(g, route, s, [RelayStart(r, limit)] + (Produces(r, n, fate, 0) + [RelayCommit(r)])) ==
            Some(s.(rows := rows, logs := logs))
  {
    hide Pending;
    var n := |Pending(s.rows, limit)|;
    var middle := Produces(r, n, fate, 0);
    var steps := [RelayStart(r, limit)] + (middle + [RelayCommit(r)]);
    assert steps[1..] == middle + [RelayCommit(r)];
    var s1 := Next(route, s, steps[0]).value;
    ProducesProduceAll(g, route, s1, r, fate, 0);
    RunConcat(g, route, s1, middle, [RelayCommit(r)]);
    var s2 := Run(g, route, s1, middle).value;
    ProducedLeavesNothing(route, s1.logs, s1.passes[r], fate, 0);
    var s3 := Next(route, s2, RelayCommit(r)).value;
    assert s3.passes == s.passes;
    assert [RelayCommit(r)][1..] == [] && Run(g, route, s3, []) == Some(s3);
    assert Run(g, route, s2, [RelayCommit(r)]) == Some(s3);
  }

  lemma {:induction false} ProducedLeavesNothing(route: string -> nat, logs: map<nat, seq<Msg>>, p: Pass,
                                                 fate: nat -> Fate, k: nat)
    ensures var (logs', p') := ProduceAll(route, logs, p, fate, k); p'.todo == [] && p'.taken == p.taken
    decreases |p.todo|
  {
    if p.todo != [] {
      var key := p.todo[0];
      var part := route(key.tenant);
      var soFar := if part in logs then logs[part] else [];
      ProducedLeavesNothing(route, if fate(k).lands then logs[part := soFar + [Event(key)]] else logs,
                            Pass(p.taken, p.todo[1..], if fate(k).report.Acknowledged? then p.acked + {key}
                                else p.acked), fate, k + 1);
    }
  }

  class Relay {
    var rows: seq<Row>
    var logs: map<nat, seq<Msg>>

    constructor ()
      ensures rows == [] && logs == map[]
    {
      rows, logs := [], map[];
    }

    /** `enqueue`, in the decision's own transaction. */
    method Enqueue(key: Key)
      requires key !in RowKeys(rows)
      modifies this`rows
      ensures rows == old(rows) + [Row(key, false, 0)]
    {
      rows := rows + [Row(key, false, 0)];
    }

    /** `relay_once` */
    method RelayOnce(enabled: bool, limit: nat, route: string -> nat, fate: nat -> Fate) returns (taken: nat)
      modifies this
      ensures enabled ==> (rows, logs) == Relayed(route, old(rows), old(logs), limit, fate)
      ensures enabled ==> taken == |Pending(old(rows), limit)|
      ensures !enabled ==> rows == old(rows) && logs == old(logs) && taken == 0
    {
      if !enabled { return 0; }
      var picked := Pending(rows, limit);
      taken := |picked|;
      var delivered: set<Key> := {};
      for k := 0 to |picked|
        invariant rows == old(rows)
        invariant ProduceAll(route, old(logs), Pass(picked, picked, {}), fate, 0) ==
                  ProduceAll(route, logs, Pass(picked, picked[k..], delivered), fate, k)
      {
        var key := picked[k];
        assert picked[k..][0] == key && picked[k..][1..] == picked[k + 1..];
        var part := route(key.tenant);
        if fate(k).lands {
          logs := logs[part := (if part in logs then logs[part] else []) + [Event(key)]];
        }
        if fate(k).report.Acknowledged? {
          delivered := delivered + {key};
        }
      }
      ghost var p := Pass(picked, [], delivered);
      var stamped: seq<Row> := [];
      for i := 0 to |rows|
        invariant rows == old(rows) && |stamped| == i
        invariant forall j :: 0 <= j < i ==> stamped[j] == Stamp(rows[j], p)
      {
        var row := rows[i];
        if row.key in picked {
          row := if row.key in delivered then row.(sent := true) else row.(attempts := row.attempts + 1);
        }
        stamped := stamped + [row];
      }
      assert stamped == StampAll(rows, p);
      rows := stamped;
    }
  }

  // ---------------------------------------------------------------- the consumer

  /** Keys claimed by working through messages: first occurrences of claimable keys not claimed before. */
  function NewKeys(ms: seq<Msg>, claims: set<Key>): seq<Key> {
    if ms == [] then []
    else if Claimable(ms[0]) && ms[0].key !in claims then [ms[0].key] + NewKeys(ms[1..], claims + {ms[0].key})
    else NewKeys(ms[1..], claims)
  }

  function ClaimableKeys(ms: seq<Msg>): set<Key> {
    set m | m in ms && Claimable(m) :: m.key
  }

  lemma {:induction false} NewKeysAre(ms: seq<Msg>, claims: set<Key>)
    ensures Distinct(NewKeys(ms, claims))
    ensures forall key :: key in NewKeys(ms, claims) <==> key in ClaimableKeys(ms) && key !in claims
  {
    if ms != [] {
      assert ms == [ms[0]] + ms[1..];
      if Claimable(ms[0]) && ms[0].key !in claims {
        NewKeysAre(ms[1..], claims + {ms[0].key});
      } else {
        NewKeysAre(ms[1..], claims);
      }
    }
  }

  /** Redelivery, whole or in part, in any order, claims nothing new. */
  lemma RedeliveryClaimsNothing(ms: seq<Msg>, again: seq<Msg>, claims: set<Key>)
    requires forall m :: m in again ==> m in ms
    ensures NewKeys(again, claims + ClaimableKeys(ms)) == []
  {
  }

  datatype Outcome = Processed | Duplicate | DeadLetter

  /** What a consumer has claimed, handled and parked, and its position. */
  datatype Work = Work(claims: set<Key>, ran: seq<Key>, done: set<Key>, parked: set<Msg>, offset: nat)

  function OutcomeOf(m: Msg, claims: set<Key>, completes: bool): Outcome {
    if !Claimable(m) then DeadLetter
    else if m.key in claims then Duplicate
    else if completes then Processed else DeadLetter
  }

  /** One message, from poll to commit. */
  function Handled(w: Work, m: Msg, completes: bool, parks: bool): Work {
    var claimed := Claimable(m) && m.key !in w.claims;
    var outcome := OutcomeOf(m, w.claims, completes);
    Work(if claimed then w.claims + {m.key} else w.claims,
         if claimed then w.ran + [m.key] else w.ran,
         if outcome.Processed? then w.done + {m.key} else w.done,
         if outcome.DeadLetter? && parks then w.parked + {m} else w.parked,
         w.offset + 1)
  }

  /** At most `n` messages; `completes(k)` and `parks(k)` answer for the first one's handler and dead-letter write. */
  function ConsumeAll(log: seq<Msg>, w: Work, n: nat, completes: nat -> bool, parks: nat -> bool, k: nat): Work
    decreases n
  {
    if n == 0 || w.offset >= |log| then w
    else
      var next := Handled(w, log[w.offset], completes(k), parks(k));
      ConsumeAll(log, next, n - 1, completes, parks, k + 1)
  }

  function Outcomes(log: seq<Msg>, w: Work, n: nat, completes: nat -> bool, parks: nat -> bool, k: nat): seq<Outcome>
    decreases n
  {
    if n == 0 || w.offset >= |log| then []
    else
      var next := Handled(w, log[w.offset], completes(k), parks(k));
      [OutcomeOf(log[w.offset], w.claims, completes(k))] + Outcomes(log, next, n - 1, completes, parks, k + 1)
  }

  /** The counters a pass returns. */
  datatype Tally = Tally(processed: nat, duplicate: nat, dead: nat)

  function Counted(t: Tally, outcome: Outcome): Tally {
    match outcome
    case Processed => t.(processed := t.processed + 1)
    case Duplicate => t.(duplicate := t.duplicate + 1)
    case DeadLetter => t.(dead := t.dead + 1)
  }

  function CountAll(t: Tally, outcomes: seq<Outcome>): Tally
    decreases |outcomes|
  {
    if outcomes == [] then t else CountAll(Counted(t, outcomes[0]), outcomes[1..])
  }

  lemma {:induction false} CountAllCounts(t: Tally, outcomes: seq<Outcome>)
    ensures var r, m := CountAll(t, outcomes), multiset(outcomes);
            && r.processed == t.processed + m[Processed]
            && r.duplicate == t.duplicate + m[Duplicate]
            && r.dead == t.dead + m[DeadLetter]
    decreases |outcomes|
  {
    if outcomes != [] {
      assert outcomes == [outcomes[0]] + outcomes[1..];
      assert multiset(outcomes) == multiset{outcomes[0]} + multiset(outcomes[1..]);
      CountAllCounts(Counted(t, outcomes[0]), outcomes[1..]);
    }
  }

  /** The machine's own steps after the claim. */
  function EndSteps(c: nat, m: Msg, claims: set<Key>, completes: bool, parks: bool): seq<Step> {
    var ends := if completes then [Commit(c)] else [Park(c, parks)] + [Commit(c)];
    if !Claimable(m) then [Park(c, parks)] + [Commit(c)]
    else if m.key in claims then [Commit(c)]
    else [HandlerStart(c)] + ([HandlerEnd(c, completes)] + ends)
  }

  function MessageSteps(c: nat, m: Msg, claims: set<Key>, completes: bool, parks: bool): seq<Step> {
    [Poll(c)] + ([Claim(c)] + EndSteps(c, m, claims, completes, parks))
  }

  function ConsumeSteps(c: nat, log: seq<Msg>, w: Work, n: nat, completes: nat -> bool, parks: nat -> bool,
                        k: nat): seq<Step>
    decreases n
  {
    if n == 0 || w.offset >= |log| then []
    else
      var next := Handled(w, log[w.offset], completes(k), parks(k));
      MessageSteps(c, log[w.offset], w.claims, completes(k), parks(k))
        + ConsumeSteps(c, log, next, n - 1, completes, parks, k + 1)
  }

  /** What consumer `c` of the machine has to work with. */
  function WorkOf(s: State, c: nat): Work
    requires c in s.consumers
  {
    Work(s.claims, s.ran, s.done, s.parked, s.consumers[c].position)
  }

  /** The machine with that work done and the last offset committed. */
  function WithWork(s: State, c: nat, w: Work): State
    requires c in s.consumers
  {
    var part := s.consumers[c].partition;
    s.(claims := w.claims, ran := w.ran, done := w.done, parked := w.parked,
       offsets := if w.offset == s.consumers[c].position then s.offsets else s.offsets[part := w.offset],
       consumers := s.consumers[c := Consumer(part, w.offset, Waiting)])
  }

  lemma RunCons(g: Guards, route: string -> nat, s: State, step: Step, rest: seq<Step>)
    requires Allowed(g, s, step) && Next(route, s, step).Some?
    ensures Run(g, route, s, [step] + rest) == Run(g, route, Next(route, s, step).value, rest)
  {
    hide Next;
    assert ([step] + rest)[0] == step && ([step] + rest)[1..] == rest;
  }

  lemma RunLast(g: Guards, route: string -> nat, s: State, step: Step)
    requires Allowed(g, s, step) && Next(route, s, step).Some?
    ensures Run(g, route, s, [step]) == Next(route, s, step)
  {
    RunCons(g, route, s, step, []);
    assert [step] + [] == [step];
  }

  /** Only what is not work, not the offset and not the stage of `c` is taken from the state. */
  lemma WithWorkForgets(s: State, t: State, c: nat, w: Work)
    requires c in s.consumers && c in t.consumers
    requires t.consumers == s.consumers[c := s.consumers[c].(stage := t.consumers[c].stage)]
    requires t == s.(claims := t.claims, ran := t.ran, done := t.done, parked := t.parked, consumers := t.consumers)
    ensures WithWork(t, c, w) == WithWork(s, c, w)
  {
    var k := Consumer(s.consumers[c].partition, w.offset, Waiting);
    assert t.consumers[c := k] == s.consumers[c := k];
  }

  /** The machine when the handler is over. */
  function HandlerOver(s: State, c: nat, m: Msg, completes: bool): State
    requires c in s.consumers && m.Event?
  {
    var t := s.(ran := s.ran + [m.key]);
    if completes then Move(t.(done := t.done + {m.key}), c, Committing) else Move(t, c, Parking(true))
  }

  lemma HandlerRuns(g: Guards, route: string -> nat, s: State, c: nat, completes: bool, ends: seq<Step>)
    requires AtStage(s, c, Stage.Claimed) && Current(s, c).Some? && Claimable(Current(s, c).value)
    ensures Run(g, route, s, [HandlerStart(c)] + ([HandlerEnd(c, completes)] + ends)) ==
            Run(g, route, HandlerOver(s, c, Current(s, c).value, completes), ends)
  {
    hide Run;
    RunCons(g, route, s, HandlerStart(c), [HandlerEnd(c, completes)] + ends);
    var s1 := Next(route, s, HandlerStart(c)).value;
    assert Current(s1, c) == Current(s, c);
    RunCons(g, route, s1, HandlerEnd(c, completes), ends);
    var s2 := Next(route, s1, HandlerEnd(c, completes)).value;
    assert s2.consumers == HandlerOver(s, c, Current(s, c).value, completes).consumers;
  }

  /** After the claim: run the handler, park what failed, commit. */
  lemma ClaimedIsMachineRun(g: Guards, route: string -> nat, s: State, c: nat, completes: bool, parks: bool)
    requires AtStage(s, c, Stage.Claimed) && Current(s, c).Some? && Claimable(Current(s, c).value)
    requires g.parking ==> parks
    ensures var m := Current(s, c).value;
            var w := WorkOf(s, c).(ran := s.ran + [m.key],
                                   done := if completes then s.done + {m.key} else s.done,
                                   parked := if !completes && parks then s.parked + {m} else s.parked,
                                   offset := s.consumers[c].position + 1);
            var ends := if completes then [Commit(c)] else [Park(c, parks)] + [Commit(c)];
            Run(g, route, s, [HandlerStart(c)] + ([HandlerEnd(c, completes)] + ends)) == Some(WithWork(s, c, w))
  {
    hide Run;
    hide Next;
    var m := Current(s, c).value;
    var t := HandlerOver(s, c, m, completes);
    assert Current(t, c) == Current(s, c);
    if completes {
      HandlerRuns(g, route, s, c, completes, [Commit(c)]);
      CommitIsWithWork(route, s, t, c);
      RunLast(g, route, t, Commit(c));
    } else {
      HandlerRuns(g, route, s, c, completes, [Park(c, parks)] + [Commit(c)]);
      ParkIsMachineRun(g, route, t, c, parks);
      var parked := if parks then s.parked + {m} else s.parked;
      WithWorkForgets(s, t, c, Work(t.claims, t.ran, t.done, parked, s.consumers[c].position + 1));
    }
  }

  /** Committing from a state that differs from `s` only in the work done and in the stage of `c`. */
  lemma CommitIsWithWork(route: string -> nat, s: State, t: State, c: nat)
    requires c in s.consumers && c in t.consumers && t.consumers[c].stage.Committing?
    requires t.consumers == s.consumers[c := s.consumers[c].(stage := Committing)]
    requires t == s.(claims := t.claims, ran := t.ran, done := t.done, parked := t.parked, consumers := t.consumers)
    ensures Next(route, t, Commit(c)) ==
            Some(WithWork(s, c, Work(t.claims, t.ran, t.done, t.parked, s.consumers[c].position + 1)))
  {
    var k := Consumer(s.consumers[c].partition, s.consumers[c].position + 1, Waiting);
    assert t.consumers[c := k] == s.consumers[c := k];
  }

  lemma ParkIsMachineRun(g: Guards, route: string -> nat, s: State, c: nat, parks: bool)
    requires AtStage(s, c, Parking(true)) || AtStage(s, c, Parking(false))
    requires Current(s, c).Some? && (g.parking ==> parks)
    ensures var w := WorkOf(s, c).(parked := if parks then s.parked + {Current(s, c).value} else s.parked,
                                   offset := s.consumers[c].position + 1);
            Run(g, route, s, [Park(c, parks)] + [Commit(c)]) == Some(WithWork(s, c, w))
  {
    hide Run;
    RunCons(g, route, s, Park(c, parks), [Commit(c)]);
    var s1 := Next(route, s, Park(c, parks)).value;
    RunLast(g, route, s1, Commit(c));
    CommitIsWithWork(route, s, s1, c);
  }

  /** Poll and claim: what the machine is like when the message's fate is decided. */
  function Decided(s: State, c: nat, m: Msg): State
    requires c in s.consumers
  {
    if !Claimable(m) then Move(s, c, Parking(false))
    else if m.key in s.claims then Move(s, c, Committing)
    else Move(s.(claims := s.claims + {m.key}), c, Stage.Claimed)
  }

  lemma PollAndClaim(g: Guards, route: string -> nat, s: State, c: nat, ends: seq<Step>)
    requires AtStage(s, c, Waiting) && Current(s, c).Some?
    ensures Run(g, route, s, [Poll(c)] + ([Claim(c)] + ends)) == Run(g, route, Decided(s, c, Current(s, c).value), ends)
  {
    hide Run;
    RunCons(g, route, s, Poll(c), [Claim(c)] + ends);
    var s1 := Next(route, s, Poll(c)).value;
    RunCons(g, route, s1, Claim(c), ends);
    var s2 := Next(route, s1, Claim(c)).value;
    var t := Decided(s, c, Current(s, c).value);
    assert s2.consumers == t.consumers;
  }

  /** Handling one message is poll, claim, handler, park and commit of the machine. */
  lemma MessageIsMachineRun(g: Guards, route: string -> nat, s: State, c: nat, completes: bool, parks: bool)
    requires AtStage(s, c, Waiting) && Current(s, c).Some? && (g.parking ==> parks)
    ensures var m := Current(s, c).value;
            Run(g, route, s, MessageSteps(c, m, s.claims, completes, parks)) ==
            Some(WithWork(s, c, Handled(WorkOf(s, c), m, completes, parks)))
  {
    hide Run;
    var m := Current(s, c).value;
    PollAndClaim(g, route, s, c, EndSteps(c, m, s.claims, completes, parks));
    var t := Decided(s, c, m);
    assert Current(t, c) == Current(s, c);
    WithWorkForgets(s, t, c, Handled(WorkOf(s, c), m, completes, parks));
    if !Claimable(m) {
      ParkIsMachineRun(g, route, t, c, parks);
    } else if m.key in s.claims {
      hide Next;
      CommitIsWithWork(route, s, t, c);
      RunLast(g, route, t, Commit(c));
    } else {
      ClaimedIsMachineRun(g, route, t, c, completes, parks);
    }
  }

  /** A whole uninterrupted `consume_once` is a run of the machine, whatever the handlers and the
      dead-letter topic do. */
  lemma {:induction false} ConsumeIsMachineRun(g: Guards, route: string -> nat, s: State, c: nat, n: nat,
                                               completes: nat -> bool, parks: nat -> bool, k: nat)
    requires AtStage(s, c, Waiting) && (g.parking ==> forall i :: parks(i))
    ensures var log := Log(s, s.consumers[c].partition);
            Run(g, route, s, ConsumeSteps(c, log, WorkOf(s, c), n, completes, parks, k)) ==
            Some(WithWork(s, c, ConsumeAll(log, WorkOf(s, c), n, completes, parks, k)))
    decreases n
  {
    hide Handled;
    hide MessageSteps;
    hide Next;
    hide Allowed;
    hide Run;
    var log := Log(s, s.consumers[c].partition);
    var w := WorkOf(s, c);
    if n == 0 || w.offset >= |log| {
      NothingConsumed(g, route, s, c);
    } else {
      hide WithWork;
      hide WorkOf;
      hide Log;
      var first := MessageSteps(c, log[w.offset], w.claims, completes(k), parks(k));
      var w1 := Handled(w, log[w.offset], completes(k), parks(k));
      var s1 := WithWork(s, c, w1);
      MessageIsMachineRun(g, route, s, c, completes(k), parks(k));
      HandledMoves(w, log[w.offset], completes(k), parks(k));
      WithWorkTwice(s, c, w1, w1);
      RunConcat(g, route, s, first, ConsumeSteps(c, log, w1, n - 1, completes, parks, k + 1));
      ConsumeIsMachineRun(g, route, s1, c, n - 1, completes, parks, k + 1);
      var w2 := ConsumeAll(log, w1, n - 1, completes, parks, k + 1);
      ConsumedOffset(log, w1, n - 1, completes, parks, k + 1);
      WithWorkTwice(s, c, w1, w2);
    }
  }

  lemma NothingConsumed(g: Guards, route: string -> nat, s: State, c: nat)
    requires AtStage(s, c, Waiting)
    ensures Run(g, route, s, []) == Some(WithWork(s, c, WorkOf(s, c)))
  {
    assert s.consumers[c := s.consumers[c]] == s.consumers;
  }

  lemma WithWorkTwice(s: State, c: nat, w1: Work, w2: Work)
    requires c in s.consumers && s.consumers[c].position < w1.offset <= w2.offset
    ensures WithWork(WithWork(s, c, w1), c, w2) == WithWork(s, c, w2)
    ensures WorkOf(WithWork(s, c, w1), c) == w1 && AtStage(WithWork(s, c, w1), c, Waiting)
    ensures Log(WithWork(s, c, w1), s.consumers[c].partition) == Log(s, s.consumers[c].partition)
    ensures WithWork(s, c, w1).consumers[c].partition == s.consumers[c].partition
  {
    var part := s.consumers[c].partition;
    var k1, k2 := Consumer(part, w1.offset, Waiting), Consumer(part, w2.offset, Waiting);
    assert s.consumers[c := k1][c := k2] == s.consumers[c := k2];
    assert s.offsets[part := w1.offset][part := w2.offset] == s.offsets[part := w2.offset];
  }

  /** What a pass leaves: the work done, the offset committed, the consumer gone. */
  function AfterPass(s: State, part: nat, w: Work): State {
    s.(claims := w.claims, ran := w.ran, done := w.done, parked := w.parked,
       offsets := if w.offset == Offset(s, part) then s.offsets else s.offsets[part := w.offset])
  }

  /** `consume_once` from subscribing to closing: join at the committed offset, the messages, leave. */
  lemma ConsumeOnceIsMachineRun(g: Guards, route: string -> nat, s: State, c: nat, part: nat, n: nat,
                                completes: nat -> bool, parks: nat -> bool)
    requires c !in s.consumers && (g.parking ==> forall i :: parks(i))
    ensures var w := Work(s.claims, s.ran, s.done, s.parked, Offset(s, part));
            var middle := ConsumeSteps(c, Log(s, part), w, n, completes, parks, 0);
            Run(g, route, s, [Join(c, part)] + (middle + [Leave(c)])) ==
            Some(AfterPass(s, part, ConsumeAll(Log(s, part), w, n, completes, parks, 0)))
  {
    hide Run;
    hide ConsumeAll;
    hide ConsumeSteps;
    var w := Work(s.claims, s.ran, s.done, s.parked, Offset(s, part));
    var middle := ConsumeSteps(c, Log(s, part), w, n, completes, parks, 0);
    RunCons(g, route, s, Join(c, part), middle + [Leave(c)]);
    var s1 := Next(route, s, Join(c, part)).value;
    ConsumeIsMachineRun(g, route, s1, c, n, completes, parks, 0);
    var w1 := ConsumeAll(Log(s, part), w, n, completes, parks, 0);
    var s2 := WithWork(s1, c, w1);
    RunConcat(g, route, s1, middle, [Leave(c)]);
    RunLast(g, route, s2, Leave(c));
    assert s2.consumers - {c} == s.consumers;
  }

  lemma HandledMoves(w: Work, m: Msg, completes: bool, parks: bool)
    ensures Handled(w, m, completes, parks).offset == w.offset + 1
  {
  }

  lemma {:induction false} ConsumedOffset(log: seq<Msg>, w: Work, n: nat, completes: nat -> bool, parks: nat -> bool,
                                          k: nat)
    ensures var r := ConsumeAll(log, w, n, completes, parks, k);
            r.offset == if w.offset >= |log| then w.offset else if w.offset + n <= |log| then w.offset + n else |log|
    decreases n
  {
    if n > 0 && w.offset < |log| {
      ConsumedOffset(log, Handled(w, log[w.offset], completes(k), parks(k)), n - 1, completes, parks, k + 1);
    }
  }

  lemma HandledKeys(w: Work, completes: bool, parks: bool, ms: seq<Msg>)
    requires ms != []
    ensures var w1 := Handled(w, ms[0], completes, parks);
            && w1.ran + NewKeys(ms[1..], w1.claims) == w.ran + NewKeys(ms, w.claims)
            && w1.claims + ClaimableKeys(ms[1..]) == w.claims + ClaimableKeys(ms)
  {
    assert ms == [ms[0]] + ms[1..];
    if Claimable(ms[0]) && ms[0].key !in w.claims {
      assert w.ran + ([ms[0].key] + NewKeys(ms[1..], w.claims + {ms[0].key})) ==
             (w.ran + [ms[0].key]) + NewKeys(ms[1..], w.claims + {ms[0].key});
    }
  }

  /** What a pass claims and runs: the first occurrence of every claimable key nobody claimed before. */
  lemma {:induction false} ConsumedKeys(log: seq<Msg>, w: Work, n: nat, completes: nat -> bool, parks: nat -> bool,
                                        k: nat)
    requires w.offset <= |log|
    ensures var r := ConsumeAll(log, w, n, completes, parks, k);
            && w.offset <= r.offset <= |log|
            && r.ran == w.ran + NewKeys(log[w.offset..r.offset], w.claims)
            && r.claims == w.claims + ClaimableKeys(log[w.offset..r.offset])
    decreases n
  {
    hide Handled;
    ConsumedOffset(log, w, n, completes, parks, k);
    var r := ConsumeAll(log, w, n, completes, parks, k);
    if n == 0 || w.offset == |log| {
      assert log[w.offset..r.offset] == [];
    } else {
      hide NewKeys;
      hide ClaimableKeys;
      var w1 := Handled(w, log[w.offset], completes(k), parks(k));
      HandledMoves(w, log[w.offset], completes(k), parks(k));
      ConsumedKeys(log, w1, n - 1, completes, parks, k + 1);
      var ms := log[w.offset..r.offset];
      assert ms[0] == log[w.offset] && ms[1..] == log[w1.offset..r.offset];
      HandledKeys(w, completes(k), parks(k), ms);
    }
  }

  /** The `i`-th message of a pass over `ms` is a dead letter: it cannot be claimed, or it is the first with its key
      and the handler fails. */
  predicate DeadAt(ms: seq<Msg>, claims: set<Key>, completes: bool, i: nat)
    requires i < |ms|
  {
    !Claimable(ms[i]) || (ms[i].key !in claims + ClaimableKeys(ms[..i]) && !completes)
  }

  /** Some dead letter of the pass is `m`, and its write works. */
  ghost predicate ParkedAmong(ms: seq<Msg>, claims: set<Key>, completes: nat -> bool, parks: nat -> bool, k: nat,
                              m: Msg)
  {
    exists i: nat :: i < |ms| && m == ms[i] && parks(k + i) && DeadAt(ms, claims, completes(k + i), i)
  }

  lemma DeadAtShift(ms: seq<Msg>, claims: set<Key>, completes: bool, i: nat)
    requires i + 1 < |ms|
    ensures DeadAt(ms, claims, completes, i + 1) == DeadAt(ms[1..], claims + ClaimableKeys([ms[0]]), completes, i)
  {
    assert ms[..i + 1] == [ms[0]] + ms[1..][..i];
    ClaimableConcat([ms[0]], ms[1..][..i]);
  }

  lemma ParkedAmongCons(ms: seq<Msg>, claims: set<Key>, completes: nat -> bool, parks: nat -> bool, k: nat, m: Msg)
    requires ms != []
    ensures ParkedAmong(ms, claims, completes, parks, k, m) <==>
              || (m == ms[0] && parks(k) && DeadAt(ms, claims, completes(k), 0))
              || ParkedAmong(ms[1..], claims + ClaimableKeys([ms[0]]), completes, parks, k + 1, m)
  {
    var rest, claims1 := ms[1..], claims + ClaimableKeys([ms[0]]);
    assert ms[..0] == [];
    if i: nat :| i < |ms| && m == ms[i] && parks(k + i) && DeadAt(ms, claims, completes(k + i), i) {
      if i > 0 {
        assert ms[i] == rest[i - 1] && (k + 1) + (i - 1) == k + i;
        DeadAtShift(ms, claims, completes(k + i), i - 1);
      }
    }
    if i: nat :| i < |rest| && m == rest[i] && parks((k + 1) + i) && DeadAt(rest, claims1, completes((k + 1) + i), i) {
      assert ms[i + 1] == rest[i] && k + (i + 1) == (k + 1) + i;
      DeadAtShift(ms, claims, completes((k + 1) + i), i);
    }
  }

  lemma HandledParks(w: Work, m: Msg, completes: bool, parks: bool, ms: seq<Msg>)
    requires ms != [] && ms[0] == m
    ensures Handled(w, m, completes, parks).claims == w.claims + ClaimableKeys([m])
    ensures Handled(w, m, completes, parks).parked == if parks && DeadAt(ms, w.claims, completes, 0)
            then w.parked + {m} else w.parked
  {
    assert ms[..0] == [] && m in [m];
  }

  /** What a pass parks, exactly: the dead letters whose write works. */
  lemma {:induction false} ConsumedParks(log: seq<Msg>, w: Work, n: nat, completes: nat -> bool, parks: nat -> bool,
                                         k: nat, m: Msg)
    requires w.offset <= |log|
    ensures var r := ConsumeAll(log, w, n, completes, parks, k);
            && w.offset <= r.offset <= |log|
            && (m in r.parked <==>
                 m in w.parked || ParkedAmong(log[w.offset..r.offset], w.claims, completes, parks, k, m))
    decreases n
  {
    hide Handled;
    hide ParkedAmong;
    ConsumedOffset(log, w, n, completes, parks, k);
    var r := ConsumeAll(log, w, n, completes, parks, k);
    if n == 0 || w.offset == |log| {
      NothingParked(log, w.offset, w.claims, completes, parks, k, m);
    } else {
      var w1 := Handled(w, log[w.offset], completes(k), parks(k));
      HandledMoves(w, log[w.offset], completes(k), parks(k));
      ConsumedParks(log, w1, n - 1, completes, parks, k + 1, m);
      var ms := log[w.offset..r.offset];
      assert ms[0] == log[w.offset] && ms[1..] == log[w1.offset..r.offset];
      HandledParks(w, ms[0], completes(k), parks(k), ms);
      ParkedAmongCons(ms, w.claims, completes, parks, k, m);
    }
  }

  lemma ConsumedWork(log: seq<Msg>, w: Work, n: nat, completes: nat -> bool, parks: nat -> bool)
    requires w.offset <= |log|
    ensures var r := ConsumeAll(log, w, n, completes, parks, 0);
            && r.offset == (if w.offset + n <= |log| then w.offset + n else |log|)
            && r.ran == w.ran + NewKeys(log[w.offset..r.offset], w.claims)
            && r.claims == w.claims + ClaimableKeys(log[w.offset..r.offset])
            && forall m :: m in r.parked <==>
                 m in w.parked || ParkedAmong(log[w.offset..r.offset], w.claims, completes, parks, 0, m)
  {
    hide ParkedAmong;
    ConsumedOffset(log, w, n, completes, parks, 0);
    ConsumedKeys(log, w, n, completes, parks, 0);
    var r := ConsumeAll(log, w, n, completes, parks, 0);
    forall m
      ensures m in r.parked <==>
                m in w.parked || ParkedAmong(log[w.offset..r.offset], w.claims, completes, parks, 0, m)
    {
      ConsumedParks(log, w, n, completes, parks, 0, m);
    }
  }

  lemma NothingParked(log: seq<Msg>, i: nat, claims: set<Key>, completes: nat -> bool, parks: nat -> bool, k: nat,
                      m: Msg)
    requires i <= |log|
    ensures !ParkedAmong(log[i..i], claims, completes, parks, k, m)
  {
  }

  /** Where a pass ends and what it will have counted. */
  function Remaining(log: seq<Msg>, w: Work, n: nat, completes: nat -> bool, parks: nat -> bool, k: nat,
                     t: Tally): (Work, Tally)
  {
    (ConsumeAll(log, w, n, completes, parks, k), CountAll(t, Outcomes(log, w, n, completes, parks, k)))
  }

  lemma RemainingStep(log: seq<Msg>, w: Work, n: nat, completes: nat -> bool, parks: nat -> bool, k: nat, t: Tally)
    requires n > 0 && w.offset < |log|
    ensures var m := log[w.offset];
            Remaining(log, w, n, completes, parks, k, t) ==
            Remaining(log, Handled(w, m, completes(k), parks(k)), n - 1, completes, parks, k + 1,
                      Counted(t, OutcomeOf(m, w.claims, completes(k))))
  {
    hide Handled;
    hide Counted;
    var next := Handled(w, log[w.offset], completes(k), parks(k));
    var outcome := OutcomeOf(log[w.offset], w.claims, completes(k));
    var rest := Outcomes(log, next, n - 1, completes, parks, k + 1);
    assert ([outcome] + rest)[0] == outcome && ([outcome] + rest)[1..] == rest;
  }

  lemma RemainingNone(log: seq<Msg>, w: Work, n: nat, completes: nat -> bool, parks: nat -> bool, k: nat, t: Tally)
    requires n == 0 || w.offset >= |log|
    ensures Remaining(log, w, n, completes, parks, k, t) == (w, t)
  {
  }

  lemma HandledWith(w: Work, m: Msg, completes: bool, parks: bool)
    ensures Handled(w, m, completes, parks) ==
            Handled(w, m, completes, false).(parked := if OutcomeOf(m, w.claims, completes).DeadLetter? && parks
                                                       then w.parked + {m} else w.parked)
  {
  }

  class Worker {
    var claims: set<Key>
    var ran: seq<Key>
    var done: set<Key>
    var parked: set<Msg>
    var offset: nat

    constructor (start: nat)
      ensures Valid() && Contents() == Work({}, [], {}, {}, start)
    {
      claims, ran, done, parked, offset := {}, [], {}, {}, start;
    }

    function Contents(): Work
      reads this
    {
      Work(claims, ran, done, parked, offset)
    }

    /** Handlers ran exactly for the claimed keys, once each. */
    ghost predicate Valid()
      reads this
    {
      Distinct(ran) && forall key :: key in claims <==> key in ran
    }

    /** `handle_message`; `completes` is false when the handler raises. */
    method HandleMessage(m: Msg, completes: bool) returns (outcome: Outcome)
      requires Valid()
      modifies this`claims, this`ran, this`done
      ensures Valid()
      ensures ran == old(ran) + NewKeys([m], old(claims)) && claims == old(claims) + ClaimableKeys([m])
      ensures outcome == OutcomeOf(m, old(claims), completes)
      ensures Contents().(offset := offset + 1) == Handled(old(Contents()), m, completes, false)
    {
      assert m in [m] && [m][1..] == [];
      if !Claimable(m) {
        return DeadLetter;
      }
      if m.key in claims {
        return Duplicate;
      }
      claims := claims + {m.key};
      ran := ran + [m.key];
      if completes {
        done := done + {m.key};
        outcome := Processed;
      } else {
        outcome := DeadLetter;
      }
    }

    /** `consume_once`: poll, handle, park, commit, at most `max` messages; `completes` and `parks` answer for the
        handler and the dead-letter write of the k-th. */
    method ConsumeOnce(log: seq<Msg>, max: nat, completes: nat -> bool, parks: nat -> bool)
      returns (processed: nat, duplicate: nat, dead: nat)
      requires Valid() && offset <= |log|
      modifies this
      ensures Valid() && Contents() == ConsumeAll(log, old(Contents()), max, completes, parks, 0)
      ensures offset == (if old(offset) + max <= |log| then old(offset) + max else |log|)
      ensures var outcomes := multiset(Outcomes(log, old(Contents()), max, completes, parks, 0));
              processed == outcomes[Processed] && duplicate == outcomes[Duplicate] && dead == outcomes[DeadLetter]
      ensures ran == old(ran) + NewKeys(log[old(offset)..offset], old(claims))
      ensures claims == old(claims) + ClaimableKeys(log[old(offset)..offset])
      ensures forall m :: m in parked <==>
                m in old(parked) || ParkedAmong(log[old(offset)..offset], old(claims), completes, parks, 0, m)
    {
      hide NewKeys;
      hide ClaimableKeys;
      hide Distinct;
      hide ParkedAmong;
      hide ConsumeAll;
      hide CountAll;
      hide Outcomes;
      hide Handled;
      hide OutcomeOf;
      ghost var start := Contents();
      var tally := Tally(0, 0, 0);
      var polls := 0;
      while polls < max && offset < |log|
        invariant Valid() && polls <= max && offset <= |log|
        invariant Remaining(log, start, max, completes, parks, 0, Tally(0, 0, 0)) ==
                  Remaining(log, Contents(), max - polls, completes, parks, polls, tally)
        decreases max - polls
      {
        ghost var before, counted := Contents(), tally;
        var m := log[offset];
        var outcome := HandleMessage(m, completes(polls));
        match outcome {
          case Processed => tally := tally.(processed := tally.processed + 1);
          case Duplicate => tally := tally.(duplicate := tally.duplicate + 1);
          case DeadLetter =>
            tally := tally.(dead := tally.dead + 1);
            if parks(polls) { parked := parked + {m}; }
        }
        offset := offset + 1;
        HandledWith(before, m, completes(polls), parks(polls));
        RemainingStep(log, before, max - polls, completes, parks, polls, counted);
        polls := polls + 1;
      }
      RemainingNone(log, Contents(), max - polls, completes, parks, polls, tally);
      CountAllCounts(Tally(0, 0, 0), Outcomes(log, start, max, completes, parks, 0));
      ConsumedWork(log, start, max, completes, parks);
      processed, duplicate, dead := tally.processed, tally.duplicate, tally.dead;
    }
  }

  lemma ClaimableConcat(a: seq<Msg>, b: seq<Msg>)
    ensures ClaimableKeys(a + b) == ClaimableKeys(a) + ClaimableKeys(b)
  {
  }

}
