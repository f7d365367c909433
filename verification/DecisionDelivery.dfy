/** Delivery of decision events: outbox rows, relay passes, a partitioned broker log and deduplicating consumers,
    with crashes anywhere, lost delivery reports, redelivery and several relays and consumers at once. */
module DecisionDelivery {
  import opened Common

  // ---------------------------------------------------------------- state

  /** The deduplication key: tenant and outbox row id. */
  datatype Key = Key(tenant: string, event: string)

  datatype Row = Row(key: Key, sent: bool, attempts: nat)

  /** What the topic holds: outbox events, and bodies nobody can parse. */
  datatype Msg = Event(key: Key) | Junk

  datatype Report = Acknowledged | Refused | Silent

  /** One `relay_once` in progress: the rows it took, those not yet produced, and the ones acknowledged. */
  datatype Pass = Pass(taken: seq<Key>, todo: seq<Key>, acked: set<Key>)

  /** Where a consumer is with the message at its position. */
  datatype Stage = Waiting | Holding | Claimed | Handling | Parking(claimed: bool) | Committing

  datatype Consumer = Consumer(partition: nat, position: nat, stage: Stage)

  datatype State = State(rows: seq<Row>, passes: map<nat, Pass>, logs: map<nat, seq<Msg>>, offsets: map<nat, nat>,
                         consumers: map<nat, Consumer>, claims: set<Key>, ran: seq<Key>, done: set<Key>,
                         parked: set<Msg>)

  const INIT := State([], map[], map[], map[], map[], {}, [], {}, {})

  function Log(s: State, partition: nat): seq<Msg> {
    if partition in s.logs then s.logs[partition] else []
  }

  function Offset(s: State, partition: nat): nat {
    if partition in s.offsets then s.offsets[partition] else 0
  }

  /** `pending`: the oldest unsent rows, at most `limit`. */
  function Pending(rows: seq<Row>, limit: nat): seq<Key>
    decreases |rows|
  {
    if rows == [] || limit == 0 then []
    else if rows[0].sent then Pending(rows[1..], limit)
    else [rows[0].key] + Pending(rows[1..], limit - 1)
  }

  /** Stamping one row at the end of a pass. */
  function Stamp(row: Row, p: Pass): Row {
    if row.key !in p.taken then row
    else if row.key in p.acked then row.(sent := true)
    else row.(attempts := row.attempts + 1)
  }

  function StampAll(rows: seq<Row>, p: Pass): seq<Row> {
    seq(|rows|, i requires 0 <= i < |rows| => Stamp(rows[i], p))
  }

  /** A message is worth claiming when it names its event and tenant. */
  predicate Claimable(m: Msg) {
    m.Event? && m.key.tenant != "" && m.key.event != ""
  }

  function RowKeys(rows: seq<Row>): set<Key> {
    set r | r in rows :: r.key
  }

  // ---------------------------------------------------------------- steps

  datatype Step =
    | Enqueue(key: Key)
    | RelayStart(r: nat, limit: nat)
    | Produce(r: nat, lands: bool, report: Report)
    | RelayCommit(r: nat)
    | RelayCrash(r: nat)
    | Publish(partition: nat)
    | Join(c: nat, partition: nat)
    | Poll(c: nat)
    | Claim(c: nat)
    | HandlerStart(c: nat)
    | HandlerEnd(c: nat, completes: bool)
    | Park(c: nat, works: bool)
    | Commit(c: nat)
    | Leave(c: nat)

  /** One step; None when it is not enabled. `route` is the broker's partition for a tenant. */
  function Next(route: string -> nat, s: State, step: Step): Option<State> {
    match step
    case Enqueue(key) =>
      if key in RowKeys(s.rows) then None else Some(s.(rows := s.rows + [Row(key, false, 0)]))
    case RelayStart(r, limit) =>
      if r in s.passes then None
      else
        var taken := Pending(s.rows, limit);
        Some(s.(passes := s.passes[r := Pass(taken, taken, {})]))
    case Produce(r, lands, report) => NextProduce(route, s, r, lands, report)
    case RelayCommit(r) =>
      if r !in s.passes || s.passes[r].todo != [] then None
      else Some(s.(rows := StampAll(s.rows, s.passes[r]), passes := s.passes - {r}))
    case RelayCrash(r) =>
      if r !in s.passes then None else Some(s.(passes := s.passes - {r}))
    case Publish(partition) => Some(s.(logs := s.logs[partition := Log(s, partition) + [Junk]]))
    case Join(c, partition) =>
      if c in s.consumers then None
      else Some(s.(consumers := s.consumers[c := Consumer(partition, Offset(s, partition), Waiting)]))
    case Leave(c) => if c !in s.consumers then None else Some(s.(consumers := s.consumers - {c}))
    case Poll(c) => NextPoll(s, c)
    case Claim(c) => NextClaim(s, c)
    case HandlerStart(c) => NextHandlerStart(s, c)
    case HandlerEnd(c, completes) => NextHandlerEnd(s, c, completes)
    case Park(c, works) => NextPark(s, c, works)
    case Commit(c) => NextCommit(s, c)
  }

  /** The idempotent producer appends a row's message at most once a pass. An acknowledged message is in the log;
      one refused or never reported may be there all the same. */
  function NextProduce(route: string -> nat, s: State, r: nat, lands: bool, report: Report): Option<State> {
    if r !in s.passes || s.passes[r].todo == [] || (report.Acknowledged? && !lands) then None
    else
      var p := s.passes[r];
      var key := p.todo[0];
      var acked := if report.Acknowledged? then p.acked + {key} else p.acked;
      var part := route(key.tenant);
      var logs := if lands then s.logs[part := Log(s, part) + [Event(key)]] else s.logs;
      Some(s.(logs := logs, passes := s.passes[r := Pass(p.taken, p.todo[1..], acked)]))
  }

  predicate AtStage(s: State, c: nat, stage: Stage) {
    c in s.consumers && s.consumers[c].stage == stage
  }

  /** The message a consumer is working on. */
  function Current(s: State, c: nat): Option<Msg> {
    if c in s.consumers && s.consumers[c].position < |Log(s, s.consumers[c].partition)|
    then Some(Log(s, s.consumers[c].partition)[s.consumers[c].position]) else None
  }

  function Move(s: State, c: nat, stage: Stage): State
    requires c in s.consumers
  {
    s.(consumers := s.consumers[c := s.consumers[c].(stage := stage)])
  }

  function NextPoll(s: State, c: nat): Option<State> {
    if !AtStage(s, c, Waiting) || Current(s, c).None? then None else Some(Move(s, c, Holding))
  }

  /** `handle_message` up to the claim: the unique key decides. */
  function NextClaim(s: State, c: nat): Option<State> {
    if !AtStage(s, c, Holding) || Current(s, c).None? then None
    else
      var m := Current(s, c).value;
      if !Claimable(m) then Some(Move(s, c, Parking(false)))
      else if m.key in s.claims then Some(Move(s, c, Committing))
      else Some(Move(s.(claims := s.claims + {m.key}), c, Claimed))
  }

  function NextHandlerStart(s: State, c: nat): Option<State> {
    if !AtStage(s, c, Claimed) || Current(s, c).None? || !Claimable(Current(s, c).value) then None
    else Some(Move(s.(ran := s.ran + [Current(s, c).value.key]), c, Handling))
  }

  function NextHandlerEnd(s: State, c: nat, completes: bool): Option<State> {
    if !AtStage(s, c, Handling) || Current(s, c).None? || !Claimable(Current(s, c).value) then None
    else if completes then Some(Move(s.(done := s.done + {Current(s, c).value.key}), c, Committing))
    else Some(Move(s, c, Parking(true)))
  }

  /** The dead-letter topic is written best effort. */
  function NextPark(s: State, c: nat, works: bool): Option<State> {
    if !(AtStage(s, c, Parking(true)) || AtStage(s, c, Parking(false))) || Current(s, c).None? then None
    else Some(Move(s.(parked := if works then s.parked + {Current(s, c).value} else s.parked), c, Committing))
  }

  /** The committed offset becomes this message's successor, forwards or backwards. */
  function NextCommit(s: State, c: nat): Option<State> {
    if !AtStage(s, c, Committing) then None
    else
      var k := s.consumers[c];
      Some(s.(offsets := s.offsets[k.partition := k.position + 1],
              consumers := s.consumers[c := Consumer(k.partition, k.position + 1, Waiting)]))
  }

  // ---------------------------------------------------------------- runs

  /** What an environment rules out.
      - `window`: a consumer crashing after its claim and before the event is handled or parked;
      - `parking`: a failed write to the dead-letter topic. */
  datatype Guards = Guards(window: bool, parking: bool)

  predicate InWindow(k: Consumer) {
    k.stage.Claimed? || k.stage.Handling? || k.stage == Parking(true)
  }

  predicate Allowed(g: Guards, s: State, step: Step) {
    && (g.window && step.Leave? && step.c in s.consumers ==> !InWindow(s.consumers[step.c]))
    && (g.parking && step.Park? ==> step.works)
  }

  function Run(g: Guards, route: string -> nat, s: State, steps: seq<Step>): Option<State>
    decreases |steps|
  {
    if steps == [] then Some(s)
    else if !Allowed(g, s, steps[0]) then None
    else
      var next := Next(route, s, steps[0]);
      if next.None? then None else Run(g, route, next.value, steps[1..])
  }

  // ---------------------------------------------------------------- safety: every run

  ghost predicate InLog(route: string -> nat, s: State, key: Key) {
    Event(key) in Log(s, route(key.tenant))
  }

  /** A row is marked sent only if its message is in the log, and so is whatever a pass was told was delivered. */
  ghost predicate SentIsLogged(route: string -> nat, s: State) {
    && (forall row :: row in s.rows && row.sent ==> InLog(route, s, row.key))
    && (forall r, key :: r in s.passes && key in s.passes[r].acked ==> InLog(route, s, key))
  }

  /** Handlers ran only under a claim, once per key; a claim not yet acted on belongs to one consumer. */
  ghost predicate ClaimsFit(s: State) {
    && Distinct(s.ran)
    && (forall key :: key in s.ran ==> key in s.claims)
    && (forall c :: c in s.consumers && InWindow(s.consumers[c]) ==>
          Current(s, c).Some? && Claimable(Current(s, c).value) && Current(s, c).value.key in s.claims)
    && (forall c :: AtStage(s, c, Claimed) ==> Current(s, c).value.key !in s.ran)
    && (forall c, d :: AtStage(s, c, Claimed) && AtStage(s, d, Claimed) && c != d ==> Current(s, c) != Current(s, d))
  }

  /** Everything downstream comes from a row. */
  ghost predicate FromRows(s: State) {
    && (forall r, key :: r in s.passes && key in s.passes[r].todo ==> key in RowKeys(s.rows))
    && (forall p, m :: p in s.logs && m in s.logs[p] && m.Event? ==> m.key in RowKeys(s.rows))
    && (forall m :: m in s.parked && m.Event? ==> m.key in RowKeys(s.rows))
    && s.done <= RowKeys(s.rows)
  }

  ghost predicate Safe(route: string -> nat, s: State) {
    SentIsLogged(route, s) && ClaimsFit(s) && FromRows(s)
  }

  lemma {:induction false} PendingAreRows(rows: seq<Row>, limit: nat, key: Key)
    requires key in Pending(rows, limit)
    ensures exists row :: row in rows && row.key == key && !row.sent
    decreases |rows|
  {
    if !rows[0].sent && key == rows[0].key {
      assert rows[0] in rows;
    } else {
      PendingAreRows(rows[1..], if rows[0].sent then limit else limit - 1, key);
    }
  }

  lemma StampKeepsKeys(rows: seq<Row>, p: Pass)
    ensures RowKeys(StampAll(rows, p)) == RowKeys(rows)
  {
    forall i | 0 <= i < |rows| ensures StampAll(rows, p)[i].key == rows[i].key {}
    forall key | key in RowKeys(rows) ensures key in RowKeys(StampAll(rows, p)) {
      var i :| 0 <= i < |rows| && rows[i].key == key;
      assert StampAll(rows, p)[i] in StampAll(rows, p);
    }
  }

  /** Logs only grow, rows keep their keys. */
  lemma StepGrows(route: string -> nat, s: State, step: Step)
    requires Next(route, s, step).Some?
    ensures var t := Next(route, s, step).value;
            && (forall p :: Log(s, p) <= Log(t, p)) && RowKeys(s.rows) <= RowKeys(t.rows)
            && s.claims <= t.claims && s.done <= t.done && s.parked <= t.parked && s.ran <= t.ran
  {
    if step.RelayCommit? { StampKeepsKeys(s.rows, s.passes[step.r]); }
  }

  lemma LoggedStaysLogged(route: string -> nat, s: State, step: Step)
    requires Next(route, s, step).Some?
    ensures forall key :: InLog(route, s, key) ==> InLog(route, Next(route, s, step).value, key)
  {
    hide Next;
    var t := Next(route, s, step).value;
    StepGrows(route, s, step);
    forall key | InLog(route, s, key) ensures InLog(route, t, key) {
      assert Log(s, route(key.tenant)) <= Log(t, route(key.tenant));
    }
  }

  /** A pass is told a message was delivered only when it was. */
  lemma ProduceKeepsSent(route: string -> nat, s: State, r: nat, lands: bool, report: Report)
    requires SentIsLogged(route, s) && NextProduce(route, s, r, lands, report).Some?
    ensures SentIsLogged(route, NextProduce(route, s, r, lands, report).value)
  {
    LoggedStaysLogged(route, s, Produce(r, lands, report));
    var t := NextProduce(route, s, r, lands, report).value;
    var key := s.passes[r].todo[0];
    if lands { assert Log(t, route(key.tenant))[|Log(s, route(key.tenant))|] == Event(key); }
  }

  /** A row is stamped only when the pass was told. */
  lemma CommitKeepsSent(route: string -> nat, s: State, r: nat)
    requires SentIsLogged(route, s) && r in s.passes
    ensures SentIsLogged(route, s.(rows := StampAll(s.rows, s.passes[r]), passes := s.passes - {r}))
  {
    var t := s.(rows := StampAll(s.rows, s.passes[r]), passes := s.passes - {r});
    forall row | row in t.rows && row.sent ensures InLog(route, t, row.key) {
      var i :| 0 <= i < |t.rows| && t.rows[i] == row;
      assert row == Stamp(s.rows[i], s.passes[r]) && s.rows[i] in s.rows;
      assert InLog(route, s, row.key);
    }
    forall q, key | q in t.passes && key in t.passes[q].acked ensures InLog(route, t, key) {
      assert InLog(route, s, key);
    }
  }

  lemma StepKeepsSent(route: string -> nat, s: State, step: Step)
    requires SentIsLogged(route, s) && Next(route, s, step).Some?
    ensures SentIsLogged(route, Next(route, s, step).value)
  {
    if step.Produce? {
      ProduceKeepsSent(route, s, step.r, step.lands, step.report);
    } else if step.RelayCommit? {
      CommitKeepsSent(route, s, step.r);
    } else {
      LoggedStaysLogged(route, s, step);
      hide InLog;
    }
  }

  /** Keys still to produce stay keys of rows. */
  lemma StepKeepsTodoFromRows(route: string -> nat, s: State, step: Step)
    requires FromRows(s) && Next(route, s, step).Some?
    ensures var t := Next(route, s, step).value;
            forall r, key :: r in t.passes && key in t.passes[r].todo ==> key in RowKeys(t.rows)
  {
    var t := Next(route, s, step).value;
    StepGrows(route, s, step);
    if step.RelayStart? {
      forall key | key in t.passes[step.r].todo ensures key in RowKeys(t.rows) {
        PendingAreRows(s.rows, step.limit, key);
      }
    }
  }

  /** So do the keys of logged messages. */
  lemma StepKeepsLogFromRows(route: string -> nat, s: State, step: Step)
    requires FromRows(s) && Next(route, s, step).Some?
    ensures var t := Next(route, s, step).value;
            forall p, m :: p in t.logs && m in t.logs[p] && m.Event? ==> m.key in RowKeys(t.rows)
  {
    var t := Next(route, s, step).value;
    StepGrows(route, s, step);
    if step.Produce? { assert s.passes[step.r].todo[0] in s.passes[step.r].todo; }
  }

  lemma StepKeepsFromRows(route: string -> nat, s: State, step: Step)
    requires FromRows(s) && Next(route, s, step).Some?
    requires forall c :: c in s.consumers && Current(s, c).Some? ==>
               Current(s, c).value in Log(s, s.consumers[c].partition)
    ensures FromRows(Next(route, s, step).value)
  {
    var t := Next(route, s, step).value;
    StepGrows(route, s, step);
    StepKeepsTodoFromRows(route, s, step);
    StepKeepsLogFromRows(route, s, step);
    assert t.done <= RowKeys(t.rows) && forall m :: m in t.parked && m.Event? ==> m.key in RowKeys(t.rows);
  }

  lemma CurrentIsLogged(s: State)
    ensures forall c :: c in s.consumers && Current(s, c).Some? ==>
              Current(s, c).value in Log(s, s.consumers[c].partition)
  {
  }

  /** A consumer that did not move still works on the same message. */
  lemma CurrentStays(s: State, t: State, c: nat)
    requires (forall p :: Log(s, p) <= Log(t, p)) && c in s.consumers && c in t.consumers
    requires t.consumers[c].partition == s.consumers[c].partition && t.consumers[c].position == s.consumers[c].position
    requires Current(s, c).Some?
    ensures Current(t, c) == Current(s, c)
  {
    assert Log(s, s.consumers[c].partition) <= Log(t, t.consumers[c].partition);
  }

  /** Consumers in their window stayed put, and none newly claimed. */
  lemma ClaimsFitLater(s: State, t: State)
    requires ClaimsFit(s) && (forall p :: Log(s, p) <= Log(t, p)) && t.claims == s.claims && t.ran == s.ran
    requires forall c :: c in t.consumers && InWindow(t.consumers[c]) ==>
               c in s.consumers && InWindow(s.consumers[c])
                   && (t.consumers[c].stage.Claimed? ==> s.consumers[c].stage.Claimed?)
               && t.consumers[c].partition == s.consumers[c].partition
                   && t.consumers[c].position == s.consumers[c].position
    ensures ClaimsFit(t)
  {
    forall c | c in t.consumers && InWindow(t.consumers[c]) ensures Current(t, c) == Current(s, c) {
      CurrentStays(s, t, c);
    }
  }

  lemma ClaimKeepsClaims(s: State, c: nat)
    requires ClaimsFit(s) && NextClaim(s, c).Some? && NextClaim(s, c).value.claims != s.claims
    ensures ClaimsFit(NextClaim(s, c).value)
  {
    var t := NextClaim(s, c).value;
    forall d | d in s.consumers ensures Current(t, d) == Current(s, d) {}
    var key := Current(s, c).value.key;
    assert key !in s.claims && AtStage(t, c, Claimed);
    forall d | AtStage(t, d, Claimed) && d != c ensures AtStage(s, d, Claimed) && Current(s, d).value.key in s.claims {
      assert InWindow(s.consumers[d]);
    }
  }

  lemma HandlerStartKeepsClaims(s: State, c: nat)
    requires ClaimsFit(s) && NextHandlerStart(s, c).Some?
    ensures ClaimsFit(NextHandlerStart(s, c).value)
  {
    var t := NextHandlerStart(s, c).value;
    forall d | d in s.consumers ensures Current(t, d) == Current(s, d) {}
    var m := Current(s, c).value;
    assert InWindow(s.consumers[c]) && m.key !in s.ran;
    forall d | AtStage(t, d, Claimed) ensures Current(t, d).value.key !in t.ran {
      assert AtStage(s, d, Claimed) && d != c;
      assert InWindow(s.consumers[d]) && Claimable(Current(s, d).value);
      assert Current(s, d) != Current(s, c);
    }
  }

  lemma StepKeepsClaims(route: string -> nat, s: State, step: Step)
    requires ClaimsFit(s) && Next(route, s, step).Some?
    ensures ClaimsFit(Next(route, s, step).value)
  {
    hide ClaimsFit;
    var t := Next(route, s, step).value;
    StepGrows(route, s, step);
    if step.Claim? && t.claims != s.claims {
      ClaimKeepsClaims(s, step.c);
    } else if step.HandlerStart? {
      HandlerStartKeepsClaims(s, step.c);
    } else {
      ClaimsFitLater(s, t);
    }
  }

  /** In every run, whatever crashes: a handler starts at most once per tenant and event, a row marked sent is in
      the log, and nothing is handled or parked that no row announced. */
  lemma {:induction false} DeliveryIsSafe(g: Guards, route: string -> nat, s: State, steps: seq<Step>)
    requires Safe(route, s) && Run(g, route, s, steps).Some?
    ensures Safe(route, Run(g, route, s, steps).value)
    decreases |steps|
  {
    hide Next;
    hide ClaimsFit;
    hide SentIsLogged;
    hide FromRows;
    if steps != [] {
      StepKeepsSent(route, s, steps[0]);
      StepKeepsClaims(route, s, steps[0]);
      CurrentIsLogged(s);
      StepKeepsFromRows(route, s, steps[0]);
      DeliveryIsSafe(g, route, Next(route, s, steps[0]).value, steps[1..]);
    }
  }

  // ---------------------------------------------------------------- completeness

  predicate Resolved(s: State, key: Key) {
    key in s.done || Event(key) in s.parked
  }

  ghost predicate InFlight(s: State, key: Key) {
    exists c :: c in s.consumers && InWindow(s.consumers[c]) && Current(s, c) == Some(Event(key))
  }

  /** Passed over for good: claimed, or parked when it cannot be claimed. */
  predicate Settled(s: State, m: Msg) {
    m.Event? ==> if Claimable(m) then m.key in s.claims else m in s.parked
  }

  ghost predicate SettledBelow(s: State, partition: nat, position: nat) {
    position <= |Log(s, partition)| && forall i :: 0 <= i < position ==> Settled(s, Log(s, partition)[i])
  }

  ghost predicate ConsumerFits(s: State, c: nat) {
    c in s.consumers ==>
      && SettledBelow(s, s.consumers[c].partition, s.consumers[c].position)
      && (!s.consumers[c].stage.Waiting? ==> Current(s, c).Some?)
      && (s.consumers[c].stage == Parking(false) ==> !Claimable(Current(s, c).value))
      && (s.consumers[c].stage.Committing? ==> Settled(s, Current(s, c).value))
  }

  /** Nothing is skipped: what lies below an offset is settled, and what is claimed is resolved or being worked on. */
  ghost predicate NothingSkipped(s: State) {
    && (forall key :: key in s.claims ==> Resolved(s, key) || InFlight(s, key))
    && (forall p :: p in s.offsets ==> SettledBelow(s, p, s.offsets[p]))
    && (forall c :: c in s.consumers ==> ConsumerFits(s, c))
  }

  lemma SettledStays(s: State, t: State, partition: nat, position: nat)
    requires SettledBelow(s, partition, position) && Log(s, partition) <= Log(t, partition)
    requires s.claims <= t.claims && s.parked <= t.parked
    ensures SettledBelow(t, partition, position)
  {
  }

  const CAREFUL := Guards(true, true)

  /** Only the consumer a step names moves, and only its own step moves it. */
  predicate Moves(step: Step, c: nat) {
    (step.Join? || step.Leave? || step.Poll? || step.Claim? || step.HandlerStart? || step.HandlerEnd? || step.Park?
        || step.Commit?)
    && step.c == c
  }

  lemma OthersStay(route: string -> nat, s: State, step: Step, c: nat)
    requires Next(route, s, step).Some? && !Moves(step, c)
    ensures var t := Next(route, s, step).value;
            (c in t.consumers <==> c in s.consumers) && (c in s.consumers ==> t.consumers[c] == s.consumers[c])
  {
  }

  /** A consumer in its window stays in it, or its event becomes resolved. */
  lemma WindowCloses(route: string -> nat, s: State, step: Step, c: nat, key: Key)
    requires Next(route, s, step).Some? && Allowed(CAREFUL, s, step) && Moves(step, c) && c in s.consumers
    requires InWindow(s.consumers[c]) && Current(s, c) == Some(Event(key))
    ensures var t := Next(route, s, step).value;
            Resolved(t, key) || (c in t.consumers && InWindow(t.consumers[c]) && Current(t, c) == Some(Event(key)))
  {
  }

  /** Claimed keys stay resolved or in flight. */
  lemma StepKeepsClaimsAlive(route: string -> nat, s: State, step: Step)
    requires NothingSkipped(s) && Next(route, s, step).Some? && Allowed(CAREFUL, s, step)
    ensures var t := Next(route, s, step).value; forall key :: key in t.claims ==> Resolved(t, key) || InFlight(t, key)
  {
    hide Next;
    hide Allowed;
    hide ConsumerFits;
    hide SettledBelow;
    var t := Next(route, s, step).value;
    StepGrows(route, s, step);
    NewClaimsFly(route, s, step);
    forall key | key in s.claims ensures Resolved(t, key) || InFlight(t, key) {
      if !Resolved(s, key) {
        var c :| c in s.consumers && InWindow(s.consumers[c]) && Current(s, c) == Some(Event(key));
        if Moves(step, c) {
          WindowCloses(route, s, step, c, key);
        } else {
          OthersStay(route, s, step, c);
          CurrentStays(s, t, c);
        }
      }
    }
  }

  lemma NewClaimsFly(route: string -> nat, s: State, step: Step)
    requires Next(route, s, step).Some?
    ensures var t := Next(route, s, step).value; forall key :: key in t.claims && key !in s.claims ==> InFlight(t, key)
  {
    var t := Next(route, s, step).value;
    if step.Claim? && t.claims != s.claims {
      assert Current(t, step.c) == Current(s, step.c) && InWindow(t.consumers[step.c]);
    }
  }

  lemma ConsumerStays(s: State, t: State, c: nat)
    requires ConsumerFits(s, c) && c in s.consumers && c in t.consumers && t.consumers[c] == s.consumers[c]
    requires (forall p :: Log(s, p) <= Log(t, p)) && s.claims <= t.claims && s.parked <= t.parked
    ensures ConsumerFits(t, c)
  {
    SettledStays(s, t, s.consumers[c].partition, s.consumers[c].position);
    if !s.consumers[c].stage.Waiting? { CurrentStays(s, t, c); }
  }

  /** The consumer that moved: what it commits is settled. */
  lemma MovedConsumerFits(route: string -> nat, s: State, step: Step, c: nat)
    requires ConsumerFits(s, c) && ClaimsFit(s) && Next(route, s, step).Some? && Allowed(CAREFUL, s, step)
    requires Moves(step, c)
    requires c in s.consumers && !step.Commit?
    ensures ConsumerFits(Next(route, s, step).value, c)
  {
    var t := Next(route, s, step).value;
    if c in t.consumers {
      StepGrows(route, s, step);
      SettledStays(s, t, s.consumers[c].partition, s.consumers[c].position);
      assert Current(t, c) == Current(s, c);
      if step.Park? && s.consumers[c].stage == Parking(true) { assert InWindow(s.consumers[c]); }
      if step.HandlerEnd? { assert InWindow(s.consumers[c]); }
    }
  }

  lemma CommitFits(s: State, c: nat)
    requires ConsumerFits(s, c) && NextCommit(s, c).Some?
    ensures var t := NextCommit(s, c).value;
            SettledBelow(t, s.consumers[c].partition, s.consumers[c].position + 1) && ConsumerFits(t, c)
  {
    var t := NextCommit(s, c).value;
    SettledStays(s, t, s.consumers[c].partition, s.consumers[c].position);
  }

  lemma StepKeepsConsumer(route: string -> nat, s: State, step: Step, c: nat)
    requires NothingSkipped(s) && ClaimsFit(s) && Next(route, s, step).Some? && Allowed(CAREFUL, s, step)
    ensures ConsumerFits(Next(route, s, step).value, c)
  {
    hide ClaimsFit;
    hide SettledBelow;
    hide Settled;
    var t := Next(route, s, step).value;
    StepGrows(route, s, step);
    if !Moves(step, c) {
      OthersStay(route, s, step, c);
      if c in s.consumers { ConsumerStays(s, t, c); }
    } else if step.Commit? {
      CommitFits(s, c);
    } else if step.Join? {
      OffsetIsSettled(s, step.partition);
      SettledStays(s, t, step.partition, Offset(s, step.partition));
    } else if c in s.consumers {
      MovedConsumerFits(route, s, step, c);
    }
  }

  lemma OffsetIsSettled(s: State, partition: nat)
    requires NothingSkipped(s)
    ensures SettledBelow(s, partition, Offset(s, partition))
  {
  }

  lemma StepKeepsOffsets(route: string -> nat, s: State, step: Step)
    requires NothingSkipped(s) && Next(route, s, step).Some?
    ensures var t := Next(route, s, step).value; forall p :: p in t.offsets ==> SettledBelow(t, p, t.offsets[p])
  {
    hide SettledBelow;
    var t := Next(route, s, step).value;
    StepGrows(route, s, step);
    forall p | p in s.offsets ensures SettledBelow(t, p, s.offsets[p]) { SettledStays(s, t, p, s.offsets[p]); }
    if step.Commit? { CommitFits(s, step.c); }
  }

  lemma StepSkipsNothing(route: string -> nat, s: State, step: Step)
    requires NothingSkipped(s) && ClaimsFit(s) && Next(route, s, step).Some? && Allowed(CAREFUL, s, step)
    ensures NothingSkipped(Next(route, s, step).value)
  {
    hide Next;
    StepKeepsClaimsAlive(route, s, step);
    StepKeepsOffsets(route, s, step);
    forall c | c in Next(route, s, step).value.consumers ensures ConsumerFits(Next(route, s, step).value, c) {
      StepKeepsConsumer(route, s, step, c);
    }
  }

  lemma {:induction false} RunSkipsNothing(route: string -> nat, s: State, steps: seq<Step>)
    requires Safe(route, s) && NothingSkipped(s) && Run(CAREFUL, route, s, steps).Some?
    ensures NothingSkipped(Run(CAREFUL, route, s, steps).value)
    decreases |steps|
  {
    hide Next;
    hide NothingSkipped;
    if steps != [] {
      var one := [steps[0]];
      assert one[1..] == [] && Run(CAREFUL, route, s, one) == Next(route, s, steps[0]);
      DeliveryIsSafe(CAREFUL, route, s, one);
      StepSkipsNothing(route, s, steps[0]);
      RunSkipsNothing(route, Next(route, s, steps[0]).value, steps[1..]);
    }
  }

  /** No row is unsent, every offset is at the end of its log and no consumer is busy. */
  ghost predicate Quiet(s: State) {
    && (forall row :: row in s.rows ==> row.sent)
    && (forall p :: p in s.logs ==> Offset(s, p) >= |s.logs[p]|)
    && (forall c :: c in s.consumers ==> s.consumers[c].stage.Waiting?)
  }

  function ParkedKeys(s: State): set<Key> {
    set m | m in s.parked && m.Event? :: m.key
  }

  /** When everything is quiet, what was handled to the end or parked is exactly what was enqueued. */
  lemma QuietMeansComplete(route: string -> nat, s: State)
    requires Safe(route, s) && NothingSkipped(s) && Quiet(s)
    ensures s.done + ParkedKeys(s) == RowKeys(s.rows)
  {
    forall key | key in RowKeys(s.rows) ensures key in s.done + ParkedKeys(s) {
      var row :| row in s.rows && row.key == key;
      assert InLog(route, s, key);
      var p := route(key.tenant);
      OffsetIsSettled(s, p);
      var i :| 0 <= i < |Log(s, p)| && Log(s, p)[i] == Event(key);
      assert Settled(s, Log(s, p)[i]);
      assert key in s.claims ==> Resolved(s, key);
    }
  }

  /** Every quiet state the environment allows is complete, for every routing of tenants to partitions. */
  ghost predicate DeliversAll(g: Guards) {
    forall route: string -> nat, steps: seq<Step> ::
      Run(g, route, INIT, steps).Some? && Quiet(Run(g, route, INIT, steps).value) ==>
        var t := Run(g, route, INIT, steps).value; t.done + ParkedKeys(t) == RowKeys(t.rows)
  }

  lemma CarefulDeliversAll()
    ensures DeliversAll(CAREFUL)
  {
    forall route: string -> nat, steps: seq<Step>
      | Run(CAREFUL, route, INIT, steps).Some? && Quiet(Run(CAREFUL, route, INIT, steps).value)
      ensures var t := Run(CAREFUL, route, INIT, steps).value; t.done + ParkedKeys(t) == RowKeys(t.rows)
    {
      DeliveryIsSafe(CAREFUL, route, INIT, steps);
      RunSkipsNothing(route, INIT, steps);
      QuietMeansComplete(route, Run(CAREFUL, route, INIT, steps).value);
    }
  }

  // ---------------------------------------------------------------- each premise is needed

  lemma {:induction false} RunConcat(g: Guards, route: string -> nat, s: State, a: seq<Step>, b: seq<Step>)
    requires Run(g, route, s, a).Some?
    ensures Run(g, route, s, a + b) == Run(g, route, Run(g, route, s, a).value, b)
    decreases |a|
  {
    hide Next;
    if a == [] {
      assert a + b == b;
    } else {
      assert (a + b)[0] == a[0] && (a + b)[1..] == a[1..] + b;
      RunConcat(g, route, Next(route, s, a[0]).value, a[1..], b);
    }
  }

  ghost predicate Reached(g: Guards, route: string -> nat, s: State) {
    exists steps: seq<Step> :: Run(g, route, INIT, steps) == Some(s)
  }

  lemma ReachNext(g: Guards, route: string -> nat, s: State, step: Step) returns (t: State)
    requires Reached(g, route, s) && Allowed(g, s, step) && Next(route, s, step).Some?
    ensures t == Next(route, s, step).value && Reached(g, route, t)
  {
    hide Next;
    hide Allowed;
    t := Next(route, s, step).value;
    var steps :| Run(g, route, INIT, steps) == Some(s);
    RunConcat(g, route, INIT, steps, [step]);
    assert [step][1..] == [] && Run(g, route, t, []) == Some(t);
    assert Run(g, route, s, [step]) == Some(t);
  }

  /** One event, relayed and stamped, with a consumer holding it. */
  lemma OneEventClaimed(g: Guards, route: string -> nat, key: Key) returns (s: State)
    requires key.tenant != "" && key.event != ""
    ensures Reached(g, route, s) && s.rows == [Row(key, true, 0)] && s.logs == map[route(key.tenant) := [Event(key)]]
    ensures s.offsets == map[] && s.consumers == map[0 := Consumer(route(key.tenant), 0, Claimed)]
    ensures s.claims == {key} && s.done == {} && s.parked == {}
  {
    hide Reached;
    s := OneEventRelayed(g, route, key);
    s := ReachNext(g, route, s, Join(0, route(key.tenant)));
    s := ReachNext(g, route, s, Poll(0));
    s := ReachNext(g, route, s, Claim(0));
  }

  lemma OneEventRelayed(g: Guards, route: string -> nat, key: Key) returns (s: State)
    ensures Reached(g, route, s)
    ensures s == INIT.(rows := [Row(key, true, 0)], logs := map[route(key.tenant) := [Event(key)]])
  {
    assert Run(g, route, INIT, []) == Some(INIT);
    hide Reached;
    var row := Row(key, false, 0);
    assert Pending([row], 1) == [key] by { assert [row][1..] == [] && [key] + [] == [key] && Pending([], 0) == []; }
    s := ReachNext(g, route, INIT, Enqueue(key));
    assert s.rows == [row];
    s := ReachNext(g, route, s, RelayStart(0, 1));
    s := ReachNext(g, route, s, Produce(0, true, Acknowledged));
    assert s.passes[0] == Pass([key], [], {key}) && [] + [Event(key)] == [Event(key)];
    s := ReachNext(g, route, s, RelayCommit(0));
    assert s.passes == map[] && s.rows == [Row(key, true, 0)];
  }

  lemma Incomplete(g: Guards, route: string -> nat, s: State, key: Key)
    requires Reached(g, route, s) && Quiet(s) && key in RowKeys(s.rows) && s.done == {} && s.parked == {}
    ensures !DeliversAll(g)
  {
    assert key !in s.done + ParkedKeys(s);
    var steps :| Run(g, route, INIT, steps) == Some(s);
  }

  const SAMPLE := Key("t", "e")

  lemma QuietAtTheEnd(g: Guards, route: string -> nat, s: State)
    requires Reached(g, route, s) && s.rows == [Row(SAMPLE, true, 0)] && s.logs == map[0 := [Event(SAMPLE)]]
    requires s.offsets == map[0 := 1] && s.done == {} && s.parked == {}
    requires forall c :: c in s.consumers ==> s.consumers[c].stage.Waiting?
    ensures !DeliversAll(g)
  {
    hide Reached;
    assert s.rows[0] in s.rows;
    Incomplete(g, route, s, SAMPLE);
  }

  /** A crash between claim and handler: the redelivered event is taken for a duplicate. */
  lemma CrashInWindowLoses(g: Guards, route: string -> nat)
    requires !g.window && route("t") == 0
    ensures !DeliversAll(g)
  {
    hide Reached;
    var s := OneEventClaimed(g, route, SAMPLE);
    s := ReachNext(g, route, s, Leave(0));
    assert s.consumers == map[];
    s := ReachNext(g, route, s, Join(1, 0));
    assert s.consumers == map[1 := Consumer(0, 0, Waiting)];
    s := TakenForADuplicate(g, route, s);
    QuietAtTheEnd(g, route, s);
  }

  lemma TakenForADuplicate(g: Guards, route: string -> nat, s0: State) returns (s: State)
    requires Reached(g, route, s0) && s0.logs == map[0 := [Event(SAMPLE)]] && s0.offsets == map[]
    requires s0.consumers == map[1 := Consumer(0, 0, Waiting)] && SAMPLE in s0.claims
    ensures Reached(g, route, s)
    ensures s == s0.(offsets := map[0 := 1], consumers := map[1 := Consumer(0, 1, Waiting)])
  {
    hide Reached;
    s := ReachNext(g, route, s0, Poll(1));
    s := ReachNext(g, route, s, Claim(1));
    assert s.consumers == map[1 := Consumer(0, 0, Committing)];
    s := ReachNext(g, route, s, Commit(1));
  }

  /** A failing handler whose event cannot be dead-lettered either. */
  lemma FailedParkingLoses(g: Guards, route: string -> nat)
    requires !g.parking && route("t") == 0
    ensures !DeliversAll(g)
  {
    hide Reached;
    var s := OneEventClaimed(g, route, SAMPLE);
    s := FailsUnparked(g, route, s);
    QuietAtTheEnd(g, route, s);
  }

  lemma Fails(g: Guards, route: string -> nat, s0: State) returns (s: State)
    requires Reached(g, route, s0) && s0.logs == map[0 := [Event(SAMPLE)]]
    requires s0.consumers == map[0 := Consumer(0, 0, Claimed)]
    ensures Reached(g, route, s)
    ensures s == s0.(ran := s0.ran + [SAMPLE], consumers := map[0 := Consumer(0, 0, Parking(true))])
  {
    hide Reached;
    s := ReachNext(g, route, s0, HandlerStart(0));
    s := ReachNext(g, route, s, HandlerEnd(0, false));
  }

  lemma FailsUnparked(g: Guards, route: string -> nat, s0: State) returns (s: State)
    requires !g.parking && Reached(g, route, s0) && s0.logs == map[0 := [Event(SAMPLE)]] && s0.offsets == map[]
    requires s0.consumers == map[0 := Consumer(0, 0, Claimed)]
    ensures Reached(g, route, s)
    ensures s == s0.(ran := s0.ran + [SAMPLE], offsets := map[0 := 1], consumers := map[0 := Consumer(0, 1, Waiting)])
  {
    hide Reached;
    s := Fails(g, route, s0);
    s := ReachNext(g, route, s, Park(0, false));
    s := ReachNext(g, route, s, Commit(0));
  }

  /** Quiet states are complete exactly when no consumer crashes inside its window and parking works. */
  lemma DeliversAllIff(g: Guards)
    ensures DeliversAll(g) <==> g.window && g.parking
  {
    if !g.window { CrashInWindowLoses(g, (tenant: string) => 0); }
    else if !g.parking { FailedParkingLoses(g, (tenant: string) => 0); }
    else { CarefulDeliversAll(); }
  }
}
