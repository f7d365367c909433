/** The collaborative-editing hub: per document a merged state, an append-only history and a counter that stamps
    edits together with the wall clock. */
module CollabHub {
  import opened Common
  import opened Crdt

  const WALL_LIMIT := 1000000000000.0

  /** The wall clock in seconds, as `time.time()` reports it for any date the stamp was designed for. */
  predicate Plausible(wall: real) {
    0.0 <= wall < WALL_LIMIT
  }

  /** `_next_ts` for a counter value. */
  function Stamp(clock: nat, wall: real): real {
    clock as real + wall / WALL_LIMIT
  }

  /** Exactly when an edit's stamp is above the one before it: the clock went back by less than the limit. */
  lemma NextStampIsHigherIff(c: nat, w: real, x: real)
    ensures Stamp(c, w) < Stamp(c + 1, x) <==> w - x < WALL_LIMIT
  {
  }

  /** The document as of the last of a list of change sets. */
  function Folded(changes: seq<Plain>): Plain {
    if changes == [] then map[] else Folded(changes[..|changes| - 1]) + changes[|changes| - 1]
  }

  ghost predicate Numbered(history: seq<Version>) {
    forall i :: 0 <= i < |history| ==> history[i].version == history[0].version + i
  }

  /** The k-th version holds the first k change sets folded. */
  ghost predicate Records(history: seq<Version>, changes: seq<Plain>) {
    |changes| == |history| && forall i :: 0 <= i < |history| ==> history[i].doc == Folded(changes[..i + 1])
  }

  lemma RecordsOneMore(history: seq<Version>, changes: seq<Plain>, edit: Plain, version: int)
    requires Records(history, changes)
    ensures Records(history + [Version(version, Folded(changes) + edit)], changes + [edit])
    ensures Folded(changes + [edit]) == Folded(changes) + edit
  {
    var more := changes + [edit];
    assert more[..|changes|] == changes && more[..|more|] == more;
    forall i | 0 <= i < |history| ensures history[i].doc == Folded(more[..i + 1]) {
      assert more[..i + 1] == changes[..i + 1];
    }
  }

  // ---------------------------------------------------------------- what the calls do to one document

  /** A document as its callers can see it. */
  datatype Snap = Snap(state: Doc, history: seq<Version>, clock: nat)

  const BLANK := Snap(map[], [], 0)

  datatype Event =
    | Seeded(initial: Plain, wall: real)
    | Edited(actor: string, changes: Plain, wall: real)
    | Restored(version: int, actor: string, wall: real)
    | Looked

  /** Seeding, editing, restoring and reading; a reading call only makes sure the document exists. */
  function Apply(s: Snap, e: Event): Snap {
    match e
    case Looked => s
    case Seeded(initial, wall) =>
      if s.history != [] then s
      else
        var state := ToCrdt(initial, Stamp(s.clock + 1, wall), "__seed__");
        Snap(state, [Version(0, ToPlain(state))], s.clock + 1)
    case Edited(actor, changes, wall) => ApplyChanges(s, actor, changes, wall)
    case Restored(version, actor, wall) =>
      var past := AsOf(s.history, version);
      if past.None? then s else ApplyChanges(s, actor, past.value, wall)
  }

  function ApplyChanges(s: Snap, actor: string, changes: Plain, wall: real): Snap {
    var state := ApplyEdit(s.state, changes, Stamp(s.clock + 1, wall), actor);
    Snap(state, s.history + [Version(NextVersion(s.history), ToPlain(state))], s.clock + 1)
  }

  function NextVersion(history: seq<Version>): int {
    if history != [] then history[|history| - 1].version + 1 else 1
  }

  /** The fields an edit wins carry its stamp, and no stamp is above the edit's. */
  lemma HigherEditStamps(doc: Doc, changes: Plain, ts: real, actor: string, bound: real)
    requires Above(doc, ts) && ts < bound
    ensures var r := ApplyEdit(doc, changes, ts, actor);
            Above(r, bound) && forall k :: k in changes ==> k in r && r[k] == Field(changes[k], ts, actor)
  {
  }

  class Document {
    var state: Doc
    var history: seq<Version>
    var clock: nat
    ghost var changes: seq<Plain>

    constructor ()
      ensures Valid() && Snapshot() == BLANK && changes == []
    {
      state, history, clock, changes := map[], [], 0, [];
    }

    function Snapshot(): Snap
      reads this
    {
      Snap(state, history, clock)
    }

    /** Versions count up by one; the k-th holds the first k change sets folded; the state is the last version; every
        stamp given out so far is below the next counter value. */
    ghost predicate Valid()
      reads this
    {
      && Numbered(history) && (history != [] ==> 0 <= history[0].version)
      && Records(history, changes)
      && ToPlain(state) == Folded(changes)
      && Above(state, (clock + 1) as real)
    }

    /** `_next_ts` */
    method NextTs(wall: real) returns (ts: real)
      modifies this`clock
      ensures clock == old(clock) + 1 && ts == Stamp(clock, wall)
    {
      clock := clock + 1;
      ts := Stamp(clock, wall);
    }

    /** `seed`: only a document without history is seeded. */
    method Seed(initial: Plain, wall: real)
      requires Valid() && Plausible(wall)
      modifies this
      ensures Valid()
      ensures old(history) != [] ==> state == old(state) && history == old(history) && clock == old(clock)
      ensures old(history) == [] ==> history == [Version(0, initial)] && ToPlain(state) == initial
      ensures Snapshot() == Apply(old(Snapshot()), Seeded(initial, wall))
    {
      if history == [] {
        var ts := NextTs(wall);
        state := ToCrdt(initial, ts, "__seed__");
        history := [Version(0, ToPlain(state))];
        changes := [initial];
        StampBelowNext(clock, wall);
        assert changes[..1] == changes && changes[..0] == [] && map[] + initial == initial;
        assert ToPlain(state) == initial;
      }
    }

    /** `edit`: every changed field takes the edit's value, every other field stays, and a version is appended. */
    method Edit(actor: string, edit: Plain, wall: real) returns (version: int)
      requires Valid() && Plausible(wall)
      modifies this
      ensures Valid()
      ensures ToPlain(state) == ToPlain(old(state)) + edit
      ensures version == NextVersion(old(history))
      ensures history == old(history) + [Version(version, ToPlain(state))]
      ensures changes == old(changes) + [edit] && clock == old(clock) + 1
      ensures forall k :: k in edit ==> state[k] == Field(edit[k], Stamp(clock, wall), actor)
      ensures Snapshot() == Apply(old(Snapshot()), Edited(actor, edit, wall))
    {
      hide Folded;
      hide ApplyEdit;
      hide ToPlain;
      hide Records;
      var ts := NextTs(wall);
      StampAboveCounter(clock, wall);
      StampBelowNext(clock, wall);
      HigherEditWins(state, edit, ts, actor);
      HigherEditStamps(state, edit, ts, actor, (clock + 1) as real);
      state := ApplyEditLoop(state, edit, ts, actor);
      version := NextVersion(history);
      RecordsOneMore(history, changes, edit, version);
      history := history + [Version(version, ToPlain(state))];
      changes := changes + [edit];
    }

    method ReadAsOf(version: int) returns (doc: Option<Plain>)
      ensures doc == AsOf(history, version)
    {
      doc := DocAsOf(history, version);
    }

    /** `restore`: nothing happens for a version before the first; otherwise the past fields come back in a new
        version on top, and fields added since stay. */
    method Restore(version: int, actor: string, wall: real) returns (made: Option<int>)
      requires Valid() && Plausible(wall)
      modifies this
      ensures Valid()
      ensures made.None? <==> AsOf(old(history), version).None?
      ensures made.None? ==> history == old(history) && state == old(state) && clock == old(clock)
      ensures made.Some? ==>
                var past := AsOf(old(history), version).value;
                && ToPlain(state) == ToPlain(old(state)) + past
                && history == old(history) + [Version(made.value, ToPlain(state))]
      ensures Snapshot() == Apply(old(Snapshot()), Restored(version, actor, wall))
    {
      var past := ReadAsOf(version);
      if past.None? { return None; }
      var v := Edit(actor, past.value, wall);
      made := Some(v);
    }
  }

  /** A counter's stamp is at or above the counter. */
  lemma StampAboveCounter(clock: nat, wall: real)
    requires Plausible(wall)
    ensures clock as real <= Stamp(clock, wall)
  {
  }

  lemma StampBelowNext(clock: nat, wall: real)
    requires Plausible(wall)
    ensures Stamp(clock, wall) < (clock + 1) as real
  {
  }

  /** Reading a version that exists gives that version's document, however long the history has grown. */
  lemma VersionsReadBack(history: seq<Version>, i: nat)
    requires Numbered(history) && i < |history|
    ensures AsOf(history, history[i].version) == Some(history[i].doc)
  {
    var front, rest := history[..i + 1], history[i + 1..];
    assert history == front + rest;
    forall j | 0 <= j < |rest| ensures rest[j].version > history[i].version { assert rest[j] == history[i + 1 + j]; }
    AsOfIsStable(front, rest, history[i].version);
    assert Ascending(front) && front[|front| - 1] == history[i];
    LatestOfSorted(front, history[i].version);
  }

  /** Whatever the change sets, a field holds what the last of them to mention it said. */
  lemma LastMentionDecides(changes: seq<Plain>, i: nat, k: string)
    requires i < |changes| && k in changes[i] && forall j :: i < j < |changes| ==> k !in changes[j]
    ensures k in Folded(changes) && Folded(changes)[k] == changes[i][k]
  {
  }

  // ---------------------------------------------------------------- runs of the hub

  /** Tenant and document id. */
  type Key = (string, string)

  type Snaps = map<Key, Snap>

  datatype Call = Call(key: Key, event: Event)

  function At(h: Snaps, key: Key): Snap {
    if key in h then h[key] else BLANK
  }

  function Next(h: Snaps, call: Call): Snaps {
    h[call.key := Apply(At(h, call.key), call.event)]
  }

  function Run(h: Snaps, calls: seq<Call>): Snaps
    decreases |calls|
  {
    if calls == [] then h else Run(Next(h, calls[0]), calls[1..])
  }

  /** One document's own run. */
  function RunAlone(s: Snap, events: seq<Event>): Snap
    decreases |events|
  {
    if events == [] then s else RunAlone(Apply(s, events[0]), events[1..])
  }

  /** The calls that name this document. */
  function Own(calls: seq<Call>, key: Key): seq<Event>
    decreases |calls|
  {
    if calls == [] then []
    else (if calls[0].key == key then [calls[0].event] else []) + Own(calls[1..], key)
  }

  /** Tenants are isolated: in every run of the hub a document is what its own calls alone would have made it, and it
      exists exactly when it did or some call named it. */
  lemma {:induction false} DocumentsAreIsolated(h: Snaps, calls: seq<Call>, key: Key)
    ensures At(Run(h, calls), key) == RunAlone(At(h, key), Own(calls, key))
    ensures key in Run(h, calls) <==> key in h || Own(calls, key) != []
    decreases |calls|
  {
    hide Apply;
    if calls != [] {
      DocumentsAreIsolated(Next(h, calls[0]), calls[1..], key);
      if calls[0].key == key {
        var own := Own(calls, key);
        assert own[0] == calls[0].event && own[1..] == Own(calls[1..], key);
      } else {
        assert Own(calls, key) == Own(calls[1..], key);
      }
    }
  }

  lemma ApplyAppends(s: Snap, e: Event)
    requires Numbered(s.history)
    ensures Numbered(Apply(s, e).history) && s.history <= Apply(s, e).history
  {
  }

  lemma {:induction false} RunAloneAppends(s: Snap, events: seq<Event>)
    requires Numbered(s.history)
    ensures Numbered(RunAlone(s, events).history) && s.history <= RunAlone(s, events).history
    decreases |events|
  {
    hide Apply;
    if events != [] {
      ApplyAppends(s, events[0]);
      RunAloneAppends(Apply(s, events[0]), events[1..]);
    }
  }

  /** History is append-only: whatever calls follow, on this document or others, at whatever clock readings, reading
      a version that exists gives the same document for ever. */
  lemma VersionsNeverChange(before: seq<Call>, after: seq<Call>, key: Key, i: nat)
    requires i < |At(Run(map[], before), key).history|
    ensures var h := Run(map[], before);
            var version := At(h, key).history[i];
            && AsOf(At(h, key).history, version.version) == Some(version.doc)
            && AsOf(At(Run(h, after), key).history, version.version) == Some(version.doc)
  {
    var h := Run(map[], before);
    DocumentsAreIsolated(map[], before, key);
    RunAloneAppends(BLANK, Own(before, key));
    DocumentsAreIsolated(h, after, key);
    RunAloneAppends(At(h, key), Own(after, key));
    VersionsReadBack(At(h, key).history, i);
    VersionsReadBack(At(Run(h, after), key).history, i);
  }

  predicate HasPlausibleWall(e: Event) {
    match e
    case Seeded(_, wall) => Plausible(wall)
    case Edited(_, _, wall) => Plausible(wall)
    case Restored(_, _, wall) => Plausible(wall)
    case Looked => true
  }

  /** Every stamp given out is below the next counter value. */
  predicate Stamped(s: Snap) {
    Above(s.state, (s.clock + 1) as real)
  }

  lemma ChangesWin(s: Snap, actor: string, changes: Plain, wall: real)
    requires Stamped(s) && Plausible(wall)
    ensures Stamped(ApplyChanges(s, actor, changes, wall))
    ensures ToPlain(ApplyChanges(s, actor, changes, wall).state) == ToPlain(s.state) + changes
  {
    StampAboveCounter(s.clock + 1, wall);
    StampBelowNext(s.clock + 1, wall);
    HigherEditWins(s.state, changes, Stamp(s.clock + 1, wall), actor);
  }

  lemma ApplyKeepsStamped(s: Snap, e: Event)
    requires Stamped(s) && HasPlausibleWall(e)
    ensures Stamped(Apply(s, e))
  {
    hide ApplyChanges;
    match e
    case Looked =>
    case Seeded(initial, wall) => StampBelowNext(s.clock + 1, wall);
    case Edited(actor, changes, wall) => ChangesWin(s, actor, changes, wall);
    case Restored(version, actor, wall) =>
      var past := AsOf(s.history, version);
      if past.Some? { ChangesWin(s, actor, past.value, wall); }
  }

  lemma {:induction false} RunAloneKeepsStamped(s: Snap, events: seq<Event>)
    requires Stamped(s) && forall e :: e in events ==> HasPlausibleWall(e)
    ensures Stamped(RunAlone(s, events))
    decreases |events|
  {
    hide Apply;
    if events != [] {
      ApplyKeepsStamped(s, events[0]);
      RunAloneKeepsStamped(Apply(s, events[0]), events[1..]);
    }
  }

  lemma {:induction false} OwnWalls(calls: seq<Call>, key: Key)
    requires forall c :: c in calls ==> HasPlausibleWall(c.event)
    ensures forall e :: e in Own(calls, key) ==> HasPlausibleWall(e)
    decreases |calls|
  {
    if calls != [] { OwnWalls(calls[1..], key); }
  }

  /** Restoring brings a version back after any run: each of its fields reads as it did then, fields it did not have
      stay, the version itself is still there, and no other document notices. */
  lemma RestoreBringsBack(calls: seq<Call>, key: Key, i: nat, actor: string, wall: real)
    requires (forall c :: c in calls ==> HasPlausibleWall(c.event)) && Plausible(wall)
    requires i < |At(Run(map[], calls), key).history|
    ensures var h := Run(map[], calls);
            var version := At(h, key).history[i];
            var r := Next(h, Call(key, Restored(version.version, actor, wall)));
            && ToPlain(r[key].state) == ToPlain(At(h, key).state) + version.doc
            && r[key].history[..|At(h, key).history|] == At(h, key).history
            && forall other :: other != key ==> At(r, other) == At(h, other)
  {
    var h := Run(map[], calls);
    var s := At(h, key);
    DocumentsAreIsolated(map[], calls, key);
    OwnWalls(calls, key);
    RunAloneKeepsStamped(BLANK, Own(calls, key));
    RunAloneAppends(BLANK, Own(calls, key));
    VersionsReadBack(s.history, i);
    ChangesWin(s, actor, s.history[i].doc, wall);
  }

  /** The hub itself: one document per tenant and id. */
  class Hub {
    var docs: map<Key, Document>

    constructor ()
      ensures Valid() && docs == map[]
    {
      docs := map[];
    }

    ghost predicate Valid()
      reads this, docs.Values
    {
      && (forall a, b :: a in docs && b in docs && a != b ==> docs[a] != docs[b])
      && (forall a :: a in docs ==> docs[a].Valid())
    }

    /** The documents as their callers see them. */
    ghost function Contents(): Snaps
      reads this, docs.Values
    {
      map key | key in docs :: docs[key].Snapshot()
    }

    /** `_doc` */
    method Doc(tenant: string, id: string) returns (doc: Document)
      requires Valid()
      modifies this
      ensures Valid() && (tenant, id) in docs && docs[(tenant, id)] == doc
      ensures (tenant, id) in old(docs) ==> docs == old(docs)
      ensures (tenant, id) !in old(docs) ==> fresh(doc) && docs == old(docs)[(tenant, id) := doc]
      ensures Contents() == Next(old(Contents()), Call((tenant, id), Looked))
    {
      hide Document.Valid;
      hide Document.Snapshot;
      var key := (tenant, id);
      ghost var before := Contents();
      if key !in docs {
        var made := new Document();
        docs := docs[key := made];
        assert Contents() == before[key := BLANK];
      } else {
        assert before[key := before[key]] == before;
      }
      doc := docs[key];
    }

    /** `seed` */
    method Seed(tenant: string, id: string, initial: Plain, wall: real)
      requires Valid() && Plausible(wall)
      modifies this, docs.Values
      ensures Valid() && docs.Keys == old(docs).Keys + {(tenant, id)}
      ensures Contents() == Next(old(Contents()), Call((tenant, id), Seeded(initial, wall)))
    {
      hide Document.Valid;
      hide Document.Snapshot;
      hide Apply;
      ghost var before := Contents();
      var doc := Doc(tenant, id);
      assert forall a :: a in docs && a != (tenant, id) ==> docs[a] != doc;
      Looking(before, (tenant, id), Seeded(initial, wall));
      ghost var looked := Contents();
      doc.Seed(initial, wall);
      OnlyOneChanged(looked, Contents(), (tenant, id), doc.Snapshot());
    }

    /** `edit` */
    method Edit(tenant: string, id: string, actor: string, edit: Plain, wall: real) returns (version: int)
      requires Valid() && Plausible(wall)
      modifies this, docs.Values
      ensures Valid() && docs.Keys == old(docs).Keys + {(tenant, id)}
      ensures Contents() == Next(old(Contents()), Call((tenant, id), Edited(actor, edit, wall)))
      ensures version == NextVersion(At(old(Contents()), (tenant, id)).history)
      ensures ToPlain(docs[(tenant, id)].state) == ToPlain(At(old(Contents()), (tenant, id)).state) + edit
      ensures forall a :: a in old(docs) ==> docs[a] == old(docs[a])
    {
      hide Document.Valid;
      hide Document.Snapshot;
      hide Apply;
      ghost var before := Contents();
      var doc := Doc(tenant, id);
      assert forall a :: a in docs && a != (tenant, id) ==> docs[a] != doc;
      Looking(before, (tenant, id), Edited(actor, edit, wall));
      ghost var looked := Contents();
      SnapshotHistory(doc);
      hide ToPlain;
      version := doc.Edit(actor, edit, wall);
      OnlyOneChanged(looked, Contents(), (tenant, id), doc.Snapshot());
    }

    /** `doc_as_of` */
    method ReadAsOf(tenant: string, id: string, version: int) returns (past: Option<Plain>)
      requires Valid()
      modifies this
      ensures Valid() && Contents() == Next(old(Contents()), Call((tenant, id), Looked))
      ensures past == AsOf(At(old(Contents()), (tenant, id)).history, version)
    {
      hide Document.Valid;
      hide AsOf;
      ghost var before := Contents();
      var doc := Doc(tenant, id);
      assert doc.Snapshot() == Contents()[(tenant, id)] == At(before, (tenant, id));
      past := doc.ReadAsOf(version);
    }

    /** `restore` */
    method Restore(tenant: string, id: string, version: int, actor: string, wall: real) returns (made: Option<int>)
      requires Valid() && Plausible(wall)
      modifies this, docs.Values
      ensures Valid() && docs.Keys == old(docs).Keys + {(tenant, id)}
      ensures Contents() == Next(old(Contents()), Call((tenant, id), Restored(version, actor, wall)))
      ensures made.None? <==> AsOf(At(old(Contents()), (tenant, id)).history, version).None?
    {
      hide Document.Valid;
      hide Document.Snapshot;
      hide Apply;
      ghost var before := Contents();
      var doc := Doc(tenant, id);
      assert forall a :: a in docs && a != (tenant, id) ==> docs[a] != doc;
      Looking(before, (tenant, id), Restored(version, actor, wall));
      ghost var looked := Contents();
      SnapshotHistory(doc);
      made := doc.Restore(version, actor, wall);
      OnlyOneChanged(looked, Contents(), (tenant, id), doc.Snapshot());
    }
  }

  lemma SnapshotHistory(doc: Document)
    ensures doc.Snapshot().history == doc.history && doc.Snapshot().state == doc.state
  {
  }

  lemma OnlyOneChanged(h: Snaps, r: Snaps, key: Key, s: Snap)
    requires r.Keys == h.Keys && key in h && r[key] == s
    requires forall other :: other in h && other != key ==> r[other] == h[other]
    ensures r == h[key := s]
  {
  }

  /** Looking a document up first changes nothing about the call. */
  lemma Looking(h: Snaps, key: Key, e: Event)
    ensures Next(Next(h, Call(key, Looked)), Call(key, e)) == Next(h, Call(key, e))
    ensures At(Next(h, Call(key, Looked)), key) == At(h, key)
  {
  }
}
