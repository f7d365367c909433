/** The write-ahead log's code as written: the module state of one process and the recovery loop, proved against
    the same functions the state machine steps by. */
module DecisionWalFile {
  import opened Common
  import opened JsonValue
  import opened DecisionWal

  /** `_file`, `_committed` and `_appended` of one process that opened a fresh file. */
  class Log {
    var lines: seq<Line>
    var committed: set<string>
    var appended: set<string>
    const compactEvery: nat

    constructor (every: int)
      ensures Valid() && lines == [] && compactEvery == if every < 1 then 1 else every
    {
      lines, committed, appended := [], {}, {};
      compactEvery := if every < 1 then 1 else every;
    }

    /** `_appended` is exactly what is on disk, and the committed marks stay below the compaction threshold. */
    ghost predicate Valid()
      reads this
    {
      appended == LineIds(lines) && |committed| < compactEvery
    }

    /** What compaction makes of the file. */
    function Compacted(all: seq<Line>, marks: set<string>): seq<Line>
    {
      if |marks| >= compactEvery then Kept(all, marks) else all
    }

    /** `append`: a record without an id is not logged. */
    method Append(id: string, record: Json)
      requires Valid()
      modifies this
      ensures Valid()
      ensures lines == if id == "" then old(lines) else old(lines) + [Whole(Entry(id, record, 0))]
      ensures committed == old(committed)
    {
      if id == "" { return; }
      var line := Whole(Entry(id, record, 0));
      LineIdsConcat(lines, [line]);
      assert line in [line];
      lines := lines + [line];
      appended := appended + {id};
      MaybeCompact();
    }

    /** `mark_committed` */
    method MarkCommitted(id: string)
      requires Valid()
      modifies this
      ensures Valid()
      ensures lines == Compacted(old(lines), old(committed) + {id})
      ensures committed == if |old(committed) + {id}| >= compactEvery then {} else old(committed) + {id}
    {
      committed := committed + {id};
      MaybeCompact();
    }

    /** `_maybe_compact_locked` */
    method MaybeCompact()
      requires appended == LineIds(lines) && compactEvery > 0
      modifies this
      ensures Valid()
      ensures lines == Compacted(old(lines), old(committed))
      ensures committed == if |old(committed)| >= compactEvery then {} else old(committed)
    {
      hide Kept;
      hide LineIds;
      if |committed| < compactEvery { return; }
      var kept: seq<Line> := [];
      var i := 0;
      KeptFrom(lines, committed, 0, kept);
      while i < |lines|
        invariant i <= |lines| && lines == old(lines) && committed == old(committed)
        invariant kept + Kept(lines[i..], committed) == Kept(lines, committed)
      {
        KeptFrom(lines, committed, i, kept);
        if lines[i].Whole? && lines[i].entry.id !in committed {
          kept := kept + [lines[i]];
        }
        i := i + 1;
      }
      KeptFrom(lines, committed, i, kept);
      lines := kept;
      appended := LineIds(kept);
      committed := {};
    }
  }

  /** What is still to keep from line `i` on, in front of it what was kept. */
  lemma KeptFrom(lines: seq<Line>, committed: set<string>, i: nat, kept: seq<Line>)
    requires i <= |lines|
    ensures i == 0 && kept == [] ==> kept + Kept(lines[i..], committed) == Kept(lines, committed)
    ensures i == |lines| ==> kept + Kept(lines[i..], committed) == kept
    ensures i < |lines| ==>
              kept + Kept(lines[i..], committed) ==
              (kept + if lines[i].Whole? && lines[i].entry.id !in committed then [lines[i]] else [])
                + Kept(lines[i + 1..], committed)
  {
    if i == |lines| {
      assert lines[i..] == [] && Kept([], committed) == [];
    } else {
      assert lines[i..][0] == lines[i] && lines[i..][1..] == lines[i + 1..];
    }
    if i == 0 { assert lines[i..] == lines; }
  }

  // ---------------------------------------------------------------- recovery of one file

  /** How one insert ends. */
  datatype Fate = Fate(lands: bool, raises: bool)

  /** The database rows and the recovery after every entry still to do was tried; `fates[k]` decides the k-th. */
  function ReplayAll(limit: nat, db: map<string, Json>, r: Recovery, fate: nat -> Fate,
                     k: nat): (result: (map<string, Json>, Recovery))
    requires r.Replaying?
    ensures result.1.Replaying? && result.1.todo == [] && result.1.path == r.path && result.1.inode == r.inode
    decreases |r.todo|
  {
    if r.todo == [] then (db, r)
    else
      var e := r.todo[0];
      ReplayAll(limit, Insert(db, e.id, e.record, fate(k).lands),
                Tried(r, limit, Raised(db, e.id, fate(k).lands, fate(k).raises)), fate, k + 1)
  }

  /** The machine's own steps, one per entry. */
  function Tries(p: Pid, n: nat, fate: nat -> Fate, k: nat): seq<Step>
    decreases n
  {
    if n == 0 then [] else [RecoverTry(p, fate(k).lands, fate(k).raises)] + Tries(p, n - 1, fate, k + 1)
  }

  /** The recovery loop is what the machine's recovery steps add up to. */
  lemma {:induction false} TriesReplayAll(g: Guards, limit: nat, s: State, p: Pid, fate: nat -> Fate, k: nat)
    requires p in s.procs && s.procs[p].recovery.Replaying?
    ensures var (db, r) := ReplayAll(limit, s.db, s.procs[p].recovery, fate, k);
            Run(g, limit, s, Tries(p, |s.procs[p].recovery.todo|, fate, k)) ==
            Some(s.(db := db, procs := s.procs[p := s.procs[p].(recovery := r)]))
    decreases |s.procs[p].recovery.todo|
  {
    var r := s.procs[p].recovery;
    if r.todo == [] {
      assert s.procs[p := s.procs[p].(recovery := r)] == s.procs;
    } else {
      var steps := Tries(p, |r.todo|, fate, k);
      assert steps[1..] == Tries(p, |r.todo| - 1, fate, k + 1);
      var t := Next(limit, s, steps[0]).value;
      TriesReplayAll(g, limit, t, p, fate, k + 1);
      var (db, r') := ReplayAll(limit, t.db, t.procs[p].recovery, fate, k + 1);
      assert t.procs[p := t.procs[p].(recovery := r')] == s.procs[p := s.procs[p].(recovery := r')];
    }
  }

  /** Entries kept for another boot failed fewer than `limit` times, dead-lettered ones at least that often. */
  ghost predicate Sorted(limit: nat, r: Recovery)
    requires r.Replaying?
  {
    && (forall e :: e in r.failed ==> e.attempts < limit)
    && (forall e :: e in r.dead ==> e.attempts >= limit)
  }

  lemma {:induction false} ReplaySortsByAttempts(limit: nat, db: map<string, Json>, r: Recovery, fate: nat -> Fate,
                                                 k: nat)
    requires r.Replaying? && Sorted(limit, r)
    ensures Sorted(limit, ReplayAll(limit, db, r, fate, k).1)
    decreases |r.todo|
  {
    if r.todo != [] {
      var e := r.todo[0];
      ReplaySortsByAttempts(limit, Insert(db, e.id, e.record, fate(k).lands),
                            Tried(r, limit, Raised(db, e.id, fate(k).lands, fate(k).raises)), fate, k + 1);
    }
  }

  function Pending(r: Recovery): set<string>
    requires r.Replaying?
  {
    Ids(r.todo) + Ids(r.failed) + Ids(r.dead)
  }

  lemma TriedAccounts(limit: nat, r: Recovery, raised: bool)
    requires r.Replaying? && r.todo != []
    ensures Pending(r) - {r.todo[0].id} <= Pending(Tried(r, limit, raised)) <= Pending(r)
    ensures raised ==> Pending(Tried(r, limit, raised)) == Pending(r)
    ensures Ids(Tried(r, limit, raised).todo) <= Ids(r.todo) && r.todo[0].id in Ids(r.todo)
  {
    var e := r.todo[0];
    var bumped := e.(attempts := e.attempts + 1);
    HeadIds(r.todo);
    assert bumped in [bumped] && e.id in Ids([bumped]);
    IdsConcat(r.failed, [bumped]);
    IdsConcat(r.dead, [bumped]);
  }

  /** Every entry ends in the database, kept or dead-lettered; only entries tried are inserted, and rows stay. */
  lemma {:induction false} ReplayAccountsForEveryEntry(limit: nat, db: map<string, Json>, r: Recovery,
                                                       fate: nat -> Fate, k: nat)
    requires r.Replaying?
    ensures var (db', r') := ReplayAll(limit, db, r, fate, k);
            && Pending(r) <= db'.Keys + Pending(r') && Pending(r') <= Pending(r)
            && db.Keys <= db'.Keys <= db.Keys + Ids(r.todo)
            && (forall id :: id in db ==> db'[id] == db[id])
    decreases |r.todo|
  {
    hide Ids;
    if r.todo != [] {
      var e := r.todo[0];
      var raised := Raised(db, e.id, fate(k).lands, fate(k).raises);
      TriedAccounts(limit, r, raised);
      ReplayAccountsForEveryEntry(limit, Insert(db, e.id, e.record, fate(k).lands), Tried(r, limit, raised), fate,
          k + 1);
    }
  }

  /** What recovering a file starts from. */
  function Start(db: map<string, Json>, lines: seq<Line>): Recovery {
    Replaying(0, 0, Missing(ById(Parsed(lines)), db), [], [])
  }

  /** Recovery after success: once every insert returned, recovering the same lines again, at any later time and
      whatever the inserts would do, tries nothing and changes nothing. */
  lemma RecoveryIsIdempotent(limit: nat, db: map<string, Json>, lines: seq<Line>, fate: nat -> Fate,
                             later: map<string, Json>, fate': nat -> Fate)
    requires var (done, r) := ReplayAll(limit, db, Start(db, lines), fate, 0);
             r.failed == [] && r.dead == [] && done.Keys <= later.Keys
    ensures Start(later, lines).todo == []
    ensures ReplayAll(limit, later, Start(later, lines), fate', 0) == (later, Start(later, lines))
  {
    var r := Start(db, lines);
    ReplayAccountsForEveryEntry(limit, db, r, fate, 0);
    var todo := ById(Parsed(lines));
    MissingIds(todo, db);
    MissingIds(todo, later);
    NoIdsNoEntries(Missing(todo, later));
  }

  lemma NoIdsNoEntries(es: seq<Entry>)
    requires Ids(es) == {}
    ensures es == []
  {
    EmptyOrSomeElement(es);
    assert forall e :: e in es ==> e.id in Ids(es);
  }

  class Store {
    var rows: map<string, Json>

    constructor ()
      ensures rows == map[]
    {
      rows := map[];
    }

    /** `storage.add_decision`: false where it raises. */
    method AddDecision(e: Entry, fate: Fate) returns (returned: bool)
      modifies this
      ensures rows == Insert(old(rows), e.id, e.record, fate.lands)
      ensures returned == !Raised(old(rows), e.id, fate.lands, fate.raises)
    {
      returned := e.id !in rows && fate.lands && !fate.raises;
      if e.id !in rows && fate.lands { rows := rows[e.id := e.record]; }
    }
  }

  /** `by_id`: the dictionary in insertion order. */
  method GroupById(entries: seq<Entry>) returns (byId: seq<Entry>)
    ensures byId == ById(entries)
  {
    byId := [];
    for i := 0 to |entries|
      invariant byId == ById(entries[..i])
    {
      assert entries[..i + 1][..i] == entries[..i];
      byId := Put(byId, entries[i]);
    }
    assert entries[..|entries|] == entries;
  }

  /** The replay loop of `_recover_one`: the new file contents, what goes to the dead letter, and how many were
      inserted. The file is removed when `kept` is empty. */
  method RecoverOne(store: Store, lines: seq<Line>, limit: nat, fate: nat -> Fate)
    returns (kept: seq<Entry>, dead: seq<Entry>, replayed: nat)
    modifies store
    ensures var (db, r) := ReplayAll(limit, old(store.rows), Start(old(store.rows), lines), fate, 0);
            store.rows == db && kept == r.failed && dead == r.dead
            && replayed + |kept| + |dead| == |Start(old(store.rows), lines).todo|
  {
    hide ReplayAll;
    hide Missing;
    ghost var db0 := store.rows;
    var byId := GroupById(Parsed(lines));
    var present := store.rows;
    kept, dead, replayed := [], [], 0;
    var k := 0;
    ghost var start := Start(db0, lines);
    assert byId[0..] == byId;
    for i := 0 to |byId|
      invariant present == db0 && replayed + |kept| + |dead| == k
      invariant k + |Missing(byId[i..], db0)| == |start.todo|
      invariant ReplayAll(limit, db0, start, fate, 0) ==
                ReplayAll(limit, store.rows, Replaying(0, 0, Missing(byId[i..], db0), kept, dead), fate, k)
    {
      var e := byId[i];
      MissingHead(byId[i..], db0);
      assert byId[i..][0] == e && byId[i..][1..] == byId[i + 1..];
      if e.id !in present {
        ghost var r := Replaying(0, 0, Missing(byId[i..], db0), kept, dead);
        ReplayOne(limit, store.rows, r, fate, k);
        assert r.todo[0] == e && r.todo[1..] == Missing(byId[i + 1..], db0);
        var returned := store.AddDecision(e, fate(k));
        if returned {
          replayed := replayed + 1;
        } else {
          var bumped := e.(attempts := e.attempts + 1);
          if bumped.attempts >= limit { dead := dead + [bumped]; } else { kept := kept + [bumped]; }
        }
        assert Replaying(0, 0, Missing(byId[i + 1..], db0), kept, dead) == Tried(r, limit, !returned);
        k := k + 1;
      }
    }
    MissingNone(db0);
    assert byId[|byId|..] == [];
    ReplayNone(limit, store.rows, Replaying(0, 0, [], kept, dead), fate, k);
  }

  lemma MissingHead(es: seq<Entry>, db: map<string, Json>)
    requires es != []
    ensures Missing(es, db) == if es[0].id in db then Missing(es[1..], db) else [es[0]] + Missing(es[1..], db)
  {
  }

  lemma MissingNone(db: map<string, Json>)
    ensures Missing([], db) == []
  {
  }

  lemma ReplayOne(limit: nat, db: map<string, Json>, r: Recovery, fate: nat -> Fate, k: nat)
    requires r.Replaying? && r.todo != []
    ensures var e := r.todo[0];
            ReplayAll(limit, db, r, fate, k) ==
            ReplayAll(limit, Insert(db, e.id, e.record, fate(k).lands),
                      Tried(r, limit, Raised(db, e.id, fate(k).lands, fate(k).raises)), fate, k + 1)
  {
  }

  lemma ReplayNone(limit: nat, db: map<string, Json>, r: Recovery, fate: nat -> Fate, k: nat)
    requires r.Replaying? && r.todo == []
    ensures ReplayAll(limit, db, r, fate, k) == (db, r)
  {
  }
}
