/** The decision write-ahead log as a state machine: several processes, per-process log files under advisory
    locks, kills anywhere, startup recovery, the dead-letter file and its replay. */
module DecisionWal {
  import opened Common
  import opened JsonValue

  // ---------------------------------------------------------------- files

  datatype Entry = Entry(id: string, record: Json, attempts: nat)

  /** A line of a log file; `Torn` is what a kill in the middle of a write leaves. */
  datatype Line = Whole(entry: Entry) | Torn

  function Ids(es: seq<Entry>): set<string> {
    set e | e in es :: e.id
  }

  function LineIds(lines: seq<Line>): set<string> {
    set l | l in lines && l.Whole? :: l.entry.id
  }

  /** `_read_entries`: lines that do not parse are skipped. */
  function Parsed(lines: seq<Line>): seq<Entry> {
    if lines == [] then []
    else (if lines[0].Whole? then [lines[0].entry] else []) + Parsed(lines[1..])
  }

  function Written(es: seq<Entry>): seq<Line> {
    seq(|es|, i requires 0 <= i < |es| => Whole(es[i]))
  }

  /** Compaction: lines that parse and are not yet committed. */
  function Kept(lines: seq<Line>, committed: set<string>): seq<Line> {
    if lines == [] then []
    else (if lines[0].Whole? && lines[0].entry.id !in committed then [lines[0]] else []) + Kept(lines[1..], committed)
  }

  /** One entry per id: the first occurrence gives the place, the last one the content. */
  function ById(es: seq<Entry>): seq<Entry> {
    if es == [] then [] else Put(ById(es[..|es| - 1]), es[|es| - 1])
  }

  function Put(es: seq<Entry>, e: Entry): seq<Entry> {
    if es == [] then [e]
    else if es[0].id == e.id then [e] + es[1..]
    else [es[0]] + Put(es[1..], e)
  }

  /** Entries the database does not hold yet. */
  function Missing(es: seq<Entry>, db: map<string, Json>): seq<Entry> {
    if es == [] then []
    else (if es[0].id in db then [] else [es[0]]) + Missing(es[1..], db)
  }

  lemma {:induction false} ParsedIds(lines: seq<Line>)
    ensures Ids(Parsed(lines)) == LineIds(lines)
  {
    if lines != [] {
      ParsedIds(lines[1..]);
      var head := if lines[0].Whole? then [lines[0].entry] else [];
      assert lines == [lines[0]] + lines[1..];
      assert Ids(head + Parsed(lines[1..])) == Ids(head) + Ids(Parsed(lines[1..]));
      assert LineIds(lines) == LineIds([lines[0]]) + LineIds(lines[1..]);
    }
  }

  lemma {:induction false} PutIds(es: seq<Entry>, e: Entry)
    ensures Ids(Put(es, e)) == Ids(es) + {e.id}
  {
    if es != [] {
      assert es == [es[0]] + es[1..];
      assert Ids(es) == {es[0].id} + Ids(es[1..]);
      if es[0].id == e.id {
        assert Ids([e] + es[1..]) == {e.id} + Ids(es[1..]);
      } else {
        PutIds(es[1..], e);
        assert Ids([es[0]] + Put(es[1..], e)) == {es[0].id} + Ids(Put(es[1..], e));
      }
    }
  }

  lemma {:induction false} ByIdIds(es: seq<Entry>)
    ensures Ids(ById(es)) == Ids(es)
  {
    if es != [] {
      var n := |es| - 1;
      ByIdIds(es[..n]);
      PutIds(ById(es[..n]), es[n]);
      assert es == es[..n] + [es[n]];
      assert Ids(es) == Ids(es[..n]) + {es[n].id};
    }
  }

  lemma {:induction false} MissingIds(es: seq<Entry>, db: map<string, Json>)
    ensures Ids(Missing(es, db)) == Ids(es) - db.Keys
  {
    if es != [] {
      MissingIds(es[1..], db);
      assert es == [es[0]] + es[1..];
      assert Ids(es) == {es[0].id} + Ids(es[1..]);
      var head := if es[0].id in db then [] else [es[0]];
      assert Ids(head + Missing(es[1..], db)) == Ids(head) + Ids(Missing(es[1..], db));
    }
  }

  lemma {:induction false} KeptIds(lines: seq<Line>, committed: set<string>)
    ensures LineIds(Kept(lines, committed)) == LineIds(lines) - committed
  {
    if lines != [] {
      KeptIds(lines[1..], committed);
      assert lines == [lines[0]] + lines[1..];
      assert LineIds(lines) == LineIds([lines[0]]) + LineIds(lines[1..]);
      var head := if lines[0].Whole? && lines[0].entry.id !in committed then [lines[0]] else [];
      assert LineIds(head + Kept(lines[1..], committed)) == LineIds(head) + LineIds(Kept(lines[1..], committed));
    }
  }

  lemma WrittenIds(es: seq<Entry>)
    ensures LineIds(Written(es)) == Ids(es)
  {
    forall e | e in es ensures e.id in LineIds(Written(es)) {
      var i :| 0 <= i < |es| && es[i] == e;
      assert Written(es)[i] == Whole(e);
    }
    forall id | id in LineIds(Written(es)) ensures id in Ids(es) {
      var l :| l in Written(es) && l.Whole? && l.entry.id == id;
    }
  }

  lemma IdsConcat(a: seq<Entry>, b: seq<Entry>)
    ensures Ids(a + b) == Ids(a) + Ids(b)
  {
  }

  // ---------------------------------------------------------------- the machine

  type Pid = nat

  /** Who holds a file's exclusive lock, and through which of its two open files. */
  datatype Holder = Writer(pid: Pid) | Recoverer(pid: Pid)

  datatype File = File(lines: seq<Line>, holder: Option<Holder>)

  /** A process's own log handle: opening it and trying the lock are two system calls. */
  datatype Handle = Closed | Opened(inode: nat) | Ready(inode: nat)

  /** `_recover_one` in progress. */
  datatype Recovery =
    | Resting
    | Looking(path: Pid, inode: nat)
    | Replaying(path: Pid, inode: nat, todo: seq<Entry>, failed: seq<Entry>, dead: seq<Entry>)

  /** `replay_dead_letter` in progress; `read` is what it read. */
  datatype Replay = Idle | Running(read: seq<Entry>, todo: seq<Entry>, still: seq<Entry>)

  datatype Proc = Proc(handle: Handle, unwritten: map<string, Json>, landed: set<string>, committed: set<string>,
                       recovery: Recovery, replay: Replay)

  /** Paths are named by the process instance they belong to; `dir` says which file a path names. */
  datatype State = State(files: seq<File>, dir: map<Pid, nat>, born: set<Pid>, procs: map<Pid, Proc>,
                         dead: seq<Entry>, db: map<string, Json>, acked: set<string>)

  datatype Step =
    | Spawn(p: Pid)
    | Open(p: Pid)
    | Lock(p: Pid)
    | Append(p: Pid, id: string, record: Json)
    | DbWrite(p: Pid, id: string, lands: bool, raises: bool)
    | MarkCommitted(p: Pid, id: string)
    | Compact(p: Pid)
    | Close(p: Pid)
    | RecoverOpen(p: Pid, path: Pid)
    | RecoverLock(p: Pid)
    | RecoverTry(p: Pid, lands: bool, raises: bool)
    | RecoverBury(p: Pid)
    | RecoverFinish(p: Pid)
    | ReplayRead(p: Pid)
    | ReplayTry(p: Pid, lands: bool, raises: bool)
    | ReplayFinish(p: Pid)
    | Kill(p: Pid, torn: bool)

  const NEWBORN := Proc(Closed, map[], {}, {}, Resting, Idle)

  const INIT := State([], map[], {}, map[], [], map[], {})

  /** An insert: an id the database holds is refused; otherwise it may land, and may raise even when it landed. */
  function Insert(db: map<string, Json>, id: string, record: Json, lands: bool): map<string, Json> {
    if id in db || !lands then db else db[id := record]
  }

  predicate Raised(db: map<string, Json>, id: string, lands: bool, raises: bool) {
    id in db || !lands || raises
  }

  /** One replayed entry: gone when the insert returned, else kept for the next boot or, at the limit, dead-lettered. */
  function Tried(r: Recovery, limit: nat, raised: bool): Recovery
    requires r.Replaying? && r.todo != []
  {
    var e := r.todo[0].(attempts := r.todo[0].attempts + 1);
    var next := r.(todo := r.todo[1..]);
    if !raised then next
    else if e.attempts >= limit then next.(dead := r.dead + [e])
    else next.(failed := r.failed + [e])
  }

  function Release(f: File, p: Pid): File {
    if f.holder == Some(Writer(p)) || f.holder == Some(Recoverer(p)) then f.(holder := None) else f
  }

  function ReleaseAll(files: seq<File>, p: Pid): seq<File> {
    seq(|files|, i requires 0 <= i < |files| => Release(files[i], p))
  }

  predicate Valid(s: State, i: nat) {
    i < |s.files|
  }

  function Set(s: State, p: Pid, proc: Proc): State {
    s.(procs := s.procs[p := proc])
  }

  function SetFile(s: State, i: nat, f: File): State
    requires Valid(s, i)
  {
    s.(files := s.files[i := f])
  }

  /** One step; None when it is not enabled. */
  function Next(limit: nat, s: State, step: Step): Option<State> {
    if step.Spawn? then
      if step.p in s.born then None else Some(Set(s.(born := s.born + {step.p}), step.p, NEWBORN))
    else if step.p !in s.procs then None
    else
      match step
      case Open(p) => NextOpen(s, p)
      case Lock(p) => NextLock(s, p)
      case Append(p, id, record) => NextAppend(s, p, id, record)
      case DbWrite(p, id, lands, raises) => NextDbWrite(s, p, id, lands, raises)
      case MarkCommitted(p, id) => NextMark(s, p, id)
      case Compact(p) => NextCompact(s, p)
      case Close(p) => NextClose(s, p)
      case RecoverOpen(p, path) => NextRecoverOpen(s, p, path)
      case RecoverLock(p) => NextRecoverLock(s, p)
      case RecoverTry(p, lands, raises) => NextRecoverTry(limit, s, p, lands, raises)
      case RecoverBury(p) => NextRecoverBury(s, p)
      case RecoverFinish(p) => NextRecoverFinish(s, p)
      case ReplayRead(p) => NextReplayRead(s, p)
      case ReplayTry(p, lands, raises) => NextReplayTry(s, p, lands, raises)
      case ReplayFinish(p) => NextReplayFinish(s, p)
      case Kill(p, torn) => NextKill(s, p, torn)
  }

  /** `_get_file`, first half: open for appending, creating the file when the path names none. */
  function NextOpen(s: State, p: Pid): Option<State>
    requires p in s.procs
  {
    var proc := s.procs[p];
    if !proc.handle.Closed? then None
    else if p in s.dir then Some(Set(s, p, proc.(handle := Opened(s.dir[p]))))
    else
      var s1 := s.(files := s.files + [File([], None)], dir := s.dir[p := |s.files|]);
      Some(Set(s1, p, proc.(handle := Opened(|s.files|))))
  }

  /** `_get_file`, second half: try the lock; the answer is not looked at. */
  function NextLock(s: State, p: Pid): Option<State>
    requires p in s.procs
  {
    var proc := s.procs[p];
    if !proc.handle.Opened? || !Valid(s, proc.handle.inode) then None
    else
      var i := proc.handle.inode;
      var f := s.files[i];
      var s1 := if f.holder.None? then SetFile(s, i, f.(holder := Some(Writer(p)))) else s;
      Some(Set(s1, p, proc.(handle := Ready(i))))
  }

  /** `append` returns: the line is on disk, the decision is acknowledged and its database write scheduled. */
  function NextAppend(s: State, p: Pid, id: string, record: Json): Option<State>
    requires p in s.procs
  {
    var proc := s.procs[p];
    if !proc.handle.Ready? || !Valid(s, proc.handle.inode) then None
    else
      var i := proc.handle.inode;
      var s1 := SetFile(s, i, s.files[i].(lines := s.files[i].lines + [Whole(Entry(id, record, 0))]));
      Some(Set(s1.(acked := s.acked + {id}), p, proc.(unwritten := proc.unwritten[id := record])))
  }

  /** The scheduled write runs. */
  function NextDbWrite(s: State, p: Pid, id: string, lands: bool, raises: bool): Option<State>
    requires p in s.procs
  {
    var proc := s.procs[p];
    if id !in proc.unwritten then None
    else
      var done := proc.(unwritten := proc.unwritten - {id},
                        landed := if Raised(s.db, id, lands, raises) then proc.landed else proc.landed + {id});
      Some(Set(s.(db := Insert(s.db, id, proc.unwritten[id], lands)), p, done))
  }

  /** `mark_committed`, reached only when the write returned. */
  function NextMark(s: State, p: Pid, id: string): Option<State>
    requires p in s.procs
  {
    var proc := s.procs[p];
    if id !in proc.landed then None else Some(Set(s, p, proc.(committed := proc.committed + {id})))
  }

  /** `_maybe_compact_locked`, taken as one step; the source runs it once enough ids are committed. */
  function NextCompact(s: State, p: Pid): Option<State>
    requires p in s.procs
  {
    var proc := s.procs[p];
    if !proc.handle.Ready? || !Valid(s, proc.handle.inode) then None
    else
      var i := proc.handle.inode;
      var s1 := SetFile(s, i, s.files[i].(lines := Kept(s.files[i].lines, proc.committed)));
      Some(Set(s1, p, proc.(committed := {})))
  }

  /** `recover` starts by letting go of its own log. */
  function NextClose(s: State, p: Pid): Option<State>
    requires p in s.procs
  {
    var proc := s.procs[p];
    if !proc.handle.Ready? || !Valid(s, proc.handle.inode) then None
    else
      var i := proc.handle.inode;
      var f := s.files[i];
      var s1 := if f.holder == Some(Writer(p)) then SetFile(s, i, f.(holder := None)) else s;
      Some(Set(s1, p, proc.(handle := Closed)))
  }

  function NextRecoverOpen(s: State, p: Pid, path: Pid): Option<State>
    requires p in s.procs
  {
    var proc := s.procs[p];
    if !proc.recovery.Resting? || path !in s.dir then None
    else Some(Set(s, p, proc.(recovery := Looking(path, s.dir[path]))))
  }

  /** A held lock means skip; a free one is taken, the file read and the database asked which ids it holds. */
  function NextRecoverLock(s: State, p: Pid): Option<State>
    requires p in s.procs
  {
    var proc := s.procs[p];
    if !proc.recovery.Looking? || !Valid(s, proc.recovery.inode) then None
    else
      var i := proc.recovery.inode;
      var f := s.files[i];
      if f.holder.Some? then Some(Set(s, p, proc.(recovery := Resting)))
      else
        var todo := Missing(ById(Parsed(f.lines)), s.db);
        Some(Set(SetFile(s, i, f.(holder := Some(Recoverer(p)))), p,
                 proc.(recovery := Replaying(proc.recovery.path, i, todo, [], []))))
  }

  function NextRecoverTry(limit: nat, s: State, p: Pid, lands: bool, raises: bool): Option<State>
    requires p in s.procs
  {
    var proc := s.procs[p];
    if !proc.recovery.Replaying? || proc.recovery.todo == [] then None
    else
      var e := proc.recovery.todo[0];
      var s1 := s.(db := Insert(s.db, e.id, e.record, lands));
      Some(Set(s1, p, proc.(recovery := Tried(proc.recovery, limit, Raised(s.db, e.id, lands, raises)))))
  }

  /** `_dead_letter`, assumed to reach the disk. */
  function NextRecoverBury(s: State, p: Pid): Option<State>
    requires p in s.procs
  {
    var proc := s.procs[p];
    if !proc.recovery.Replaying? || proc.recovery.todo != [] || proc.recovery.dead == [] then None
    else Some(Set(s.(dead := s.dead + proc.recovery.dead), p, proc.(recovery := proc.recovery.(dead := []))))
  }

  /** The file is rewritten with what failed (one step), or its path is removed; closing releases the lock. */
  function NextRecoverFinish(s: State, p: Pid): Option<State>
    requires p in s.procs
  {
    var proc := s.procs[p];
    if !proc.recovery.Replaying? || proc.recovery.todo != [] || proc.recovery.dead != []
        || !Valid(s, proc.recovery.inode) then None
    else
      var r := proc.recovery;
      var f := s.files[r.inode];
      var free := if f.holder == Some(Recoverer(p)) then f.(holder := None) else f;
      var s1 := if r.failed != [] then SetFile(s, r.inode, free.(lines := Written(r.failed)))
                else SetFile(s, r.inode, free).(dir := s.dir - {r.path});
      Some(Set(s1, p, proc.(recovery := Resting)))
  }

  function NextReplayRead(s: State, p: Pid): Option<State>
    requires p in s.procs
  {
    var proc := s.procs[p];
    if !proc.replay.Idle? || s.dead == [] then None
    else Some(Set(s, p, proc.(replay := Running(s.dead, Missing(s.dead, s.db), []))))
  }

  function NextReplayTry(s: State, p: Pid, lands: bool, raises: bool): Option<State>
    requires p in s.procs
  {
    var proc := s.procs[p];
    if !proc.replay.Running? || proc.replay.todo == [] then None
    else
      var e := proc.replay.todo[0];
      var still := if Raised(s.db, e.id, lands, raises) then proc.replay.still + [e.(attempts := 0)]
          else proc.replay.still;
      Some(Set(s.(db := Insert(s.db, e.id, e.record, lands)), p,
               proc.(replay := Running(proc.replay.read, proc.replay.todo[1..], still))))
  }

  /** The dead-letter file becomes what still fails. */
  function NextReplayFinish(s: State, p: Pid): Option<State>
    requires p in s.procs
  {
    var proc := s.procs[p];
    if !proc.replay.Running? || proc.replay.todo != [] then None
    else Some(Set(s.(dead := proc.replay.still), p, proc.(replay := Idle)))
  }

  /** A kill drops everything in memory and every lock; it may leave half a line behind. */
  function NextKill(s: State, p: Pid, torn: bool): Option<State>
    requires p in s.procs
  {
    var h := s.procs[p].handle;
    var files :=
      if torn && h.Ready? && Valid(s, h.inode)
      then s.files[h.inode := s.files[h.inode].(lines := s.files[h.inode].lines + [Torn])] else s.files;
    Some(s.(files := ReleaseAll(files, p), procs := s.procs - {p}))
  }

  // ---------------------------------------------------------------- races and runs

  /** Which races an environment rules out.
      - `lock`: a writer's lock succeeds, on the file its path still names;
      - `recovery`: a recoverer's lock is on the file the path still names;
      - `replay`: nothing is dead-lettered between a replay's read and its rewrite. */
  datatype Guards = Guards(lock: bool, recovery: bool, replay: bool)

  predicate Names(s: State, path: Pid, inode: nat) {
    path in s.dir && s.dir[path] == inode
  }

  predicate Allowed(g: Guards, s: State, step: Step) {
    && (g.lock && step.Lock? && step.p in s.procs && s.procs[step.p].handle.Opened? ==>
          var i := s.procs[step.p].handle.inode;
          Valid(s, i) && s.files[i].holder.None? && Names(s, step.p, i))
    && (g.recovery && step.RecoverLock? && step.p in s.procs && s.procs[step.p].recovery.Looking? ==>
          var r := s.procs[step.p].recovery;
          Valid(s, r.inode) && s.files[r.inode].holder.None? ==> Names(s, r.path, r.inode))
    && (g.replay && step.ReplayFinish? && step.p in s.procs && s.procs[step.p].replay.Running? ==>
          s.dead == s.procs[step.p].replay.read)
  }

  /** The state after a list of steps, None when one of them is not enabled or not allowed. */
  function Run(g: Guards, limit: nat, s: State, steps: seq<Step>): Option<State>
    decreases |steps|
  {
    if steps == [] then Some(s)
    else if !Allowed(g, s, steps[0]) then None
    else
      var next := Next(limit, s, steps[0]);
      if next.None? then None else Run(g, limit, next.value, steps[1..])
  }

  ghost predicate InLinkedFile(s: State, id: string) {
    exists path :: path in s.dir && Valid(s, s.dir[path]) && id in LineIds(s.files[s.dir[path]].lines)
  }

  ghost predicate Covered(s: State, id: string) {
    id in s.db || id in Ids(s.dead) || InLinkedFile(s, id)
  }

  /** Every decision whose append returned is in the database, in a log file some path names, or dead-lettered. */
  ghost predicate Durable(s: State) {
    forall id :: id in s.acked ==> Covered(s, id)
  }

  // ---------------------------------------------------------------- what every step keeps

  ghost predicate WriterFits(s: State, p: Pid, proc: Proc) {
    && proc.committed <= s.db.Keys && proc.landed <= s.db.Keys
    && (proc.handle.Ready? ==>
          Valid(s, proc.handle.inode) && Names(s, p, proc.handle.inode)
              && s.files[proc.handle.inode].holder == Some(Writer(p)))
  }

  ghost predicate RecoveryFits(s: State, p: Pid, r: Recovery) {
    r.Replaying? ==>
      && Valid(s, r.inode) && Names(s, r.path, r.inode) && s.files[r.inode].holder == Some(Recoverer(p))
      && LineIds(s.files[r.inode].lines) <= s.db.Keys + Ids(r.todo) + Ids(r.failed) + Ids(r.dead) + Ids(s.dead)
  }

  ghost predicate ReplayFits(s: State, r: Replay) {
    r.Running? ==> Ids(r.read) <= s.db.Keys + Ids(r.todo) + Ids(r.still)
  }

  ghost predicate ProcFits(s: State, p: Pid) {
    p in s.procs ==>
      && WriterFits(s, p, s.procs[p])
      && RecoveryFits(s, p, s.procs[p].recovery)
      && ReplayFits(s, s.procs[p].replay)
  }

  ghost predicate DirFits(s: State) {
    && (forall a :: a in s.dir ==> Valid(s, s.dir[a]))
    && (forall a, b :: a in s.dir && b in s.dir && s.dir[a] == s.dir[b] ==> a == b)
  }

  ghost predicate Inv(s: State) {
    Durable(s) && DirFits(s) && forall p :: p in s.procs ==> ProcFits(s, p)
  }

  // ---------------------------------------------------------------- preservation, step by step

  /** What a step may do to the shared state without disturbing anyone: rows and dead letters only grow, paths
      stay, and a file keeps its holder and every id it had. */
  ghost predicate Grows(s: State, t: State) {
    && s.db.Keys <= t.db.Keys
    && Ids(s.dead) <= Ids(t.dead) + t.db.Keys
    && |s.files| <= |t.files|
    && (forall a :: a in s.dir ==> a in t.dir && t.dir[a] == s.dir[a])
  }

  /** File `i` reads the same in both states. */
  ghost predicate SameFile(s: State, t: State, i: nat) {
    Valid(s, i) && Valid(t, i) && t.files[i] == s.files[i]
  }

  lemma CoveredGrows(s: State, t: State, id: string)
    requires Covered(s, id) && Grows(s, t)
    requires forall i: nat :: Valid(s, i) ==> LineIds(s.files[i].lines) <= LineIds(t.files[i].lines) + t.db.Keys
    ensures Covered(t, id)
  {
  }

  /** A process that did not move still fits, unless its files were touched. */
  lemma BystanderFits(s: State, t: State, p: Pid)
    requires ProcFits(s, p) && Grows(s, t) && p in s.procs && p in t.procs && t.procs[p] == s.procs[p]
    requires s.procs[p].handle.Ready? ==>
               var i := s.procs[p].handle.inode;
               Valid(s, i) ==> t.files[i].holder == s.files[i].holder
    requires s.procs[p].recovery.Replaying? ==>
               Valid(s, s.procs[p].recovery.inode) ==> SameFile(s, t, s.procs[p].recovery.inode)
    ensures ProcFits(t, p)
  {
  }

  /** Steps that touch only the process itself, and perhaps add rows. */
  lemma OwnStateKeepsInv(s: State, t: State, p: Pid)
    requires Inv(s) && p in s.procs && p in t.procs && t == Set(s, p, t.procs[p]).(db := t.db)
    requires s.db.Keys <= t.db.Keys && ProcFits(t, p)
    ensures Inv(t)
  {
    forall id | id in t.acked ensures Covered(t, id) { CoveredGrows(s, t, id); }
    forall q | q in t.procs ensures ProcFits(t, q) { if q != p { BystanderFits(s, t, q); } }
  }

  /** Steps that change one file, whose lock the process has or takes, keeping its ids up to rows. */
  lemma OwnFileKeepsInv(s: State, t: State, p: Pid, i: nat)
    requires Inv(s) && p in s.procs && p in t.procs && Valid(s, i) && Valid(t, i)
    requires t == Set(SetFile(s, i, t.files[i]), p, t.procs[p])
    requires LineIds(s.files[i].lines) <= LineIds(t.files[i].lines) + s.db.Keys
    requires s.files[i].holder.Some? ==> s.files[i].holder == Some(Writer(p)) || s.files[i].holder == Some(Recoverer(p))
    requires ProcFits(t, p)
    ensures Inv(t)
  {
    forall id | id in t.acked ensures Covered(t, id) { CoveredGrows(s, t, id); }
    forall q | q in t.procs ensures ProcFits(t, q) { if q != p { BystanderFits(s, t, q); } }
  }

  lemma SpawnKeepsInv(s: State, p: Pid)
    requires Inv(s) && p !in s.born && s.procs.Keys <= s.born
    ensures Inv(Set(s.(born := s.born + {p}), p, NEWBORN))
  {
  }

  lemma OpenKeepsInv(s: State, p: Pid)
    requires Inv(s) && p in s.procs && NextOpen(s, p).Some?
    ensures Inv(NextOpen(s, p).value)
  {
    var t := NextOpen(s, p).value;
    if p in s.dir {
      OwnStateKeepsInv(s, t, p);
    } else {
      forall id | id in t.acked ensures Covered(t, id) { CoveredGrows(s, t, id); }
      forall q | q in t.procs ensures ProcFits(t, q) {
        if q != p { BystanderFits(s, t, q); }
      }
    }
  }

  lemma LockKeepsInv(s: State, p: Pid)
    requires Inv(s) && p in s.procs && NextLock(s, p).Some?
    requires s.files[s.procs[p].handle.inode].holder.None? && Names(s, p, s.procs[p].handle.inode)
    ensures Inv(NextLock(s, p).value)
  {
    OwnFileKeepsInv(s, NextLock(s, p).value, p, s.procs[p].handle.inode);
  }

  lemma LineIdsConcat(a: seq<Line>, b: seq<Line>)
    ensures LineIds(a + b) == LineIds(a) + LineIds(b)
  {
  }

  lemma AppendKeepsInv(s: State, p: Pid, id: string, record: Json)
    requires Inv(s) && p in s.procs && NextAppend(s, p, id, record).Some?
    ensures Inv(NextAppend(s, p, id, record).value)
  {
    var t := NextAppend(s, p, id, record).value;
    var i := s.procs[p].handle.inode;
    var line := [Whole(Entry(id, record, 0))];
    LineIdsConcat(s.files[i].lines, line);
    OwnFileKeepsInv(s, t.(acked := s.acked), p, i);
    assert line[0] in line && id in LineIds(line);
    assert InLinkedFile(t, id) by { assert p in t.dir && t.dir[p] == i; }
    forall a | a in t.acked ensures Covered(t, a) {
      if a != id { CoveredGrows(t.(acked := s.acked), t, a); }
    }
    forall q | q in t.procs ensures ProcFits(t, q) { BystanderFits(t.(acked := s.acked), t, q); }
  }

  lemma CompactKeepsInv(s: State, p: Pid)
    requires Inv(s) && p in s.procs && NextCompact(s, p).Some?
    ensures Inv(NextCompact(s, p).value)
  {
    var i := s.procs[p].handle.inode;
    KeptIds(s.files[i].lines, s.procs[p].committed);
    OwnFileKeepsInv(s, NextCompact(s, p).value, p, i);
  }

  lemma CloseKeepsInv(s: State, p: Pid)
    requires Inv(s) && p in s.procs && NextClose(s, p).Some?
    ensures Inv(NextClose(s, p).value)
  {
    OwnFileKeepsInv(s, NextClose(s, p).value, p, s.procs[p].handle.inode);
  }

  lemma RecoverLockKeepsInv(s: State, p: Pid)
    requires Inv(s) && p in s.procs && NextRecoverLock(s, p).Some?
    requires var r := s.procs[p].recovery; s.files[r.inode].holder.None? ==> Names(s, r.path, r.inode)
    ensures Inv(NextRecoverLock(s, p).value)
  {
    var t := NextRecoverLock(s, p).value;
    var r := s.procs[p].recovery;
    var f := s.files[r.inode];
    if f.holder.Some? {
      OwnStateKeepsInv(s, t, p);
    } else {
      ParsedIds(f.lines);
      ByIdIds(Parsed(f.lines));
      MissingIds(ById(Parsed(f.lines)), s.db);
      OwnFileKeepsInv(s, t, p, r.inode);
    }
  }

  lemma HeadIds(es: seq<Entry>)
    requires es != []
    ensures Ids(es) == {es[0].id} + Ids(es[1..])
  {
  }

  /** The entry tried is accounted for: its row exists, or it is among the failed or the dead. */
  lemma TriedFits(limit: nat, s: State, p: Pid, lands: bool, raises: bool)
    requires p in s.procs && NextRecoverTry(limit, s, p, lands, raises).Some? && RecoveryFits(s, p, s.procs[p].recovery)
    ensures var t := NextRecoverTry(limit, s, p, lands, raises).value; RecoveryFits(t, p, t.procs[p].recovery)
  {
    var r := s.procs[p].recovery;
    HeadIds(r.todo);
    var e := r.todo[0].(attempts := r.todo[0].attempts + 1);
    assert e in [e] && e.id in Ids([e]);
    IdsConcat(r.dead, [e]);
    IdsConcat(r.failed, [e]);
  }

  lemma RecoverTryKeepsInv(limit: nat, s: State, p: Pid, lands: bool, raises: bool)
    requires Inv(s) && p in s.procs && NextRecoverTry(limit, s, p, lands, raises).Some?
    ensures Inv(NextRecoverTry(limit, s, p, lands, raises).value)
  {
    hide RecoveryFits;
    hide Durable;
    var t := NextRecoverTry(limit, s, p, lands, raises).value;
    assert ProcFits(s, p);
    TriedFits(limit, s, p, lands, raises);
    OwnStateKeepsInv(s, t, p);
  }

  lemma RecoverBuryKeepsInv(s: State, p: Pid)
    requires Inv(s) && p in s.procs && NextRecoverBury(s, p).Some?
    ensures Inv(NextRecoverBury(s, p).value)
  {
    var t := NextRecoverBury(s, p).value;
    IdsConcat(s.dead, s.procs[p].recovery.dead);
    forall id | id in t.acked ensures Covered(t, id) { CoveredGrows(s, t, id); }
    forall q | q in t.procs ensures ProcFits(t, q) { if q != p { BystanderFits(s, t, q); } }
  }

  lemma RecoverFinishKeepsDecisions(s: State, p: Pid)
    requires Inv(s) && p in s.procs && NextRecoverFinish(s, p).Some?
    ensures Durable(NextRecoverFinish(s, p).value)
  {
    var t := NextRecoverFinish(s, p).value;
    var r := s.procs[p].recovery;
    WrittenIds(r.failed);
    assert ProcFits(s, p);
    forall id | id in t.acked ensures Covered(t, id) {
      if id !in s.db && id !in Ids(s.dead) {
        var path :| path in s.dir && Valid(s, s.dir[path]) && id in LineIds(s.files[s.dir[path]].lines);
        assert path in t.dir && id in LineIds(t.files[t.dir[path]].lines);
      }
    }
  }

  lemma RecoverFinishKeepsInv(s: State, p: Pid)
    requires Inv(s) && p in s.procs && NextRecoverFinish(s, p).Some?
    ensures Inv(NextRecoverFinish(s, p).value)
  {
    hide Durable;
    var t := NextRecoverFinish(s, p).value;
    RecoverFinishKeepsDecisions(s, p);
    assert ProcFits(s, p);
    forall q | q in t.procs ensures ProcFits(t, q) {
      if q != p {
        assert ProcFits(s, q);
        assert WriterFits(t, q, t.procs[q]);
        assert RecoveryFits(t, q, t.procs[q].recovery);
      }
    }
  }

  lemma ReplayReadKeepsInv(s: State, p: Pid)
    requires Inv(s) && p in s.procs && NextReplayRead(s, p).Some?
    ensures Inv(NextReplayRead(s, p).value)
  {
    MissingIds(s.dead, s.db);
    OwnStateKeepsInv(s, NextReplayRead(s, p).value, p);
  }

  lemma ReplayTryKeepsInv(s: State, p: Pid, lands: bool, raises: bool)
    requires Inv(s) && p in s.procs && NextReplayTry(s, p, lands, raises).Some?
    ensures Inv(NextReplayTry(s, p, lands, raises).value)
  {
    var t := NextReplayTry(s, p, lands, raises).value;
    var r := s.procs[p].replay;
    HeadIds(r.todo);
    var e := r.todo[0].(attempts := 0);
    assert e in [e] && e.id in Ids([e]);
    IdsConcat(r.still, [e]);
    OwnStateKeepsInv(s, t, p);
  }

  lemma ReplayFinishKeepsInv(s: State, p: Pid)
    requires Inv(s) && p in s.procs && NextReplayFinish(s, p).Some? && s.dead == s.procs[p].replay.read
    ensures Inv(NextReplayFinish(s, p).value)
  {
    var t := NextReplayFinish(s, p).value;
    assert Ids(s.dead) <= Ids(t.dead) + t.db.Keys;
    forall id | id in t.acked ensures Covered(t, id) { CoveredGrows(s, t, id); }
    forall q | q in t.procs ensures ProcFits(t, q) { if q != p { BystanderFits(s, t, q); } }
  }

  lemma KillKeepsInv(s: State, p: Pid, torn: bool)
    requires Inv(s) && p in s.procs
    ensures Inv(NextKill(s, p, torn).value)
  {
    var t := NextKill(s, p, torn).value;
    var h := s.procs[p].handle;
    forall i: nat | Valid(s, i) ensures LineIds(s.files[i].lines) == LineIds(t.files[i].lines) {
      LineIdsConcat(s.files[i].lines, [Torn]);
    }
    forall id | id in t.acked ensures Covered(t, id) { CoveredGrows(s, t, id); }
    forall q | q in t.procs ensures ProcFits(t, q) { BystanderFits(s, t, q); }
  }

  const SAFE := Guards(true, true, true)

  ghost predicate Born(s: State) {
    s.procs.Keys <= s.born
  }

  lemma StepKeepsBorn(limit: nat, s: State, step: Step)
    requires Born(s) && Next(limit, s, step).Some?
    ensures Born(Next(limit, s, step).value)
  {
  }

  lemma StepKeepsInv(limit: nat, s: State, step: Step)
    requires Inv(s) && Born(s) && Allowed(SAFE, s, step) && Next(limit, s, step).Some?
    ensures Inv(Next(limit, s, step).value)
  {
    hide Inv;
    if step.Spawn? {
      SpawnKeepsInv(s, step.p);
    } else {
      match step
      case Open(p) => OpenKeepsInv(s, p);
      case Lock(p) => LockKeepsInv(s, p);
      case Append(p, id, record) => AppendKeepsInv(s, p, id, record);
      case DbWrite(p, id, lands, raises) => OwnRowsKeepInv(s, Next(limit, s, step).value, p);
      case MarkCommitted(p, id) => OwnRowsKeepInv(s, Next(limit, s, step).value, p);
      case Compact(p) => CompactKeepsInv(s, p);
      case Close(p) => CloseKeepsInv(s, p);
      case RecoverOpen(p, path) => OwnRowsKeepInv(s, Next(limit, s, step).value, p);
      case RecoverLock(p) => RecoverLockKeepsInv(s, p);
      case RecoverTry(p, lands, raises) => RecoverTryKeepsInv(limit, s, p, lands, raises);
      case RecoverBury(p) => RecoverBuryKeepsInv(s, p);
      case RecoverFinish(p) => RecoverFinishKeepsInv(s, p);
      case ReplayRead(p) => ReplayReadKeepsInv(s, p);
      case ReplayTry(p, lands, raises) => ReplayTryKeepsInv(s, p, lands, raises);
      case ReplayFinish(p) => ReplayFinishKeepsInv(s, p);
      case Kill(p, torn) => KillKeepsInv(s, p, torn);
    }
  }

  /** Database writes, commit marks and looking at a file. */
  lemma OwnRowsKeepInv(s: State, t: State, p: Pid)
    requires Inv(s) && p in s.procs && p in t.procs && t == Set(s, p, t.procs[p]).(db := t.db) && s.db.Keys <= t.db.Keys
    requires t.procs[p].handle == s.procs[p].handle && t.procs[p].replay == s.procs[p].replay
    requires t.procs[p].recovery == s.procs[p].recovery || !t.procs[p].recovery.Replaying?
    requires t.procs[p].landed <= s.procs[p].landed + t.db.Keys
    requires t.procs[p].committed <= s.procs[p].committed + s.procs[p].landed
    ensures Inv(t)
  {
    assert ProcFits(s, p);
    OwnStateKeepsInv(s, t, p);
  }

  lemma {:induction false} RunKeepsInv(limit: nat, s: State, steps: seq<Step>)
    requires Inv(s) && Born(s) && Run(SAFE, limit, s, steps).Some?
    ensures Inv(Run(SAFE, limit, s, steps).value)
    decreases |steps|
  {
    hide Inv;
    hide Next;
    if steps != [] {
      StepKeepsInv(limit, s, steps[0]);
      StepKeepsBorn(limit, s, steps[0]);
      RunKeepsInv(limit, Next(limit, s, steps[0]).value, steps[1..]);
    }
  }

  /** Every run the environment allows, from a fresh deployment, keeps every acknowledged decision. */
  ghost predicate LosesNothing(g: Guards) {
    forall limit: nat, steps: seq<Step> :: Run(g, limit, INIT, steps).Some?
        ==> Durable(Run(g, limit, INIT, steps).value)
  }

  /** With the three races excluded, kills, torn lines, failing inserts, compaction, recovery and replay by any
      number of processes lose nothing. */
  lemma AppendedDecisionsSurvive()
    ensures LosesNothing(SAFE)
  {
    forall limit: nat, steps: seq<Step> | Run(SAFE, limit, INIT, steps).Some?
      ensures Durable(Run(SAFE, limit, INIT, steps).value)
    {
      RunKeepsInv(limit, INIT, steps);
    }
  }

  lemma StepKeepsRows(limit: nat, s: State, step: Step)
    requires Next(limit, s, step).Some?
    ensures var t := Next(limit, s, step).value; forall id :: id in s.db ==> id in t.db && t.db[id] == s.db[id]
  {
    hide Missing;
    hide Kept;
    hide ReleaseAll;
  }

  /** The rows a database holds never change, whatever the races: the primary key refuses a second insert. */
  lemma {:induction false} RowsAreNeverReplaced(g: Guards, limit: nat, s: State, steps: seq<Step>)
    requires Run(g, limit, s, steps).Some?
    ensures var t := Run(g, limit, s, steps).value; forall id :: id in s.db ==> id in t.db && t.db[id] == s.db[id]
    decreases |steps|
  {
    hide Next;
    if steps != [] {
      StepKeepsRows(limit, s, steps[0]);
      RowsAreNeverReplaced(g, limit, Next(limit, s, steps[0]).value, steps[1..]);
    }
  }

  // ---------------------------------------------------------------- recovery and rows that exist

  ghost predicate UniqueIds(es: seq<Entry>) {
    forall i, j :: 0 <= i < j < |es| ==> es[i].id != es[j].id
  }

  ghost predicate IsReplaying(s: State, p: Pid) {
    p in s.procs && s.procs[p].recovery.Replaying?
  }

  /** What process `p` still has to try. */
  function Todo(s: State, p: Pid): seq<Entry>
    requires IsReplaying(s, p)
  {
    s.procs[p].recovery.todo
  }

  lemma {:induction false} PutIsUnique(es: seq<Entry>, e: Entry)
    requires UniqueIds(es)
    ensures UniqueIds(Put(es, e))
  {
    if es != [] && es[0].id != e.id {
      PutIsUnique(es[1..], e);
      var rest := Put(es[1..], e);
      PutIds(es[1..], e);
      forall j | 0 <= j < |rest| ensures rest[j].id != es[0].id {
        assert rest[j].id in Ids(rest);
      }
    }
  }

  lemma {:induction false} ByIdIsUnique(es: seq<Entry>)
    ensures UniqueIds(ById(es))
  {
    if es != [] {
      ByIdIsUnique(es[..|es| - 1]);
      PutIsUnique(ById(es[..|es| - 1]), es[|es| - 1]);
    }
  }

  lemma {:induction false} MissingIsUnique(es: seq<Entry>, db: map<string, Json>)
    requires UniqueIds(es)
    ensures UniqueIds(Missing(es, db))
  {
    if es != [] {
      MissingIsUnique(es[1..], db);
      var rest := Missing(es[1..], db);
      MissingIds(es[1..], db);
      forall j | 0 <= j < |rest| ensures rest[j].id != es[0].id {
        assert rest[j].id in Ids(rest);
      }
    }
  }

  /** When a recoverer gets the lock it sets out to try each id of the file once, and exactly those whose
      rows the database does not hold at that moment. */
  lemma LockTakesOnlyMissing(s: State, p: Pid)
    requires p in s.procs && NextRecoverLock(s, p).Some? && s.files[s.procs[p].recovery.inode].holder.None?
    ensures var t := NextRecoverLock(s, p).value;
            && IsReplaying(t, p) && UniqueIds(Todo(t, p)) && t.db == s.db
            && Ids(Todo(t, p)) == LineIds(s.files[s.procs[p].recovery.inode].lines) - s.db.Keys
  {
    var lines := s.files[s.procs[p].recovery.inode].lines;
    ParsedIds(lines);
    ByIdIds(Parsed(lines));
    MissingIds(ById(Parsed(lines)), s.db);
    ByIdIsUnique(Parsed(lines));
    MissingIsUnique(ById(Parsed(lines)), s.db);
  }

  predicate IsOwnTry(step: Step, p: Pid) {
    step.RecoverTry? && step.p == p
  }

  /** Some step of the run other than a try of `p`'s recovery puts the row `id` into the database. */
  ghost predicate OthersInsert(limit: nat, s: State, steps: seq<Step>, p: Pid, id: string)
    decreases |steps|
  {
    steps != [] && Next(limit, s, steps[0]).Some? &&
    var t := Next(limit, s, steps[0]).value;
    (!IsOwnTry(steps[0], p) && id !in s.db && id in t.db) || OthersInsert(limit, t, steps[1..], p, id)
  }

  /** Only three steps insert, and only when the insert lands. */
  lemma InsertersAre(limit: nat, s: State, step: Step, id: string)
    requires Next(limit, s, step).Some? && id !in s.db && id in Next(limit, s, step).value.db
    ensures || (step.DbWrite? && step.id == id && step.lands)
            || (step.RecoverTry? && step.lands && IsReplaying(s, step.p) && Todo(s, step.p)[0].id == id)
            || (step.ReplayTry? && step.lands && s.procs[step.p].replay.todo[0].id == id)
  {
  }

  /** A recovery goes on unless its process dies or it has nothing left to do. */
  predicate Interrupts(step: Step, p: Pid) {
    step.p == p && (step.Kill? || step.RecoverFinish?)
  }

  lemma RecoveryGoesOn(limit: nat, s: State, step: Step, p: Pid)
    requires Born(s) && IsReplaying(s, p) && Next(limit, s, step).Some? && !Interrupts(step, p)
    ensures var t := Next(limit, s, step).value;
            && IsReplaying(t, p) && (IsOwnTry(step, p) ==> Todo(s, p) != [])
            && Todo(t, p) == if IsOwnTry(step, p) then Todo(s, p)[1..] else Todo(s, p)
  {
    hide Missing;
    hide Kept;
    hide ReleaseAll;
    hide Insert;
  }

  lemma OwnTryInsertsHead(limit: nat, s: State, step: Step, p: Pid, e: Entry)
    requires IsReplaying(s, p) && IsOwnTry(step, p) && Next(limit, s, step).Some?
    requires UniqueIds(Todo(s, p)) && e in Todo(s, p)[1..]
    ensures e.id in s.db <==> e.id in Next(limit, s, step).value.db
  {
  }

  /** In which runs recovery meets a row that exists: the present-check was made once, under the lock, so
      an entry still to be tried has a row if and only if it had one then or another step has inserted it
      since. The recovery's own inserts never get in its way. */
  lemma {:induction false} RecoveryMeetsRowIff(g: Guards, limit: nat, s: State, steps: seq<Step>, p: Pid)
    requires Born(s) && IsReplaying(s, p) && UniqueIds(Todo(s, p)) && Run(g, limit, s, steps).Some?
    requires forall step :: step in steps ==> !Interrupts(step, p)
    ensures var t := Run(g, limit, s, steps).value;
            && IsReplaying(t, p) && |Todo(t, p)| <= |Todo(s, p)|
            && Todo(t, p) == Todo(s, p)[|Todo(s, p)| - |Todo(t, p)|..]
            && forall e :: e in Todo(t, p) ==>
                 (e.id in t.db <==> e.id in s.db || OthersInsert(limit, s, steps, p, e.id))
    decreases |steps|
  {
    hide Next;
    if steps != [] {
      var s1 := Next(limit, s, steps[0]).value;
      RecoveryGoesOn(limit, s, steps[0], p);
      StepKeepsBorn(limit, s, steps[0]);
      RecoveryMeetsRowIff(g, limit, s1, steps[1..], p);
      var t := Run(g, limit, s, steps).value;
      forall e | e in Todo(t, p)
        ensures e.id in t.db <==> e.id in s.db || OthersInsert(limit, s, steps, p, e.id)
      {
        assert e in Todo(s1, p);
        StepKeepsRows(limit, s, steps[0]);
        if IsOwnTry(steps[0], p) { OwnTryInsertsHead(limit, s, steps[0], p, e); }
      }
    }
  }

  /** From the lock on: what a recovery tries is missing until some other process, or a write of its own
      process scheduled before, inserts it. */
  lemma RecoveryTriesOnlyMissing(g: Guards, limit: nat, s: State, steps: seq<Step>, p: Pid)
    requires Born(s) && p in s.procs && NextRecoverLock(s, p).Some?
    requires s.files[s.procs[p].recovery.inode].holder.None?
    requires var s1 := NextRecoverLock(s, p).value;
             Run(g, limit, s1, steps).Some? && forall step :: step in steps ==> !Interrupts(step, p)
    ensures var s1 := NextRecoverLock(s, p).value;
            var t := Run(g, limit, s1, steps).value;
            IsReplaying(t, p) && forall e :: e in Todo(t, p) ==>
              (e.id in t.db <==> OthersInsert(limit, s1, steps, p, e.id))
  {
    var s1 := NextRecoverLock(s, p).value;
    LockTakesOnlyMissing(s, p);
    RecoveryMeetsRowIff(g, limit, s1, steps, p);
    var t := Run(g, limit, s1, steps).value;
    forall e | e in Todo(t, p) ensures e.id in t.db <==> OthersInsert(limit, s1, steps, p, e.id) {
      assert e in Todo(s1, p) && e.id in Ids(Todo(s1, p));
    }
  }

  /** What a try does to a row it meets: nothing; the entry counts as failed and is kept or dead-lettered
      although its decision is in the database. */
  lemma MetRowIsKept(limit: nat, s: State, p: Pid, lands: bool, raises: bool)
    requires IsReplaying(s, p) && Todo(s, p) != [] && Todo(s, p)[0].id in s.db
    ensures NextRecoverTry(limit, s, p, lands, raises).Some?
    ensures var t := NextRecoverTry(limit, s, p, lands, raises).value;
            var e := Todo(s, p)[0].(attempts := Todo(s, p)[0].attempts + 1);
            && t.db == s.db
            && if e.attempts < limit then Last(t.procs[p].recovery.failed) == e
               else t.procs[p].recovery.dead != [] && Last(t.procs[p].recovery.dead) == e
  {
  }

  // ---------------------------------------------------------------- each race loses a decision

  lemma {:induction false} RunConcat(g: Guards, limit: nat, s: State, a: seq<Step>, b: seq<Step>)
    requires Run(g, limit, s, a).Some?
    ensures Run(g, limit, s, a + b) == Run(g, limit, Run(g, limit, s, a).value, b)
    decreases |a|
  {
    hide Next;
    if a == [] {
      assert a + b == b;
    } else {
      assert (a + b)[0] == a[0] && (a + b)[1..] == a[1..] + b;
      RunConcat(g, limit, Next(limit, s, a[0]).value, a[1..], b);
    }
  }

  ghost predicate Reaches(g: Guards, limit: nat, s: State, t: State) {
    exists steps: seq<Step> :: Run(g, limit, s, steps) == Some(t)
  }

  lemma ReachNow(g: Guards, limit: nat, s: State)
    ensures Reaches(g, limit, s, s)
  {
    assert Run(g, limit, s, []) == Some(s);
  }

  lemma ReachNext(g: Guards, limit: nat, s: State, t: State, step: Step) returns (u: State)
    requires Reaches(g, limit, s, t) && Allowed(g, t, step) && Next(limit, t, step).Some?
    ensures u == Next(limit, t, step).value && Reaches(g, limit, s, u)
  {
    hide Next;
    hide Allowed;
    u := Next(limit, t, step).value;
    var steps :| Run(g, limit, s, steps) == Some(t);
    RunConcat(g, limit, s, steps, [step]);
    assert [step][1..] == [] && Run(g, limit, u, []) == Some(u);
    assert Run(g, limit, t, [step]) == Some(u);
  }

  lemma LosesIfReached(g: Guards, limit: nat, s: State)
    requires Reaches(g, limit, INIT, s) && !Durable(s)
    ensures !LosesNothing(g)
  {
  }

  /** Four processes and nothing else. */
  lemma Deployed(g: Guards) returns (s: State)
    ensures Reaches(g, 1, INIT, s)
    ensures s.files == [] && s.dir == map[] && s.dead == [] && s.db == map[] && s.acked == {}
    ensures forall p: Pid :: p < 4 ==> p in s.procs && s.procs[p] == NEWBORN
  {
    hide Reaches;
    ReachNow(g, 1, INIT);
    s := ReachNext(g, 1, INIT, INIT, Spawn(0));
    s := ReachNext(g, 1, INIT, s, Spawn(1));
    s := ReachNext(g, 1, INIT, s, Spawn(2));
    s := ReachNext(g, 1, INIT, s, Spawn(3));
  }

  /** A recoverer takes an empty, unowned log and removes its path. */
  lemma RemovesEmptyLog(g: Guards, s0: State, q: Pid) returns (s: State)
    requires Reaches(g, 1, INIT, s0) && q in s0.procs && s0.procs[q].recovery.Looking?
    requires Valid(s0, s0.procs[q].recovery.inode)
    requires var r := s0.procs[q].recovery;
             s0.files[r.inode] == File([], None) && (g.recovery ==> Names(s0, r.path, r.inode))
    ensures Reaches(g, 1, INIT, s)
    ensures var r := s0.procs[q].recovery;
            s.dir == s0.dir - {r.path} && s.files == s0.files
                && s.procs == s0.procs[q := s0.procs[q].(recovery := Resting)]
    ensures s.dead == s0.dead && s.db == s0.db && s.acked == s0.acked
  {
    hide Reaches;
    s := ReachNext(g, 1, INIT, s0, RecoverLock(q));
    s := ReachNext(g, 1, INIT, s, RecoverFinish(q));
  }

  /** A writer opens its log; before it takes the lock a recoverer locks the empty file and removes it; the
      writer's next decision goes to a file no path names. */
  lemma OpenRaceLoses(g: Guards)
    requires !g.lock
    ensures !LosesNothing(g)
  {
    hide Reaches;
    var s := Deployed(g);
    s := ReachNext(g, 1, INIT, s, Open(0));
    s := ReachNext(g, 1, INIT, s, RecoverOpen(1, 0));
    s := RemovesEmptyLog(g, s, 1);
    s := ReachNext(g, 1, INIT, s, Lock(0));
    UnlinkedLogLoses(g, s, 0);
  }

  /** A decision appended to a file no path names is lost. */
  lemma UnlinkedLogLoses(g: Guards, s0: State, p: Pid)
    requires Reaches(g, 1, INIT, s0) && p in s0.procs && s0.procs[p].handle.Ready?
    requires Valid(s0, s0.procs[p].handle.inode)
    requires s0.dir == map[] && s0.db == map[] && s0.dead == []
    ensures !LosesNothing(g)
  {
    hide Reaches;
    var s := ReachNext(g, 1, INIT, s0, Append(p, "d", Null));
    assert "d" in s.acked && !Covered(s, "d");
    LosesIfReached(g, 1, s);
  }

  /** Two recoverers open an orphan; one finishes and removes it, its owner starts a new file under the same
      path, and the other, holding the old file's lock, removes that path. */
  lemma RecoveryRaceLoses(g: Guards)
    requires !g.recovery
    ensures !LosesNothing(g)
  {
    hide Reaches;
    var s := TwoLookAtAnOrphan(g);
    s := RemovesEmptyLog(g, s, 1);
    var others := s.procs - {0};
    s := Logs(g, s, 0, "d");
    assert 2 in others && s.procs[2] == others[2];
    s := RemovesEmptyLog(g, s, 2);
    assert "d" in s.acked && !Covered(s, "d");
    LosesIfReached(g, 1, s);
  }

  lemma TwoLookAtAnOrphan(g: Guards) returns (s: State)
    ensures Reaches(g, 1, INIT, s) && s.files == [File([], None)] && s.dir == map[0 := 0]
    ensures s.dead == [] && s.db == map[] && s.acked == {}
    ensures 0 in s.procs && 1 in s.procs && 2 in s.procs && s.procs[0] == NEWBORN
    ensures s.procs[1].recovery == Looking(0, 0) && s.procs[2].recovery == Looking(0, 0)
  {
    hide Reaches;
    s := OrphansItsLog(g);
    s := ReachNext(g, 1, INIT, s, RecoverOpen(1, 0));
    s := ReachNext(g, 1, INIT, s, RecoverOpen(2, 0));
  }

  /** A process opens its log and lets go of it again. */
  lemma OrphansItsLog(g: Guards) returns (s: State)
    ensures Reaches(g, 1, INIT, s) && s.files == [File([], None)] && s.dir == map[0 := 0]
    ensures s.dead == [] && s.db == map[] && s.acked == {}
    ensures forall p: Pid :: p < 4 ==> p in s.procs && s.procs[p] == NEWBORN
  {
    hide Reaches;
    s := Deployed(g);
    s := ReachNext(g, 1, INIT, s, Open(0));
    s := ReachNext(g, 1, INIT, s, Lock(0));
    s := ReachNext(g, 1, INIT, s, Close(0));
  }

  lemma Logs(g: Guards, s0: State, p: Pid, id: string) returns (s: State)
    requires Reaches(g, 1, INIT, s0) && p in s0.procs && s0.procs[p] == NEWBORN && p !in s0.dir
    ensures Reaches(g, 1, INIT, s)
    ensures s.files == s0.files + [File([Whole(Entry(id, Null, 0))], Some(Writer(p)))]
    ensures s.dir == s0.dir[p := |s0.files|]
    ensures s.procs.Keys == s0.procs.Keys && s.procs - {p} == s0.procs - {p} && s.procs[p].handle == Ready(|s0.files|)
    ensures s.dead == s0.dead && s.db == s0.db && s.acked == s0.acked + {id}
  {
    hide Reaches;
    s := ReachNext(g, 1, INIT, s0, Open(p));
    s := ReachNext(g, 1, INIT, s, Lock(p));
    s := ReachNext(g, 1, INIT, s, Append(p, id, Null));
    var f := File([Whole(Entry(id, Null, 0))], Some(Writer(p)));
    assert [] + f.lines == f.lines && s.files[|s0.files|] == f;
    assert s.files == s0.files + [f];
  }

  /** A fresh process logs one decision and is killed. */
  lemma LogsThenDies(g: Guards, s0: State, p: Pid, id: string) returns (s: State)
    requires Reaches(g, 1, INIT, s0) && p in s0.procs && s0.procs[p] == NEWBORN && p !in s0.dir
    requires forall i :: 0 <= i < |s0.files| ==> s0.files[i].holder.None?
    ensures Reaches(g, 1, INIT, s)
    ensures s.files == s0.files + [File([Whole(Entry(id, Null, 0))], None)] && s.dir == s0.dir[p := |s0.files|]
    ensures s.procs == s0.procs - {p} && s.dead == s0.dead && s.db == s0.db && s.acked == s0.acked + {id}
  {
    hide Reaches;
    s := Logs(g, s0, p, id);
    var f := File([Whole(Entry(id, Null, 0))], Some(Writer(p)));
    s := ReachNext(g, 1, INIT, s, Kill(p, false));
    assert s.files == ReleaseAll(s0.files + [f], p) == s0.files + [f.(holder := None)];
  }

  lemma OneEntryToReplay(e: Entry, db: map<string, Json>)
    requires e.id !in db
    ensures Missing(ById(Parsed([Whole(e)])), db) == Missing([e], db) == [e]
  {
  }

  /** A recoverer takes an orphan with one entry, and the insert fails for the last time. */
  lemma FailsToReplay(g: Guards, s0: State, q: Pid, path: Pid, id: string) returns (s: State)
    requires Reaches(g, 1, INIT, s0) && q in s0.procs && s0.procs[q].recovery.Resting? && path in s0.dir
    requires Valid(s0, s0.dir[path]) && s0.files[s0.dir[path]] == File([Whole(Entry(id, Null, 0))], None)
    requires id !in s0.db
    ensures Reaches(g, 1, INIT, s)
    ensures var i := s0.dir[path];
            s == Set(SetFile(s0, i, s0.files[i].(holder := Some(Recoverer(q)))), q,
                     s0.procs[q].(recovery := Replaying(path, i, [], [], [Entry(id, Null, 1)])))
  {
    hide Reaches;
    hide Missing;
    hide ById;
    hide Parsed;
    var e := Entry(id, Null, 0);
    OneEntryToReplay(e, s0.db);
    s := ReachNext(g, 1, INIT, s0, RecoverOpen(q, path));
    s := ReachNext(g, 1, INIT, s, RecoverLock(q));
    assert s.procs[q].recovery == Replaying(path, s0.dir[path], [e], [], []);
    s := ReachNext(g, 1, INIT, s, RecoverTry(q, false, true));
    assert s.procs[q].recovery == Replaying(path, s0.dir[path], [], [], [Entry(id, Null, 1)]);
  }

  /** It then dead-letters the entry and removes the log. */
  lemma Buries(g: Guards, s0: State, q: Pid, path: Pid, id: string) returns (s: State)
    requires Reaches(g, 1, INIT, s0) && q in s0.procs && s0.procs[q].recovery.Resting? && path in s0.dir
    requires Valid(s0, s0.dir[path]) && s0.files[s0.dir[path]] == File([Whole(Entry(id, Null, 0))], None)
    requires id !in s0.db
    ensures Reaches(g, 1, INIT, s)
    ensures s.files == s0.files && s.dir == s0.dir - {path} && s.procs == s0.procs
    ensures s.dead == s0.dead + [Entry(id, Null, 1)] && s.db == s0.db && s.acked == s0.acked
  {
    hide Reaches;
    s := FailsToReplay(g, s0, q, path, id);
    s := ReachNext(g, 1, INIT, s, RecoverBury(q));
    s := ReachNext(g, 1, INIT, s, RecoverFinish(q));
  }

  /** A decision dead-lettered while an operator's replay is running is overwritten when the replay ends. */
  lemma ReplayRaceLoses(g: Guards)
    requires !g.replay
    ensures !LosesNothing(g)
  {
    hide Reaches;
    var s := Deployed(g);
    s := LogsThenDies(g, s, 0, "y");
    s := LogsThenDies(g, s, 1, "x");
    s := Buries(g, s, 2, 0, "y");
    s := ReplaysOver(g, s);
    assert "x" in s.acked && !Covered(s, "x");
    LosesIfReached(g, 1, s);
  }

  lemma ReplaysOver(g: Guards, s0: State) returns (s: State)
    requires !g.replay && Reaches(g, 1, INIT, s0) && 2 in s0.procs && 3 in s0.procs
    requires s0.procs[2].recovery.Resting? && s0.procs[3].replay.Idle? && s0.dir == map[1 := 1]
    requires |s0.files| > 1 && s0.files[1] == File([Whole(Entry("x", Null, 0))], None)
    requires s0.dead == [Entry("y", Null, 1)] && s0.db == map[]
    ensures Reaches(g, 1, INIT, s) && s.dir == map[] && s.dead == [] && s.db == map["y" := Null] && s.acked == s0.acked
  {
    hide Reaches;
    var y := Entry("y", Null, 1);
    assert Missing([y], s0.db) == [y] by { assert [y][1..] == [] && Missing([], s0.db) == []; }
    s := ReachNext(g, 1, INIT, s0, ReplayRead(3));
    assert s.procs[3].replay == Running([y], [y], []);
    s := Buries(g, s, 2, 1, "x");
    s := ReplaysOne(g, s, 3, y);
  }

  /** The last entry of a replay goes into the database, and the dead-letter file becomes empty. */
  lemma ReplaysOne(g: Guards, s0: State, p: Pid, y: Entry) returns (s: State)
    requires !g.replay && Reaches(g, 1, INIT, s0) && p in s0.procs && s0.procs[p].replay == Running([y], [y], [])
    requires y.id !in s0.db
    ensures Reaches(g, 1, INIT, s)
    ensures s.dir == s0.dir && s.dead == [] && s.db == s0.db[y.id := y.record] && s.acked == s0.acked
  {
    hide Reaches;
    s := ReachNext(g, 1, INIT, s0, ReplayTry(p, true, false));
    assert s.procs[p].replay == Running([y], [], []);
    s := ReachNext(g, 1, INIT, s, ReplayFinish(p));
  }

  /** The write lands after the present-check and before the try. */
  lemma WriteLandsFirst(g: Guards, s0: State) returns (s: State)
    requires Reaches(g, 1, INIT, s0) && 0 in s0.procs && s0.db == map[] && s0.dead == []
    requires s0.procs[0].recovery == Replaying(0, 0, [Entry("d", Null, 0)], [], [])
    requires s0.procs[0].unwritten == map["d" := Null]
    ensures Reaches(g, 1, INIT, s) && 0 in s.procs && s.db == map["d" := Null] && s.dead == []
    ensures s.procs[0].recovery == Replaying(0, 0, [], [], [Entry("d", Null, 1)])
  {
    hide Reaches;
    s := ReachNext(g, 1, INIT, s0, DbWrite(0, "d", true, false));
    s := ReachNext(g, 1, INIT, s, RecoverTry(0, true, false));
  }

  /** Process 0 of a fresh deployment logs a decision and, its write still scheduled, recovers its own log. */
  lemma RecoversOwnLog(g: Guards) returns (s: State)
    ensures Reaches(g, 1, INIT, s) && 0 in s.procs && s.db == map[] && s.dead == []
    ensures s.procs[0].recovery == Replaying(0, 0, [Entry("d", Null, 0)], [], [])
    ensures s.procs[0].unwritten == map["d" := Null]
  {
    hide Reaches;
    hide Missing;
    hide ById;
    hide Parsed;
    OneEntryToReplay(Entry("d", Null, 0), map[]);
    s := Deployed(g);
    s := LogsOwn(g, s);
    s := ReachNext(g, 1, INIT, s, RecoverOpen(0, 0));
    s := ReachNext(g, 1, INIT, s, RecoverLock(0));
  }

  /** It logs a decision and closes the log. */
  lemma LogsOwn(g: Guards, s0: State) returns (s: State)
    requires Reaches(g, 1, INIT, s0) && 0 in s0.procs && s0.procs[0] == NEWBORN
    requires s0.files == [] && s0.dir == map[] && s0.db == map[]
    ensures Reaches(g, 1, INIT, s) && s.db == map[] && s.dir == map[0 := 0] && s.dead == s0.dead
    ensures s.files == [File([Whole(Entry("d", Null, 0))], None)]
    ensures 0 in s.procs && s.procs[0] == NEWBORN.(unwritten := map["d" := Null])
  {
    hide Reaches;
    s := ReachNext(g, 1, INIT, s0, Open(0));
    s := ReachNext(g, 1, INIT, s, Lock(0));
    s := ReachNext(g, 1, INIT, s, Append(0, "d", Null));
    var f := File([Whole(Entry("d", Null, 0))], Some(Writer(0)));
    assert [] + f.lines == f.lines && s.files[0] == f;
    s := ReachNext(g, 1, INIT, s, Close(0));
  }

  /** A run in which recovery meets a row: a process lets go of its log while a write is scheduled and
      recovers it. The decision ends up both in the database and dead-lettered. */
  lemma PendingWriteMeetsRecovery(g: Guards) returns (s: State)
    ensures Reaches(g, 1, INIT, s) && "d" in s.db && s.dead == [Entry("d", Null, 1)]
  {
    hide Reaches;
    s := RecoversOwnLog(g);
    s := WriteLandsFirst(g, s);
    s := ReachNext(g, 1, INIT, s, RecoverBury(0));
    assert [] + [Entry("d", Null, 1)] == [Entry("d", Null, 1)];
  }

  /** Acknowledged decisions survive every run exactly when all three races are excluded. */
  lemma LosesNothingIff(g: Guards)
    ensures LosesNothing(g) <==> g.lock && g.recovery && g.replay
  {
    if !g.lock { OpenRaceLoses(g); }
    else if !g.recovery { RecoveryRaceLoses(g); }
    else if !g.replay { ReplayRaceLoses(g); }
    else { AppendedDecisionsSurvive(); }
  }
}
