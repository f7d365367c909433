/** Last-writer-wins field registers: merging, convergence of replicas, edits, three-way merge and time travel. */
module Crdt {
  import opened Common
  import opened JsonValue

  datatype Field = Field(value: Json, ts: real, actor: string)

  type Doc = map<string, Field>

  type Plain = map<string, Json>

  // ---------------------------------------------------------------- stamps

  /** Python's `a >= b` on strings. */
  predicate AtLeast(a: string, b: string) {
    b == [] || (a != [] && (a[0] > b[0] || (a[0] == b[0] && AtLeast(a[1..], b[1..]))))
  }

  lemma {:induction false} AtLeastIsTotal(a: string, b: string)
    ensures AtLeast(a, b) || AtLeast(b, a)
    ensures AtLeast(a, b) && AtLeast(b, a) ==> a == b
  {
    if a != [] && b != [] && a[0] == b[0] {
      AtLeastIsTotal(a[1..], b[1..]);
      assert a == [a[0]] + a[1..] && b == [b[0]] + b[1..];
    }
  }

  lemma {:induction false} AtLeastIsTransitive(a: string, b: string, c: string)
    requires AtLeast(a, b) && AtLeast(b, c)
    ensures AtLeast(a, c)
  {
    if c != [] && a[0] == b[0] && b[0] == c[0] { AtLeastIsTransitive(a[1..], b[1..], c[1..]); }
  }

  lemma {:induction false} AtLeastSelf(a: string)
    ensures AtLeast(a, a)
  {
    if a != [] { AtLeastSelf(a[1..]); }
  }

  predicate SameStamp(a: Field, b: Field) {
    a.ts == b.ts && a.actor == b.actor
  }

  /** `a`'s stamp is not below `b`'s. */
  predicate Beats(a: Field, b: Field) {
    a.ts > b.ts || (a.ts == b.ts && AtLeast(a.actor, b.actor))
  }

  /** `_wins` */
  function Wins(a: Field, b: Field): Field {
    if Beats(a, b) then a else b
  }

  lemma BeatsIsATotalPreorder(a: Field, b: Field, c: Field)
    ensures Beats(a, a) && (Beats(a, b) || Beats(b, a))
    ensures Beats(a, b) && Beats(b, c) ==> Beats(a, c)
    ensures Beats(a, b) && Beats(b, a) ==> SameStamp(a, b)
  {
    AtLeastSelf(a.actor);
    AtLeastIsTotal(a.actor, b.actor);
    if AtLeast(a.actor, b.actor) && AtLeast(b.actor, c.actor) { AtLeastIsTransitive(a.actor, b.actor, c.actor); }
  }

  // ---------------------------------------------------------------- merge

  function Merge(a: Doc, b: Doc): Doc {
    map k | k in a.Keys + b.Keys :: if k !in b then a[k] else if k !in a then b[k] else Wins(a[k], b[k])
  }

  /** Associativity needs no condition: ties go to the left on both sides. */
  lemma MergeIsAssociative(a: Doc, b: Doc, c: Doc)
    ensures Merge(Merge(a, b), c) == Merge(a, Merge(b, c))
  {
    forall k | k in Merge(Merge(a, b), c) ensures Merge(Merge(a, b), c)[k] == Merge(a, Merge(b, c))[k] {
      if k in a && k in b && k in c {
        BeatsIsATotalPreorder(a[k], b[k], c[k]);
        BeatsIsATotalPreorder(b[k], c[k], a[k]);
        BeatsIsATotalPreorder(b[k], a[k], c[k]);
        BeatsIsATotalPreorder(a[k], c[k], b[k]);
      }
    }
  }

  /** A stamp determines the value of a field, between two documents. */
  predicate Agree(a: Doc, b: Doc) {
    forall k :: k in a && k in b && SameStamp(a[k], b[k]) ==> a[k] == b[k]
  }

  /** Order matters exactly when the two disagree on a field stamped alike. */
  lemma MergeCommutesIff(a: Doc, b: Doc)
    ensures Merge(a, b) == Merge(b, a) <==> Agree(a, b)
  {
    forall k | k in a && k in b ensures Wins(a[k], b[k]) == Wins(b[k], a[k])
        <==> (SameStamp(a[k], b[k]) ==> a[k] == b[k]) {
      BeatsIsATotalPreorder(a[k], b[k], a[k]);
      BeatsIsATotalPreorder(b[k], a[k], b[k]);
    }
    if Merge(a, b) == Merge(b, a) {
      forall k | k in a && k in b && SameStamp(a[k], b[k]) ensures a[k] == b[k] {
        assert Merge(a, b)[k] == Merge(b, a)[k];
      }
    }
  }

  // ---------------------------------------------------------------- convergence

  /** How a replica came to its state: documents merged in some order and grouping, some perhaps repeatedly. */
  datatype History = Seen(doc: Doc) | Merged(left: History, right: History)

  function State(h: History): Doc {
    match h
    case Seen(doc) => doc
    case Merged(left, right) => Merge(State(left), State(right))
  }

  function SeenDocs(h: History): set<Doc> {
    match h
    case Seen(doc) => {doc}
    case Merged(left, right) => SeenDocs(left) + SeenDocs(right)
  }

  ghost predicate Consistent(docs: set<Doc>) {
    forall a, b :: a in docs && b in docs ==> Agree(a, b)
  }

  /** `d` is the join of the documents: per field one of theirs, beating all others. */
  ghost predicate IsJoin(docs: set<Doc>, d: Doc) {
    Dominates(docs, d) && Attained(docs, d)
  }

  ghost predicate Dominates(docs: set<Doc>, d: Doc) {
    forall a, k :: a in docs && k in a ==> k in d && Beats(d[k], a[k])
  }

  ghost predicate Attained(docs: set<Doc>, d: Doc) {
    forall k :: k in d ==> exists a :: a in docs && k in a && a[k] == d[k]
  }

  lemma {:induction false} StateIsJoin(h: History)
    ensures IsJoin(SeenDocs(h), State(h))
  {
    match h
    case Seen(doc) =>
      forall k | k in doc ensures Beats(doc[k], doc[k]) { AtLeastSelf(doc[k].actor); }
    case Merged(left, right) =>
      StateIsJoin(left);
      StateIsJoin(right);
      MergeIsJoin(SeenDocs(left), State(left), SeenDocs(right), State(right));
  }

  lemma MergeIsJoin(xs: set<Doc>, x: Doc, ys: set<Doc>, y: Doc)
    requires IsJoin(xs, x) && IsJoin(ys, y)
    ensures IsJoin(xs + ys, Merge(x, y))
  {
    var m := Merge(x, y);
    forall a, k | a in xs + ys && k in a ensures k in m && Beats(m[k], a[k]) {
      if k in x && k in y {
        BeatsIsATotalPreorder(x[k], y[k], a[k]);
        BeatsIsATotalPreorder(y[k], x[k], a[k]);
      }
    }
  }

  lemma WinnersAgree(a: Doc, b: Doc, k: string)
    requires k in a && k in b && Beats(a[k], b[k]) && Beats(b[k], a[k]) && Agree(a, b)
    ensures a[k] == b[k]
  {
    BeatsIsATotalPreorder(a[k], b[k], a[k]);
  }

  lemma JoinComesFrom(docs: set<Doc>, x: Doc, k: string) returns (a: Doc)
    requires Attained(docs, x) && k in x
    ensures a in docs && k in a && a[k] == x[k]
  {
    a :| a in docs && k in a && a[k] == x[k];
  }

  lemma JoinBeats(docs: set<Doc>, x: Doc, a: Doc, k: string)
    requires Dominates(docs, x) && a in docs && k in a
    ensures k in x && Beats(x[k], a[k])
  {
  }

  lemma AreConsistent(docs: set<Doc>, a: Doc, b: Doc)
    requires Consistent(docs) && a in docs && b in docs
    ensures Agree(a, b)
  {
  }

  lemma JoinIsUnique(docs: set<Doc>, x: Doc, y: Doc)
    requires IsJoin(docs, x) && IsJoin(docs, y) && Consistent(docs)
    ensures x == y
  {
    hide Dominates;
    hide Attained;
    hide Consistent;
    hide Agree;
    hide Beats;
    forall k | k in x ensures k in y && x[k] == y[k] {
      var a := JoinComesFrom(docs, x, k);
      JoinBeats(docs, y, a, k);
      var b := JoinComesFrom(docs, y, k);
      JoinBeats(docs, x, b, k);
      AreConsistent(docs, a, b);
      WinnersAgree(a, b, k);
    }
    forall k | k in y ensures k in x {
      var b := JoinComesFrom(docs, y, k);
      JoinBeats(docs, x, b, k);
    }
    assert x.Keys == y.Keys;
  }

  /** Replicas that absorbed the same documents, in any order, grouping and repetition, hold the same state. */
  lemma ReplicasConverge(g: History, h: History)
    requires SeenDocs(g) == SeenDocs(h) && Consistent(SeenDocs(g))
    ensures State(g) == State(h)
  {
    hide State;
    hide SeenDocs;
    hide IsJoin;
    hide Consistent;
    StateIsJoin(g);
    StateIsJoin(h);
    JoinIsUnique(SeenDocs(g), State(g), State(h));
  }

  /** Whatever two replicas saw of these documents, having seen the same they hold the same state. */
  ghost predicate Converges(docs: set<Doc>) {
    forall g, h :: SeenDocs(g) == SeenDocs(h) <= docs ==> State(g) == State(h)
  }

  /** Convergence over everything a set of documents can give rise to holds exactly when stamps determine values. */
  lemma ReplicasConvergeIff(docs: set<Doc>)
    ensures Converges(docs) <==> Consistent(docs)
  {
    hide Agree;
    if Consistent(docs) {
      forall g, h | SeenDocs(g) == SeenDocs(h) <= docs ensures State(g) == State(h) { ReplicasConverge(g, h); }
    }
    if Converges(docs) {
      forall a, b | a in docs && b in docs ensures Agree(a, b) {
        var g, h := Merged(Seen(a), Seen(b)), Merged(Seen(b), Seen(a));
        PairsAreSeen(a, b);
        assert SeenDocs(g) == SeenDocs(h) <= docs;
        assert State(g) == State(h);
        MergeCommutesIff(a, b);
      }
    }
  }

  lemma PairsAreSeen(a: Doc, b: Doc)
    ensures SeenDocs(Merged(Seen(a), Seen(b))) == {a, b} && State(Merged(Seen(a), Seen(b))) == Merge(a, b)
    ensures SeenDocs(Merged(Seen(b), Seen(a))) == {a, b} && State(Merged(Seen(b), Seen(a))) == Merge(b, a)
  {
  }

  // ---------------------------------------------------------------- edits

  function ToCrdt(plain: Plain, ts: real, actor: string): Doc {
    map k | k in plain :: Field(plain[k], ts, actor)
  }

  function ToPlain(doc: Doc): Plain {
    map k | k in doc :: doc[k].value
  }

  /** `apply_edit` is a merge with the stamped changes. */
  function ApplyEdit(doc: Doc, changes: Plain, ts: real, actor: string): Doc {
    Merge(doc, ToCrdt(changes, ts, actor))
  }

  /** `apply_edit` as written: one field after the other. */
  method ApplyEditLoop(doc: Doc, changes: Plain, ts: real, actor: string) returns (merged: Doc)
    ensures merged == ApplyEdit(doc, changes, ts, actor)
  {
    hide ApplyEdit;
    NothingToEdit(doc, changes, ts, actor);
    merged := doc;
    var todo := changes.Keys;
    while todo != {}
      invariant todo <= changes.Keys
      invariant merged == ApplyEdit(doc, changes - todo, ts, actor)
      decreases |todo|
    {
      var k :| k in todo;
      var candidate := Field(changes[k], ts, actor);
      EditOneMore(doc, changes, ts, actor, todo, k);
      merged := merged[k := if k in merged then Wins(merged[k], candidate) else candidate];
      todo := todo - {k};
    }
    assert changes - todo == changes;
  }

  lemma NothingToEdit(doc: Doc, changes: Plain, ts: real, actor: string)
    ensures ApplyEdit(doc, changes - changes.Keys, ts, actor) == doc
  {
  }

  lemma EditOneMore(doc: Doc, changes: Plain, ts: real, actor: string, todo: set<string>, k: string)
    requires k in todo && todo <= changes.Keys
    ensures var merged, candidate := ApplyEdit(doc, changes - todo, ts, actor), Field(changes[k], ts, actor);
            ApplyEdit(doc, changes - (todo - {k}), ts, actor) ==
            merged[k := if k in merged then Wins(merged[k], candidate) else candidate]
  {
  }

  /** `merge` as written. */
  method MergeLoop(a: Doc, b: Doc) returns (out: Doc)
    ensures out == Merge(a, b)
  {
    hide Merge;
    hide Wins;
    NothingToMerge(a, b);
    out := a;
    var todo := b.Keys;
    while todo != {}
      invariant todo <= b.Keys
      invariant out == Merge(a, b - todo)
      decreases |todo|
    {
      var k :| k in todo;
      MergeOneMore(a, b, todo, k);
      out := out[k := if k in out then Wins(out[k], b[k]) else b[k]];
      todo := todo - {k};
    }
    assert b - todo == b;
  }

  lemma NothingToMerge(a: Doc, b: Doc)
    ensures Merge(a, b - b.Keys) == a
  {
  }

  lemma MergeOneMore(a: Doc, b: Doc, todo: set<string>, k: string)
    requires k in todo && todo <= b.Keys
    ensures var out := Merge(a, b - todo);
            Merge(a, b - (todo - {k})) == out[k := if k in out then Wins(out[k], b[k]) else b[k]]
  {
  }

  /** A stamp above every stamp in the document. */
  predicate Above(doc: Doc, ts: real) {
    forall k :: k in doc ==> doc[k].ts < ts
  }

  /** An edit stamped above everything wins on all of its fields and touches no other. */
  lemma HigherEditWins(doc: Doc, changes: Plain, ts: real, actor: string)
    requires Above(doc, ts)
    ensures ToPlain(ApplyEdit(doc, changes, ts, actor)) == ToPlain(doc) + changes
  {
  }

  // ---------------------------------------------------------------- three-way merge

  function Get(m: Plain, k: string): Json {
    if k in m then m[k] else Null
  }

  /** The fields an author changed: their value differs from the base's, an absent field counting as null. */
  function Changed(base: Plain, edit: Plain): Plain {
    map k | k in edit && Get(base, k) != edit[k] :: edit[k]
  }

  const BASE_ACTOR := "__base__"

  function ThreeWay(base: Plain, a: Plain, b: Plain, tsA: real, actorA: string, tsB: real, actorB: string)
    : (Plain, set<string>)
  {
    var ca, cb := Changed(base, a), Changed(base, b);
    (ToPlain(ApplyEdit(ApplyEdit(ToCrdt(base, 0.0, BASE_ACTOR), ca, tsA, actorA), cb, tsB, actorB)), ca.Keys * cb.Keys)
  }

  /** A stamp that beats the base document's. */
  predicate Counts(ts: real, actor: string) {
    !Beats(Field(Null, 0.0, BASE_ACTOR), Field(Null, ts, actor))
  }

  /** With stamps above the base's: what one author changed survives, what both changed goes to the higher stamp
      (the first author on a full tie), everything else is the base's, and exactly the doubly changed fields are
      reported. */
  lemma ThreeWayKeepsEdits(base: Plain, a: Plain, b: Plain, tsA: real, actorA: string, tsB: real, actorB: string,
                           k: string)
    requires Counts(tsA, actorA) && Counts(tsB, actorB)
    ensures var (merged, conflicts) := ThreeWay(base, a, b, tsA, actorA, tsB, actorB);
            var ca, cb := Changed(base, a), Changed(base, b);
            && (k in conflicts <==> k in ca && k in cb)
            && (k in merged <==> k in base || k in ca || k in cb)
            && (k in ca && k !in cb ==> merged[k] == a[k])
            && (k !in ca && k in cb ==> merged[k] == b[k])
            && (k in ca && k in cb ==> merged[k] == if Beats(Field(Null, tsA, actorA), Field(Null, tsB, actorB))
                then a[k] else b[k])
            && (k in base && k !in ca && k !in cb ==> merged[k] == base[k])
  {
  }

  /** A field only one author changed is lost exactly when the base has it and the author's stamp does not beat the
      base's own (a timestamp below zero, or zero with an actor not after "__base__"). */
  lemma LoneEditSurvivesIff(base: Plain, a: Plain, b: Plain, tsA: real, actorA: string, tsB: real, actorB: string,
                            k: string)
    requires k in Changed(base, a) && k !in Changed(base, b)
    ensures ThreeWay(base, a, b, tsA, actorA, tsB, actorB).0[k] == a[k] <==> k !in base || Counts(tsA, actorA)
  {
  }

  /** Swapping the authors gives the same document when no field both changed carries two values under one stamp. */
  lemma ThreeWayIsSymmetricIff(base: Plain, a: Plain, b: Plain, tsA: real, actorA: string, tsB: real, actorB: string)
    requires Counts(tsA, actorA) && Counts(tsB, actorB)
    ensures ThreeWay(base, a, b, tsA, actorA, tsB, actorB) == ThreeWay(base, b, a, tsB, actorB, tsA, actorA) <==>
            (tsA == tsB && actorA == actorB ==>
              forall k :: k in Changed(base, a) && k in Changed(base, b) ==> a[k] == b[k])
  {
    hide ThreeWay;
    var x, y := ThreeWay(base, a, b, tsA, actorA, tsB, actorB), ThreeWay(base, b, a, tsB, actorB, tsA, actorA);
    var fa, fb := Field(Null, tsA, actorA), Field(Null, tsB, actorB);
    BeatsIsATotalPreorder(fa, fb, fa);
    forall k ensures k in x.0 <==> k in y.0
             ensures k in x.1 <==> k in y.1
             ensures k in x.0 ==> (x.0[k] == y.0[k] <==>
               (tsA == tsB && actorA == actorB && k in Changed(base, a) && k in Changed(base, b) ==> a[k] == b[k]))
    {
      ThreeWayKeepsEdits(base, a, b, tsA, actorA, tsB, actorB, k);
      ThreeWayKeepsEdits(base, b, a, tsB, actorB, tsA, actorA, k);
    }
    assert x.1 == y.1;
    if tsA == tsB && actorA == actorB ==> forall k :: k in Changed(base, a) && k in Changed(base, b) ==> a[k] == b[k] {
      assert x.0 == y.0;
    } else {
      var k :| k in Changed(base, a) && k in Changed(base, b) && a[k] != b[k];
      ThreeWayKeepsEdits(base, a, b, tsA, actorA, tsB, actorB, k);
      assert x.0[k] != y.0[k];
    }
  }

  // ---------------------------------------------------------------- time travel

  datatype Version = Version(version: int, doc: Plain)

  /** The greatest version not above `v`, the last of several with one number. */
  function Latest(history: seq<Version>, v: int): Option<Version> {
    if history == [] then None
    else
      var best, e := Latest(history[..|history| - 1], v), history[|history| - 1];
      if e.version <= v && (best.None? || e.version >= best.value.version) then Some(e) else best
  }

  function AsOf(history: seq<Version>, v: int): Option<Plain> {
    var chosen := Latest(history, v);
    if chosen.None? then None else Some(chosen.value.doc)
  }

  ghost predicate Ascending(history: seq<Version>) {
    forall i, j :: 0 <= i < j < |history| ==> history[i].version <= history[j].version
  }

  /** Python's stable `sorted` by version: each entry goes after those not above it. */
  function Insert(sorted: seq<Version>, e: Version): seq<Version> {
    if sorted == [] || sorted[|sorted| - 1].version <= e.version then sorted + [e]
    else Insert(sorted[..|sorted| - 1], e) + [sorted[|sorted| - 1]]
  }

  function Sorted(history: seq<Version>): seq<Version> {
    if history == [] then [] else Insert(Sorted(history[..|history| - 1]), history[|history| - 1])
  }

  /** Looking one entry further. */
  function Step(best: Option<Version>, e: Version, v: int): Option<Version> {
    if e.version <= v && (best.None? || e.version >= best.value.version) then Some(e) else best
  }

  lemma {:induction false} LatestOfSorted(s: seq<Version>, v: int)
    requires Ascending(s)
    ensures s != [] && s[|s| - 1].version <= v ==> Latest(s, v) == Some(s[|s| - 1])
    ensures Latest(s, v).Some? ==> Latest(s, v).value in s
  {
    if s != [] {
      var front := s[..|s| - 1];
      LatestOfSorted(front, v);
    }
  }

  lemma {:induction false} InsertKeepsElements(s: seq<Version>, e: Version)
    ensures forall x :: x in Insert(s, e) <==> x in s || x == e
  {
    if s != [] && s[|s| - 1].version > e.version {
      var n := |s| - 1;
      InsertKeepsElements(s[..n], e);
      assert s == s[..n] + [s[n]];
    }
  }

  lemma {:induction false} InsertKeepsOrder(s: seq<Version>, e: Version)
    requires Ascending(s)
    ensures Ascending(Insert(s, e))
  {
    hide Insert;
    InsertByOne(s, e);
    if s != [] && s[|s| - 1].version > e.version {
      var n := |s| - 1;
      var front, last := s[..n], s[n];
      InsertKeepsOrder(front, e);
      InsertKeepsElements(front, e);
      var inner := Insert(front, e);
      forall i | 0 <= i < |inner| ensures inner[i].version <= last.version { assert inner[i] in inner; }
    }
  }

  lemma InsertByOne(s: seq<Version>, e: Version)
    ensures Insert(s, e) == if s == [] || s[|s| - 1].version <= e.version then s + [e]
                            else Insert(s[..|s| - 1], e) + [s[|s| - 1]]
  {
  }

  lemma LatestOfSnoc(s: seq<Version>, e: Version, v: int)
    ensures Latest(s + [e], v) == Step(Latest(s, v), e, v)
  {
  }

  lemma {:induction false} InsertIsStable(s: seq<Version>, e: Version, v: int)
    requires Ascending(s)
    ensures Latest(Insert(s, e), v) == Step(Latest(s, v), e, v)
  {
    hide Latest;
    if s == [] || s[|s| - 1].version <= e.version {
      LatestOfSnoc(s, e, v);
    } else {
      var n := |s| - 1;
      var front, last := s[..n], s[n];
      assert s == front + [last];
      InsertIsStable(front, e, v);
      LatestOfSnoc(Insert(front, e), last, v);
      LatestOfSnoc(front, last, v);
      LatestOfSorted(front, v);
    }
  }

  lemma {:induction false} SortingKeepsLatest(history: seq<Version>, v: int)
    ensures Ascending(Sorted(history)) && Latest(Sorted(history), v) == Latest(history, v)
  {
    if history != [] {
      var n := |history| - 1;
      SortingKeepsLatest(history[..n], v);
      InsertKeepsOrder(Sorted(history[..n]), history[n]);
      InsertIsStable(Sorted(history[..n]), history[n], v);
    }
  }

  lemma PrefixLatest(s: seq<Version>, i: nat, v: int)
    requires Ascending(s) && i < |s| && s[i].version <= v
    ensures Latest(s[..i + 1], v) == Some(s[i])
  {
    LatestOfSorted(s[..i + 1], v);
  }

  lemma RestIsGreater(s: seq<Version>, i: nat, v: int)
    requires Ascending(s) && i <= |s| && (i < |s| ==> s[i].version > v)
    ensures Latest(s, v) == Latest(s[..i], v)
  {
    var rest := s[i..];
    forall j | 0 <= j < |rest| ensures rest[j].version > v { assert rest[j] == s[i + j]; }
    GreaterOnesDoNotCount(s[..i], rest, v);
    assert s == s[..i] + rest;
  }

  /** `doc_as_of` as written: sort, then walk up to the first greater version. */
  method DocAsOf(history: seq<Version>, v: int) returns (doc: Option<Plain>)
    ensures doc == AsOf(history, v)
  {
    SortingKeepsLatest(history, v);
    var s := Sorted(history);
    var chosen: Option<Version> := None;
    var i := 0;
    assert Latest(s[..0], v) == None;
    hide Latest;
    hide Sorted;
    while i < |s| && s[i].version <= v
      invariant i <= |s| && chosen == Latest(s[..i], v)
    {
      PrefixLatest(s, i, v);
      chosen := Some(s[i]);
      i := i + 1;
    }
    RestIsGreater(s, i, v);
    doc := if chosen.None? then None else Some(chosen.value.doc);
  }

  lemma {:induction false} GreaterOnesDoNotCount(a: seq<Version>, b: seq<Version>, v: int)
    requires forall i :: 0 <= i < |b| ==> b[i].version > v
    ensures Latest(a + b, v) == Latest(a, v)
  {
    if b == [] {
      assert a + b == a;
    } else {
      assert (a + b)[..|a + b| - 1] == a + b[..|b| - 1];
      GreaterOnesDoNotCount(a, b[..|b| - 1], v);
    }
  }

  /** What a version reads never changes as later versions are added. */
  lemma AsOfIsStable(history: seq<Version>, more: seq<Version>, v: int)
    requires forall i :: 0 <= i < |more| ==> more[i].version > v
    ensures AsOf(history + more, v) == AsOf(history, v)
  {
    GreaterOnesDoNotCount(history, more, v);
  }
}
