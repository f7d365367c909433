/** The tamper-evident hash chain over a tenant's audit log: what `verify` accepts, and what its head commits to. */
module AuditChain {
  import opened Common
  import opened JsonValue

  /** A sequence number as stored; only an integer one predicts the next. */
  datatype Seq = Int(n: int) | NotInt(stored: Json)

  /** `content` is every chained field but the sequence number and the previous hash. */
  datatype Event = Event(content: Json, number: Seq, prev: Option<string>, hash: Option<string>, undecryptable: bool)

  /** `compute_hash`: sha256 over the canonical form of the chained fields. */
  type Digest = (Json, Seq, Option<string>) -> string

  const GENESIS := "0000000000000000000000000000000000000000000000000000000000000000"

  datatype Reason = Unchained | NotGenesis | PrevMismatch | SeqGap | Undecryptable | ContentMismatch

  datatype Break = Break(index: nat, reason: Reason)

  /** A missing or empty stored hash is a row from before the chain. */
  predicate Hashed(e: Event) {
    e.hash.Some? && e.hash.value != ""
  }

  function HashOf(h: Digest, e: Event): string {
    h(e.content, e.number, e.prev)
  }

  predicate SameChained(a: Event, b: Event) {
    a.content == b.content && a.number == b.number && a.prev == b.prev
  }

  // ---------------------------------------------------------------- the walk

  /** The last hashed row among the first `n`. */
  function LastHashed(es: seq<Event>, n: nat): (last: Option<nat>)
    requires n <= |es|
    ensures last.Some? ==> last.value < n && Hashed(es[last.value])
  {
    if n == 0 then None else if Hashed(es[n - 1]) then Some(n - 1) else LastHashed(es, n - 1)
  }

  /** The complaints about a hashed row: `expected` is the chained row before it, if any, and `first` says that no
      row at all precedes it. */
  function RowBreaks(h: Digest, e: Event, k: nat, expected: Option<Expected>, first: bool): seq<Break>
    requires Hashed(e)
  {
    (if expected.None? then if e.prev != Some(GENESIS) && first then [Break(k, NotGenesis)] else []
     else
       (if e.prev != expected.value.prev then [Break(k, PrevMismatch)] else []) +
       (if expected.value.next.Some? && e.number != Int(expected.value.next.value) then [Break(k, SeqGap)] else [])) +
    (if e.undecryptable then [Break(k, Undecryptable)]
     else if HashOf(h, e) != e.hash.value then [Break(k, ContentMismatch)] else [])
  }

  /** What a chained row predicts of the next: its previous hash, and its sequence number when its own is an integer. */
  datatype Expected = Expected(prev: Option<string>, next: Option<int>)

  function Expect(e: Event): Expected {
    Expected(e.hash, if e.number.Int? then Some(e.number.n + 1) else None)
  }

  function ExpectAt(es: seq<Event>, k: nat): Option<Expected>
    requires k <= |es|
  {
    var last := LastHashed(es, k);
    if last.Some? then Some(Expect(es[last.value])) else None
  }

  /** The complaints about row `k`, in order. */
  function BreaksAt(h: Digest, es: seq<Event>, k: nat): seq<Break>
    requires k < |es|
  {
    if Hashed(es[k]) then RowBreaks(h, es[k], k, ExpectAt(es, k), k == 0)
    else if ExpectAt(es, k).Some? then [Break(k, Unchained)]
    else []
  }

  function AllBreaks(h: Digest, es: seq<Event>, n: nat): seq<Break>
    requires n <= |es|
  {
    if n == 0 then [] else AllBreaks(h, es, n - 1) + BreaksAt(h, es, n - 1)
  }

  predicate Verified(h: Digest, e: Event) {
    Hashed(e) && !e.undecryptable && HashOf(h, e) == e.hash.value
  }

  function CountVerified(h: Digest, es: seq<Event>, n: nat): nat
    requires n <= |es|
  {
    if n == 0 then 0 else CountVerified(h, es, n - 1) + if Verified(h, es[n - 1]) then 1 else 0
  }

  /** Rows before the first hashed one. */
  function Leading(es: seq<Event>): (n: nat)
    ensures n <= |es| && (forall i :: 0 <= i < n ==> !Hashed(es[i])) && (n < |es| ==> Hashed(es[n]))
  {
    FirstHashed(es, 0)
  }

  /** The first hashed row from `start` on, or the end. */
  function FirstHashed(es: seq<Event>, start: nat): (n: nat)
    requires start <= |es|
    ensures start <= n <= |es| && (forall i :: start <= i < n ==> !Hashed(es[i])) && (n < |es| ==> Hashed(es[n]))
    decreases |es| - start
  {
    if start == |es| || Hashed(es[start]) then start else FirstHashed(es, start + 1)
  }

  lemma LeadingIs(es: seq<Event>, k: nat)
    ensures k < |es| && !Hashed(es[k]) ==> Leading(es) != k
    ensures k < |es| && Hashed(es[k]) ==> Leading(es) <= k
    ensures Leading(es) <= |es|
  {
  }

  /** `verify` */
  method Verify(h: Digest, es: seq<Event>)
    returns (verified: nat, preChain: nat, breaks: seq<Break>, head: Option<string>)
    ensures breaks == AllBreaks(h, es, |es|)
    ensures verified == CountVerified(h, es, |es|) && preChain == Leading(es)
    ensures head == Head(es)
  {
    hide Leading;
    hide RowBreaks;
    preChain, verified, breaks, head := 0, 0, [], None;
    var expected: Option<Expected> := None;
    LeadingIs(es, 0);
    for k := 0 to |es|
      invariant breaks == AllBreaks(h, es, k) && verified == CountVerified(h, es, k)
      invariant expected == ExpectAt(es, k)
      invariant head == if expected.Some? then expected.value.prev else None
      invariant preChain == if k <= Leading(es) then k else Leading(es)
      invariant expected.Some? <==> Leading(es) < k
    {
      var e := es[k];
      LeadingIs(es, k);
      if !Hashed(e) {
        if expected.Some? { breaks := breaks + [Break(k, Unchained)]; } else { preChain := preChain + 1; }
        assert AllBreaks(h, es, k) + [] == AllBreaks(h, es, k);
      } else {
        var found, good := CheckRow(h, e, k, expected, expected.None? && preChain == 0);
        breaks := breaks + found;
        if good { verified := verified + 1; }
        expected, head := Some(Expect(e)), e.hash;
      }
    }
  }

  /** The checks on one hashed row. */
  method CheckRow(h: Digest, e: Event, k: nat, expected: Option<Expected>, first: bool)
    returns (found: seq<Break>, good: bool)
    requires Hashed(e)
    ensures found == RowBreaks(h, e, k, expected, first) && good == Verified(h, e)
  {
    found := [];
    good := false;
    if expected.None? {
      if e.prev != Some(GENESIS) && first { found := [Break(k, NotGenesis)]; }
    } else {
      if e.prev != expected.value.prev { found := [Break(k, PrevMismatch)]; }
      if expected.value.next.Some? && e.number != Int(expected.value.next.value) {
        found := found + [Break(k, SeqGap)];
      }
    }
    if e.undecryptable { found := found + [Break(k, Undecryptable)]; }
    else if HashOf(h, e) != e.hash.value { found := found + [Break(k, ContentMismatch)]; }
    else { good := true; }
  }

  // ---------------------------------------------------------------- what acceptance means

  predicate Accepted(h: Digest, es: seq<Event>) {
    AllBreaks(h, es, |es|) == []
  }

  /** Row `k` continues the row before it. */
  predicate Continues(es: seq<Event>, k: nat)
    requires 0 < k < |es|
  {
    es[k].prev == es[k - 1].hash && (es[k - 1].number.Int? ==> es[k].number == Int(es[k - 1].number.n + 1))
  }

  /** Legacy rows first, then an unbroken chain of rows whose stored hash is their own, starting at genesis when
      no legacy row precedes it. */
  ghost predicate WellChained(h: Digest, es: seq<Event>) {
    var n := Leading(es);
    && (forall k :: n <= k < |es| ==> Verified(h, es[k]))
    && (forall k :: n < k < |es| ==> Continues(es, k))
    && (n == 0 && es != [] ==> es[0].prev == Some(GENESIS))
  }

  lemma {:induction false} LastHashedIs(es: seq<Event>, n: nat)
    requires n <= |es|
    ensures LastHashed(es, n).None? <==> n <= Leading(es)
    ensures Leading(es) < n && (forall k :: Leading(es) <= k < n ==> Hashed(es[k])) ==> LastHashed(es, n) == Some(n - 1)
  {
    if n > 0 { LastHashedIs(es, n - 1); }
  }

  lemma {:induction false} NoBreaksIff(h: Digest, es: seq<Event>, n: nat)
    requires n <= |es|
    ensures AllBreaks(h, es, n) == [] <==> forall k :: 0 <= k < n ==> BreaksAt(h, es, k) == []
  {
    hide BreaksAt;
    if n > 0 { NoBreaksIff(h, es, n - 1); }
  }

  /** A row is clean exactly when it is a legacy row or a verified one that continues the chain. */
  predicate RowClean(h: Digest, es: seq<Event>, k: nat)
    requires k < |es|
  {
    var n := Leading(es);
    k < n || (Verified(h, es[k]) && (n < k ==> Continues(es, k)) && (k == 0 ==> es[0].prev == Some(GENESIS)))
  }

  lemma RowBreaksNone(h: Digest, e: Event, k: nat, expected: Option<Expected>, first: bool)
    requires Hashed(e)
    ensures RowBreaks(h, e, k, expected, first) == [] <==>
            && Verified(h, e)
            && (expected.None? && first ==> e.prev == Some(GENESIS))
            && (expected.Some? ==> e.prev == expected.value.prev)
            && (expected.Some? && expected.value.next.Some? ==> e.number == Int(expected.value.next.value))
  {
  }

  lemma ExpectAtIs(es: seq<Event>, k: nat)
    requires k < |es| && forall i :: Leading(es) <= i < k ==> Hashed(es[i])
    ensures ExpectAt(es, k) == if Leading(es) < k then Some(Expect(es[k - 1])) else None
  {
  }

  lemma CleanHashedIff(h: Digest, es: seq<Event>, k: nat)
    requires Leading(es) <= k < |es| && Hashed(es[k]) && ExpectAt(es, k) == if Leading(es) < k
              then Some(Expect(es[k - 1])) else None
    ensures BreaksAt(h, es, k) == [] <==> RowClean(h, es, k)
  {
    hide Leading;
    hide ExpectAt;
    hide RowBreaks;
    hide Verified;
    RowBreaksNone(h, es[k], k, ExpectAt(es, k), k == 0);
  }

  lemma CleanIff(h: Digest, es: seq<Event>, k: nat)
    requires k < |es| && forall i :: Leading(es) <= i < k ==> Hashed(es[i])
    ensures BreaksAt(h, es, k) == [] <==> RowClean(h, es, k)
  {
    hide Leading;
    ExpectAtIs(es, k);
    LeadingIs(es, k);
    if Hashed(es[k]) {
      CleanHashedIff(h, es, k);
    }
  }

  /** `verify` accepts exactly the well-chained logs. */
  lemma AcceptedIff(h: Digest, es: seq<Event>)
    ensures Accepted(h, es) <==> WellChained(h, es)
  {
    hide AllBreaks;
    hide BreaksAt;
    hide Leading;
    NoBreaksIff(h, es, |es|);
    if Accepted(h, es) {
      HashedAllAlong(h, es, |es|);
      forall k | 0 <= k < |es| ensures RowClean(h, es, k) { CleanIff(h, es, k); }
      forall k | Leading(es) <= k < |es| ensures Verified(h, es[k]) && (Leading(es) < k ==> Continues(es, k)) {
        assert RowClean(h, es, k);
      }
      assert es != [] ==> RowClean(h, es, 0);
    }
    if WellChained(h, es) {
      assert forall i :: Leading(es) <= i < |es| ==> Verified(h, es[i]);
      forall k | 0 <= k < |es| ensures BreaksAt(h, es, k) == [] {
        assert RowClean(h, es, k);
        CleanIff(h, es, k);
      }
    }
  }

  lemma {:induction false} HashedAllAlong(h: Digest, es: seq<Event>, n: nat)
    requires n <= |es| && forall k :: 0 <= k < n ==> BreaksAt(h, es, k) == []
    ensures forall i :: Leading(es) <= i < n ==> Hashed(es[i])
  {
    if n > 0 {
      HashedAllAlong(h, es, n - 1);
      LastHashedIs(es, n - 1);
      assert BreaksAt(h, es, n - 1) == [];
    }
  }

  /** Acceptance accounts for every row: legacy or verified. */
  lemma AcceptedCounts(h: Digest, es: seq<Event>)
    requires Accepted(h, es)
    ensures CountVerified(h, es, |es|) + Leading(es) == |es|
  {
    AcceptedIff(h, es);
    CountFrom(h, es, |es|);
  }

  lemma {:induction false} CountFrom(h: Digest, es: seq<Event>, n: nat)
    requires n <= |es| && forall k :: Leading(es) <= k < |es| ==> Verified(h, es[k])
    ensures CountVerified(h, es, n) == if n <= Leading(es) then 0 else n - Leading(es)
  {
    if n > 0 { CountFrom(h, es, n - 1); }
  }

  // ---------------------------------------------------------------- what the head commits to

  /** Two rows with different chained fields and one hash. */
  ghost predicate Collision(h: Digest, a: Event, b: Event) {
    !SameChained(a, b) && HashOf(h, a) == HashOf(h, b)
  }

  /** The two logs break the hash: a collision between their rows, or a row hashing to the genesis value. */
  ghost predicate HashBroken(h: Digest, a: seq<Event>, b: seq<Event>) {
    || (exists i, j :: 0 <= i < |a| && 0 <= j < |b| && Collision(h, a[i], b[j]))
    || (exists i :: 0 <= i < |a| && HashOf(h, a[i]) == GENESIS)
    || (exists j :: 0 <= j < |b| && HashOf(h, b[j]) == GENESIS)
  }

  ghost predicate SameHistory(a: seq<Event>, b: seq<Event>) {
    |a| == |b| && forall k :: 0 <= k < |a| ==> SameChained(a[k], b[k])
  }

  /** Fully chained: accepted, with no legacy row. */
  ghost predicate FullyChained(h: Digest, es: seq<Event>) {
    Accepted(h, es) && Leading(es) == 0
  }

  function Head(es: seq<Event>): Option<string> {
    var last := LastHashed(es, |es|);
    if last.Some? then es[last.value].hash else None
  }

  lemma FullyChainedShape(h: Digest, es: seq<Event>)
    requires FullyChained(h, es)
    ensures forall k :: 0 <= k < |es| ==> Verified(h, es[k])
    ensures forall k :: 0 < k < |es| ==> Continues(es, k)
    ensures es != [] ==> es[0].prev == Some(GENESIS) && Head(es) == es[|es| - 1].hash
    ensures es == [] ==> Head(es) == None
  {
    AcceptedIff(h, es);
    LastHashedIs(es, |es|);
  }

  /** Walking back from equal last rows. */
  lemma {:induction false} WalkBack(h: Digest, a: seq<Event>, b: seq<Event>, m: nat, n: nat)
    requires FullyChained(h, a) && FullyChained(h, b) && 0 < m <= |a| && 0 < n <= |b|
    requires a[m - 1].hash == b[n - 1].hash && !HashBroken(h, a, b)
    ensures m == n && forall k :: 0 <= k < m ==> SameChained(a[k], b[k])
  {
    hide Accepted;
    hide AllBreaks;
    FullyChainedShape(h, a);
    FullyChainedShape(h, b);
    assert !Collision(h, a[m - 1], b[n - 1]);
    assert SameChained(a[m - 1], b[n - 1]);
    if m > 1 && n > 1 {
      assert Continues(a, m - 1) && Continues(b, n - 1);
      WalkBack(h, a, b, m - 1, n - 1);
    } else {
      NeverGenesis(h, a, b, a, m);
      NeverGenesis(h, a, b, b, n);
    }
  }

  lemma NeverGenesis(h: Digest, a: seq<Event>, b: seq<Event>, es: seq<Event>, m: nat)
    requires !HashBroken(h, a, b) && (es == a || es == b) && FullyChained(h, es) && 0 < m <= |es|
    ensures m > 1 ==> es[m - 1].prev != Some(GENESIS)
  {
    hide Accepted;
    FullyChainedShape(h, es);
    if m > 1 { assert Continues(es, m - 1) && Verified(h, es[m - 2]); }
  }

  /** The head commits to the whole history: two accepted, fully chained logs with the same head agree on every
      chained field of every row, or exhibit a broken hash. */
  lemma HeadCommits(h: Digest, a: seq<Event>, b: seq<Event>)
    requires FullyChained(h, a) && FullyChained(h, b) && Head(a) == Head(b)
    ensures SameHistory(a, b) || HashBroken(h, a, b)
  {
    hide Accepted;
    hide HashBroken;
    FullyChainedShape(h, a);
    FullyChainedShape(h, b);
    if a != [] && b != [] && !HashBroken(h, a, b) {
      WalkBack(h, a, b, |a|, |b|);
    }
  }

  // ---------------------------------------------------------------- deletions

  /** From row `n` on, rows are verified and continue one another. */
  ghost predicate ChainedFrom(h: Digest, es: seq<Event>, n: nat) {
    && (forall k :: n <= k < |es| ==> Verified(h, es[k]))
    && (forall k :: n < k < |es| ==> Continues(es, k))
  }

  lemma CutStaysChained(h: Digest, es: seq<Event>, n: nat, k: nat)
    requires ChainedFrom(h, es, n) && n + k < |es|
    ensures ChainedFrom(h, es[..n] + es[n + k..], n)
  {
    hide Verified;
    hide Continues;
    var cut := es[..n] + es[n + k..];
    forall i | n <= i < |cut| ensures Verified(h, cut[i]) { assert cut[i] == es[i + k]; }
    forall i | n < i < |cut| ensures Continues(cut, i) { CutContinues(es, cut, i, k); }
  }

  /** Cutting the front of the chain: detected exactly when no legacy row precedes it (and no hash is the genesis
      value). With one legacy row the genesis check is not made. */
  lemma FrontDeletionAcceptedIff(h: Digest, es: seq<Event>, k: nat)
    requires Accepted(h, es) && 0 < k && Leading(es) + k < |es|
    ensures var n := Leading(es);
            Accepted(h, es[..n] + es[n + k..]) <==> n > 0 || es[n + k].prev == Some(GENESIS)
  {
    hide Accepted;
    hide Leading;
    hide Continues;
    var n := Leading(es);
    var cut := es[..n] + es[n + k..];
    AcceptedIff(h, es);
    AcceptedIff(h, cut);
    assert ChainedFrom(h, es, n) && Verified(h, es[n + k]);
    LeadingOfCut(es, n, n + k);
    CutStaysChained(h, es, n, k);
    assert cut[n] == es[n + k];
  }

  lemma LeadingIsUnique(es: seq<Event>, n: nat)
    requires n <= |es| && (forall i :: 0 <= i < n ==> !Hashed(es[i])) && (n < |es| ==> Hashed(es[n]))
    ensures Leading(es) == n
  {
  }

  lemma LeadingOfCut(es: seq<Event>, n: nat, m: nat)
    requires n == Leading(es) <= m < |es| && Hashed(es[m])
    ensures Leading(es[..n] + es[m..]) == n
  {
    hide Leading;
    hide Hashed;
    var cut := es[..n] + es[m..];
    assert cut[n] == es[m];
    LeadingIsUnique(cut, n);
  }

  lemma CutContinues(es: seq<Event>, cut: seq<Event>, i: nat, k: nat)
    requires 0 < i < |cut| && i + k < |es| && cut[i] == es[i + k] && cut[i - 1] == es[i + k - 1] && Continues(es, i + k)
    ensures Continues(cut, i)
  {
  }

  lemma {:induction false} SeqsRise(h: Digest, es: seq<Event>, i: nat, j: nat)
    requires WellChained(h, es) && Leading(es) <= i <= j < |es| && es[i].number.Int?
    ensures es[j].number == Int(es[i].number.n + (j - i))
    decreases j
  {
    if i < j {
      SeqsRise(h, es, i, j - 1);
      assert Continues(es, j);
    }
  }

  /** Deleting a run inside the chain escapes exactly when the row before it carries no integer sequence number
      and the row after it names that row's hash: with an integer there, never, whatever the hash. */
  lemma InnerDeletionAcceptedIff(h: Digest, es: seq<Event>, i: nat, j: nat)
    requires Accepted(h, es) && Leading(es) < i < j < |es|
    ensures Accepted(h, es[..i] + es[j..]) <==> !es[i - 1].number.Int? && es[j].prev == es[i - 1].hash
  {
    hide Accepted;
    hide Leading;
    hide Verified;
    hide Continues;
    var cut := es[..i] + es[j..];
    AcceptedIff(h, es);
    AcceptedIff(h, cut);
    LeadingOfPrefix(h, es, cut, i);
    InnerCutContinuesIff(h, es, i, j);
    forall k | Leading(es) <= k < |cut| ensures Verified(h, cut[k]) {
      assert cut[k] == if k < i then es[k] else es[k + (j - i)];
    }
    forall k | Leading(es) < k < |cut| && k != i ensures Continues(cut, k) {
      if k < i { CutContinues(es, cut, k, 0); } else { CutContinues(es, cut, k, j - i); }
    }
    assert cut[0] == es[0];
  }

  lemma LeadingOfPrefix(h: Digest, es: seq<Event>, cut: seq<Event>, i: nat)
    requires Leading(es) < i <= |es| && i <= |cut| && cut[..i] == es[..i]
    ensures Leading(cut) == Leading(es)
  {
    hide Leading;
    var n := Leading(es);
    forall k | 0 <= k <= n ensures cut[k] == es[k] { assert cut[..i][k] == es[..i][k]; }
    LeadingIsUnique(cut, n);
  }

  /** The row after the gap continues the row before it. */
  lemma InnerCutContinuesIff(h: Digest, es: seq<Event>, i: nat, j: nat)
    requires WellChained(h, es) && Leading(es) < i < j < |es|
    ensures var cut := es[..i] + es[j..];
            Continues(cut, i) <==> !es[i - 1].number.Int? && es[j].prev == es[i - 1].hash
  {
    hide Leading;
    hide WellChained;
    if es[i - 1].number.Int? { SeqsRise(h, es, i - 1, j); }
  }

  /** Editing a row's chained fields while keeping its stored hash is detected unless it is a collision. */
  lemma EditDetected(h: Digest, es: seq<Event>, i: nat, e: Event)
    requires Accepted(h, es) && i < |es| && Hashed(es[i]) && e.hash == es[i].hash && !SameChained(e, es[i])
    ensures Accepted(h, es[i := e]) ==> Collision(h, e, es[i])
  {
    hide Accepted;
    AcceptedIff(h, es);
    var edited := es[i := e];
    AcceptedIff(h, edited);
    assert Leading(edited) <= i && Leading(es) <= i by { assert edited[i] == e; }
    if Accepted(h, edited) { assert Verified(h, edited[i]) && Verified(h, es[i]); }
  }
}
