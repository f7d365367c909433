/** Traffic split of a running experiment: ramp schedules, effective weights, hash residues, and stickiness. */
module Experiments {
  import opened Common

  datatype RampStep = RampStep(day: real, weight: real)

  /** `weight` is the authored integer weight; `ramp` is empty when none is authored. */
  datatype Variant = Variant(champion: bool, weight: int, ramp: seq<RampStep>)

  /** Python's `int()` on a float: towards zero. */
  function Trunc(x: real): int {
    if x >= 0.0 then x.Floor else -((-x).Floor)
  }

  // ---------------------------------------------------------------- the ramp

  /** The step with the latest day not after `elapsed`; the first of several on one day. */
  function LatestStep(ramp: seq<RampStep>, elapsed: real): Option<RampStep> {
    if ramp == [] then None
    else
      var best, step := LatestStep(ramp[..|ramp| - 1], elapsed), ramp[|ramp| - 1];
      if step.day <= elapsed && (best.None? || step.day > best.value.day) then Some(step) else best
  }

  /** `current_ramp_weight`: before the first applicable day, the first authored step. */
  function RampWeight(v: Variant, elapsed: real): Option<real> {
    if v.ramp == [] then None
    else if LatestStep(v.ramp, elapsed).Some? then Some(LatestStep(v.ramp, elapsed).value.weight)
    else Some(v.ramp[0].weight)
  }

  /** `_effective_weight` */
  function EffectiveWeight(v: Variant, elapsed: Option<real>): int {
    if elapsed.Some? && v.ramp != [] then Trunc(RampWeight(v, elapsed.value).value) else v.weight
  }

  function EffectiveWeights(vs: seq<Variant>, elapsed: Option<real>): (ws: seq<int>)
    ensures |ws| == |vs|
  {
    seq(|vs|, i requires 0 <= i < |vs| => EffectiveWeight(vs[i], elapsed))
  }

  predicate Ramped(vs: seq<Variant>, elapsed: Option<real>) {
    elapsed.Some? && exists v :: v in vs && v.ramp != []
  }

  /** The declared champion, or the first variant. */
  function ChampionIndex(vs: seq<Variant>): (i: nat)
    requires vs != []
    ensures i < |vs|
  {
    if exists j :: 0 <= j < |vs| && vs[j].champion then FirstChampion(vs) else 0
  }

  function FirstChampion(vs: seq<Variant>): (i: nat)
    requires exists j :: 0 <= j < |vs| && vs[j].champion
    ensures i < |vs| && vs[i].champion && forall j :: 0 <= j < i ==> !vs[j].champion
  {
    if vs[0].champion then 0
    else
      assert exists j :: 0 <= j < |vs[1..]| && vs[1..][j].champion by {
        var j :| 0 <= j < |vs| && vs[j].champion;
        assert vs[1..][j - 1] == vs[j];
      }
      1 + FirstChampion(vs[1..])
  }

  function Sum(ws: seq<int>): int {
    if ws == [] then 0 else Sum(ws[..|ws| - 1]) + ws[|ws| - 1]
  }

  /** What the challengers are entitled to together. */
  function Others(ws: seq<int>, champion: nat): int
    requires champion < |ws|
  {
    Sum(ws) - ws[champion]
  }

  /** `_weights_for` */
  function WeightsFor(vs: seq<Variant>, elapsed: Option<real>): (ws: seq<int>)
    ensures |ws| == |vs|
  {
    var ws := EffectiveWeights(vs, elapsed);
    if vs == [] || !Ramped(vs, elapsed) then ws
    else
      var c := ChampionIndex(vs);
      ws[c := if 100 - Others(ws, c) > 0 then 100 - Others(ws, c) else 0]
  }

  // ---------------------------------------------------------------- assignment

  /** The variant a residue falls to: the first whose cumulative weight exceeds it, else the last. */
  function Bucket(ws: seq<int>, residue: int, start: nat, cumulative: int): nat
    requires start <= |ws| && ws != []
    decreases |ws| - start
  {
    if start == |ws| then |ws| - 1
    else if residue < cumulative + ws[start] then start
    else Bucket(ws, residue, start + 1, cumulative + ws[start])
  }

  function Assigned(ws: seq<int>, residue: int): nat
    requires ws != []
  {
    Bucket(ws, residue, 0, 0)
  }

  /** `assign_variant`; the residue is the user's hash modulo 100. */
  method AssignVariant(vs: seq<Variant>, elapsed: Option<real>, residue: int) returns (index: Option<nat>)
    ensures index == if vs == [] then None else Some(Assigned(WeightsFor(vs, elapsed), residue))
  {
    if vs == [] { return None; }
    var ws := WeightsForLoop(vs, elapsed);
    var cumulative := 0;
    for i := 0 to |vs|
      invariant Bucket(ws, residue, i, cumulative) == Assigned(ws, residue)
    {
      cumulative := cumulative + ws[i];
      if residue < cumulative { return Some(i); }
    }
    index := Some(|vs| - 1);
  }

  /** `_weights_for` as written: the champion's entry is overwritten. */
  method WeightsForLoop(vs: seq<Variant>, elapsed: Option<real>) returns (ws: seq<int>)
    ensures ws == WeightsFor(vs, elapsed)
  {
    ws := EffectiveWeights(vs, elapsed);
    if vs == [] || !Ramped(vs, elapsed) { return; }
    var champion := ChampionIndex(vs);
    var others := 0;
    for i := 0 to |ws|
      invariant others == Sum(ws[..i]) - if champion < i then ws[champion] else 0
    {
      assert ws[..i + 1][..i] == ws[..i];
      if i != champion { others := others + ws[i]; }
    }
    assert ws[..|ws|] == ws;
    ws := ws[champion := if 100 - others > 0 then 100 - others else 0];
  }

  // ---------------------------------------------------------------- exact shares

  ghost predicate NonNegative(ws: seq<int>) {
    forall i :: 0 <= i < |ws| ==> ws[i] >= 0
  }

  lemma {:induction false} SumIsMonotone(ws: seq<int>, n: nat)
    requires NonNegative(ws) && n <= |ws|
    ensures 0 <= Sum(ws[..n]) <= Sum(ws)
    decreases |ws| - n, n
  {
    if n < |ws| {
      assert ws[..n + 1][..n] == ws[..n];
      SumIsMonotone(ws, n + 1);
      SumIsNonNegative(ws[..n]);
    } else {
      assert ws[..n] == ws;
      SumIsNonNegative(ws);
    }
  }

  lemma {:induction false} SumIsNonNegative(ws: seq<int>)
    requires NonNegative(ws)
    ensures Sum(ws) >= 0
  {
    if ws != [] { SumIsNonNegative(ws[..|ws| - 1]); }
  }

  lemma {:induction false} SumOfUpdate(ws: seq<int>, i: nat, w: int)
    requires i < |ws|
    ensures Sum(ws[i := w]) == Sum(ws) - ws[i] + w
  {
    var n := |ws| - 1;
    if i < n {
      SumOfUpdate(ws[..n], i, w);
      assert ws[i := w][..n] == ws[..n][i := w];
    } else {
      assert ws[i := w][..n] == ws[..n];
    }
  }

  /** A residue below the total falls to the variant whose slice of the line it lies in. */
  lemma {:induction false} BucketIff(ws: seq<int>, residue: int, start: nat, i: nat)
    requires NonNegative(ws) && ws != [] && start <= |ws| && i < |ws| && Sum(ws[..start]) <= residue < Sum(ws)
    ensures Bucket(ws, residue, start, Sum(ws[..start])) == i <==> Sum(ws[..i]) <= residue < Sum(ws[..i]) + ws[i]
    decreases |ws| - start
  {
    assert ws[..|ws|] == ws;
    if start < |ws| {
      assert ws[..start + 1][..start] == ws[..start];
      if residue < Sum(ws[..start]) + ws[start] {
        SlicesAreDisjoint(ws, residue, start, i);
      } else {
        BucketIff(ws, residue, start + 1, i);
      }
    }
  }

  lemma SlicesAreDisjoint(ws: seq<int>, residue: int, i: nat, j: nat)
    requires NonNegative(ws) && i < |ws| && j < |ws| && Sum(ws[..i]) <= residue < Sum(ws[..i]) + ws[i]
    ensures Sum(ws[..j]) <= residue < Sum(ws[..j]) + ws[j] <==> i == j
  {
    if i < j { SliceBefore(ws, i, j); }
    if j < i { SliceBefore(ws, j, i); }
  }

  lemma SliceBefore(ws: seq<int>, i: nat, j: nat)
    requires NonNegative(ws) && i < j <= |ws|
    ensures Sum(ws[..i]) + ws[i] <= Sum(ws[..j])
  {
    var front := ws[..j];
    assert front[..i + 1][..i] == ws[..i] && front[..i + 1][i] == ws[i];
    SumIsMonotone(front, i + 1);
  }

  /** The residues that fall to variant `i`. */
  function Share(ws: seq<int>, i: nat): set<int>
    requires ws != []
  {
    set h | 0 <= h < 100 && Assigned(ws, h) == i
  }

  /** The `n` whole numbers from `a` on. */
  function Line(a: int, n: nat): (line: set<int>)
    ensures |line| == n && forall h :: h in line <==> a <= h < a + n
  {
    if n == 0 then {} else Line(a, n - 1) + {a + n - 1}
  }

  lemma ShareIsWeight(ws: seq<int>, i: nat)
    requires NonNegative(ws) && Sum(ws) == 100 && i < |ws|
    ensures |Share(ws, i)| == ws[i]
  {
    var a := Sum(ws[..i]);
    assert ws[..0] == [];
    SumIsMonotone(ws, i);
    assert ws[..i + 1][..i] == ws[..i];
    SumIsMonotone(ws, i + 1);
    forall h | 0 <= h < 100 ensures Assigned(ws, h) == i <==> a <= h < a + ws[i] { BucketIff(ws, h, 0, i); }
    assert Share(ws, i) == Line(a, ws[i]);
  }

  /** The challengers' weights, whatever the champion's entry. */
  ghost predicate ChallengersAreNonNegative(vs: seq<Variant>, elapsed: Option<real>)
    requires vs != []
  {
    forall i :: 0 <= i < |vs| && i != ChampionIndex(vs) ==> EffectiveWeights(vs, elapsed)[i] >= 0
  }

  /** With a ramp in effect and challenger weights totalling at most 100, of the 100 hash residues exactly as many
      go to each challenger as its weight, and the champion gets the rest. */
  lemma SharesAreExact(vs: seq<Variant>, elapsed: Option<real>, i: nat)
    requires vs != [] && Ramped(vs, elapsed) && ChallengersAreNonNegative(vs, elapsed) && i < |vs|
    requires Others(EffectiveWeights(vs, elapsed), ChampionIndex(vs)) <= 100
    ensures var ws, c := EffectiveWeights(vs, elapsed), ChampionIndex(vs);
            |Share(WeightsFor(vs, elapsed), i)| == if i == c then 100 - Others(ws, c) else ws[i]
  {
    var ws, c := EffectiveWeights(vs, elapsed), ChampionIndex(vs);
    SumOfUpdate(ws, c, 100 - Others(ws, c));
    ShareIsWeight(WeightsFor(vs, elapsed), i);
  }

  /** The shares cut the residues into disjoint pieces. */
  lemma {:induction false} SharesPartition(ws: seq<int>, n: nat)
    requires ws != [] && n <= |ws|
    ensures SumOfShares(ws, n) == |set h | 0 <= h < 100 && Assigned(ws, h) < n|
  {
    var all := set h | 0 <= h < 100 && Assigned(ws, h) < n;
    if n == 0 {
      assert all == {};
    } else {
      SharesPartition(ws, n - 1);
      assert all == (set h | 0 <= h < 100 && Assigned(ws, h) < n - 1) + Share(ws, n - 1);
    }
  }

  function SumOfShares(ws: seq<int>, n: nat): int
    requires ws != [] && n <= |ws|
  {
    if n == 0 then 0 else SumOfShares(ws, n - 1) + |Share(ws, n - 1)|
  }

  lemma {:induction false} BucketInRange(ws: seq<int>, residue: int, start: nat, cumulative: int)
    requires start <= |ws| && ws != []
    ensures Bucket(ws, residue, start, cumulative) < |ws|
    decreases |ws| - start
  {
    if start < |ws| && residue >= cumulative + ws[start] {
      BucketInRange(ws, residue, start + 1, cumulative + ws[start]);
    }
  }

  lemma {:induction false} EqualSharesSum(ws: seq<int>, n: nat)
    requires ws != [] && n <= |ws| && forall i :: 0 <= i < n ==> |Share(ws, i)| == ws[i]
    ensures SumOfShares(ws, n) == Sum(ws[..n])
  {
    if n > 0 {
      EqualSharesSum(ws, n - 1);
      assert ws[..n][..n - 1] == ws[..n - 1];
    }
  }

  /** Every variant gets exactly its effective weight, the champion the remainder, if and only if the challengers
      do not total more than 100. */
  lemma SharesAreExactIff(vs: seq<Variant>, elapsed: Option<real>)
    requires vs != [] && Ramped(vs, elapsed) && ChallengersAreNonNegative(vs, elapsed)
    ensures var ws := WeightsFor(vs, elapsed);
            (forall i: nat :: i < |vs| ==> |Share(ws, i)| == ws[i]) <==>
            Others(EffectiveWeights(vs, elapsed), ChampionIndex(vs)) <= 100
  {
    var ws, es, c := WeightsFor(vs, elapsed), EffectiveWeights(vs, elapsed), ChampionIndex(vs);
    SumOfUpdate(es, c, ws[c]);
    TotalOfShares(ws);
    assert ws[..|ws|] == ws;
    if Others(es, c) <= 100 {
      forall i: nat | i < |vs| ensures |Share(ws, i)| == ws[i] { ShareIsWeight(ws, i); }
    }
    if forall i: nat :: i < |vs| ==> |Share(ws, i)| == ws[i] {
      EqualSharesSum(ws, |ws|);
    }
  }

  lemma TotalOfShares(ws: seq<int>)
    requires ws != []
    ensures SumOfShares(ws, |ws|) == 100
  {
    SharesPartition(ws, |ws|);
    forall h | 0 <= h < 100 ensures Assigned(ws, h) < |ws| { BucketInRange(ws, h, 0, 0); }
    assert (set h | 0 <= h < 100 && Assigned(ws, h) < |ws|) == Line(0, 100);
  }

  // ---------------------------------------------------------------- stickiness

  /** Steps in day order with weights that never fall. */
  ghost predicate Rising(ramp: seq<RampStep>) {
    forall i, j :: 0 <= i < j < |ramp| ==> ramp[i].day <= ramp[j].day && ramp[i].weight <= ramp[j].weight
  }

  lemma {:induction false} LatestIsAStep(ramp: seq<RampStep>, elapsed: real)
    ensures LatestStep(ramp, elapsed).Some? ==>
              LatestStep(ramp, elapsed).value in ramp && LatestStep(ramp, elapsed).value.day <= elapsed
    ensures LatestStep(ramp, elapsed).None? <==> forall step :: step in ramp ==> step.day > elapsed
  {
    if ramp != [] {
      LatestIsAStep(ramp[..|ramp| - 1], elapsed);
      assert ramp == ramp[..|ramp| - 1] + [ramp[|ramp| - 1]];
    }
  }

  lemma {:induction false} LatestRises(ramp: seq<RampStep>, t: real, u: real)
    requires Rising(ramp) && t <= u && LatestStep(ramp, t).Some?
    ensures LatestStep(ramp, u).Some? && LatestStep(ramp, t).value.weight <= LatestStep(ramp, u).value.weight
  {
    var n := |ramp| - 1;
    var front, last := ramp[..n], ramp[n];
    assert Rising(front);
    LatestIsAStep(front, t);
    LatestIsAStep(front, u);
    if LatestStep(front, t).Some? {
      LatestRises(front, t, u);
    }
    if LatestStep(front, u).Some? {
      assert LatestStep(front, u).value.weight <= last.weight;
    }
    if LatestStep(front, t).Some? {
      assert LatestStep(front, t).value.weight <= last.weight;
    }
  }

  /** Time only raises a rising ramp's weight, the days before its first step included. */
  lemma RampWeightRises(v: Variant, t: real, u: real)
    requires v.ramp != [] && Rising(v.ramp) && t <= u
    ensures RampWeight(v, t).value <= RampWeight(v, u).value
  {
    LatestIsAStep(v.ramp, t);
    LatestIsAStep(v.ramp, u);
    if LatestStep(v.ramp, t).Some? {
      LatestRises(v.ramp, t, u);
    } else if LatestStep(v.ramp, u).Some? {
      var i :| 0 <= i < |v.ramp| && v.ramp[i] == LatestStep(v.ramp, u).value;
      assert i > 0 ==> v.ramp[0].weight <= v.ramp[i].weight;
    }
  }

  lemma TruncRises(x: real, y: real)
    requires x <= y
    ensures Trunc(x) <= Trunc(y)
  {
  }

  /** With one challenger on a rising ramp, a user once on the challenger stays there. */
  lemma ChallengerIsSticky(vs: seq<Variant>, t: real, u: real, residue: int)
    requires |vs| == 2 && t <= u && 0 <= residue < 100
    requires var challenger := vs[1 - ChampionIndex(vs)]; challenger.ramp != [] && Rising(challenger.ramp)
    requires Assigned(WeightsFor(vs, Some(t)), residue) == 1 - ChampionIndex(vs)
    ensures Assigned(WeightsFor(vs, Some(u)), residue) == 1 - ChampionIndex(vs)
  {
    var c := ChampionIndex(vs);
    var challenger := vs[1 - c];
    assert challenger in vs;
    RampWeightRises(challenger, t, u);
    TruncRises(RampWeight(challenger, t).value, RampWeight(challenger, u).value);
    var x, y := EffectiveWeights(vs, Some(t)), EffectiveWeights(vs, Some(u));
    TwoWeights(x);
    TwoWeights(y);
    assert x[1 - c] <= y[1 - c];
    TwoBuckets(WeightsFor(vs, Some(t)), residue);
    TwoBuckets(WeightsFor(vs, Some(u)), residue);
  }

  lemma TwoWeights(ws: seq<int>)
    requires |ws| == 2
    ensures Sum(ws) == ws[0] + ws[1]
  {
    assert ws[..1] == [ws[0]] && ws[..1][..0] == [];
    assert Sum(ws[..1]) == Sum([]) + ws[0];
  }

  lemma TwoBuckets(ws: seq<int>, residue: int)
    requires |ws| == 2
    ensures Assigned(ws, residue) == if residue < ws[0] then 0 else 1
  {
    assert Bucket(ws, residue, 2, ws[0] + ws[1]) == 1;
    assert Bucket(ws, residue, 1, ws[0]) == 1;
  }
}
