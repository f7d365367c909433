/** Decision tables: evaluation, the optimiser's region algebra, and what its shadowing verdict is worth. */
module DecisionTables {
  import opened Common
  import opened JsonValue

  // ---------------------------------------------------------------- numbers

  /** A Python float, rounding aside. */
  datatype Float = NegInf | Fin(value: real) | PosInf | NaN

  predicate Lt(a: Float, b: Float) {
    match (a, b)
    case (NaN, _) => false
    case (_, NaN) => false
    case (Fin(x), Fin(y)) => x < y
    case (NegInf, _) => !b.NegInf?
    case (_, PosInf) => !a.PosInf?
    case _ => false
  }

  predicate Same(a: Float, b: Float) {
    a == b && !a.NaN?
  }

  /** Python's `min(a, b)` and `max(a, b)`: the first unless the second is strictly better. */
  function Min(a: Float, b: Float): Float {
    if Lt(b, a) then b else a
  }

  function Max(a: Float, b: Float): Float {
    if Lt(a, b) then b else a
  }

  /** Readings of text this model leaves open: `float(s)`, whether the text is a boolean word, the canonical text
      of a category, and the operators the optimiser calls opaque. */
  datatype Reader = Reader(float: string -> Option<Float>, truth: string -> Option<bool>, canon: Json -> string,
                           options: Json -> seq<Json>, otherwise: (Json, Cell) -> bool)

  /** Boolean words are not numerals. */
  ghost predicate Sane(r: Reader) {
    forall s :: r.truth(s).Some? ==> r.float(s).None?
  }

  /** `parse_rule_value` */
  function Parse(r: Reader, v: Json): Json {
    if !v.Text? then v
    else if r.truth(v.text).Some? then Bool(r.truth(v.text).value)
    else if r.float(v.text).Some? && r.float(v.text).value.Fin? then Number(r.float(v.text).value.value)
    else v
  }

  /** `_coerce_number`: booleans and non-finite numbers are not numbers. */
  function Coerce(r: Reader, v: Json): Option<real> {
    if v.Number? then Some(v.number)
    else if v.Text? && r.float(v.text).Some? && r.float(v.text).value.Fin? then Some(r.float(v.text).value.value)
    else None
  }

  /** `_num` of the optimiser: plain `float(v)`, for which True is 1.0. */
  function Num(r: Reader, v: Json): Option<Float> {
    match v
    case Number(x) => Some(Fin(x))
    case Bool(b) => Some(Fin(if b then 1.0 else 0.0))
    case Text(s) => r.float(s)
    case _ => None
  }

  // ---------------------------------------------------------------- tables

  datatype Operator = Wildcard | Eq | Ge | Gt | Le | Less | Between | In | OtherOp(name: string)

  datatype Cell = Cell(op: Operator, value: Json, value2: Json)

  /** `numeric` is a field type of number, integer, float or none. */
  datatype Column = Column(variable: string, numeric: bool)

  /** One cell per input column; a missing cell is a wildcard one. */
  datatype Row = Row(id: string, cells: seq<Cell>, priority: real, outputs: map<string, Json>)

  datatype Policy = First | Priority | Unique | Collect

  datatype Table = Table(columns: seq<Column>, rows: seq<Row>, policy: Policy, fallback: map<string, Json>)

  predicate Shaped(t: Table) {
    forall row :: row in t.rows ==> |row.cells| == |t.columns|
  }

  /** `_is_wildcard`: no operator, or one that needs a value and has none. */
  predicate IsWildcard(c: Cell) {
    c.op.Wildcard? || (c.op != OtherOp("exists") && c.op != OtherOp("!exists")
        && (c.value.Null? || c.value == Text("")))
  }

  // ---------------------------------------------------------------- evaluation

  /** `compare` for one cell. */
  predicate Matches(r: Reader, col: Column, c: Cell, actual: Json) {
    if IsWildcard(c) then true
    else if IsInterval(r, col, c) then MatchesNumber(r, c, actual)
    else if c.op.Eq? || c.op.In? then !actual.Null? && r.canon(actual) in Category(r, c)
    else r.otherwise(actual, c)
  }

  /** The optimiser and the evaluator both see a numeric condition here. */
  predicate IsInterval(r: Reader, col: Column, c: Cell) {
    && col.numeric && (c.op.Eq? || c.op.Ge? || c.op.Gt? || c.op.Le? || c.op.Less? || c.op.Between?)
    && Num(r, c.value).Some? && (c.op.Between? ==> Num(r, c.value2).Some?)
  }

  /** Ordered comparisons and loose equality against a numeric condition; a JSON boolean is compared as a truth
      value. */
  predicate MatchesNumber(r: Reader, c: Cell, actual: Json) {
    var expected := Parse(r, c.value);
    var a, e := Coerce(r, actual), Coerce(r, expected);
    if c.op.Eq? && expected.Bool? then
      actual == expected || (actual.Text? && actual.text == if expected.flag then "true" else "false")
    else if c.op.Eq? && e.None? then actual == expected
    else if a.None? || e.None? then false
    else
      match c.op
      case Eq => a.value == e.value
      case Ge => a.value >= e.value
      case Gt => a.value > e.value
      case Le => a.value <= e.value
      case Less => a.value < e.value
      case _ =>
        var upper := Coerce(r, Parse(r, c.value2));
        upper.Some? && e.value <= a.value <= upper.value
  }

  function Category(r: Reader, c: Cell): set<string> {
    if c.op.Eq? then {r.canon(Parse(r, c.value))} else set v | v in r.options(c.value) :: r.canon(Parse(r, v))
  }

  predicate RowMatches(r: Reader, columns: seq<Column>, row: Row, env: string -> Json)
    requires |row.cells| == |columns|
  {
    forall k :: 0 <= k < |columns| ==> Matches(r, columns[k], row.cells[k], env(columns[k].variable))
  }

  /** Indices of the rows among the first `n` that match, in table order. */
  function Matched(r: Reader, t: Table, env: string -> Json, n: nat): seq<nat>
    requires Shaped(t) && n <= |t.rows|
  {
    if n == 0 then []
    else Matched(r, t, env, n - 1) + if RowMatches(r, t.columns, t.rows[n - 1], env) then [n - 1] else []
  }

  /** The winner among the first `n` rows: the first match, or under the priority policy the first of the highest. */
  function Best(r: Reader, t: Table, env: string -> Json, n: nat): (best: Option<nat>)
    requires Shaped(t) && n <= |t.rows|
    ensures best.Some? ==> best.value < n
  {
    if n == 0 then None
    else
      var b := Best(r, t, env, n - 1);
      if !RowMatches(r, t.columns, t.rows[n - 1], env) then b
      else if b.None? || (t.policy.Priority? && t.rows[n - 1].priority > t.rows[b.value].priority) then Some(n - 1)
      else b
  }

  function Winner(r: Reader, t: Table, env: string -> Json): (w: Option<nat>)
    requires Shaped(t)
    ensures w.Some? ==> w.value < |t.rows|
  {
    Best(r, t, env, |t.rows|)
  }

  /** The winning row's outputs, or the default row's (single-winner policies). */
  function Outputs(r: Reader, t: Table, env: string -> Json): map<string, Json>
    requires Shaped(t)
  {
    var w := Winner(r, t, env);
    if w.Some? then t.rows[w.value].outputs else t.fallback
  }

  /** What winning means: a match that beats every other match by priority, and by position among equals. */
  ghost predicate Wins(r: Reader, t: Table, env: string -> Json, n: nat, w: nat)
    requires Shaped(t) && n <= |t.rows|
  {
    && w < n && RowMatches(r, t.columns, t.rows[w], env)
    && forall k :: 0 <= k < n && k != w && RowMatches(r, t.columns, t.rows[k], env) ==>
         if t.policy.Priority? then t.rows[k].priority < t.rows[w].priority
             || (t.rows[k].priority == t.rows[w].priority && w < k)
         else w < k
  }

  lemma {:induction false} BestWins(r: Reader, t: Table, env: string -> Json, n: nat)
    requires Shaped(t) && n <= |t.rows|
    ensures Best(r, t, env, n).Some? ==> Wins(r, t, env, n, Best(r, t, env, n).value)
    ensures Best(r, t, env, n).None? <==> forall k :: 0 <= k < n ==> !RowMatches(r, t.columns, t.rows[k], env)
  {
    hide RowMatches;
    if n > 0 { BestWins(r, t, env, n - 1); }
  }

  /** The evaluator's winner is the row that wins, and there is at most one. */
  lemma WinnerIff(r: Reader, t: Table, env: string -> Json, w: nat)
    requires Shaped(t) && w < |t.rows|
    ensures Winner(r, t, env) == Some(w) <==> Wins(r, t, env, |t.rows|, w)
  {
    hide RowMatches;
    BestWins(r, t, env, |t.rows|);
    if Wins(r, t, env, |t.rows|, w) {
      var b := Best(r, t, env, |t.rows|).value;
      assert Wins(r, t, env, |t.rows|, b);
    }
  }

  // ---------------------------------------------------------------- regions

  datatype Region =
    | All
    | Interval(lo: Float, hi: Float, loInc: bool, hiInc: bool)
    | Values(texts: set<string>)
    | Opaque

  /** `_cell_region` */
  function CellRegion(r: Reader, col: Column, c: Cell): Region {
    if IsWildcard(c) then All
    else if IsInterval(r, col, c) then
      var v := Num(r, c.value).value;
      if c.op.Between? then Interval(Min(v, Num(r, c.value2).value), Max(v, Num(r, c.value2).value), true, true)
      else if c.op.Eq? then Interval(v, v, true, true)
      else if c.op.Ge? then Interval(v, PosInf, true, false)
      else if c.op.Gt? then Interval(v, PosInf, false, false)
      else if c.op.Le? then Interval(NegInf, v, false, true)
      else Interval(NegInf, v, false, false)
    else if c.op.Eq? || c.op.In? then Values(Category(r, c))
    else Opaque
  }

  predicate IntervalCovers(a: Region, b: Region)
    requires a.Interval? && b.Interval?
  {
    && (Lt(a.lo, b.lo) || (Same(a.lo, b.lo) && (a.loInc || !b.loInc)))
    && (Lt(b.hi, a.hi) || (Same(a.hi, b.hi) && (a.hiInc || !b.hiInc)))
  }

  predicate CellCovers(a: Region, b: Region) {
    if a.All? then true
    else if a.Opaque? || b.Opaque? || b.All? then false
    else if a.Interval? && b.Interval? then IntervalCovers(a, b)
    else if a.Values? && b.Values? then b.texts <= a.texts
    else false
  }

  /** `_row_covers`; an opaque cell on either side refuses. */
  predicate RowCovers(r: Reader, columns: seq<Column>, earlier: Row, later: Row)
    requires |earlier.cells| == |columns| == |later.cells|
  {
    forall k :: 0 <= k < |columns| ==>
      var a, b := CellRegion(r, columns[k], earlier.cells[k]), CellRegion(r, columns[k], later.cells[k]);
      !a.Opaque? && !b.Opaque? && CellCovers(a, b)
  }

  /** A row the optimiser reports: some earlier row covers it. */
  predicate Reported(r: Reader, t: Table, j: nat)
    requires Shaped(t) && j < |t.rows|
  {
    exists i :: 0 <= i < j && RowCovers(r, t.columns, t.rows[i], t.rows[j])
  }

  // ---------------------------------------------------------------- what a region means

  predicate Above(x: real, lo: Float, inclusive: bool) {
    Lt(lo, Fin(x)) || (inclusive && lo == Fin(x))
  }

  predicate Below(x: real, hi: Float, inclusive: bool) {
    Lt(Fin(x), hi) || (inclusive && hi == Fin(x))
  }

  predicate Holds(reg: Region, x: real)
    requires reg.Interval?
  {
    Above(x, reg.lo, reg.loInc) && Below(x, reg.hi, reg.hiInc)
  }

  /** The input values a region stands for: null only in a wildcard, and in an interval only numbers. */
  predicate InRegion(r: Reader, reg: Region, actual: Json) {
    match reg
    case All => true
    case Interval(_, _, _, _) => Coerce(r, actual).Some? && Holds(reg, Coerce(r, actual).value)
    case Values(texts) => !actual.Null? && r.canon(actual) in texts
    case Opaque => false
  }

  /** A condition whose region tells the truth: finite bounds that are not JSON booleans, and `between` in order. */
  predicate Plain(r: Reader, col: Column, c: Cell) {
    !IsWildcard(c) && IsInterval(r, col, c) ==>
      && !c.value.Bool? && Num(r, c.value).value.Fin?
      && (c.op.Between? ==>
            !c.value2.Bool? && Num(r, c.value2).value.Fin? && Num(r, c.value).value.value
                <= Num(r, c.value2).value.value)
  }

  predicate PlainRow(r: Reader, columns: seq<Column>, row: Row)
    requires |row.cells| == |columns|
  {
    forall k :: 0 <= k < |columns| ==> Plain(r, columns[k], row.cells[k])
  }

  predicate PlainTable(r: Reader, t: Table)
    requires Shaped(t)
  {
    forall row :: row in t.rows ==> PlainRow(r, t.columns, row)
  }

  /** A plain cell the optimiser can read matches exactly the values of its region. */
  lemma RegionIsExact(r: Reader, col: Column, c: Cell, actual: Json)
    requires Sane(r) && Plain(r, col, c) && !CellRegion(r, col, c).Opaque?
    ensures Matches(r, col, c, actual) <==> InRegion(r, CellRegion(r, col, c), actual)
  {
  }

  /** Bounds no real number fits between. */
  predicate Hollow(reg: Region) {
    reg.Interval? && (reg.lo.PosInf? || reg.lo.NaN? || reg.hi.NegInf? || reg.hi.NaN?)
  }

  function Inside(reg: Region): (x: real)
    requires reg.Interval? && !Hollow(reg)
    requires reg.lo.Fin? && reg.hi.Fin? ==> reg.lo.value <= reg.hi.value && reg.loInc && reg.hiInc
    ensures Holds(reg, x)
  {
    if reg.lo.Fin? && reg.hi.Fin? then reg.lo.value
    else if reg.lo.Fin? then reg.lo.value + 1.0
    else if reg.hi.Fin? then reg.hi.value - 1.0
    else 0.0
  }

  /** Exactly when a numeric condition's region tells the truth: it is plain, or it is an ordered comparison whose
      bounds leave no number at all. */
  lemma RegionIsExactIff(r: Reader, col: Column, c: Cell)
    requires Sane(r) && !IsWildcard(c) && IsInterval(r, col, c)
    ensures (forall actual :: Matches(r, col, c, actual) <==> InRegion(r, CellRegion(r, col, c), actual)) <==>
            Plain(r, col, c) || (!c.op.Eq? && Hollow(CellRegion(r, col, c)))
  {
    var reg := CellRegion(r, col, c);
    if Plain(r, col, c) {
      forall actual ensures Matches(r, col, c, actual) <==> InRegion(r, reg, actual) {
        RegionIsExact(r, col, c, actual);
      }
    } else if Hollow(reg) {
      HollowCell(r, col, c);
    } else {
      var x := Number(Inside(reg));
      assert InRegion(r, reg, x) && !Matches(r, col, c, x);
    }
  }

  /** A condition that matches every value of its region: what the covering side of a verdict needs. */
  predicate Fills(r: Reader, col: Column, c: Cell) {
    IsWildcard(c) || !IsInterval(r, col, c) || Plain(r, col, c) || Hollow(CellRegion(r, col, c))
  }

  /** A condition that matches nothing outside its region: what the covered side needs. */
  predicate Confined(r: Reader, col: Column, c: Cell) {
    IsWildcard(c) || !IsInterval(r, col, c) || Plain(r, col, c) || !c.op.Eq?
  }

  /** Both are exact, side by side: only an equality with a JSON boolean or a non-finite number matches outside its
      region, and a region promises too much unless the condition is plain or the region is empty. */
  lemma FillsIff(r: Reader, col: Column, c: Cell)
    requires Sane(r) && !CellRegion(r, col, c).Opaque?
    ensures (forall actual :: InRegion(r, CellRegion(r, col, c), actual) ==> Matches(r, col, c, actual)) <==>
            Fills(r, col, c)
  {
    var reg := CellRegion(r, col, c);
    if Plain(r, col, c) {
      forall actual ensures Matches(r, col, c, actual) <==> InRegion(r, reg, actual) {
        RegionIsExact(r, col, c, actual);
      }
    } else if !Hollow(reg) {
      var x := Number(Inside(reg));
      assert InRegion(r, reg, x) && !Matches(r, col, c, x);
    }
  }

  lemma ConfinedIff(r: Reader, col: Column, c: Cell)
    requires Sane(r) && !CellRegion(r, col, c).Opaque?
    ensures (forall actual :: Matches(r, col, c, actual) ==> InRegion(r, CellRegion(r, col, c), actual)) <==>
            Confined(r, col, c)
  {
    var reg := CellRegion(r, col, c);
    if Plain(r, col, c) {
      forall actual ensures Matches(r, col, c, actual) <==> InRegion(r, reg, actual) {
        RegionIsExact(r, col, c, actual);
      }
    } else if c.op.Eq? {
      assert Matches(r, col, c, Parse(r, c.value)) && !InRegion(r, reg, Parse(r, c.value));
    } else {
      forall actual | Matches(r, col, c, actual) ensures InRegion(r, reg, actual) {
        OrderedIsConfined(r, col, c, actual);
      }
    }
  }

  lemma OrderedIsConfined(r: Reader, col: Column, c: Cell, actual: Json)
    requires Sane(r) && !IsWildcard(c) && IsInterval(r, col, c) && !c.op.Eq? && Matches(r, col, c, actual)
    ensures InRegion(r, CellRegion(r, col, c), actual)
  {
  }

  lemma HollowCell(r: Reader, col: Column, c: Cell)
    requires Sane(r) && !IsWildcard(c) && IsInterval(r, col, c) && Hollow(CellRegion(r, col, c)) && !Plain(r, col, c)
    ensures c.op.Eq? <==> exists actual :: !(Matches(r, col, c, actual) <==> InRegion(r, CellRegion(r, col, c), actual))
  {
    var reg := CellRegion(r, col, c);
    if c.op.Eq? {
      assert Matches(r, col, c, Parse(r, c.value)) && !InRegion(r, reg, Parse(r, c.value));
    }
  }

  // ---------------------------------------------------------------- covering is containment

  /** A cell whose region is a wildcard or an interval. */
  predicate Boxed(r: Reader, col: Column, c: Cell) {
    IsWildcard(c) || IsInterval(r, col, c)
  }

  lemma CoveringContains(r: Reader, a: Region, b: Region, actual: Json)
    requires CellCovers(a, b) && InRegion(r, b, actual)
    ensures InRegion(r, a, actual)
  {
  }

  /** A number in interval `b` but not in interval `a`, when `a` does not cover `b`. */
  function Outside(r: Reader, col: Column, a: Cell, b: Cell): real
    requires !IsWildcard(a) && IsInterval(r, col, a) && Plain(r, col, a) && !IsWildcard(b) && IsInterval(r, col, b)
    requires Plain(r, col, b)
  {
    var ra, rb := CellRegion(r, col, a), CellRegion(r, col, b);
    if rb.lo.Fin? && rb.hi.Fin? then
      if Holds(ra, rb.lo.value) then rb.hi.value else rb.lo.value
    else if rb.lo.Fin? then
      if ra.hi.Fin? && ra.hi.value >= rb.lo.value then ra.hi.value + 1.0
      else if rb.loInc || (ra.lo.Fin? && ra.lo.value == rb.lo.value) || Lt(ra.lo, rb.lo) then
        if rb.loInc then rb.lo.value else rb.lo.value + 1.0
      else if ra.lo.Fin? then (rb.lo.value + ra.lo.value) / 2.0 else rb.lo.value + 1.0
    else
      if ra.lo.Fin? && ra.lo.value <= rb.hi.value then ra.lo.value - 1.0
      else if rb.hiInc || (ra.hi.Fin? && ra.hi.value == rb.hi.value) || Lt(rb.hi, ra.hi) then
        if rb.hiInc then rb.hi.value else rb.hi.value - 1.0
      else if ra.hi.Fin? then (rb.hi.value + ra.hi.value) / 2.0 else rb.hi.value - 1.0
  }

  lemma UncoveredHasOutsider(r: Reader, col: Column, a: Cell, b: Cell) returns (actual: Json)
    requires Sane(r) && Boxed(r, col, a) && Boxed(r, col, b) && Plain(r, col, a) && Plain(r, col, b)
    requires !CellCovers(CellRegion(r, col, a), CellRegion(r, col, b))
    ensures InRegion(r, CellRegion(r, col, b), actual) && !InRegion(r, CellRegion(r, col, a), actual)
  {
    if IsWildcard(b) {
      actual := Null;
    } else {
      actual := Number(Outside(r, col, a, b));
    }
  }

  /** The environment giving each column's variable its value. */
  function EnvOf(columns: seq<Column>, values: seq<Json>): map<string, Json>
    requires |columns| == |values|
  {
    if columns == [] then map[] else EnvOf(columns[1..], values[1..])[columns[0].variable := values[0]]
  }

  function Lookup(m: map<string, Json>): string -> Json {
    name => if name in m then m[name] else Null
  }

  ghost predicate DistinctVariables(columns: seq<Column>) {
    forall i, j :: 0 <= i < j < |columns| ==> columns[i].variable != columns[j].variable
  }

  lemma {:induction false} EnvGives(columns: seq<Column>, values: seq<Json>, k: nat)
    requires |columns| == |values| && DistinctVariables(columns) && k < |columns|
    ensures Lookup(EnvOf(columns, values))(columns[k].variable) == values[k]
  {
    if k > 0 {
      assert DistinctVariables(columns[1..]);
      EnvGives(columns[1..], values[1..], k - 1);
    }
  }

  /** The covering row fills its regions and the covered one stays in its own. */
  predicate SoundPair(r: Reader, columns: seq<Column>, earlier: Row, later: Row)
    requires |earlier.cells| == |columns| == |later.cells|
  {
    forall k :: 0 <= k < |columns| ==>
      Fills(r, columns[k], earlier.cells[k]) && Confined(r, columns[k], later.cells[k])
  }

  lemma PlainPairIsSound(r: Reader, columns: seq<Column>, earlier: Row, later: Row)
    requires |earlier.cells| == |columns| == |later.cells|
    requires PlainRow(r, columns, earlier) && PlainRow(r, columns, later)
    ensures SoundPair(r, columns, earlier, later)
  {
    hide Plain;
  }

  /** Whatever the later row matches, an earlier row covering it matches too. */
  lemma CoveringRowMatches(r: Reader, columns: seq<Column>, earlier: Row, later: Row, env: string -> Json)
    requires Sane(r) && |earlier.cells| == |columns| == |later.cells| && SoundPair(r, columns, earlier, later)
    requires RowCovers(r, columns, earlier, later) && RowMatches(r, columns, later, env)
    ensures RowMatches(r, columns, earlier, env)
  {
    hide CellRegion;
    hide Matches;
    hide Fills;
    hide Confined;
    hide InRegion;
    hide CellCovers;
    forall k | 0 <= k < |columns| ensures Matches(r, columns[k], earlier.cells[k], env(columns[k].variable)) {
      var actual := env(columns[k].variable);
      ConfinedIff(r, columns[k], later.cells[k]);
      CoveringContains(r, CellRegion(r, columns[k], earlier.cells[k]), CellRegion(r, columns[k], later.cells[k]),
          actual);
      FillsIff(r, columns[k], earlier.cells[k]);
    }
  }

  ghost predicate BoxedRow(r: Reader, columns: seq<Column>, row: Row)
    requires |row.cells| == |columns|
  {
    forall k :: 0 <= k < |columns| ==> Boxed(r, columns[k], row.cells[k])
  }

  function SomeValue(r: Reader, col: Column, c: Cell): Json
    requires Boxed(r, col, c) && Plain(r, col, c)
  {
    if IsWildcard(c) then Null else Number(Inside(CellRegion(r, col, c)))
  }

  lemma SomeValueFits(r: Reader, col: Column, c: Cell)
    requires Sane(r) && Boxed(r, col, c) && Plain(r, col, c)
    ensures Matches(r, col, c, SomeValue(r, col, c))
  {
  }

  /** On rows of plain intervals and wildcards over different variables, covering is exactly containment: of the
      boxes, hence of what the two rows match. */
  lemma RowCoversIff(r: Reader, columns: seq<Column>, earlier: Row, later: Row)
    requires Sane(r) && |earlier.cells| == |columns| == |later.cells| && DistinctVariables(columns)
    requires PlainRow(r, columns, earlier) && PlainRow(r, columns, later)
    requires BoxedRow(r, columns, earlier) && BoxedRow(r, columns, later)
    ensures RowCovers(r, columns, earlier, later) <==>
            forall env :: RowMatches(r, columns, later, env) ==> RowMatches(r, columns, earlier, env)
  {
    hide RowMatches;
    if RowCovers(r, columns, earlier, later) {
      forall env | RowMatches(r, columns, later, env) ensures RowMatches(r, columns, earlier, env) {
        PlainPairIsSound(r, columns, earlier, later);
        CoveringRowMatches(r, columns, earlier, later, env);
      }
    } else {
      UncoveredRowHasOutsider(r, columns, earlier, later);
    }
  }

  lemma UncoveredRowHasOutsider(r: Reader, columns: seq<Column>, earlier: Row, later: Row)
    requires Sane(r) && |earlier.cells| == |columns| == |later.cells| && DistinctVariables(columns)
    requires PlainRow(r, columns, earlier) && PlainRow(r, columns, later)
    requires BoxedRow(r, columns, earlier) && BoxedRow(r, columns, later)
    requires !RowCovers(r, columns, earlier, later)
    ensures exists env :: RowMatches(r, columns, later, env) && !RowMatches(r, columns, earlier, env)
  {
    hide Matches;
    hide Plain;
    hide CellCovers;
    hide InRegion;
    assert forall k :: 0 <= k < |columns| ==>
      !CellRegion(r, columns[k], earlier.cells[k]).Opaque? && !CellRegion(r, columns[k], later.cells[k]).Opaque?;
    hide CellRegion;
    var bad :| 0 <= bad < |columns| &&
               !CellCovers(CellRegion(r, columns[bad], earlier.cells[bad]),
                   CellRegion(r, columns[bad], later.cells[bad]));
    var outsider := UncoveredHasOutsider(r, columns[bad], earlier.cells[bad], later.cells[bad]);
    RegionIsExact(r, columns[bad], later.cells[bad], outsider);
    RegionIsExact(r, columns[bad], earlier.cells[bad], outsider);
    var values := seq(|columns|, k requires 0 <= k < |columns| =>
                        if k == bad then outsider else SomeValue(r, columns[k], later.cells[k]));
    var env := Lookup(EnvOf(columns, values));
    forall k | 0 <= k < |columns|
      ensures env(columns[k].variable) == values[k] && Matches(r, columns[k], later.cells[k], env(columns[k].variable))
    {
      EnvGives(columns, values, k);
      if k != bad { SomeValueFits(r, columns[k], later.cells[k]); }
    }
    assert RowMatches(r, columns, later, env);
    assert !Matches(r, columns[bad], earlier.cells[bad], env(columns[bad].variable));
  }

  // ---------------------------------------------------------------- deleting what is reported

  /** The rows from `k` on that are not reported. */
  function Unreported(r: Reader, t: Table, k: nat): seq<Row>
    requires Shaped(t) && k <= |t.rows|
    decreases |t.rows| - k
  {
    if k == |t.rows| then []
    else (if Reported(r, t, k) then [] else [t.rows[k]]) + Unreported(r, t, k + 1)
  }

  lemma {:induction false} UnreportedAreRows(r: Reader, t: Table, k: nat)
    requires Shaped(t) && k <= |t.rows|
    ensures forall row :: row in Unreported(r, t, k) ==> row in t.rows
    decreases |t.rows| - k
  {
    if k < |t.rows| { UnreportedAreRows(r, t, k + 1); }
  }

  /** The table without any reported row. */
  function Cleaned(r: Reader, t: Table): (c: Table)
    requires Shaped(t)
    ensures Shaped(c)
  {
    UnreportedAreRows(r, t, 0);
    t.(rows := Unreported(r, t, 0))
  }

  /** The first matching row of a list, if any. */
  function FirstMatch(r: Reader, columns: seq<Column>, rows: seq<Row>, env: string -> Json): Option<Row>
    requires forall row :: row in rows ==> |row.cells| == |columns|
  {
    if rows == [] then None
    else if RowMatches(r, columns, rows[0], env) then Some(rows[0])
    else FirstMatch(r, columns, rows[1..], env)
  }

  lemma {:induction false} BestIsFirstMatch(r: Reader, t: Table, env: string -> Json, k: nat)
    requires Shaped(t) && k <= |t.rows| && !t.policy.Priority?
    requires forall i :: 0 <= i < k ==> !RowMatches(r, t.columns, t.rows[i], env)
    ensures FirstMatch(r, t.columns, t.rows[k..], env) ==
            var w := Winner(r, t, env); if w.Some? then Some(t.rows[w.value]) else None
    decreases |t.rows| - k
  {
    hide RowMatches;
    BestWins(r, t, env, |t.rows|);
    if k < |t.rows| {
      assert t.rows[k..][0] == t.rows[k] && t.rows[k..][1..] == t.rows[k + 1..];
      if RowMatches(r, t.columns, t.rows[k], env) {
        assert Wins(r, t, env, |t.rows|, k);
        WinnerIff(r, t, env, k);
      } else {
        BestIsFirstMatch(r, t, env, k + 1);
      }
    }
  }

  /** Every pair the optimiser's verdict rests on is sound; rows that neither cover nor are covered may be anything. */
  ghost predicate SoundTable(r: Reader, t: Table)
    requires Shaped(t)
  {
    forall i, j :: 0 <= i < j < |t.rows| && RowCovers(r, t.columns, t.rows[i], t.rows[j]) ==>
      SoundPair(r, t.columns, t.rows[i], t.rows[j])
  }

  lemma PlainTableIsSound(r: Reader, t: Table)
    requires Shaped(t) && PlainTable(r, t)
    ensures SoundTable(r, t)
  {
    hide PlainRow;
    hide RowCovers;
    hide SoundPair;
    forall i, j | 0 <= i < j < |t.rows| && RowCovers(r, t.columns, t.rows[i], t.rows[j])
      ensures SoundPair(r, t.columns, t.rows[i], t.rows[j])
    {
      PlainPairIsSound(r, t.columns, t.rows[i], t.rows[j]);
    }
  }

  lemma {:induction false} CleaningKeepsFirstMatch(r: Reader, t: Table, env: string -> Json, k: nat)
    requires Sane(r) && Shaped(t) && SoundTable(r, t) && k <= |t.rows|
    requires forall i :: 0 <= i < k ==> !RowMatches(r, t.columns, t.rows[i], env)
    ensures (UnreportedAreRows(r, t, k);
             FirstMatch(r, t.columns, Unreported(r, t, k), env) == FirstMatch(r, t.columns, t.rows[k..], env))
    decreases |t.rows| - k
  {
    hide RowMatches;
    hide RowCovers;
    hide SoundPair;
    if k < |t.rows| {
      UnreportedAreRows(r, t, k);
      UnreportedAreRows(r, t, k + 1);
      assert t.rows[k..][0] == t.rows[k] && t.rows[k..][1..] == t.rows[k + 1..];
      var rest := Unreported(r, t, k + 1);
      if RowMatches(r, t.columns, t.rows[k], env) {
        if Reported(r, t, k) {
          var i :| 0 <= i < k && RowCovers(r, t.columns, t.rows[i], t.rows[k]);
          CoveringRowMatches(r, t.columns, t.rows[i], t.rows[k], env);
          assert false;
        }
        assert ([t.rows[k]] + rest)[0] == t.rows[k];
      } else {
        CleaningKeepsFirstMatch(r, t, env, k + 1);
        if Reported(r, t, k) {
          assert [] + rest == rest;
        } else {
          assert ([t.rows[k]] + rest)[0] == t.rows[k] && ([t.rows[k]] + rest)[1..] == rest;
        }
      }
    }
  }

  /** Deleting every reported row at once never changes the winning row or the outputs, for any input: under the
      first (and unique) policy, when the covering and covered rows are sound. */
  lemma CleaningChangesNothing(r: Reader, t: Table, env: string -> Json)
    requires Sane(r) && Shaped(t) && SoundTable(r, t) && !t.policy.Priority?
    ensures var c := Cleaned(r, t);
            var v, w := Winner(r, t, env), Winner(r, c, env);
            && (w.Some? <==> v.Some?) && (v.Some? ==> c.rows[w.value] == t.rows[v.value])
            && Outputs(r, c, env) == Outputs(r, t, env)
  {
    hide RowMatches;
    var c := Cleaned(r, t);
    CleaningKeepsFirstMatch(r, t, env, 0);
    BestIsFirstMatch(r, t, env, 0);
    BestIsFirstMatch(r, c, env, 0);
    assert t.rows[0..] == t.rows && c.rows[0..] == c.rows;
  }

  /** Under the priority policy a row covered by one of at least its priority never wins. */
  lemma ShadowedNeverWins(r: Reader, t: Table, env: string -> Json, i: nat, j: nat)
    requires Sane(r) && Shaped(t) && t.policy.Priority? && i < j < |t.rows|
    requires SoundPair(r, t.columns, t.rows[i], t.rows[j])
    requires RowCovers(r, t.columns, t.rows[i], t.rows[j]) && t.rows[i].priority >= t.rows[j].priority
    ensures Winner(r, t, env) != Some(j)
  {
    hide RowMatches;
    hide RowCovers;
    WinnerIff(r, t, env, j);
    if Wins(r, t, env, |t.rows|, j) {
      CoveringRowMatches(r, t.columns, t.rows[i], t.rows[j], env);
    }
  }

  /** And in a table of just the two, with the later row matching something, that is the exact condition: the
      optimiser reports the pair under the priority policy either way. */
  lemma ShadowedNeverWinsIff(r: Reader, t: Table)
    requires Sane(r) && Shaped(t) && t.policy.Priority? && |t.rows| == 2
    requires SoundPair(r, t.columns, t.rows[0], t.rows[1])
    requires RowCovers(r, t.columns, t.rows[0], t.rows[1])
    requires exists env :: RowMatches(r, t.columns, t.rows[1], env)
    ensures (forall env :: Winner(r, t, env) != Some(1)) <==> t.rows[0].priority >= t.rows[1].priority
  {
    hide RowMatches;
    hide RowCovers;
    if t.rows[0].priority >= t.rows[1].priority {
      forall env ensures Winner(r, t, env) != Some(1) { ShadowedNeverWins(r, t, env, 0, 1); }
    } else {
      var env :| RowMatches(r, t.columns, t.rows[1], env);
      WinnerIff(r, t, env, 1);
    }
  }

  /** One numeric column; `between high and low`, then `== low`. */
  function Unordered(name: string, high: Json, low: Json): (t: Table)
    ensures Shaped(t)
  {
    Table([Column(name, true)],
          [Row("a", [Cell(Between, high, low)], 0.0, map[]), Row("b", [Cell(Eq, low, Null)], 0.0, map[])], First, map[])
  }

  /** Why the bounds must be in order, for every pair of finite bounds that are not: the condition never matches, yet
      its region is sorted, so the optimiser reports the row after it that asks for the lower bound, and that row is
      the one that wins on it. Deleting what is reported leaves nothing to win. */
  lemma UnorderedBetweenHidesALiveRow(r: Reader, name: string, high: Json, low: Json, env: string -> Json)
    requires Sane(r) && !high.Bool? && !low.Bool? && high != Text("") && low != Text("")
    requires Num(r, high).Some? && Num(r, high).value.Fin? && Num(r, low).Some? && Num(r, low).value.Fin?
    requires Num(r, high).value.value > Num(r, low).value.value && env(name) == low
    ensures var t := Unordered(name, high, low);
            && Reported(r, t, 1) && Winner(r, t, env) == Some(1)
            && Winner(r, Cleaned(r, t), env).None?
  {
    var t := Unordered(name, high, low);
    UnorderedCells(r, high, low);
    assert RowCovers(r, t.columns, t.rows[0], t.rows[1]);
    assert !RowMatches(r, t.columns, t.rows[0], env) by {
      assert !Matches(r, t.columns[0], t.rows[0].cells[0], env(t.columns[0].variable));
    }
    assert RowMatches(r, t.columns, t.rows[1], env);
    assert Wins(r, t, env, |t.rows|, 1);
    WinnerIff(r, t, env, 1);
    hide RowMatches;
    hide RowCovers;
    assert Unreported(r, t, 2) == [] && Unreported(r, t, 1) == [];
    assert !Reported(r, t, 0) && Unreported(r, t, 0) == [t.rows[0]];
    var c := Cleaned(r, t);
    BestWins(r, c, env, 1);
  }

  lemma UnorderedCells(r: Reader, high: Json, low: Json)
    requires Sane(r) && !high.Bool? && !low.Bool? && high != Text("") && low != Text("")
    requires Num(r, high).Some? && Num(r, high).value.Fin? && Num(r, low).Some? && Num(r, low).value.Fin?
    requires Num(r, high).value.value > Num(r, low).value.value
    ensures forall name ::
              var col, a, b := Column(name, true), Cell(Between, high, low), Cell(Eq, low, Null);
              && (forall actual :: !Matches(r, col, a, actual)) && Matches(r, col, b, low)
              && !CellRegion(r, col, a).Opaque? && !CellRegion(r, col, b).Opaque?
              && CellCovers(CellRegion(r, col, a), CellRegion(r, col, b))
  {
  }

  // ---------------------------------------------------------------- the loops as written

  /** `_evaluate_row`: every cell is tried, so that the trace is complete. */
  method EvaluateRow(r: Reader, columns: seq<Column>, row: Row, env: string -> Json)
    returns (matched: bool, trace: seq<bool>)
    requires |row.cells| == |columns|
    ensures matched <==> RowMatches(r, columns, row, env)
    ensures |trace| == |columns| &&
            forall k :: 0 <= k < |columns| ==> trace[k] == Matches(r, columns[k], row.cells[k],
                env(columns[k].variable))
  {
    trace := [];
    matched := true;
    for k := 0 to |columns|
      invariant |trace| == k
      invariant forall i :: 0 <= i < k ==> trace[i] == Matches(r, columns[i], row.cells[i], env(columns[i].variable))
      invariant matched <==> forall i :: 0 <= i < k ==> trace[i]
    {
      var cell := row.cells[k];
      if IsWildcard(cell) {
        trace := trace + [true];
      } else {
        var passed := Matches(r, columns[k], cell, env(columns[k].variable));
        trace := trace + [passed];
        if !passed { matched := false; }
      }
    }
  }

  // ---------------------------------------------------------------- what an evaluation reports

  datatype OutputColumn = OutputColumn(id: string, outcome: bool)

  datatype Origin = NoRow | DefaultRow | OneRow(id: string) | EveryRow(ids: seq<string>)

  datatype Report = Report(matched: seq<string>, origin: Origin, outputs: map<string, Json>, outcome: Json,
                           ambiguous: bool)

  function ValueOf(outputs: map<string, Json>, id: string): Json {
    if id in outputs then outputs[id] else Null
  }

  function RowIds(t: Table, matched: seq<nat>): (ids: seq<string>)
    requires forall i :: 0 <= i < |matched| ==> matched[i] < |t.rows|
  {
    seq(|matched|, i requires 0 <= i < |matched| => t.rows[matched[i]].id)
  }

  /** One column under the collect policy: the value of every matching row, in table order. */
  function Gathered(t: Table, matched: seq<nat>, id: string): seq<Json>
    requires forall i :: 0 <= i < |matched| ==> matched[i] < |t.rows|
  {
    seq(|matched|, i requires 0 <= i < |matched| => ValueOf(t.rows[matched[i]].outputs, id))
  }

  /** The first outcome column's id, if there is one. */
  function OutcomeColumn(columns: seq<OutputColumn>): Option<string> {
    if columns == [] then None
    else if columns[0].outcome then Some(columns[0].id)
    else OutcomeColumn(columns[1..])
  }

  /** A list stands for its first element; a text is lower-cased. */
  function Lowered(raw: Json, lower: string -> string): Json {
    var one := if raw.List? && raw.items != [] then raw.items[0] else raw;
    if one.Text? then Text(lower(one.text)) else one
  }

  /** The outcome an evaluation reads off its outputs. */
  function OutcomeOf(columns: seq<OutputColumn>, outputs: map<string, Json>, lower: string -> string): Json {
    var column := OutcomeColumn(columns);
    if column.None? then Null else Lowered(ValueOf(outputs, column.value), lower)
  }

  /** `_outcome_output_id` */
  method FindOutcomeColumn(columns: seq<OutputColumn>) returns (column: Option<string>)
    ensures column == OutcomeColumn(columns)
  {
    assert columns[0..] == columns;
    for i := 0 to |columns|
      invariant OutcomeColumn(columns) == OutcomeColumn(columns[i..])
    {
      assert columns[i..][0] == columns[i] && columns[i..][1..] == columns[i + 1..];
      if columns[i].outcome { return Some(columns[i].id); }
    }
    column := None;
  }

  lemma MatchedInTable(r: Reader, t: Table, env: string -> Json)
    requires Shaped(t)
    ensures var m := Matched(r, t, env, |t.rows|); forall i :: 0 <= i < |m| ==> m[i] < |t.rows|
  {
    hide RowMatches;
    MatchedAre(r, t, env, |t.rows|);
    var m := Matched(r, t, env, |t.rows|);
    forall i | 0 <= i < |m| ensures m[i] < |t.rows| { assert m[i] in m; }
  }

  /** `evaluate_decision_table`. `lower` is Python's `str.lower`. */
  method Evaluate(r: Reader, t: Table, columns: seq<OutputColumn>, lower: string -> string, env: string -> Json)
    returns (report: Report)
    requires Shaped(t)
    ensures var m := Matched(r, t, env, |t.rows|);
            && (forall i :: 0 <= i < |m| ==> m[i] < |t.rows|)
            && report.matched == RowIds(t, m)
            && (report.ambiguous <==> t.policy.Unique? && |m| > 1)
            && if t.policy.Collect? && m != [] then
                 && report.origin == EveryRow(report.matched)
                 && report.outputs.Keys == (set column | column in columns :: column.id)
                 && forall id :: id in report.outputs ==> report.outputs[id] == List(Gathered(t, m, id))
               else
                 && report.outputs == Outputs(r, t, env)
                 && report.origin == (
                      var w := Winner(r, t, env);
                      if w.Some? then OneRow(t.rows[w.value].id) else if t.fallback != map[] then DefaultRow else NoRow)
    ensures report.outcome == OutcomeOf(columns, report.outputs, lower)
  {
    hide RowMatches;
    hide Winner;
    MatchedInTable(r, t, env);
    var matched: seq<nat> := [];
    for n := 0 to |t.rows|
      invariant matched == Matched(r, t, env, n)
    {
      var hit, trace := EvaluateRow(r, t.columns, t.rows[n], env);
      if hit { matched := matched + [n]; }
    }
    var column := FindOutcomeColumn(columns);
    var ids := RowIds(t, matched);
    var outputs, origin := map[], NoRow;
    if matched != [] && t.policy.Collect? {
      outputs := CollectColumns(t, columns, matched);
      origin := EveryRow(ids);
    } else {
      var w := Pick(r, t, env, matched);
      if w.Some? {
        outputs, origin := t.rows[w.value].outputs, OneRow(t.rows[w.value].id);
      } else {
        outputs, origin := t.fallback, if t.fallback != map[] then DefaultRow else NoRow;
      }
    }
    var outcome := if column.None? then Null else Lowered(ValueOf(outputs, column.value), lower);
    report := Report(ids, origin, outputs, outcome, t.policy.Unique? && |matched| > 1);
  }

  /** The collect branch: one list per output column. */
  method CollectColumns(t: Table, columns: seq<OutputColumn>, matched: seq<nat>) returns (outputs: map<string, Json>)
    requires forall i :: 0 <= i < |matched| ==> matched[i] < |t.rows|
    ensures outputs.Keys == set column | column in columns :: column.id
    ensures forall id :: id in outputs ==> outputs[id] == List(Gathered(t, matched, id))
  {
    outputs := map[];
    for n := 0 to |columns|
      invariant outputs.Keys == set column | column in columns[..n] :: column.id
      invariant forall id :: id in outputs ==> outputs[id] == List(Gathered(t, matched, id))
    {
      assert columns[..n + 1] == columns[..n] + [columns[n]];
      outputs := outputs[columns[n].id := List(Gathered(t, matched, columns[n].id))];
    }
    assert columns[..|columns|] == columns;
  }

  /** Collecting decides like first match: the outcome read off the collected column is the one the first matching
      row alone would give, as long as that row's own value is not a list. */
  lemma CollectDecidesLikeFirst(r: Reader, t: Table, columns: seq<OutputColumn>, lower: string -> string,
                                env: string -> Json, collected: map<string, Json>, id: string)
    requires Shaped(t) && t.policy.Collect? && Matched(r, t, env, |t.rows|) != []
    requires OutcomeColumn(columns) == Some(id) && id in collected
    requires forall i :: 0 <= i < |Matched(r, t, env, |t.rows|)| ==> Matched(r, t, env, |t.rows|)[i] < |t.rows|
    requires collected[id] == List(Gathered(t, Matched(r, t, env, |t.rows|), id))
    requires !ValueOf(Outputs(r, t.(policy := First), env), id).List?
    ensures OutcomeOf(columns, collected, lower) == OutcomeOf(columns, Outputs(r, t.(policy := First), env), lower)
  {
    hide RowMatches;
    var m := Matched(r, t, env, |t.rows|);
    var first := t.(policy := First);
    MatchedIgnoresPolicy(r, t, first, env, |t.rows|);
    MatchedAre(r, first, env, |t.rows|);
    assert forall i :: 0 <= i < |m| ==> m[i] in m;
    ChosenWins(r, first, env, m[0]);
  }

  lemma {:induction false} MatchedIgnoresPolicy(r: Reader, s: Table, t: Table, env: string -> Json, n: nat)
    requires Shaped(s) && t == s.(policy := t.policy) && n <= |s.rows|
    ensures Matched(r, s, env, n) == Matched(r, t, env, n)
  {
    hide RowMatches;
    if n > 0 { MatchedIgnoresPolicy(r, s, t, env, n - 1); }
  }

  method Pick(r: Reader, t: Table, ghost env: string -> Json, matched: seq<nat>) returns (winner: Option<nat>)
    requires Shaped(t) && matched == Matched(r, t, env, |t.rows|)
    ensures winner == Winner(r, t, env)
  {
    hide RowMatches;
    hide Matched;
    hide Best;
    MatchedAre(r, t, env, |t.rows|);
    if matched == [] {
      BestWins(r, t, env, |t.rows|);
      return None;
    }
    assert forall i :: 0 <= i < |matched| ==> matched[i] in matched;
    var w := matched[0];
    if t.policy.Priority? {
      w := HighestOf(t, matched);
    }
    winner := Some(w);
    ChosenWins(r, t, env, w);
  }

  ghost predicate Rising(s: seq<nat>) {
    forall i, j :: 0 <= i < j < |s| ==> s[i] < s[j]
  }

  /** `max(matched, key=priority)` */
  method HighestOf(t: Table, matched: seq<nat>) returns (w: nat)
    requires matched != [] && Rising(matched) && forall i :: 0 <= i < |matched| ==> matched[i] < |t.rows|
    ensures w in matched && w < |t.rows|
    ensures forall i :: 0 <= i < |matched| ==>
              var k := matched[i];
              t.rows[k].priority < t.rows[w].priority || (t.rows[k].priority == t.rows[w].priority && w <= k)
  {
    var at := 0;
    w := matched[0];
    for n := 1 to |matched|
      invariant at < n && w == matched[at]
      invariant forall i :: 0 <= i < n ==>
        t.rows[matched[i]].priority < t.rows[w].priority || (t.rows[matched[i]].priority == t.rows[w].priority
            && at <= i)
    {
      if t.rows[matched[n]].priority > t.rows[w].priority { at, w := n, matched[n]; }
    }
  }

  /** The chosen match is the row that wins. */
  lemma ChosenWins(r: Reader, t: Table, env: string -> Json, w: nat)
    requires Shaped(t) && w < |t.rows|
    requires var m := Matched(r, t, env, |t.rows|);
             w in m && forall i :: 0 <= i < |m| ==>
               m[i] < |t.rows| &&
               if t.policy.Priority? then
                 t.rows[m[i]].priority < t.rows[w].priority
                     || (t.rows[m[i]].priority == t.rows[w].priority && w <= m[i])
               else w <= m[i]
    ensures Winner(r, t, env) == Some(w)
  {
    hide RowMatches;
    hide Matched;
    MatchedAre(r, t, env, |t.rows|);
    var m := Matched(r, t, env, |t.rows|);
    forall k: nat | k < |t.rows| && k != w && RowMatches(r, t.columns, t.rows[k], env)
      ensures if t.policy.Priority? then t.rows[k].priority < t.rows[w].priority
              || (t.rows[k].priority == t.rows[w].priority && w < k)
              else w < k
    {
      var i :| 0 <= i < |m| && m[i] == k;
    }
    assert Wins(r, t, env, |t.rows|, w);
    WinnerIff(r, t, env, w);
  }

  lemma {:induction false} MatchedAre(r: Reader, t: Table, env: string -> Json, n: nat)
    requires Shaped(t) && n <= |t.rows|
    ensures Rising(Matched(r, t, env, n))
    ensures forall k :: k in Matched(r, t, env, n) ==> k < n
    ensures forall k: nat :: k < n ==> (k in Matched(r, t, env, n) <==> RowMatches(r, t.columns, t.rows[k], env))
  {
    hide RowMatches;
    if n > 0 {
      MatchedAre(r, t, env, n - 1);
      var front, m := Matched(r, t, env, n - 1), Matched(r, t, env, n);
      forall i, j | 0 <= i < j < |m| ensures m[i] < m[j] {
        if j < |front| { assert front[i] < front[j]; } else { assert front[i] in front; }
      }
    }
  }

  /** The unreachable part of `analyze_decision_table`: each reported row with the first row that covers it. */
  method Unreachable(r: Reader, t: Table) returns (found: seq<(nat, nat)>)
    requires Shaped(t)
    ensures forall j: nat :: j < |t.rows| ==>
              (Reported(r, t, j) && (t.policy.First? || t.policy.Priority?) <==> exists i :: (j, i) in found)
    ensures forall j, i :: (j, i) in found ==>
              && i < j < |t.rows| && RowCovers(r, t.columns, t.rows[i], t.rows[j])
              && forall h :: 0 <= h < i ==> !RowCovers(r, t.columns, t.rows[h], t.rows[j])
  {
    hide RowCovers;
    found := [];
    if t.policy.First? || t.policy.Priority? {
      for j := 0 to |t.rows|
        invariant forall k: nat :: k < j ==> (Reported(r, t, k) <==> exists i :: (k, i) in found)
        invariant forall k, i :: (k, i) in found ==>
          && i < k < j && RowCovers(r, t.columns, t.rows[i], t.rows[k])
          && forall h :: 0 <= h < i ==> !RowCovers(r, t.columns, t.rows[h], t.rows[k])
      {
        ghost var before := found;
        var i := 0;
        while i < j
          invariant i <= j && found == before
          invariant forall h :: 0 <= h < i ==> !RowCovers(r, t.columns, t.rows[h], t.rows[j])
        {
          if RowCovers(r, t.columns, t.rows[i], t.rows[j]) {
            found := found + [(j, i)];
            assert (j, i) in found;
            break;
          }
          i := i + 1;
        }
        assert Reported(r, t, j) <==> exists h :: (j, h) in found;
        assert forall k: nat, h: nat :: k < j ==> ((k, h) in found <==> (k, h) in before);
      }
    }
  }
}
