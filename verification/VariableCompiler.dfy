/** `compile_variable`: Python variable functions to single-assignment register code. Both sides are given
    a meaning over shared uninterpreted operations, and compilation is shown to preserve it. */
module VariableCompiler {
  import opened Common
  import opened JsonValue
  import Decimal

  // ---------------------------------------------------------------- source language

  datatype BinaryOp = Add | Subtract | Multiply | Divide | OtherOp(name: string)

  /** The expressions `_compile_expr` tells apart; `Unsupported` is every other node. */
  datatype Expr =
    | Constant(literal: Json)
    | Name(id: string)
    | Negate(operand: Expr)
    | Subscript(container: Expr, index: Expr)
    | GetCall(receiver: Expr, args: seq<Expr>)
    | NamedCall(fn: string, args: seq<Expr>)
    | Binary(op: BinaryOp, left: Expr, right: Expr)
    | Unsupported(kind: string)

  datatype Stmt = Assign(name: string, value: Expr) | Return(result: Option<Expr>) | OtherStmt(kind: string)

  predicate IsExtremum(fn: string) {
    fn == "min" || fn == "max"
  }

  predicate IsCast(fn: string) {
    fn == "int" || fn == "float" || fn == "str" || fn == "bool"
  }

  // ---------------------------------------------------------------- target language

  datatype Instr =
    | Literal(target: string, literal: Json)
    | Scale(target: string, source: string, factor: int)
    | Get(target: string, source: string, key: string, default: Option<string>)
    | Extremum(fn: string, target: string, args: seq<string>)
    | Cast(target: string, source: string, fn: string)
    | Arith(op: BinaryOp, target: string, left: string, right: string)
    | Give(source: string)

  function Register(n: nat): string {
    "r" + Decimal.Print(n)
  }

  lemma RegistersDiffer(m: nat, n: nat)
    requires Register(m) == Register(n)
    ensures m == n
  {
    assert Register(m)[1..] == Decimal.Print(m) && Register(n)[1..] == Decimal.Print(n);
    Decimal.PrintIsInjective(m, n);
  }

  // ---------------------------------------------------------------- compilation

  /** Code for an expression: the register holding its value and the counter after it. */
  datatype Code = Code(instrs: seq<Instr>, reg: string, counter: nat)

  /** Code for several expressions, one after the other. */
  datatype ListCode = ListCode(instrs: seq<Instr>, regs: seq<string>, counter: nat)

  /** From a Python name to the register (or parameter) holding it. */
  type Scope = map<string, string>

  function Size(e: Expr): (size: nat)
    ensures size > 0
  {
    match e
    case Negate(operand) => 1 + Size(operand)
    case Subscript(container, index) => 1 + Size(container) + Size(index)
    case GetCall(receiver, args) => 3 + Size(receiver) + SizeAll(args)
    case NamedCall(fn, args) => 1 + SizeAll(args)
    case Binary(op, left, right) => 1 + Size(left) + Size(right)
    case _ => 1
  }

  function SizeAll(es: seq<Expr>): nat {
    if es == [] then 0 else Size(es[0]) + SizeAll(es[1..])
  }

  /** The subexpressions compiled before the node's own instruction, in order; a `.get` is padded to two arguments. */
  function Operands(e: Expr): seq<Expr> {
    match e
    case Negate(operand) => [operand]
    case Subscript(container, index) => [container, index]
    case GetCall(receiver, args) =>
      [receiver,
       if |args| > 0 then args[0] else Constant(Text("")),
       if |args| > 1 then args[1] else Constant(Number(0.0))]
    case NamedCall(fn, args) => args
    case Binary(op, left, right) => [left, right]
    case _ => []
  }

  lemma OperandsAreSmaller(e: Expr)
    ensures SizeAll(Operands(e)) < Size(e)
  {
    var os := Operands(e);
    if |os| == 1 && !e.NamedCall? {
      assert os[1..] == [];
    } else if |os| == 2 && !e.NamedCall? {
      assert os[1..] == [os[1]] && os[1..][1..] == [];
      assert SizeAll(os[1..]) == Size(os[1]) + SizeAll([]);
    } else if e.GetCall? {
      assert os[1..] == [os[1], os[2]] && os[1..][1..] == [os[2]] && os[1..][1..][1..] == [];
      assert SizeAll([os[2]]) == Size(os[2]) + SizeAll([]);
      assert SizeAll([os[1], os[2]]) == Size(os[1]) + SizeAll([os[2]]);
      if |e.args| > 1 { assert SizeAll(e.args[1..]) == Size(e.args[1]) + SizeAll(e.args[1..][1..]); }
    }
  }

  /** Refusals before any operand is compiled. */
  function RefusedEarly(e: Expr): Option<string> {
    if e.Unsupported? then Some("unsupported:" + e.kind)
    else if e.NamedCall? && !IsExtremum(e.fn) && !(IsCast(e.fn) && |e.args| == 1) then Some("unsupported:call")
    else None
  }

  /** Refusals once the operands have been compiled. */
  function RefusedLate(e: Expr): Option<string> {
    if e.NamedCall? && IsExtremum(e.fn) && |e.args| < 2 then Some("unsupported:call:" + e.fn)
    else if e.Binary? && e.op.OtherOp? then Some("unsupported:binop:" + e.op.name)
    else None
  }

  predicate IsOperation(e: Expr) {
    !e.Constant? && !e.Name? && !e.Unsupported?
  }

  /** The node's own instruction, its operands being in `regs`. */
  function Emit(e: Expr, target: string, regs: seq<string>): Instr
    requires IsOperation(e) && |regs| == |Operands(e)| && RefusedEarly(e).None?
  {
    match e
    case Negate(_) => Scale(target, regs[0], -1)
    case Subscript(_, _) => Get(target, regs[0], regs[1], None)
    case GetCall(_, _) => Get(target, regs[0], regs[1], Some(regs[2]))
    case NamedCall(fn, _) => if IsExtremum(fn) then Extremum(fn, target, regs) else Cast(target, regs[0], fn)
    case Binary(op, _, _) => Arith(op, target, regs[0], regs[1])
  }

  function Compile(e: Expr, n: nat, scope: Scope): (r: Result<Code>)
    ensures r.Ok? ==> r.value.counter >= n
    decreases Size(e), 0
  {
    if e.Constant? then Ok(Code([Literal(Register(n + 1), e.literal)], Register(n + 1), n + 1))
    else if e.Name? then if e.id in scope then Ok(Code([], scope[e.id], n)) else Err("unsupported:name:" + e.id)
    else if RefusedEarly(e).Some? then Err(RefusedEarly(e).value)
    else
      var os := (OperandsAreSmaller(e); CompileAll(Operands(e), n, scope));
      if os.Err? then Err(os.reason)
      else if RefusedLate(e).Some? then Err(RefusedLate(e).value)
      else
        var t := Register(os.value.counter + 1);
        Ok(Code(os.value.instrs + [Emit(e, t, os.value.regs)], t, os.value.counter + 1))
  }

  function CompileAll(es: seq<Expr>, n: nat, scope: Scope): (r: Result<ListCode>)
    ensures r.Ok? ==> r.value.counter >= n && |r.value.regs| == |es|
    decreases SizeAll(es), 1, |es|
  {
    if es == [] then Ok(ListCode([], [], n))
    else
      var c := Compile(es[0], n, scope);
      if c.Err? then Err(c.reason)
      else
        var rest := CompileAll(es[1..], c.value.counter, scope);
        if rest.Err? then rest
        else Ok(ListCode(c.value.instrs + rest.value.instrs, [c.value.reg] + rest.value.regs, rest.value.counter))
  }

  function Returned(result: Option<Expr>): Expr {
    if result.Some? then result.value else Constant(Null)
  }

  /** Statements up to the first `return`; whatever follows it is never looked at. */
  function CompileBody(body: seq<Stmt>, n: nat, scope: Scope): Result<seq<Instr>> {
    if body == [] then Err("unsupported:missing_return")
    else match body[0]
      case Assign(name, value) =>
        var c := Compile(value, n, scope);
        if c.Err? then Err(c.reason)
        else
          var rest := CompileBody(body[1..], c.value.counter, scope[name := c.value.reg]);
          if rest.Err? then rest else Ok(c.value.instrs + rest.value)
      case Return(result) =>
        var c := Compile(Returned(result), n, scope);
        if c.Err? then Err(c.reason) else Ok(c.value.instrs + [Give(c.value.reg)])
      case OtherStmt(kind) => Err("unsupported:stmt:" + kind)
  }

  function Parameters(params: set<string>): Scope {
    map p | p in params :: p
  }

  function CompileFunction(params: set<string>, body: seq<Stmt>): Result<seq<Instr>> {
    CompileBody(body, 0, Parameters(params))
  }

  // ---------------------------------------------------------------- meaning

  /** The operations of Python and of the register machine; every one but literals may raise. Python negates, and
      subscripts with `item`; the machine scales, and its keyed get without a default is `fetch`. `omitted` is the
      default of a `.get` written without one. `padsGets` reads a `.get` call the compiler's way, padded or cut to
      two arguments; Python itself refuses any other number than one or two. */
  datatype Ops<!V> = Ops(
    literal: Json -> V,
    omitted: V,
    padsGets: bool,
    negate: V -> Result<V>,
    scale: (V, int) -> Result<V>,
    item: (V, V) -> Result<V>,
    fetch: (V, V) -> Result<V>,
    lookup: (V, V, V) -> Result<V>,
    extremum: (string, seq<V>) -> Result<V>,
    cast: (string, V) -> Result<V>,
    arith: (BinaryOp, V, V) -> Result<V>)

  /** What Python evaluates before the node's own operation. */
  function PythonOperands(e: Expr): seq<Expr> {
    if e.GetCall? then [e.receiver] + e.args else Operands(e)
  }

  lemma PythonOperandsAreSmaller(e: Expr)
    ensures SizeAll(PythonOperands(e)) < Size(e)
  {
    OperandsAreSmaller(e);
    if e.GetCall? { assert ([e.receiver] + e.args)[1..] == e.args; }
  }

  function EvalOperands<V>(ops: Ops<V>, e: Expr): seq<Expr> {
    if ops.padsGets then Operands(e) else PythonOperands(e)
  }

  /** The node's own operation in Python. */
  function Apply<V>(ops: Ops<V>, e: Expr, vs: seq<V>): Result<V>
    requires |vs| == |EvalOperands(ops, e)|
  {
    match e
    case Negate(_) => ops.negate(vs[0])
    case Subscript(_, _) => ops.item(vs[0], vs[1])
    case GetCall(_, args) =>
      if ops.padsGets then ops.lookup(vs[0], vs[1], vs[2])
      else if |args| == 1 then ops.lookup(vs[0], vs[1], ops.omitted)
      else if |args| == 2 then ops.lookup(vs[0], vs[1], vs[2])
      else Err("TypeError")
    case NamedCall(fn, args) =>
      if IsExtremum(fn) then ops.extremum(fn, vs)
      else if IsCast(fn) && |vs| == 1 then ops.cast(fn, vs[0])
      else Err("call")
    case Binary(op, _, _) => ops.arith(op, vs[0], vs[1])
    case _ => Err("unsupported")
  }

  /** What the Python expression evaluates to. */
  function Eval<V>(ops: Ops<V>, e: Expr, env: map<string, V>): Result<V>
    decreases Size(e), 0
  {
    if e.Constant? then Ok(ops.literal(e.literal))
    else if e.Name? then if e.id in env then Ok(env[e.id]) else Err("NameError")
    else
      var vs := (OperandsAreSmaller(e); PythonOperandsAreSmaller(e); EvalAll(ops, EvalOperands(ops, e), env));
      if vs.Err? then Err(vs.reason) else Apply(ops, e, vs.value)
  }

  function EvalAll<V>(ops: Ops<V>, es: seq<Expr>, env: map<string, V>): (r: Result<seq<V>>)
    ensures r.Ok? ==> |r.value| == |es|
    decreases SizeAll(es), 1, |es|
  {
    if es == [] then Ok([])
    else
      var v := Eval(ops, es[0], env);
      if v.Err? then Err(v.reason)
      else
        var rest := EvalAll(ops, es[1..], env);
        if rest.Err? then rest else Ok([v.value] + rest.value)
  }

  /** What calling the Python function gives. */
  function Call<V>(ops: Ops<V>, body: seq<Stmt>, env: map<string, V>): Result<V> {
    if body == [] then Ok(ops.literal(Null))
    else match body[0]
      case Assign(name, value) =>
        var v := Eval(ops, value, env);
        if v.Err? then v else Call(ops, body[1..], env[name := v.value])
      case Return(result) => Eval(ops, Returned(result), env)
      case OtherStmt(kind) => Err(kind)
  }

  /** How a stretch of register code ends. `Stuck` is a read of a register nothing has written. */
  datatype Ending<V> = FellThrough(regs: map<string, V>) | Gave(value: V) | Threw(reason: string) | Stuck

  function Written<V>(regs: map<string, V>, target: string, v: Result<V>): Ending<V> {
    if v.Ok? then FellThrough(regs[target := v.value]) else Threw(v.reason)
  }

  /** The registers an instruction reads, in the order it uses them. */
  function Reads(i: Instr): seq<string> {
    match i
    case Literal(_, _) => []
    case Scale(_, source, _) => [source]
    case Get(_, source, key, default) => if default.Some? then [source, key, default.value] else [source, key]
    case Extremum(_, _, args) => args
    case Cast(_, source, _) => [source]
    case Arith(_, _, left, right) => [left, right]
    case Give(source) => [source]
  }

  /** What an instruction makes of the values it read. */
  function Operate<V>(ops: Ops<V>, i: Instr, vs: seq<V>): Result<V>
    requires !i.Give? && |vs| == |Reads(i)|
  {
    match i
    case Literal(_, value) => Ok(ops.literal(value))
    case Scale(_, _, factor) => ops.scale(vs[0], factor)
    case Get(_, _, _, default) => if default.Some? then ops.lookup(vs[0], vs[1], vs[2]) else ops.fetch(vs[0], vs[1])
    case Extremum(fn, _, _) => ops.extremum(fn, vs)
    case Cast(_, _, fn) => ops.cast(fn, vs[0])
    case Arith(op, _, _, _) => ops.arith(op, vs[0], vs[1])
  }

  function ReadAll<V>(regs: map<string, V>, names: seq<string>): (r: Option<seq<V>>)
    ensures r.Some? ==> |r.value| == |names|
  {
    if names == [] then Some([])
    else if names[0] !in regs then None
    else
      var rest := ReadAll(regs, names[1..]);
      if rest.None? then None else Some([regs[names[0]]] + rest.value)
  }

  function Step<V>(ops: Ops<V>, i: Instr, regs: map<string, V>): Ending<V> {
    var vs := ReadAll(regs, Reads(i));
    if vs.None? then Stuck
    else if i.Give? then Gave(vs.value[0])
    else Written(regs, i.target, Operate(ops, i, vs.value))
  }

  function Exec<V>(ops: Ops<V>, code: seq<Instr>, regs: map<string, V>): Ending<V> {
    if code == [] then FellThrough(regs)
    else
      var next := Step(ops, code[0], regs);
      if next.FellThrough? then Exec(ops, code[1..], next.regs) else next
  }

  /** The result of running a whole function's code from its parameters. */
  function Outcome<V>(r: Result<V>): Ending<V> {
    if r.Ok? then Gave(r.value) else Threw(r.reason)
  }

  lemma {:induction false} ExecConcat<V>(ops: Ops<V>, a: seq<Instr>, b: seq<Instr>, regs: map<string, V>)
    ensures Exec(ops, a + b, regs) == var r := Exec(ops, a, regs); if r.FellThrough? then Exec(ops, b, r.regs) else r
  {
    if a == [] {
      assert a + b == b;
    } else {
      assert (a + b)[0] == a[0] && (a + b)[1..] == a[1..] + b;
      var next := Step(ops, a[0], regs);
      if next.FellThrough? { ExecConcat(ops, a[1..], b, next.regs); }
    }
  }

  // ---------------------------------------------------------------- inputs

  /** Every `.get` call has the one or two positional arguments Python accepts. */
  predicate GetsAreCalls(e: Expr)
    decreases Size(e), 0
  {
    PythonOperandsAreSmaller(e);
    (e.GetCall? ==> 1 <= |e.args| <= 2) && AllGetsAreCalls(PythonOperands(e))
  }

  predicate AllGetsAreCalls(es: seq<Expr>)
    decreases SizeAll(es), 1, |es|
  {
    es == [] || (GetsAreCalls(es[0]) && AllGetsAreCalls(es[1..]))
  }

  predicate BodyGetsAreCalls(body: seq<Stmt>) {
    body == [] ||
    match body[0]
    case Assign(_, value) => GetsAreCalls(value) && BodyGetsAreCalls(body[1..])
    case Return(result) => GetsAreCalls(Returned(result))
    case OtherStmt(_) => true
  }

  /** `name` is none of the registers after number `n` up to `top`, the last one the code writes. */
  ghost predicate Older(name: string, n: nat, top: nat) {
    forall k: nat :: n < k <= top ==> name != Register(k)
  }

  /** No parameter is spelled like a register. */
  ghost predicate ProperParameters(params: set<string>) {
    forall p, k: nat :: p in params && 0 < k ==> p != Register(k)
  }

  /** Where the two machines must agree for the translation to be sound: negation is scaling by -1, subscripting
      is the keyed get, and a lookup without a default is one that falls back to 0. */
  ghost predicate MachinesAgree<V(!new)>(ops: Ops<V>) {
    && (forall v :: ops.negate(v) == ops.scale(v, -1))
    && (forall c, k :: ops.item(c, k) == ops.fetch(c, k))
    && (forall c, k :: ops.lookup(c, k, ops.omitted) == ops.lookup(c, k, ops.literal(Number(0.0))))
  }

  /** Python read the way the compiler reads it. */
  ghost predicate ReadAsCompiled<V(!new)>(ops: Ops<V>) {
    && ops.padsGets
    && (forall v :: ops.negate(v) == ops.scale(v, -1))
    && (forall c, k :: ops.item(c, k) == ops.fetch(c, k))
  }

  // ---------------------------------------------------------------- preservation

  /** Registers hold what the Python environment holds, under names no later register takes. */
  ghost predicate Agrees<V>(env: map<string, V>, scope: Scope, regs: map<string, V>, n: nat, top: nat) {
    && env.Keys == scope.Keys
    && forall x :: x in scope ==> scope[x] in regs && regs[scope[x]] == env[x] && Older(scope[x], n, top)
  }

  /** `after` keeps everything in `before` that is older than register `n + 1`. */
  ghost predicate Extends<V>(before: map<string, V>, after: map<string, V>, n: nat, top: nat) {
    forall name :: name in before && Older(name, n, top) ==> name in after && after[name] == before[name]
  }

  ghost predicate AllOlder(names: seq<string>, n: nat, top: nat) {
    forall i :: 0 <= i < |names| ==> Older(names[i], n, top)
  }

  /** Code for a list of expressions did what the expressions do. */
  ghost predicate Computes<V>(r: Result<seq<V>>, ending: Ending<V>, before: map<string, V>, regs: seq<string>, n: nat,
                              m: nat, top: nat)
  {
    match r
    case Ok(vs) =>
      && ending.FellThrough? && ReadAll(ending.regs, regs) == Some(vs)
      && AllOlder(regs, m, top) && Extends(before, ending.regs, n, top)
    case Err(reason) => ending == Threw(reason)
  }

  function Single<V>(r: Result<V>): Result<seq<V>> {
    if r.Ok? then Ok([r.value]) else Err(r.reason)
  }

  lemma NewRegisterIsFresh(n: nat, m: nat, top: nat)
    requires n < m <= top
    ensures Older(Register(m), m, top) && !Older(Register(m), n, top)
  {
    forall k: nat | m < k <= top ensures Register(m) != Register(k) {
      if Register(m) == Register(k) { RegistersDiffer(m, k); }
    }
  }

  lemma AgreesLater<V>(env: map<string, V>, scope: Scope, before: map<string, V>, after: map<string, V>, n: nat,
                       m: nat, top: nat)
    requires Agrees(env, scope, before, n, top) && Extends(before, after, n, top) && n <= m
    ensures Agrees(env, scope, after, m, top)
  {
  }

  lemma ReadOne<V>(regs: map<string, V>, name: string)
    requires name in regs
    ensures ReadAll(regs, [name]) == Some([regs[name]])
  {
    assert [name][1..] == [] && [regs[name]] + [] == [regs[name]];
    assert ReadAll(regs, []) == Some([]);
  }

  /** The last instruction of an expression: its operands are in registers and its result goes to a fresh one. */
  lemma LastInstr<V>(ops: Ops<V>, code: seq<Instr>, i: Instr, before: map<string, V>, n: nat, m: nat,
                     vs: Result<seq<V>>, top: nat)
    requires n <= m < top && !i.Give? && i.target == Register(m + 1)
    requires Computes(vs, Exec(ops, code, before), before, Reads(i), n, m, top)
    ensures Computes(Single(if vs.Ok? then Operate(ops, i, vs.value) else Err(vs.reason)),
                     Exec(ops, code + [i], before), before, [i.target], n, m + 1, top)
  {
    ExecConcat(ops, code, [i], before);
    if vs.Ok? {
      var regs := Exec(ops, code, before).regs;
      assert [i][0] == i && [i][1..] == [];
      NewRegisterIsFresh(m, m + 1, top);
      NewRegisterIsFresh(n, m + 1, top);
      var r := Operate(ops, i, vs.value);
      if r.Ok? { ReadOne(regs[i.target := r.value], i.target); }
    }
  }

  lemma {:induction false} CompileIsCorrect<V(!new)>(ops: Ops<V>, e: Expr, n: nat, scope: Scope, env: map<string, V>,
                                                    regs: map<string, V>, top: nat)
    requires ReadAsCompiled(ops) && Compile(e, n, scope).Ok? && Compile(e, n, scope).value.counter <= top
    requires Agrees(env, scope, regs, n, top)
    ensures var c := Compile(e, n, scope).value;
            Computes(Single(Eval(ops, e, env)), Exec(ops, c.instrs, regs), regs, [c.reg], n, c.counter, top)
    decreases Size(e), 0
  {
    hide CompileAll;
    hide EvalAll;
    hide Register;
    hide ReadAsCompiled;
    if e.Constant? {
      var i := Literal(Register(n + 1), e.literal);
      LastInstr(ops, [], i, regs, n, n, Ok([]), top);
      assert [] + [i] == [i];
    } else if e.Name? {
      ReadOne(regs, scope[e.id]);
    } else {
      OperandsAreSmaller(e);
      OperationIsCorrect(ops, e, n, scope, env, regs, top);
    }
  }

  lemma {:induction false} OperationIsCorrect<V(!new)>(ops: Ops<V>, e: Expr, n: nat, scope: Scope, env: map<string, V>,
                                                      regs: map<string, V>, top: nat)
    requires ReadAsCompiled(ops) && IsOperation(e) && Compile(e, n, scope).Ok?
    requires Compile(e, n, scope).value.counter <= top && Agrees(env, scope, regs, n, top)
    ensures var c := Compile(e, n, scope).value;
            Computes(Single(Eval(ops, e, env)), Exec(ops, c.instrs, regs), regs, [c.reg], n, c.counter, top)
    decreases SizeAll(Operands(e)), 2
  {
    hide CompileAll;
    hide EvalAll;
    hide Eval;
    hide Register;
    hide ReadAsCompiled;
    hide Agrees;
    hide Computes;
    hide Exec;
    CompileAllIsCorrect(ops, Operands(e), n, scope, env, regs, top);
    var c := CompileAll(Operands(e), n, scope).value;
    var i := Emit(e, Register(c.counter + 1), c.regs);
    assert Reads(i) == c.regs;
    LastInstr(ops, c.instrs, i, regs, n, c.counter, EvalAll(ops, Operands(e), env), top);
    SameOperation(ops, e, Register(c.counter + 1), c.regs, env);
  }

  /** The emitted instruction does what the Python node does. */
  lemma SameOperation<V(!new)>(ops: Ops<V>, e: Expr, target: string, regs: seq<string>, env: map<string, V>)
    requires ReadAsCompiled(ops)
    requires IsOperation(e) && RefusedEarly(e).None? && |regs| == |Operands(e)|
    ensures var vs := EvalAll(ops, Operands(e), env);
            Eval(ops, e, env) == if vs.Ok? then Operate(ops, Emit(e, target, regs), vs.value) else Err(vs.reason)
  {
    hide EvalAll;
  }

  lemma {:induction false} CompileAllIsCorrect<V(!new)>(ops: Ops<V>, es: seq<Expr>, n: nat, scope: Scope,
                                                        env: map<string, V>,
                                                       regs: map<string, V>, top: nat)
    requires ReadAsCompiled(ops) && CompileAll(es, n, scope).Ok? && CompileAll(es, n, scope).value.counter <= top
    requires Agrees(env, scope, regs, n, top)
    ensures var c := CompileAll(es, n, scope).value;
            Computes(EvalAll(ops, es, env), Exec(ops, c.instrs, regs), regs, c.regs, n, c.counter, top)
    decreases SizeAll(es), 1, |es|
  {
    hide Compile;
    hide Eval;
    hide ReadAsCompiled;
    hide Older;
    if es != [] {
      var c := Compile(es[0], n, scope).value;
      var rest := CompileAll(es[1..], c.counter, scope).value;
      CompileIsCorrect(ops, es[0], n, scope, env, regs, top);
      ExecConcat(ops, c.instrs, rest.instrs, regs);
      if Eval(ops, es[0], env).Ok? {
        var mid := Exec(ops, c.instrs, regs).regs;
        AgreesLater(env, scope, regs, mid, n, c.counter, top);
        CompileAllIsCorrect(ops, es[1..], c.counter, scope, env, mid, top);
        if EvalAll(ops, es[1..], env).Ok? {
          JoinResults(regs, mid, Exec(ops, rest.instrs, mid).regs, c.reg, rest.regs, n, c.counter, rest.counter, top);
        }
      }
    }
  }

  lemma OlderLater(name: string, n: nat, m: nat, top: nat)
    requires Older(name, n, top) && n <= m
    ensures Older(name, m, top)
  {
  }

  /** The first result is still in its register after the code for the others. */
  lemma JoinResults<V>(before: map<string, V>, mid: map<string, V>, after: map<string, V>, reg: string,
                       regs: seq<string>, n: nat, m: nat, k: nat, top: nat)
    requires n <= m <= k && Extends(before, mid, n, top) && Extends(mid, after, m, top)
    requires ReadAll(mid, [reg]).Some? && AllOlder([reg], m, top)
    requires ReadAll(after, regs).Some? && AllOlder(regs, k, top)
    ensures ReadAll(after, [reg] + regs) == Some(ReadAll(mid, [reg]).value + ReadAll(after, regs).value)
    ensures AllOlder([reg] + regs, k, top) && Extends(before, after, n, top)
  {
    assert Older([reg][0], m, top);
    OlderLater(reg, m, k, top);
    assert ([reg] + regs)[1..] == regs && [reg][1..] == [];
    ReadOne(mid, reg);
    forall name | name in before && Older(name, n, top) ensures name in after && after[name] == before[name] {
      OlderLater(name, n, m, top);
    }
    forall i | 0 <= i < |[reg] + regs| ensures Older(([reg] + regs)[i], k, top) {
      if i > 0 { assert ([reg] + regs)[i] == regs[i - 1]; }
    }
  }

  /** Binding a name to the register of its value keeps the two sides in step. */
  lemma BoundNameAgrees<V>(env: map<string, V>, scope: Scope, regs: map<string, V>, n: nat, name: string, reg: string,
                           v: V, top: nat)
    requires Agrees(env, scope, regs, n, top) && AllOlder([reg], n, top) && ReadAll(regs, [reg]) == Some([v])
    ensures Agrees(env[name := v], scope[name := reg], regs, n, top)
  {
    assert Older([reg][0], n, top);
    if reg in regs { ReadOne(regs, reg); }
  }

  /** An expression's code writes one register for each number it takes. */
  lemma WritesCount(e: Expr, n: nat, scope: Scope, rest: seq<Instr>)
    requires Compile(e, n, scope).Ok?
    ensures var c := Compile(e, n, scope).value;
            |Targets(c.instrs + rest)| == c.counter - n + |Targets(rest)|
  {
    hide Compile;
    var c := Compile(e, n, scope).value;
    ExprIsSingleAssignment(e, n, scope, scope.Values);
    TargetsConcat(c.instrs, rest);
  }

  /** Body by body: the code ends as the Python call does. */
  lemma {:induction false} BodyIsCorrect<V(!new)>(ops: Ops<V>, body: seq<Stmt>, n: nat, scope: Scope,
                                                  env: map<string, V>,
                                                 regs: map<string, V>, top: nat)
    requires ReadAsCompiled(ops) && CompileBody(body, n, scope).Ok? && Agrees(env, scope, regs, n, top)
    requires n + |Targets(CompileBody(body, n, scope).value)| <= top
    ensures Exec(ops, CompileBody(body, n, scope).value, regs) == Outcome(Call(ops, body, env))
  {
    hide Compile;
    hide Eval;
    hide ReadAsCompiled;
    hide Older;
    match body[0]
    case Assign(name, value) =>
      var c := Compile(value, n, scope).value;
      var rest := CompileBody(body[1..], c.counter, scope[name := c.reg]).value;
      WritesCount(value, n, scope, rest);
      CompileIsCorrect(ops, value, n, scope, env, regs, top);
      ExecConcat(ops, c.instrs, rest, regs);
      var v := Eval(ops, value, env);
      if v.Ok? {
        var mid := Exec(ops, c.instrs, regs).regs;
        AgreesLater(env, scope, regs, mid, n, c.counter, top);
        BoundNameAgrees(env, scope, mid, c.counter, name, c.reg, v.value, top);
        BodyIsCorrect(ops, body[1..], c.counter, scope[name := c.reg], env[name := v.value], mid, top);
      }
    case Return(result) =>
      var c := Compile(Returned(result), n, scope).value;
      WritesCount(Returned(result), n, scope, [Give(c.reg)]);
      CompileIsCorrect(ops, Returned(result), n, scope, env, regs, top);
      ExecConcat(ops, c.instrs, [Give(c.reg)], regs);
    case OtherStmt(_) => assert false;
  }

  // ---------------------------------------------------------------- the theorem

  /** Python with the choices the compiler makes: `-x` is `x * -1`, a subscript is a keyed get, and a `.get` call is
      padded or cut to a key and a default, the missing default being 0. */
  function CompilersPython<V>(ops: Ops<V>): Ops<V> {
    ops.(padsGets := true, negate := v => ops.scale(v, -1), item := (c, k) => ops.fetch(c, k))
  }

  lemma {:induction false} CodeIgnoresTheChoices<V>(ops: Ops<V>, code: seq<Instr>, regs: map<string, V>)
    ensures Exec(ops, code, regs) == Exec(CompilersPython(ops), code, regs)
  {
    if code != [] {
      var next := Step(ops, code[0], regs);
      if next.FellThrough? { CodeIgnoresTheChoices(ops, code[1..], next.regs); }
    }
  }

  /** No parameter is a register this code writes. */
  predicate StaysClear(params: set<string>, code: seq<Instr>) {
    params !! TargetSet(code)
  }

  lemma ClearIsOlder(params: set<string>, body: seq<Stmt>)
    requires CompileFunction(params, body).Ok? && StaysClear(params, CompileFunction(params, body).value)
    ensures var top := |Targets(CompileFunction(params, body).value)|; forall p :: p in params ==> Older(p, 0, top)
  {
    hide CompileFunction;
    hide Register;
    var code := CompileFunction(params, body).value;
    CodeIsSingleAssignment(params, body);
    forall p, k: nat | p in params && 0 < k <= |Targets(code)| ensures p != Register(k) {
      FreshAt(0, |Targets(code)|, k - 1);
      assert Targets(code)[k - 1] in Targets(code);
    }
  }

  lemma ProperIsClear(params: set<string>, body: seq<Stmt>)
    requires CompileFunction(params, body).Ok? && ProperParameters(params)
    ensures StaysClear(params, CompileFunction(params, body).value)
  {
    hide CompileFunction;
    hide Register;
    var code := CompileFunction(params, body).value;
    CodeIsSingleAssignment(params, body);
    forall p | p in TargetSet(code) ensures p !in params {
      var i :| 0 <= i < |Targets(code)| && Targets(code)[i] == p;
      FreshAt(0, |Targets(code)|, i);
    }
  }

  /** Running the code from the parameters gives what the Python function returns or raises, read the compiler's
      way: for every machine and every accepted function whose code writes none of its parameters. */
  lemma CompilationPreservesMeaning<V(!new)>(ops: Ops<V>, body: seq<Stmt>, args: map<string, V>)
    requires CompileFunction(args.Keys, body).Ok? && StaysClear(args.Keys, CompileFunction(args.Keys, body).value)
    ensures Exec(ops, CompileFunction(args.Keys, body).value, args) == Outcome(Call(CompilersPython(ops), body, args))
  {
    hide CompileBody;
    hide Exec;
    hide Call;
    hide Targets;
    hide StaysClear;
    var code := CompileFunction(args.Keys, body).value;
    ClearIsOlder(args.Keys, body);
    BodyIsCorrect(CompilersPython(ops), body, 0, Parameters(args.Keys), args, args, |Targets(code)|);
    CodeIgnoresTheChoices(ops, code, args);
  }

  // ---------------------------------------------------------------- exactly which parameter names

  /** Every accepted function with these parameters is translated soundly, from any arguments. */
  ghost predicate NamesAreSafe<V(!new)>(ops: Ops<V>, params: set<string>) {
    forall body: seq<Stmt>, args: map<string, V> :: args.Keys == params && CompileFunction(params, body).Ok? ==>
      Exec(ops, CompileFunction(params, body).value, args) == Outcome(Call(CompilersPython(ops), body, args))
  }

  /** `k` assignments of a constant to `x`, then `return p`. */
  function Overwriting(k: nat, c: Json, p: string): seq<Stmt> {
    if k == 0 then [Return(Some(Name(p)))] else [Assign("x", Constant(c))] + Overwriting(k - 1, c, p)
  }

  /** The code of that body: it writes the `k` registers after the n-th. */
  function OverwritingCode(k: nat, c: Json, p: string, n: nat): seq<Instr>
    decreases k
  {
    if k == 0 then [Give(p)] else [Literal(Register(n + 1), c)] + OverwritingCode(k - 1, c, p, n + 1)
  }

  lemma {:induction false} OverwritingCompiles(k: nat, c: Json, p: string, n: nat, scope: Scope)
    requires p in scope && scope[p] == p && p != "x"
    ensures CompileBody(Overwriting(k, c, p), n, scope) == Ok(OverwritingCode(k, c, p, n))
    decreases k
  {
    hide Register;
    if k == 0 {
      assert [] + [Give(p)] == [Give(p)];
    } else {
      assert Overwriting(k, c, p)[1..] == Overwriting(k - 1, c, p);
      OverwritingCompiles(k - 1, c, p, n + 1, scope["x" := Register(n + 1)]);
    }
  }

  /** One of those registers may be the parameter the code then returns. */
  lemma {:induction false} OverwritingWrites<V>(ops: Ops<V>, k: nat, c: Json, p: string, n: nat, regs: map<string, V>,
                                                m: nat)
    requires p in regs && p == Register(m)
    ensures Exec(ops, OverwritingCode(k, c, p, n), regs) == Gave(if n < m <= n + k then ops.literal(c) else regs[p])
    decreases k
  {
    hide Register;
    if k == 0 {
      ReadOne(regs, p);
    } else {
      var r := Register(n + 1);
      var rest := OverwritingCode(k - 1, c, p, n + 1);
      if r == p { RegistersDiffer(n + 1, m); }
      OverwritingWrites(ops, k - 1, c, p, n + 1, regs[r := ops.literal(c)], m);
      LiteralThen(ops, r, c, rest, regs);
    }
  }

  lemma LiteralThen<V>(ops: Ops<V>, r: string, c: Json, rest: seq<Instr>, regs: map<string, V>)
    ensures Exec(ops, [Literal(r, c)] + rest, regs) == Exec(ops, rest, regs[r := ops.literal(c)])
  {
    assert ([Literal(r, c)] + rest)[1..] == rest;
  }

  lemma {:induction false} OverwritingReturns<V>(ops: Ops<V>, k: nat, c: Json, p: string, env: map<string, V>)
    requires p in env && p != "x"
    ensures Call(ops, Overwriting(k, c, p), env) == Ok(env[p])
  {
    if k > 0 {
      assert Overwriting(k, c, p)[1..] == Overwriting(k - 1, c, p);
      OverwritingReturns(ops, k - 1, c, p, env["x" := ops.literal(c)]);
    }
  }

  /** A parameter spelled like register m: after m assignments the code returns what it wrote, not the argument. */
  lemma ParameterSpelledLikeARegister<V(!new)>(ops: Ops<V>, args: map<string, V>, m: nat, c: Json)
    requires m > 0 && Register(m) in args
    ensures var body := Overwriting(m, c, Register(m));
            && CompileFunction(args.Keys, body).Ok?
            && Exec(ops, CompileFunction(args.Keys, body).value, args) == Gave(ops.literal(c))
            && Call(CompilersPython(ops), body, args) == Ok(args[Register(m)])
  {
    assert |Register(m)| > 1;
    OverwritingCompiles(m, c, Register(m), 0, Parameters(args.Keys));
    OverwritingWrites(ops, m, c, Register(m), 0, args, m);
    OverwritingReturns(CompilersPython(ops), m, c, Register(m), args);
  }

  /** As soon as the machine can tell one value from one constant, the parameter names are safe exactly when none of
      them is spelled like a register. */
  lemma NamesAreSafeIff<V(!new)>(ops: Ops<V>, params: set<string>, v: V, c: Json)
    requires ops.literal(c) != v
    ensures NamesAreSafe(ops, params) <==> ProperParameters(params)
  {
    hide CompileFunction;
    hide Call;
    hide Exec;
    if ProperParameters(params) {
      forall body: seq<Stmt>, args: map<string, V> | args.Keys == params && CompileFunction(params, body).Ok?
        ensures Exec(ops, CompileFunction(params, body).value, args) == Outcome(Call(CompilersPython(ops), body, args))
      {
        ProperIsClear(params, body);
        CompilationPreservesMeaning(ops, body, args);
      }
    } else {
      var p, m: nat :| p in params && 0 < m && p == Register(m);
      var args := map name | name in params :: v;
      assert args.Keys == params;
      ParameterSpelledLikeARegister(ops, args, m, c);
    }
  }

  // ---------------------------------------------------------------- exactly when it is Python itself

  lemma {:induction false} EvalConcat<V>(ops: Ops<V>, a: seq<Expr>, b: seq<Expr>, env: map<string, V>)
    ensures EvalAll(ops, a + b, env) ==
      var va := EvalAll(ops, a, env);
      if va.Err? then va else
        var vb := EvalAll(ops, b, env);
        if vb.Err? then vb else Ok(va.value + vb.value)
  {
    hide Eval;
    if a == [] {
      assert a + b == b && EvalAll(ops, a, env) == Ok([]);
      if EvalAll(ops, b, env).Ok? { assert [] + EvalAll(ops, b, env).value == EvalAll(ops, b, env).value; }
    } else {
      assert (a + b)[0] == a[0] && (a + b)[1..] == a[1..] + b;
      EvalConcat(ops, a[1..], b, env);
      var v, va, vb := Eval(ops, a[0], env), EvalAll(ops, a[1..], env), EvalAll(ops, b, env);
      if v.Ok? && va.Ok? && vb.Ok? {
        assert [v.value] + (va.value + vb.value) == ([v.value] + va.value) + vb.value;
      }
    }
  }

  /** A one-argument `.get` is padded with the constant 0; any other call Python accepts keeps its operands. */
  lemma PaddedOperands(e: Expr)
    requires e.GetCall? ==> 1 <= |e.args| <= 2
    ensures Operands(e) == if e.GetCall? && |e.args| == 1 then PythonOperands(e) + [Constant(Number(0.0))]
            else PythonOperands(e)
  {
  }

  lemma EvalZero<V>(ops: Ops<V>, env: map<string, V>)
    ensures EvalAll(ops, [Constant(Number(0.0))], env) == Ok([ops.literal(Number(0.0))])
  {
    var zero := Constant(Number(0.0));
    assert [zero][1..] == [] && EvalAll(ops, [], env) == Ok([]);
    assert Eval(ops, zero, env) == Ok(ops.literal(Number(0.0)));
    assert [ops.literal(Number(0.0))] + [] == [ops.literal(Number(0.0))];
  }

  /** Where the machines agree, Python's own reading of an expression is the compiler's. */
  lemma {:induction false} ReadingsAgree<V(!new)>(ops: Ops<V>, e: Expr, env: map<string, V>)
    requires MachinesAgree(ops) && GetsAreCalls(e)
    ensures Eval(ops, e, env) == Eval(CompilersPython(ops), e, env)
    decreases Size(e), 0
  {
    hide EvalAll;
    if !e.Constant? && !e.Name? {
      PythonOperandsAreSmaller(e);
      ReadingsAgreeAll(ops, PythonOperands(e), env);
      PaddedOperands(e);
      var zero := [Constant(Number(0.0))];
      EvalConcat(ops, PythonOperands(e), zero, env);
      EvalConcat(CompilersPython(ops), PythonOperands(e), zero, env);
      EvalZero(ops, env);
      EvalZero(CompilersPython(ops), env);
    }
  }

  lemma {:induction false} ReadingsAgreeAll<V(!new)>(ops: Ops<V>, es: seq<Expr>, env: map<string, V>)
    requires MachinesAgree(ops) && AllGetsAreCalls(es)
    ensures EvalAll(ops, es, env) == EvalAll(CompilersPython(ops), es, env)
    decreases SizeAll(es), 1, |es|
  {
    hide Eval;
    if es != [] {
      ReadingsAgree(ops, es[0], env);
      ReadingsAgreeAll(ops, es[1..], env);
    }
  }

  lemma {:induction false} CallsAgree<V(!new)>(ops: Ops<V>, body: seq<Stmt>, env: map<string, V>)
    requires MachinesAgree(ops) && BodyGetsAreCalls(body)
    ensures Call(ops, body, env) == Call(CompilersPython(ops), body, env)
  {
    hide Eval;
    if body != [] {
      match body[0]
      case Assign(name, value) =>
        ReadingsAgree(ops, value, env);
        var v := Eval(ops, value, env);
        if v.Ok? { CallsAgree(ops, body[1..], env[name := v.value]); }
      case Return(result) => ReadingsAgree(ops, Returned(result), env);
      case OtherStmt(_) =>
    }
  }

  /** The code does what Python itself does, on every accepted function whose `.get` calls Python accepts. */
  ghost predicate TranslationIsSound<V(!new)>(ops: Ops<V>) {
    forall body: seq<Stmt>, args: map<string, V> ::
      && CompileFunction(args.Keys, body).Ok? && StaysClear(args.Keys, CompileFunction(args.Keys, body).value)
      && BodyGetsAreCalls(body) ==>
        Exec(ops, CompileFunction(args.Keys, body).value, args) == Outcome(Call(ops, body, args))
  }

  /** `return -x` */
  const NEGATED: seq<Stmt> := [Return(Some(Negate(Name("x"))))]

  /** `return x[y]` */
  const SUBSCRIPTED: seq<Stmt> := [Return(Some(Subscript(Name("x"), Name("y"))))]

  /** `return x.get(y)` */
  const LOOKED_UP: seq<Stmt> := [Return(Some(GetCall(Name("x"), [Name("y")])))]

  lemma PlainNamesAreProper(names: set<string>)
    requires forall name :: name in names ==> |name| == 1
    ensures ProperParameters(names)
  {
  }

  lemma NameIs(id: string, es: seq<Expr>, n: nat, scope: Scope)
    requires id in scope && CompileAll(es, n, scope).Ok? && AllGetsAreCalls(es)
    ensures CompileAll([Name(id)] + es, n, scope).Ok? && AllGetsAreCalls([Name(id)] + es)
  {
  }

  lemma SamplesAreAccepted(params: set<string>)
    requires "x" in params
    ensures CompileFunction(params, NEGATED).Ok? && BodyGetsAreCalls(NEGATED)
    ensures "y" in params ==> CompileFunction(params, LOOKED_UP).Ok? && BodyGetsAreCalls(LOOKED_UP)
    ensures "y" in params ==> CompileFunction(params, SUBSCRIPTED).Ok? && BodyGetsAreCalls(SUBSCRIPTED)
  {
    var scope := Parameters(params);
    NameIs("x", [], 0, scope);
    assert [Name("x")] + [] == [Name("x")];
    assert Compile(Negate(Name("x")), 0, scope).Ok? && GetsAreCalls(Negate(Name("x")));
    if "y" in params {
      NameIs("y", [], 0, scope);
      assert [Name("y")] + [] == [Name("y")];
      NameIs("x", [Name("y")], 0, scope);
      SubscriptIsAccepted(scope);
      GetIsAccepted(scope);
    }
  }

  lemma SubscriptIsAccepted(scope: Scope)
    requires CompileAll([Name("x")] + [Name("y")], 0, scope).Ok? && AllGetsAreCalls([Name("x")] + [Name("y")])
    ensures Compile(Subscript(Name("x"), Name("y")), 0, scope).Ok? && GetsAreCalls(Subscript(Name("x"), Name("y")))
  {
    var e := Subscript(Name("x"), Name("y"));
    assert Operands(e) == [Name("x")] + [Name("y")];
  }

  lemma GetIsAccepted(scope: Scope)
    requires "x" in scope && "y" in scope && AllGetsAreCalls([Name("x")] + [Name("y")])
    ensures var e := GetCall(Name("x"), [Name("y")]); Compile(e, 0, scope).Ok? && GetsAreCalls(e)
  {
    var e, zero := GetCall(Name("x"), [Name("y")]), [Constant(Number(0.0))];
    assert zero[1..] == [] && CompileAll([], 1, scope).Ok? && CompileAll(zero, 0, scope).Ok? && AllGetsAreCalls(zero);
    NameIs("y", zero, 0, scope);
    NameIs("x", [Name("y")] + zero, 0, scope);
    assert Operands(e) == [Name("x")] + ([Name("y")] + zero);
    assert PythonOperands(e) == [Name("x")] + [Name("y")];
  }

  lemma EvalName<V>(ops: Ops<V>, id: string, env: map<string, V>)
    requires id in env
    ensures EvalAll(ops, [Name(id)], env) == Ok([env[id]])
  {
    assert [Name(id)][1..] == [] && [env[id]] + [] == [env[id]] && EvalAll(ops, [], env) == Ok([]);
  }

  /** What the samples evaluate to, read either way. */
  lemma SamplesMean<V>(ops: Ops<V>, x: V, y: V)
    ensures Call(ops, NEGATED, map["x" := x]) == ops.negate(x)
    ensures Call(ops, SUBSCRIPTED, map["x" := x, "y" := y]) == ops.item(x, y)
    ensures Call(ops, LOOKED_UP, map["x" := x, "y" := y]) ==
            ops.lookup(x, y, if ops.padsGets then ops.literal(Number(0.0)) else ops.omitted)
  {
    hide EvalAll;
    EvalName(ops, "x", map["x" := x]);
    var env := map["x" := x, "y" := y];
    var zero := [Constant(Number(0.0))];
    EvalName(ops, "x", env);
    EvalName(ops, "y", env);
    EvalZero(ops, env);
    EvalConcat(ops, [Name("x")], [Name("y")], env);
    EvalConcat(ops, [Name("x")] + [Name("y")], zero, env);
    assert Operands(Subscript(Name("x"), Name("y"))) == [Name("x")] + [Name("y")];
    var e := GetCall(Name("x"), [Name("y")]);
    assert PythonOperands(e) == [Name("x")] + [Name("y")] && Operands(e) == [Name("x")] + [Name("y")] + zero;
  }

  /** The code does what Python does on every accepted function exactly when the machine cannot tell `-x` from
      `x * -1`, a subscript from a keyed get, nor a lookup without a default from one that falls back to 0. */
  lemma TranslationIsSoundIff<V(!new)>(ops: Ops<V>)
    requires !ops.padsGets
    ensures TranslationIsSound(ops) <==> MachinesAgree(ops)
  {
    hide CompileFunction;
    hide Call;
    hide Exec;
    hide BodyGetsAreCalls;
    if MachinesAgree(ops) {
      forall body: seq<Stmt>, args: map<string, V>
        | && CompileFunction(args.Keys, body).Ok? && StaysClear(args.Keys, CompileFunction(args.Keys, body).value)
          && BodyGetsAreCalls(body)
        ensures Exec(ops, CompileFunction(args.Keys, body).value, args) == Outcome(Call(ops, body, args))
      {
        CompilationPreservesMeaning(ops, body, args);
        CallsAgree(ops, body, args);
      }
    }
    if TranslationIsSound(ops) {
      forall x ensures ops.negate(x) == ops.scale(x, -1) {
        SampleAgrees(ops, NEGATED, map["x" := x]);
        SamplesMean(ops, x, x);
        SamplesMean(CompilersPython(ops), x, x);
      }
      forall x, y ensures ops.item(x, y) == ops.fetch(x, y) {
        SampleAgrees(ops, SUBSCRIPTED, map["x" := x, "y" := y]);
        SamplesMean(ops, x, y);
        SamplesMean(CompilersPython(ops), x, y);
      }
      forall x, y ensures ops.lookup(x, y, ops.omitted) == ops.lookup(x, y, ops.literal(Number(0.0))) {
        SampleAgrees(ops, LOOKED_UP, map["x" := x, "y" := y]);
        SamplesMean(ops, x, y);
        SamplesMean(CompilersPython(ops), x, y);
      }
    }
  }

  lemma SampleAgrees<V(!new)>(ops: Ops<V>, body: seq<Stmt>, args: map<string, V>)
    requires TranslationIsSound(ops) && "x" in args && forall name :: name in args ==> |name| == 1
    requires body == NEGATED || ((body == LOOKED_UP || body == SUBSCRIPTED) && "y" in args)
    ensures Call(ops, body, args) == Call(CompilersPython(ops), body, args)
  {
    hide CompileBody;
    hide Call;
    hide Exec;
    hide BodyGetsAreCalls;
    PlainNamesAreProper(args.Keys);
    SamplesAreAccepted(args.Keys);
    ProperIsClear(args.Keys, body);
    CompilationPreservesMeaning(ops, body, args);
  }

  // ---------------------------------------------------------------- exactly which .get calls

  /** No operation of the machine raises. */
  ghost predicate Total<V(!new)>(ops: Ops<V>) {
    && (forall v :: ops.negate(v).Ok?)
    && (forall v, k :: ops.scale(v, k).Ok?)
    && (forall c, k :: ops.item(c, k).Ok?)
    && (forall c, k :: ops.fetch(c, k).Ok?)
    && (forall c, k, d :: ops.lookup(c, k, d).Ok?)
    && (forall fn, vs :: ops.extremum(fn, vs).Ok?)
    && (forall fn, v :: ops.cast(fn, v).Ok?)
    && (forall op, a, b :: ops.arith(op, a, b).Ok?)
  }

  /** On such a machine the node's own operation fails only for a `.get` Python refuses. */
  lemma ApplyIsOkIff<V(!new)>(ops: Ops<V>, e: Expr, vs: seq<V>)
    requires Total(ops) && IsOperation(e) && RefusedEarly(e).None? && |vs| == |EvalOperands(ops, e)|
    ensures Apply(ops, e, vs).Ok? <==> (e.GetCall? && !ops.padsGets ==> 1 <= |e.args| <= 2)
  {
  }

  /** The compiler's reading of what it accepts always has a value. */
  lemma {:induction false} AcceptedHasValue<V(!new)>(ops: Ops<V>, e: Expr, n: nat, scope: Scope, env: map<string, V>)
    requires Total(ops) && ops.padsGets && Compile(e, n, scope).Ok? && env.Keys == scope.Keys
    ensures Eval(ops, e, env).Ok?
    decreases Size(e), 0
  {
    hide Total;
    hide Apply;
    hide EvalAll;
    hide CompileAll;
    if IsOperation(e) {
      OperandsAreSmaller(e);
      AcceptedHaveValues(ops, Operands(e), n, scope, env);
      ApplyIsOkIff(ops, e, EvalAll(ops, Operands(e), env).value);
    }
  }

  lemma {:induction false} AcceptedHaveValues<V(!new)>(ops: Ops<V>, es: seq<Expr>, n: nat, scope: Scope,
                                                       env: map<string, V>)
    requires Total(ops) && ops.padsGets && CompileAll(es, n, scope).Ok? && env.Keys == scope.Keys
    ensures EvalAll(ops, es, env).Ok?
    decreases SizeAll(es), 1, |es|
  {
    hide Total;
    hide Compile;
    hide Eval;
    if es != [] {
      AcceptedHasValue(ops, es[0], n, scope, env);
      AcceptedHaveValues(ops, es[1..], Compile(es[0], n, scope).value.counter, scope, env);
    }
  }

  /** What Python evaluates for a `.get` with one or two arguments is compiled too. */
  lemma PythonOperandsAreCompiled(e: Expr, n: nat, scope: Scope)
    requires CompileAll(Operands(e), n, scope).Ok? && (e.GetCall? ==> 1 <= |e.args| <= 2)
    ensures CompileAll(PythonOperands(e), n, scope).Ok?
  {
    PaddedOperands(e);
    if e.GetCall? && |e.args| == 1 { CompileAllSnoc(PythonOperands(e), Constant(Number(0.0)), n, scope); }
  }

  /** Python's own reading of what the compiler accepts has a value exactly when every `.get` has one or two
      arguments. */
  lemma {:induction false} PythonHasValueIff<V(!new)>(ops: Ops<V>, e: Expr, n: nat, scope: Scope, env: map<string, V>)
    requires Total(ops) && !ops.padsGets && Compile(e, n, scope).Ok? && env.Keys == scope.Keys
    ensures Eval(ops, e, env).Ok? <==> GetsAreCalls(e)
    decreases Size(e), 0
  {
    hide Total;
    hide Apply;
    hide EvalAll;
    hide CompileAll;
    hide AllGetsAreCalls;
    if IsOperation(e) {
      PythonOperandsAreSmaller(e);
      var vs := EvalAll(ops, PythonOperands(e), env);
      if vs.Ok? { ApplyIsOkIff(ops, e, vs.value); }
      if e.GetCall? ==> 1 <= |e.args| <= 2 {
        PythonOperandsAreCompiled(e, n, scope);
        PythonHasValuesIff(ops, PythonOperands(e), n, scope, env);
      }
    } else {
      NoGetsHere(e);
    }
  }

  lemma NoGetsHere(e: Expr)
    requires !IsOperation(e)
    ensures GetsAreCalls(e)
  {
    PythonOperandsAreSmaller(e);
  }

  lemma {:induction false} PythonHasValuesIff<V(!new)>(ops: Ops<V>, es: seq<Expr>, n: nat, scope: Scope,
                                                       env: map<string, V>)
    requires Total(ops) && !ops.padsGets && CompileAll(es, n, scope).Ok? && env.Keys == scope.Keys
    ensures EvalAll(ops, es, env).Ok? <==> AllGetsAreCalls(es)
    decreases SizeAll(es), 1, |es|
  {
    hide Total;
    hide Compile;
    hide Eval;
    hide GetsAreCalls;
    if es != [] {
      PythonHasValueIff(ops, es[0], n, scope, env);
      PythonHasValuesIff(ops, es[1..], Compile(es[0], n, scope).value.counter, scope, env);
    }
  }

  /** Body by body: the compiler's reading returns, Python's returns exactly when its `.get` calls are Python's. */
  lemma {:induction false} CallsReturnIff<V(!new)>(ops: Ops<V>, body: seq<Stmt>, n: nat, scope: Scope,
                                                   env: map<string, V>)
    requires Total(ops) && CompileBody(body, n, scope).Ok? && env.Keys == scope.Keys
    ensures Call(ops, body, env).Ok? <==> (!ops.padsGets ==> BodyGetsAreCalls(body))
  {
    hide Total;
    hide Compile;
    hide Eval;
    hide GetsAreCalls;
    match body[0]
    case Assign(name, value) =>
      var c := Compile(value, n, scope).value;
      HasValueIff(ops, value, n, scope, env);
      var v := Eval(ops, value, env);
      if v.Ok? { CallsReturnIff(ops, body[1..], c.counter, scope[name := c.reg], env[name := v.value]); }
    case Return(result) => HasValueIff(ops, Returned(result), n, scope, env);
    case OtherStmt(_) => assert false;
  }

  lemma HasValueIff<V(!new)>(ops: Ops<V>, e: Expr, n: nat, scope: Scope, env: map<string, V>)
    requires Total(ops) && Compile(e, n, scope).Ok? && env.Keys == scope.Keys
    ensures Eval(ops, e, env).Ok? <==> (!ops.padsGets ==> GetsAreCalls(e))
  {
    if ops.padsGets { AcceptedHasValue(ops, e, n, scope, env); } else { PythonHasValueIff(ops, e, n, scope, env); }
  }

  /** The premise on `.get` calls is exact, function by function: where the machines agree and nothing raises, an
      accepted function runs as in Python, from any arguments, if and only if each of its `.get` calls up to the
      first return has one or two arguments. */
  lemma AgreesWithPythonIff<V(!new)>(ops: Ops<V>, body: seq<Stmt>, args: map<string, V>)
    requires !ops.padsGets && Total(ops) && MachinesAgree(ops)
    requires CompileFunction(args.Keys, body).Ok? && StaysClear(args.Keys, CompileFunction(args.Keys, body).value)
    ensures Exec(ops, CompileFunction(args.Keys, body).value, args) == Outcome(Call(ops, body, args))
       <==> BodyGetsAreCalls(body)
  {
    hide CompileBody;
    hide Call;
    hide Exec;
    hide BodyGetsAreCalls;
    var cp := CompilersPython(ops);
    CompilationPreservesMeaning(ops, body, args);
    TotalEitherWay(ops);
    CallsReturnIff(cp, body, 0, Parameters(args.Keys), args);
    CallsReturnIff(ops, body, 0, Parameters(args.Keys), args);
    if BodyGetsAreCalls(body) { CallsAgree(ops, body, args); }
  }

  lemma TotalEitherWay<V(!new)>(ops: Ops<V>)
    requires Total(ops)
    ensures Total(CompilersPython(ops))
  {
  }

  /** The smallest such function, `return x.get()`: Python refuses it, the compiler accepts it and looks up the empty
      key, on every machine; and where nothing raises the two part. */
  lemma EmptyGetIsLookedUp<V(!new)>(ops: Ops<V>, x: V)
    requires !ops.padsGets
    ensures var body, args := [Return(Some(GetCall(Name("x"), [])))], map["x" := x];
            && Call(ops, body, args) == Err("TypeError")
            && Call(CompilersPython(ops), body, args) == ops.lookup(x, ops.literal(Text("")), ops.literal(Number(0.0)))
            && CompileFunction(args.Keys, body).Ok?
            && (Total(ops) && MachinesAgree(ops) ==>
                  Exec(ops, CompileFunction(args.Keys, body).value, args) != Outcome(Call(ops, body, args)))
  {
    hide EvalAll;
    var env := map["x" := x];
    var e := GetCall(Name("x"), []);
    EvalName(ops, "x", env);
    assert PythonOperands(e) == [Name("x")];
    var cp := CompilersPython(ops);
    EvalName(cp, "x", env);
    EvalZero(cp, env);
    EvalText(cp, env);
    EvalConcat(cp, [Name("x")], [Constant(Text(""))], env);
    EvalConcat(cp, [Name("x")] + [Constant(Text(""))], [Constant(Number(0.0))], env);
    assert Operands(e) == [Name("x")] + [Constant(Text(""))] + [Constant(Number(0.0))];
    EmptyGetIsAccepted(env.Keys);
    PlainNamesAreProper(env.Keys);
    ProperIsClear(env.Keys, [Return(Some(e))]);
    if Total(ops) && MachinesAgree(ops) { AgreesWithPythonIff(ops, [Return(Some(e))], env); }
  }

  lemma EmptyGetIsAccepted(params: set<string>)
    requires "x" in params
    ensures var body := [Return(Some(GetCall(Name("x"), [])))];
            CompileFunction(params, body).Ok? && !BodyGetsAreCalls(body)
  {
    var e, zero := GetCall(Name("x"), []), [Constant(Number(0.0))];
    var two := [Constant(Text(""))] + zero;
    assert zero[1..] == [] && two[1..] == zero;
    var scope := Parameters(params);
    assert CompileAll([], 2, scope).Ok? && CompileAll(zero, 1, scope).Ok? && CompileAll(two, 0, scope).Ok?;
    assert Operands(e) == [Name("x")] + two && ([Name("x")] + two)[1..] == two;
    assert CompileAll(Operands(e), 0, scope).Ok?;
    assert !GetsAreCalls(e);
  }

  lemma EvalText<V>(ops: Ops<V>, env: map<string, V>)
    ensures EvalAll(ops, [Constant(Text(""))], env) == Ok([ops.literal(Text(""))])
  {
    var e := Constant(Text(""));
    assert [e][1..] == [] && EvalAll(ops, [], env) == Ok([]);
    assert Eval(ops, e, env) == Ok(ops.literal(Text("")));
    assert [ops.literal(Text(""))] + [] == [ops.literal(Text(""))];
  }

  // ---------------------------------------------------------------- single assignment

  /** Registers `n + 1` to `m`, in order. */
  function Fresh(n: nat, m: nat): (regs: seq<string>)
    requires n <= m
    ensures |regs| == m - n
    decreases m - n
  {
    if n == m then [] else [Register(n + 1)] + Fresh(n + 1, m)
  }

  /** The registers a stretch of code writes, in order. */
  function Targets(code: seq<Instr>): seq<string> {
    if code == [] then []
    else (if code[0].Give? then [] else [code[0].target]) + Targets(code[1..])
  }

  /** Every read is of a name defined before the code or of a target of an earlier instruction. */
  predicate Scoped(code: seq<Instr>, defined: set<string>) {
    code != [] ==>
      && (forall name :: name in Reads(code[0]) ==> name in defined)
      && Scoped(code[1..], if code[0].Give? then defined else defined + {code[0].target})
  }

  lemma {:induction false} TargetsConcat(a: seq<Instr>, b: seq<Instr>)
    ensures Targets(a + b) == Targets(a) + Targets(b)
  {
    if a == [] {
      assert a + b == b;
    } else {
      assert (a + b)[0] == a[0] && (a + b)[1..] == a[1..] + b;
      TargetsConcat(a[1..], b);
    }
  }

  lemma {:induction false} FreshConcat(n: nat, m: nat, k: nat)
    requires n <= m <= k
    ensures Fresh(n, m) + Fresh(m, k) == Fresh(n, k)
    decreases m - n
  {
    if n < m { FreshConcat(n + 1, m, k); }
  }

  function TargetSet(code: seq<Instr>): set<string> {
    set name | name in Targets(code)
  }

  lemma {:induction false} ScopedConcat(a: seq<Instr>, b: seq<Instr>, defined: set<string>)
    requires Scoped(a, defined) && Scoped(b, defined + TargetSet(a))
    ensures Scoped(a + b, defined)
  {
    if a == [] {
      assert a + b == b && defined + TargetSet(a) == defined;
    } else {
      assert (a + b)[0] == a[0] && (a + b)[1..] == a[1..] + b;
      var next := if a[0].Give? then defined else defined + {a[0].target};
      assert defined + TargetSet(a) == next + TargetSet(a[1..]);
      ScopedConcat(a[1..], b, next);
    }
  }

  lemma TargetSetConcat(a: seq<Instr>, b: seq<Instr>)
    ensures TargetSet(a + b) == TargetSet(a) + TargetSet(b)
  {
    TargetsConcat(a, b);
  }

  lemma {:induction false} ExprIsSingleAssignment(e: Expr, n: nat, scope: Scope, defined: set<string>)
    requires Compile(e, n, scope).Ok? && scope.Values <= defined
    ensures var c := Compile(e, n, scope).value;
            Targets(c.instrs) == Fresh(n, c.counter) && Scoped(c.instrs, defined)
                && c.reg in defined + TargetSet(c.instrs)
    decreases Size(e), 0
  {
    hide CompileAll;
    hide Register;
    hide Scoped;
    hide Fresh;
    if e.Constant? {
      var i := Literal(Register(n + 1), e.literal);
      EmptyCode(n, defined);
      AppendOperation([], i, n, n, defined);
      assert [] + [i] == [i];
    } else if e.Name? {
      EmptyCode(n, defined);
      assert scope[e.id] in scope.Values;
    } else {
      OperandsAreSmaller(e);
      ListIsSingleAssignment(Operands(e), n, scope, defined);
      var c := CompileAll(Operands(e), n, scope).value;
      var i := Emit(e, Register(c.counter + 1), c.regs);
      assert Reads(i) == c.regs;
      AppendOperation(c.instrs, i, n, c.counter, defined);
    }
  }

  lemma EmptyCode(n: nat, defined: set<string>)
    ensures Targets([]) == Fresh(n, n) == [] && Scoped([], defined)
  {
  }

  lemma AppendOperation(code: seq<Instr>, i: Instr, n: nat, m: nat, defined: set<string>)
    requires n <= m && !i.Give? && i.target == Register(m + 1)
    requires Targets(code) == Fresh(n, m) && Scoped(code, defined)
    requires forall name :: name in Reads(i) ==> name in defined + TargetSet(code)
    ensures Targets(code + [i]) == Fresh(n, m + 1) && Scoped(code + [i], defined) && i.target in TargetSet(code + [i])
  {
    assert [i][1..] == [] && Targets([]) == [] && Targets([i]) == [i.target];
    assert Fresh(m + 1, m + 1) == [] && Fresh(m, m + 1) == [i.target];
    TargetsConcat(code, [i]);
    FreshConcat(n, m, m + 1);
    ScopedConcat(code, [i], defined);
    assert i.target in [i.target];
  }

  lemma {:induction false} ListIsSingleAssignment(es: seq<Expr>, n: nat, scope: Scope, defined: set<string>)
    requires CompileAll(es, n, scope).Ok? && scope.Values <= defined
    ensures var c := CompileAll(es, n, scope).value;
            && Targets(c.instrs) == Fresh(n, c.counter) && Scoped(c.instrs, defined)
            && forall reg :: reg in c.regs ==> reg in defined + TargetSet(c.instrs)
    decreases SizeAll(es), 1, |es|
  {
    hide Compile;
    if es != [] {
      var c := Compile(es[0], n, scope).value;
      var rest := CompileAll(es[1..], c.counter, scope).value;
      ExprIsSingleAssignment(es[0], n, scope, defined);
      ListIsSingleAssignment(es[1..], c.counter, scope, defined + TargetSet(c.instrs));
      TargetsConcat(c.instrs, rest.instrs);
      TargetSetConcat(c.instrs, rest.instrs);
      FreshConcat(n, c.counter, rest.counter);
      ScopedConcat(c.instrs, rest.instrs, defined);
    }
  }

  lemma {:induction false} BodyIsSingleAssignment(body: seq<Stmt>, n: nat, scope: Scope, defined: set<string>)
    requires CompileBody(body, n, scope).Ok? && scope.Values <= defined
    ensures var code := CompileBody(body, n, scope).value;
            && Targets(code) == Fresh(n, n + |Targets(code)|) && Scoped(code, defined)
            && code != [] && code[|code| - 1].Give?
  {
    hide Compile;
    hide Fresh;
    hide Register;
    hide Targets;
    hide Scoped;
    match body[0]
    case Assign(name, value) =>
      var c := Compile(value, n, scope).value;
      var inner := scope[name := c.reg];
      var rest := CompileBody(body[1..], c.counter, inner).value;
      ExprIsSingleAssignment(value, n, scope, defined);
      assert inner.Values <= defined + TargetSet(c.instrs);
      BodyIsSingleAssignment(body[1..], c.counter, inner, defined + TargetSet(c.instrs));
      AppendRest(c.instrs, rest, n, c.counter, defined);
    case Return(result) =>
      var c := Compile(Returned(result), n, scope).value;
      ExprIsSingleAssignment(Returned(result), n, scope, defined);
      AppendGive(c.instrs, c.reg, n, c.counter, defined);
  }

  lemma AppendRest(code: seq<Instr>, rest: seq<Instr>, n: nat, m: nat, defined: set<string>)
    requires n <= m && Targets(code) == Fresh(n, m) && Scoped(code, defined)
    requires Targets(rest) == Fresh(m, m + |Targets(rest)|) && Scoped(rest, defined + TargetSet(code))
    ensures Targets(code + rest) == Fresh(n, n + |Targets(code + rest)|) && Scoped(code + rest, defined)
  {
    hide Targets;
    hide Scoped;
    hide Register;
    TargetsConcat(code, rest);
    FreshConcat(n, m, m + |Targets(rest)|);
    ScopedConcat(code, rest, defined);
  }

  lemma AppendGive(code: seq<Instr>, reg: string, n: nat, m: nat, defined: set<string>)
    requires n <= m && Targets(code) == Fresh(n, m) && Scoped(code, defined) && reg in defined + TargetSet(code)
    ensures Targets(code + [Give(reg)]) == Fresh(n, n + |Targets(code + [Give(reg)])|)
    ensures Scoped(code + [Give(reg)], defined)
  {
    var last := [Give(reg)];
    assert last[1..] == [] && Targets(last) == [] && Scoped([], defined + TargetSet(code));
    TargetsConcat(code, last);
    ScopedConcat(code, last, defined);
  }

  /** Every accepted function is single-assignment code: it writes registers 1, 2, ... once each, in order, reads
      only parameters and registers written before, and ends by returning. */
  lemma CodeIsSingleAssignment(params: set<string>, body: seq<Stmt>)
    requires CompileFunction(params, body).Ok?
    ensures var code := CompileFunction(params, body).value;
            Targets(code) == Fresh(0, |Targets(code)|) && Distinct(Targets(code)) && Scoped(code, params)
            && code != [] && code[|code| - 1].Give?
  {
    hide CompileBody;
    hide Targets;
    hide Scoped;
    hide Fresh;
    hide Distinct;
    assert Parameters(params).Values <= params;
    BodyIsSingleAssignment(body, 0, Parameters(params), params);
    FreshIsDistinct(0, |Targets(CompileFunction(params, body).value)|);
  }

  lemma {:induction false} FreshAt(n: nat, m: nat, i: nat)
    requires n <= m && i < |Fresh(n, m)|
    ensures Fresh(n, m)[i] == Register(n + 1 + i)
    decreases m - n
  {
    if i > 0 { FreshAt(n + 1, m, i - 1); }
  }

  lemma FreshIsDistinct(n: nat, m: nat)
    requires n <= m
    ensures Distinct(Fresh(n, m))
  {
    forall i, j | 0 <= i < j < |Fresh(n, m)| ensures Fresh(n, m)[i] != Fresh(n, m)[j] {
      FreshAt(n, m, i);
      FreshAt(n, m, j);
      if Register(n + 1 + i) == Register(n + 1 + j) { RegistersDiffer(n + 1 + i, n + 1 + j); }
    }
  }

  // ---------------------------------------------------------------- the compiler as written

  lemma {:induction false} CompileAllSnoc(es: seq<Expr>, e: Expr, n: nat, scope: Scope)
    ensures CompileAll(es + [e], n, scope) ==
      var front := CompileAll(es, n, scope);
      if front.Err? then front else
        var c := Compile(e, front.value.counter, scope);
        if c.Err? then Err(c.reason)
        else Ok(ListCode(front.value.instrs + c.value.instrs, front.value.regs + [c.value.reg], c.value.counter))
    decreases |es|
  {
    hide Compile;
    if es == [] {
      assert [] + [e] == [e] && [e][1..] == [] && CompileAll([], n, scope) == Ok(ListCode([], [], n));
      var c := Compile(e, n, scope);
      if c.Ok? {
        assert CompileAll([], c.value.counter, scope) == Ok(ListCode([], [], c.value.counter));
        assert [] + c.value.instrs == c.value.instrs == c.value.instrs + [];
        assert [c.value.reg] + [] == [c.value.reg] == [] + [c.value.reg];
      }
    } else {
      assert (es + [e])[0] == es[0] && (es + [e])[1..] == es[1..] + [e];
      var c := Compile(es[0], n, scope);
      if c.Ok? {
        CompileAllSnoc(es[1..], e, c.value.counter, scope);
        var rest := CompileAll(es[1..], c.value.counter, scope);
        if rest.Ok? {
          var d := Compile(e, rest.value.counter, scope);
          if d.Ok? {
            assert c.value.instrs + (rest.value.instrs + d.value.instrs)
                == (c.value.instrs + rest.value.instrs) + d.value.instrs;
            assert [c.value.reg] + (rest.value.regs + [d.value.reg])
                == ([c.value.reg] + rest.value.regs) + [d.value.reg];
          }
        }
      }
    }
  }

  lemma {:induction false} PrefixFailure(es: seq<Expr>, k: nat, n: nat, scope: Scope)
    requires k <= |es| && CompileAll(es[..k], n, scope).Err?
    ensures CompileAll(es, n, scope) == CompileAll(es[..k], n, scope)
    decreases |es| - k
  {
    hide CompileAll;
    if k == |es| {
      assert es[..k] == es;
    } else {
      assert es[..k + 1] == es[..k] + [es[k]];
      CompileAllSnoc(es[..k], es[k], n, scope);
      PrefixFailure(es, k + 1, n, scope);
    }
  }

  lemma {:induction false} SizeOfMember(es: seq<Expr>, i: nat)
    requires i < |es|
    ensures Size(es[i]) <= SizeAll(es)
  {
    if i > 0 { SizeOfMember(es[1..], i - 1); }
  }

  /** One run of `compile_variable`: the instruction list and the register counter it shares. */
  class Compilation {
    var instrs: seq<Instr>
    var counter: nat

    constructor ()
      ensures instrs == [] && counter == 0
    {
      instrs, counter := [], 0;
    }

    /** `_new_register` */
    method NewRegister() returns (reg: string)
      modifies this`counter
      ensures counter == old(counter) + 1 && reg == Register(counter)
    {
      counter := counter + 1;
      reg := Register(counter);
    }

    method Append(i: Instr)
      modifies this`instrs
      ensures instrs == old(instrs) + [i]
    {
      instrs := instrs + [i];
    }

    /** What a compiling step leaves behind. */
    predicate Did(before: seq<Instr>, c: Result<Code>, r: Result<string>)
      reads this
    {
      if c.Ok? then r == Ok(c.value.reg) && instrs == before + c.value.instrs && counter == c.value.counter
      else r == Err(c.reason)
    }

    predicate DidAll(before: seq<Instr>, c: Result<ListCode>, r: Result<seq<string>>)
      reads this
    {
      if c.Ok? then r == Ok(c.value.regs) && instrs == before + c.value.instrs && counter == c.value.counter
      else r == Err(c.reason)
    }

    /** `_compile_expr` */
    method CompileExpr(e: Expr, scope: Scope) returns (r: Result<string>)
      modifies this
      ensures Did(old(instrs), Compile(e, old(counter), scope), r)
      decreases Size(e), 0
    {
      hide CompileAll;
      hide Register;
      if e.Constant? {
        var target := NewRegister();
        Append(Literal(target, e.literal));
        return Ok(target);
      }
      if e.Name? {
        if e.id in scope { return Ok(scope[e.id]); }
        return Err("unsupported:name:" + e.id);
      }
      if RefusedEarly(e).Some? { return Err(RefusedEarly(e).value); }
      OperandsAreSmaller(e);
      var regs := CompileEach(Operands(e), scope);
      if regs.Err? { return Err(regs.reason); }
      if RefusedLate(e).Some? { return Err(RefusedLate(e).value); }
      var target := NewRegister();
      Append(Emit(e, target, regs.value));
      r := Ok(target);
    }

    method CompileEach(es: seq<Expr>, scope: Scope) returns (r: Result<seq<string>>)
      modifies this
      ensures DidAll(old(instrs), CompileAll(es, old(counter), scope), r)
      decreases SizeAll(es), 1
    {
      hide Compile;
      var regs := [];
      var i := 0;
      assert es[..0] == [];
      while i < |es|
        invariant i <= |es|
        invariant CompileAll(es[..i], old(counter), scope).Ok?
        invariant DidAll(old(instrs), CompileAll(es[..i], old(counter), scope), Ok(regs))
      {
        SizeOfMember(es, i);
        CompileAllSnoc(es[..i], es[i], old(counter), scope);
        assert es[..i + 1] == es[..i] + [es[i]];
        var reg := CompileExpr(es[i], scope);
        if reg.Err? {
          PrefixFailure(es, i + 1, old(counter), scope);
          return Err(reg.reason);
        }
        regs := regs + [reg.value];
        i := i + 1;
      }
      assert es[..i] == es;
      r := Ok(regs);
    }

    /** `compile_variable` from the function's parameters on: names are rebound statement by statement, and the
        walk stops at the first `return`. */
    method CompileVariable(params: set<string>, body: seq<Stmt>) returns (r: Result<seq<Instr>>)
      requires instrs == [] && counter == 0
      modifies this
      ensures r == CompileFunction(params, body)
    {
      hide Compile;
      var scope := Parameters(params);
      var i := 0;
      assert body[0..] == body;
      assert forall code: seq<Instr> :: [] + code == code;
      while i < |body|
        invariant i <= |body|
        invariant CompileFunction(params, body) ==
          var rest := CompileBody(body[i..], counter, scope);
          if rest.Ok? then Ok(instrs + rest.value) else rest
      {
        assert body[i..][0] == body[i] && body[i..][1..] == body[i + 1..];
        ghost var before, n := instrs, counter;
        match body[i]
        case Assign(name, value) =>
          var reg := CompileExpr(value, scope);
          if reg.Err? { return Err(reg.reason); }
          ghost var rest := CompileBody(body[i + 1..], counter, scope[name := reg.value]);
          if rest.Ok? { assert instrs + rest.value == before + (Compile(value, n, scope).value.instrs + rest.value); }
          scope := scope[name := reg.value];
          i := i + 1;
        case Return(result) =>
          var reg := CompileExpr(Returned(result), scope);
          if reg.Err? { return Err(reg.reason); }
          Append(Give(reg.value));
          assert instrs == before + (Compile(Returned(result), n, scope).value.instrs + [Give(reg.value)]);
          return Ok(instrs);
        case OtherStmt(kind) =>
          return Err("unsupported:stmt:" + kind);
      }
      r := Err("unsupported:missing_return");
    }
  }
}
