/** What the compile-time interpreter computes, as functions on value trees: no pointers,
    no shared storage, and a step budget that makes every run end.  The contracts say what
    every step keeps. */
module ComptimeSpec {
  import opened Ast
  import Escapes
  import Yield
  import Decimal
  import opened Arithmetic

  const MAX_STEPS := 1_000_000
  const MAX_RECURSION := 64

  datatype Value = Null | Int(i: int) | Bool(b: bool) | Str(s: string) | Arr(elems: seq<Value>)

  datatype Binding = Binding(name: Name, value: Value)

  type Env = seq<Binding>

  datatype Func = Func(name: Name, isComptime: bool, params: seq<Name>, body: List<Stmt>)

  type Funcs = List<Func>

  /** Hung marks the one loop that nothing ends: a `for` with no condition, body or step. */
  datatype Status = Running | Failed | Hung

  datatype State = State(env: Env, out: string, steps: nat, depth: nat, status: Status) {
    predicate Live() {
      status.Running?
    }
  }

  // ---------- small steps ----------

  function Fail(s: State): State {
    if s.Live() then s.(status := Failed) else s
  }

  /** One step is counted; the step after the last one fails. */
  function Tick(s: State): State {
    var t := s.(steps := s.steps + 1);
    if s.steps > MAX_STEPS then Fail(t) else t
  }

  function Budget(s: State): nat {
    if s.steps > MAX_STEPS then 0 else MAX_STEPS + 1 - s.steps
  }

  function Push(s: State, x: Name, v: Value): State {
    s.(env := [Binding(x, v)] + s.env)
  }

  function Pop(env: Env): Env {
    if env == [] then [] else env[1..]
  }

  /** The position of the innermost binding of `x`, or the length of the chain. */
  function Find(env: Env, x: Name): (k: nat)
    ensures k <= |env| && (k < |env| ==> env[k].name == x) && forall j :: 0 <= j < k ==> env[j].name != x
  {
    if env == [] || env[0].name == x then 0 else 1 + Find(env[1..], x)
  }

  lemma FindIs(env: Env, x: Name, k: nat)
    requires k <= |env| && (forall j :: 0 <= j < k ==> env[j].name != x) && (k < |env| ==> env[k].name == x)
    ensures Find(env, x) == k
  {
    var f := Find(env, x);
    assert f < |env| ==> env[f].name == x;
  }

  function FindFunc(fs: Funcs, x: Name): (f: Option<Func>)
    ensures f.Some? ==> f.value.isComptime && f.value.name == x && Covered(fs, f.value.body)
  {
    match fs
    case Nil => None
    case Cons(f, rest) => if f.isComptime && f.name == x then Some(f) else FindFunc(rest, x)
  }

  predicate Truthy(v: Value) {
    (v.Int? && v.i != 0) || (v.Bool? && v.b)
  }

  function CString(s: string): string {
    if s == "" || s[0] == '\0' then "" else [s[0]] + CString(s[1..])
  }

  /** A raw literal holds its characters; an ordinary one holds them as written in C. */
  function LiteralText(text: string, raw: bool): string {
    if raw then text else CString(Escapes.Unescape(text))
  }

  /** `eval_binary` once both operands are there; None is an error. */
  function Operate(op: BinOp, a: Value, b: Value): Option<Value> {
    if op.Add? && a.Str? then
      if b.Str? then Some(Str(a.s + b.s)) else None
    else if op.And? then Some(Bool(Truthy(a) && Truthy(b)))
    else if op.Or? then Some(Bool(Truthy(a) || Truthy(b)))
    else if !a.Int? || !b.Int? then None
    else
      match op
      case Add => Some(Int(a.i + b.i))
      case Sub => Some(Int(a.i - b.i))
      case Mul => Some(Int(a.i * b.i))
      case Div => if b.i == 0 then None else Some(Int(Quotient(a.i, b.i)))
      case Mod => if b.i == 0 then None else Some(Int(Remainder(a.i, b.i)))
      case Eq => Some(Bool(a.i == b.i))
      case Ne => Some(Bool(a.i != b.i))
      case Lt => Some(Bool(a.i < b.i))
      case Gt => Some(Bool(a.i > b.i))
      case Le => Some(Bool(a.i <= b.i))
      case Ge => Some(Bool(a.i >= b.i))
      case _ => None
  }

  function Negated(v: Value): Value {
    if v.Int? then Int(-v.i) else Null
  }

  function Inverted(v: Value): Value {
    if v.Int? then Bool(v.i == 0) else if v.Bool? then Bool(!v.b) else v
  }

  predicate IsYield(name: Name) {
    name == "yield" || name == "code"
  }

  predicate IsBuiltin(name: Name) {
    IsYield(name) || name == "compile_error" || name == "compile_warn"
  }

  /** The argument kinds a builtin accepts when its argument has type string. */
  predicate IsStringForm(e: Expr) {
    e.IntLit? || e.CharLit? || e.StrLit? || e.Var? || (e.Binary? && e.op.Add?) || e.Call?
  }

  function YieldText(v: Value): string {
    if v.Str? then v.s else if v.Int? then Decimal.Text(v.i) else ""
  }

  /** The text is appended if the buffer has room for it. */
  function Accept(s: State, text: string): State {
    if |s.out| + |text| <= Yield.MAX_YIELD - 1 then s.(out := s.out + text) else Fail(s)
  }

  function Finish(name: Name, v: Value, s: State): State {
    if IsYield(name) then Accept(s, YieldText(v))
    else if name == "compile_error" then Fail(s)
    else s
  }

  /** A declared array starts out with null elements. */
  function Initial(arrayLen: nat): Value {
    if arrayLen > 0 then Arr(seq(arrayLen, _ => Null)) else Null
  }

  // ---------- what the text of a program tells ----------

  /** `advances`: every `for` has a condition, a body or a step, so that none can hang.
      `limited`: there is no `loop`, which alone can pass the step limit without an error.
      `still`: nothing is declared outside calls. */
  datatype Traits = Traits(advances: bool, limited: bool, still: bool) {
    function And(t: Traits): Traits {
      Traits(advances && t.advances, limited && t.limited, still && t.still)
    }
  }

  const PLAIN := Traits(true, true, true)

  function TraitsOf(st: Stmt): Traits
    decreases st
  {
    match st
    case VarDecl(_, _, _) => PLAIN.(still := false)
    case Block(stmts) => ListTraits(stmts)
    case If(_, t, e) => if e.Some? then TraitsOf(t).And(TraitsOf(e.value)) else TraitsOf(t)
    case While(_, _, body) => TraitsOf(body)
    case Loop(_, body) => TraitsOf(body).(limited := false)
    case For(_, start, test, step, body) => OptTraits(start).And(ForTraits(test, step, body, OptTraits(body)))
    case ForRange(_, _, _, _, _, body) => TraitsOf(body)
    case _ => PLAIN
  }

  function OptTraits(st: Option<Stmt>): Traits
    decreases st
  {
    if st.Some? then TraitsOf(st.value) else PLAIN
  }

  function ForTraits(test: Option<Expr>, step: Option<Expr>, body: Option<Stmt>, inner: Traits): Traits {
    if test.None? && step.None? && body.None? then inner.(advances := false) else inner
  }

  function ListTraits(stmts: List<Stmt>): Traits
    decreases stmts
  {
    match stmts
    case Nil => PLAIN
    case Cons(st, rest) => TraitsOf(st).And(ListTraits(rest))
  }

  /** What holds for the bodies of all functions. */
  function FuncsTraits(fs: Funcs): Traits {
    match fs
    case Nil => PLAIN
    case Cons(f, rest) => ListTraits(f.body).And(FuncsTraits(rest))
  }

  /** What every function body has, this one has. */
  predicate Covered(fs: Funcs, body: List<Stmt>) {
    && (FuncsTraits(fs).advances ==> ListTraits(body).advances)
    && (FuncsTraits(fs).limited ==> ListTraits(body).limited)
  }

  // ---------- what every step keeps ----------

  /** The `k`th name counted from the outermost binding. */
  function NameAt(env: Env, k: nat): Name
    requires 1 <= k <= |env|
  {
    env[|env| - k].name
  }

  /** `env` is still there at the end of `longer`: the same names in the same order. */
  ghost predicate Extends(env: Env, longer: Env) {
    |env| <= |longer| && forall k :: 1 <= k <= |env| ==> NameAt(longer, k) == NameAt(env, k)
  }

  /** Once something was pushed, a pop leaves what was there before. */
  lemma PopExtends(env: Env, b: Binding, longer: Env)
    requires Extends([b] + env, longer)
    ensures Extends(env, Pop(longer))
  {
    forall k | 1 <= k <= |env| ensures NameAt(Pop(longer), k) == NameAt(env, k) {
      assert NameAt(longer, k) == NameAt([b] + env, k);
    }
  }

  /** Only a program that can hang hangs, and only one with a `loop` is alive past the step limit. */
  ghost predicate Bounded(fs: Funcs, s: State, t: State, traits: Traits) {
    && (FuncsTraits(fs).advances && traits.advances && !s.status.Hung? ==> !t.status.Hung?)
    && (FuncsTraits(fs).limited && traits.limited && t.Live() && s.steps <= MAX_STEPS + 1 ==> t.steps <= MAX_STEPS + 1)
  }

  /** An expression leaves the scope and the depth alone, counts its steps and only adds output. */
  ghost predicate Evaluates(fs: Funcs, s: State, t: State) {
    && t.env == s.env && t.depth == s.depth && s.steps <= t.steps && s.out <= t.out
    && (t.Live() ==> s.Live()) && Bounded(fs, s, t, PLAIN)
  }

  /** A statement may assign to the names it finds and, unless it is still, declare new ones. */
  ghost predicate Executes(fs: Funcs, s: State, t: State, traits: Traits) {
    && Extends(s.env, t.env) && t.depth == s.depth && s.steps <= t.steps && s.out <= t.out
    && (t.Live() ==> s.Live()) && Bounded(fs, s, t, traits) && (traits.still ==> |t.env| == |s.env|)
  }

  /** A statement that was executed to its end used at least one step. */
  ghost predicate Progresses(s: State, t: State) {
    t.Live() ==> s.steps < t.steps && s.steps <= MAX_STEPS
  }

  // ---------- expressions ----------

  function Eval(fs: Funcs, e: Expr, s: State): (r: (Value, State))
    requires s.depth <= MAX_RECURSION
    ensures Evaluates(fs, s, r.1) && Progresses(s, r.1) && (!r.1.Live() ==> r.0.Null?)
    decreases Budget(s), 0
  {
    var t := Tick(s);
    if t.Live() then EvalNode(fs, e, t) else (Null, t)
  }

  function EvalNode(fs: Funcs, e: Expr, s: State): (r: (Value, State))
    requires s.depth <= MAX_RECURSION && s.Live()
    ensures Evaluates(fs, s, r.1) && (!r.1.Live() ==> r.0.Null?)
    decreases Budget(s), 3
  {
    match e
    case IntLit(v) => (Int(v), s)
    case CharLit(c) => (Int(c), s)
    case StrLit(text, raw) => (Str(LiteralText(text, raw)), s)
    case Var(x, _) => Lookup(x, s)
    case Binary(op, l, r) => EvalBinary(fs, op, l, r, s)
    case Unary(op, o) => EvalUnary(fs, op, o, s)
    case Call(callee, args, stringArg) =>
      if !callee.Var? then (Null, Fail(s))
      else if IsBuiltin(callee.name) then (Null, Builtin(fs, callee.name, args, stringArg, s))
      else (
        match FindFunc(fs, callee.name)
        case None => (Null, Fail(s))
        case Some(f) => CallFn(fs, f, args, s))
    case Index(a, i) => EvalIndex(fs, a, i, s)
    case Cast(inner) => Eval(fs, inner, s)
  }

  function Lookup(x: Name, s: State): (Value, State) {
    if x == "true" then (Bool(true), s)
    else if x == "false" then (Bool(false), s)
    else
      var k := Find(s.env, x);
      if k < |s.env| then (s.env[k].value, s) else (Null, Fail(s))
  }

  function EvalUnary(fs: Funcs, op: UnOp, o: Expr, s: State): (r: (Value, State))
    requires s.depth <= MAX_RECURSION && s.Live()
    ensures Evaluates(fs, s, r.1) && (!r.1.Live() ==> r.0.Null?)
    decreases Budget(s), 2
  {
    if !op.Neg? && !op.Not? then (Null, Fail(s))
    else
      var (v, t) := Eval(fs, o, s);
      (if !t.Live() then Null else if op.Neg? then Negated(v) else Inverted(v), t)
  }

  /** Both operands are evaluated, whatever the operator. */
  function EvalBinary(fs: Funcs, op: BinOp, l: Expr, r: Expr, s: State): (res: (Value, State))
    requires s.depth <= MAX_RECURSION && s.Live()
    ensures Evaluates(fs, s, res.1) && (!res.1.Live() ==> res.0.Null?)
    decreases Budget(s), 2
  {
    var (a, t) := Eval(fs, l, s);
    if t.Live() then EvalRight(fs, op, a, r, t) else (Null, t)
  }

  function EvalRight(fs: Funcs, op: BinOp, a: Value, r: Expr, s: State): (res: (Value, State))
    requires s.depth <= MAX_RECURSION && s.Live()
    ensures Evaluates(fs, s, res.1) && (!res.1.Live() ==> res.0.Null?)
    decreases Budget(s), 1
  {
    var (b, t) := Eval(fs, r, s);
    if t.Live() then Settle(Operate(op, a, b), t) else (Null, t)
  }

  /** A result, or an error where there is none. */
  function Settle(v: Option<Value>, s: State): (Value, State) {
    if v.Some? then (v.value, s) else (Null, Fail(s))
  }

  /** An expression that must have an integer value. */
  function EvalInt(fs: Funcs, e: Expr, s: State): (r: (int, State))
    requires s.depth <= MAX_RECURSION
    ensures Evaluates(fs, s, r.1) && Progresses(s, r.1)
    decreases Budget(s), 1
  {
    var (v, t) := Eval(fs, e, s);
    IntOf(v, t)
  }

  function IntOf(v: Value, s: State): (int, State) {
    if !s.Live() then (0, s)
    else if v.Int? then (v.i, s)
    else (0, Fail(s))
  }

  function EvalIndex(fs: Funcs, a: Expr, i: Expr, s: State): (r: (Value, State))
    requires s.depth <= MAX_RECURSION && s.Live()
    ensures Evaluates(fs, s, r.1) && (!r.1.Live() ==> r.0.Null?)
    decreases Budget(s), 2
  {
    var (arr, t) := Eval(fs, a, s);
    if t.Live() then EvalElement(fs, arr, i, t) else (Null, t)
  }

  function EvalElement(fs: Funcs, arr: Value, i: Expr, s: State): (r: (Value, State))
    requires s.depth <= MAX_RECURSION && s.Live()
    ensures Evaluates(fs, s, r.1) && (!r.1.Live() ==> r.0.Null?)
    decreases Budget(s), 2
  {
    if !arr.Arr? then (Null, Fail(s))
    else
      var (k, t) := EvalInt(fs, i, s);
      if t.Live() then Settle(ElementAt(arr.elems, k), t) else (Null, t)
  }

  function ElementAt(elems: seq<Value>, k: int): Option<Value> {
    if 0 <= k < |elems| then Some(elems[k]) else None
  }

  function Builtin(fs: Funcs, name: Name, args: List<Expr>, stringArg: bool, s: State): (t: State)
    requires s.depth <= MAX_RECURSION && s.Live()
    ensures Evaluates(fs, s, t)
    decreases Budget(s), 2
  {
    var (v, t) := Argument(fs, args, stringArg, s);
    if t.Live() then Finish(name, v, t) else t
  }

  /** The first argument of a builtin, null if there is none. */
  function Argument(fs: Funcs, args: List<Expr>, stringArg: bool, s: State): (r: (Value, State))
    requires s.depth <= MAX_RECURSION && s.Live()
    ensures Evaluates(fs, s, r.1)
    decreases Budget(s), 1
  {
    if args.Nil? then (Null, s)
    else if stringArg && !IsStringForm(args.head) then (Null, Fail(s))
    else Eval(fs, args.head, s)
  }

  /** The arguments are evaluated in the new scope, where the caller's variables are out of reach
      and the parameters bound so far are not. */
  function CallFn(fs: Funcs, f: Func, args: List<Expr>, s: State): (r: (Value, State))
    requires s.depth <= MAX_RECURSION && s.Live() && Covered(fs, f.body)
    ensures Evaluates(fs, s, r.1) && (!r.1.Live() ==> r.0.Null?)
    decreases Budget(s), 2
  {
    if s.depth >= MAX_RECURSION then (Null, Fail(s))
    else
      var (v, t) := RunCallee(fs, f, args, s.(env := [], depth := s.depth + 1));
      (v, t.(env := s.env, depth := t.depth - 1))
  }

  function RunCallee(fs: Funcs, f: Func, args: List<Expr>, s: State): (r: (Value, State))
    requires s.depth <= MAX_RECURSION && s.Live() && Covered(fs, f.body)
    ensures Executes(fs, s, r.1, PLAIN.(still := false)) && (!r.1.Live() ==> r.0.Null?)
    decreases Budget(s), 1
  {
    var t := Bind(fs, f.params, args, s);
    if t.Live() then RunBody(fs, f.body, t) else (Null, t)
  }

  function Bind(fs: Funcs, params: seq<Name>, args: List<Expr>, s: State): (t: State)
    requires s.depth <= MAX_RECURSION && s.Live()
    ensures Executes(fs, s, t, PLAIN.(still := false))
    decreases Budget(s), 1, args
  {
    if params == [] || args.Nil? then s
    else
      var (v, t) := Eval(fs, args.head, s);
      if !t.Live() then t
      else
        Bind(fs, params[1..], args.tail, Push(t, params[0], v))
  }

  /** A function body: a `return` among its own statements ends it. */
  function RunBody(fs: Funcs, stmts: List<Stmt>, s: State): (r: (Value, State))
    requires s.depth <= MAX_RECURSION && s.Live()
    ensures Executes(fs, s, r.1, ListTraits(stmts)) && (!r.1.Live() ==> r.0.Null?)
    decreases Budget(s), 1, stmts
  {
    if stmts.Nil? then (Null, s)
    else if stmts.head.Return? then
      if stmts.head.value.Some? then Eval(fs, stmts.head.value.value, s) else (Null, s)
    else
      var t := Exec(fs, stmts.head, s);
      if t.Live() then RunBody(fs, stmts.tail, t) else (Null, t)
  }

  // ---------- statements ----------

  function Exec(fs: Funcs, st: Stmt, s: State): (t: State)
    requires s.depth <= MAX_RECURSION
    ensures Executes(fs, s, t, TraitsOf(st)) && Progresses(s, t)
    decreases Budget(s), 0
  {
    if !s.Live() then s
    else
      var t := Tick(s);
      if t.Live() then ExecNode(fs, st, t) else t
  }

  function ExecList(fs: Funcs, stmts: List<Stmt>, s: State): (t: State)
    requires s.depth <= MAX_RECURSION
    ensures Executes(fs, s, t, ListTraits(stmts))
    decreases Budget(s), 1, stmts
  {
    if stmts.Nil? || !s.Live() then s
    else ExecList(fs, stmts.tail, Exec(fs, stmts.head, s))
  }

  /** `return`, `match`, `break` and `continue` have no effect here. */
  function ExecNode(fs: Funcs, st: Stmt, s: State): (t: State)
    requires s.depth <= MAX_RECURSION && s.Live()
    ensures Executes(fs, s, t, TraitsOf(st))
    decreases Budget(s), 3
  {
    match st
    case Assert(e) => ExecAssert(fs, e, s)
    case VarDecl(x, init, arrayLen) => ExecLet(fs, x, init, arrayLen, s)
    case ExprStmt(e) => ExecExpr(fs, e, s)
    case If(c, thenBody, elseBody) => ExecIf(fs, c, thenBody, elseBody, s)
    case Block(stmts) => ExecList(fs, stmts, s)
    case While(_, guard, body) => WhileLoop(fs, guard, body, s)
    case Loop(_, body) => EndlessLoop(fs, body, s)
    case For(_, start, test, step, body) => ExecFor(fs, start, test, step, body, s)
    case ForRange(_, x, lo, hi, inclusive, body) => ExecRange(fs, x, lo, hi, inclusive, body, s)
    case Match(_, _) => s
    case Break(_) => s
    case Continue(_) => s
    case Return(_) => s
  }

  function ExecAssert(fs: Funcs, e: Expr, s: State): (t: State)
    requires s.depth <= MAX_RECURSION && s.Live()
    ensures Executes(fs, s, t, PLAIN)
    decreases Budget(s), 2
  {
    var (v, t) := Eval(fs, e, s);
    if Truthy(v) then t else Fail(t)
  }

  function ExecLet(fs: Funcs, x: Name, init: Option<Expr>, arrayLen: nat, s: State): (t: State)
    requires s.depth <= MAX_RECURSION && s.Live()
    ensures Executes(fs, s, t, PLAIN.(still := false))
    decreases Budget(s), 2
  {
    if init.None? then Push(s, x, Initial(arrayLen))
    else
      var (v, t) := Eval(fs, init.value, s);
      if t.Live() then Push(t, x, v) else t
  }

  function ExecIf(fs: Funcs, c: Expr, thenBody: Stmt, elseBody: Option<Stmt>, s: State): (t: State)
    requires s.depth <= MAX_RECURSION && s.Live()
    ensures Executes(fs, s, t, TraitsOf(thenBody).And(OptTraits(elseBody)))
    decreases Budget(s), 2
  {
    var (v, t) := Eval(fs, c, s);
    if !t.Live() then t
    else if Truthy(v) then ExecBranch(fs, thenBody, t)
    else if elseBody.Some? then ExecBranch(fs, elseBody.value, t)
    else t
  }

  function ExecRange(fs: Funcs, x: Name, lo: Expr, hi: Expr, inclusive: bool, body: Stmt, s: State): (t: State)
    requires s.depth <= MAX_RECURSION && s.Live()
    ensures Executes(fs, s, t, TraitsOf(body))
    decreases Budget(s), 2, 1
  {
    var (a, t) := EvalInt(fs, lo, s);
    RangeTo(fs, x, a, hi, inclusive, body, t)
  }

  /** The upper end is evaluated even if the lower one failed. */
  function RangeTo(fs: Funcs, x: Name, start: int, hi: Expr, inclusive: bool, body: Stmt, s: State): (t: State)
    requires s.depth <= MAX_RECURSION
    ensures Executes(fs, s, t, TraitsOf(body))
    decreases Budget(s), 2, 0
  {
    var (b, t) := EvalInt(fs, hi, s);
    RangeLoop(fs, x, start, if inclusive then b + 1 else b, body, t)
  }

  function ExecBranch(fs: Funcs, body: Stmt, s: State): (t: State)
    requires s.depth <= MAX_RECURSION && s.Live()
    ensures Executes(fs, s, t, TraitsOf(body))
    decreases Budget(s), 2
  {
    if body.Block? then ExecList(fs, body.stmts, s) else Exec(fs, body, s)
  }

  function ExecExpr(fs: Funcs, e: Expr, s: State): (t: State)
    requires s.depth <= MAX_RECURSION && s.Live()
    ensures Executes(fs, s, t, PLAIN)
    decreases Budget(s), 2, 3
  {
    if e.Binary? && e.op.Set? then Assign(fs, e.left, e.right, s)
    else if e.Index? || e.Cast? then s
    else Eval(fs, e, s).1
  }

  function Assign(fs: Funcs, l: Expr, r: Expr, s: State): (t: State)
    requires s.depth <= MAX_RECURSION && s.Live()
    ensures Executes(fs, s, t, PLAIN)
    decreases Budget(s), 2, 2
  {
    if l.Index? then AssignIndex(fs, l, r, s)
    else if !l.Var? then Fail(s)
    else
      var k := Find(s.env, l.name);
      if k == |s.env| then Fail(s)
      else
        var (v, t) := Eval(fs, r, s);
        if t.Live() then Rebind(t, k, v) else t
  }

  function AssignIndex(fs: Funcs, target: Expr, r: Expr, s: State): (t: State)
    requires s.depth <= MAX_RECURSION && s.Live() && target.Index?
    ensures Executes(fs, s, t, PLAIN)
    decreases Budget(s), 2, 1
  {
    var Index(a, i) := target;
    if !a.Var? then Fail(s)
    else
      var k := Find(s.env, a.name);
      if k < |s.env| && s.env[k].value.Arr? then AssignAt(fs, k, i, r, s) else Fail(s)
  }

  function AssignAt(fs: Funcs, k: nat, i: Expr, r: Expr, s: State): (t: State)
    requires s.depth <= MAX_RECURSION && s.Live() && k < |s.env| && s.env[k].value.Arr?
    ensures Executes(fs, s, t, PLAIN)
    decreases Budget(s), 2, 0
  {
    var (j, t) := EvalInt(fs, i, s);
    if t.Live() then AssignElement(fs, k, j, r, t) else t
  }

  /** Element `j` of the array in binding `k` gets the value of `r`. */
  function AssignElement(fs: Funcs, k: nat, j: int, r: Expr, s: State): (t: State)
    requires s.depth <= MAX_RECURSION && s.Live() && k < |s.env| && s.env[k].value.Arr?
    ensures Executes(fs, s, t, PLAIN)
    decreases Budget(s), 1, 0
  {
    var Binding(x, Arr(elems)) := s.env[k];
    if !(0 <= j < |elems|) then Fail(s)
    else
      var (v, t) := Eval(fs, r, s);
      if t.Live() then Rebind(t, k, Arr(elems[j := v])) else t
  }

  function Rebind(s: State, k: nat, v: Value): State
    requires k < |s.env|
  {
    s.(env := s.env[k := Binding(s.env[k].name, v)])
  }

  function WhileLoop(fs: Funcs, guard: Expr, body: Stmt, s: State): (t: State)
    requires s.depth <= MAX_RECURSION
    ensures Executes(fs, s, t, TraitsOf(body))
    decreases Budget(s), 2
  {
    if !s.Live() then s
    else
      var (on, t) := WhileRound(fs, guard, body, s);
      if on then WhileLoop(fs, guard, body, t) else t
  }

  /** One round of a `while`, and whether its condition held. */
  function WhileRound(fs: Funcs, guard: Expr, body: Stmt, s: State): (r: (bool, State))
    requires s.depth <= MAX_RECURSION && s.Live()
    ensures Executes(fs, s, r.1, TraitsOf(body)) && Progresses(s, r.1)
    decreases Budget(s), 1
  {
    var (v, t) := Eval(fs, guard, s);
    (Truthy(v), if Truthy(v) then Exec(fs, body, t) else t)
  }

  /** Past the step limit this loop stops without an error. */
  function EndlessLoop(fs: Funcs, body: Stmt, s: State): (t: State)
    requires s.depth <= MAX_RECURSION
    ensures Executes(fs, s, t, TraitsOf(body).(limited := false))
    decreases Budget(s), 1
  {
    if !s.Live() then s
    else
      var s1 := s.(steps := s.steps + 1);
      if s.steps > MAX_STEPS then s1
      else EndlessLoop(fs, body, Exec(fs, body, s1))
  }

  function ExecFor(fs: Funcs, start: Option<Stmt>, test: Option<Expr>, step: Option<Expr>, body: Option<Stmt>, s: State): (t: State)
    requires s.depth <= MAX_RECURSION
    ensures Executes(fs, s, t, OptTraits(start).And(ForTraits(test, step, body, OptTraits(body))))
    decreases Budget(s), 2, 1
  {
    ForLoop(fs, test, step, body, if start.Some? then Exec(fs, start.value, s) else s)
  }

  function ForLoop(fs: Funcs, test: Option<Expr>, step: Option<Expr>, body: Option<Stmt>, s: State): (t: State)
    requires s.depth <= MAX_RECURSION
    ensures Executes(fs, s, t, ForTraits(test, step, body, OptTraits(body)))
    decreases Budget(s), 2, 0
  {
    if !s.Live() then s
    else if test.None? && step.None? && body.None? then s.(status := Hung)
    else
      var (on, s1) := ForRound(fs, test, step, body, s);
      if on && s1.Live() then ForLoop(fs, test, step, body, s1) else s1
  }

  /** One round of a `for`, and whether its condition held. */
  function ForRound(fs: Funcs, test: Option<Expr>, step: Option<Expr>, body: Option<Stmt>, s: State): (r: (bool, State))
    requires s.depth <= MAX_RECURSION && s.Live() && (test.Some? || step.Some? || body.Some?)
    ensures Executes(fs, s, r.1, OptTraits(body)) && Progresses(s, r.1)
    decreases Budget(s), 1, 1
  {
    var (v, s1) := if test.Some? then Eval(fs, test.value, s) else (Bool(true), s);
    if !Truthy(v) then (false, s1)
    else
      (true, ForRest(fs, step, body, s1))
  }

  /** A round of a `for` after its condition. */
  function ForRest(fs: Funcs, step: Option<Expr>, body: Option<Stmt>, s: State): (t: State)
    requires s.depth <= MAX_RECURSION
    ensures Executes(fs, s, t, OptTraits(body)) && (step.Some? || body.Some? ==> Progresses(s, t))
    decreases Budget(s), 1, 0
  {
    var s1 := if body.Some? then Exec(fs, body.value, s) else s;
    if step.Some? then Exec(fs, ExprStmt(step.value), s1) else s1
  }

  /** The innermost binding is removed after every round, whether or not it is the loop variable's. */
  function RangeLoop(fs: Funcs, x: Name, i: int, end: int, body: Stmt, s: State): (t: State)
    requires s.depth <= MAX_RECURSION
    ensures Executes(fs, s, t, TraitsOf(body))
    decreases Budget(s), 1, 1
  {
    if !s.Live() || i >= end then s
    else
      var t := Tick(s);
      if t.Live() then RangeLoop(fs, x, i + 1, end, body, RangeRound(fs, x, i, body, t)) else t
  }

  function RangeRound(fs: Funcs, x: Name, i: int, body: Stmt, s: State): (t: State)
    requires s.depth <= MAX_RECURSION && s.Live()
    ensures Executes(fs, s, t, TraitsOf(body))
    decreases Budget(s), 1, 0
  {
    var t := Exec(fs, body, Push(s, x, Int(i)));
    PopExtends(s.env, Binding(x, Int(i)), t.env);
    t.(env := Pop(t.env))
  }

  // ---------- the whole block ----------

  const START := State([], "", 0, 0, Running)

  function Interpret(fs: Funcs, body: List<Stmt>): State {
    ExecList(fs, body, START)
  }
}
