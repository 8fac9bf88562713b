/** The constant folder of the type checker, and its agreement with the interpreter. */
module ConstFold {
  import opened Ast
  import opened Arithmetic
  import opened ComptimeSpec

  /** Named constants: constant symbols and enum variants. */
  type Consts = map<Name, int>

  /** Both operands must fold before the operator is looked at. */
  function Fold(e: Expr, consts: Consts): Option<int>
    decreases e
  {
    match e
    case IntLit(v) => Some(v)
    case Var(x, _) =>
      if x == "true" then Some(1)
      else if x == "false" then Some(0)
      else if x in consts then Some(consts[x])
      else None
    case Binary(op, l, r) =>
      var a := Fold(l, consts);
      if a.None? then None
      else
        var b := Fold(r, consts);
        if b.None? then None else Compute(op, a.value, b.value)
    case Unary(op, o) =>
      var a := Fold(o, consts);
      if a.None? then None else FoldUnary(op, a.value)
    case _ => None
  }

  function FoldUnary(op: UnOp, a: int): Option<int> {
    match op
    case Neg => Some(-a)
    case Plus => Some(a)
    case BitNot => Some(-a - 1)
    case Not => Some(Truth(a == 0))
    case _ => None
  }

  // ---------- where the two agree ----------

  datatype Type = IntType | BoolType

  predicate IsArithmetic(op: BinOp) {
    op.Add? || op.Sub? || op.Mul? || op.Div? || op.Mod?
  }

  /** The types of the language shared by the folder and the interpreter. */
  function TypeOf(e: Expr): Option<Type>
    decreases e
  {
    match e
    case IntLit(_) => Some(IntType)
    case Var(x, _) => Some(if x == "true" || x == "false" then BoolType else IntType)
    case Binary(op, l, r) =>
      var a, b := TypeOf(l), TypeOf(r);
      if a.None? || b.None? then None
      else if IsLogical(op) then Some(BoolType)
      else if a.value.BoolType? || b.value.BoolType? then None
      else if IsArithmetic(op) then Some(IntType)
      else if IsComparison(op) then Some(BoolType)
      else None
    case Unary(op, o) =>
      var a := TypeOf(o);
      if a.None? then None
      else if op.Not? then Some(BoolType)
      else if op.Neg? && a.value.IntType? then Some(IntType)
      else None
    case _ => None
  }

  /** The steps the interpreter needs. */
  function Nodes(e: Expr): nat
    decreases e
  {
    match e
    case Binary(_, l, r) => 1 + Nodes(l) + Nodes(r)
    case Unary(_, o) => 1 + Nodes(o)
    case _ => 1
  }

  /** The scope binds exactly the named constants, each to its value. */
  ghost predicate Matches(env: Env, consts: Consts) {
    forall x: Name :: (x in consts <==> Find(env, x) < |env|) && (x in consts ==> env[Find(env, x)].value == Int(consts[x]))
  }

  function Embed(t: Type, n: int): Value {
    if t.IntType? then Int(n) else Bool(n != 0)
  }

  /** A boolean folds to 0 or 1. */
  predicate InRange(t: Type, n: int) {
    t.BoolType? ==> n == 0 || n == 1
  }

  /** What the interpreter does is what the folder says: the same value, or both refuse. */
  ghost predicate Agrees(t: Type, folded: Option<int>, r: (Value, State), s: State, steps: nat) {
    match folded
    case Some(n) => InRange(t, n) && r == (Embed(t, n), s.(steps := s.steps + steps))
    case None => r.0.Null? && r.1.status.Failed?
  }

  /** The folder and the interpreter divide, compare and combine alike. */
  lemma OperatorsAgree(op: BinOp, a: Type, m: int, b: Type, n: int)
    requires IsLogical(op) || ((IsArithmetic(op) || IsComparison(op)) && a.IntType? && b.IntType?)
    requires InRange(a, m) && InRange(b, n)
    ensures var t := if IsArithmetic(op) then IntType else BoolType;
      match Compute(op, m, n)
      case Some(v) => InRange(t, v) && Operate(op, Embed(a, m), Embed(b, n)) == Some(Embed(t, v))
      case None => Operate(op, Embed(a, m), Embed(b, n)) == None
  {
  }

  /** On every well-typed expression, with matching constants and steps enough, folding and
      interpreting give the same value, or both refuse. */
  lemma {:induction false} FolderAgrees(e: Expr, consts: Consts, fs: Funcs, s: State)
    requires TypeOf(e).Some? && Matches(s.env, consts)
    requires s.Live() && s.depth <= MAX_RECURSION && s.steps + Nodes(e) <= MAX_STEPS + 1
    ensures Agrees(TypeOf(e).value, Fold(e, consts), Eval(fs, e, s), s, Nodes(e))
    decreases e
  {
    var t := Tick(s);
    assert Eval(fs, e, s) == EvalNode(fs, e, t);
    match e
    case IntLit(_) =>
    case Var(x, _) => assert EvalNode(fs, e, t) == Lookup(x, t);
    case Unary(op, o) =>
      FolderAgrees(o, consts, fs, t);
      assert EvalNode(fs, e, t) == EvalUnary(fs, op, o, t);
    case Binary(op, l, r) =>
      BinaryAgrees(e, consts, fs, t);
      assert EvalNode(fs, e, t) == EvalBinary(fs, op, l, r, t);
  }

  lemma {:induction false} BinaryAgrees(e: Expr, consts: Consts, fs: Funcs, t: State)
    requires e.Binary? && TypeOf(e).Some? && Matches(t.env, consts)
    requires t.Live() && t.depth <= MAX_RECURSION && t.steps + Nodes(e) - 1 <= MAX_STEPS + 1
    ensures Agrees(TypeOf(e).value, Fold(e, consts), EvalBinary(fs, e.op, e.left, e.right, t), t, Nodes(e) - 1)
    decreases e, 0
  {
    var l, r := e.left, e.right;
    FolderAgrees(l, consts, fs, t);
    var a := Fold(l, consts);
    if a.Some? {
      var t1 := t.(steps := t.steps + Nodes(l));
      FolderAgrees(r, consts, fs, t1);
      var b := Fold(r, consts);
      if b.Some? {
        OperatorsAgree(e.op, TypeOf(l).value, a.value, TypeOf(r).value, b.value);
      }
    }
  }

  // ---------- why the folder refuses ----------

  /** Somewhere in `e` there is an unknown name or a division by an expression that folds to zero. */
  predicate HasCause(e: Expr, consts: Consts)
    decreases e
  {
    match e
    case Var(x, _) => x != "true" && x != "false" && x !in consts
    case Binary(op, l, r) => HasCause(l, consts) || HasCause(r, consts) || ((op.Div? || op.Mod?) && Fold(r, consts) == Some(0))
    case Unary(_, o) => HasCause(o, consts)
    case _ => false
  }

  /** On well-typed expressions a zero divisor and an unknown name are the only reasons to refuse. */
  lemma {:induction false} RefusedForCause(e: Expr, consts: Consts)
    requires TypeOf(e).Some?
    ensures Fold(e, consts).None? <==> HasCause(e, consts)
    decreases e
  {
    match e
    case IntLit(_) =>
    case Var(_, _) =>
    case Unary(_, o) => RefusedForCause(o, consts);
    case Binary(_, l, r) =>
      RefusedForCause(l, consts);
      RefusedForCause(r, consts);
  }

  // ---------- where they differ ----------

  /** `true + 1` is 2 for the folder and an error for the interpreter. */
  lemma BooleanArithmeticDiffers(consts: Consts, fs: Funcs, pos: nat, s: State)
    requires s.Live() && s.depth <= MAX_RECURSION && s.steps + 3 <= MAX_STEPS
    ensures var e := Binary(Add, Var("true", pos), IntLit(1));
      Fold(e, consts) == Some(2) && Eval(fs, e, s).1.status.Failed?
  {
    var x, y := Var("true", pos), IntLit(1);
    var e := Binary(Add, x, y);
    var t := Tick(s);
    assert Eval(fs, e, s) == EvalNode(fs, e, t) == EvalBinary(fs, Add, x, y, t);
    assert Eval(fs, x, t) == EvalNode(fs, x, Tick(t)) == (Bool(true), Tick(t));
    assert EvalBinary(fs, Add, x, y, t) == EvalRight(fs, Add, Bool(true), y, Tick(t));
    assert Eval(fs, y, Tick(t)) == EvalNode(fs, y, Tick(Tick(t))) == (Int(1), Tick(Tick(t)));
  }

  /** A character literal has a value for the interpreter only. */
  lemma CharactersDiffer(c: int, consts: Consts, fs: Funcs, s: State)
    requires s.Live() && s.depth <= MAX_RECURSION && s.steps <= MAX_STEPS
    ensures Fold(CharLit(c), consts).None? && Eval(fs, CharLit(c), s).0 == Int(c)
  {
    assert Eval(fs, CharLit(c), s) == EvalNode(fs, CharLit(c), Tick(s));
  }
}
