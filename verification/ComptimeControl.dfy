/** Which statements the interpreter runs, and what they yield: its control flow against the constant folder. */
module ComptimeControl {
  import opened Ast
  import opened ComptimeSpec
  import opened ConstFold
  import Decimal
  import Escapes
  import Yield

  /** A well-typed condition that folds to `n` in the scope of `s`, and steps enough to evaluate it. */
  ghost predicate Decides(c: Expr, consts: Consts, n: int, s: State) {
    && TypeOf(c).Some? && Fold(c, consts) == Some(n) && Matches(s.env, consts)
    && s.Live() && s.depth <= MAX_RECURSION && s.steps + Nodes(c) <= MAX_STEPS
  }

  /** The state after a condition was evaluated. */
  function Counted(c: Expr, s: State): State {
    s.(steps := s.steps + Nodes(c))
  }

  lemma Decided(fs: Funcs, c: Expr, consts: Consts, n: int, s: State)
    requires Decides(c, consts, n, s)
    ensures Truthy(Eval(fs, c, s).0) == (n != 0) && Eval(fs, c, s).1 == Counted(c, s)
  {
    FolderAgrees(c, consts, fs, s);
  }

  // ---------- branches ----------

  /** An `if` whose condition folds to something else than 0 runs its then-statements, and nothing
      else; with 0 it runs its else-statements, if it has any. */
  lemma IfTakesBranch(fs: Funcs, c: Expr, thens: List<Stmt>, elses: Option<List<Stmt>>, consts: Consts, n: int, s: State)
    requires s.Live() && s.steps <= MAX_STEPS && Decides(c, consts, n, Tick(s))
    ensures var e := if elses.Some? then Some(Block(elses.value)) else None;
      var t := Counted(c, Tick(s));
      Exec(fs, If(c, Block(thens), e), s) ==
        if n != 0 then ExecList(fs, thens, t) else if elses.Some? then ExecList(fs, elses.value, t) else t
  {
    var e := if elses.Some? then Some(Block(elses.value)) else None;
    var st, t, u := If(c, Block(thens), e), Tick(s), Counted(c, Tick(s));
    Decided(fs, c, consts, n, t);
    assert Exec(fs, st, s) == ExecNode(fs, st, t) == ExecIf(fs, c, Block(thens), e, t);
    assert ExecBranch(fs, Block(thens), u) == ExecList(fs, thens, u);
    if elses.Some? {
      assert ExecBranch(fs, Block(elses.value), u) == ExecList(fs, elses.value, u);
    }
  }

  /** A condition that is neither a number nor a boolean counts as false. */
  lemma OtherConditionIsFalse(fs: Funcs, c: Expr, thens: List<Stmt>, elses: List<Stmt>, s: State)
    requires s.Live() && s.depth <= MAX_RECURSION && s.steps <= MAX_STEPS && Eval(fs, c, Tick(s)).1.Live()
    requires var v := Eval(fs, c, Tick(s)).0; v.Null? || v.Str? || v.Arr?
    ensures Exec(fs, If(c, Block(thens), Some(Block(elses))), s) == ExecList(fs, elses, Eval(fs, c, Tick(s)).1)
  {
    var e, t := Some(Block(elses)), Tick(s);
    var st, u := If(c, Block(thens), e), Eval(fs, c, t).1;
    assert Exec(fs, st, s) == ExecNode(fs, st, t) == ExecIf(fs, c, Block(thens), e, t);
    assert ExecIf(fs, c, Block(thens), e, t) == ExecBranch(fs, Block(elses), u) == ExecList(fs, elses, u);
  }

  /** An assertion is an error exactly when its condition folds to 0. */
  lemma AssertDecides(fs: Funcs, c: Expr, consts: Consts, n: int, s: State)
    requires s.Live() && s.steps <= MAX_STEPS && Decides(c, consts, n, Tick(s))
    ensures var t := Counted(c, Tick(s)); Exec(fs, Assert(c), s) == if n != 0 then t else t.(status := Failed)
  {
    var t := Tick(s);
    Decided(fs, c, consts, n, t);
    assert Exec(fs, Assert(c), s) == ExecNode(fs, Assert(c), t) == ExecAssert(fs, c, t);
  }

  // ---------- what is passed over ----------

  /** A `match` and the jumps cost a step each and do nothing, as do an element and a cast as statements. */
  lemma PassedOver(fs: Funcs, st: Stmt, s: State)
    requires s.Live() && s.depth <= MAX_RECURSION && s.steps <= MAX_STEPS
    requires st.Match? || st.Break? || st.Continue? || st.Return? || (st.ExprStmt? && (st.expr.Index? || st.expr.Cast?))
    ensures Exec(fs, st, s) == s.(steps := s.steps + 1)
  {
    assert Exec(fs, st, s) == ExecNode(fs, st, Tick(s));
    if st.ExprStmt? {
      assert ExecNode(fs, st, Tick(s)) == ExecExpr(fs, st.expr, Tick(s));
    }
  }

  /** The sign of a boolean is null, and that without an error. */
  lemma NegatedBoolean(fs: Funcs, b: bool, s: State)
    requires s.Live() && s.depth <= MAX_RECURSION && s.steps + 1 <= MAX_STEPS
    ensures Eval(fs, Unary(Neg, Var(if b then "true" else "false", 0)), s) == (Null, s.(steps := s.steps + 2))
  {
    var x, t := Var(if b then "true" else "false", 0), Tick(s);
    var e := Unary(Neg, x);
    assert Eval(fs, x, t) == EvalNode(fs, x, Tick(t)) == Lookup(x.name, Tick(t)) == (Bool(b), Tick(t));
    assert Eval(fs, e, s) == EvalNode(fs, e, t) == EvalUnary(fs, Neg, x, t);
  }

  /** Which operators have a value for which operands: the logical ones for all, `+` for two strings, and
      the other operators shared with the folder for two integers, unless they divide by zero. */
  lemma OperandsChecked(op: BinOp, a: Value, b: Value)
    ensures Operate(op, a, b).Some? <==>
      || op == And || op == Or
      || (op == Add && a.Str? && b.Str?)
      || (a.Int? && b.Int? && (IsComparison(op) || op == Add || op == Sub || op == Mul || ((op == Div || op == Mod) && b.i != 0)))
  {
  }

  // ---------- sequences ----------

  function Append(a: List<Stmt>, b: List<Stmt>): List<Stmt> {
    match a
    case Nil => b
    case Cons(st, rest) => Cons(st, Append(rest, b))
  }

  /** Statements run one after the other. */
  lemma {:induction false} InSequence(fs: Funcs, a: List<Stmt>, b: List<Stmt>, s: State)
    requires s.depth <= MAX_RECURSION
    ensures ExecList(fs, Append(a, b), s) == ExecList(fs, b, ExecList(fs, a, s))
    decreases a
  {
    if a.Cons? && s.Live() {
      InSequence(fs, a.tail, b, Exec(fs, a.head, s));
    }
  }

  predicate NoReturn(ss: List<Stmt>) {
    ss.Cons? ==> !ss.head.Return? && NoReturn(ss.tail)
  }

  /** A function body runs its statements up to the first `return` among them; its value is that of
      the returned expression there, and null if there is none. */
  lemma {:induction false} FirstReturnEndsBody(fs: Funcs, ss: List<Stmt>, value: Option<Expr>, rest: List<Stmt>, s: State)
    requires s.Live() && s.depth <= MAX_RECURSION && NoReturn(ss)
    ensures RunBody(fs, ss, s) == (Null, ExecList(fs, ss, s))
    ensures var t := ExecList(fs, ss, s);
      RunBody(fs, Append(ss, Cons(Return(value), rest)), s) == if t.Live() && value.Some? then Eval(fs, value.value, t) else (Null, t)
    decreases ss
  {
    if ss.Cons? {
      var t := Exec(fs, ss.head, s);
      if t.Live() {
        FirstReturnEndsBody(fs, ss.tail, value, rest, t);
      }
    }
  }

  /** The bindings a call makes of the values of its arguments. */
  function Bound(params: seq<Name>, values: seq<int>): Env
    requires |params| == |values|
    decreases |params|
  {
    if params == [] then [] else Bound(params[1..], values[1..]) + [Binding(params[0], Int(values[0]))]
  }

  function Literals(values: seq<int>): List<Expr> {
    if values == [] then Nil else Cons(IntLit(values[0]), Literals(values[1..]))
  }

  lemma {:induction false} LiteralsBound(fs: Funcs, params: seq<Name>, values: seq<int>, s: State)
    requires |params| == |values| && s.Live() && s.depth <= MAX_RECURSION && s.steps + |values| <= MAX_STEPS
    ensures Bind(fs, params, Literals(values), s) == s.(env := Bound(params, values) + s.env, steps := s.steps + |values|)
    decreases |values|
  {
    if values == [] {
      assert [] + s.env == s.env;
    } else {
      var t := Tick(s);
      assert Eval(fs, IntLit(values[0]), s) == EvalNode(fs, IntLit(values[0]), t) == (Int(values[0]), t);
      var u := Push(t, params[0], Int(values[0]));
      LiteralsBound(fs, params[1..], values[1..], u);
      assert Bound(params[1..], values[1..]) + u.env == Bound(params, values) + s.env;
    }
  }

  /** A call runs the body of the function in a scope that holds its parameters alone, and gives
      back the value of the first `return`. */
  lemma CallReturns(fs: Funcs, f: Func, values: seq<int>, ss: List<Stmt>, value: Option<Expr>, rest: List<Stmt>, s: State)
    requires s.Live() && s.depth < MAX_RECURSION && s.steps + |values| <= MAX_STEPS && |f.params| == |values|
    requires f.body == Append(ss, Cons(Return(value), rest)) && NoReturn(ss) && Covered(fs, f.body)
    ensures var t := ExecList(fs, ss, s.(env := Bound(f.params, values), depth := s.depth + 1, steps := s.steps + |values|));
      CallFn(fs, f, Literals(values), s).0 == if t.Live() && value.Some? then Eval(fs, value.value, t).0 else Null
  {
    var inner := s.(env := [], depth := s.depth + 1);
    LiteralsBound(fs, f.params, values, inner);
    assert Bound(f.params, values) + [] == Bound(f.params, values);
    var t := Bind(fs, f.params, Literals(values), inner);
    FirstReturnEndsBody(fs, ss, value, rest, t);
    assert RunCallee(fs, f, Literals(values), inner) == RunBody(fs, f.body, t);
  }

  predicate NoneNamed(fs: Funcs, x: Name) {
    fs.Cons? ==> !(fs.head.isComptime && fs.head.name == x) && NoneNamed(fs.tail, x)
  }

  function AppendFuncs(a: Funcs, b: Funcs): Funcs {
    match a
    case Nil => b
    case Cons(f, rest) => Cons(f, AppendFuncs(rest, b))
  }

  /** A call means the first compile-time function of that name. */
  lemma {:induction false} FirstFunctionFound(before: Funcs, f: Func, after: Funcs, x: Name)
    requires NoneNamed(before, x) && f.isComptime && f.name == x
    ensures FindFunc(AppendFuncs(before, Cons(f, after)), x) == Some(f) && FindFunc(before, x) == None
    decreases before
  {
    if before.Cons? {
      FirstFunctionFound(before.tail, f, after, x);
    }
  }

  /** `fn f() { return f(); }` runs into the limit on the depth of calls. */
  lemma {:induction false} EndlessRecursionFails(fs: Funcs, f: Func, call: Expr, s: State)
    requires call.Call? && call.callee.Var? && call.args == Nil && !IsBuiltin(call.callee.name)
    requires FindFunc(fs, call.callee.name) == Some(f) && f.params == [] && f.body == Cons(Return(Some(call)), Nil)
    requires s.Live() && s.depth <= MAX_RECURSION && s.steps + (MAX_RECURSION - s.depth) <= MAX_STEPS
    ensures CallFn(fs, f, Nil, s).1.status.Failed?
    decreases MAX_RECURSION - s.depth
  {
    if s.depth < MAX_RECURSION {
      var inner := s.(env := [], depth := s.depth + 1);
      var t := Tick(inner);
      EndlessRecursionFails(fs, f, call, t);
      assert Eval(fs, call, inner) == EvalNode(fs, call, t) == CallFn(fs, f, Nil, t);
      assert Bind(fs, f.params, Nil, inner) == inner;
      assert RunBody(fs, f.body, inner) == Eval(fs, call, inner);
      assert RunCallee(fs, f, Nil, inner) == RunBody(fs, f.body, inner);
    }
  }

  /** Calls nest to a depth of 64. */
  lemma DepthLimit(fs: Funcs, f: Func, s: State)
    requires f.params == [] && f.body == Cons(Return(Some(IntLit(7))), Nil)
    requires s.Live() && s.depth <= MAX_RECURSION && s.steps <= MAX_STEPS
    ensures CallFn(fs, f, Nil, s).1.Live() <==> s.depth < 64
    ensures s.depth < 64 ==> CallFn(fs, f, Nil, s).0 == Int(7)
  {
    if s.depth < 64 {
      var inner := s.(env := [], depth := s.depth + 1);
      assert Bind(fs, f.params, Nil, inner) == inner;
      assert RunBody(fs, f.body, inner) == Eval(fs, IntLit(7), inner) == EvalNode(fs, IntLit(7), Tick(inner)) == (Int(7), Tick(inner));
      assert RunCallee(fs, f, Nil, inner) == RunBody(fs, f.body, inner);
    }
  }

  // ---------- loops with a condition ----------

  /** A `while` whose condition folds to 0 changes nothing but the step count. */
  lemma WhileStops(fs: Funcs, tag: Option<Name>, c: Expr, body: Stmt, consts: Consts, s: State)
    requires s.Live() && s.steps <= MAX_STEPS && Decides(c, consts, 0, Tick(s))
    ensures Exec(fs, While(tag, c, body), s) == Counted(c, Tick(s))
  {
    var st, t := While(tag, c, body), Tick(s);
    Decided(fs, c, consts, 0, t);
    assert Exec(fs, st, s) == ExecNode(fs, st, t) == WhileLoop(fs, c, body, t);
    assert WhileRound(fs, c, body, t) == (false, Counted(c, t));
  }

  /** With a condition that does not fold to 0 it runs its body, and then the same loop again. */
  lemma WhileGoesOn(fs: Funcs, c: Expr, body: Stmt, consts: Consts, n: int, s: State)
    requires Decides(c, consts, n, s) && n != 0
    ensures WhileLoop(fs, c, body, s) == WhileLoop(fs, c, body, Exec(fs, body, Counted(c, s)))
  {
    Decided(fs, c, consts, n, s);
    assert WhileRound(fs, c, body, s) == (true, Exec(fs, body, Counted(c, s)));
  }

  /** A `for` runs its body and its step as long as its condition does not fold to 0. */
  lemma ForRounds(fs: Funcs, c: Expr, step: Expr, body: Stmt, consts: Consts, n: int, s: State)
    requires Decides(c, consts, n, s)
    ensures ForLoop(fs, Some(c), Some(step), Some(body), s) ==
      if n == 0 then Counted(c, s)
      else ForLoop(fs, Some(c), Some(step), Some(body), Exec(fs, ExprStmt(step), Exec(fs, body, Counted(c, s))))
  {
    Decided(fs, c, consts, n, s);
    if n != 0 {
      assert ForRest(fs, Some(step), Some(body), Counted(c, s)) == Exec(fs, ExprStmt(step), Exec(fs, body, Counted(c, s)));
      assert ForRound(fs, Some(c), Some(step), Some(body), s) == (true, Exec(fs, ExprStmt(step), Exec(fs, body, Counted(c, s))));
    } else {
      assert ForRound(fs, Some(c), Some(step), Some(body), s) == (false, Counted(c, s));
    }
  }

  // ---------- generated text ----------

  /** The call `name(arg)` as a statement. */
  function Report(name: Name, arg: Expr, stringArg: bool): Stmt {
    ExprStmt(Call(Var(name, 0), Cons(arg, Nil), stringArg))
  }

  /** A builtin called with an argument whose value is `v`. */
  lemma BuiltinRuns(fs: Funcs, name: Name, arg: Expr, stringArg: bool, v: Value, s: State)
    requires s.Live() && s.depth <= MAX_RECURSION && s.steps + 1 <= MAX_STEPS && IsBuiltin(name) && (stringArg ==> IsStringForm(arg))
    requires Eval(fs, arg, Tick(Tick(s))).0 == v && Eval(fs, arg, Tick(Tick(s))).1.Live()
    ensures Exec(fs, Report(name, arg, stringArg), s) == Finish(name, v, Eval(fs, arg, Tick(Tick(s))).1)
  {
    var st, e, t, u := Report(name, arg, stringArg), Report(name, arg, stringArg).expr, Tick(s), Tick(Tick(s));
    assert Exec(fs, st, s) == ExecNode(fs, st, t) == ExecExpr(fs, e, t) == Eval(fs, e, t).1;
    assert Eval(fs, e, t) == EvalNode(fs, e, u) == (Null, Builtin(fs, name, Cons(arg, Nil), stringArg, u));
    assert Argument(fs, Cons(arg, Nil), stringArg, u) == Eval(fs, arg, u);
  }

  /** Both names generate the decimal text of an integer behind the text there is, if it fits. */
  lemma NumberYielded(fs: Funcs, name: Name, i: int, s: State)
    requires s.Live() && s.depth <= MAX_RECURSION && s.steps + 2 <= MAX_STEPS && (name == "yield" || name == "code")
    ensures var t := Exec(fs, Report(name, IntLit(i), false), s);
      if |s.out| + |Decimal.Text(i)| < Yield.MAX_YIELD then t == s.(out := s.out + Decimal.Text(i), steps := s.steps + 3)
      else t.status.Failed? && t.out == s.out
  {
    var u := Tick(Tick(s));
    assert Eval(fs, IntLit(i), u) == EvalNode(fs, IntLit(i), Tick(u)) == (Int(i), Tick(u));
    BuiltinRuns(fs, name, IntLit(i), false, Int(i), s);
  }

  /** A sum of two raw string literals generates the characters of both. */
  lemma JoinedTextYielded(fs: Funcs, a: string, b: string, s: State)
    requires s.Live() && s.depth <= MAX_RECURSION && s.steps + 4 <= MAX_STEPS && |s.out| + |a| + |b| < Yield.MAX_YIELD
    ensures var e := Binary(Add, StrLit(a, true), StrLit(b, true));
      Exec(fs, Report("yield", e, true), s) == s.(out := s.out + (a + b), steps := s.steps + 5)
  {
    var l, r := StrLit(a, true), StrLit(b, true);
    var e, u := Binary(Add, l, r), Tick(Tick(s));
    var t1, t2, t3 := Tick(u), Tick(Tick(u)), Tick(Tick(Tick(u)));
    assert Eval(fs, l, t1) == EvalNode(fs, l, t2) == (Str(a), t2);
    assert Eval(fs, r, t2) == EvalNode(fs, r, t3) == (Str(b), t3);
    assert EvalRight(fs, Add, Str(a), r, t2) == (Str(a + b), t3);
    assert Eval(fs, e, u) == EvalNode(fs, e, t1) == EvalBinary(fs, Add, l, r, t1) == (Str(a + b), t3);
    BuiltinRuns(fs, "yield", e, true, Str(a + b), s);
  }

  /** `compile_error` is an error, `compile_warn` is not, and neither generates anything. */
  lemma ErrorAndWarning(fs: Funcs, i: int, s: State)
    requires s.Live() && s.depth <= MAX_RECURSION && s.steps + 2 <= MAX_STEPS
    ensures var t := s.(steps := s.steps + 3);
      && Exec(fs, Report("compile_error", IntLit(i), false), s) == t.(status := Failed)
      && Exec(fs, Report("compile_warn", IntLit(i), false), s) == t
  {
    var u := Tick(Tick(s));
    assert Eval(fs, IntLit(i), u) == EvalNode(fs, IntLit(i), Tick(u)) == (Int(i), Tick(u));
    BuiltinRuns(fs, "compile_error", IntLit(i), false, Int(i), s);
    BuiltinRuns(fs, "compile_warn", IntLit(i), false, Int(i), s);
  }

  /** A boolean generates nothing. */
  lemma BooleanYieldsNothing(fs: Funcs, b: bool, s: State)
    requires s.Live() && s.depth <= MAX_RECURSION && s.steps + 2 <= MAX_STEPS && |s.out| < Yield.MAX_YIELD
    ensures Exec(fs, Report("yield", Var(if b then "true" else "false", 0), false), s) == s.(steps := s.steps + 3)
  {
    var e, u := Var(if b then "true" else "false", 0), Tick(Tick(s));
    assert Eval(fs, e, u) == EvalNode(fs, e, Tick(u)) == Lookup(e.name, Tick(u)) == (Bool(b), Tick(u));
    assert s.out + "" == s.out;
    BuiltinRuns(fs, "yield", e, false, Bool(b), s);
  }

  /** A builtin refuses a string that is an element, a cast, or the result of an operator other than `+`. */
  lemma StringFormChecked(fs: Funcs, name: Name, arg: Expr, s: State)
    requires s.Live() && s.depth <= MAX_RECURSION && s.steps + 1 <= MAX_STEPS && IsBuiltin(name)
    requires arg.Index? || arg.Cast? || arg.Unary? || (arg.Binary? && arg.op != Add)
    ensures Exec(fs, Report(name, arg, true), s).status.Failed?
  {
    var st, e, t, u := Report(name, arg, true), Report(name, arg, true).expr, Tick(s), Tick(Tick(s));
    assert Exec(fs, st, s) == ExecNode(fs, st, t) == ExecExpr(fs, e, t) == Eval(fs, e, t).1;
    assert Eval(fs, e, t) == EvalNode(fs, e, u) == (Null, Builtin(fs, name, Cons(arg, Nil), true, u));
    assert Argument(fs, Cons(arg, Nil), true, u) == (Null, Fail(u));
  }

  predicate NulFree(s: string) {
    forall i :: 0 <= i < |s| ==> s[i] != '\0'
  }

  /** An ordinary literal has the text that was escaped in it, up to its first NUL character. */
  lemma LiteralRead(s: string, more: string)
    requires NulFree(s)
    ensures LiteralText(Escapes.Escape(s), false) == s && LiteralText(Escapes.Escape(s + ("\0" + more)), false) == s
    ensures LiteralText(s, true) == s
  {
    Escapes.EscapeRoundTrip(s);
    Escapes.EscapeRoundTrip(s + ("\0" + more));
    CutAtNul(s, "");
    CutAtNul(s, "\0" + more);
    assert s + "" == s;
  }

  lemma {:induction false} CutAtNul(s: string, tail: string)
    requires NulFree(s) && (tail != "" ==> tail[0] == '\0')
    ensures CString(s + tail) == s
    decreases |s|
  {
    if s == "" {
      assert s + tail == tail;
    } else {
      CutAtNul(s[1..], tail);
      assert (s + tail)[1..] == s[1..] + tail && s == [s[0]] + s[1..];
    }
  }

  // ---------- range loops ----------

  /** The decimal texts of lo, lo + 1, ..., hi - 1, one behind the other. */
  function Count(lo: int, hi: int): string
    decreases hi - lo
  {
    if lo >= hi then "" else Decimal.Text(lo) + Count(lo + 1, hi)
  }

  /** One round: `x` is bound to the count, its text is generated, and `x` is gone again. */
  lemma CountRound(fs: Funcs, x: Name, i: int, s: State)
    requires s.Live() && s.depth <= MAX_RECURSION && s.steps + 2 <= MAX_STEPS && x != "true" && x != "false"
    requires |s.out| + |Decimal.Text(i)| < Yield.MAX_YIELD
    ensures RangeRound(fs, x, i, Report("yield", Var(x, 0), false), s) == s.(out := s.out + Decimal.Text(i), steps := s.steps + 3)
  {
    var t := Push(s, x, Int(i));
    var u := Tick(Tick(t));
    assert Find(t.env, x) == 0 && t.env[0].value == Int(i);
    assert Eval(fs, Var(x, 0), u) == EvalNode(fs, Var(x, 0), Tick(u)) == Lookup(x, Tick(u)) == (Int(i), Tick(u));
    BuiltinRuns(fs, "yield", Var(x, 0), false, Int(i), t);
    var v := Exec(fs, Report("yield", Var(x, 0), false), t);
    assert v == t.(out := t.out + Decimal.Text(i), steps := t.steps + 3);
    assert Pop(v.env) == s.env;
  }

  /** The rounds of a range loop, from its first count to its last. */
  lemma {:induction false} RangeCounts(fs: Funcs, x: Name, lo: int, hi: int, s: State)
    requires s.Live() && s.depth <= MAX_RECURSION && x != "true" && x != "false"
    requires (lo < hi ==> s.steps + 4 * (hi - lo) <= MAX_STEPS) && |s.out| + |Count(lo, hi)| < Yield.MAX_YIELD
    ensures RangeLoop(fs, x, lo, hi, Report("yield", Var(x, 0), false), s) ==
            s.(out := s.out + Count(lo, hi), steps := s.steps + if lo < hi then 4 * (hi - lo) else 0)
    decreases hi - lo
  {
    if lo < hi {
      var body, t := Report("yield", Var(x, 0), false), Tick(s);
      CountRound(fs, x, lo, t);
      var u := RangeRound(fs, x, lo, body, t);
      assert u == s.(out := s.out + Decimal.Text(lo), steps := s.steps + 4);
      Joined(s.out, Decimal.Text(lo), Count(lo + 1, hi));
      assert RangeLoop(fs, x, lo, hi, body, s) == RangeLoop(fs, x, lo + 1, hi, body, u);
      RangeCounts(fs, x, lo + 1, hi, u);
    } else {
      assert s.out + "" == s.out;
    }
  }

  lemma Joined(a: string, b: string, c: string)
    ensures a + b + c == a + (b + c)
  {
  }

  /** `for x in lo..hi { yield(x); }` generates the numbers from lo up to hi, with hi itself exactly
      when the range is inclusive, each once and in order. */
  lemma RangeYields(fs: Funcs, tag: Option<Name>, x: Name, lo: int, hi: int, inclusive: bool, s: State)
    requires s.Live() && s.depth <= MAX_RECURSION && x != "true" && x != "false"
    requires var end := if inclusive then hi + 1 else hi;
      (lo < end ==> s.steps + 3 + 4 * (end - lo) <= MAX_STEPS) && s.steps + 2 <= MAX_STEPS && |s.out| + |Count(lo, end)| < Yield.MAX_YIELD
    ensures var t := Exec(fs, ForRange(tag, x, IntLit(lo), IntLit(hi), inclusive, Report("yield", Var(x, 0), false)), s);
      t.Live() && t.env == s.env && t.out == s.out + Count(lo, if inclusive then hi + 1 else hi)
  {
    var body := Report("yield", Var(x, 0), false);
    var st, end, t := ForRange(tag, x, IntLit(lo), IntLit(hi), inclusive, body), if inclusive then hi + 1 else hi, Tick(s);
    assert Eval(fs, IntLit(lo), t) == EvalNode(fs, IntLit(lo), Tick(t)) == (Int(lo), Tick(t));
    var u := Tick(t);
    assert Eval(fs, IntLit(hi), u) == EvalNode(fs, IntLit(hi), Tick(u)) == (Int(hi), Tick(u));
    assert Exec(fs, st, s) == ExecNode(fs, st, t) == ExecRange(fs, x, IntLit(lo), IntLit(hi), inclusive, body, t);
    assert ExecRange(fs, x, IntLit(lo), IntLit(hi), inclusive, body, t) == RangeTo(fs, x, lo, IntLit(hi), inclusive, body, u);
    assert RangeTo(fs, x, lo, IntLit(hi), inclusive, body, u) == RangeLoop(fs, x, lo, end, body, Tick(u));
    RangeCounts(fs, x, lo, end, Tick(u));
  }

  // ---------- declarations and elements ----------

  /** A declaration binds the folded value of its initialiser, innermost. */
  lemma LetBinds(fs: Funcs, x: Name, e: Expr, consts: Consts, n: int, arrayLen: nat, s: State)
    requires s.Live() && s.steps <= MAX_STEPS && Decides(e, consts, n, Tick(s))
    ensures var t := Exec(fs, VarDecl(x, Some(e), arrayLen), s);
      t == Counted(e, Tick(s)).(env := [Binding(x, Embed(TypeOf(e).value, n))] + s.env)
  {
    var st, t := VarDecl(x, Some(e), arrayLen), Tick(s);
    FolderAgrees(e, consts, fs, t);
    assert Exec(fs, st, s) == ExecNode(fs, st, t) == ExecLet(fs, x, Some(e), arrayLen, t);
  }

  /** An element is read exactly when the index lies inside the array; otherwise it is an error. */
  lemma IndexChecked(fs: Funcs, x: Name, pos: nat, k: int, s: State)
    requires s.Live() && s.depth <= MAX_RECURSION && s.steps + 2 <= MAX_STEPS && x != "true" && x != "false"
    requires Find(s.env, x) < |s.env| && s.env[Find(s.env, x)].value.Arr?
    ensures var elems := s.env[Find(s.env, x)].value.elems;
      var (v, t) := Eval(fs, Index(Var(x, pos), IntLit(k)), s);
      if 0 <= k < |elems| then v == elems[k] && t.Live() else t.status.Failed?
  {
    var base, index, t := Var(x, pos), IntLit(k), Tick(s);
    var u, arr := Tick(t), s.env[Find(s.env, x)].value;
    assert Eval(fs, base, t) == EvalNode(fs, base, u) == Lookup(x, u) == (arr, u);
    assert Eval(fs, index, u) == EvalNode(fs, index, Tick(u)) == (Int(k), Tick(u));
    assert EvalInt(fs, index, u) == (k, Tick(u));
    var e := Index(base, index);
    assert Eval(fs, e, s) == EvalNode(fs, e, t) == EvalIndex(fs, base, index, t) == EvalElement(fs, arr, index, u);
  }
}
