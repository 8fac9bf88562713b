/** What the compile-time interpreter guarantees, and where it departs from its language. */
module ComptimeLaws {
  import opened Ast
  import opened ComptimeSpec

  /** Every run of a program whose `for` loops can all advance comes to an end, although
      functions may recurse and loops may have no exit. */
  lemma AlwaysStops(fs: Funcs, body: List<Stmt>)
    requires FuncsTraits(fs).advances && ListTraits(body).advances
    ensures !Interpret(fs, body).status.Hung?
  {
  }

  /** The one exception does hang. */
  lemma EmptyForHangs(fs: Funcs, s: State)
    requires s.Live() && s.steps <= MAX_STEPS && s.depth <= MAX_RECURSION
    ensures Exec(fs, For(None, None, None, None, None), s).status.Hung?
  {
    assert ExecNode(fs, For(None, None, None, None, None), Tick(s)) == ForLoop(fs, None, None, None, Tick(s));
  }

  // ---------- assignment ----------

  /** All bindings but the `k`th are as they were. */
  ghost predicate OnlyChanges(env: Env, later: Env, k: nat) {
    |later| == |env| && forall j :: 0 <= j < |env| && j != k ==> later[j] == env[j]
  }

  /** An assignment gives the innermost variable of that name the value of the right side, and
      changes nothing else. */
  lemma AssignmentIsLocal(fs: Funcs, x: Name, pos: nat, r: Expr, s: State)
    requires s.depth <= MAX_RECURSION && s.Live()
    ensures var t := Exec(fs, ExprStmt(Binary(Set, Var(x, pos), r)), s);
      var (v, _) := Eval(fs, r, Tick(s));
      t.Live() ==>
        var k := Find(s.env, x);
        && k < |s.env| && OnlyChanges(s.env, t.env, k) && t.env[k] == Binding(x, v)
  {
    var t := Tick(s);
    if t.Live() {
      var e := Binary(Set, Var(x, pos), r);
      assert Exec(fs, ExprStmt(e), s) == ExecNode(fs, ExprStmt(e), t) == ExecExpr(fs, e, t) == Assign(fs, Var(x, pos), r, t);
    }
  }

  /** An assignment to an element changes that element of that variable and nothing else. */
  lemma ElementAssignmentIsLocal(fs: Funcs, x: Name, pos: nat, i: Expr, r: Expr, s: State)
    requires s.depth <= MAX_RECURSION && s.Live()
    ensures var t := Exec(fs, ExprStmt(Binary(Set, Index(Var(x, pos), i), r)), s);
      var (j, s1) := EvalInt(fs, i, Tick(s));
      var (v, _) := Eval(fs, r, s1);
      t.Live() ==>
        var k := Find(s.env, x);
        && s1.Live() && k < |s.env| && OnlyChanges(s.env, t.env, k) && s.env[k].value.Arr? && 0 <= j < |s.env[k].value.elems|
        && t.env[k].value.Arr? && |t.env[k].value.elems| == |s.env[k].value.elems|
        && forall n :: 0 <= n < |s.env[k].value.elems| ==>
             t.env[k].value.elems[n] == if n == j then v else s.env[k].value.elems[n]
  {
    var t := Tick(s);
    if t.Live() {
      var target := Index(Var(x, pos), i);
      var e := Binary(Set, target, r);
      assert Exec(fs, ExprStmt(e), s) == ExecNode(fs, ExprStmt(e), t) == ExecExpr(fs, e, t) == Assign(fs, target, r, t) ==
             AssignIndex(fs, target, r, t);
      var (j, s1) := EvalInt(fs, i, t);
      var k := Find(s.env, x);
      assert k < |s.env| && s.env[k].value.Arr? ==> AssignIndex(fs, target, r, t) == AssignAt(fs, k, i, r, t);
      assert s1.Live() && k < |s.env| && s.env[k].value.Arr? ==> AssignAt(fs, k, i, r, t) == AssignElement(fs, k, j, r, s1);
    }
  }

  // ---------- calls ----------

  /** A call to a compile-time function depends on nothing its caller has declared. */
  lemma CallIgnoresCaller(fs: Funcs, f: Name, pos: nat, args: List<Expr>, s: State, env: Env)
    requires s.depth <= MAX_RECURSION && !IsBuiltin(f)
    ensures var e := Call(Var(f, pos), args, false);
      var (v, t) := Eval(fs, e, s);
      Eval(fs, e, s.(env := env)) == (v, t.(env := env))
  {
    var t, u := Tick(s), Tick(s.(env := env));
    assert u == t.(env := env);
    var e := Call(Var(f, pos), args, false);
    match FindFunc(fs, f) {
      case None =>
      case Some(found) =>
        if t.Live() {
          assert EvalNode(fs, e, t) == CallFn(fs, found, args, t);
          assert EvalNode(fs, e, u) == CallFn(fs, found, args, u);
          CalleeIgnoresCaller(fs, found, args, t, env);
        }
    }
  }

  lemma CalleeIgnoresCaller(fs: Funcs, f: Func, args: List<Expr>, s: State, env: Env)
    requires s.depth <= MAX_RECURSION && s.Live() && Covered(fs, f.body)
    ensures var (v, t) := CallFn(fs, f, args, s); CallFn(fs, f, args, s.(env := env)) == (v, t.(env := env))
  {
    if s.depth < MAX_RECURSION {
      assert s.(env := env).(env := [], depth := s.depth + 1) == s.(env := [], depth := s.depth + 1);
    }
  }

  function Drop(args: List<Expr>, n: nat): List<Expr> {
    if n == 0 || args.Nil? then args else Drop(args.tail, n - 1)
  }

  /** The arguments are bound one after the other, each in the scope the ones before it left. */
  lemma {:induction false} BindInTurn(fs: Funcs, params: seq<Name>, args: List<Expr>, i: nat, s: State)
    requires s.depth <= MAX_RECURSION && s.Live() && i <= |params|
    ensures var t := Bind(fs, params[..i], args, s);
      Bind(fs, params, args, s) == if t.Live() then Bind(fs, params[i..], Drop(args, i), t) else t
    decreases i
  {
    if i == 0 {
      assert params[..0] == [] && params[0..] == params;
    } else if args.Cons? {
      var (v, t) := Eval(fs, args.head, s);
      assert params[..i][1..] == params[1..][..i - 1] && params[..i][0] == params[0];
      if t.Live() {
        BindInTurn(fs, params[1..], args.tail, i - 1, Push(t, params[0], v));
        assert params[1..][i - 1..] == params[i..];
      }
    }
  }

  /** Bound parameters stand in the scope innermost last, on top of what was there. */
  lemma {:induction false} BoundNames(fs: Funcs, params: seq<Name>, args: List<Expr>, s: State)
    requires s.depth <= MAX_RECURSION && s.Live() && (params == [] || Drop(args, |params| - 1).Cons?)
    ensures var t := Bind(fs, params, args, s);
      t.Live() ==>
        && |t.env| == |s.env| + |params| && t.env[|params|..] == s.env
        && forall k :: 0 <= k < |params| ==> t.env[k].name == params[|params| - 1 - k]
    decreases |params|
  {
    if params != [] {
      var n := |params|;
      assert args.Cons?;
      var (v, u) := Eval(fs, args.head, s);
      if u.Live() {
        var w := Push(u, params[0], v);
        BoundNames(fs, params[1..], args.tail, w);
        var t := Bind(fs, params[1..], args.tail, w);
        if t.Live() {
          assert t.env[n - 1..] == w.env && t.env[n..] == t.env[n - 1..][1..];
          assert t.env[n - 1] == t.env[n - 1..][0];
          forall k | 0 <= k < n ensures t.env[k].name == params[n - 1 - k] {
            if k < n - 1 {
              assert params[1..][n - 2 - k] == params[n - 1 - k];
            }
          }
        }
      }
    }
  }

  /** What a variable as the argument at position `i` means: never the caller's variable.  It is
      the last parameter of that name among the ones before it, and an error if there is none. */
  lemma VariableArgument(fs: Funcs, f: Func, args: List<Expr>, i: nat, s: State)
    requires s.depth < MAX_RECURSION && s.Live() && Covered(fs, f.body)
    requires i < |f.params| && Drop(args, i).Cons? && Drop(args, i).head.Var?
    requires var x := Drop(args, i).head.name; x != "true" && x != "false"
    ensures var e := Drop(args, i).head;
      var t := Bind(fs, f.params[..i], args, s.(env := [], depth := s.depth + 1));
      && (e.name !in f.params[..i] ==> !CallFn(fs, f, args, s).1.Live())
      && (e.name in f.params[..i] && t.Live() && t.steps <= MAX_STEPS ==>
           exists k :: 0 <= k < i == |t.env| && f.params[i - 1 - k] == e.name && (forall j :: i - 1 - k < j < i ==> f.params[j] != e.name)
             && Eval(fs, e, t) == (t.env[k].value, Tick(t)))
  {
    var e, inner := Drop(args, i).head, s.(env := [], depth := s.depth + 1);
    var t := Bind(fs, f.params[..i], args, inner);
    if e.name !in f.params[..i] {
      UnboundArgumentFails(fs, f, args, i, s);
    } else if t.Live() {
      ParametersBound(fs, f.params[..i], args, inner);
      ParameterRead(fs, f.params[..i], e, t);
    }
  }

  lemma UnboundArgumentFails(fs: Funcs, f: Func, args: List<Expr>, i: nat, s: State)
    requires s.depth < MAX_RECURSION && s.Live() && Covered(fs, f.body)
    requires i < |f.params| && Drop(args, i).Cons? && Drop(args, i).head.Var?
    requires var x := Drop(args, i).head.name; x != "true" && x != "false" && x !in f.params[..i]
    ensures !CallFn(fs, f, args, s).1.Live()
  {
    var inner := s.(env := [], depth := s.depth + 1);
    var t := Bind(fs, f.params[..i], args, inner);
    BindInTurn(fs, f.params, args, i, inner);
    if t.Live() {
      ParametersBound(fs, f.params[..i], args, inner);
      LookupVariable(fs, Drop(args, i).head, t);
      BindFails(fs, f.params[i..], Drop(args, i), t);
    }
    assert !Bind(fs, f.params, args, inner).Live();
    assert RunCallee(fs, f, args, inner) == (Null, Bind(fs, f.params, args, inner));
  }

  lemma ParametersBound(fs: Funcs, params: seq<Name>, args: List<Expr>, s: State)
    requires s.depth <= MAX_RECURSION && s.Live() && s.env == [] && Drop(args, |params|).Cons?
    ensures var t := Bind(fs, params, args, s);
      t.Live() ==> |t.env| == |params| && forall k :: 0 <= k < |params| ==> t.env[k].name == params[|params| - 1 - k]
  {
    if params != [] {
      DropEarlier(args, |params|);
    }
    BoundNames(fs, params, args, s);
  }

  /** What is read among bound parameters is the last one of that name. */
  lemma ParameterRead(fs: Funcs, params: seq<Name>, e: Expr, s: State)
    requires s.Live() && s.depth <= MAX_RECURSION && e.Var? && e.name in params && e.name != "true" && e.name != "false"
    requires |s.env| == |params| && forall j :: 0 <= j < |params| ==> s.env[j].name == params[|params| - 1 - j]
    ensures s.steps <= MAX_STEPS ==>
      exists k :: 0 <= k < |params| && params[|params| - 1 - k] == e.name
        && (forall j :: |params| - 1 - k < j < |params| ==> params[j] != e.name) && Eval(fs, e, s) == (s.env[k].value, Tick(s))
  {
    var k, i := Find(s.env, e.name), |params|;
    var l :| 0 <= l < i && params[l] == e.name;
    assert s.env[i - 1 - l].name == e.name;
    LookupVariable(fs, e, s);
    assert params[i - 1 - k] == e.name;
    forall j | i - 1 - k < j < i ensures params[j] != e.name {
      assert s.env[i - 1 - j].name == params[j];
    }
  }

  lemma {:induction false} DropEarlier(args: List<Expr>, i: nat)
    requires i > 0 && Drop(args, i).Cons?
    ensures Drop(args, i - 1).Cons?
  {
    if i > 1 && args.Cons? {
      DropEarlier(args.tail, i - 1);
    }
  }

  lemma LookupVariable(fs: Funcs, e: Expr, s: State)
    requires s.depth <= MAX_RECURSION && s.Live() && e.Var? && e.name != "true" && e.name != "false"
    ensures var k := Find(s.env, e.name);
      if k < |s.env| then s.steps <= MAX_STEPS ==> Eval(fs, e, s) == (s.env[k].value, Tick(s)) else !Eval(fs, e, s).1.Live()
  {
    var t := Tick(s);
    if t.Live() {
      assert Eval(fs, e, s) == EvalNode(fs, e, t) == Lookup(e.name, t);
    }
  }

  lemma BindFails(fs: Funcs, params: seq<Name>, args: List<Expr>, s: State)
    requires s.depth <= MAX_RECURSION && s.Live() && params != [] && args.Cons?
    requires !Eval(fs, args.head, s).1.Live()
    ensures !Bind(fs, params, args, s).Live()
  {
  }

  /** No variable is read: not counting what calls to compile-time functions do, which have
      scopes of their own. */
  predicate Closed(e: Expr)
    decreases e
  {
    match e
    case Var(x, _) => x == "true" || x == "false"
    case Binary(_, l, r) => Closed(l) && Closed(r)
    case Unary(_, o) => Closed(o)
    case Call(callee, args, _) => callee.Var? && IsBuiltin(callee.name) && args.Cons? ==> Closed(args.head)
    case Index(a, i) => Closed(a) && Closed(i)
    case Cast(o) => Closed(o)
    case _ => true
  }

  /** An argument that mentions no variable means what it means to the caller. */
  lemma {:induction false} ClosedArgument(fs: Funcs, e: Expr, s: State, env: Env)
    requires s.depth <= MAX_RECURSION && Closed(e)
    ensures var (v, t) := Eval(fs, e, s); Eval(fs, e, s.(env := env)) == (v, t.(env := env))
    decreases e, 1
  {
    var t, u := Tick(s), Tick(s.(env := env));
    assert u == t.(env := env);
    if t.Live() {
      match e
      case IntLit(_) =>
      case CharLit(_) =>
      case StrLit(_, _) =>
      case Var(x, _) =>
        assert EvalNode(fs, e, t) == Lookup(x, t) && EvalNode(fs, e, u) == Lookup(x, u);
      case Binary(op, l, r) =>
        ClosedOperands(fs, e, t, env);
        assert EvalNode(fs, e, t) == EvalBinary(fs, op, l, r, t) && EvalNode(fs, e, u) == EvalBinary(fs, op, l, r, u);
      case Unary(op, o) =>
        ClosedArgument(fs, o, t, env);
        assert EvalNode(fs, e, t) == EvalUnary(fs, op, o, t) && EvalNode(fs, e, u) == EvalUnary(fs, op, o, u);
      case Call(callee, args, stringArg) => ClosedCall(fs, e, t, env);
      case Index(a, i) =>
        ClosedIndex(fs, e, t, env);
        assert EvalNode(fs, e, t) == EvalIndex(fs, a, i, t) && EvalNode(fs, e, u) == EvalIndex(fs, a, i, u);
      case Cast(o) => ClosedArgument(fs, o, t, env);
    }
  }

  lemma {:induction false} ClosedOperands(fs: Funcs, e: Expr, s: State, env: Env)
    requires s.depth <= MAX_RECURSION && s.Live() && e.Binary? && Closed(e)
    ensures var (v, t) := EvalBinary(fs, e.op, e.left, e.right, s);
      EvalBinary(fs, e.op, e.left, e.right, s.(env := env)) == (v, t.(env := env))
    decreases e, 0
  {
    var Binary(op, l, r) := e;
    ClosedArgument(fs, l, s, env);
    var (a, t) := Eval(fs, l, s);
    if t.Live() {
      ClosedArgument(fs, r, t, env);
      var u := t.(env := env);
      assert EvalRight(fs, op, a, r, u) == (EvalRight(fs, op, a, r, t).0, EvalRight(fs, op, a, r, t).1.(env := env));
    }
  }

  lemma {:induction false} ClosedIndex(fs: Funcs, e: Expr, s: State, env: Env)
    requires s.depth <= MAX_RECURSION && s.Live() && e.Index? && Closed(e)
    ensures var (v, t) := EvalIndex(fs, e.base, e.index, s); EvalIndex(fs, e.base, e.index, s.(env := env)) == (v, t.(env := env))
    decreases e, 0
  {
    var Index(a, i) := e;
    ClosedArgument(fs, a, s, env);
    var (arr, t) := Eval(fs, a, s);
    if t.Live() {
      ClosedArgument(fs, i, t, env);
      var u := t.(env := env);
      assert EvalElement(fs, arr, i, u) == (EvalElement(fs, arr, i, t).0, EvalElement(fs, arr, i, t).1.(env := env));
    }
  }

  lemma {:induction false} ClosedCall(fs: Funcs, e: Expr, s: State, env: Env)
    requires s.depth <= MAX_RECURSION && s.Live() && e.Call? && Closed(e)
    ensures var (v, t) := EvalNode(fs, e, s); EvalNode(fs, e, s.(env := env)) == (v, t.(env := env))
    decreases e, 0
  {
    var u := s.(env := env);
    if e.callee.Var? {
      var f := e.callee.name;
      if IsBuiltin(f) {
        if e.args.Cons? {
          ClosedArgument(fs, e.args.head, s, env);
        }
        var (v, t) := Argument(fs, e.args, e.stringArg, s);
        assert Argument(fs, e.args, e.stringArg, u) == (v, t.(env := env));
        assert Builtin(fs, f, e.args, e.stringArg, u) == Builtin(fs, f, e.args, e.stringArg, s).(env := env);
      } else if FindFunc(fs, f).Some? {
        var found := FindFunc(fs, f).value;
        CalleeIgnoresCaller(fs, found, e.args, s, env);
        assert EvalNode(fs, e, s) == CallFn(fs, found, e.args, s);
        assert EvalNode(fs, e, u) == CallFn(fs, found, e.args, u);
      }
    }
  }

  // ---------- the step limit ----------

  /** In a program without `loop` the step limit is always an error: what is accepted kept to it. */
  lemma StepLimitReported(fs: Funcs, body: List<Stmt>)
    requires FuncsTraits(fs).limited && ListTraits(body).limited
    ensures var t := Interpret(fs, body);
      t.steps > MAX_STEPS + 1 ==> !t.Live() && (FuncsTraits(fs).advances && ListTraits(body).advances ==> t.status.Failed?)
  {
  }

  /** A `loop` is never left alive but through the step limit. */
  lemma {:induction false} LoopLeftPastLimit(fs: Funcs, body: Stmt, s: State)
    requires s.depth <= MAX_RECURSION && s.Live()
    ensures var t := EndlessLoop(fs, body, s); t.Live() ==> t.steps > MAX_STEPS + 1
    decreases Budget(s)
  {
    if s.steps <= MAX_STEPS {
      var t := Exec(fs, body, s.(steps := s.steps + 1));
      if t.Live() {
        LoopLeftPastLimit(fs, body, t);
      }
    }
  }

  /** So nothing that is accepted comes behind a `loop`. */
  lemma NothingAfterLoop(fs: Funcs, tag: Option<Name>, body: Stmt, rest: List<Stmt>, s: State)
    requires s.depth <= MAX_RECURSION && s.Live()
    ensures var t := ExecList(fs, Cons(Loop(tag, body), rest), s); t.Live() ==> rest.Nil? && t.steps > MAX_STEPS + 1
  {
    var st, t := Loop(tag, body), Tick(s);
    var u := Exec(fs, st, s);
    assert ExecList(fs, Cons(st, rest), s) == ExecList(fs, rest, u);
    if t.Live() {
      assert u == ExecNode(fs, st, t) == EndlessLoop(fs, body, t);
      LoopLeftPastLimit(fs, body, t);
    }
    if rest.Cons? {
      assert ExecList(fs, rest, u) == if u.Live() then ExecList(fs, rest.tail, Exec(fs, rest.head, u)) else u;
    }
  }

  /** It may pass the limit silently: from an odd step count, rounds of an empty body use two
      steps each and meet the limit at the check that does not report it. */
  lemma {:induction false} EndlessLoopRunsOut(fs: Funcs, s: State)
    requires s.Live() && s.depth <= MAX_RECURSION && s.steps % 2 == 1 && s.steps <= MAX_STEPS + 1
    ensures EndlessLoop(fs, Block(Nil), s) == s.(steps := MAX_STEPS + 2)
    decreases MAX_STEPS + 1 - s.steps
  {
    if s.steps <= MAX_STEPS {
      var s1 := s.(steps := s.steps + 1);
      var s2 := s1.(steps := s.steps + 2);
      assert Exec(fs, Block(Nil), s1) == ExecNode(fs, Block(Nil), s2) == ExecList(fs, Nil, s2) == s2;
      EndlessLoopRunsOut(fs, s1.(steps := s.steps + 2));
    }
  }

  lemma EndlessLoopSilent(fs: Funcs, tag: Option<Name>, body: Stmt, s: State)
    requires s.Live() && s.depth <= MAX_RECURSION && s.steps % 2 == 0 && s.steps <= MAX_STEPS && body == Block(Nil)
    ensures Exec(fs, Loop(tag, body), s) == s.(steps := MAX_STEPS + 2)
  {
    var t := Tick(s);
    EndlessLoopRunsOut(fs, t);
    assert Exec(fs, Loop(tag, body), s) == ExecNode(fs, Loop(tag, body), t) == EndlessLoop(fs, body, t);
  }

  /** The program `loop {}` is accepted, and generates nothing. */
  lemma EndlessLoopAccepted(fs: Funcs, tag: Option<Name>, body: Stmt)
    requires body == Block(Nil)
    ensures Interpret(fs, Cons(Loop(tag, body), Nil)) == START.(steps := 1_000_002)
  {
    var st := Loop(tag, body);
    EndlessLoopSilent(fs, tag, body, START);
    assert ExecList(fs, Cons(st, Nil), START) == ExecList(fs, Nil, Exec(fs, st, START));
  }

  // ---------- the range loop ----------

  ghost predicate SameNames(env: Env, later: Env) {
    |later| == |env| && forall i :: 0 <= i < |env| ==> later[i].name == env[i].name
  }

  lemma ExtendsWithin(env: Env, later: Env)
    requires Extends(env, later) && |later| == |env|
    ensures SameNames(env, later)
  {
    forall i | 0 <= i < |env| ensures later[i].name == env[i].name {
      assert NameAt(later, |env| - i) == NameAt(env, |env| - i);
    }
  }

  /** If the body declares nothing outside calls, a range loop leaves the names in scope as they
      were, for every range and however it ends. */
  lemma StillRangeRestoresScope(fs: Funcs, x: Name, i: int, end: int, body: Stmt, s: State)
    requires s.depth <= MAX_RECURSION && TraitsOf(body).still
    ensures SameNames(s.env, RangeLoop(fs, x, i, end, body, s).env)
  {
    ExtendsWithin(s.env, RangeLoop(fs, x, i, end, body, s).env);
  }

  /** The loop variables of the rounds `i` to `end - 1`, the last one innermost. */
  function LeftBehind(x: Name, i: int, end: int): Env
    decreases end - i
  {
    if i >= end then [] else LeftBehind(x, i + 1, end) + [Binding(x, Int(i))]
  }

  /** If the body declares a name, the pop takes that name and leaves the loop variable behind,
      round after round. */
  lemma {:induction false} RangeVariablesStay(fs: Funcs, x: Name, y: Name, i: int, end: int, s: State)
    requires s.Live() && s.depth <= MAX_RECURSION && (i < end ==> s.steps + 2 * (end - i) <= MAX_STEPS)
    ensures var t := RangeLoop(fs, x, i, end, VarDecl(y, None, 0), s); t.Live() && t.env == LeftBehind(x, i, end) + s.env
    decreases end - i
  {
    if i < end {
      var s1 := Push(Tick(s), x, Int(i));
      var body := VarDecl(y, None, 0);
      var s2 := Push(Tick(s1), y, Null);
      assert Exec(fs, body, s1) == ExecNode(fs, body, Tick(s1)) == ExecLet(fs, y, None, 0, Tick(s1)) == s2;
      assert Pop(s2.env) == s1.env;
      var s3 := s2.(env := s1.env);
      assert RangeRound(fs, x, i, body, Tick(s)) == s3;
      RangeVariablesStay(fs, x, y, i + 1, end, s3);
      assert LeftBehind(x, i + 1, end) + s3.env == LeftBehind(x, i, end) + s.env;
    } else {
      assert [] + s.env == s.env;
    }
  }
}
