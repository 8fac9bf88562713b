/** What a statement does not assign, it does not change; and what follows for declared arrays. */
module ComptimeFrame {
  import opened Ast
  import opened ComptimeSpec

  /** A variable, or one element of an array variable. */
  datatype Target = Target(name: Name, element: Option<nat>)

  /** The target belongs to the binding `place`, counted from the outermost one, and holds `value`. */
  datatype Slot = Slot(target: Target, place: nat, value: Value)

  /** The binding is the innermost of its name. */
  ghost predicate Has(env: Env, c: Slot) {
    && 1 <= c.place <= |env| && Find(env, c.target.name) == |env| - c.place
    && var v := env[|env| - c.place].value;
      match c.target.element
      case None => v == c.value
      case Some(k) => v.Arr? && k < |v.elems| && v.elems[k] == c.value
  }

  /** The expression is no assignment to the target; an index that is no literal could be any. */
  predicate SparesIn(e: Expr, x: Target) {
    match e
    case Binary(Set, Var(y, _), _) => y != x.name
    case Binary(Set, Index(Var(y, _), i), _) => y != x.name || (i.IntLit? && x.element.Some? && i.value != x.element.value)
    case _ => true
  }

  /** Nowhere in the statement is the target assigned, or its name declared anew. */
  predicate Spares(st: Stmt, x: Target)
    decreases st
  {
    match st
    case VarDecl(y, _, _) => y != x.name
    case ExprStmt(e) => SparesIn(e, x)
    case Block(ss) => AllSpare(ss, x)
    case If(_, t, e) => Spares(t, x) && OptSpares(e, x)
    case While(_, _, body) => Spares(body, x)
    case Loop(_, body) => Spares(body, x)
    case For(_, start, _, step, body) => OptSpares(start, x) && StepSpares(step, x) && OptSpares(body, x)
    case ForRange(_, y, _, _, _, body) => y != x.name && Spares(body, x)
    case _ => true
  }

  predicate OptSpares(st: Option<Stmt>, x: Target)
    decreases st
  {
    st.Some? ==> Spares(st.value, x)
  }

  predicate StepSpares(step: Option<Expr>, x: Target) {
    step.Some? ==> SparesIn(step.value, x)
  }

  predicate AllSpare(ss: List<Stmt>, x: Target)
    decreases ss
  {
    ss.Cons? ==> Spares(ss.head, x) && AllSpare(ss.tail, x)
  }

  // ---------- single bindings ----------

  lemma PushHas(s: State, y: Name, w: Value, c: Slot)
    requires Has(s.env, c) && y != c.target.name
    ensures Has(Push(s, y, w).env, c)
  {
    var env, k := Push(s, y, w).env, |s.env| - c.place;
    assert env[k + 1] == s.env[k];
    assert forall j :: 1 <= j < k + 1 ==> env[j] == s.env[j - 1];
    FindIs(env, c.target.name, k + 1);
  }

  lemma PopHas(env: Env, c: Slot)
    requires Has(env, c) && c.place < |env|
    ensures Has(Pop(env), c)
  {
    assert Find(env, c.target.name) == 1 + Find(env[1..], c.target.name);
  }

  lemma RebindHas(s: State, k: nat, w: Value, c: Slot)
    requires Has(s.env, c) && k < |s.env|
    requires k == |s.env| - c.place ==>
               c.target.element.Some? && w.Arr? && c.target.element.value < |w.elems| && w.elems[c.target.element.value] == c.value
    ensures Has(Rebind(s, k, w).env, c)
  {
    var env, i := Rebind(s, k, w).env, |s.env| - c.place;
    assert forall j :: 0 <= j < |env| ==> env[j].name == s.env[j].name;
    FindIs(env, c.target.name, i);
  }

  // ---------- assignments ----------

  lemma VariableKeeps(fs: Funcs, l: Expr, r: Expr, c: Slot, s: State)
    requires s.Live() && s.depth <= MAX_RECURSION && Has(s.env, c) && l.Var? && l.name != c.target.name
    ensures Has(Assign(fs, l, r, s).env, c)
  {
    var i := Find(s.env, l.name);
    var (v, t) := Eval(fs, r, s);
    if i < |s.env| && t.Live() {
      RebindHas(t, i, v, c);
    }
  }

  lemma LiteralIndex(fs: Funcs, e: Expr, s: State)
    requires s.Live() && s.depth <= MAX_RECURSION && EvalInt(fs, e, s).1.Live()
    ensures e.IntLit? ==> EvalInt(fs, e, s).0 == e.value
  {
    assert Eval(fs, e, s) == EvalNode(fs, e, Tick(s));
  }

  lemma ElementKeeps(fs: Funcs, l: Expr, r: Expr, c: Slot, s: State)
    requires s.Live() && s.depth <= MAX_RECURSION && Has(s.env, c) && l.Index? && SparesIn(Binary(Set, l, r), c.target)
    ensures Has(AssignIndex(fs, l, r, s).env, c)
  {
    var Index(a, e) := l;
    if a.Var? {
      var i := Find(s.env, a.name);
      if i < |s.env| && s.env[i].value.Arr? {
        var (j, s1) := EvalInt(fs, e, s);
        assert AssignIndex(fs, l, r, s) == AssignAt(fs, i, e, r, s);
        if s1.Live() {
          LiteralIndex(fs, e, s);
          assert AssignAt(fs, i, e, r, s) == AssignElement(fs, i, j, r, s1);
          StoredElementKeeps(fs, i, j, r, c, s1);
        }
      }
    }
  }

  lemma StoredElementKeeps(fs: Funcs, i: nat, j: int, r: Expr, c: Slot, s: State)
    requires s.Live() && s.depth <= MAX_RECURSION && Has(s.env, c) && i < |s.env| && s.env[i].value.Arr?
    requires i == |s.env| - c.place ==> c.target.element.Some? && j != c.target.element.value
    ensures Has(AssignElement(fs, i, j, r, s).env, c)
  {
    var (v, t) := Eval(fs, r, s);
    var elems := s.env[i].value.elems;
    if 0 <= j < |elems| && t.Live() {
      RebindHas(t, i, Arr(elems[j := v]), c);
    }
  }

  lemma ExprKeeps(fs: Funcs, e: Expr, c: Slot, s: State)
    requires s.Live() && s.depth <= MAX_RECURSION && Has(s.env, c) && SparesIn(e, c.target)
    ensures Has(ExecExpr(fs, e, s).env, c)
  {
    if e.Binary? && e.op.Set? {
      assert ExecExpr(fs, e, s) == Assign(fs, e.left, e.right, s);
      if e.left.Var? {
        VariableKeeps(fs, e.left, e.right, c, s);
      } else if e.left.Index? {
        ElementKeeps(fs, e.left, e.right, c, s);
      }
    }
  }

  lemma LetKeeps(fs: Funcs, y: Name, init: Option<Expr>, n: nat, c: Slot, s: State)
    requires s.Live() && s.depth <= MAX_RECURSION && Has(s.env, c) && y != c.target.name
    ensures Has(ExecLet(fs, y, init, n, s).env, c)
  {
    if init.None? {
      PushHas(s, y, Initial(n), c);
    } else {
      var (v, t) := Eval(fs, init.value, s);
      if t.Live() {
        PushHas(t, y, v, c);
      }
    }
  }

  // ---------- statements ----------

  /** A slot that a statement spares holds the same value afterwards: whatever the statement
      calls, declares or repeats, and however it ends. */
  lemma {:induction false} StatementKeeps(fs: Funcs, st: Stmt, c: Slot, s: State)
    requires s.depth <= MAX_RECURSION && Has(s.env, c) && Spares(st, c.target)
    ensures Has(Exec(fs, st, s).env, c)
    decreases Budget(s), 0
  {
    var t := Tick(s);
    if s.Live() && t.Live() {
      NodeKeeps(fs, st, c, t);
    }
  }

  lemma {:induction false} NodeKeeps(fs: Funcs, st: Stmt, c: Slot, s: State)
    requires s.depth <= MAX_RECURSION && s.Live() && Has(s.env, c) && Spares(st, c.target)
    ensures Has(ExecNode(fs, st, s).env, c)
    decreases Budget(s), 4
  {
    match st
    case VarDecl(y, init, n) => LetKeeps(fs, y, init, n, c, s);
    case ExprStmt(e) => ExprKeeps(fs, e, c, s);
    case If(test, t, e) => IfKeeps(fs, test, t, e, c, s);
    case Block(ss) => ListKeeps(fs, ss, c, s);
    case While(_, guard, body) => WhileKeeps(fs, guard, body, c, s);
    case Loop(_, body) => EndlessKeeps(fs, body, c, s);
    case For(_, start, test, step, body) =>
      if start.Some? {
        StatementKeeps(fs, start.value, c, s);
      }
      ForKeeps(fs, test, step, body, c, if start.Some? then Exec(fs, start.value, s) else s);
    case ForRange(_, y, lo, hi, inclusive, body) => RangeToKeeps(fs, y, lo, hi, inclusive, body, c, s);
    case _ =>
  }

  lemma {:induction false} RangeToKeeps(fs: Funcs, y: Name, lo: Expr, hi: Expr, inclusive: bool, body: Stmt, c: Slot, s: State)
    requires s.depth <= MAX_RECURSION && s.Live() && Has(s.env, c) && y != c.target.name && Spares(body, c.target)
    ensures Has(ExecRange(fs, y, lo, hi, inclusive, body, s).env, c)
    decreases Budget(s), 2
  {
    var (a, t) := EvalInt(fs, lo, s);
    var (b, u) := EvalInt(fs, hi, t);
    var end := if inclusive then b + 1 else b;
    RangeKeeps(fs, y, a, end, body, c, u);
    assert RangeTo(fs, y, a, hi, inclusive, body, t) == RangeLoop(fs, y, a, end, body, u);
    assert ExecRange(fs, y, lo, hi, inclusive, body, s) == RangeTo(fs, y, a, hi, inclusive, body, t);
  }

  lemma {:induction false} ListKeeps(fs: Funcs, ss: List<Stmt>, c: Slot, s: State)
    requires s.depth <= MAX_RECURSION && Has(s.env, c) && AllSpare(ss, c.target)
    ensures Has(ExecList(fs, ss, s).env, c)
    decreases Budget(s), 1, ss
  {
    if ss.Cons? && s.Live() {
      StatementKeeps(fs, ss.head, c, s);
      ListKeeps(fs, ss.tail, c, Exec(fs, ss.head, s));
    }
  }

  lemma {:induction false} BranchKeeps(fs: Funcs, body: Stmt, c: Slot, s: State)
    requires s.depth <= MAX_RECURSION && s.Live() && Has(s.env, c) && Spares(body, c.target)
    ensures Has(ExecBranch(fs, body, s).env, c)
    decreases Budget(s), 2
  {
    if body.Block? {
      ListKeeps(fs, body.stmts, c, s);
    } else {
      StatementKeeps(fs, body, c, s);
    }
  }

  lemma {:induction false} IfKeeps(fs: Funcs, test: Expr, thenBody: Stmt, elseBody: Option<Stmt>, c: Slot, s: State)
    requires s.depth <= MAX_RECURSION && s.Live() && Has(s.env, c) && Spares(thenBody, c.target) && OptSpares(elseBody, c.target)
    ensures Has(ExecIf(fs, test, thenBody, elseBody, s).env, c)
    decreases Budget(s), 3
  {
    var (v, t) := Eval(fs, test, s);
    if t.Live() {
      BranchKeeps(fs, thenBody, c, t);
      if elseBody.Some? {
        BranchKeeps(fs, elseBody.value, c, t);
      }
    }
  }

  lemma {:induction false} WhileKeeps(fs: Funcs, guard: Expr, body: Stmt, c: Slot, s: State)
    requires s.depth <= MAX_RECURSION && Has(s.env, c) && Spares(body, c.target)
    ensures Has(WhileLoop(fs, guard, body, s).env, c)
    decreases Budget(s), 2
  {
    if s.Live() {
      WhileRoundKeeps(fs, guard, body, c, s);
      var (on, t) := WhileRound(fs, guard, body, s);
      if on && t.Live() {
        WhileKeeps(fs, guard, body, c, t);
      }
    }
  }

  lemma {:induction false} WhileRoundKeeps(fs: Funcs, guard: Expr, body: Stmt, c: Slot, s: State)
    requires s.depth <= MAX_RECURSION && s.Live() && Has(s.env, c) && Spares(body, c.target)
    ensures Has(WhileRound(fs, guard, body, s).1.env, c)
    decreases Budget(s), 1
  {
    var (v, t) := Eval(fs, guard, s);
    if Truthy(v) {
      StatementKeeps(fs, body, c, t);
    }
  }

  lemma {:induction false} EndlessKeeps(fs: Funcs, body: Stmt, c: Slot, s: State)
    requires s.depth <= MAX_RECURSION && Has(s.env, c) && Spares(body, c.target)
    ensures Has(EndlessLoop(fs, body, s).env, c)
    decreases Budget(s), 1
  {
    if s.Live() && s.steps <= MAX_STEPS {
      var t := s.(steps := s.steps + 1);
      StatementKeeps(fs, body, c, t);
      EndlessKeeps(fs, body, c, Exec(fs, body, t));
    }
  }

  lemma {:induction false} ForKeeps(fs: Funcs, test: Option<Expr>, step: Option<Expr>, body: Option<Stmt>, c: Slot, s: State)
    requires s.depth <= MAX_RECURSION && Has(s.env, c) && StepSpares(step, c.target) && OptSpares(body, c.target)
    ensures Has(ForLoop(fs, test, step, body, s).env, c)
    decreases Budget(s), 2
  {
    if s.Live() && (test.Some? || step.Some? || body.Some?) {
      var (v, t) := if test.Some? then Eval(fs, test.value, s) else (Bool(true), s);
      if Truthy(v) {
        RestKeeps(fs, step, body, c, t);
        var u := ForRest(fs, step, body, t);
        assert ForRound(fs, test, step, body, s) == (true, u);
        if u.Live() {
          ForKeeps(fs, test, step, body, c, u);
        }
      }
    }
  }

  lemma {:induction false} RestKeeps(fs: Funcs, step: Option<Expr>, body: Option<Stmt>, c: Slot, s: State)
    requires s.depth <= MAX_RECURSION && Has(s.env, c) && StepSpares(step, c.target) && OptSpares(body, c.target)
    ensures Has(ForRest(fs, step, body, s).env, c)
    decreases Budget(s), 1
  {
    if body.Some? {
      StatementKeeps(fs, body.value, c, s);
    }
    if step.Some? {
      StatementKeeps(fs, ExprStmt(step.value), c, if body.Some? then Exec(fs, body.value, s) else s);
    }
  }

  /** A pop may take another name than the loop's, but never the slot: that is further out. */
  lemma {:induction false} RangeKeeps(fs: Funcs, y: Name, i: int, end: int, body: Stmt, c: Slot, s: State)
    requires s.depth <= MAX_RECURSION && Has(s.env, c) && y != c.target.name && Spares(body, c.target)
    ensures Has(RangeLoop(fs, y, i, end, body, s).env, c)
    decreases Budget(s), 1
  {
    var t := Tick(s);
    if s.Live() && i < end && t.Live() {
      PushHas(t, y, Int(i), c);
      var u := Push(t, y, Int(i));
      StatementKeeps(fs, body, c, u);
      PopHas(Exec(fs, body, u).env, c);
      RangeKeeps(fs, y, i + 1, end, body, c, RangeRound(fs, y, i, body, t));
    }
  }

  // ---------- array elements ----------

  /** Reading an element of a variable, with steps enough. */
  lemma ElementReads(fs: Funcs, e: Expr, c: Slot, s: State)
    requires s.Live() && s.depth <= MAX_RECURSION && s.steps + 2 <= MAX_STEPS && Has(s.env, c) && Reads(e, c.target)
    ensures Eval(fs, e, s) == (c.value, s.(steps := s.steps + 3))
  {
    var t := Tick(s);
    assert Eval(fs, e, s) == EvalNode(fs, e, t) == EvalIndex(fs, e.base, e.index, t);
    var arr, u := s.env[|s.env| - c.place].value, Tick(t);
    assert Eval(fs, e.base, t) == EvalNode(fs, e.base, u) == Lookup(e.base.name, u) == (arr, u);
    assert EvalIndex(fs, e.base, e.index, t) == EvalElement(fs, arr, e.index, u);
    assert Eval(fs, e.index, u) == EvalNode(fs, e.index, Tick(u)) == (Int(e.index.value), Tick(u));
    assert EvalInt(fs, e.index, u) == (e.index.value, Tick(u));
  }

  /** The expression `x[k]`. */
  predicate Reads(e: Expr, x: Target) {
    && e.Index? && e.base.Var? && e.base.name == x.name && x.name != "true" && x.name != "false"
    && e.index.IntLit? && x.element == Some(e.index.value)
  }

  /** An element of an array declared without an initialiser is null, not zero: as long as it is
      not assigned it reads as null, and arithmetic on it fails. */
  lemma DeclaredElementIsNull(fs: Funcs, x: Name, n: nat, ss: List<Stmt>, k: nat, e: Expr, s: State)
    requires s.Live() && s.depth <= MAX_RECURSION && k < n
    requires AllSpare(ss, Target(x, Some(k))) && Reads(e, Target(x, Some(k)))
    ensures var t := ExecList(fs, Cons(VarDecl(x, None, n), ss), s);
      t.Live() && t.steps + 3 <= MAX_STEPS ==>
        Eval(fs, e, t).0.Null? && Eval(fs, Binary(Add, e, IntLit(1)), t).1.status.Failed?
  {
    var st, t := VarDecl(x, None, n), Tick(s);
    var u := Exec(fs, st, s);
    assert ExecList(fs, Cons(st, ss), s) == ExecList(fs, ss, u);
    if u.Live() {
      var c := Slot(Target(x, Some(k)), |u.env|, Null);
      assert u == ExecNode(fs, st, t) == ExecLet(fs, x, None, n, t) == Push(t, x, Initial(n));
      assert u.env[0].value == Initial(n) && Find(u.env, x) == 0;
      ListKeeps(fs, ss, c, u);
      var w := ExecList(fs, ss, u);
      if w.Live() && w.steps + 3 <= MAX_STEPS {
        ElementReads(fs, e, c, w);
        NullSumFails(fs, e, c, w);
      }
    }
  }

  lemma NullSumFails(fs: Funcs, e: Expr, c: Slot, s: State)
    requires s.Live() && s.depth <= MAX_RECURSION && s.steps + 3 <= MAX_STEPS && Has(s.env, c) && Reads(e, c.target) && c.value.Null?
    ensures Eval(fs, Binary(Add, e, IntLit(1)), s).1.status.Failed?
  {
    var sum, one, t := Binary(Add, e, IntLit(1)), IntLit(1), Tick(s);
    assert Eval(fs, sum, s) == EvalNode(fs, sum, t) == EvalBinary(fs, Add, e, one, t);
    ElementReads(fs, e, c, t);
    var u := t.(steps := t.steps + 3);
    assert EvalBinary(fs, Add, e, one, t) == EvalRight(fs, Add, Null, one, u);
    OnePlusNull(fs, one, u);
  }

  lemma OnePlusNull(fs: Funcs, one: Expr, s: State)
    requires s.Live() && s.depth <= MAX_RECURSION && one == IntLit(1)
    ensures EvalRight(fs, Add, Null, one, s).1.status.Failed?
  {
    var t := Tick(s);
    var (v, u) := Eval(fs, one, s);
    if t.Live() {
      assert (v, u) == EvalNode(fs, one, t) == (Int(1), t);
      assert EvalRight(fs, Add, Null, one, s) == Settle(Operate(Add, Null, v), u);
    } else {
      assert u == t;
    }
  }

  /** Once it is assigned, and until it is assigned again, it reads as the value assigned. */
  lemma AssignedElementReads(fs: Funcs, target: Expr, k: nat, r: Expr, ss: List<Stmt>, s: State)
    requires s.Live() && s.depth <= MAX_RECURSION && s.steps <= MAX_STEPS
    requires target.Index? && target.base.Var? && Reads(target, Target(target.base.name, Some(k)))
    requires AllSpare(ss, Target(target.base.name, Some(k)))
    ensures var (v, _) := Eval(fs, r, EvalInt(fs, target.index, Tick(s)).1);
      var t := ExecList(fs, Cons(ExprStmt(Binary(Set, target, r)), ss), s);
      t.Live() && t.steps + 2 <= MAX_STEPS ==> Eval(fs, target, t) == (v, t.(steps := t.steps + 3))
  {
    var st, t, x := ExprStmt(Binary(Set, target, r)), Tick(s), target.base.name;
    var u := Exec(fs, st, s);
    assert ExecList(fs, Cons(st, ss), s) == ExecList(fs, ss, u);
    if u.Live() {
      assert u == ExecNode(fs, st, t) == ExecExpr(fs, st.expr, t) == Assign(fs, target, r, t) == AssignIndex(fs, target, r, t);
      var i := Find(t.env, x);
      var (j, s1) := EvalInt(fs, target.index, t);
      assert u == AssignAt(fs, i, target.index, r, t);
      LiteralIndex(fs, target.index, t);
      var (v, s2) := Eval(fs, r, s1);
      assert u == AssignElement(fs, i, k, r, s1);
      assert u == Rebind(s2, i, Arr(s1.env[i].value.elems[k := v]));
      FindIs(u.env, x, i);
      var c := Slot(Target(x, Some(k)), |u.env| - i, v);
      ListKeeps(fs, ss, c, u);
      var w := ExecList(fs, ss, u);
      if w.Live() && w.steps + 2 <= MAX_STEPS {
        ElementReads(fs, target, c, w);
      }
    }
  }
}
