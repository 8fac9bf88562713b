/** A path is MOVED only if it was before or if the statement moves it, through all breaks,
    continues and passes over loops. */
module MoveOrigins {
  import opened Ast
  import opened Runs
  import opened MoveSpec

  predicate IsVar(e: Expr, x: Name) {
    e.Var? && e.name == x
  }

  /** Evaluating `e` never gives the value of `x` away. */
  predicate Spares(e: Expr, x: Name)
    decreases e
  {
    match e
    case Binary(op, l, r) => !(op.Set? && IsVar(r, x)) && Spares(l, x) && Spares(r, x)
    case Unary(_, o) => Spares(o, x)
    case Call(f, args, _) => Spares(f, x) && SparesArgs(args, x)
    case Index(l, r) => Spares(l, x) && Spares(r, x)
    case Cast(o) => Spares(o, x)
    case _ => true
  }

  predicate SparesArgs(args: List<Expr>, x: Name)
    decreases args
  {
    args.Cons? ==> !IsVar(args.head, x) && Spares(args.head, x) && SparesArgs(args.tail, x)
  }

  predicate SparesOpt(e: Option<Expr>, x: Name) {
    e.Some? ==> Spares(e.value, x)
  }

  /** Nowhere in `s` is the value of `x` given away. */
  predicate NeverMoves(s: Stmt, x: Name)
    decreases s
  {
    match s
    case VarDecl(_, init, _) => init.Some? ==> !IsVar(init.value, x) && Spares(init.value, x)
    case ExprStmt(e) => Spares(e, x)
    case Assert(e) => Spares(e, x)
    case Block(ss) => ListNeverMoves(ss, x)
    case If(c, t, e) => Spares(c, x) && NeverMoves(t, x) && (e.Some? ==> NeverMoves(e.value, x))
    case Match(e, cases) => Spares(e, x) && CasesNeverMove(cases, x)
    case While(_, c, b) => Spares(c, x) && NeverMoves(b, x)
    case Loop(_, b) => NeverMoves(b, x)
    case For(_, init, c, e, b) =>
      (init.Some? ==> NeverMoves(init.value, x)) && SparesOpt(c, x) && SparesOpt(e, x) && (b.Some? ==> NeverMoves(b.value, x))
    case ForRange(_, _, lo, hi, _, b) => Spares(lo, x) && Spares(hi, x) && NeverMoves(b, x)
    case Return(e) => SparesOpt(e, x)
    case _ => true
  }

  predicate ListNeverMoves(ss: List<Stmt>, x: Name)
    decreases ss
  {
    ss.Cons? ==> NeverMoves(ss.head, x) && ListNeverMoves(ss.tail, x)
  }

  predicate CasesNeverMove(cases: List<Case>, x: Name)
    decreases cases
  {
    cases.Cons? ==> NeverMoves(cases.head.body, x) && CasesNeverMove(cases.tail, x)
  }

  predicate AbsentOpt(o: Option<set<Name>>, x: Name) {
    o.Some? ==> x !in o.value
  }

  /** `x` is not MOVED in the current state nor in those collected from breaks and continues. */
  predicate Absent(st: State, x: Name) {
    x !in st.cur && AbsentOpt(st.brk, x) && AbsentOpt(st.cont, x)
  }

  predicate AbsentIn(r: Result, x: Name) {
    Absent(r.st, x) && x !in r.entry
  }

  lemma {:induction false} ExprSpares(e: Expr, own: set<Name>, lhs: bool, mode: Mode, cur: set<Name>, dead: bool, x: Name)
    requires Spares(e, x) && x !in cur
    ensures x !in CheckExpr(e, own, lhs, mode, cur, dead).cur
    decreases e
  {
    match e
    case Binary(op, l, r) =>
      ExprSpares(l, own, lhs || IsAssignment(op), mode, cur, dead, x);
      ExprSpares(r, own, lhs, mode, CheckExpr(l, own, lhs || IsAssignment(op), mode, cur, dead).cur, dead, x);
    case Unary(_, o) => ExprSpares(o, own, lhs, mode, cur, dead, x);
    case Call(f, args, _) =>
      ExprSpares(f, own, lhs, mode, cur, dead, x);
      ArgsSpare(args, own, lhs, mode, CheckExpr(f, own, lhs, mode, cur, dead).cur, dead, x);
    case Index(l, r) =>
      ExprSpares(l, own, lhs, mode, cur, dead, x);
      ExprSpares(r, own, lhs, mode, CheckExpr(l, own, lhs, mode, cur, dead).cur, dead, x);
    case Cast(o) => ExprSpares(o, own, lhs, mode, cur, dead, x);
    case _ =>
  }

  lemma {:induction false} ArgsSpare(args: List<Expr>, own: set<Name>, lhs: bool, mode: Mode, cur: set<Name>, dead: bool, x: Name)
    requires SparesArgs(args, x) && x !in cur
    ensures x !in CheckArgs(args, own, lhs, mode, cur, dead).cur
    decreases args
  {
    if args.Cons? {
      ExprSpares(args.head, own, lhs, mode, cur, dead, x);
      ArgsSpare(args.tail, own, lhs, mode, CheckExpr(args.head, own, lhs, mode, cur, dead).cur + Taken(args.head, own), dead, x);
    }
  }

  lemma OptSpares(e: Option<Expr>, own: set<Name>, mode: Mode, cur: set<Name>, dead: bool, x: Name)
    requires SparesOpt(e, x) && x !in cur
    ensures x !in CheckOptExpr(e, own, mode, cur, dead).cur
  {
    if e.Some? {
      ExprSpares(e.value, own, false, mode, cur, dead, x);
    }
  }

  /** What a statement never moves is MOVED behind it, at its breaks and at its continues only if it
      was before. */
  lemma {:induction false} OnlyMovesCount(s: Stmt, own: set<Name>, mode: Mode, st: State, x: Name)
    requires NeverMoves(s, x) && Absent(st, x)
    ensures AbsentIn(Check(s, own, mode, st), x)
    decreases s, 3
  {
    match s
    case VarDecl(_, init, _) => OptSpares(init, own, mode, st.cur, st.dead, x);
    case ExprStmt(e) => ExprSpares(e, own, false, mode, st.cur, st.dead, x);
    case Assert(e) => ExprSpares(e, own, false, mode, st.cur, st.dead, x);
    case Return(e) => OptSpares(e, own, mode, st.cur, st.dead, x);
    case Break(_) =>
    case Continue(_) =>
    case Block(ss) => OnlyMovesCountInList(ss, own, mode, st, x);
    case If(c, t, e) =>
      ExprSpares(c, own, false, mode, st.cur, st.dead, x);
      var st0 := st.(cur := CheckExpr(c, own, false, mode, st.cur, st.dead).cur);
      OnlyMovesCount(t, own, mode, st0, x);
      if e.Some? {
        var rt := Check(t, own, mode, st0);
        OnlyMovesCount(e.value, own, mode, st0.(brk := rt.st.brk, cont := rt.st.cont), x);
      }
    case Match(e, cases) =>
      ExprSpares(e, own, false, mode, st.cur, st.dead, x);
      var a := CheckExpr(e, own, false, mode, st.cur, st.dead);
      OnlyMovesCountInCases(cases, own, mode, st.(cur := a.cur), ArmsState(None, true, st.brk, st.cont, a.log), x);
    case While(_, _, _) => OnlyMovesCountInLoop(s, own, mode, st, x);
    case Loop(_, _) => OnlyMovesCountInLoop(s, own, mode, st, x);
    case For(_, _, _, _, _) => OnlyMovesCountInLoop(s, own, mode, st, x);
    case ForRange(_, _, _, _, _, _) => OnlyMovesCountInLoop(s, own, mode, st, x);
  }

  lemma {:induction false} OnlyMovesCountInList(ss: List<Stmt>, own: set<Name>, mode: Mode, st: State, x: Name)
    requires ListNeverMoves(ss, x) && Absent(st, x)
    ensures AbsentIn(CheckList(ss, own, mode, st), x)
    decreases ss, 3
  {
    if ss.Cons? {
      OnlyMovesCount(ss.head, own, mode, st, x);
      OnlyMovesCountInList(ss.tail, own, mode, Check(ss.head, own, mode, st).st, x);
    }
  }

  lemma {:induction false} OnlyMovesCountInCases(cases: List<Case>, own: set<Name>, mode: Mode, st0: State, acc: ArmsState, x: Name)
    requires CasesNeverMove(cases, x) && x !in st0.cur && AbsentOpt(acc.merged, x) && AbsentOpt(acc.brk, x) && AbsentOpt(acc.cont, x)
    ensures var r := CheckCases(cases, own, mode, st0, acc); AbsentOpt(r.merged, x) && AbsentOpt(r.brk, x) && AbsentOpt(r.cont, x)
    decreases cases, 3
  {
    if cases.Cons? {
      var st := st0.(brk := acc.brk, cont := acc.cont);
      OnlyMovesCount(cases.head.body, own, mode, st, x);
      OnlyMovesCountInCases(cases.tail, own, mode, st0, AddArm(acc, Check(cases.head.body, own, mode, st)), x);
    }
  }

  lemma {:induction false} OnlyMovesCountInPass(s: Stmt, own: set<Name>, mode: Mode, st: State, x: Name)
    requires IsLoop(s) && NeverMoves(s, x) && Absent(st, x)
    ensures AbsentIn(LoopPass(s, own, mode, st), x)
    decreases s, 0
  {
    PassInParts(s, own, mode, st);
    OptSpares(LoopTest(s), own, mode, st.cur, st.dead, x);
    var c := TestStage(s, own, mode, st);
    var b := CheckOpt(LoopBody(s), own, mode, c.st);
    if LoopBody(s).Some? {
      OnlyMovesCount(LoopBody(s).value, own, mode, c.st, x);
    }
    OptSpares(LoopStep(s), own, mode, b.st.cur, b.st.dead, x);
  }

  lemma {:induction false} OnlyMovesCountInSetup(s: Stmt, own: set<Name>, mode: Mode, st: State, x: Name)
    requires IsLoop(s) && NeverMoves(s, x) && Absent(st, x)
    ensures AbsentIn(LoopSetup(s, own, mode, st), x)
    decreases s, 1
  {
    match s
    case For(_, init, _, _, _) =>
      if init.Some? { OnlyMovesCount(init.value, own, mode, st, x); }
    case ForRange(_, _, lo, hi, _, _) =>
      ExprSpares(lo, own, false, mode, st.cur, st.dead, x);
      ExprSpares(hi, own, false, mode, CheckExpr(lo, own, false, mode, st.cur, st.dead).cur, st.dead, x);
    case _ =>
  }

  lemma {:induction false} OnlyMovesCountInLoop(s: Stmt, own: set<Name>, mode: Mode, st: State, x: Name)
    requires IsLoop(s) && NeverMoves(s, x) && Absent(st, x)
    ensures AbsentIn(CheckLoop(s, own, mode, st), x)
    decreases s, 2
  {
    var m0, st0 := Mode(false, Some(st.cur), mode.only), State(st.cur, false, None, None);
    OnlyMovesCountInSetup(s, own, m0, st0, x);
    var o := LoopSetup(s, own, m0, st0);
    var p := LoopPass(s, own, FirstMode(mode, o.st.cur), o.st);
    OnlyMovesCountInPass(s, own, FirstMode(mode, o.st.cur), o.st, x);
    if NextIter(p).Some? {
      OnlyMovesCountInPass(s, own, SecondMode(o.st.cur), State(NextIter(p).value, false, None, None), x);
    }
  }
}
