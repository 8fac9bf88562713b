/** Which uses of MOVED paths are reported: in the first pass over a loop all of them, in the second
    no report for a path MOVED before the loop is repeated. */
module MoveReports {
  import opened Ast
  import opened Runs
  import opened MoveSpec
  import opened MoveLoops

  predicate LoopFree(s: Stmt)
    decreases s
  {
    match s
    case Block(ss) => LoopFreeList(ss)
    case If(_, t, e) => LoopFree(t) && (e.Some? ==> LoopFree(e.value))
    case Match(_, cases) => LoopFreeCases(cases)
    case _ => !IsLoop(s)
  }

  predicate LoopFreeList(ss: List<Stmt>)
    decreases ss
  {
    ss.Cons? ==> LoopFree(ss.head) && LoopFreeList(ss.tail)
  }

  predicate LoopFreeCases(cases: List<Case>)
    decreases cases
  {
    cases.Cons? ==> LoopFree(cases.head.body) && LoopFreeCases(cases.tail)
  }

  /** Outside second passes every use of a MOVED path is reported.  In a second pass it is, if its
      line is known and the path was not MOVED at the start of the loop. */
  ghost predicate Ruled(log: Log, pass2: bool, start: set<Name>) {
    forall i :: 0 <= i < |log| ==>
      (log[i].reported <==> log[i].moved && (pass2 ==> log[i].pos != 0 && log[i].name !in start))
  }

  function StartOf(mode: Mode): set<Name> {
    if mode.start.Some? then mode.start.value else {}
  }

  lemma RuledConcat(a: Log, b: Log, pass2: bool, start: set<Name>)
    requires Ruled(a, pass2, start) && Ruled(b, pass2, start)
    ensures Ruled(a + b, pass2, start)
  {
  }

  lemma {:induction false} ExprRuled(e: Expr, own: set<Name>, lhs: bool, mode: Mode, cur: set<Name>, dead: bool)
    ensures Ruled(CheckExpr(e, own, lhs, mode, cur, dead).log, mode.pass2, StartOf(mode))
    decreases e
  {
    match e
    case Binary(op, l, r) =>
      ExprRuled(l, own, lhs || IsAssignment(op), mode, cur, dead);
      ExprRuled(r, own, lhs, mode, CheckExpr(l, own, lhs || IsAssignment(op), mode, cur, dead).cur, dead);
    case Unary(_, o) => ExprRuled(o, own, lhs, mode, cur, dead);
    case Call(f, args, _) =>
      ExprRuled(f, own, lhs, mode, cur, dead);
      ArgsRuled(args, own, lhs, mode, CheckExpr(f, own, lhs, mode, cur, dead).cur, dead);
    case Index(l, r) =>
      ExprRuled(l, own, lhs, mode, cur, dead);
      ExprRuled(r, own, lhs, mode, CheckExpr(l, own, lhs, mode, cur, dead).cur, dead);
    case Cast(o) => ExprRuled(o, own, lhs, mode, cur, dead);
    case _ =>
  }

  lemma {:induction false} ArgsRuled(args: List<Expr>, own: set<Name>, lhs: bool, mode: Mode, cur: set<Name>, dead: bool)
    ensures Ruled(CheckArgs(args, own, lhs, mode, cur, dead).log, mode.pass2, StartOf(mode))
    decreases args
  {
    if args.Cons? {
      ExprRuled(args.head, own, lhs, mode, cur, dead);
      ArgsRuled(args.tail, own, lhs, mode, CheckExpr(args.head, own, lhs, mode, cur, dead).cur + Taken(args.head, own), dead);
    }
  }

  lemma OptRuled(e: Option<Expr>, own: set<Name>, mode: Mode, cur: set<Name>, dead: bool)
    ensures Ruled(CheckOptExpr(e, own, mode, cur, dead).log, mode.pass2, StartOf(mode))
  {
    if e.Some? {
      ExprRuled(e.value, own, false, mode, cur, dead);
    }
  }

  lemma {:induction false} StatementRuled(s: Stmt, own: set<Name>, mode: Mode, st: State)
    requires LoopFree(s)
    ensures Ruled(Check(s, own, mode, st).log, mode.pass2, StartOf(mode))
    decreases s
  {
    match s
    case VarDecl(_, init, _) => OptRuled(init, own, mode, st.cur, st.dead);
    case ExprStmt(e) => ExprRuled(e, own, false, mode, st.cur, st.dead);
    case Assert(e) => ExprRuled(e, own, false, mode, st.cur, st.dead);
    case Return(e) => OptRuled(e, own, mode, st.cur, st.dead);
    case Block(ss) => ListRuled(ss, own, mode, st);
    case If(c, t, e) =>
      ExprRuled(c, own, false, mode, st.cur, st.dead);
      var st0 := st.(cur := CheckExpr(c, own, false, mode, st.cur, st.dead).cur);
      StatementRuled(t, own, mode, st0);
      if e.Some? {
        var rt := Check(t, own, mode, st0);
        StatementRuled(e.value, own, mode, st0.(brk := rt.st.brk, cont := rt.st.cont));
      }
    case Match(e, cases) =>
      ExprRuled(e, own, false, mode, st.cur, st.dead);
      var a := CheckExpr(e, own, false, mode, st.cur, st.dead);
      CasesRuled(cases, own, mode, st.(cur := a.cur), ArmsState(None, true, st.brk, st.cont, a.log));
    case Break(_) =>
    case Continue(_) =>
  }

  lemma {:induction false} ListRuled(ss: List<Stmt>, own: set<Name>, mode: Mode, st: State)
    requires LoopFreeList(ss)
    ensures Ruled(CheckList(ss, own, mode, st).log, mode.pass2, StartOf(mode))
    decreases ss
  {
    if ss.Cons? {
      StatementRuled(ss.head, own, mode, st);
      ListRuled(ss.tail, own, mode, Check(ss.head, own, mode, st).st);
    }
  }

  lemma {:induction false} CasesRuled(cases: List<Case>, own: set<Name>, mode: Mode, st0: State, acc: ArmsState)
    requires LoopFreeCases(cases) && Ruled(acc.log, mode.pass2, StartOf(mode))
    ensures Ruled(CheckCases(cases, own, mode, st0, acc).log, mode.pass2, StartOf(mode))
    decreases cases
  {
    if cases.Cons? {
      var st := st0.(brk := acc.brk, cont := acc.cont);
      StatementRuled(cases.head.body, own, mode, st);
      CasesRuled(cases.tail, own, mode, st0, AddArm(acc, Check(cases.head.body, own, mode, st)));
    }
  }

  lemma PassRuled(s: Stmt, own: set<Name>, mode: Mode, st: State)
    requires IsLoop(s) && (LoopBody(s).Some? ==> LoopFree(LoopBody(s).value))
    ensures Ruled(LoopPass(s, own, mode, st).log, mode.pass2, StartOf(mode))
  {
    var c := TestStage(s, own, mode, st);
    PassInParts(s, own, mode, st);
    OptRuled(LoopTest(s), own, mode, st.cur, st.dead);
    var b := CheckOpt(LoopBody(s), own, mode, c.st);
    if LoopBody(s).Some? {
      StatementRuled(LoopBody(s).value, own, mode, c.st);
    }
    OptRuled(LoopStep(s), own, mode, b.st.cur, b.st.dead);
  }

  /** A loop with a loop-free body reports every use of a MOVED path that its first pass meets.
      The uses its second pass meets are reported unless the path was MOVED when the iterations
      began, so that no report about such a path is repeated. */
  lemma ReportsOfLoop(s: Stmt, own: set<Name>, mode: Mode, st: State)
    requires ParsedLoop(s) && (LoopBody(s).Some? ==> LoopFree(LoopBody(s).value))
    ensures var o := LoopSetup(s, own, Mode(false, Some(st.cur), mode.only), State(st.cur, false, None, None));
      var p := FirstPass(s, own, mode, o.st.cur);
      var q := SecondPass(s, own, o.st.cur, NextIter(p));
      && Check(s, own, mode, st).log == o.log + p.log + q.log
      && Ruled(p.log, false, {}) && Ruled(q.log, true, o.st.cur)
  {
    var o := LoopSetup(s, own, Mode(false, Some(st.cur), mode.only), State(st.cur, false, None, None));
    var p := FirstPass(s, own, mode, o.st.cur);
    LoopInParts(s, own, mode, st);
    PassRuled(s, own, FirstMode(mode, o.st.cur), State(o.st.cur, false, None, None));
    if NextIter(p).Some? {
      PassRuled(s, own, SecondMode(o.st.cur), State(NextIter(p).value, false, None, None));
    }
  }
}
