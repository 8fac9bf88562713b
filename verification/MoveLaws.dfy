/** What the move analysis does to one path depends on no other path, and is monotone. */
module MoveLaws {
  import opened Ast
  import opened Runs
  import opened MoveSpec

  /** `s` contains no break statement at all. */
  predicate BreakFree(s: Stmt)
    decreases s
  {
    match s
    case Break(_) => false
    case Block(ss) => BreakFreeList(ss)
    case If(_, t, e) => BreakFree(t) && (e.Some? ==> BreakFree(e.value))
    case Match(_, cases) => BreakFreeCases(cases)
    case While(_, _, b) => BreakFree(b)
    case Loop(_, b) => BreakFree(b)
    case For(_, init, _, _, b) => (init.Some? ==> BreakFree(init.value)) && (b.Some? ==> BreakFree(b.value))
    case ForRange(_, _, _, _, _, b) => BreakFree(b)
    case _ => true
  }

  predicate BreakFreeList(ss: List<Stmt>)
    decreases ss
  {
    ss.Cons? ==> BreakFree(ss.head) && BreakFreeList(ss.tail)
  }

  predicate BreakFreeCases(cases: List<Case>)
    decreases cases
  {
    cases.Cons? ==> BreakFree(cases.head.body) && BreakFreeCases(cases.tail)
  }

  // ---------- the order, for one path x ----------

  predicate Below(a: set<Name>, b: set<Name>, x: Name) {
    x in a ==> x in b
  }

  predicate BelowOpt(a: Option<set<Name>>, b: Option<set<Name>>, x: Name) {
    a.None? == b.None? && (a.Some? ==> Below(a.value, b.value, x))
  }

  predicate StateBelow(a: State, b: State, x: Name) {
    Below(a.cur, b.cur, x) && a.dead == b.dead && BelowOpt(a.brk, b.brk, x) && BelowOpt(a.cont, b.cont, x)
  }

  /** The same visits in the same order; those of `x` are MOVED in `b` wherever they are in `a`. */
  ghost predicate LogBelow(a: Log, b: Log, x: Name) {
    |a| == |b| &&
    forall i :: 0 <= i < |a| ==>
      a[i].name == b[i].name && a[i].pos == b[i].pos && a[i].dead == b[i].dead &&
      (a[i].name == x && a[i].moved ==> b[i].moved)
  }

  ghost predicate ResultBelow(a: Result, b: Result, x: Name) {
    StateBelow(a.st, b.st, x) && Below(a.entry, b.entry, x) && a.swapped == b.swapped && LogBelow(a.log, b.log, x)
  }

  predicate Comparable(s: Stmt, m1: Mode, m2: Mode) {
    m1.only == m2.only || BreakFree(s)
  }

  lemma LogBelowConcat(a: Log, a': Log, b: Log, b': Log, x: Name)
    requires LogBelow(a, b, x) && LogBelow(a', b', x)
    ensures LogBelow(a + a', b + b', x)
  {
  }

  lemma {:induction false} ExprMonotone(e: Expr, own: set<Name>, lhs: bool, m1: Mode, m2: Mode,
                                        a: set<Name>, b: set<Name>, dead: bool, x: Name)
    requires Below(a, b, x)
    ensures Below(CheckExpr(e, own, lhs, m1, a, dead).cur, CheckExpr(e, own, lhs, m2, b, dead).cur, x)
    ensures LogBelow(CheckExpr(e, own, lhs, m1, a, dead).log, CheckExpr(e, own, lhs, m2, b, dead).log, x)
    decreases e
  {
    match e
    case Binary(op, l, r) =>
      ExprMonotone(l, own, lhs || IsAssignment(op), m1, m2, a, b, dead, x);
      ExprMonotone(r, own, lhs, m1, m2, CheckExpr(l, own, lhs || IsAssignment(op), m1, a, dead).cur,
                   CheckExpr(l, own, lhs || IsAssignment(op), m2, b, dead).cur, dead, x);
    case Unary(_, o) => ExprMonotone(o, own, lhs, m1, m2, a, b, dead, x);
    case Call(f, args, _) =>
      ExprMonotone(f, own, lhs, m1, m2, a, b, dead, x);
      ArgsMonotone(args, own, lhs, m1, m2, CheckExpr(f, own, lhs, m1, a, dead).cur,
                   CheckExpr(f, own, lhs, m2, b, dead).cur, dead, x);
    case Index(l, r) =>
      ExprMonotone(l, own, lhs, m1, m2, a, b, dead, x);
      ExprMonotone(r, own, lhs, m1, m2, CheckExpr(l, own, lhs, m1, a, dead).cur,
                   CheckExpr(l, own, lhs, m2, b, dead).cur, dead, x);
    case Cast(o) => ExprMonotone(o, own, lhs, m1, m2, a, b, dead, x);
    case _ =>
  }

  lemma {:induction false} ArgsMonotone(args: List<Expr>, own: set<Name>, lhs: bool, m1: Mode, m2: Mode,
                                        a: set<Name>, b: set<Name>, dead: bool, x: Name)
    requires Below(a, b, x)
    ensures Below(CheckArgs(args, own, lhs, m1, a, dead).cur, CheckArgs(args, own, lhs, m2, b, dead).cur, x)
    ensures LogBelow(CheckArgs(args, own, lhs, m1, a, dead).log, CheckArgs(args, own, lhs, m2, b, dead).log, x)
    decreases args
  {
    match args
    case Nil =>
    case Cons(arg, tail) =>
      ExprMonotone(arg, own, lhs, m1, m2, a, b, dead, x);
      ArgsMonotone(tail, own, lhs, m1, m2, CheckExpr(arg, own, lhs, m1, a, dead).cur + Taken(arg, own),
                   CheckExpr(arg, own, lhs, m2, b, dead).cur + Taken(arg, own), dead, x);
  }

  lemma OptExprMonotone(e: Option<Expr>, own: set<Name>, m1: Mode, m2: Mode, a: set<Name>, b: set<Name>, dead: bool, x: Name)
    requires Below(a, b, x)
    ensures Below(CheckOptExpr(e, own, m1, a, dead).cur, CheckOptExpr(e, own, m2, b, dead).cur, x)
    ensures LogBelow(CheckOptExpr(e, own, m1, a, dead).log, CheckOptExpr(e, own, m2, b, dead).log, x)
  {
    if e.Some? {
      ExprMonotone(e.value, own, false, m1, m2, a, b, dead, x);
    }
  }

  lemma ChainMonotone(a: Result, a': Result, b: Result, b': Result, x: Name)
    requires ResultBelow(a, b, x) && ResultBelow(a', b', x)
    ensures ResultBelow(Chain(a, a'), Chain(b, b'), x)
  {
    LogBelowConcat(a.log, a'.log, b.log, b'.log, x);
  }

  /** The analysis of any statement is monotone for each path on its own.  Equal inputs for
      `x` give equal outputs for `x` (use the law twice), so paths never influence each other. */
  lemma {:induction false} CheckMonotone(s: Stmt, own: set<Name>, m1: Mode, m2: Mode, a: State, b: State, x: Name)
    requires StateBelow(a, b, x) && Comparable(s, m1, m2)
    ensures ResultBelow(Check(s, own, m1, a), Check(s, own, m2, b), x)
    decreases s, 3
  {
    match s
    case VarDecl(_, init, _) => OptExprMonotone(init, own, m1, m2, a.cur, b.cur, a.dead, x);
    case ExprStmt(e) => ExprMonotone(e, own, false, m1, m2, a.cur, b.cur, a.dead, x);
    case Assert(e) => ExprMonotone(e, own, false, m1, m2, a.cur, b.cur, a.dead, x);
    case Block(ss) => ListMonotone(ss, own, m1, m2, a, b, x);
    case If(c, t, e) => IfMonotone(s, own, m1, m2, a, b, x);
    case Match(e, cases) =>
      ExprMonotone(e, own, false, m1, m2, a.cur, b.cur, a.dead, x);
      var c1 := CheckExpr(e, own, false, m1, a.cur, a.dead);
      var c2 := CheckExpr(e, own, false, m2, b.cur, b.dead);
      CasesMonotone(cases, own, m1, m2, a.(cur := c1.cur), b.(cur := c2.cur),
                    ArmsState(None, true, a.brk, a.cont, c1.log), ArmsState(None, true, b.brk, b.cont, c2.log), x);
    case While(_, _, _) => LoopMonotone(s, own, m1, m2, a, b, x);
    case Loop(_, _) => LoopMonotone(s, own, m1, m2, a, b, x);
    case For(_, _, _, _, _) => LoopMonotone(s, own, m1, m2, a, b, x);
    case ForRange(_, _, _, _, _, _) => LoopMonotone(s, own, m1, m2, a, b, x);
    case Break(_) =>
    case Continue(_) =>
    case Return(e) => OptExprMonotone(e, own, m1, m2, a.cur, b.cur, a.dead, x);
  }

  lemma {:induction false} IfMonotone(s: Stmt, own: set<Name>, m1: Mode, m2: Mode, a: State, b: State, x: Name)
    requires s.If? && StateBelow(a, b, x) && Comparable(s, m1, m2)
    ensures ResultBelow(Check(s, own, m1, a), Check(s, own, m2, b), x)
    decreases s, 2
  {
    var If(c, t, e) := s;
    ExprMonotone(c, own, false, m1, m2, a.cur, b.cur, a.dead, x);
    var c1 := CheckExpr(c, own, false, m1, a.cur, a.dead);
    var c2 := CheckExpr(c, own, false, m2, b.cur, b.dead);
    var a0, b0 := a.(cur := c1.cur), b.(cur := c2.cur);
    CheckMonotone(t, own, m1, m2, a0, b0, x);
    var t1, t2 := Check(t, own, m1, a0), Check(t, own, m2, b0);
    LogBelowConcat(c1.log, t1.log, c2.log, t2.log, x);
    var a1, b1 := a0.(brk := t1.st.brk, cont := t1.st.cont), b0.(brk := t2.st.brk, cont := t2.st.cont);
    if e.Some? {
      CheckMonotone(e.value, own, m1, m2, a1, b1, x);
    }
    LogBelowConcat(c1.log + t1.log, CheckOpt(e, own, m1, a1).log, c2.log + t2.log, CheckOpt(e, own, m2, b1).log, x);
  }

  lemma {:induction false} ListMonotone(ss: List<Stmt>, own: set<Name>, m1: Mode, m2: Mode, a: State, b: State, x: Name)
    requires StateBelow(a, b, x) && (m1.only == m2.only || BreakFreeList(ss))
    ensures ResultBelow(CheckList(ss, own, m1, a), CheckList(ss, own, m2, b), x)
    decreases ss, 3
  {
    match ss
    case Nil =>
    case Cons(s, tail) =>
      CheckMonotone(s, own, m1, m2, a, b, x);
      var r1, r2 := Check(s, own, m1, a), Check(s, own, m2, b);
      ListMonotone(tail, own, m1, m2, r1.st, r2.st, x);
      ChainMonotone(r1, CheckList(tail, own, m1, r1.st), r2, CheckList(tail, own, m2, r2.st), x);
  }

  ghost predicate ArmsBelow(a: ArmsState, b: ArmsState, x: Name) {
    BelowOpt(a.merged, b.merged, x) && a.allDead == b.allDead && BelowOpt(a.brk, b.brk, x) &&
    BelowOpt(a.cont, b.cont, x) && LogBelow(a.log, b.log, x)
  }

  lemma {:induction false} CasesMonotone(cases: List<Case>, own: set<Name>, m1: Mode, m2: Mode, a: State, b: State,
                                         acc1: ArmsState, acc2: ArmsState, x: Name)
    requires StateBelow(a, b, x) && ArmsBelow(acc1, acc2, x) && (m1.only == m2.only || BreakFreeCases(cases))
    ensures ArmsBelow(CheckCases(cases, own, m1, a, acc1), CheckCases(cases, own, m2, b, acc2), x)
    decreases cases, 3
  {
    match cases
    case Nil =>
    case Cons(c, tail) =>
      var a', b' := a.(brk := acc1.brk, cont := acc1.cont), b.(brk := acc2.brk, cont := acc2.cont);
      CheckMonotone(c.body, own, m1, m2, a', b', x);
      var r1, r2 := Check(c.body, own, m1, a'), Check(c.body, own, m2, b');
      LogBelowConcat(acc1.log, r1.log, acc2.log, r2.log, x);
      CasesMonotone(tail, own, m1, m2, a, b,
        AddArm(acc1, r1),
        AddArm(acc2, r2), x);
  }

  lemma {:induction false} SetupMonotone(s: Stmt, own: set<Name>, m1: Mode, m2: Mode, a: State, b: State, x: Name)
    requires IsLoop(s) && StateBelow(a, b, x) && Comparable(s, m1, m2)
    ensures ResultBelow(LoopSetup(s, own, m1, a), LoopSetup(s, own, m2, b), x)
    decreases s, 0
  {
    match s
    case For(_, init, _, _, _) =>
      if init.Some? {
        CheckMonotone(init.value, own, m1, m2, a, b, x);
      }
    case ForRange(_, _, lo, hi, _, _) =>
      ExprMonotone(lo, own, false, m1, m2, a.cur, b.cur, a.dead, x);
      ExprMonotone(hi, own, false, m1, m2, CheckExpr(lo, own, false, m1, a.cur, a.dead).cur,
                   CheckExpr(lo, own, false, m2, b.cur, b.dead).cur, a.dead, x);
    case _ =>
  }

  lemma {:induction false} PassMonotone(s: Stmt, own: set<Name>, m1: Mode, m2: Mode, a: State, b: State, x: Name)
    requires IsLoop(s) && StateBelow(a, b, x) && Comparable(s, m1, m2)
    ensures ResultBelow(LoopPass(s, own, m1, a), LoopPass(s, own, m2, b), x)
    decreases s, 0
  {
    OptExprMonotone(LoopTest(s), own, m1, m2, a.cur, b.cur, a.dead, x);
    var c1 := InPlace(a, CheckOptExpr(LoopTest(s), own, m1, a.cur, a.dead));
    var c2 := InPlace(b, CheckOptExpr(LoopTest(s), own, m2, b.cur, b.dead));
    var b1 := match LoopBody(s) case None => InPlace(c1.st, ExprResult(c1.st.cur, [])) case Some(y) => Check(y, own, m1, c1.st);
    var b2 := match LoopBody(s) case None => InPlace(c2.st, ExprResult(c2.st.cur, [])) case Some(y) => Check(y, own, m2, c2.st);
    if LoopBody(s).Some? {
      CheckMonotone(LoopBody(s).value, own, m1, m2, c1.st, c2.st, x);
    }
    ChainMonotone(c1, b1, c2, b2, x);
    OptExprMonotone(LoopStep(s), own, m1, m2, b1.st.cur, b2.st.cur, b1.st.dead, x);
    var e1 := InPlace(b1.st, CheckOptExpr(LoopStep(s), own, m1, b1.st.cur, b1.st.dead));
    var e2 := InPlace(b2.st, CheckOptExpr(LoopStep(s), own, m2, b2.st.cur, b2.st.dead));
    ChainMonotone(Chain(c1, b1), e1, Chain(c2, b2), e2, x);
  }

  lemma {:induction false} LoopMonotone(s: Stmt, own: set<Name>, m1: Mode, m2: Mode, a: State, b: State, x: Name)
    requires IsLoop(s) && StateBelow(a, b, x) && Comparable(s, m1, m2)
    ensures ResultBelow(CheckLoop(s, own, m1, a), CheckLoop(s, own, m2, b), x)
    decreases s, 2
  {
    var s1, s2 := State(a.cur, false, None, None), State(b.cur, false, None, None);
    var k1, k2 := Mode(false, Some(a.cur), m1.only), Mode(false, Some(b.cur), m2.only);
    SetupMonotone(s, own, k1, k2, s1, s2, x);
    var o1, o2 := LoopSetup(s, own, k1, s1), LoopSetup(s, own, k2, s2);
    PassMonotone(s, own, FirstMode(m1, o1.st.cur), FirstMode(m2, o2.st.cur), o1.st, o2.st, x);
    var p1 := LoopPass(s, own, FirstMode(m1, o1.st.cur), o1.st);
    var p2 := LoopPass(s, own, FirstMode(m2, o2.st.cur), o2.st);
    ChainMonotone(o1, p1, o2, p2, x);
    var n1, n2 := NextIter(p1), NextIter(p2);
    var q1 := SecondPass(s, own, o1.st.cur, n1);
    var q2 := SecondPass(s, own, o2.st.cur, n2);
    SecondMonotone(s, own, o1.st.cur, o2.st.cur, n1, n2, x);
    ExitMonotone(s.Loop?, a, b, Chain(o1, p1), Chain(o2, p2), p1.st.brk, p2.st.brk, n1, n2, q1, q2, x);
  }

  lemma {:induction false} SecondMonotone(s: Stmt, own: set<Name>, start1: set<Name>, start2: set<Name>,
                                          n1: Option<set<Name>>, n2: Option<set<Name>>, x: Name)
    requires IsLoop(s) && BelowOpt(n1, n2, x)
    ensures ResultBelow(SecondPass(s, own, start1, n1), SecondPass(s, own, start2, n2), x)
    decreases s, 1
  {
    if n1.Some? {
      PassMonotone(s, own, SecondMode(start1), SecondMode(start2),
                   State(n1.value, false, None, None), State(n2.value, false, None, None), x);
    }
  }

  lemma ExitMonotone(endless: bool, a: State, b: State, f1: Result, f2: Result, k1: Option<set<Name>>, k2: Option<set<Name>>,
                     n1: Option<set<Name>>, n2: Option<set<Name>>, q1: Result, q2: Result, x: Name)
    requires StateBelow(a, b, x) && ResultBelow(f1, f2, x) && BelowOpt(k1, k2, x) && BelowOpt(n1, n2, x)
    requires ResultBelow(q1, q2, x)
    ensures ResultBelow(LoopExit(endless, a, f1, k1, n1, q1), LoopExit(endless, b, f2, k2, n2, q2), x)
  {
    LogBelowConcat(f1.log, q1.log, f2.log, q2.log, x);
  }
}
