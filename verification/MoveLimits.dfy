/** For each restriction of the soundness theorem on what programs do, a silent program with a
    faulty run: a move that a jump, an assignment or the step of a loop hides from the checker,
    and with breaks a loop whose second pass is not enough. */
module MoveLimits {
  import opened Ast
  import opened Runs
  import opened MoveSpec
  import opened MoveLoops

  const START := State({}, false, None, None)
  const MODE := Mode(false, None, false)
  const X: set<Name> := {"x"}

  function Do(e: Expr): Stmt { ExprStmt(e) }

  function Seq2(a: Stmt, b: Stmt): Stmt { Block(Cons(a, Cons(b, Nil))) }

  /** `f(x)`, at the given line. */
  function Pass(line: nat): Expr { Call(Var("f", line), Cons(Var("x", line), Nil), false) }

  ghost predicate Unreported(log: Log) {
    forall i :: 0 <= i < |log| ==> !log[i].reported
  }

  lemma PassFacts(line: nat, mode: Mode, cur: set<Name>, dead: bool)
    requires "f" !in cur && "x" !in cur
    ensures var r := CheckExpr(Pass(line), X, false, mode, cur, dead); r.cur == cur + X && Unreported(r.log)
  {
    var f, arg := Var("f", line), Var("x", line);
    var args := Cons(arg, Nil);
    assert CheckArgs(Nil, X, false, mode, cur + X, dead) == ExprResult(cur + X, []);
    assert CheckExpr(arg, X, false, mode, cur, dead) == ExprResult(cur, [VisitOf("x", line, mode, cur, dead)]);
    assert CheckArgs(args, X, false, mode, cur, dead) == ExprResult(cur + X, [VisitOf("x", line, mode, cur, dead)] + []);
    assert CheckExpr(f, X, false, mode, cur, dead) == ExprResult(cur, [VisitOf("f", line, mode, cur, dead)]);
  }

  lemma PassRuns(line: nat, ch: Choices)
    ensures RunStmt(Do(Pass(line)), X, {}, ch) == Run(Normal, X, ch, [], false)
  {
    var args := Cons(Var("x", line), Nil);
    assert {} + X == X;
    assert RunArgs(Nil, X, X, ch) == ExprRun(true, X, ch, []);
    assert RunArgs(args, X, {}, ch) == ExprRun(true, X, ch, [] + []);
    assert RunExpr(Pass(line), X, {}, ch) == ExprRun(true, X, ch, [] + ([] + []));
  }

  /** `loop { if c { f(x); break; } } x;` */
  const LEFT := Loop(None, If(Var("c", 1), Seq2(Do(Pass(2)), Break(None)), None))
  const HIDDEN := Seq2(LEFT, Do(Var("x", 3)))

  lemma LeftPass(m: Mode)
    ensures var r := LoopPass(LEFT, X, m, START);
            r.st.cur == {} && !r.st.dead && r.st.cont == None && r.entry == {} && (m.only ==> r.st.brk == None) && Unreported(r.log)
  {
    PassFacts(2, m, {}, false);
    var a := Check(Do(Pass(2)), X, m, START);
    var rest := CheckList(Cons(Break(None), Nil), X, m, a.st);
    assert CheckList(Nil, X, m, Check(Break(None), X, m, a.st).st).log == [];
    assert rest.st.dead && rest.log == [];
    var t := Check(LEFT.body.thenBody, X, m, START);
    assert t.st.dead && t.log == a.log + rest.log;
    var c := CheckExpr(Var("c", 1), X, false, m, {}, false);
    assert c.log == [VisitOf("c", 1, m, {}, false)];
    assert Check(LEFT.body, X, m, START).log == c.log + t.log + [];
    assert Unreported(c.log + t.log + []);
  }

  lemma LeftLoop()
    ensures var r := Check(LEFT, X, MODE, START); r.st.cur == {} && Unreported(r.log)
  {
    LeftPass(FirstMode(MODE, {}));
    LeftPass(SecondMode({}));
    LoopFacts(LEFT, MODE, START);
  }

  /** A loop without a set-up, from its passes. */
  lemma LoopFacts(s: Stmt, m: Mode, st: State)
    requires (s.While? || s.Loop? || (s.For? && s.start.None?)) && !st.dead && st.brk == None && st.cont == None
    ensures var p := FirstPass(s, X, m, st.cur);
      var q := SecondPass(s, X, st.cur, NextIter(p));
      var r := Check(s, X, m, st);
      && r == LoopExit(s.Loop?, st, Chain(InPlace(st, ExprResult(st.cur, [])), p), p.st.brk, NextIter(p), q)
      && (Unreported(p.log) && Unreported(q.log) ==> Unreported(r.log))
  {
    var m0 := Mode(false, Some(st.cur), m.only);
    assert LoopSetup(s, X, m0, st) == InPlace(st, ExprResult(st.cur, []));
    assert st == State(st.cur, false, None, None);
    assert Check(s, X, m, st) == CheckLoop(s, X, m, st);
  }

  lemma HiddenRuns()
    ensures RunStmt(HIDDEN, X, {}, [1, 1]).faults != []
  {
    LeftRuns();
    assert RunList(Cons(Do(Var("x", 3)), Nil), X, X, []).faults == [Fault("x", 3)] + [];
  }

  lemma LeftRuns()
    ensures var r := RunStmt(LEFT, X, {}, [1, 1]); r.out == Normal && r.moved == X && r.rest == []
  {
    assert [1, 1][1..] == [1];
    LeavingRuns();
    BreakEnds(LEFT, [1, 1]);
  }

  /** A round that breaks out of its loop ends it. */
  lemma BreakEnds(s: Stmt, ch: Choices)
    requires s.Loop? && ch != [] && RunStmt(s.body, X, {}, ch[1..]).out == Broke(None)
    ensures var b, r := RunStmt(s.body, X, {}, ch[1..]), RunStmt(s, X, {}, ch);
      r.out == Normal && r.moved == b.moved && r.rest == b.rest
  {
    var b := RunBody(s, X, {}, ch[1..]);
    assert LoopTest(s) == None && b == RunStmt(s.body, X, {}, ch[1..]) && Targets(b.out.target, s.tag);
    assert RunStmt(s, X, {}, ch) == RunLoop(s, X, {}, ch) == Then(RunOptExpr(None, X, {}, ch), b.(out := Normal));
  }

  /** A round after which the loop goes on. */
  lemma RoundPasses(s: Stmt, moved: set<Name>, ch: Choices)
    requires (s.While? || (s.For? && s.start.None?)) && ch != [] && ch[0] != 0
    requires RunOptExpr(LoopTest(s), X, moved, ch) == ExprRun(true, moved, ch, [])
    requires var b := RunBody(s, X, moved, ch[1..]); b.out.Continued? && Targets(b.out.target, s.tag) && b.faults == []
    requires var b := RunBody(s, X, moved, ch[1..]); var e := RunOptExpr(LoopStep(s), X, b.moved, b.rest); e.done && e.faults == []
    ensures var b := RunBody(s, X, moved, ch[1..]);
      var e := RunOptExpr(LoopStep(s), X, b.moved, b.rest);
      RunStmt(s, X, moved, ch).faults == RunLoop(s, X, e.moved, e.rest).faults
  {
    var b := RunBody(s, X, moved, ch[1..]);
    var e := RunOptExpr(LoopStep(s), X, b.moved, b.rest);
    var more := RunLoop(s, X, e.moved, e.rest).faults;
    assert RunLoop(s, X, moved, ch).faults == [] + ([] + ([] + more)) == more;
    assert RunStmt(s, X, moved, ch).faults == if s.For? then [] + RunLoop(s, X, moved, ch).faults else RunLoop(s, X, moved, ch).faults;
  }

  lemma LeavingRuns()
    ensures var r := RunStmt(LEFT.body, X, {}, [1]); r.out == Broke(None) && r.moved == X && r.rest == []
  {
    var leave := LEFT.body.thenBody;
    assert [1][1..] == [];
    PassRuns(2, []);
    assert RunList(Cons(Break(None), Nil), X, X, []).out == Broke(None);
    assert RunStmt(leave, X, {}, []).out == Broke(None) && RunStmt(leave, X, {}, []).moved == X;
  }

  /** A move followed by a break: the second pass forgets the state at the break, so the code
      after the loop is taken for unreachable and `x` for valid. */
  lemma BreakHidesMove()
    ensures Unreported(Check(HIDDEN, X, MODE, START).log) && RunStmt(HIDDEN, X, {}, [1, 1]).faults != []
  {
    LeftLoop();
    var r := Check(LEFT, X, MODE, START);
    var use := Do(Var("x", 3));
    var after := Check(use, X, MODE, r.st);
    assert after.log == [VisitOf("x", 3, MODE, {}, r.st.dead)];
    assert CheckList(Cons(use, Nil), X, MODE, r.st).log == after.log + [];
    assert Check(HIDDEN, X, MODE, START).log == r.log + (after.log + []);
    HiddenRuns();
  }

  /** `f(x); while c { x = g; } x;` */
  const AGAIN := While(None, Var("c", 2), Do(Binary(Set, Var("x", 3), Var("g", 3))))
  const RESET := Seq2(AGAIN, Do(Var("x", 4)))
  const REVIVED := Seq2(Do(Pass(1)), RESET)

  lemma AgainPass(m: Mode, cur: set<Name>)
    requires cur <= X
    ensures var r := LoopPass(AGAIN, X, m, State(cur, false, None, None));
            r.st == State({}, false, None, None) && Unreported(r.log)
  {
    var b := Check(AGAIN.body, X, m, State(cur, false, None, None));
    assert b.st.cur == {} by { assert cur - {"x"} == {}; }
    assert b.log == [] + [VisitOf("g", 3, m, cur, false)];
    assert CheckOptExpr(LoopTest(AGAIN), X, m, cur, false).log == [VisitOf("c", 2, m, cur, false)];
  }

  lemma AgainLoop()
    ensures var r := Check(AGAIN, X, MODE, State(X, false, None, None)); r.st.cur == {} && Unreported(r.log)
  {
    var st := State(X, false, None, None);
    AgainPass(FirstMode(MODE, X), X);
    AgainPass(SecondMode(X), {});
    LoopFacts(AGAIN, MODE, st);
  }

  lemma RevivedRuns()
    ensures RunStmt(REVIVED, X, {}, [0]).faults != []
  {
    PassRuns(1, [0]);
    assert [0][1..] == [];
    assert RunStmt(AGAIN, X, X, [0]) == Run(Normal, X, [], [], false);
    assert RunList(Cons(Do(Var("x", 4)), Nil), X, X, []).faults == [Fault("x", 4)] + [];
    assert RunStmt(RESET, X, X, [0]).faults == [] + ([Fault("x", 4)] + []);
    assert RunList(Cons(RESET, Nil), X, X, [0]).faults[0] == Fault("x", 4);
  }

  /** A variable moved before a loop and assigned in it: the state after the loop is the one
      after an iteration, although the loop may run no iteration at all. */
  lemma ReinitialisedInLoop()
    ensures Unreported(Check(REVIVED, X, MODE, START).log) && RunStmt(REVIVED, X, {}, [0]).faults != []
  {
    var st := State(X, false, None, None);
    PassFacts(1, MODE, {}, false);
    assert {} + X == X;
    AgainLoop();
    var r := Check(AGAIN, X, MODE, st);
    var use := Do(Var("x", 4));
    var after := Check(use, X, MODE, r.st);
    assert after.log == [VisitOf("x", 4, MODE, {}, r.st.dead)];
    assert CheckList(Cons(use, Nil), X, MODE, r.st).log == after.log + [];
    assert Check(RESET, X, MODE, st).log == r.log + (after.log + []);
    var first := Check(Do(Pass(1)), X, MODE, START);
    assert first.st == st;
    assert CheckList(Cons(RESET, Nil), X, MODE, st).log == Check(RESET, X, MODE, st).log + [];
    assert Check(REVIVED, X, MODE, START).log == first.log + (Check(RESET, X, MODE, st).log + []);
    RevivedRuns();
  }

  /** `while c { if d { f(x); break; } else { break; } }`, checked with x valid. */
  const LEAVE := Seq2(Do(Pass(4)), Break(None))
  const INNER := While(None, Var("c", 2), If(Var("d", 3), LEAVE, Some(Break(None))))

  lemma InnerPass(m: Mode)
    ensures var r := LoopPass(INNER, X, m, START);
            r.st.dead && r.st.cont == None && r.entry == {} && r.st.brk == if m.only then None else Some(X)
  {
    PassFacts(4, m, {}, false);
    assert {} + X == X;
    TwoStatements(Do(Pass(4)), Break(None), m, START);
    var t := Check(LEAVE, X, m, START);
    assert t.st.dead && t.st.brk == (if m.only then None else Some(X)) && t.st.cont == None;
    var e := Check(Break(None), X, m, START.(brk := t.st.brk));
    assert e.st.dead && e.st.brk == t.st.brk by { assert X + {} == X; }
    assert Check(INNER.body, X, m, START).st.cur == {};
  }

  lemma InnerLoop(m: Mode)
    ensures var r := Check(INNER, X, m, START); !r.st.dead && r.st.cont == None && r.st.cur == if m.only then {} else X
  {
    InnerPass(FirstMode(m, {}));
    LoopFacts(INNER, m, START);
  }

  /** `loop { x = g; while c { if d { f(x); break; } else { break; } } }`: with breaks recorded
      in the first pass only, the loop head of a third pass differs from that of the second. */
  lemma BreaksDefeatTwoPasses()
    ensures var s := Loop(None, Seq2(Do(Binary(Set, Var("x", 1), Var("g", 1))), INNER));
            NextIter(FirstPass(s, X, MODE, {})) == Some(X) && NextIter(PassFrom(s, X, {}, X)) == Some({})
  {
    var set_x := Do(Binary(Set, Var("x", 1), Var("g", 1)));
    var s := Loop(None, Seq2(set_x, INNER));
    forall m: Mode, cur: set<Name> | cur <= X
      ensures NextIter(LoopPass(s, X, m, State(cur, false, None, None))) == Some(if m.only then {} else X)
    {
      var st := State(cur, false, None, None);
      var a := Check(set_x, X, m, st);
      assert a.st == START by { assert cur - {"x"} == {}; }
      InnerLoop(m);
      var b := Check(INNER, X, m, START);
      assert CheckList(Cons(INNER, Nil), X, m, START).st == b.st;
      assert Check(Seq2(set_x, INNER), X, m, st).st == b.st;
    }
  }

  // ---------- assignments ----------

  lemma TwoStatements(a: Stmt, b: Stmt, m: Mode, st: State)
    ensures var x := Check(a, X, m, st);
      var y := Check(b, X, m, x.st);
      var r := Check(Seq2(a, b), X, m, st);
      r.st == y.st && r.log == x.log + (y.log + [])
  {
    var x := Check(a, X, m, st);
    var y := Check(b, X, m, x.st);
    var tail := CheckList(Cons(b, Nil), X, m, x.st);
    assert CheckList(Nil, X, m, y.st) == InPlace(y.st, ExprResult(y.st.cur, []));
    assert tail.st == y.st && tail.log == y.log + [];
    assert Check(Seq2(a, b), X, m, st) == CheckList(Cons(a, Cons(b, Nil)), X, m, st) == Chain(x, tail);
  }

  /** `f(x)` and then a statement the checker has nothing to say about. */
  lemma AfterPass(next: Stmt, ch: Choices)
    requires Unreported(Check(next, X, MODE, State(X, false, None, None)).log) && RunStmt(next, X, X, ch).faults != []
    ensures Unreported(Check(Seq2(Do(Pass(1)), next), X, MODE, START).log)
    ensures RunStmt(Seq2(Do(Pass(1)), next), X, {}, ch).faults != []
  {
    PassFacts(1, MODE, {}, false);
    assert {} + X == X;
    TwoStatements(Do(Pass(1)), next, MODE, START);
    var a, b := Check(Do(Pass(1)), X, MODE, START), Check(next, X, MODE, State(X, false, None, None));
    assert a.st == State(X, false, None, None) && Unreported(a.log) && Unreported(a.log + (b.log + []));
    PassRuns(1, ch);
    var rest := RunList(Cons(next, Nil), X, X, ch);
    assert rest.faults != [];
    var both := Cons(Do(Pass(1)), Cons(next, Nil));
    assert RunList(both, X, {}, ch).faults == [] + rest.faults == rest.faults;
    assert RunStmt(Block(both), X, {}, ch).faults == RunList(both, X, {}, ch).faults;
  }

  /** `f(x); x[0] = g;`: a variable in an assignment target is not checked. */
  lemma IndexedTargetHidden()
    ensures var s := Seq2(Do(Pass(1)), Do(Binary(Set, Index(Var("x", 2), IntLit(0)), Var("g", 2))));
      Unreported(Check(s, X, MODE, START).log) && RunStmt(s, X, {}, []).faults != []
  {
    var l, r, st := Index(Var("x", 2), IntLit(0)), Var("g", 2), State(X, false, None, None);
    var e := Binary(Set, l, r);
    assert CheckExpr(l, X, true, MODE, X, false) == ExprResult(X, [] + []);
    assert CheckExpr(e, X, false, MODE, X, false).log == [] + [VisitOf("g", 2, MODE, X, false)];
    assert RunExpr(Var("x", 2), X, X, []).faults == [Fault("x", 2)];
    assert RunExpr(l, X, X, []).faults == [Fault("x", 2)] + [];
    assert RunExpr(e, X, X, []).faults[0] == Fault("x", 2);
    AfterPass(Do(e), []);
  }

  /** `f(x); x += g;`: nor is it checked that a compound assignment reads its target. */
  lemma CompoundTargetHidden()
    ensures var s := Seq2(Do(Pass(1)), Do(Binary(AddSet, Var("x", 2), Var("g", 2))));
      Unreported(Check(s, X, MODE, START).log) && RunStmt(s, X, {}, []).faults != []
  {
    var l, r := Var("x", 2), Var("g", 2);
    var e := Binary(AddSet, l, r);
    assert CheckExpr(l, X, true, MODE, X, false) == ExprResult(X, []);
    assert CheckExpr(e, X, false, MODE, X, false).log == [] + [VisitOf("g", 2, MODE, X, false)];
    assert RunExpr(l, X, X, []).faults == [Fault("x", 2)];
    assert RunExpr(e, X, X, []).faults[0] == Fault("x", 2);
    AfterPass(Do(e), []);
  }

  /** `f(x); { c && (x = g); x; }`: the checker takes the right operand for evaluated. */
  lemma SkippedAssignmentHidden()
    ensures var s := Seq2(Do(Pass(1)), Seq2(Do(Binary(And, Var("c", 2), Binary(Set, Var("x", 2), Var("g", 2)))), Do(Var("x", 3))));
      Unreported(Check(s, X, MODE, START).log) && RunStmt(s, X, {}, [0]).faults != []
  {
    var e, use := Binary(And, Var("c", 2), Binary(Set, Var("x", 2), Var("g", 2))), Do(Var("x", 3));
    SkippedAssignmentSilent(e, use);
    SkippedAssignmentRuns(e, use);
    AfterPass(Seq2(Do(e), use), [0]);
  }

  lemma SkippedAssignmentSilent(e: Expr, use: Stmt)
    requires e == Binary(And, Var("c", 2), Binary(Set, Var("x", 2), Var("g", 2))) && use == Do(Var("x", 3))
    ensures Unreported(Check(Seq2(Do(e), use), X, MODE, State(X, false, None, None)).log)
  {
    var st := State(X, false, None, None);
    SkippedAssignmentChecked(e.right, e);
    var a := Check(Do(e), X, MODE, st);
    assert a == InPlace(st, CheckExpr(e, X, false, MODE, X, false)) && a.st == START;
    UseIsSilent(use);
    TwoStatements(Do(e), use, MODE, st);
    UnreportedConcat(a.log, Check(use, X, MODE, START).log + []);
  }

  lemma UseIsSilent(use: Stmt)
    requires use == Do(Var("x", 3))
    ensures Unreported(Check(use, X, MODE, START).log + [])
  {
    assert Check(use, X, MODE, START).log == [VisitOf("x", 3, MODE, {}, false)];
  }

  lemma UnreportedConcat(a: Log, b: Log)
    requires Unreported(a) && Unreported(b)
    ensures Unreported(a + b)
  {
  }

  lemma SkippedAssignmentChecked(set_x: Expr, e: Expr)
    requires set_x == Binary(Set, Var("x", 2), Var("g", 2)) && e == Binary(And, Var("c", 2), set_x)
    ensures var r := CheckExpr(e, X, false, MODE, X, false); r.cur == {} && Unreported(r.log)
  {
    RevivalChecked(set_x);
    assert CheckExpr(Var("c", 2), X, false, MODE, X, false) == ExprResult(X, [VisitOf("c", 2, MODE, X, false)]);
    assert CheckExpr(e, X, false, MODE, X, false).log == [VisitOf("c", 2, MODE, X, false)] + ([] + [VisitOf("g", 2, MODE, X, false)]);
  }

  lemma RevivalChecked(set_x: Expr)
    requires set_x == Binary(Set, Var("x", 2), Var("g", 2))
    ensures CheckExpr(set_x, X, false, MODE, X, false) == ExprResult({}, [] + [VisitOf("g", 2, MODE, X, false)])
  {
    assert X + {} - {"x"} == {};
  }

  lemma SkippedAssignmentRuns(e: Expr, use: Stmt)
    requires e == Binary(And, Var("c", 2), Binary(Set, Var("x", 2), Var("g", 2))) && use == Do(Var("x", 3))
    ensures RunStmt(Seq2(Do(e), use), X, X, [0]).faults == [Fault("x", 3)]
  {
    assert [0][1..] == [];
    assert RunStmt(Do(e), X, X, [0]) == Run(Normal, X, [], [], false);
    assert RunList(Cons(use, Nil), X, X, []).faults == [Fault("x", 3)] + [];
    assert RunStmt(Seq2(Do(e), use), X, X, [0]).faults == [] + ([Fault("x", 3)] + []);
  }

  // ---------- jumps and steps ----------

  /** `for (; c; f(x)) { continue; }` */
  const STEPPING := For(None, None, Some(Var("c", 1)), Some(Pass(2)), Some(Continue(None)))

  lemma SteppingPass(m: Mode)
    ensures var r := LoopPass(STEPPING, X, m, START);
      r.st.dead && r.st.cont == Some({}) && r.st.brk == None && Unreported(r.log)
  {
    PassFacts(2, m, {}, true);
    var b := Check(Continue(None), X, m, START);
    assert b.st == State({}, true, None, Some({}));
    assert CheckOptExpr(LoopTest(STEPPING), X, m, {}, false).log == [VisitOf("c", 1, m, {}, false)];
  }

  lemma SteppingSilent()
    ensures Unreported(Check(STEPPING, X, MODE, START).log)
  {
    SteppingPass(FirstMode(MODE, {}));
    SteppingPass(SecondMode({}));
    LoopFacts(STEPPING, MODE, START);
  }

  /** A path that continues skips the step in the checker, but not in a run. */
  lemma StepAfterContinueHidden()
    ensures Unreported(Check(STEPPING, X, MODE, START).log) && RunStmt(STEPPING, X, {}, [1, 1]).faults != []
  {
    SteppingSilent();
    SteppingRuns([1, 1]);
  }

  lemma SteppingRuns(ch: Choices)
    requires ch == [1, 1]
    ensures RunStmt(STEPPING, X, {}, ch).faults != []
  {
    SteppingFaults();
    assert ch[1..] == [1];
    PassRuns(2, [1]);
    assert RunExpr(Pass(2), X, {}, [1]) == ExprRun(true, X, [1], []);
    assert RunBody(STEPPING, X, {}, [1]) == Run(Continued(None), {}, [1], [], false);
    assert RunExpr(Var("c", 1), X, {}, ch) == ExprRun(true, {}, ch, []);
    RoundPasses(STEPPING, {}, ch);
  }

  lemma SteppingFaults()
    ensures RunLoop(STEPPING, X, X, [1]).faults != []
  {
    assert [1][1..] == [];
    var args := Cons(Var("x", 2), Nil);
    assert RunExpr(Var("x", 2), X, X, []) == ExprRun(true, X, [], [Fault("x", 2)]);
    assert RunArgs(args, X, X, []).faults[0] == Fault("x", 2);
    assert RunExpr(Pass(2), X, X, []).faults == [] + RunArgs(args, X, X, []).faults;
    assert RunBody(STEPPING, X, X, []) == Run(Continued(None), X, [], [], false);
    assert RunExpr(Var("c", 1), X, X, [1]) == ExprRun(true, X, [1], []);
  }

  /** `while a { f(x); while c { continue outer; } return; }`, the first loop labelled `outer`. */
  const HOP := While(None, Var("c", 3), Continue(Some("outer")))
  const HOPPING := While(Some("outer"), Var("a", 1), Seq2(Do(Pass(2)), Seq2(HOP, Return(None))))

  lemma HopPass(m: Mode)
    ensures var r := LoopPass(HOP, X, m, State(X, false, None, None));
      r.st == State(X, true, None, Some(X)) && Unreported(r.log)
  {
    assert CheckOptExpr(LoopTest(HOP), X, m, X, false).log == [VisitOf("c", 3, m, X, false)];
  }

  lemma HopLoop(m: Mode)
    ensures var r := Check(HOP, X, m, State(X, false, None, None)); r.st == State(X, false, None, None) && Unreported(r.log)
  {
    HopPass(FirstMode(m, X));
    HopPass(SecondMode(X));
    LoopFacts(HOP, m, State(X, false, None, None));
  }

  lemma HoppingPass(m: Mode)
    ensures var r := LoopPass(HOPPING, X, m, START); r.st.dead && r.st.cont == None && r.st.brk == None && Unreported(r.log)
  {
    HoppingBodyPass(HOPPING.body, m);
    var a, b := CheckOptExpr(LoopTest(HOPPING), X, m, {}, false), Check(HOPPING.body, X, m, START);
    assert a == ExprResult({}, [VisitOf("a", 1, m, {}, false)]);
    UnreportedConcat(a.log, b.log);
  }

  lemma HoppingBodyPass(body: Stmt, m: Mode)
    requires body == HOPPING.body
    ensures var r := Check(body, X, m, START); r.st.dead && r.st.cont == None && r.st.brk == None && Unreported(r.log)
  {
    PassFacts(2, m, {}, false);
    assert {} + X == X;
    HopLoop(m);
    TwoStatements(HOP, Return(None), m, State(X, false, None, None));
    TwoStatements(Do(Pass(2)), Seq2(HOP, Return(None)), m, START);
  }

  /** A labelled continue is recorded for the innermost loop, so that the loop it goes to is
      taken for one that never comes back to its head. */
  lemma LabelledContinueHidden()
    ensures Unreported(Check(HOPPING, X, MODE, START).log) && RunStmt(HOPPING, X, {}, [1, 1, 1]).faults != []
  {
    HoppingPass(FirstMode(MODE, {}));
    LoopFacts(HOPPING, MODE, START);
    HoppingRuns();
  }

  lemma HoppingRuns()
    ensures RunStmt(HOPPING, X, {}, [1, 1, 1]).faults != []
  {
    assert [1, 1, 1][1..] == [1, 1];
    HoppingBody();
    HoppingFaults();
    assert RunExpr(Var("a", 1), X, {}, [1, 1, 1]) == ExprRun(true, {}, [1, 1, 1], []);
    RoundPasses(HOPPING, {}, [1, 1, 1]);
  }

  lemma HoppingBody()
    ensures RunStmt(HOPPING.body, X, {}, [1, 1]) == Run(Continued(Some("outer")), X, [1], [], false)
  {
    var out := Continued(Some("outer"));
    assert [1, 1][1..] == [1] && [1][1..] == [];
    PassRuns(2, [1, 1]);
    assert RunStmt(HOP, X, X, [1, 1]) == RunLoop(HOP, X, X, [1, 1]) == Run(out, X, [1], [], false);
    var rest := Cons(Seq2(HOP, Return(None)), Nil);
    assert RunList(Cons(HOP, Cons(Return(None), Nil)), X, X, [1, 1]) == Run(out, X, [1], [], false);
    assert RunList(rest, X, X, [1, 1]) == Run(out, X, [1], [], false);
  }

  lemma HoppingFaults()
    ensures RunLoop(HOPPING, X, X, [1]).faults != []
  {
    assert [1][1..] == [];
    var args := Cons(Var("x", 2), Nil);
    assert RunArgs(args, X, X, []).faults[0] == Fault("x", 2);
    assert RunStmt(Do(Pass(2)), X, X, []).faults[0] == Fault("x", 2);
    assert RunStmt(HOPPING.body, X, X, []).faults != [];
  }
}
