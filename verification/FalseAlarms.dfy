/** For the restrictions of the exactness theorem, programs with a report in code taken for reachable that no run
    bears out. */
module FalseAlarms {
  import opened Ast
  import opened Runs
  import opened MoveSpec
  import opened MoveLoops
  import opened MoveLimits

  /** A report where the checker believes the code reachable. */
  ghost predicate Alarm(log: Log) {
    exists i :: 0 <= i < |log| && log[i].reported && !log[i].dead
  }

  lemma AlarmBehind(a: Log, b: Log)
    requires Alarm(b)
    ensures Alarm(a + b)
  {
    var i :| 0 <= i < |b| && b[i].reported && !b[i].dead;
    assert (a + b)[|a| + i] == b[i];
  }

  lemma AlarmBefore(a: Log, b: Log)
    requires Alarm(a)
    ensures Alarm(a + b)
  {
    var i :| 0 <= i < |a| && a[i].reported && !a[i].dead;
    assert (a + b)[i] == a[i];
  }

  /** A use of x. */
  const USE := Do(Var("x", 9))

  lemma UseAlarms(m: Mode, st: State)
    requires "x" in st.cur && !st.dead && !m.pass2
    ensures Alarm(Check(USE, X, m, st).log)
  {
    assert Check(USE, X, m, st).log == [VisitOf("x", 9, m, st.cur, st.dead)];
    assert Check(USE, X, m, st).log[0].reported;
  }

  /** `a` and then a use of x, when the checker takes x for MOVED behind `a`. */
  lemma UseBehind(a: Stmt)
    requires var r := Check(a, X, MODE, START); "x" in r.st.cur && !r.st.dead
    ensures Alarm(Check(Seq2(a, USE), X, MODE, START).log)
  {
    var r := Check(a, X, MODE, START);
    TwoStatements(a, USE, MODE, START);
    UseAlarms(MODE, r.st);
    AlarmBefore(Check(USE, X, MODE, r.st).log, []);
    AlarmBehind(r.log, Check(USE, X, MODE, r.st).log + []);
  }

  /** Runs of `a` and then a use of x, when no run passes `a` with x moved. */
  lemma UseRuns(a: Stmt, ch: Choices)
    requires var r := RunStmt(a, X, {}, ch); r.faults == [] && (r.out.Normal? ==> "x" !in r.moved)
    ensures RunStmt(Seq2(a, USE), X, {}, ch).faults == []
  {
    var r := RunStmt(a, X, {}, ch);
    if r.out.Normal? {
      assert RunExpr(Var("x", 9), X, r.moved, r.rest).faults == [];
      assert RunStmt(USE, X, r.moved, r.rest).faults == [];
      assert RunList(Cons(USE, Nil), X, r.moved, r.rest).faults == [];
    }
    assert RunList(Cons(a, Cons(USE, Nil)), X, {}, ch).faults == [];
  }

  /** Runs of one statement and then another. */
  lemma TwoRuns(a: Stmt, b: Stmt, moved: set<Name>, ch: Choices)
    ensures var r := RunStmt(a, X, moved, ch);
      var t := RunStmt(Seq2(a, b), X, moved, ch);
      && (r.out.Normal? ==> var q := RunStmt(b, X, r.moved, r.rest);
           t.out == q.out && t.moved == q.moved && t.rest == q.rest && t.faults == r.faults + q.faults)
      && (!r.out.Normal? ==> t.out == r.out && t.faults == r.faults)
  {
    var r := RunStmt(a, X, moved, ch);
    if r.out.Normal? {
      var q := RunStmt(b, X, r.moved, r.rest);
      var tail := RunList(Cons(b, Nil), X, r.moved, r.rest);
      assert RunList(Nil, X, q.moved, q.rest) == Run(Normal, q.moved, q.rest, [], false);
      assert tail == if q.out.Normal? then ThenRun(q, Run(Normal, q.moved, q.rest, [], false)) else q;
    }
    assert RunStmt(Seq2(a, b), X, moved, ch).faults == RunList(Cons(a, Cons(b, Nil)), X, moved, ch).faults;
  }

  /** `f(x);` and then a statement that raises an alarm no run bears out. */
  lemma AfterMove(next: Stmt, ch: Choices)
    requires Alarm(Check(next, X, MODE, State(X, false, None, None)).log) && RunStmt(next, X, X, ch).faults == []
    ensures var s := Seq2(Do(Pass(1)), next); Alarm(Check(s, X, MODE, START).log) && RunStmt(s, X, {}, ch).faults == []
  {
    PassFacts(1, MODE, {}, false);
    assert {} + X == X;
    TwoStatements(Do(Pass(1)), next, MODE, START);
    var a, b := Check(Do(Pass(1)), X, MODE, START), Check(next, X, MODE, State(X, false, None, None));
    assert a.st == State(X, false, None, None);
    AlarmBefore(b.log, []);
    AlarmBehind(a.log, b.log + []);
    PassRuns(1, ch);
    TwoRuns(Do(Pass(1)), next, {}, ch);
  }

  // ---------- a loop that never comes back ----------

  /** `while c { f(x); return; }`: behind the loop x counts as MOVED, because no state comes back
      to its head and the one before it was changed in place. */
  lemma NeverBackAlarm(ch: Choices)
    ensures var s := Seq2(While(None, Var("c", 1), Seq2(Do(Pass(2)), Return(None))), USE);
      Alarm(Check(s, X, MODE, START).log) && RunStmt(s, X, {}, ch).faults == []
  {
    var body := Seq2(Do(Pass(2)), Return(None));
    var loop_ := While(None, Var("c", 1), body);
    NeverBackPass(loop_, body);
    UseBehind(loop_);
    NeverBackRuns(loop_, body, ch);
    UseRuns(loop_, ch);
  }

  lemma NeverBackPass(s: Stmt, body: Stmt)
    requires s == While(None, Var("c", 1), body) && body == Seq2(Do(Pass(2)), Return(None))
    ensures var r := Check(s, X, MODE, START); "x" in r.st.cur && !r.st.dead
  {
    var m := FirstMode(MODE, {});
    PassFacts(2, m, {}, false);
    TwoStatements(Do(Pass(2)), Return(None), m, START);
    var b := Check(body, X, m, START);
    assert b.st.dead && b.st.cont == None && b.st.brk == None;
    InPlaceBody(body, Do(Pass(2)), m);
    assert CheckOptExpr(LoopTest(s), X, m, {}, false).cur == {};
    LoopFacts(s, MODE, START);
  }

  /** A body of two statements that change the state in place. */
  lemma InPlaceBody(body: Stmt, a: Stmt, m: Mode)
    requires body == Seq2(a, Return(None)) && !Check(a, X, m, START).swapped
    ensures var r := Check(body, X, m, START); r.entry == r.st.cur && !r.swapped
  {
    var x := Check(a, X, m, START);
    var r := Check(Return(None), X, m, x.st);
    assert CheckList(Cons(Return(None), Nil), X, m, x.st) == Chain(r, CheckList(Nil, X, m, r.st));
  }

  lemma NeverBackRuns(s: Stmt, body: Stmt, ch: Choices)
    requires s == While(None, Var("c", 1), body) && body == Seq2(Do(Pass(2)), Return(None))
    ensures var r := RunStmt(s, X, {}, ch); r.faults == [] && (r.out.Normal? ==> r.moved == {})
  {
    assert RunOptExpr(LoopTest(s), X, {}, ch) == ExprRun(true, {}, ch, []);
    if ch != [] {
      PassRuns(2, ch[1..]);
      assert RunStmt(Return(None), X, X, ch[1..]) == Run(Returned, X, ch[1..], [], false);
      TwoRuns(Do(Pass(2)), Return(None), {}, ch[1..]);
      assert RunBody(s, X, {}, ch[1..]) == RunStmt(body, X, {}, ch[1..]);
    }
  }

  // ---------- unreachable code ----------

  /** `return;` and then anything: nothing runs. */
  lemma NothingRuns(next: Stmt, ch: Choices)
    ensures RunStmt(Seq2(Return(None), next), X, X, ch).faults == []
  {
    TwoRuns(Return(None), next, X, ch);
  }

  /** `f(x); return; while c { x; }`: the start of a loop is taken for reachable. */
  lemma DeadLoopAlarm(ch: Choices)
    ensures var s := Seq2(Do(Pass(1)), Seq2(Return(None), While(None, Var("c", 2), USE)));
      Alarm(Check(s, X, MODE, START).log) && RunStmt(s, X, {}, ch).faults == []
  {
    var loop_ := While(None, Var("c", 2), USE);
    DeadLoopChecked(loop_);
    AfterReturn(loop_, ch);
  }

  /** `f(x); return;` and then a statement that raises an alarm although it starts unreachable. */
  lemma AfterReturn(next: Stmt, ch: Choices)
    requires Alarm(Check(next, X, MODE, State(X, true, None, None)).log)
    ensures var s := Seq2(Do(Pass(1)), Seq2(Return(None), next));
      Alarm(Check(s, X, MODE, START).log) && RunStmt(s, X, {}, ch).faults == []
  {
    var st, dead := State(X, false, None, None), State(X, true, None, None);
    TwoStatements(Return(None), next, MODE, st);
    assert Check(Return(None), X, MODE, st).st == dead;
    AlarmBefore(Check(next, X, MODE, dead).log, []);
    AlarmBehind(Check(Return(None), X, MODE, st).log, Check(next, X, MODE, dead).log + []);
    NothingRuns(next, ch);
    AfterMove(Seq2(Return(None), next), ch);
  }

  lemma DeadLoopChecked(s: Stmt)
    requires s == While(None, Var("c", 2), USE)
    ensures Alarm(Check(s, X, MODE, State(X, true, None, None)).log)
  {
    var st, m := State(X, false, None, None), FirstMode(MODE, X);
    var p := FirstPass(s, X, MODE, X);
    var c := CheckOptExpr(LoopTest(s), X, m, X, false);
    assert c == ExprResult(X, [VisitOf("c", 2, m, X, false)]);
    UseAlarms(m, st);
    AlarmBehind(c.log, Check(USE, X, m, st).log);
    assert p.log == c.log + Check(USE, X, m, st).log + [];
    AlarmBefore(c.log + Check(USE, X, m, st).log, []);
    LoopInParts(s, X, MODE, State(X, true, None, None));
    var q := SecondPass(s, X, X, NextIter(p));
    AlarmBefore(p.log, q.log);
    assert Check(s, X, MODE, State(X, true, None, None)).log == [] + p.log + q.log;
    assert [] + p.log == p.log;
  }

  /** `while c { f(x); return; continue; }`: the continue is collected, although it is never reached. */
  lemma DeadContinueAlarm(ch: Choices)
    ensures var s := While(None, Var("c", 1), Seq2(Do(Pass(2)), Seq2(Return(None), Continue(None))));
      Alarm(Check(s, X, MODE, START).log) && RunStmt(s, X, {}, ch).faults == []
  {
    var body := Seq2(Do(Pass(2)), Seq2(Return(None), Continue(None)));
    var s := While(None, Var("c", 1), body);
    DeadContinueChecked(s, body);
    DeadContinueRuns(s, body, ch);
  }

  lemma DeadContinueRuns(s: Stmt, body: Stmt, ch: Choices)
    requires body == Seq2(Do(Pass(2)), Seq2(Return(None), Continue(None))) && s == While(None, Var("c", 1), body)
    ensures RunStmt(s, X, {}, ch).faults == []
  {
    assert RunOptExpr(LoopTest(s), X, {}, ch) == ExprRun(true, {}, ch, []);
    if ch != [] {
      DeadContinueBody(body, ch[1..]);
      assert RunBody(s, X, {}, ch[1..]) == RunStmt(body, X, {}, ch[1..]);
    }
    assert RunStmt(s, X, {}, ch) == RunLoop(s, X, {}, ch);
  }

  lemma DeadContinueBody(body: Stmt, ch: Choices)
    requires body == Seq2(Do(Pass(2)), Seq2(Return(None), Continue(None)))
    ensures var r := RunStmt(body, X, {}, ch); r.out.Returned? && r.faults == []
  {
    var rest := Seq2(Return(None), Continue(None));
    PassRuns(2, ch);
    TwoRuns(Return(None), Continue(None), X, ch);
    assert RunStmt(Return(None), X, X, ch).out.Returned?;
    TwoRuns(Do(Pass(2)), rest, {}, ch);
  }

  lemma DeadContinueChecked(s: Stmt, body: Stmt)
    requires body == Seq2(Do(Pass(2)), Seq2(Return(None), Continue(None))) && s == While(None, Var("c", 1), body)
    ensures Alarm(Check(s, X, MODE, START).log)
  {
    DeadContinueCollected(body);
    var p := FirstPass(s, X, MODE, {});
    assert NextIter(p) == Some(X);
    MovedAgain(s, body);
    SecondAlarms(s, X);
  }

  lemma DeadContinueCollected(body: Stmt)
    requires body == Seq2(Do(Pass(2)), Seq2(Return(None), Continue(None)))
    ensures var b := Check(body, X, FirstMode(MODE, {}), START); b.st.dead && b.st.cont == Some(X)
  {
    var m := FirstMode(MODE, {});
    var rest, st := Seq2(Return(None), Continue(None)), State(X, false, None, None);
    PassFacts(2, m, {}, false);
    assert {} + X == X && Check(Do(Pass(2)), X, m, START).st == st;
    DeadContinue(rest, m);
    TwoStatements(Do(Pass(2)), rest, m, START);
  }

  lemma DeadContinue(s: Stmt, m: Mode)
    requires s == Seq2(Return(None), Continue(None))
    ensures Check(s, X, m, State(X, false, None, None)).st == State(X, true, None, Some(X))
  {
    TwoStatements(Return(None), Continue(None), m, State(X, false, None, None));
  }

  lemma SecondAlarms(s: Stmt, n: set<Name>)
    requires s.While? && NextIter(FirstPass(s, X, MODE, {})) == Some(n)
    requires Alarm(LoopPass(s, X, SecondMode({}), State(n, false, None, None)).log)
    ensures Alarm(Check(s, X, MODE, START).log)
  {
    LoopFacts(s, MODE, START);
    AlarmBehind(Chain(InPlace(START, ExprResult({}, [])), FirstPass(s, X, MODE, {})).log, SecondPass(s, X, {}, Some(n)).log);
  }

  /** The second pass over a body that starts with `f(x)`, from a state in which x is MOVED. */
  lemma MovedAgain(s: Stmt, body: Stmt)
    requires body == Seq2(Do(Pass(2)), Seq2(Return(None), Continue(None))) && s == While(None, Var("c", 1), body)
    ensures Alarm(LoopPass(s, X, SecondMode({}), State(X, false, None, None)).log)
  {
    var m, st := SecondMode({}), State(X, false, None, None);
    var c := CheckOptExpr(LoopTest(s), X, m, X, false);
    assert c == ExprResult(X, [VisitOf("c", 1, m, X, false)]);
    var a := Check(Do(Pass(2)), X, m, st);
    PassAlarms(m);
    var b := Check(body, X, m, st);
    var rest := Check(Seq2(Return(None), Continue(None)), X, m, a.st);
    TwoStatements(Do(Pass(2)), Seq2(Return(None), Continue(None)), m, st);
    AlarmBefore(a.log, rest.log + []);
    AlarmBehind(c.log, b.log);
    assert LoopPass(s, X, m, st).log == c.log + b.log + [];
    AlarmBefore(c.log + b.log, []);
  }

  lemma PassAlarms(m: Mode)
    requires m == SecondMode({})
    ensures Alarm(Check(Do(Pass(2)), X, m, State(X, false, None, None)).log)
  {
    var f, arg := Var("f", 2), Var("x", 2);
    var a := CheckExpr(arg, X, false, m, X, false);
    assert a.log == [VisitOf("x", 2, m, X, false)] && a.log[0].reported;
    var rest := CheckArgs(Nil, X, false, m, a.cur + Taken(arg, X), false).log;
    AlarmBefore(a.log, rest);
    AlarmBehind(CheckExpr(f, X, false, m, X, false).log, a.log + rest);
    assert CheckExpr(f, X, false, m, X, false).cur == X;
  }

  /** `f(x); return; match c { } x;`: without a default arm the code behind a match is taken for reachable. */
  lemma DeadMatchAlarm(ch: Choices)
    ensures var s := Seq2(Do(Pass(1)), Seq2(Return(None), Seq2(Match(Var("c", 2), Nil), USE)));
      Alarm(Check(s, X, MODE, START).log) && RunStmt(s, X, {}, ch).faults == []
  {
    var m := Match(Var("c", 2), Nil);
    var dead := State(X, true, None, None);
    var r := Check(m, X, MODE, dead);
    assert CheckExpr(Var("c", 2), X, false, MODE, X, true).cur == X;
    assert r.st == State(X, false, None, None);
    TwoStatements(m, USE, MODE, dead);
    UseAlarms(MODE, r.st);
    AlarmBefore(Check(USE, X, MODE, r.st).log, []);
    AlarmBehind(r.log, Check(USE, X, MODE, r.st).log + []);
    AfterReturn(Seq2(m, USE), ch);
  }

  // ---------- assignments and endless loops ----------

  /** `x = g` */
  const REVIVE := Do(Binary(Set, Var("x", 3), Var("g", 3)))

  /** `f(x); if c { x = g; } else { x = g; } x;`: the state before an `if` is changed in place, so
      that no assignment in its branches takes effect behind it. */
  lemma RevivedInBothAlarm(ch: Choices)
    ensures var s := Seq2(Do(Pass(1)), Seq2(If(Var("c", 2), REVIVE, Some(REVIVE)), USE));
      Alarm(Check(s, X, MODE, START).log) && RunStmt(s, X, {}, ch).faults == []
  {
    var branch := If(Var("c", 2), REVIVE, Some(REVIVE));
    BranchChecked(branch);
    BranchRuns(branch, ch);
    var st := State(X, false, None, None);
    var r := Check(branch, X, MODE, st);
    TwoStatements(branch, USE, MODE, st);
    UseAlarms(MODE, r.st);
    AlarmBefore(Check(USE, X, MODE, r.st).log, []);
    AlarmBehind(r.log, Check(USE, X, MODE, r.st).log + []);
    TwoRuns(branch, USE, X, ch);
    AfterMove(Seq2(branch, USE), ch);
  }

  lemma BranchChecked(s: Stmt)
    requires s == If(Var("c", 2), REVIVE, Some(REVIVE))
    ensures var r := Check(s, X, MODE, State(X, false, None, None)); "x" in r.st.cur && !r.st.dead
  {
    assert CheckExpr(Var("c", 2), X, false, MODE, X, false).cur == X;
    assert !Check(REVIVE, X, MODE, State(X, false, None, None)).st.dead;
  }

  lemma BranchRuns(s: Stmt, ch: Choices)
    requires s == If(Var("c", 2), REVIVE, Some(REVIVE))
    ensures var r := RunStmt(s, X, X, ch); r.faults == [] && (r.out.Normal? ==> r.moved == {})
  {
    assert RunExpr(Var("c", 2), X, X, ch) == ExprRun(true, X, ch, []);
    if ch != [] {
      assert X + {} - {"x"} == {};
      assert RunStmt(REVIVE, X, X, ch[1..]) == Run(Normal, {}, ch[1..], [], false);
    }
  }

  /** `f(x); for (;;) { } x;`: a `for` without a condition counts as one that can end. */
  lemma EndlessForAlarm(ch: Choices)
    ensures var s := Seq2(Do(Pass(1)), Seq2(For(None, None, None, None, None), USE));
      Alarm(Check(s, X, MODE, START).log) && RunStmt(s, X, {}, ch).faults == []
  {
    var loop_ := For(None, None, None, None, None);
    var st := State(X, false, None, None);
    LoopFacts(loop_, MODE, st);
    var r := Check(loop_, X, MODE, st);
    assert NextIter(FirstPass(loop_, X, MODE, X)) == Some(X);
    assert SecondPass(loop_, X, X, Some(X)).st.brk == None;
    assert "x" in r.st.cur && !r.st.dead;
    TwoStatements(loop_, USE, MODE, st);
    UseAlarms(MODE, r.st);
    AlarmBefore(Check(USE, X, MODE, r.st).log, []);
    AlarmBehind(r.log, Check(USE, X, MODE, r.st).log + []);
    NeverEnds(loop_, ch);
    TwoRuns(loop_, USE, X, ch);
    AfterMove(Seq2(loop_, USE), ch);
  }

  lemma {:induction false} NeverEnds(s: Stmt, ch: Choices)
    requires s == For(None, None, None, None, None)
    ensures var r := RunLoop(s, X, X, ch); r.out.Cut? && r.faults == []
    decreases |ch|
  {
    if ch != [] {
      NeverEnds(s, ch[1..]);
    }
  }

  // ---------- breaks ----------

  /** `if d { break; } f(x); return;` */
  const LEAVING := Seq2(If(Var("d", 3), Break(None), None), Seq2(Do(Pass(4)), Return(None)))

  /** `while a { while c { if d { break; } f(x); return; } x; }`: the second pass over the outer loop
      records no breaks in the inner one, and takes what was changed in place for the state behind it. */
  lemma BreakAlarm(ch: Choices)
    ensures var s := While(None, Var("a", 1), Seq2(While(None, Var("c", 2), LEAVING), USE));
      Alarm(Check(s, X, MODE, START).log) && RunStmt(s, X, {}, ch).faults == []
  {
    var inner := While(None, Var("c", 2), LEAVING);
    var s := While(None, Var("a", 1), Seq2(inner, USE));
    InnerChecked(inner, FirstMode(MODE, {}));
    InnerChecked(inner, SecondMode({}));
    OuterChecked(s, inner);
    OuterRuns(s, inner, ch);
  }

  lemma LeavingChecked(body: Stmt, m: Mode)
    requires body == LEAVING
    ensures var r := Check(body, X, m, START);
      r.st.dead && r.st.cont == None && r.entry == X && r.st.brk == if m.only then None else Some({})
  {
    var branch, rest := If(Var("d", 3), Break(None), None), Seq2(Do(Pass(4)), Return(None));
    var a := Check(branch, X, m, START);
    assert CheckExpr(Var("d", 3), X, false, m, {}, false).cur == {};
    assert a.st == State({}, false, if m.only then None else Some({}), None) && !a.swapped;
    PassFacts(4, m, {}, false);
    assert {} + X == X;
    MoveAndReturn(rest, m, a.st);
    var tail := CheckList(Cons(rest, Nil), X, m, a.st);
    var r := Check(rest, X, m, a.st);
    assert tail == Chain(r, InPlace(r.st, ExprResult(r.st.cur, [])));
    assert Check(body, X, m, START) == Chain(a, tail);
  }

  lemma MoveAndReturn(s: Stmt, m: Mode, st: State)
    requires s == Seq2(Do(Pass(4)), Return(None)) && st.cur == {} && !st.dead
    ensures var r := Check(s, X, m, st); r.st == st.(cur := X, dead := true) && r.entry == X && !r.swapped
  {
    PassFacts(4, m, {}, false);
    assert {} + X == X;
    var a := Check(Do(Pass(4)), X, m, st);
    assert a.st == st.(cur := X) && !a.swapped;
    var b := Check(Return(None), X, m, a.st);
    assert CheckList(Cons(Return(None), Nil), X, m, a.st) == Chain(b, InPlace(b.st, ExprResult(b.st.cur, [])));
  }

  lemma InnerChecked(s: Stmt, m: Mode)
    requires s == While(None, Var("c", 2), LEAVING)
    ensures var r := Check(s, X, m, START); r.st == State(if m.only then X else {}, false, None, None)
  {
    var p := FirstPass(s, X, m, {});
    LeavingChecked(LEAVING, FirstMode(m, {}));
    var c, b := CheckOptExpr(LoopTest(s), X, FirstMode(m, {}), {}, false), Check(LEAVING, X, FirstMode(m, {}), START);
    assert c.cur == {};
    PassInParts(s, X, FirstMode(m, {}), START);
    assert p.st == b.st && p.entry == b.entry;
    assert p.st.dead && p.st.cont == None && p.entry == X && p.st.brk == if m.only then None else Some({});
    LoopFacts(s, m, START);
  }

  lemma OuterChecked(s: Stmt, inner: Stmt)
    requires s == While(None, Var("a", 1), Seq2(inner, USE))
    requires Check(inner, X, FirstMode(MODE, {}), START).st == START && Check(inner, X, SecondMode({}), START).st == START.(cur := X)
    ensures Alarm(Check(s, X, MODE, START).log)
  {
    var m1, m2, body := FirstMode(MODE, {}), SecondMode({}), Seq2(inner, USE);
    TwoStatements(inner, USE, m1, START);
    assert CheckOptExpr(LoopTest(s), X, m1, {}, false).cur == {};
    assert NextIter(FirstPass(s, X, MODE, {})) == Some({});
    TwoStatements(inner, USE, m2, START);
    var st := START.(cur := X);
    var u := Check(USE, X, m2, st);
    assert u.log == [VisitOf("x", 9, m2, X, false)] && u.log[0].reported;
    AlarmBefore(u.log, []);
    AlarmBehind(Check(inner, X, m2, START).log, u.log + []);
    var c := CheckOptExpr(LoopTest(s), X, m2, {}, false);
    assert c.cur == {} && LoopPass(s, X, m2, START).log == c.log + Check(body, X, m2, START).log + [];
    AlarmBehind(c.log, Check(body, X, m2, START).log);
    AlarmBefore(c.log + Check(body, X, m2, START).log, []);
    SecondAlarms(s, {});
  }

  lemma LeavingRuns(body: Stmt, ch: Choices)
    requires body == LEAVING
    ensures var r := RunStmt(body, X, {}, ch); r.faults == [] && (r.out.Cut? || r.out.Returned? || (r.out == Broke(None) && r.moved == {}))
  {
    var branch, rest := If(Var("d", 3), Break(None), None), Seq2(Do(Pass(4)), Return(None));
    assert RunExpr(Var("d", 3), X, {}, ch) == ExprRun(true, {}, ch, []);
    TwoRuns(branch, rest, {}, ch);
    if ch != [] && ch[0] == 0 {
      PassRuns(4, ch[1..]);
      TwoRuns(Do(Pass(4)), Return(None), {}, ch[1..]);
      assert RunStmt(Return(None), X, X, ch[1..]).out.Returned?;
    }
  }

  lemma InnerRuns(s: Stmt, ch: Choices)
    requires s == While(None, Var("c", 2), LEAVING)
    ensures var r := RunStmt(s, X, {}, ch); r.faults == [] && (r.out.Cut? || r.out.Returned? || (r.out.Normal? && r.moved == {}))
  {
    assert RunOptExpr(LoopTest(s), X, {}, ch) == ExprRun(true, {}, ch, []);
    if ch != [] {
      LeavingRuns(LEAVING, ch[1..]);
      assert RunBody(s, X, {}, ch[1..]) == RunStmt(LEAVING, X, {}, ch[1..]);
    }
    assert RunStmt(s, X, {}, ch) == RunLoop(s, X, {}, ch);
  }

  lemma {:induction false} OuterRuns(s: Stmt, inner: Stmt, ch: Choices)
    requires inner == While(None, Var("c", 2), LEAVING) && s == While(None, Var("a", 1), Seq2(inner, USE))
    ensures RunLoop(s, X, {}, ch).faults == [] && RunStmt(s, X, {}, ch) == RunLoop(s, X, {}, ch)
    decreases |ch|
  {
    assert RunOptExpr(LoopTest(s), X, {}, ch) == ExprRun(true, {}, ch, []);
    if ch != [] {
      var b := RunStmt(Seq2(inner, USE), X, {}, ch[1..]);
      InnerRuns(inner, ch[1..]);
      TwoRuns(inner, USE, {}, ch[1..]);
      var r := RunStmt(inner, X, {}, ch[1..]);
      assert r.out.Normal? ==> RunStmt(USE, X, {}, r.rest) == Run(Normal, {}, r.rest, [], false);
      assert RunBody(s, X, {}, ch[1..]) == b && b.faults == [];
      if b.out.Normal? {
        OuterRuns(s, inner, b.rest);
      }
    }
  }
}
