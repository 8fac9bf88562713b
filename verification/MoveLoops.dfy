/** Why two passes over a loop body are enough, and why the silence of the second pass hides nothing. */
module MoveLoops {
  import opened Ast
  import opened Runs
  import opened MoveSpec
  import opened MoveLaws

  /** What the parser produces: the first clause of a `for` is a declaration or an expression. */
  predicate Parsed(s: Stmt)
    decreases s
  {
    match s
    case Block(ss) => ParsedList(ss)
    case If(_, t, e) => Parsed(t) && (e.Some? ==> Parsed(e.value))
    case Match(_, cases) => ParsedCases(cases)
    case While(_, _, b) => Parsed(b)
    case Loop(_, b) => Parsed(b)
    case For(_, init, _, _, b) => IsForInit(init) && (b.Some? ==> Parsed(b.value))
    case ForRange(_, _, _, _, _, b) => Parsed(b)
    case _ => true
  }

  predicate ParsedList(ss: List<Stmt>)
    decreases ss
  {
    ss.Cons? ==> Parsed(ss.head) && ParsedList(ss.tail)
  }

  predicate ParsedCases(cases: List<Case>)
    decreases cases
  {
    cases.Cons? ==> Parsed(cases.head.body) && ParsedCases(cases.tail)
  }

  predicate IsForInit(init: Option<Stmt>) {
    init.Some? ==> init.value.VarDecl? || init.value.ExprStmt?
  }

  predicate ParsedLoop(s: Stmt) {
    IsLoop(s) && (s.For? ==> IsForInit(s.start))
  }

  /** Breaks are not recorded, or there are none. */
  predicate NoBreakStates(s: Stmt, mode: Mode) {
    mode.only || BreakFree(s)
  }

  /** The analysis of the iterations of a loop: its first pass, the state of the next
      iteration, and the pass made from that state. */
  function FirstPass(s: Stmt, own: set<Name>, mode: Mode, start: set<Name>): Result
    requires IsLoop(s)
  {
    LoopPass(s, own, FirstMode(mode, start), State(start, false, None, None))
  }

  function PassFrom(s: Stmt, own: set<Name>, start: set<Name>, n: set<Name>): Result
    requires IsLoop(s)
  {
    LoopPass(s, own, SecondMode(start), State(n, false, None, None))
  }

  /** The first clause of a parsed loop leaves the path reachable and no state collected. */
  lemma SetupIsInPlace(s: Stmt, own: set<Name>, mode: Mode, cur: set<Name>)
    requires ParsedLoop(s)
    ensures var o := LoopSetup(s, own, mode, State(cur, false, None, None));
            o.st == State(o.st.cur, false, None, None) && o.entry == o.st.cur && !o.swapped
  {
  }

  /** How the analysis of a parsed loop is put together. */
  lemma LoopInParts(s: Stmt, own: set<Name>, mode: Mode, st: State)
    requires ParsedLoop(s)
    ensures var o := LoopSetup(s, own, Mode(false, Some(st.cur), mode.only), State(st.cur, false, None, None));
            var p := FirstPass(s, own, mode, o.st.cur);
            CheckLoop(s, own, mode, st) ==
              LoopExit(s.Loop?, st, Chain(o, p), p.st.brk, NextIter(p), SecondPass(s, own, o.st.cur, NextIter(p)))
  {
    SetupIsInPlace(s, own, Mode(false, Some(st.cur), mode.only), st.cur);
  }

  lemma NextIterMonotone(a: Result, b: Result, x: Name)
    requires ResultBelow(a, b, x)
    ensures BelowOpt(NextIter(a), NextIter(b), x)
  {
  }

  /** The map from loop-head statuses to next-iteration statuses does to every path one of
      three things -- keep it, make it MOVED, make it VALID -- so applying it twice is
      applying it once.  `next` and `again` are the loop-head states of passes 2 and 3. */
  lemma {:induction false} TwoPassesSuffice(s: Stmt, own: set<Name>, mode: Mode, start: set<Name>)
    requires IsLoop(s) && NoBreakStates(s, mode)
    ensures var next := NextIter(FirstPass(s, own, mode, start));
            next.Some? ==>
              var again := NextIter(PassFrom(s, own, start, next.value));
              again == next &&
              PassFrom(s, own, start, again.value) == PassFrom(s, own, start, next.value)
  {
    var p1 := FirstPass(s, own, mode, start);
    var next := NextIter(p1);
    if next.Some? {
      var n := next.value;
      var p2 := PassFrom(s, own, start, n);
      var again := NextIter(p2);
      var a, b := State(start, false, None, None), State(n, false, None, None);
      forall x: Name
        ensures again.Some? && (x in again.value <==> x in n)
      {
        if x in start ==> x in n {
          PassMonotone(s, own, FirstMode(mode, start), SecondMode(start), a, b, x);
          NextIterMonotone(p1, p2, x);
        }
        if x in n ==> x in start {
          PassMonotone(s, own, SecondMode(start), FirstMode(mode, start), b, a, x);
          NextIterMonotone(p2, p1, x);
        }
      }
      assert again.Some? by { assert "" in n || "" !in n; }
      assert again.value == n;
    }
  }

  // ---------- suppression ----------

  ghost predicate HasReport(log: Log, x: Name, pos: nat) {
    exists j :: 0 <= j < |log| && log[j].name == x && log[j].pos == pos && log[j].reported
  }

  ghost predicate Silenced(mode: Mode, x: Name) {
    mode.pass2 && mode.start.Some? && x in mode.start.value
  }

  /** Every use of a MOVED path is reported somewhere in the log, or silenced by `mode`. */
  ghost predicate Explained(log: Log, mode: Mode) {
    forall i :: 0 <= i < |log| && log[i].moved && log[i].pos != 0 ==>
      Silenced(mode, log[i].name) || HasReport(log, log[i].name, log[i].pos)
  }

  lemma ReportInLeft(a: Log, b: Log, x: Name, pos: nat)
    requires HasReport(a, x, pos)
    ensures HasReport(a + b, x, pos)
  {
    var j :| 0 <= j < |a| && a[j].name == x && a[j].pos == pos && a[j].reported;
    assert (a + b)[j] == a[j];
  }

  lemma ReportInRight(a: Log, b: Log, x: Name, pos: nat)
    requires HasReport(b, x, pos)
    ensures HasReport(a + b, x, pos)
  {
    var j :| 0 <= j < |b| && b[j].name == x && b[j].pos == pos && b[j].reported;
    assert (a + b)[|a| + j] == b[j];
  }

  lemma ExplainedConcat(a: Log, b: Log, mode: Mode)
    requires Explained(a, mode) && Explained(b, mode)
    ensures Explained(a + b, mode)
  {
    var c := a + b;
    forall i | 0 <= i < |c| && c[i].moved && c[i].pos != 0
      ensures Silenced(mode, c[i].name) || HasReport(c, c[i].name, c[i].pos)
    {
      if !Silenced(mode, c[i].name) {
        if i < |a| {
          ReportInLeft(a, b, a[i].name, a[i].pos);
        } else {
          ReportInRight(a, b, b[i - |a|].name, b[i - |a|].pos);
        }
      }
    }
  }

  lemma {:induction false} ExprExplained(e: Expr, own: set<Name>, lhs: bool, mode: Mode, cur: set<Name>, dead: bool)
    ensures Explained(CheckExpr(e, own, lhs, mode, cur, dead).log, mode)
    decreases e
  {
    match e
    case Var(x, pos) =>
      var log := CheckExpr(e, own, lhs, mode, cur, dead).log;
      forall i | 0 <= i < |log| && log[i].moved && log[i].pos != 0
        ensures Silenced(mode, log[i].name) || HasReport(log, log[i].name, log[i].pos)
      {
        assert log[i] == VisitOf(x, pos, mode, cur, dead);
      }
    case Binary(op, l, r) =>
      var a := CheckExpr(l, own, lhs || IsAssignment(op), mode, cur, dead);
      ExprExplained(l, own, lhs || IsAssignment(op), mode, cur, dead);
      ExprExplained(r, own, lhs, mode, a.cur, dead);
      ExplainedConcat(a.log, CheckExpr(r, own, lhs, mode, a.cur, dead).log, mode);
    case Unary(_, o) => ExprExplained(o, own, lhs, mode, cur, dead);
    case Call(f, args, _) =>
      var a := CheckExpr(f, own, lhs, mode, cur, dead);
      ExprExplained(f, own, lhs, mode, cur, dead);
      ArgsExplained(args, own, lhs, mode, a.cur, dead);
      ExplainedConcat(a.log, CheckArgs(args, own, lhs, mode, a.cur, dead).log, mode);
    case Index(l, r) =>
      var a := CheckExpr(l, own, lhs, mode, cur, dead);
      ExprExplained(l, own, lhs, mode, cur, dead);
      ExprExplained(r, own, lhs, mode, a.cur, dead);
      ExplainedConcat(a.log, CheckExpr(r, own, lhs, mode, a.cur, dead).log, mode);
    case Cast(o) => ExprExplained(o, own, lhs, mode, cur, dead);
    case _ =>
  }

  lemma {:induction false} ArgsExplained(args: List<Expr>, own: set<Name>, lhs: bool, mode: Mode, cur: set<Name>, dead: bool)
    ensures Explained(CheckArgs(args, own, lhs, mode, cur, dead).log, mode)
    decreases args
  {
    match args
    case Nil =>
    case Cons(arg, tail) =>
      var a := CheckExpr(arg, own, lhs, mode, cur, dead);
      ExprExplained(arg, own, lhs, mode, cur, dead);
      ArgsExplained(tail, own, lhs, mode, a.cur + Taken(arg, own), dead);
      ExplainedConcat(a.log, CheckArgs(tail, own, lhs, mode, a.cur + Taken(arg, own), dead).log, mode);
  }

  lemma OptExprExplained(e: Option<Expr>, own: set<Name>, mode: Mode, cur: set<Name>, dead: bool)
    ensures Explained(CheckOptExpr(e, own, mode, cur, dead).log, mode)
  {
    if e.Some? {
      ExprExplained(e.value, own, false, mode, cur, dead);
    }
  }

  /** A use left unreported at a MOVED path is one the surrounding second pass was told to
      skip; every other one has a report with the same path at the same line. */
  lemma {:induction false} UsesExplained(s: Stmt, own: set<Name>, mode: Mode, st: State)
    requires Parsed(s) && NoBreakStates(s, mode)
    ensures Explained(Check(s, own, mode, st).log, mode)
    decreases s, 3
  {
    match s
    case VarDecl(_, init, _) => OptExprExplained(init, own, mode, st.cur, st.dead);
    case ExprStmt(e) => ExprExplained(e, own, false, mode, st.cur, st.dead);
    case Assert(e) => ExprExplained(e, own, false, mode, st.cur, st.dead);
    case Block(ss) => ListExplained(ss, own, mode, st);
    case If(c, t, e) =>
      var a := CheckExpr(c, own, false, mode, st.cur, st.dead);
      var st0 := st.(cur := a.cur);
      var rt := Check(t, own, mode, st0);
      ExprExplained(c, own, false, mode, st.cur, st.dead);
      UsesExplained(t, own, mode, st0);
      ExplainedConcat(a.log, rt.log, mode);
      if e.Some? {
        var st1 := st0.(brk := rt.st.brk, cont := rt.st.cont);
        UsesExplained(e.value, own, mode, st1);
        ExplainedConcat(a.log + rt.log, Check(e.value, own, mode, st1).log, mode);
      } else {
        assert Check(s, own, mode, st).log == a.log + rt.log;
      }
    case Match(e, cases) =>
      var a := CheckExpr(e, own, false, mode, st.cur, st.dead);
      ExprExplained(e, own, false, mode, st.cur, st.dead);
      CasesExplained(cases, own, mode, st.(cur := a.cur), ArmsState(None, true, st.brk, st.cont, a.log));
    case While(_, _, _) => LoopExplained(s, own, mode, st);
    case Loop(_, _) => LoopExplained(s, own, mode, st);
    case For(_, _, _, _, _) => LoopExplained(s, own, mode, st);
    case ForRange(_, _, _, _, _, _) => LoopExplained(s, own, mode, st);
    case Break(_) =>
    case Continue(_) =>
    case Return(e) => OptExprExplained(e, own, mode, st.cur, st.dead);
  }

  lemma {:induction false} ListExplained(ss: List<Stmt>, own: set<Name>, mode: Mode, st: State)
    requires ParsedList(ss) && (mode.only || BreakFreeList(ss))
    ensures Explained(CheckList(ss, own, mode, st).log, mode)
    decreases ss, 3
  {
    match ss
    case Nil =>
    case Cons(s, tail) =>
      var a := Check(s, own, mode, st);
      UsesExplained(s, own, mode, st);
      ListExplained(tail, own, mode, a.st);
      ExplainedConcat(a.log, CheckList(tail, own, mode, a.st).log, mode);
  }

  lemma {:induction false} CasesExplained(cases: List<Case>, own: set<Name>, mode: Mode, st0: State, acc: ArmsState)
    requires ParsedCases(cases) && (mode.only || BreakFreeCases(cases)) && Explained(acc.log, mode)
    ensures Explained(CheckCases(cases, own, mode, st0, acc).log, mode)
    decreases cases, 3
  {
    match cases
    case Nil =>
    case Cons(c, tail) =>
      var st := st0.(brk := acc.brk, cont := acc.cont);
      var r := Check(c.body, own, mode, st);
      UsesExplained(c.body, own, mode, st);
      ExplainedConcat(acc.log, r.log, mode);
      CasesExplained(tail, own, mode, st0,
        AddArm(acc, r));
  }

  lemma {:induction false} PassExplained(s: Stmt, own: set<Name>, mode: Mode, st: State)
    requires IsLoop(s) && Parsed(s) && NoBreakStates(s, mode)
    ensures Explained(LoopPass(s, own, mode, st).log, mode)
    decreases s, 0
  {
    var c := InPlace(st, CheckOptExpr(LoopTest(s), own, mode, st.cur, st.dead));
    OptExprExplained(LoopTest(s), own, mode, st.cur, st.dead);
    var b := match LoopBody(s) case None => InPlace(c.st, ExprResult(c.st.cur, [])) case Some(x) => Check(x, own, mode, c.st);
    if LoopBody(s).Some? {
      UsesExplained(LoopBody(s).value, own, mode, c.st);
    }
    ExplainedConcat(c.log, b.log, mode);
    OptExprExplained(LoopStep(s), own, mode, b.st.cur, b.st.dead);
    ExplainedConcat(c.log + b.log, CheckOptExpr(LoopStep(s), own, mode, b.st.cur, b.st.dead).log, mode);
  }

  /** Every use of a MOVED path met by the second pass and silenced because the path was
      MOVED before the loop was met by the first pass too, at the same place in the log, and
      the first pass has a report for it. */
  lemma {:induction false} SecondPassHidesNothing(s: Stmt, own: set<Name>, mode: Mode, start: set<Name>, i: nat)
    requires ParsedLoop(s) && Parsed(s) && NoBreakStates(s, mode)
    requires NextIter(FirstPass(s, own, mode, start)).Some?
    requires var second := PassFrom(s, own, start, NextIter(FirstPass(s, own, mode, start)).value).log;
             i < |second| && second[i].moved && second[i].pos != 0 && second[i].name in start
    ensures var first := FirstPass(s, own, mode, start).log;
            var second := PassFrom(s, own, start, NextIter(FirstPass(s, own, mode, start)).value).log;
            i < |first| && first[i].name == second[i].name && first[i].pos == second[i].pos && first[i].moved &&
            HasReport(first, second[i].name, second[i].pos)
    decreases s, 1
  {
    var p1 := FirstPass(s, own, mode, start);
    var n := NextIter(p1).value;
    var p2 := PassFrom(s, own, start, n);
    PassMonotone(s, own, SecondMode(start), FirstMode(mode, start), State(n, false, None, None),
                 State(start, false, None, None), p2.log[i].name);
    PassExplained(s, own, FirstMode(mode, start), State(start, false, None, None));
    assert p1.log[i].moved;
  }

  lemma {:induction false} LoopExplained(s: Stmt, own: set<Name>, mode: Mode, st: State)
    requires IsLoop(s) && Parsed(s) && NoBreakStates(s, mode)
    ensures Explained(CheckLoop(s, own, mode, st).log, mode)
    decreases s, 2
  {
    var m0 := Mode(false, Some(st.cur), mode.only);
    var st0 := State(st.cur, false, None, None);
    var o := LoopSetup(s, own, m0, st0);
    SetupExplained(s, own, m0, st0);
    SetupIsInPlace(s, own, m0, st.cur);
    var start := o.st.cur;
    var p1 := FirstPass(s, own, mode, start);
    PassExplained(s, own, FirstMode(mode, start), State(start, false, None, None));
    Unsilenced(o.log, m0, mode);
    Unsilenced(p1.log, FirstMode(mode, start), mode);
    ExplainedConcat(o.log, p1.log, mode);
    var next := NextIter(p1);
    var p2 := SecondPass(s, own, start, next);
    var all := o.log + p1.log + p2.log;
    forall i | 0 <= i < |p2.log| && p2.log[i].moved && p2.log[i].pos != 0
      ensures HasReport(all, p2.log[i].name, p2.log[i].pos)
    {
      PassExplained(s, own, SecondMode(start), State(next.value, false, None, None));
      if p2.log[i].name in start {
        SecondPassHidesNothing(s, own, mode, start, i);
        ReportInRight(o.log, p1.log, p2.log[i].name, p2.log[i].pos);
        ReportInLeft(o.log + p1.log, p2.log, p2.log[i].name, p2.log[i].pos);
      } else {
        ReportInRight(o.log + p1.log, p2.log, p2.log[i].name, p2.log[i].pos);
      }
    }
    forall i | 0 <= i < |all| && all[i].moved && all[i].pos != 0
      ensures Silenced(mode, all[i].name) || HasReport(all, all[i].name, all[i].pos)
    {
      if i < |o.log + p1.log| {
        if !Silenced(mode, all[i].name) {
          ReportInLeft(o.log + p1.log, p2.log, all[i].name, all[i].pos);
        }
      } else {
        assert all[i] == p2.log[i - |o.log + p1.log|];
      }
    }
  }

  /** A pass that silences nothing is explained in any mode. */
  lemma Unsilenced(log: Log, m: Mode, mode: Mode)
    requires !m.pass2 && Explained(log, m)
    ensures Explained(log, mode)
  {
  }

  lemma SetupExplained(s: Stmt, own: set<Name>, mode: Mode, st: State)
    requires ParsedLoop(s)
    ensures Explained(LoopSetup(s, own, mode, st).log, mode)
  {
    match s
    case For(_, init, _, _, _) =>
      if init.Some? {
        match init.value
        case VarDecl(_, i, _) => OptExprExplained(i, own, mode, st.cur, st.dead);
        case ExprStmt(e) => ExprExplained(e, own, false, mode, st.cur, st.dead);
      }
    case ForRange(_, _, lo, hi, _, _) =>
      var a := CheckExpr(lo, own, false, mode, st.cur, st.dead);
      ExprExplained(lo, own, false, mode, st.cur, st.dead);
      ExprExplained(hi, own, false, mode, a.cur, st.dead);
      ExplainedConcat(a.log, CheckExpr(hi, own, false, mode, a.cur, st.dead).log, mode);
    case _ =>
  }

  /** Checked as a whole, a break-free statement has a report for every use of a MOVED path,
      although nested loops silence some of them in their second pass. */
  lemma NothingHidden(s: Stmt, own: set<Name>, mode: Mode, st: State, i: nat)
    requires Parsed(s) && NoBreakStates(s, mode) && !mode.pass2
    requires var log := Check(s, own, mode, st).log; i < |log| && log[i].moved && log[i].pos != 0
    ensures var log := Check(s, own, mode, st).log; HasReport(log, log[i].name, log[i].pos)
  {
    UsesExplained(s, own, mode, st);
  }
}
