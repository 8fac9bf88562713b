/** The bodies on which the move checker raises no false alarm, and what its analysis of them keeps. */
module PlainBodies {
  import opened Ast
  import opened Runs
  import opened MoveSpec
  import opened MoveLaws
  import opened MoveLoops
  import opened MoveSoundness

  // ---------- what the text of a program tells ----------

  /** Some path leads through the statement, in a program without breaks. */
  predicate Passable(s: Stmt)
    decreases s
  {
    match s
    case Block(ss) => PassableList(ss)
    case If(_, t, e) => Passable(t) || (e.Some? ==> Passable(e.value))
    case Match(_, cases) => !HasDefault(cases) || SomePassable(cases)
    case Loop(_, _) => false
    case Break(_) => false
    case Continue(_) => false
    case Return(_) => false
    case _ => true
  }

  predicate PassableList(ss: List<Stmt>)
    decreases ss
  {
    ss.Cons? ==> Passable(ss.head) && PassableList(ss.tail)
  }

  predicate SomePassable(cases: List<Case>)
    decreases cases
  {
    cases.Cons? && (Passable(cases.head.body) || SomePassable(cases.tail))
  }

  /** It contains a continue that refers to a loop around it. */
  predicate Continues(s: Stmt)
    decreases s
  {
    match s
    case Block(ss) => ListContinues(ss)
    case If(_, t, e) => Continues(t) || (e.Some? && Continues(e.value))
    case Match(_, cases) => SomeContinues(cases)
    case Continue(_) => true
    case _ => false
  }

  predicate ListContinues(ss: List<Stmt>)
    decreases ss
  {
    ss.Cons? && (Continues(ss.head) || ListContinues(ss.tail))
  }

  predicate SomeContinues(cases: List<Case>)
    decreases cases
  {
    cases.Cons? && (Continues(cases.head.body) || SomeContinues(cases.tail))
  }

  /** Some path leads from the start of the loop body back to the head of the loop. */
  predicate ComesBack(body: Option<Stmt>) {
    body.Some? ==> Passable(body.value) || Continues(body.value)
  }

  /** No loop, no break, no continue and no match without a default arm. */
  predicate Inert(s: Stmt)
    decreases s
  {
    match s
    case Block(ss) => InertList(ss)
    case If(_, t, e) => Inert(t) && (e.Some? ==> Inert(e.value))
    case Match(_, cases) => HasDefault(cases) && InertCases(cases)
    case Break(_) => false
    case Continue(_) => false
    case _ => !IsLoop(s)
  }

  predicate InertList(ss: List<Stmt>)
    decreases ss
  {
    ss.Cons? ==> Inert(ss.head) && InertList(ss.tail)
  }

  predicate InertCases(cases: List<Case>)
    decreases cases
  {
    cases.Cons? ==> Inert(cases.head.body) && InertCases(cases.tail)
  }

  /** Some branch of an `if` that can be passed does not re-initialise x, or none of them does. */
  predicate IfKeeps(t: Stmt, e: Option<Stmt>, x: Name) {
    || (Passable(t) && Keeps(t, x))
    || (e.Some? ==> Passable(e.value) && Keeps(e.value, x))
    || (Keeps(t, x) && (e.Some? ==> Keeps(e.value, x)))
  }

  /** No break, no labelled continue, no shadowing; in unreachable code no loop, no continue and no
      match without a default arm; every `for` has a condition, and every loop that can end by its
      condition comes back to it.  An owning variable may be assigned, but not in a loop around
      which it lives on, nor in all branches of an `if`. */
  predicate Plain(s: Stmt, own: set<Name>, scope: set<Name>)
    decreases s
  {
    match s
    case VarDecl(x, init, _) => x !in scope && GoodOpt(init, own, scope)
    case ExprStmt(e) => GoodExpr(e, own, scope)
    case Assert(e) => GoodExpr(e, own, scope)
    case Block(ss) => PlainList(ss, own, scope)
    case If(c, t, e) =>
      GoodExpr(c, own, scope) && Plain(t, own, scope) && (e.Some? ==> Plain(e.value, own, scope)) &&
      forall x :: x in scope && x in own ==> IfKeeps(t, e, x)
    case Match(e, cases) => GoodExpr(e, own, scope) && PlainCases(cases, own, scope)
    case While(_, _, _) => PlainLoop(s, own, scope)
    case Loop(_, _) => PlainLoop(s, own, scope)
    case For(_, init, _, _, _) =>
      IsForInit(init) && (init.Some? ==> Plain(init.value, own, scope)) && PlainLoop(s, own, LoopScope(s, scope))
    case ForRange(_, _, lo, hi, _, _) => GoodExpr(lo, own, scope) && GoodExpr(hi, own, scope) && PlainLoop(s, own, scope)
    case Break(_) => false
    case Continue(t) => t.None?
    case Return(e) => GoodOpt(e, own, scope)
  }

  /** The names in scope in the iterations of a loop. */
  function LoopScope(s: Stmt, scope: set<Name>): set<Name> {
    if s.For? && s.start.Some? then ScopeAfter(s.start.value, scope) else scope
  }

  predicate PlainLoop(s: Stmt, own: set<Name>, scope: set<Name>)
    requires IsLoop(s)
    decreases s, 0
  {
    GoodOpt(LoopTest(s), own, scope) && GoodOpt(LoopStep(s), own, scope) &&
    (LoopBody(s).Some? ==> Plain(LoopBody(s).value, own, scope)) &&
    (s.Loop? || (MayEnd(s) && ComesBack(LoopBody(s)))) &&
    forall x :: x in scope && x in own ==> KeepsPass(s, x)
  }

  predicate PlainList(ss: List<Stmt>, own: set<Name>, scope: set<Name>)
    decreases ss
  {
    ss.Cons? ==>
      && Plain(ss.head, own, scope) && PlainList(ss.tail, own, ScopeAfter(ss.head, scope))
      && (Passable(ss.head) || InertList(ss.tail))
  }

  predicate PlainCases(cases: List<Case>, own: set<Name>, scope: set<Name>)
    decreases cases
  {
    cases.Cons? ==> Plain(cases.head.body, own, scope) && PlainCases(cases.tail, own, scope)
  }

  lemma {:induction false} PlainShape(s: Stmt, own: set<Name>, scope: set<Name>)
    requires Plain(s, own, scope)
    ensures BreakFree(s) && Parsed(s)
    decreases s
  {
    match s
    case Block(ss) => PlainListShape(ss, own, scope);
    case If(_, t, e) =>
      PlainShape(t, own, scope);
      if e.Some? { PlainShape(e.value, own, scope); }
    case Match(_, cases) => PlainCasesShape(cases, own, scope);
    case While(_, _, b) => PlainShape(b, own, scope);
    case Loop(_, b) => PlainShape(b, own, scope);
    case For(_, init, _, _, b) =>
      if init.Some? { PlainShape(init.value, own, scope); }
      if b.Some? { PlainShape(b.value, own, LoopScope(s, scope)); }
    case ForRange(_, _, _, _, _, b) => PlainShape(b, own, scope);
    case _ =>
  }

  lemma {:induction false} PlainListShape(ss: List<Stmt>, own: set<Name>, scope: set<Name>)
    requires PlainList(ss, own, scope)
    ensures BreakFreeList(ss) && ParsedList(ss)
    decreases ss
  {
    if ss.Cons? {
      PlainShape(ss.head, own, scope);
      PlainListShape(ss.tail, own, ScopeAfter(ss.head, scope));
    }
  }

  lemma {:induction false} PlainCasesShape(cases: List<Case>, own: set<Name>, scope: set<Name>)
    requires PlainCases(cases, own, scope)
    ensures BreakFreeCases(cases) && ParsedCases(cases)
    decreases cases
  {
    if cases.Cons? {
      PlainShape(cases.head.body, own, scope);
      PlainCasesShape(cases.tail, own, scope);
    }
  }

  // ---------- what can be passed stays reachable ----------

  lemma {:induction false} PassableLives(s: Stmt, own: set<Name>, mode: Mode, st: State)
    requires Passable(s) && !st.dead
    ensures !Check(s, own, mode, st).st.dead
    decreases s
  {
    match s
    case Block(ss) => PassableListLives(ss, own, mode, st);
    case If(c, t, e) =>
      var st0 := st.(cur := CheckExpr(c, own, false, mode, st.cur, st.dead).cur);
      var rt := Check(t, own, mode, st0);
      if Passable(t) {
        PassableLives(t, own, mode, st0);
      } else if e.Some? {
        PassableLives(e.value, own, mode, st0.(brk := rt.st.brk, cont := rt.st.cont));
      }
    case Match(e, cases) =>
      var a := CheckExpr(e, own, false, mode, st.cur, st.dead);
      if HasDefault(cases) {
        SomePassableLives(cases, own, mode, st.(cur := a.cur), ArmsState(None, true, st.brk, st.cont, a.log));
      }
    case _ =>
  }

  lemma {:induction false} PassableListLives(ss: List<Stmt>, own: set<Name>, mode: Mode, st: State)
    requires PassableList(ss) && !st.dead
    ensures !CheckList(ss, own, mode, st).st.dead
    decreases ss
  {
    if ss.Cons? {
      PassableLives(ss.head, own, mode, st);
      PassableListLives(ss.tail, own, mode, Check(ss.head, own, mode, st).st);
    }
  }

  lemma {:induction false} SomePassableLives(cases: List<Case>, own: set<Name>, mode: Mode, st0: State, acc: ArmsState)
    requires SomePassable(cases) && !st0.dead
    ensures !CheckCases(cases, own, mode, st0, acc).allDead
    decreases cases
  {
    var st := st0.(brk := acc.brk, cont := acc.cont);
    var acc' := AddArm(acc, Check(cases.head.body, own, mode, st));
    if Passable(cases.head.body) {
      PassableLives(cases.head.body, own, mode, st);
      ContKeptCases(cases.tail, own, mode, st0, acc');
    } else {
      SomePassableLives(cases.tail, own, mode, st0, acc');
    }
  }

  lemma {:induction false} ContinueCollected(s: Stmt, own: set<Name>, mode: Mode, st: State)
    requires Continues(s)
    ensures Check(s, own, mode, st).st.cont.Some?
    decreases s
  {
    match s
    case Block(ss) => ListContinueCollected(ss, own, mode, st);
    case If(c, t, e) =>
      var st0 := st.(cur := CheckExpr(c, own, false, mode, st.cur, st.dead).cur);
      var rt := Check(t, own, mode, st0);
      var st1 := st0.(brk := rt.st.brk, cont := rt.st.cont);
      if Continues(t) {
        ContinueCollected(t, own, mode, st0);
        if e.Some? { ContKept(e.value, own, mode, st1); }
      } else {
        ContinueCollected(e.value, own, mode, st1);
      }
    case Match(e, cases) =>
      var a := CheckExpr(e, own, false, mode, st.cur, st.dead);
      SomeContinueCollected(cases, own, mode, st.(cur := a.cur), ArmsState(None, true, st.brk, st.cont, a.log));
    case Continue(_) =>
  }

  lemma {:induction false} ListContinueCollected(ss: List<Stmt>, own: set<Name>, mode: Mode, st: State)
    requires ListContinues(ss)
    ensures CheckList(ss, own, mode, st).st.cont.Some?
    decreases ss
  {
    var a := Check(ss.head, own, mode, st);
    if Continues(ss.head) {
      ContinueCollected(ss.head, own, mode, st);
      ContKeptList(ss.tail, own, mode, a.st);
    } else {
      ListContinueCollected(ss.tail, own, mode, a.st);
    }
  }

  lemma {:induction false} SomeContinueCollected(cases: List<Case>, own: set<Name>, mode: Mode, st0: State, acc: ArmsState)
    requires SomeContinues(cases)
    ensures CheckCases(cases, own, mode, st0, acc).cont.Some?
    decreases cases
  {
    var st := st0.(brk := acc.brk, cont := acc.cont);
    var acc' := AddArm(acc, Check(cases.head.body, own, mode, st));
    if Continues(cases.head.body) {
      ContinueCollected(cases.head.body, own, mode, st);
      ContKeptCases(cases.tail, own, mode, st0, acc');
    } else {
      SomeContinueCollected(cases.tail, own, mode, st0, acc');
    }
  }

  /** A loop that comes back has a state of the next iteration. */
  lemma BackAtHead(s: Stmt, own: set<Name>, mode: Mode, st: State)
    requires IsLoop(s) && ComesBack(LoopBody(s)) && !st.dead
    ensures NextIter(LoopPass(s, own, mode, st)).Some?
  {
    var c := TestStage(s, own, mode, st);
    PassInParts(s, own, mode, st);
    if LoopBody(s).Some? {
      var b := LoopBody(s).value;
      if Passable(b) {
        PassableLives(b, own, mode, c.st);
      } else {
        ContinueCollected(b, own, mode, c.st);
      }
    }
  }

  // ---------- the end of a loop ----------

  /** Behind a `loop` without breaks nothing is reachable, from whatever state it starts. */
  lemma EndlessIsDead(s: Stmt, own: set<Name>, mode: Mode, st: State)
    requires s.Loop? && BreakFree(s)
    ensures Check(s, own, mode, st).st.dead
  {
    EndOfLoop(s, own, mode, st);
  }

  /** A loop without breaks ends in the state of the next iteration, or in no state. */
  lemma EndOfLoop(s: Stmt, own: set<Name>, mode: Mode, st: State)
    requires IsLoop(s) && BreakFree(s) && ParsedLoop(s)
    ensures var o := LoopSetup(s, own, Mode(false, Some(st.cur), mode.only), State(st.cur, false, None, None));
      var next := NextIter(FirstPass(s, own, mode, o.st.cur));
      var r := Check(s, own, mode, st);
      && r.st.brk == st.brk && r.st.cont == st.cont
      && r.st.dead == ((s.Loop? || next.None?) && (s.Loop? || st.dead))
      && (!s.Loop? && next.Some? ==> r.st.cur == next.value)
  {
    var o := LoopSetup(s, own, Mode(false, Some(st.cur), mode.only), State(st.cur, false, None, None));
    var p := FirstPass(s, own, mode, o.st.cur);
    LoopInParts(s, own, mode, st);
    PassBreaks(s, own, FirstMode(mode, o.st.cur), State(o.st.cur, false, None, None));
    if NextIter(p).Some? {
      PassBreaks(s, own, SecondMode(o.st.cur), State(NextIter(p).value, false, None, None));
    }
  }

  // ---------- dead code stays dead ----------

  ghost predicate AllDead(log: Log) {
    forall i :: 0 <= i < |log| ==> log[i].dead
  }

  lemma {:induction false} ExprMarks(e: Expr, own: set<Name>, lhs: bool, mode: Mode, cur: set<Name>, dead: bool)
    ensures forall i :: 0 <= i < |CheckExpr(e, own, lhs, mode, cur, dead).log| ==>
                CheckExpr(e, own, lhs, mode, cur, dead).log[i].dead == dead
    decreases e
  {
    match e
    case Binary(op, l, r) =>
      ExprMarks(l, own, lhs || IsAssignment(op), mode, cur, dead);
      ExprMarks(r, own, lhs, mode, CheckExpr(l, own, lhs || IsAssignment(op), mode, cur, dead).cur, dead);
    case Unary(_, o) => ExprMarks(o, own, lhs, mode, cur, dead);
    case Call(f, args, _) =>
      ExprMarks(f, own, lhs, mode, cur, dead);
      ArgsMark(args, own, lhs, mode, CheckExpr(f, own, lhs, mode, cur, dead).cur, dead);
    case Index(l, r) =>
      ExprMarks(l, own, lhs, mode, cur, dead);
      ExprMarks(r, own, lhs, mode, CheckExpr(l, own, lhs, mode, cur, dead).cur, dead);
    case Cast(o) => ExprMarks(o, own, lhs, mode, cur, dead);
    case _ =>
  }

  lemma {:induction false} ArgsMark(args: List<Expr>, own: set<Name>, lhs: bool, mode: Mode, cur: set<Name>, dead: bool)
    ensures forall i :: 0 <= i < |CheckArgs(args, own, lhs, mode, cur, dead).log| ==>
                CheckArgs(args, own, lhs, mode, cur, dead).log[i].dead == dead
    decreases args
  {
    if args.Cons? {
      ExprMarks(args.head, own, lhs, mode, cur, dead);
      ArgsMark(args.tail, own, lhs, mode, CheckExpr(args.head, own, lhs, mode, cur, dead).cur + Taken(args.head, own), dead);
    }
  }

  lemma OptMarks(e: Option<Expr>, own: set<Name>, mode: Mode, cur: set<Name>, dead: bool)
    ensures forall i :: 0 <= i < |CheckOptExpr(e, own, mode, cur, dead).log| ==> CheckOptExpr(e, own, mode, cur, dead).log[i].dead == dead
  {
    if e.Some? {
      ExprMarks(e.value, own, false, mode, cur, dead);
    }
  }

  lemma {:induction false} DeadStays(s: Stmt, own: set<Name>, mode: Mode, st: State)
    requires Inert(s) && st.dead
    ensures var r := Check(s, own, mode, st); r.st.dead && AllDead(r.log) && r.st.cont == st.cont
    decreases s
  {
    match s
    case VarDecl(_, init, _) => OptMarks(init, own, mode, st.cur, true);
    case ExprStmt(e) => ExprMarks(e, own, false, mode, st.cur, true);
    case Assert(e) => ExprMarks(e, own, false, mode, st.cur, true);
    case Block(ss) => DeadStaysList(ss, own, mode, st);
    case If(c, t, e) =>
      ExprMarks(c, own, false, mode, st.cur, true);
      var st0 := st.(cur := CheckExpr(c, own, false, mode, st.cur, true).cur);
      DeadStays(t, own, mode, st0);
      if e.Some? {
        var rt := Check(t, own, mode, st0);
        DeadStays(e.value, own, mode, st0.(brk := rt.st.brk, cont := rt.st.cont));
      }
    case Match(e, cases) =>
      ExprMarks(e, own, false, mode, st.cur, true);
      var a := CheckExpr(e, own, false, mode, st.cur, true);
      DeadStaysCases(cases, own, mode, st.(cur := a.cur), ArmsState(None, true, st.brk, st.cont, a.log));
    case Return(e) => OptMarks(e, own, mode, st.cur, true);
  }

  lemma {:induction false} DeadStaysList(ss: List<Stmt>, own: set<Name>, mode: Mode, st: State)
    requires InertList(ss) && st.dead
    ensures var r := CheckList(ss, own, mode, st); r.st.dead && AllDead(r.log) && r.st.cont == st.cont
    decreases ss
  {
    if ss.Cons? {
      DeadStays(ss.head, own, mode, st);
      DeadStaysList(ss.tail, own, mode, Check(ss.head, own, mode, st).st);
    }
  }

  lemma {:induction false} DeadStaysCases(cases: List<Case>, own: set<Name>, mode: Mode, st0: State, acc: ArmsState)
    requires InertCases(cases) && st0.dead && acc.allDead && AllDead(acc.log)
    ensures var r := CheckCases(cases, own, mode, st0, acc); r.allDead && AllDead(r.log) && r.cont == acc.cont
    decreases cases
  {
    if cases.Cons? {
      var st := st0.(brk := acc.brk, cont := acc.cont);
      DeadStays(cases.head.body, own, mode, st);
      DeadStaysCases(cases.tail, own, mode, st0, AddArm(acc, Check(cases.head.body, own, mode, st)));
    }
  }

  // ---------- only owning variables are ever MOVED ----------

  /** Only MOVED uses are reported, and variables that own nothing are never MOVED. */
  ghost predicate OwnLog(log: Log, own: set<Name>) {
    forall i :: 0 <= i < |log| ==> (log[i].reported ==> log[i].moved) && (log[i].moved ==> log[i].name in own)
  }

  lemma {:induction false} OnlyOwnedExpr(e: Expr, own: set<Name>, lhs: bool, mode: Mode, cur: set<Name>, dead: bool)
    requires cur <= own
    ensures var r := CheckExpr(e, own, lhs, mode, cur, dead);
            r.cur <= own && OwnLog(r.log, own)
    decreases e
  {
    match e
    case Binary(op, l, r) =>
      OnlyOwnedExpr(l, own, lhs || IsAssignment(op), mode, cur, dead);
      OnlyOwnedExpr(r, own, lhs, mode, CheckExpr(l, own, lhs || IsAssignment(op), mode, cur, dead).cur, dead);
    case Unary(_, o) => OnlyOwnedExpr(o, own, lhs, mode, cur, dead);
    case Call(f, args, _) =>
      OnlyOwnedExpr(f, own, lhs, mode, cur, dead);
      OnlyOwnedArgs(args, own, lhs, mode, CheckExpr(f, own, lhs, mode, cur, dead).cur, dead);
    case Index(l, r) =>
      OnlyOwnedExpr(l, own, lhs, mode, cur, dead);
      OnlyOwnedExpr(r, own, lhs, mode, CheckExpr(l, own, lhs, mode, cur, dead).cur, dead);
    case Cast(o) => OnlyOwnedExpr(o, own, lhs, mode, cur, dead);
    case _ =>
  }

  lemma {:induction false} OnlyOwnedArgs(args: List<Expr>, own: set<Name>, lhs: bool, mode: Mode, cur: set<Name>, dead: bool)
    requires cur <= own
    ensures var r := CheckArgs(args, own, lhs, mode, cur, dead);
            r.cur <= own && OwnLog(r.log, own)
    decreases args
  {
    if args.Cons? {
      OnlyOwnedExpr(args.head, own, lhs, mode, cur, dead);
      OnlyOwnedArgs(args.tail, own, lhs, mode, CheckExpr(args.head, own, lhs, mode, cur, dead).cur + Taken(args.head, own), dead);
    }
  }

  lemma OnlyOwnedOpt(e: Option<Expr>, own: set<Name>, mode: Mode, cur: set<Name>, dead: bool)
    requires cur <= own
    ensures var r := CheckOptExpr(e, own, mode, cur, dead);
            r.cur <= own && OwnLog(r.log, own)
  {
    if e.Some? {
      OnlyOwnedExpr(e.value, own, false, mode, cur, dead);
    }
  }

  predicate WithinOpt(o: Option<set<Name>>, own: set<Name>) {
    o.Some? ==> o.value <= own
  }

  ghost predicate Within(r: Result, own: set<Name>) {
    r.st.cur <= own && r.entry <= own && WithinOpt(r.st.cont, own) && OwnLog(r.log, own)
  }

  lemma ChainWithin(a: Result, b: Result, own: set<Name>)
    requires Within(a, own) && Within(b, own)
    ensures Within(Chain(a, b), own)
  {
  }

  lemma {:induction false} OnlyOwned(s: Stmt, own: set<Name>, mode: Mode, st: State)
    requires BreakFree(s) && Parsed(s) && st.cur <= own && WithinOpt(st.cont, own)
    ensures Within(Check(s, own, mode, st), own)
    decreases s, 3
  {
    match s
    case VarDecl(_, init, _) => OnlyOwnedOpt(init, own, mode, st.cur, st.dead);
    case ExprStmt(e) => OnlyOwnedExpr(e, own, false, mode, st.cur, st.dead);
    case Assert(e) => OnlyOwnedExpr(e, own, false, mode, st.cur, st.dead);
    case Return(e) => OnlyOwnedOpt(e, own, mode, st.cur, st.dead);
    case Continue(_) =>
    case Block(ss) => OnlyOwnedList(ss, own, mode, st);
    case If(c, t, e) =>
      OnlyOwnedExpr(c, own, false, mode, st.cur, st.dead);
      var st0 := st.(cur := CheckExpr(c, own, false, mode, st.cur, st.dead).cur);
      OnlyOwned(t, own, mode, st0);
      if e.Some? {
        var rt := Check(t, own, mode, st0);
        OnlyOwned(e.value, own, mode, st0.(brk := rt.st.brk, cont := rt.st.cont));
      }
    case Match(e, cases) =>
      OnlyOwnedExpr(e, own, false, mode, st.cur, st.dead);
      var a := CheckExpr(e, own, false, mode, st.cur, st.dead);
      OnlyOwnedCases(cases, own, mode, st.(cur := a.cur), ArmsState(None, true, st.brk, st.cont, a.log));
    case While(_, _, _) => OnlyOwnedLoop(s, own, mode, st);
    case Loop(_, _) => OnlyOwnedLoop(s, own, mode, st);
    case For(_, _, _, _, _) => OnlyOwnedLoop(s, own, mode, st);
    case ForRange(_, _, _, _, _, _) => OnlyOwnedLoop(s, own, mode, st);
  }

  lemma {:induction false} OnlyOwnedList(ss: List<Stmt>, own: set<Name>, mode: Mode, st: State)
    requires BreakFreeList(ss) && ParsedList(ss) && st.cur <= own && WithinOpt(st.cont, own)
    ensures Within(CheckList(ss, own, mode, st), own)
    decreases ss, 3
  {
    if ss.Cons? {
      var a := Check(ss.head, own, mode, st);
      OnlyOwned(ss.head, own, mode, st);
      OnlyOwnedList(ss.tail, own, mode, a.st);
      ChainWithin(a, CheckList(ss.tail, own, mode, a.st), own);
    }
  }

  lemma {:induction false} OnlyOwnedCases(cases: List<Case>, own: set<Name>, mode: Mode, st0: State, acc: ArmsState)
    requires BreakFreeCases(cases) && ParsedCases(cases) && st0.cur <= own && WithinOpt(acc.merged, own) && WithinOpt(acc.cont, own)
    requires OwnLog(acc.log, own)
    ensures var r := CheckCases(cases, own, mode, st0, acc);
            WithinOpt(r.merged, own) && WithinOpt(r.cont, own) && OwnLog(r.log, own)
    decreases cases, 3
  {
    if cases.Cons? {
      var st := st0.(brk := acc.brk, cont := acc.cont);
      OnlyOwned(cases.head.body, own, mode, st);
      OnlyOwnedCases(cases.tail, own, mode, st0, AddArm(acc, Check(cases.head.body, own, mode, st)));
    }
  }

  lemma {:induction false} OnlyOwnedPass(s: Stmt, own: set<Name>, mode: Mode, st: State)
    requires IsLoop(s) && BreakFree(s) && Parsed(s) && st.cur <= own && WithinOpt(st.cont, own)
    ensures Within(LoopPass(s, own, mode, st), own)
    decreases s, 0
  {
    var c := TestStage(s, own, mode, st);
    PassInParts(s, own, mode, st);
    OnlyOwnedOpt(LoopTest(s), own, mode, st.cur, st.dead);
    var b := CheckOpt(LoopBody(s), own, mode, c.st);
    if LoopBody(s).Some? {
      OnlyOwned(LoopBody(s).value, own, mode, c.st);
    }
    OnlyOwnedOpt(LoopStep(s), own, mode, b.st.cur, b.st.dead);
  }

  lemma {:induction false} OnlyOwnedLoop(s: Stmt, own: set<Name>, mode: Mode, st: State)
    requires IsLoop(s) && BreakFree(s) && Parsed(s) && st.cur <= own && WithinOpt(st.cont, own)
    ensures Within(CheckLoop(s, own, mode, st), own)
    decreases s, 2
  {
    var m0, st0 := Mode(false, Some(st.cur), mode.only), State(st.cur, false, None, None);
    var o := LoopSetup(s, own, m0, st0);
    OnlyOwnedSetup(s, own, m0, st0);
    SetupIsInPlace(s, own, m0, st.cur);
    var p := FirstPass(s, own, mode, o.st.cur);
    OnlyOwnedPass(s, own, FirstMode(mode, o.st.cur), o.st);
    ChainWithin(o, p, own);
    LoopInParts(s, own, mode, st);
    PassBreaks(s, own, FirstMode(mode, o.st.cur), o.st);
    if NextIter(p).Some? {
      var n := State(NextIter(p).value, false, None, None);
      OnlyOwnedPass(s, own, SecondMode(o.st.cur), n);
      PassBreaks(s, own, SecondMode(o.st.cur), n);
    }
  }

  lemma {:induction false} OnlyOwnedSetup(s: Stmt, own: set<Name>, mode: Mode, st: State)
    requires IsLoop(s) && BreakFree(s) && Parsed(s) && st.cur <= own && WithinOpt(st.cont, own)
    ensures Within(LoopSetup(s, own, mode, st), own)
    decreases s, 1
  {
    match s
    case For(_, init, _, _, _) =>
      if init.Some? { OnlyOwned(init.value, own, mode, st); }
    case ForRange(_, _, lo, hi, _, _) =>
      OnlyOwnedExpr(lo, own, false, mode, st.cur, st.dead);
      OnlyOwnedExpr(hi, own, false, mode, CheckExpr(lo, own, false, mode, st.cur, st.dead).cur, st.dead);
    case _ =>
  }
}
