/** On bodies without breaks and re-initialisations the move checker raises no false alarm: a run witnesses each report. */
module MoveExactness {
  import opened Ast
  import opened Runs
  import opened RunLaws
  import opened MoveSpec
  import opened MoveLoops
  import opened MoveSoundness
  import opened PlainBodies

  // ---------- runs that follow the checker, for one variable x ----------

  /** The run and the checker's state say the same about x, if x is in scope. */
  predicate Agree(scope: set<Name>, moved: set<Name>, cur: set<Name>, x: Name) {
    x in scope ==> (x in moved <==> x in cur)
  }

  /** The faults of a run include every use of x that the log calls MOVED. */
  ghost predicate Faulty(faults: seq<Fault>, log: Log, x: Name) {
    forall i :: 0 <= i < |log| && log[i].name == x && log[i].moved ==> Fault(x, log[i].pos) in faults
  }

  lemma FaultyConcat(f: seq<Fault>, g: seq<Fault>, a: Log, b: Log, x: Name)
    requires Faulty(f, a, x) && Faulty(g, b, x)
    ensures Faulty(f + g, a + b, x)
  {
  }

  /** Evaluating everything (no operand skipped) follows the checker exactly. */
  lemma {:induction false} ExprFollows(e: Expr, own: set<Name>, scope: set<Name>, lhs: bool, mode: Mode, cur: set<Name>, dead: bool,
                                       moved: set<Name>, x: Name) returns (ch: Choices)
    requires GoodExpr(e, own, scope) && x in own && Agree(scope, moved, cur, x)
    ensures var r := RunExpr(e, own, moved, ch);
            var c := CheckExpr(e, own, lhs, mode, cur, dead);
            r.done && r.rest == [] && Agree(scope, r.moved, c.cur, x) && Faulty(r.faults, c.log, x)
    decreases e
  {
    ch := [];
    match e
    case Binary(op, l, r) =>
      var a := CheckExpr(l, own, lhs || IsAssignment(op), mode, cur, dead);
      if op.Set? && l.Var? {
        ch := ExprFollows(r, own, scope, lhs, mode, cur, dead, moved, x);
        assert a.log == [] && a.cur == cur;
      } else {
        var c1 := ExprFollows(l, own, scope, lhs || IsAssignment(op), mode, cur, dead, moved, x);
        var ra := RunExpr(l, own, moved, c1);
        var c2 := ExprFollows(r, own, scope, lhs, mode, a.cur, dead, ra.moved, x);
        FaultyConcat(ra.faults, RunExpr(r, own, ra.moved, c2).faults, a.log, CheckExpr(r, own, lhs, mode, a.cur, dead).log, x);
        if IsLogical(op) {
          ExprThen(l, own, moved, c1, [1] + c2);
          assert ([1] + c2)[1..] == c2;
          ch := c1 + ([1] + c2);
        } else {
          ExprThen(l, own, moved, c1, c2);
          ch := c1 + c2;
        }
      }
    case Unary(_, o) => ch := ExprFollows(o, own, scope, lhs, mode, cur, dead, moved, x);
    case Call(f, args, _) =>
      var a := CheckExpr(f, own, lhs, mode, cur, dead);
      var c1 := ExprFollows(f, own, scope, lhs, mode, cur, dead, moved, x);
      var ra := RunExpr(f, own, moved, c1);
      var c2 := ArgsFollow(args, own, scope, lhs, mode, a.cur, dead, ra.moved, x);
      FaultyConcat(ra.faults, RunArgs(args, own, ra.moved, c2).faults, a.log, CheckArgs(args, own, lhs, mode, a.cur, dead).log, x);
      ExprThen(f, own, moved, c1, c2);
      ch := c1 + c2;
    case Index(l, r) =>
      var a := CheckExpr(l, own, lhs, mode, cur, dead);
      var c1 := ExprFollows(l, own, scope, lhs, mode, cur, dead, moved, x);
      var ra := RunExpr(l, own, moved, c1);
      var c2 := ExprFollows(r, own, scope, lhs, mode, a.cur, dead, ra.moved, x);
      FaultyConcat(ra.faults, RunExpr(r, own, ra.moved, c2).faults, a.log, CheckExpr(r, own, lhs, mode, a.cur, dead).log, x);
      ExprThen(l, own, moved, c1, c2);
      ch := c1 + c2;
    case Cast(o) => ch := ExprFollows(o, own, scope, lhs, mode, cur, dead, moved, x);
    case _ =>
  }

  lemma {:induction false} ArgsFollow(args: List<Expr>, own: set<Name>, scope: set<Name>, lhs: bool, mode: Mode, cur: set<Name>,
                                      dead: bool, moved: set<Name>, x: Name) returns (ch: Choices)
    requires GoodArgs(args, own, scope) && x in own && Agree(scope, moved, cur, x)
    ensures var r := RunArgs(args, own, moved, ch);
            var c := CheckArgs(args, own, lhs, mode, cur, dead);
            r.done && r.rest == [] && Agree(scope, r.moved, c.cur, x) && Faulty(r.faults, c.log, x)
    decreases args
  {
    ch := [];
    if args.Cons? {
      var arg := args.head;
      var a := CheckExpr(arg, own, lhs, mode, cur, dead);
      var c1 := ExprFollows(arg, own, scope, lhs, mode, cur, dead, moved, x);
      var ra := RunExpr(arg, own, moved, c1);
      var c2 := ArgsFollow(args.tail, own, scope, lhs, mode, a.cur + Taken(arg, own), dead, ra.moved + Taken(arg, own), x);
      FaultyConcat(ra.faults, RunArgs(args.tail, own, ra.moved + Taken(arg, own), c2).faults, a.log,
                   CheckArgs(args.tail, own, lhs, mode, a.cur + Taken(arg, own), dead).log, x);
      ExprThen(arg, own, moved, c1, c2);
      ch := c1 + c2;
    }
  }

  lemma OptFollows(e: Option<Expr>, own: set<Name>, scope: set<Name>, mode: Mode, cur: set<Name>, dead: bool,
                   moved: set<Name>, x: Name) returns (ch: Choices)
    requires GoodOpt(e, own, scope) && x in own && Agree(scope, moved, cur, x)
    ensures var r := RunOptExpr(e, own, moved, ch);
            var c := CheckOptExpr(e, own, mode, cur, dead);
            r.done && r.rest == [] && Agree(scope, r.moved, c.cur, x) && Faulty(r.faults, c.log, x)
  {
    ch := [];
    if e.Some? {
      ch := ExprFollows(e.value, own, scope, false, mode, cur, dead, moved, x);
    }
  }

  /** An expression that is evaluated to its end leaves x moved if it was. */
  lemma OptRuns(e: Option<Expr>, own: set<Name>, scope: set<Name>, moved: set<Name>, x: Name) returns (ch: Choices)
    requires GoodOpt(e, own, scope) && KeepsOpt(e, x) && x in own && x in scope && x in moved
    ensures var r := RunOptExpr(e, own, moved, ch); r.done && r.rest == [] && x in r.moved
  {
    var mode := Mode(false, None, false);
    ch := OptFollows(e, own, scope, mode, moved, false, moved, x);
    OptKeeps(e, own, mode, moved, false, x);
  }

  // ---------- statements that are passed ----------

  /** A statement the checker believes can be passed has a run that passes it and agrees
      with the checker's state afterwards. */
  lemma {:induction false} RunThrough(s: Stmt, own: set<Name>, scope: set<Name>, mode: Mode, st: State, moved: set<Name>, x: Name)
    returns (ch: Choices)
    requires Plain(s, own, scope) && x in own && Agree(scope, moved, st.cur, x)
    requires !st.dead && !Check(s, own, mode, st).st.dead
    ensures var r := RunStmt(s, own, moved, ch);
            r.out.Normal? && r.rest == [] && Agree(ScopeAfter(s, scope), r.moved, Check(s, own, mode, st).st.cur, x)
    decreases s, 4
  {
    match s
    case VarDecl(_, init, _) => ch := OptFollows(init, own, scope, mode, st.cur, st.dead, moved, x);
    case ExprStmt(e) => ch := ExprFollows(e, own, scope, false, mode, st.cur, st.dead, moved, x);
    case Assert(e) => ch := ExprFollows(e, own, scope, false, mode, st.cur, st.dead, moved, x);
    case Block(ss) => ch := ListThrough(ss, own, scope, mode, st, moved, x);
    case If(c, t, e) => ch := IfThrough(s, own, scope, mode, st, moved, x);
    case Match(_, _) => ch := MatchThrough(s, own, scope, mode, st, moved, x);
    case While(_, _, _) => ch := LoopStmtThrough(s, own, scope, mode, st, moved, x);
    case For(_, _, _, _, _) => ch := LoopStmtThrough(s, own, scope, mode, st, moved, x);
    case ForRange(_, _, _, _, _, _) => ch := LoopStmtThrough(s, own, scope, mode, st, moved, x);
    case Loop(_, _) =>
      PlainShape(s, own, scope);
      EndlessIsDead(s, own, mode, st);
      assert false;
  }

  lemma {:induction false} ListThrough(ss: List<Stmt>, own: set<Name>, scope: set<Name>, mode: Mode, st: State, moved: set<Name>, x: Name)
    returns (ch: Choices)
    requires PlainList(ss, own, scope) && x in own && Agree(scope, moved, st.cur, x)
    requires !st.dead && !CheckList(ss, own, mode, st).st.dead
    ensures var r := RunList(ss, own, moved, ch);
            r.out.Normal? && r.rest == [] && Agree(scope, r.moved, CheckList(ss, own, mode, st).st.cur, x)
    decreases ss, 3
  {
    ch := [];
    if ss.Cons? {
      var a := Check(ss.head, own, mode, st);
      DeadTail(ss, own, scope, mode, st);
      var c1 := RunThrough(ss.head, own, scope, mode, st, moved, x);
      var ra := RunStmt(ss.head, own, moved, c1);
      var c2 := ListThrough(ss.tail, own, ScopeAfter(ss.head, scope), mode, a.st, ra.moved, x);
      StmtThen(ss.head, own, moved, c1, c2);
      ch := c1 + c2;
    }
  }

  /** Behind a statement that cannot be passed everything is dead and no continue is collected. */
  lemma DeadTail(ss: List<Stmt>, own: set<Name>, scope: set<Name>, mode: Mode, st: State)
    requires ss.Cons? && PlainList(ss, own, scope) && !st.dead
    ensures var a := Check(ss.head, own, mode, st);
      a.st.dead ==> var b := CheckList(ss.tail, own, mode, a.st); b.st.dead && AllDead(b.log) && b.st.cont == a.st.cont
  {
    var a := Check(ss.head, own, mode, st);
    if a.st.dead {
      if Passable(ss.head) {
        PassableLives(ss.head, own, mode, st);
      }
      DeadStaysList(ss.tail, own, mode, a.st);
    }
  }

  /** A live use behind the first statement tells that the checker believes it can be passed. */
  lemma HeadPassed(ss: List<Stmt>, own: set<Name>, scope: set<Name>, mode: Mode, st: State, i: nat)
    requires ss.Cons? && PlainList(ss, own, scope) && !st.dead
    requires var b := CheckList(ss.tail, own, mode, Check(ss.head, own, mode, st).st); i < |b.log| && !b.log[i].dead
    ensures !Check(ss.head, own, mode, st).st.dead
  {
    DeadTail(ss, own, scope, mode, st);
  }

  lemma {:induction false} IfThrough(s: Stmt, own: set<Name>, scope: set<Name>, mode: Mode, st: State, moved: set<Name>, x: Name)
    returns (ch: Choices)
    requires s.If? && Plain(s, own, scope) && x in own && Agree(scope, moved, st.cur, x)
    requires !st.dead && !Check(s, own, mode, st).st.dead
    ensures var r := RunStmt(s, own, moved, ch);
            r.out.Normal? && r.rest == [] && Agree(scope, r.moved, Check(s, own, mode, st).st.cur, x)
    decreases s, 2
  {
    var If(c, t, e) := s;
    var a := CheckExpr(c, own, false, mode, st.cur, st.dead);
    var st0 := st.(cur := a.cur);
    var rt := Check(t, own, mode, st0);
    var st1 := st0.(brk := rt.st.brk, cont := rt.st.cont);
    var re := match e case None => InPlace(st1, ExprResult(a.cur, [])) case Some(y) => Check(y, own, mode, st1);
    var c1 := ExprFollows(c, own, scope, false, mode, st.cur, st.dead, moved, x);
    var ra := RunExpr(c, own, moved, c1);
    if Passable(t) { PassableLives(t, own, mode, st0); }
    if e.Some? && Passable(e.value) { PassableLives(e.value, own, mode, st1); }
    if x in scope && x in a.cur {
      if Keeps(t, x) { CheckKeeps(t, own, mode, st0, x); }
      if e.Some? && Keeps(e.value, x) { CheckKeeps(e.value, own, mode, st1, x); }
    }
    if !rt.st.dead && (x in rt.st.cur || re.st.dead || (x !in re.st.cur && x !in a.cur)) {
      var c2 := RunThrough(t, own, scope, mode, st0, ra.moved, x);
      ExprThen(c, own, moved, c1, [1] + c2);
      assert ([1] + c2)[1..] == c2;
      ch := c1 + ([1] + c2);
    } else if e.Some? {
      var c2 := RunThrough(e.value, own, scope, mode, st1, ra.moved, x);
      ExprThen(c, own, moved, c1, [0] + c2);
      assert ([0] + c2)[1..] == c2;
      ch := c1 + ([0] + c2);
    } else {
      ExprThen(c, own, moved, c1, [0]);
      ch := c1 + [0];
    }
  }

  lemma {:induction false} MatchThrough(s: Stmt, own: set<Name>, scope: set<Name>, mode: Mode, st: State, moved: set<Name>, x: Name)
    returns (ch: Choices)
    requires s.Match? && Plain(s, own, scope) && x in own && Agree(scope, moved, st.cur, x)
    requires !st.dead && !Check(s, own, mode, st).st.dead
    ensures var r := RunStmt(s, own, moved, ch);
            r.out.Normal? && r.rest == [] && Agree(scope, r.moved, Check(s, own, mode, st).st.cur, x)
    decreases s, 2
  {
    var Match(e, cases) := s;
    var a := CheckExpr(e, own, false, mode, st.cur, st.dead);
    var st0, acc := st.(cur := a.cur), ArmsState(None, true, st.brk, st.cont, a.log);
    var arms := CheckCases(cases, own, mode, st0, acc);
    var c1 := ExprFollows(e, own, scope, false, mode, st.cur, st.dead, moved, x);
    var ra := RunExpr(e, own, moved, c1);
    var c2;
    if !HasDefault(cases) && (x in a.cur || arms.merged.None? || x !in arms.merged.value) {
      c2 := NoArmRuns(cases, own, ra.moved);
    } else {
      ArmsLive(cases, own, mode, st0, acc);
      c2 := CasesThrough(cases, HasDefault(cases), own, scope, mode, st0, acc, ra.moved, x);
    }
    ExprThen(e, own, moved, c1, c2);
    ch := c1 + c2;
  }

  lemma {:induction false} NoArmRuns(cases: List<Case>, own: set<Name>, moved: set<Name>) returns (ch: Choices)
    ensures RunCases(cases, false, own, moved, ch) == Run(Normal, moved, [], [], false)
    decreases cases
  {
    ch := [];
    if cases.Cons? {
      var c := NoArmRuns(cases.tail, own, moved);
      ch := [0] + c;
      assert ch[1..] == c;
    }
  }

  /** The arms are all dead exactly when nothing was merged. */
  lemma {:induction false} ArmsLive(cases: List<Case>, own: set<Name>, mode: Mode, st0: State, acc: ArmsState)
    requires acc.allDead == acc.merged.None?
    ensures var r := CheckCases(cases, own, mode, st0, acc); r.allDead == r.merged.None?
    decreases cases
  {
    if cases.Cons? {
      ArmsLive(cases.tail, own, mode, st0, AddArm(acc, Check(cases.head.body, own, mode, st0.(brk := acc.brk, cont := acc.cont))));
    }
  }

  /** Some arm that the checker believes can be passed agrees with the merged state. */
  lemma {:induction false} CasesThrough(cases: List<Case>, total: bool, own: set<Name>, scope: set<Name>, mode: Mode, st0: State,
                                        acc: ArmsState, moved: set<Name>, x: Name) returns (ch: Choices)
    requires PlainCases(cases, own, scope) && x in own && Agree(scope, moved, st0.cur, x) && !st0.dead
    requires acc.allDead == acc.merged.None?
    requires var r := CheckCases(cases, own, mode, st0, acc);
             !r.allDead && (acc.allDead || (r.merged.Some? && x in r.merged.value && x !in acc.merged.value))
    ensures var r := CheckCases(cases, own, mode, st0, acc);
            var run := RunCases(cases, total, own, moved, ch);
            r.merged.Some? && run.out.Normal? && run.rest == [] && Agree(scope, run.moved, r.merged.value, x)
    decreases cases, 3
  {
    var Cons(c, tail) := cases;
    var st := st0.(brk := acc.brk, cont := acc.cont);
    var b := Check(c.body, own, mode, st);
    var acc' := AddArm(acc, b);
    var r := CheckCases(cases, own, mode, st0, acc);
    ContKeptCases(tail, own, mode, st0, acc');
    if !b.st.dead && (x in b.st.cur || x !in r.merged.value) {
      var c1 := RunThrough(c.body, own, scope, mode, st, moved, x);
      ch := if total && tail.Nil? then c1 else [1] + c1;
      assert !(total && tail.Nil?) ==> ch[1..] == c1;
    } else {
      var c1 := CasesThrough(tail, total, own, scope, mode, st0, acc', moved, x);
      ch := [0] + c1;
      assert ch[1..] == c1;
    }
  }

  // ---------- statements that are left by a continue ----------

  predicate MovedAt(cont: Option<set<Name>>, x: Name) {
    cont.Some? && x in cont.value
  }

  /** If a continue was collected with x MOVED, some run ends in a continue with x moved. */
  lemma {:induction false} RunToContinue(s: Stmt, own: set<Name>, scope: set<Name>, mode: Mode, st: State, moved: set<Name>, x: Name)
    returns (ch: Choices)
    requires Plain(s, own, scope) && x in own && x in scope && Agree(scope, moved, st.cur, x) && !st.dead
    requires MovedAt(Check(s, own, mode, st).st.cont, x) && !MovedAt(st.cont, x)
    ensures var r := RunStmt(s, own, moved, ch); r.out == Continued(None) && r.rest == [] && x in r.moved
    decreases s, 3
  {
    ch := [];
    if IsLoop(s) {
      LoopKeepsContinues(s, own, mode, st);
    }
    match s
    case Block(ss) => ch := ListToContinue(ss, own, scope, mode, st, moved, x);
    case If(_, _, _) => ch := IfToContinue(s, own, scope, mode, st, moved, x);
    case Match(e, cases) =>
      var a := CheckExpr(e, own, false, mode, st.cur, st.dead);
      var c1 := ExprFollows(e, own, scope, false, mode, st.cur, st.dead, moved, x);
      var acc := ArmsState(None, true, st.brk, st.cont, a.log);
      var c2 := CasesToContinue(cases, HasDefault(cases), own, scope, mode, st.(cur := a.cur), acc, RunExpr(e, own, moved, c1).moved, x);
      ExprThen(e, own, moved, c1, c2);
      ch := c1 + c2;
    case _ =>
  }

  /** The continues of a loop's body are its own. */
  lemma LoopKeepsContinues(s: Stmt, own: set<Name>, mode: Mode, st: State)
    requires IsLoop(s)
    ensures Check(s, own, mode, st).st.cont == st.cont
  {
  }

  lemma {:induction false} IfToContinue(s: Stmt, own: set<Name>, scope: set<Name>, mode: Mode, st: State, moved: set<Name>, x: Name)
    returns (ch: Choices)
    requires s.If? && Plain(s, own, scope) && x in own && x in scope && Agree(scope, moved, st.cur, x) && !st.dead
    requires MovedAt(Check(s, own, mode, st).st.cont, x) && !MovedAt(st.cont, x)
    ensures var r := RunStmt(s, own, moved, ch); r.out == Continued(None) && r.rest == [] && x in r.moved
    decreases s, 2
  {
    var If(c, t, e) := s;
    var st0 := st.(cur := CheckExpr(c, own, false, mode, st.cur, st.dead).cur);
    var rt := Check(t, own, mode, st0);
    var c1 := ExprFollows(c, own, scope, false, mode, st.cur, st.dead, moved, x);
    var ra := RunExpr(c, own, moved, c1);
    var c2;
    assert Check(s, own, mode, st).st.cont == CheckOpt(e, own, mode, st0.(brk := rt.st.brk, cont := rt.st.cont)).st.cont;
    if MovedAt(rt.st.cont, x) {
      c2 := RunToContinue(t, own, scope, mode, st0, ra.moved, x);
      assert ([1] + c2)[1..] == c2;
      c2 := [1] + c2;
    } else {
      var st1 := st0.(brk := rt.st.brk, cont := rt.st.cont);
      assert MovedAt(CheckOpt(e, own, mode, st1).st.cont, x);
      c2 := RunToContinue(e.value, own, scope, mode, st1, ra.moved, x);
      assert ([0] + c2)[1..] == c2;
      c2 := [0] + c2;
    }
    ExprThen(c, own, moved, c1, c2);
    ch := c1 + c2;
  }

  lemma {:induction false} ListToContinue(ss: List<Stmt>, own: set<Name>, scope: set<Name>, mode: Mode, st: State, moved: set<Name>,
                                          x: Name) returns (ch: Choices)
    requires PlainList(ss, own, scope) && x in own && x in scope && Agree(scope, moved, st.cur, x) && !st.dead
    requires MovedAt(CheckList(ss, own, mode, st).st.cont, x) && !MovedAt(st.cont, x)
    ensures var r := RunList(ss, own, moved, ch); r.out == Continued(None) && r.rest == [] && x in r.moved
    decreases ss, 3
  {
    var a := Check(ss.head, own, mode, st);
    if MovedAt(a.st.cont, x) {
      ch := RunToContinue(ss.head, own, scope, mode, st, moved, x);
    } else {
      DeadTail(ss, own, scope, mode, st);
      var c1 := RunThrough(ss.head, own, scope, mode, st, moved, x);
      var ra := RunStmt(ss.head, own, moved, c1);
      var c2 := ListToContinue(ss.tail, own, ScopeAfter(ss.head, scope), mode, a.st, ra.moved, x);
      StmtThen(ss.head, own, moved, c1, c2);
      ch := c1 + c2;
    }
  }

  lemma {:induction false} CasesToContinue(cases: List<Case>, total: bool, own: set<Name>, scope: set<Name>, mode: Mode, st0: State,
                                           acc: ArmsState, moved: set<Name>, x: Name) returns (ch: Choices)
    requires PlainCases(cases, own, scope) && x in own && x in scope && Agree(scope, moved, st0.cur, x) && !st0.dead
    requires MovedAt(CheckCases(cases, own, mode, st0, acc).cont, x) && !MovedAt(acc.cont, x)
    ensures var r := RunCases(cases, total, own, moved, ch); r.out == Continued(None) && r.rest == [] && x in r.moved
    decreases cases, 3
  {
    var Cons(c, tail) := cases;
    var st := st0.(brk := acc.brk, cont := acc.cont);
    var b := Check(c.body, own, mode, st);
    if MovedAt(b.st.cont, x) {
      var c1 := RunToContinue(c.body, own, scope, mode, st, moved, x);
      ch := if total && tail.Nil? then c1 else [1] + c1;
      assert !(total && tail.Nil?) ==> ch[1..] == c1;
    } else {
      var c1 := CasesToContinue(tail, total, own, scope, mode, st0, AddArm(acc, b), moved, x);
      ch := [0] + c1;
      assert ch[1..] == c1;
    }
  }

  // ---------- loops ----------

  /** What follows `ch` at the head of the loop is what runs from `m`, with the faults it has. */
  ghost predicate Leads(s: Stmt, own: set<Name>, moved: set<Name>, ch: Choices, m: set<Name>)
    requires IsLoop(s)
  {
    forall more :: Resumes(RunLoop(s, own, moved, ch + more), RunLoop(s, own, m, more))
  }

  ghost predicate Resumes(a: Run, b: Run) {
    a.out == b.out && a.moved == b.moved && a.rest == b.rest && forall f :: f in b.faults ==> f in a.faults
  }

  /** One iteration that comes back to the head of the loop. */
  lemma IterationLeads(s: Stmt, own: set<Name>, moved: set<Name>, c1: Choices, c2: Choices, c3: Choices)
    requires IsLoop(s)
    requires var c := RunOptExpr(LoopTest(s), own, moved, c1);
      && c.done && c.rest == []
      && var b := RunBody(s, own, c.moved, c2);
      && (b.out.Normal? || b.out == Continued(None)) && b.rest == []
      && var e := RunOptExpr(LoopStep(s), own, b.moved, c3);
      && e.done && e.rest == []
    ensures var c := RunOptExpr(LoopTest(s), own, moved, c1);
      var b := RunBody(s, own, c.moved, c2);
      Leads(s, own, moved, c1 + ([1] + (c2 + c3)), RunOptExpr(LoopStep(s), own, b.moved, c3).moved)
  {
    var c := RunOptExpr(LoopTest(s), own, moved, c1);
    var b := RunBody(s, own, c.moved, c2);
    var e := RunOptExpr(LoopStep(s), own, b.moved, c3);
    forall more ensures Resumes(RunLoop(s, own, moved, c1 + ([1] + (c2 + c3)) + more), RunLoop(s, own, e.moved, more)) {
      IterationThen(s, own, moved, c1, c2, c3, more);
    }
  }

  lemma IterationThen(s: Stmt, own: set<Name>, moved: set<Name>, c1: Choices, c2: Choices, c3: Choices, more: Choices)
    requires IsLoop(s)
    requires var c := RunOptExpr(LoopTest(s), own, moved, c1);
      && c.done && c.rest == []
      && var b := RunBody(s, own, c.moved, c2);
      && (b.out.Normal? || b.out == Continued(None)) && b.rest == []
      && var e := RunOptExpr(LoopStep(s), own, b.moved, c3);
      && e.done && e.rest == []
    ensures var c := RunOptExpr(LoopTest(s), own, moved, c1);
      var b := RunBody(s, own, c.moved, c2);
      var e := RunOptExpr(LoopStep(s), own, b.moved, c3);
      Resumes(RunLoop(s, own, moved, c1 + ([1] + (c2 + c3)) + more), RunLoop(s, own, e.moved, more))
  {
    var c := RunOptExpr(LoopTest(s), own, moved, c1);
    var b := RunBody(s, own, c.moved, c2);
    var e := RunOptExpr(LoopStep(s), own, b.moved, c3);
    var tail := c2 + (c3 + more);
    var all := c1 + ([1] + tail);
    assert c1 + ([1] + (c2 + c3)) + more == all && ([1] + tail)[1..] == tail;
    OptThen(LoopTest(s), own, moved, c1, [1] + tail);
    BodyExtends(s, own, c.moved, c2, c3 + more);
    assert [] + (c3 + more) == c3 + more;
    OptThen(LoopStep(s), own, b.moved, c3, more);
    var rest := RunLoop(s, own, e.moved, more);
    assert RunBody(s, own, c.moved, tail) == b.(rest := c3 + more);
    assert RunLoop(s, own, moved, all) == Then(c, ThenRun(b, Then(e, rest)));
  }

  /** If x is MOVED at the head of the second pass and was not at the start, one iteration moves it. */
  lemma {:induction false} OneRound(s: Stmt, own: set<Name>, scope: set<Name>, mode: Mode, start: set<Name>, moved: set<Name>, x: Name)
    returns (ch: Choices, m: set<Name>)
    requires IsLoop(s) && PlainLoop(s, own, scope) && x in own && x in scope && Agree(scope, moved, start, x) && x !in start
    requires MovedAt(NextIter(FirstPass(s, own, mode, start)), x)
    ensures Leads(s, own, moved, ch, m) && x in m
    decreases s, 0
  {
    var m1, st := FirstMode(mode, start), State(start, false, None, None);
    PassInParts(s, own, m1, st);
    var c := TestStage(s, own, m1, st);
    var b := CheckOpt(LoopBody(s), own, m1, c.st);
    var c1 := OptFollows(LoopTest(s), own, scope, m1, start, false, moved, x);
    var rc := RunOptExpr(LoopTest(s), own, moved, c1);
    var c2: Choices, c3: Choices := [], [];
    if MovedAt(b.st.cont, x) {
      c2 := RunToContinue(LoopBody(s).value, own, scope, m1, c.st, rc.moved, x);
      c3 := OptRuns(LoopStep(s), own, scope, RunBody(s, own, rc.moved, c2).moved, x);
    } else {
      if LoopBody(s).Some? {
        c2 := RunThrough(LoopBody(s).value, own, scope, m1, c.st, rc.moved, x);
      }
      c3 := OptFollows(LoopStep(s), own, scope, m1, b.st.cur, b.st.dead, RunBody(s, own, rc.moved, c2).moved, x);
    }
    IterationLeads(s, own, moved, c1, c2, c3);
    ch := c1 + ([1] + (c2 + c3));
    m := RunOptExpr(LoopStep(s), own, RunBody(s, own, rc.moved, c2).moved, c3).moved;
  }

  /** Choices that lead to the head of the loop with x as the second pass has it. */
  lemma {:induction false} ToSecondHead(s: Stmt, own: set<Name>, scope: set<Name>, mode: Mode, start: set<Name>, moved: set<Name>, x: Name)
    returns (ch: Choices, m: set<Name>)
    requires IsLoop(s) && PlainLoop(s, own, scope) && x in own && Agree(scope, moved, start, x)
    requires NextIter(FirstPass(s, own, mode, start)).Some?
    ensures Leads(s, own, moved, ch, m) && Agree(scope, m, NextIter(FirstPass(s, own, mode, start)).value, x)
    decreases s, 1
  {
    var p := FirstPass(s, own, mode, start);
    if x in scope && x in start {
      PassKeeps(s, own, FirstMode(mode, start), State(start, false, None, None), x);
    }
    if x in scope && x !in start && x in NextIter(p).value {
      ch, m := OneRound(s, own, scope, mode, start, moved, x);
    } else {
      ch, m := [], moved;
      forall more ensures Resumes(RunLoop(s, own, moved, ch + more), RunLoop(s, own, m, more)) {
        assert [] + more == more;
      }
    }
  }

  /** The iterations of a loop that can end have a run that agrees with the state behind it. */
  lemma {:induction false} LoopThrough(s: Stmt, own: set<Name>, scope: set<Name>, mode: Mode, start: set<Name>, moved: set<Name>, x: Name)
    returns (ch: Choices)
    requires IsLoop(s) && MayEnd(s) && PlainLoop(s, own, scope) && x in own && Agree(scope, moved, start, x)
    ensures NextIter(FirstPass(s, own, mode, start)).Some?
    ensures var r := RunLoop(s, own, moved, ch);
      r.out.Normal? && r.rest == [] && Agree(scope, r.moved, NextIter(FirstPass(s, own, mode, start)).value, x)
    decreases s, 2
  {
    var m1, st := FirstMode(mode, start), State(start, false, None, None);
    BackAtHead(s, own, m1, st);
    var n := NextIter(FirstPass(s, own, mode, start)).value;
    if x in scope {
      if x in TestStage(s, own, m1, st).st.cur { AfterTestKeeps(s, own, m1, st, x); }
      if x in start { OptKeeps(LoopTest(s), own, m1, start, false, x); }
    }
    if x in scope && x in n {
      var c0, m := ToSecondHead(s, own, scope, mode, start, moved, x);
      var c1 := OptRuns(LoopTest(s), own, scope, m, x);
      OptThen(LoopTest(s), own, m, c1, [0]);
      assert Resumes(RunLoop(s, own, moved, c0 + (c1 + [0])), RunLoop(s, own, m, c1 + [0]));
      ch := c0 + (c1 + [0]);
    } else {
      var c1 := OptFollows(LoopTest(s), own, scope, m1, start, false, moved, x);
      OptThen(LoopTest(s), own, moved, c1, [0]);
      ch := c1 + [0];
    }
  }

  /** The set-up of a loop, from the state the checker starts a loop in. */
  function SetupOf(s: Stmt, own: set<Name>, mode: Mode, st: State): Result
    requires IsLoop(s)
  {
    LoopSetup(s, own, Mode(false, Some(st.cur), mode.only), State(st.cur, false, None, None))
  }

  /** What runs behind the set-up of a loop is what runs from its head. */
  lemma {:induction false} SetupLeads(s: Stmt, own: set<Name>, scope: set<Name>, mode: Mode, st: State, moved: set<Name>, x: Name)
    returns (ch: Choices, m: set<Name>)
    requires IsLoop(s) && Plain(s, own, scope) && x in own && Agree(scope, moved, st.cur, x)
    ensures forall more :: Resumes(RunStmt(s, own, moved, ch + more), RunLoop(s, own, m, more))
    ensures Agree(LoopScope(s, scope), m, SetupOf(s, own, mode, st).st.cur, x)
    decreases s, 2
  {
    var m0, st0 := Mode(false, Some(st.cur), mode.only), State(st.cur, false, None, None);
    match s
    case For(_, init, _, _, _) =>
      if init.Some? {
        SetupIsInPlace(s, own, m0, st.cur);
        ch := RunThrough(init.value, own, scope, m0, st0, moved, x);
        m := RunStmt(init.value, own, moved, ch).moved;
        forall more ensures Resumes(RunStmt(s, own, moved, ch + more), RunLoop(s, own, m, more)) {
          StmtThen(init.value, own, moved, ch, more);
        }
      } else {
        ch, m := NoSetup(s, own, moved);
      }
    case ForRange(_, _, lo, hi, _, _) =>
      var a := CheckExpr(lo, own, false, m0, st.cur, false);
      var c1 := ExprFollows(lo, own, scope, false, m0, st.cur, false, moved, x);
      var ra := RunExpr(lo, own, moved, c1);
      var c2 := ExprFollows(hi, own, scope, false, m0, a.cur, false, ra.moved, x);
      ch, m := c1 + c2, RunExpr(hi, own, ra.moved, c2).moved;
      forall more ensures Resumes(RunStmt(s, own, moved, ch + more), RunLoop(s, own, m, more)) {
        assert c1 + c2 + more == c1 + (c2 + more);
        ExprThen(lo, own, moved, c1, c2 + more);
        ExprThen(hi, own, ra.moved, c2, more);
      }
    case _ => ch, m := NoSetup(s, own, moved);
  }

  lemma NoSetup(s: Stmt, own: set<Name>, moved: set<Name>) returns (ch: Choices, m: set<Name>)
    requires s.While? || s.Loop? || (s.For? && s.start.None?)
    ensures ch == [] && m == moved && forall more :: Resumes(RunStmt(s, own, moved, ch + more), RunLoop(s, own, m, more))
  {
    ch, m := [], moved;
    forall more ensures Resumes(RunStmt(s, own, moved, ch + more), RunLoop(s, own, m, more)) {
      assert [] + more == more;
    }
  }

  lemma {:induction false} LoopStmtThrough(s: Stmt, own: set<Name>, scope: set<Name>, mode: Mode, st: State, moved: set<Name>, x: Name)
    returns (ch: Choices)
    requires IsLoop(s) && MayEnd(s) && Plain(s, own, scope) && x in own && Agree(scope, moved, st.cur, x) && !st.dead
    ensures var r := RunStmt(s, own, moved, ch);
            r.out.Normal? && r.rest == [] && Agree(scope, r.moved, Check(s, own, mode, st).st.cur, x)
    decreases s, 3
  {
    PlainShape(s, own, scope);
    EndOfLoop(s, own, mode, st);
    var start := SetupOf(s, own, mode, st).st.cur;
    var c0, m := SetupLeads(s, own, scope, mode, st, moved, x);
    var c1 := LoopThrough(s, own, LoopScope(s, scope), mode, start, m, x);
    assert Resumes(RunStmt(s, own, moved, c0 + c1), RunLoop(s, own, m, c1));
    ch := c0 + c1;
  }

  // ---------- witnesses for reports ----------

  /** A use of a MOVED path in reachable code. */
  predicate LiveUse(log: Log, i: nat, x: Name) {
    i < |log| && log[i].name == x && log[i].moved && !log[i].dead
  }

  /** Every live use of x that the checker finds MOVED, in the first pass over a loop, in the
      second or behind it, is a fault of some run. */
  lemma {:induction false} UseWitness(s: Stmt, own: set<Name>, scope: set<Name>, mode: Mode, st: State, moved: set<Name>, x: Name, i: nat)
    returns (ch: Choices)
    requires Plain(s, own, scope) && x in own && Agree(scope, moved, st.cur, x)
    requires !st.dead && LiveUse(Check(s, own, mode, st).log, i, x)
    ensures Fault(x, Check(s, own, mode, st).log[i].pos) in RunStmt(s, own, moved, ch).faults
    decreases s, 5
  {
    ch := [];
    match s
    case VarDecl(_, init, _) => ch := OptFollows(init, own, scope, mode, st.cur, st.dead, moved, x);
    case ExprStmt(e) => ch := ExprFollows(e, own, scope, false, mode, st.cur, st.dead, moved, x);
    case Assert(e) => ch := ExprFollows(e, own, scope, false, mode, st.cur, st.dead, moved, x);
    case Return(e) => ch := OptFollows(e, own, scope, mode, st.cur, st.dead, moved, x);
    case Block(ss) => ch := ListWitness(ss, own, scope, mode, st, moved, x, i);
    case If(c, t, e) => ch := IfWitness(s, own, scope, mode, st, moved, x, i);
    case Match(e, cases) =>
      var a := CheckExpr(e, own, false, mode, st.cur, st.dead);
      var acc := ArmsState(None, true, st.brk, st.cont, a.log);
      var st0 := st.(cur := a.cur);
      ContKeptCases(cases, own, mode, st0, acc);
      var c1 := ExprFollows(e, own, scope, false, mode, st.cur, st.dead, moved, x);
      var ra := RunExpr(e, own, moved, c1);
      if i < |a.log| {
        assert Check(s, own, mode, st).log[i] == a.log[i];
        ch := c1;
      } else {
        var c2 := CasesWitness(cases, HasDefault(cases), own, scope, mode, st0, acc, ra.moved, x, i);
        ExprThen(e, own, moved, c1, c2);
        ch := c1 + c2;
      }
    case While(_, _, _) => ch := LoopWitness(s, own, scope, mode, st, moved, x, i);
    case Loop(_, _) => ch := LoopWitness(s, own, scope, mode, st, moved, x, i);
    case For(_, _, _, _, _) => ch := LoopWitness(s, own, scope, mode, st, moved, x, i);
    case ForRange(_, _, _, _, _, _) => ch := LoopWitness(s, own, scope, mode, st, moved, x, i);
    case _ =>
  }

  lemma {:induction false} ListWitness(ss: List<Stmt>, own: set<Name>, scope: set<Name>, mode: Mode, st: State, moved: set<Name>,
                                       x: Name, i: nat) returns (ch: Choices)
    requires PlainList(ss, own, scope) && x in own && Agree(scope, moved, st.cur, x)
    requires !st.dead && LiveUse(CheckList(ss, own, mode, st).log, i, x)
    ensures Fault(x, CheckList(ss, own, mode, st).log[i].pos) in RunList(ss, own, moved, ch).faults
    decreases ss, 3
  {
    var Cons(s, tail) := ss;
    var a := Check(s, own, mode, st);
    if i < |a.log| {
      ch := UseWitness(s, own, scope, mode, st, moved, x, i);
    } else {
      HeadPassed(ss, own, scope, mode, st, i - |a.log|);
      var c1 := RunThrough(s, own, scope, mode, st, moved, x);
      var ra := RunStmt(s, own, moved, c1);
      var c2 := ListWitness(tail, own, ScopeAfter(s, scope), mode, a.st, ra.moved, x, i - |a.log|);
      StmtThen(s, own, moved, c1, c2);
      ch := c1 + c2;
    }
  }

  lemma {:induction false} IfWitness(s: Stmt, own: set<Name>, scope: set<Name>, mode: Mode, st: State, moved: set<Name>, x: Name, i: nat)
    returns (ch: Choices)
    requires s.If? && Plain(s, own, scope) && x in own && Agree(scope, moved, st.cur, x)
    requires !st.dead && LiveUse(Check(s, own, mode, st).log, i, x)
    ensures Fault(x, Check(s, own, mode, st).log[i].pos) in RunStmt(s, own, moved, ch).faults
    decreases s, 2
  {
    var If(c, t, e) := s;
    var a := CheckExpr(c, own, false, mode, st.cur, st.dead);
    var st0 := st.(cur := a.cur);
    var rt := Check(t, own, mode, st0);
    var c1 := ExprFollows(c, own, scope, false, mode, st.cur, st.dead, moved, x);
    var ra := RunExpr(c, own, moved, c1);
    if i < |a.log| {
      ch := c1;
    } else if i < |a.log + rt.log| {
      var c2 := UseWitness(t, own, scope, mode, st0, ra.moved, x, i - |a.log|);
      ExprThen(c, own, moved, c1, [1] + c2);
      assert ([1] + c2)[1..] == c2;
      ch := c1 + ([1] + c2);
    } else {
      var st1 := st0.(brk := rt.st.brk, cont := rt.st.cont);
      assert Check(s, own, mode, st).log == a.log + rt.log + CheckOpt(e, own, mode, st1).log;
      var c2 := UseWitness(e.value, own, scope, mode, st1, ra.moved, x, i - |a.log + rt.log|);
      ExprThen(c, own, moved, c1, [0] + c2);
      assert ([0] + c2)[1..] == c2;
      ch := c1 + ([0] + c2);
    }
  }

  lemma {:induction false} CasesWitness(cases: List<Case>, total: bool, own: set<Name>, scope: set<Name>, mode: Mode, st0: State,
                                        acc: ArmsState, moved: set<Name>, x: Name, i: nat) returns (ch: Choices)
    requires PlainCases(cases, own, scope) && x in own && Agree(scope, moved, st0.cur, x) && !st0.dead && |acc.log| <= i
    requires LiveUse(CheckCases(cases, own, mode, st0, acc).log, i, x)
    ensures Fault(x, CheckCases(cases, own, mode, st0, acc).log[i].pos) in RunCases(cases, total, own, moved, ch).faults
    decreases cases, 3
  {
    var Cons(c, tail) := cases;
    var st := st0.(brk := acc.brk, cont := acc.cont);
    var b := Check(c.body, own, mode, st);
    var acc' := AddArm(acc, b);
    ContKeptCases(tail, own, mode, st0, acc');
    if i < |acc'.log| {
      assert CheckCases(cases, own, mode, st0, acc).log[i] == acc'.log[i];
      var c1 := UseWitness(c.body, own, scope, mode, st, moved, x, i - |acc.log|);
      ch := if total && tail.Nil? then c1 else [1] + c1;
      assert !(total && tail.Nil?) ==> ch[1..] == c1;
    } else {
      var c1 := CasesWitness(tail, total, own, scope, mode, st0, acc', moved, x, i);
      ch := [0] + c1;
      assert ch[1..] == c1;
    }
  }

  /** A live use in one pass over a loop. */
  lemma {:induction false} PassWitness(s: Stmt, own: set<Name>, scope: set<Name>, mode: Mode, cur: set<Name>,
                                       moved: set<Name>, x: Name, i: nat) returns (ch: Choices)
    requires IsLoop(s) && PlainLoop(s, own, scope) && x in own && Agree(scope, moved, cur, x)
    requires LiveUse(LoopPass(s, own, mode, State(cur, false, None, None)).log, i, x)
    ensures Fault(x, LoopPass(s, own, mode, State(cur, false, None, None)).log[i].pos) in RunLoop(s, own, moved, ch).faults
    decreases s, 0
  {
    var st := State(cur, false, None, None);
    PassInParts(s, own, mode, st);
    var c := TestStage(s, own, mode, st);
    var b := CheckOpt(LoopBody(s), own, mode, c.st);
    var e := CheckOptExpr(LoopStep(s), own, mode, b.st.cur, b.st.dead);
    assert LoopPass(s, own, mode, st).log == c.log + (b.log + e.log);
    var c1 := OptFollows(LoopTest(s), own, scope, mode, cur, false, moved, x);
    var rc := RunOptExpr(LoopTest(s), own, moved, c1);
    if i < |c.log| {
      ch := c1;
    } else {
      var c2;
      if i < |c.log + b.log| {
        c2 := UseWitness(LoopBody(s).value, own, scope, mode, c.st, rc.moved, x, i - |c.log|);
      } else {
        OptMarks(LoopStep(s), own, mode, b.st.cur, b.st.dead);
        c2 := StepWitness(s, own, scope, mode, c.st, rc.moved, x, i - |c.log + b.log|);
      }
      OptThen(LoopTest(s), own, moved, c1, [1] + c2);
      assert ([1] + c2)[1..] == c2;
      ch := c1 + ([1] + c2);
    }
  }

  /** The body is passed, and then the step has the fault. */
  lemma {:induction false} StepWitness(s: Stmt, own: set<Name>, scope: set<Name>, mode: Mode, st: State, moved: set<Name>, x: Name, i: nat)
    returns (ch: Choices)
    requires IsLoop(s) && PlainLoop(s, own, scope) && x in own && Agree(scope, moved, st.cur, x) && !st.dead
    requires var b := CheckOpt(LoopBody(s), own, mode, st);
      !b.st.dead && LiveUse(CheckOptExpr(LoopStep(s), own, mode, b.st.cur, false).log, i, x)
    ensures var b := CheckOpt(LoopBody(s), own, mode, st);
      var r := RunBody(s, own, moved, ch);
      && r.out.Normal?
      && Fault(x, CheckOptExpr(LoopStep(s), own, mode, b.st.cur, false).log[i].pos) in RunOptExpr(LoopStep(s), own, r.moved, r.rest).faults
    decreases s, 0
  {
    var b := CheckOpt(LoopBody(s), own, mode, st);
    var c1: Choices := [];
    if LoopBody(s).Some? {
      c1 := RunThrough(LoopBody(s).value, own, scope, mode, st, moved, x);
    }
    var c2 := OptFollows(LoopStep(s), own, scope, mode, b.st.cur, false, RunBody(s, own, moved, c1).moved, x);
    BodyExtends(s, own, moved, c1, c2);
    assert [] + c2 == c2;
    ch := c1 + c2;
  }

  lemma {:induction false} LoopWitness(s: Stmt, own: set<Name>, scope: set<Name>, mode: Mode, st: State, moved: set<Name>, x: Name, i: nat)
    returns (ch: Choices)
    requires IsLoop(s) && Plain(s, own, scope) && x in own && Agree(scope, moved, st.cur, x)
    requires LiveUse(Check(s, own, mode, st).log, i, x)
    ensures Fault(x, Check(s, own, mode, st).log[i].pos) in RunStmt(s, own, moved, ch).faults
    decreases s, 4
  {
    PlainShape(s, own, scope);
    LoopLog(s, own, mode, st);
    var o := SetupOf(s, own, mode, st);
    if i < |o.log| {
      ch := SetupWitness(s, own, scope, mode, st, moved, x, i);
    } else {
      var c0, m := SetupLeads(s, own, scope, mode, st, moved, x);
      var c1 := IterationsWitness(s, own, LoopScope(s, scope), mode, o.st.cur, m, x, i - |o.log|);
      assert Resumes(RunStmt(s, own, moved, c0 + c1), RunLoop(s, own, m, c1));
      ch := c0 + c1;
    }
  }

  /** The uses met in the two passes over a loop. */
  function PassesLog(s: Stmt, own: set<Name>, mode: Mode, start: set<Name>): Log
    requires IsLoop(s)
  {
    var p := FirstPass(s, own, mode, start);
    p.log + SecondPass(s, own, start, NextIter(p)).log
  }

  lemma LoopLog(s: Stmt, own: set<Name>, mode: Mode, st: State)
    requires ParsedLoop(s)
    ensures var o := SetupOf(s, own, mode, st); Check(s, own, mode, st).log == o.log + PassesLog(s, own, mode, o.st.cur)
  {
    LoopInParts(s, own, mode, st);
  }

  lemma {:induction false} IterationsWitness(s: Stmt, own: set<Name>, scope: set<Name>, mode: Mode, start: set<Name>, moved: set<Name>,
                                             x: Name, i: nat) returns (ch: Choices)
    requires IsLoop(s) && PlainLoop(s, own, scope) && x in own && Agree(scope, moved, start, x)
    requires LiveUse(PassesLog(s, own, mode, start), i, x)
    ensures Fault(x, PassesLog(s, own, mode, start)[i].pos) in RunLoop(s, own, moved, ch).faults
    decreases s, 3
  {
    var p := FirstPass(s, own, mode, start);
    if i < |p.log| {
      ch := PassWitness(s, own, scope, FirstMode(mode, start), start, moved, x, i);
    } else {
      ch := SecondPassWitness(s, own, scope, mode, start, moved, x, i - |p.log|);
    }
  }

  lemma {:induction false} SecondPassWitness(s: Stmt, own: set<Name>, scope: set<Name>, mode: Mode, start: set<Name>, moved: set<Name>,
                                             x: Name, i: nat) returns (ch: Choices)
    requires IsLoop(s) && PlainLoop(s, own, scope) && x in own && Agree(scope, moved, start, x)
    requires LiveUse(SecondPass(s, own, start, NextIter(FirstPass(s, own, mode, start))).log, i, x)
    ensures Fault(x, SecondPass(s, own, start, NextIter(FirstPass(s, own, mode, start))).log[i].pos) in RunLoop(s, own, moved, ch).faults
    decreases s, 2
  {
    var c1, m := ToSecondHead(s, own, scope, mode, start, moved, x);
    var c2 := PassWitness(s, own, scope, SecondMode(start), NextIter(FirstPass(s, own, mode, start)).value, m, x, i);
    assert Resumes(RunLoop(s, own, moved, c1 + c2), RunLoop(s, own, m, c2));
    ch := c1 + c2;
  }

  lemma {:induction false} SetupWitness(s: Stmt, own: set<Name>, scope: set<Name>, mode: Mode, st: State, moved: set<Name>, x: Name, i: nat)
    returns (ch: Choices)
    requires IsLoop(s) && Plain(s, own, scope) && x in own && Agree(scope, moved, st.cur, x)
    requires LiveUse(SetupOf(s, own, mode, st).log, i, x)
    ensures Fault(x, SetupOf(s, own, mode, st).log[i].pos) in RunStmt(s, own, moved, ch).faults
    decreases s, 1
  {
    var m0, st0 := Mode(false, Some(st.cur), mode.only), State(st.cur, false, None, None);
    match s
    case For(_, init, _, _, _) => ch := UseWitness(init.value, own, scope, m0, st0, moved, x, i);
    case ForRange(_, _, lo, hi, _, _) =>
      var a := CheckExpr(lo, own, false, m0, st.cur, false);
      var b := CheckExpr(hi, own, false, m0, a.cur, false);
      var c1 := ExprFollows(lo, own, scope, false, m0, st.cur, false, moved, x);
      var ra := RunExpr(lo, own, moved, c1);
      var c2 := ExprFollows(hi, own, scope, false, m0, a.cur, false, ra.moved, x);
      ExprThen(lo, own, moved, c1, c2);
      FaultyConcat(ra.faults, RunExpr(hi, own, ra.moved, c2).faults, a.log, b.log, x);
      ch := c1 + c2;
  }

  /** Every report made in reachable code of a plain function body is true: some choice of
      branches and iterations reaches that use with the variable's value already moved away. */
  lemma NoFalseAlarm(body: Stmt, own: set<Name>, params: set<Name>, only: bool, i: nat)
    requires Plain(body, own, params)
    requires var log := Check(body, own, Mode(false, None, only), State({}, false, None, None)).log;
             i < |log| && log[i].reported && !log[i].dead
    ensures var log := Check(body, own, Mode(false, None, only), State({}, false, None, None)).log;
            exists ch :: Fault(log[i].name, log[i].pos) in RunStmt(body, own, {}, ch).faults
  {
    var mode := Mode(false, None, only);
    var st := State({}, false, None, None);
    var log := Check(body, own, mode, st).log;
    PlainShape(body, own, params);
    OnlyOwned(body, own, mode, st);
    var ch := UseWitness(body, own, params, mode, st, {}, log[i].name, i);
  }
}
