/** Soundness of the move checker against the runs of the program. */
module MoveSoundness {
  import opened Ast
  import opened Runs
  import opened MoveSpec
  import opened MoveLaws
  import opened MoveLoops

  // ---------- syntactic conditions ----------

  /** Evaluating `e` never (re-)initialises x. */
  predicate KeepsExpr(e: Expr, x: Name)
    decreases e
  {
    match e
    case Binary(op, l, r) => !(op.Set? && l.Var? && l.name == x) && KeepsExpr(l, x) && KeepsExpr(r, x)
    case Unary(_, o) => KeepsExpr(o, x)
    case Call(f, args, _) => KeepsExpr(f, x) && KeepsArgs(args, x)
    case Index(l, r) => KeepsExpr(l, x) && KeepsExpr(r, x)
    case Cast(o) => KeepsExpr(o, x)
    case _ => true
  }

  predicate KeepsArgs(args: List<Expr>, x: Name)
    decreases args
  {
    args.Cons? ==> KeepsExpr(args.head, x) && KeepsArgs(args.tail, x)
  }

  predicate KeepsOpt(e: Option<Expr>, x: Name) {
    e.Some? ==> KeepsExpr(e.value, x)
  }

  /** `s` neither declares nor assigns x. */
  predicate Keeps(s: Stmt, x: Name)
    decreases s
  {
    match s
    case VarDecl(y, init, _) => y != x && KeepsOpt(init, x)
    case ExprStmt(e) => KeepsExpr(e, x)
    case Assert(e) => KeepsExpr(e, x)
    case Block(ss) => KeepsList(ss, x)
    case If(c, t, e) => KeepsExpr(c, x) && Keeps(t, x) && (e.Some? ==> Keeps(e.value, x))
    case Match(e, cases) => KeepsExpr(e, x) && KeepsCases(cases, x)
    case While(_, c, b) => KeepsExpr(c, x) && Keeps(b, x)
    case Loop(_, b) => Keeps(b, x)
    case For(_, init, c, e, b) =>
      (init.Some? ==> Keeps(init.value, x)) && KeepsOpt(c, x) && KeepsOpt(e, x) && (b.Some? ==> Keeps(b.value, x))
    case ForRange(_, _, lo, hi, _, b) => KeepsExpr(lo, x) && KeepsExpr(hi, x) && Keeps(b, x)
    case Return(e) => KeepsOpt(e, x)
    case _ => true
  }

  predicate KeepsList(ss: List<Stmt>, x: Name)
    decreases ss
  {
    ss.Cons? ==> Keeps(ss.head, x) && KeepsList(ss.tail, x)
  }

  predicate KeepsCases(cases: List<Case>, x: Name)
    decreases cases
  {
    cases.Cons? ==> Keeps(cases.head.body, x) && KeepsCases(cases.tail, x)
  }

  /** No owning variable occurs in `e`. */
  predicate Detached(e: Expr, own: set<Name>)
    decreases e
  {
    match e
    case Var(x, _) => x !in own
    case Binary(_, l, r) => Detached(l, own) && Detached(r, own)
    case Unary(_, o) => Detached(o, own)
    case Call(f, args, _) => Detached(f, own) && DetachedArgs(args, own)
    case Index(l, r) => Detached(l, own) && Detached(r, own)
    case Cast(o) => Detached(o, own)
    case _ => true
  }

  predicate DetachedArgs(args: List<Expr>, own: set<Name>)
    decreases args
  {
    args.Cons? ==> Detached(args.head, own) && DetachedArgs(args.tail, own)
  }

  /** Owning variables are in scope where they are used; an assignment target is a plain variable
      set by `=`, or no owning variable occurs in it; the skipped operand of a short-circuit
      operator re-initialises nothing. */
  predicate GoodExpr(e: Expr, own: set<Name>, scope: set<Name>)
    decreases e
  {
    match e
    case Var(x, _) => x in own ==> x in scope
    case Binary(op, l, r) =>
      GoodExpr(l, own, scope) && GoodExpr(r, own, scope) &&
      (IsAssignment(op) ==> (l.Var? && op.Set?) || Detached(l, own)) &&
      (IsLogical(op) ==> forall x :: x in own ==> KeepsExpr(r, x))
    case Unary(_, o) => GoodExpr(o, own, scope)
    case Call(f, args, _) => GoodExpr(f, own, scope) && GoodArgs(args, own, scope)
    case Index(l, r) => GoodExpr(l, own, scope) && GoodExpr(r, own, scope)
    case Cast(o) => GoodExpr(o, own, scope)
    case _ => true
  }

  predicate GoodArgs(args: List<Expr>, own: set<Name>, scope: set<Name>)
    decreases args
  {
    args.Cons? ==> GoodExpr(args.head, own, scope) && GoodArgs(args.tail, own, scope)
  }

  predicate GoodOpt(e: Option<Expr>, own: set<Name>, scope: set<Name>) {
    e.Some? ==> GoodExpr(e.value, own, scope)
  }

  /** Evaluating `e` moves no owning variable and assigns none. */
  predicate MovesNothing(e: Expr, own: set<Name>)
    decreases e
  {
    match e
    case Binary(op, l, r) =>
      MovesNothing(l, own) && MovesNothing(r, own) &&
      (op.Set? ==> Taken(r, own) == {} && (l.Var? ==> l.name !in own))
    case Unary(_, o) => MovesNothing(o, own)
    case Call(f, args, _) => MovesNothing(f, own) && MovesNoArgs(args, own)
    case Index(l, r) => MovesNothing(l, own) && MovesNothing(r, own)
    case Cast(o) => MovesNothing(o, own)
    case _ => true
  }

  predicate MovesNoArgs(args: List<Expr>, own: set<Name>)
    decreases args
  {
    args.Cons? ==> Taken(args.head, own) == {} && MovesNothing(args.head, own) && MovesNoArgs(args.tail, own)
  }

  /** The variables in scope after `s`. */
  function ScopeAfter(s: Stmt, scope: set<Name>): set<Name> {
    if s.VarDecl? then scope + {s.name} else scope
  }

  /** The programs the soundness theorem is about: no shadowing, no break, no labelled
      continue; inside a loop no owning variable of the surrounding scope is assigned; the
      step of a `for` moves nothing. */
  predicate Good(s: Stmt, own: set<Name>, scope: set<Name>)
    decreases s
  {
    match s
    case VarDecl(x, init, _) => x !in scope && GoodOpt(init, own, scope)
    case ExprStmt(e) => GoodExpr(e, own, scope)
    case Assert(e) => GoodExpr(e, own, scope)
    case Block(ss) => GoodList(ss, own, scope)
    case If(c, t, e) => GoodExpr(c, own, scope) && Good(t, own, scope) && (e.Some? ==> Good(e.value, own, scope))
    case Match(e, cases) => GoodExpr(e, own, scope) && GoodCases(cases, own, scope)
    case While(_, _, _) => GoodLoop(s, own, scope)
    case Loop(_, _) => GoodLoop(s, own, scope)
    case For(_, init, _, _, _) =>
      IsForInit(init) && (init.Some? ==> Good(init.value, own, scope)) &&
      GoodLoop(s, own, if init.Some? then ScopeAfter(init.value, scope) else scope)
    case ForRange(_, _, lo, hi, _, _) => GoodExpr(lo, own, scope) && GoodExpr(hi, own, scope) && GoodLoop(s, own, scope)
    case Break(_) => false
    case Continue(t) => t.None?
    case Return(e) => GoodOpt(e, own, scope)
  }

  predicate GoodLoop(s: Stmt, own: set<Name>, scope: set<Name>)
    requires IsLoop(s)
    decreases s, 0
  {
    GoodOpt(LoopTest(s), own, scope) && GoodOpt(LoopStep(s), own, scope) &&
    (LoopStep(s).Some? ==> MovesNothing(LoopStep(s).value, own)) &&
    (LoopBody(s).Some? ==> Good(LoopBody(s).value, own, scope)) &&
    forall x :: x in scope && x in own ==> KeepsPass(s, x)
  }

  predicate KeepsPass(s: Stmt, x: Name)
    requires IsLoop(s)
  {
    KeepsOpt(LoopTest(s), x) && KeepsOpt(LoopStep(s), x) && (LoopBody(s).Some? ==> Keeps(LoopBody(s).value, x))
  }

  predicate GoodList(ss: List<Stmt>, own: set<Name>, scope: set<Name>)
    decreases ss
  {
    ss.Cons? ==> Good(ss.head, own, scope) && GoodList(ss.tail, own, ScopeAfter(ss.head, scope))
  }

  predicate GoodCases(cases: List<Case>, own: set<Name>, scope: set<Name>)
    decreases cases
  {
    cases.Cons? ==> Good(cases.head.body, own, scope) && GoodCases(cases.tail, own, scope)
  }

  lemma {:induction false} GoodShape(s: Stmt, own: set<Name>, scope: set<Name>)
    requires Good(s, own, scope)
    ensures BreakFree(s) && Parsed(s)
    decreases s
  {
    match s
    case Block(ss) => GoodListShape(ss, own, scope);
    case If(_, t, e) =>
      GoodShape(t, own, scope);
      if e.Some? { GoodShape(e.value, own, scope); }
    case Match(_, cases) => GoodCasesShape(cases, own, scope);
    case While(_, _, b) => GoodShape(b, own, scope);
    case Loop(_, b) => GoodShape(b, own, scope);
    case For(_, init, _, _, b) =>
      if init.Some? { GoodShape(init.value, own, scope); }
      if b.Some? { GoodShape(b.value, own, if init.Some? then ScopeAfter(init.value, scope) else scope); }
    case ForRange(_, _, _, _, _, b) => GoodShape(b, own, scope);
    case _ =>
  }

  lemma {:induction false} GoodListShape(ss: List<Stmt>, own: set<Name>, scope: set<Name>)
    requires GoodList(ss, own, scope)
    ensures BreakFreeList(ss) && ParsedList(ss)
    decreases ss
  {
    if ss.Cons? {
      GoodShape(ss.head, own, scope);
      GoodListShape(ss.tail, own, ScopeAfter(ss.head, scope));
    }
  }

  lemma {:induction false} GoodCasesShape(cases: List<Case>, own: set<Name>, scope: set<Name>)
    requires GoodCases(cases, own, scope)
    ensures BreakFreeCases(cases) && ParsedCases(cases)
    decreases cases
  {
    if cases.Cons? {
      GoodShape(cases.head.body, own, scope);
      GoodCasesShape(cases.tail, own, scope);
    }
  }

  // ---------- a path that is not re-initialised stays MOVED ----------

  lemma {:induction false} ExprKeeps(e: Expr, own: set<Name>, lhs: bool, mode: Mode, cur: set<Name>, dead: bool, x: Name)
    requires KeepsExpr(e, x) && x in cur
    ensures x in CheckExpr(e, own, lhs, mode, cur, dead).cur
    decreases e
  {
    match e
    case Binary(op, l, r) =>
      ExprKeeps(l, own, lhs || IsAssignment(op), mode, cur, dead, x);
      ExprKeeps(r, own, lhs, mode, CheckExpr(l, own, lhs || IsAssignment(op), mode, cur, dead).cur, dead, x);
    case Unary(_, o) => ExprKeeps(o, own, lhs, mode, cur, dead, x);
    case Call(f, args, _) =>
      ExprKeeps(f, own, lhs, mode, cur, dead, x);
      ArgsKeep(args, own, lhs, mode, CheckExpr(f, own, lhs, mode, cur, dead).cur, dead, x);
    case Index(l, r) =>
      ExprKeeps(l, own, lhs, mode, cur, dead, x);
      ExprKeeps(r, own, lhs, mode, CheckExpr(l, own, lhs, mode, cur, dead).cur, dead, x);
    case Cast(o) => ExprKeeps(o, own, lhs, mode, cur, dead, x);
    case _ =>
  }

  lemma {:induction false} ArgsKeep(args: List<Expr>, own: set<Name>, lhs: bool, mode: Mode, cur: set<Name>, dead: bool, x: Name)
    requires KeepsArgs(args, x) && x in cur
    ensures x in CheckArgs(args, own, lhs, mode, cur, dead).cur
    decreases args
  {
    if args.Cons? {
      var a := CheckExpr(args.head, own, lhs, mode, cur, dead);
      ExprKeeps(args.head, own, lhs, mode, cur, dead, x);
      ArgsKeep(args.tail, own, lhs, mode, a.cur + Taken(args.head, own), dead, x);
    }
  }

  lemma OptKeeps(e: Option<Expr>, own: set<Name>, mode: Mode, cur: set<Name>, dead: bool, x: Name)
    requires KeepsOpt(e, x) && x in cur
    ensures x in CheckOptExpr(e, own, mode, cur, dead).cur
  {
    if e.Some? {
      ExprKeeps(e.value, own, false, mode, cur, dead, x);
    }
  }

  /** x is MOVED in `o` unless no state was collected. */
  predicate HasOpt(o: Option<set<Name>>, x: Name) {
    o.Some? ==> x in o.value
  }

  /** x is MOVED in `b`, and in its collected states if it was in those of `a`. */
  predicate KeepsMoved(a: State, b: State, x: Name) {
    x in b.cur && (HasOpt(a.brk, x) ==> HasOpt(b.brk, x)) && (HasOpt(a.cont, x) ==> HasOpt(b.cont, x))
  }

  /** A path MOVED before a statement that does not re-initialise it is MOVED in every
      state the statement leaves behind. */
  lemma {:induction false} CheckKeeps(s: Stmt, own: set<Name>, mode: Mode, st: State, x: Name)
    requires Keeps(s, x) && x in st.cur
    ensures KeepsMoved(st, Check(s, own, mode, st).st, x) && x in Check(s, own, mode, st).entry
    decreases s, 2
  {
    match s
    case VarDecl(_, init, _) => OptKeeps(init, own, mode, st.cur, st.dead, x);
    case ExprStmt(e) => ExprKeeps(e, own, false, mode, st.cur, st.dead, x);
    case Assert(e) => ExprKeeps(e, own, false, mode, st.cur, st.dead, x);
    case Block(ss) => ListKeeps(ss, own, mode, st, x);
    case If(c, t, e) =>
      ExprKeeps(c, own, false, mode, st.cur, st.dead, x);
      var st0 := st.(cur := CheckExpr(c, own, false, mode, st.cur, st.dead).cur);
      CheckKeeps(t, own, mode, st0, x);
      if e.Some? {
        var rt := Check(t, own, mode, st0);
        CheckKeeps(e.value, own, mode, st0.(brk := rt.st.brk, cont := rt.st.cont), x);
      }
    case Match(e, cases) =>
      var a := CheckExpr(e, own, false, mode, st.cur, st.dead);
      ExprKeeps(e, own, false, mode, st.cur, st.dead, x);
      CasesKeep(cases, own, mode, st.(cur := a.cur), ArmsState(None, true, st.brk, st.cont, a.log), x);
    case While(_, _, _) => LoopKeeps(s, own, mode, st, x);
    case Loop(_, _) => LoopKeeps(s, own, mode, st, x);
    case For(_, _, _, _, _) => LoopKeeps(s, own, mode, st, x);
    case ForRange(_, _, _, _, _, _) => LoopKeeps(s, own, mode, st, x);
    case Break(_) =>
    case Continue(_) =>
    case Return(e) => OptKeeps(e, own, mode, st.cur, st.dead, x);
  }

  lemma {:induction false} ListKeeps(ss: List<Stmt>, own: set<Name>, mode: Mode, st: State, x: Name)
    requires KeepsList(ss, x) && x in st.cur
    ensures KeepsMoved(st, CheckList(ss, own, mode, st).st, x) && x in CheckList(ss, own, mode, st).entry
    decreases ss, 2
  {
    if ss.Cons? {
      CheckKeeps(ss.head, own, mode, st, x);
      ListKeeps(ss.tail, own, mode, Check(ss.head, own, mode, st).st, x);
    }
  }

  lemma {:induction false} CasesKeep(cases: List<Case>, own: set<Name>, mode: Mode, st0: State, acc: ArmsState, x: Name)
    requires KeepsCases(cases, x) && x in st0.cur && HasOpt(acc.merged, x)
    ensures var r := CheckCases(cases, own, mode, st0, acc);
            HasOpt(r.merged, x) && (HasOpt(acc.brk, x) ==> HasOpt(r.brk, x)) && (HasOpt(acc.cont, x) ==> HasOpt(r.cont, x))
    decreases cases, 2
  {
    if cases.Cons? {
      var st := st0.(brk := acc.brk, cont := acc.cont);
      CheckKeeps(cases.head.body, own, mode, st, x);
      var r := Check(cases.head.body, own, mode, st);
      CasesKeep(cases.tail, own, mode, st0,
        AddArm(acc, r), x);
    }
  }

  lemma {:induction false} PassKeeps(s: Stmt, own: set<Name>, mode: Mode, st: State, x: Name)
    requires IsLoop(s) && KeepsPass(s, x) && x in st.cur
    ensures KeepsMoved(st, LoopPass(s, own, mode, st).st, x) && x in LoopPass(s, own, mode, st).entry
    decreases s, 0
  {
    OptKeeps(LoopTest(s), own, mode, st.cur, st.dead, x);
    var c := InPlace(st, CheckOptExpr(LoopTest(s), own, mode, st.cur, st.dead));
    var b := match LoopBody(s) case None => InPlace(c.st, ExprResult(c.st.cur, [])) case Some(y) => Check(y, own, mode, c.st);
    if LoopBody(s).Some? {
      CheckKeeps(LoopBody(s).value, own, mode, c.st, x);
    }
    OptKeeps(LoopStep(s), own, mode, b.st.cur, b.st.dead, x);
  }

  lemma {:induction false} SetupKeeps(s: Stmt, own: set<Name>, mode: Mode, st: State, x: Name)
    requires IsLoop(s) && Keeps(s, x) && x in st.cur
    ensures KeepsMoved(st, LoopSetup(s, own, mode, st).st, x) && x in LoopSetup(s, own, mode, st).entry
    decreases s, 0
  {
    match s
    case For(_, init, _, _, _) =>
      if init.Some? { CheckKeeps(init.value, own, mode, st, x); }
    case ForRange(_, _, lo, hi, _, _) =>
      ExprKeeps(lo, own, false, mode, st.cur, st.dead, x);
      ExprKeeps(hi, own, false, mode, CheckExpr(lo, own, false, mode, st.cur, st.dead).cur, st.dead, x);
    case _ =>
  }

  lemma {:induction false} LoopKeeps(s: Stmt, own: set<Name>, mode: Mode, st: State, x: Name)
    requires IsLoop(s) && Keeps(s, x) && x in st.cur
    ensures KeepsMoved(st, CheckLoop(s, own, mode, st).st, x) && x in CheckLoop(s, own, mode, st).entry
    decreases s, 1
  {
    var m0 := Mode(false, Some(st.cur), mode.only);
    var st0 := State(st.cur, false, None, None);
    SetupKeeps(s, own, m0, st0, x);
    var o := LoopSetup(s, own, m0, st0);
    var start := o.st.cur;
    PassKeeps(s, own, FirstMode(mode, start), o.st, x);
    var r1 := LoopPass(s, own, FirstMode(mode, start), o.st);
    var next := NextIter(r1);
    if next.Some? {
      PassKeeps(s, own, SecondMode(start), State(next.value, false, None, None), x);
    }
  }

  // ---------- soundness ----------

  /** Every owning variable in scope whose value is gone is MOVED in the checker's state. */
  ghost predicate Covers(scope: set<Name>, own: set<Name>, moved: set<Name>, cur: set<Name>) {
    moved <= own && forall x :: x in scope && x in moved ==> x in cur
  }

  /** The checker met no use of a MOVED path. */
  ghost predicate Quiet(log: Log) {
    forall i :: 0 <= i < |log| ==> !log[i].moved
  }

  lemma QuietSplit(a: Log, b: Log)
    requires Quiet(a + b)
    ensures Quiet(a) && Quiet(b)
  {
    forall i | 0 <= i < |a| ensures !a[i].moved { assert (a + b)[i] == a[i]; }
    forall i | 0 <= i < |b| ensures !b[i].moved { assert (a + b)[|a| + i] == b[i]; }
  }

  lemma QuietSplit3(a: Log, b: Log, c: Log)
    requires Quiet(a + b + c)
    ensures Quiet(a) && Quiet(b) && Quiet(c)
  {
    QuietSplit(a + b, c);
    QuietSplit(a, b);
  }

  /** The two states say the same of every owning variable. */
  ghost predicate SameOwned(own: set<Name>, a: set<Name>, b: set<Name>) {
    forall x :: x in own ==> (x in a <==> x in b)
  }

  /** An expression without owning variables moves and revives nothing, in the checker and in a run. */
  lemma {:induction false} DetachedRuns(e: Expr, own: set<Name>, lhs: bool, mode: Mode, cur: set<Name>, dead: bool,
                                        moved: set<Name>, ch: Choices)
    requires Detached(e, own) && moved <= own
    ensures var r := RunExpr(e, own, moved, ch); r.faults == [] && r.moved == moved
    ensures SameOwned(own, CheckExpr(e, own, lhs, mode, cur, dead).cur, cur)
    decreases e
  {
    match e
    case Binary(op, l, r) =>
      var a := CheckExpr(l, own, lhs || IsAssignment(op), mode, cur, dead);
      DetachedRuns(l, own, lhs || IsAssignment(op), mode, cur, dead, moved, ch);
      DetachedRuns(r, own, lhs, mode, a.cur, dead, moved, ch);
      var ra := RunExpr(l, own, moved, ch);
      if ra.done {
        DetachedRuns(r, own, lhs, mode, a.cur, dead, moved, ra.rest);
        if ra.rest != [] {
          DetachedRuns(r, own, lhs, mode, a.cur, dead, moved, ra.rest[1..]);
        }
      }
    case Unary(_, o) => DetachedRuns(o, own, lhs, mode, cur, dead, moved, ch);
    case Call(f, args, _) =>
      DetachedRuns(f, own, lhs, mode, cur, dead, moved, ch);
      DetachedArgsRun(args, own, lhs, mode, CheckExpr(f, own, lhs, mode, cur, dead).cur, dead, moved, RunExpr(f, own, moved, ch).rest);
    case Index(l, r) =>
      DetachedRuns(l, own, lhs, mode, cur, dead, moved, ch);
      DetachedRuns(r, own, lhs, mode, CheckExpr(l, own, lhs, mode, cur, dead).cur, dead, moved, RunExpr(l, own, moved, ch).rest);
    case Cast(o) => DetachedRuns(o, own, lhs, mode, cur, dead, moved, ch);
    case _ =>
  }

  lemma {:induction false} DetachedArgsRun(args: List<Expr>, own: set<Name>, lhs: bool, mode: Mode, cur: set<Name>, dead: bool,
                                           moved: set<Name>, ch: Choices)
    requires DetachedArgs(args, own) && moved <= own
    ensures var r := RunArgs(args, own, moved, ch); r.faults == [] && r.moved == moved
    ensures SameOwned(own, CheckArgs(args, own, lhs, mode, cur, dead).cur, cur)
    decreases args
  {
    if args.Cons? {
      var a := CheckExpr(args.head, own, lhs, mode, cur, dead);
      DetachedRuns(args.head, own, lhs, mode, cur, dead, moved, ch);
      assert Taken(args.head, own) == {} && moved + {} == moved;
      DetachedArgsRun(args.tail, own, lhs, mode, a.cur + {}, dead, moved, RunExpr(args.head, own, moved, ch).rest);
    }
  }

  lemma {:induction false} ExprSound(e: Expr, own: set<Name>, scope: set<Name>, lhs: bool, mode: Mode, cur: set<Name>, dead: bool,
                                     moved: set<Name>, ch: Choices)
    requires GoodExpr(e, own, scope) && Covers(scope, own, moved, cur) && !lhs
    requires Quiet(CheckExpr(e, own, lhs, mode, cur, dead).log)
    ensures var r := RunExpr(e, own, moved, ch);
            r.faults == [] && (r.done ==> Covers(scope, own, r.moved, CheckExpr(e, own, lhs, mode, cur, dead).cur))
    decreases e
  {
    match e
    case Var(x, pos) =>
      assert CheckExpr(e, own, lhs, mode, cur, dead).log[0].moved == (x in cur);
    case Binary(op, l, r) => BinarySound(e, own, scope, mode, cur, dead, moved, ch);
    case Unary(_, o) => ExprSound(o, own, scope, lhs, mode, cur, dead, moved, ch);
    case Call(f, args, _) =>
      var a := CheckExpr(f, own, lhs, mode, cur, dead);
      QuietSplit(a.log, CheckArgs(args, own, lhs, mode, a.cur, dead).log);
      ExprSound(f, own, scope, lhs, mode, cur, dead, moved, ch);
      var ra := RunExpr(f, own, moved, ch);
      if ra.done { ArgsSound(args, own, scope, mode, a.cur, dead, ra.moved, ra.rest); }
    case Index(l, r) =>
      var a := CheckExpr(l, own, lhs, mode, cur, dead);
      QuietSplit(a.log, CheckExpr(r, own, lhs, mode, a.cur, dead).log);
      ExprSound(l, own, scope, lhs, mode, cur, dead, moved, ch);
      var ra := RunExpr(l, own, moved, ch);
      if ra.done { ExprSound(r, own, scope, lhs, mode, a.cur, dead, ra.moved, ra.rest); }
    case Cast(o) => ExprSound(o, own, scope, lhs, mode, cur, dead, moved, ch);
    case _ =>
  }

  lemma {:induction false} BinarySound(e: Expr, own: set<Name>, scope: set<Name>, mode: Mode, cur: set<Name>, dead: bool,
                                       moved: set<Name>, ch: Choices)
    requires e.Binary? && GoodExpr(e, own, scope) && Covers(scope, own, moved, cur)
    requires Quiet(CheckExpr(e, own, false, mode, cur, dead).log)
    ensures var r := RunExpr(e, own, moved, ch);
            r.faults == [] && (r.done ==> Covers(scope, own, r.moved, CheckExpr(e, own, false, mode, cur, dead).cur))
    decreases e, 1
  {
    var Binary(op, l, r) := e;
    var a := CheckExpr(l, own, IsAssignment(op), mode, cur, dead);
    var b := CheckExpr(r, own, false, mode, a.cur, dead);
    QuietSplit(a.log, b.log);
    if IsAssignment(op) {
      TargetSound(e, own, scope, mode, cur, dead, moved, ch);
    } else {
      ExprSound(l, own, scope, false, mode, cur, dead, moved, ch);
      var ra := RunExpr(l, own, moved, ch);
      if ra.done {
        if !IsLogical(op) {
          ExprSound(r, own, scope, false, mode, a.cur, dead, ra.moved, ra.rest);
        } else if ra.rest != [] {
          if ra.rest[0] == 0 {
            forall x | x in scope && x in ra.moved ensures x in b.cur {
              ExprKeeps(r, own, false, mode, a.cur, dead, x);
            }
          } else {
            ExprSound(r, own, scope, false, mode, a.cur, dead, ra.moved, ra.rest[1..]);
          }
        }
      }
    }
  }

  lemma {:induction false} TargetSound(e: Expr, own: set<Name>, scope: set<Name>, mode: Mode, cur: set<Name>, dead: bool,
                                       moved: set<Name>, ch: Choices)
    requires e.Binary? && IsAssignment(e.op) && GoodExpr(e, own, scope) && Covers(scope, own, moved, cur)
    requires Quiet(CheckExpr(e.right, own, false, mode, CheckExpr(e.left, own, true, mode, cur, dead).cur, dead).log)
    ensures var r := RunExpr(e, own, moved, ch);
            r.faults == [] && (r.done ==> Covers(scope, own, r.moved, CheckExpr(e, own, false, mode, cur, dead).cur))
    decreases e, 0
  {
    var Binary(op, l, r) := e;
    var a := CheckExpr(l, own, true, mode, cur, dead);
    if l.Var? && op.Set? {
      ExprSound(r, own, scope, false, mode, cur, dead, moved, ch);
    } else {
      DetachedRuns(l, own, true, mode, cur, dead, moved, ch);
      var ra := if op.Set? && l.Var? then ExprRun(true, moved, ch, []) else RunExpr(l, own, moved, ch);
      if ra.done {
        ExprSound(r, own, scope, false, mode, a.cur, dead, moved, ra.rest);
      }
    }
  }

  lemma {:induction false} ArgsSound(args: List<Expr>, own: set<Name>, scope: set<Name>, mode: Mode, cur: set<Name>, dead: bool,
                                     moved: set<Name>, ch: Choices)
    requires GoodArgs(args, own, scope) && Covers(scope, own, moved, cur)
    requires Quiet(CheckArgs(args, own, false, mode, cur, dead).log)
    ensures var r := RunArgs(args, own, moved, ch);
            r.faults == [] && (r.done ==> Covers(scope, own, r.moved, CheckArgs(args, own, false, mode, cur, dead).cur))
    decreases args
  {
    if args.Cons? {
      var a := CheckExpr(args.head, own, false, mode, cur, dead);
      var cur' := a.cur + Taken(args.head, own);
      QuietSplit(a.log, CheckArgs(args.tail, own, false, mode, cur', dead).log);
      ExprSound(args.head, own, scope, false, mode, cur, dead, moved, ch);
      var ra := RunExpr(args.head, own, moved, ch);
      if ra.done {
        ArgsSound(args.tail, own, scope, mode, cur', dead, ra.moved + Taken(args.head, own), ra.rest);
      }
    }
  }

  lemma OptSound(e: Option<Expr>, own: set<Name>, scope: set<Name>, mode: Mode, cur: set<Name>, dead: bool, moved: set<Name>, ch: Choices)
    requires GoodOpt(e, own, scope) && Covers(scope, own, moved, cur)
    requires Quiet(CheckOptExpr(e, own, mode, cur, dead).log)
    ensures var r := RunOptExpr(e, own, moved, ch);
            r.faults == [] && (r.done ==> Covers(scope, own, r.moved, CheckOptExpr(e, own, mode, cur, dead).cur))
  {
    if e.Some? {
      ExprSound(e.value, own, scope, false, mode, cur, dead, moved, ch);
    }
  }

  /** What a quiet analysis guarantees about one run of the analysed statement. */
  ghost predicate Safe(r: Run, res: Result, own: set<Name>, scope: set<Name>, after: set<Name>) {
    r.faults == [] && !r.out.Broke? &&
    (r.out.Normal? ==> !res.st.dead && Covers(after, own, r.moved, res.st.cur)) &&
    (r.out.Continued? ==> r.out.target.None? && res.st.cont.Some? && Covers(scope, own, r.moved, res.st.cont.value))
  }

  ghost predicate ContGrows(a: Option<set<Name>>, b: Option<set<Name>>) {
    a.Some? ==> b.Some? && a.value <= b.value
  }

  lemma {:induction false} ContKept(s: Stmt, own: set<Name>, mode: Mode, st: State)
    ensures ContGrows(st.cont, Check(s, own, mode, st).st.cont)
    decreases s
  {
    match s
    case Block(ss) => ContKeptList(ss, own, mode, st);
    case If(c, t, e) =>
      var st0 := st.(cur := CheckExpr(c, own, false, mode, st.cur, st.dead).cur);
      var rt := Check(t, own, mode, st0);
      ContKept(t, own, mode, st0);
      if e.Some? { ContKept(e.value, own, mode, st0.(brk := rt.st.brk, cont := rt.st.cont)); }
    case Match(e, cases) =>
      var a := CheckExpr(e, own, false, mode, st.cur, st.dead);
      ContKeptCases(cases, own, mode, st.(cur := a.cur), ArmsState(None, true, st.brk, st.cont, a.log));
    case _ =>
  }

  lemma {:induction false} ContKeptList(ss: List<Stmt>, own: set<Name>, mode: Mode, st: State)
    ensures ContGrows(st.cont, CheckList(ss, own, mode, st).st.cont)
    decreases ss
  {
    if ss.Cons? {
      ContKept(ss.head, own, mode, st);
      ContKeptList(ss.tail, own, mode, Check(ss.head, own, mode, st).st);
    }
  }

  lemma {:induction false} ContKeptCases(cases: List<Case>, own: set<Name>, mode: Mode, st0: State, acc: ArmsState)
    ensures ContGrows(acc.cont, CheckCases(cases, own, mode, st0, acc).cont)
    ensures ContGrows(acc.merged, CheckCases(cases, own, mode, st0, acc).merged)
    ensures !acc.allDead ==> !CheckCases(cases, own, mode, st0, acc).allDead
    ensures acc.log <= CheckCases(cases, own, mode, st0, acc).log
    decreases cases
  {
    if cases.Cons? {
      var st := st0.(brk := acc.brk, cont := acc.cont);
      var r := Check(cases.head.body, own, mode, st);
      ContKept(cases.head.body, own, mode, st);
      ContKeptCases(cases.tail, own, mode, st0,
        AddArm(acc, r));
    }
  }

  /** The main induction: from a covered state, a statement on which the checker is quiet
      runs without fault and ends in a covered state. */
  lemma {:induction false} StmtSound(s: Stmt, own: set<Name>, scope: set<Name>, mode: Mode, st: State, moved: set<Name>, ch: Choices)
    requires Good(s, own, scope) && Covers(scope, own, moved, st.cur) && !st.dead
    requires Quiet(Check(s, own, mode, st).log)
    ensures Safe(RunStmt(s, own, moved, ch), Check(s, own, mode, st), own, scope, ScopeAfter(s, scope))
    decreases |ch|, s, 5
  {
    match s
    case VarDecl(x, init, _) => OptSound(init, own, scope, mode, st.cur, st.dead, moved, ch);
    case ExprStmt(e) => ExprSound(e, own, scope, false, mode, st.cur, st.dead, moved, ch);
    case Assert(e) => ExprSound(e, own, scope, false, mode, st.cur, st.dead, moved, ch);
    case Block(ss) => ListSound(ss, own, scope, mode, st, moved, ch);
    case If(c, t, e) => IfSound(s, own, scope, mode, st, moved, ch);
    case Match(e, cases) => MatchSound(s, own, scope, mode, st, moved, ch);
    case While(_, _, _) => LoopSound(s, own, scope, mode, st, moved, ch);
    case Loop(_, _) => LoopSound(s, own, scope, mode, st, moved, ch);
    case For(_, _, _, _, _) => LoopSound(s, own, scope, mode, st, moved, ch);
    case ForRange(_, _, _, _, _, _) => LoopSound(s, own, scope, mode, st, moved, ch);
    case Continue(_) =>
    case Return(e) => OptSound(e, own, scope, mode, st.cur, st.dead, moved, ch);
  }

  lemma {:induction false} ListSound(ss: List<Stmt>, own: set<Name>, scope: set<Name>, mode: Mode, st: State, moved: set<Name>, ch: Choices)
    requires GoodList(ss, own, scope) && Covers(scope, own, moved, st.cur) && !st.dead
    requires Quiet(CheckList(ss, own, mode, st).log)
    ensures Safe(RunList(ss, own, moved, ch), CheckList(ss, own, mode, st), own, scope, scope)
    decreases |ch|, ss, 5
  {
    if ss.Cons? {
      var a := Check(ss.head, own, mode, st);
      QuietSplit(a.log, CheckList(ss.tail, own, mode, a.st).log);
      StmtSound(ss.head, own, scope, mode, st, moved, ch);
      ContKeptList(ss.tail, own, mode, a.st);
      var ra := RunStmt(ss.head, own, moved, ch);
      if ra.out.Normal? {
        ListSound(ss.tail, own, ScopeAfter(ss.head, scope), mode, a.st, ra.moved, ra.rest);
      }
    }
  }

  lemma {:induction false} IfSound(s: Stmt, own: set<Name>, scope: set<Name>, mode: Mode, st: State, moved: set<Name>, ch: Choices)
    requires s.If? && Good(s, own, scope) && Covers(scope, own, moved, st.cur) && !st.dead
    requires Quiet(Check(s, own, mode, st).log)
    ensures Safe(RunStmt(s, own, moved, ch), Check(s, own, mode, st), own, scope, scope)
    decreases |ch|, s, 3
  {
    var If(c, t, e) := s;
    var a := CheckExpr(c, own, false, mode, st.cur, st.dead);
    var st0 := st.(cur := a.cur);
    var rt := Check(t, own, mode, st0);
    var st1 := st0.(brk := rt.st.brk, cont := rt.st.cont);
    QuietSplit3(a.log, rt.log, CheckOpt(e, own, mode, st1).log);
    ExprSound(c, own, scope, false, mode, st.cur, st.dead, moved, ch);
    var ra := RunExpr(c, own, moved, ch);
    if e.Some? { ContKept(e.value, own, mode, st1); }
    if ra.done && ra.rest != [] {
      if ra.rest[0] != 0 {
        StmtSound(t, own, scope, mode, st0, ra.moved, ra.rest[1..]);
      } else if e.Some? {
        StmtSound(e.value, own, scope, mode, st1, ra.moved, ra.rest[1..]);
      }
    }
  }

  lemma {:induction false} MatchSound(s: Stmt, own: set<Name>, scope: set<Name>, mode: Mode, st: State, moved: set<Name>, ch: Choices)
    requires s.Match? && Good(s, own, scope) && Covers(scope, own, moved, st.cur) && !st.dead
    requires Quiet(Check(s, own, mode, st).log)
    ensures Safe(RunStmt(s, own, moved, ch), Check(s, own, mode, st), own, scope, scope)
    decreases |ch|, s, 3
  {
    var Match(e, cases) := s;
    var a := CheckExpr(e, own, false, mode, st.cur, st.dead);
    var acc := ArmsState(None, true, st.brk, st.cont, a.log);
    var st0 := st.(cur := a.cur);
    ContKeptCases(cases, own, mode, st0, acc);
    var all := CheckCases(cases, own, mode, st0, acc).log;
    assert all == a.log + all[|a.log|..];
    QuietSplit(a.log, all[|a.log|..]);
    ExprSound(e, own, scope, false, mode, st.cur, st.dead, moved, ch);
    var ra := RunExpr(e, own, moved, ch);
    if ra.done {
      CasesSound(cases, HasDefault(cases), own, scope, mode, st0, acc, ra.moved, ra.rest);
    }
  }

  lemma {:induction false} CasesSound(cases: List<Case>, total: bool, own: set<Name>, scope: set<Name>, mode: Mode, st0: State,
                                      acc: ArmsState, moved: set<Name>, ch: Choices)
    requires GoodCases(cases, own, scope) && Covers(scope, own, moved, st0.cur) && !st0.dead
    requires Quiet(CheckCases(cases, own, mode, st0, acc).log)
    ensures var r := RunCases(cases, total, own, moved, ch);
            var res := CheckCases(cases, own, mode, st0, acc);
            r.faults == [] && !r.out.Broke? &&
            (r.out.Normal? ==> cases.Nil? || (!total && r.moved == moved) ||
                               (res.merged.Some? && !res.allDead && Covers(scope, own, r.moved, res.merged.value))) &&
            (r.out.Continued? ==> r.out.target.None? && res.cont.Some? && Covers(scope, own, r.moved, res.cont.value))
    decreases |ch|, cases, 5
  {
    if cases.Cons? {
      var body := cases.head.body;
      var st := st0.(brk := acc.brk, cont := acc.cont);
      var r := Check(body, own, mode, st);
      var acc' := AddArm(acc, r);
      ContKeptCases(cases.tail, own, mode, st0, acc');
      var all := CheckCases(cases, own, mode, st0, acc).log;
      assert all == acc.log + r.log + all[|acc.log + r.log|..];
      QuietSplit3(acc.log, r.log, all[|acc.log + r.log|..]);
      if total && cases.tail.Nil? {
        StmtSound(body, own, scope, mode, st, moved, ch);
      } else if ch != [] {
        if ch[0] != 0 {
          StmtSound(body, own, scope, mode, st, moved, ch[1..]);
        } else {
          CasesSound(cases.tail, total, own, scope, mode, st0, acc', moved, ch[1..]);
        }
      }
    }
  }

  // ---------- loops ----------

  lemma {:induction false} BreaksKept(s: Stmt, own: set<Name>, mode: Mode, st: State)
    requires BreakFree(s)
    ensures Check(s, own, mode, st).st.brk == st.brk
    decreases s
  {
    match s
    case Block(ss) => BreaksKeptList(ss, own, mode, st);
    case If(c, t, e) =>
      var st0 := st.(cur := CheckExpr(c, own, false, mode, st.cur, st.dead).cur);
      var rt := Check(t, own, mode, st0);
      BreaksKept(t, own, mode, st0);
      if e.Some? { BreaksKept(e.value, own, mode, st0.(brk := rt.st.brk, cont := rt.st.cont)); }
    case Match(e, cases) =>
      var a := CheckExpr(e, own, false, mode, st.cur, st.dead);
      BreaksKeptCases(cases, own, mode, st.(cur := a.cur), ArmsState(None, true, st.brk, st.cont, a.log));
    case _ =>
  }

  lemma {:induction false} BreaksKeptList(ss: List<Stmt>, own: set<Name>, mode: Mode, st: State)
    requires BreakFreeList(ss)
    ensures CheckList(ss, own, mode, st).st.brk == st.brk
    decreases ss
  {
    if ss.Cons? {
      BreaksKept(ss.head, own, mode, st);
      BreaksKeptList(ss.tail, own, mode, Check(ss.head, own, mode, st).st);
    }
  }

  lemma {:induction false} BreaksKeptCases(cases: List<Case>, own: set<Name>, mode: Mode, st0: State, acc: ArmsState)
    requires BreakFreeCases(cases)
    ensures CheckCases(cases, own, mode, st0, acc).brk == acc.brk
    decreases cases
  {
    if cases.Cons? {
      var st := st0.(brk := acc.brk, cont := acc.cont);
      var r := Check(cases.head.body, own, mode, st);
      BreaksKept(cases.head.body, own, mode, st);
      BreaksKeptCases(cases.tail, own, mode, st0,
        AddArm(acc, r));
    }
  }

  lemma {:induction false} InertExpr(e: Expr, own: set<Name>, lhs: bool, mode: Mode, cur: set<Name>, dead: bool,
                                     moved: set<Name>, ch: Choices)
    requires MovesNothing(e, own) && moved <= own
    ensures RunExpr(e, own, moved, ch).moved == moved
    ensures forall x :: x in own ==> (x in CheckExpr(e, own, lhs, mode, cur, dead).cur <==> x in cur)
    decreases e
  {
    match e
    case Binary(op, l, r) =>
      InertExpr(l, own, lhs || IsAssignment(op), mode, cur, dead, moved, ch);
      var a := CheckExpr(l, own, lhs || IsAssignment(op), mode, cur, dead);
      var ra := RunExpr(l, own, moved, ch);
      InertExpr(r, own, lhs, mode, a.cur, dead, moved, ra.rest);
      InertExpr(r, own, lhs, mode, a.cur, dead, moved, if ra.rest == [] then [] else ra.rest[1..]);
      InertExpr(r, own, lhs, mode, a.cur, dead, moved, ch);
    case Unary(_, o) => InertExpr(o, own, lhs, mode, cur, dead, moved, ch);
    case Call(f, args, _) =>
      InertExpr(f, own, lhs, mode, cur, dead, moved, ch);
      InertArgs(args, own, lhs, mode, CheckExpr(f, own, lhs, mode, cur, dead).cur, dead, moved, RunExpr(f, own, moved, ch).rest);
    case Index(l, r) =>
      InertExpr(l, own, lhs, mode, cur, dead, moved, ch);
      InertExpr(r, own, lhs, mode, CheckExpr(l, own, lhs, mode, cur, dead).cur, dead, moved, RunExpr(l, own, moved, ch).rest);
    case Cast(o) => InertExpr(o, own, lhs, mode, cur, dead, moved, ch);
    case _ =>
  }

  lemma {:induction false} InertArgs(args: List<Expr>, own: set<Name>, lhs: bool, mode: Mode, cur: set<Name>, dead: bool,
                                     moved: set<Name>, ch: Choices)
    requires MovesNoArgs(args, own) && moved <= own
    ensures RunArgs(args, own, moved, ch).moved == moved
    ensures forall x :: x in own ==> (x in CheckArgs(args, own, lhs, mode, cur, dead).cur <==> x in cur)
    decreases args
  {
    if args.Cons? {
      InertExpr(args.head, own, lhs, mode, cur, dead, moved, ch);
      assert moved + Taken(args.head, own) == moved;
      InertArgs(args.tail, own, lhs, mode, CheckExpr(args.head, own, lhs, mode, cur, dead).cur + Taken(args.head, own), dead,
                moved, RunExpr(args.head, own, moved, ch).rest);
    }
  }

  lemma InertStep(s: Stmt, own: set<Name>, mode: Mode, cur: set<Name>, dead: bool, moved: set<Name>, ch: Choices)
    requires IsLoop(s) && (LoopStep(s).Some? ==> MovesNothing(LoopStep(s).value, own)) && moved <= own
    ensures RunOptExpr(LoopStep(s), own, moved, ch).moved == moved
    ensures forall x :: x in own ==> (x in CheckOptExpr(LoopStep(s), own, mode, cur, dead).cur <==> x in cur)
  {
    if LoopStep(s).Some? {
      InertExpr(LoopStep(s).value, own, false, mode, cur, dead, moved, ch);
    }
  }

  /** The stages of one pass over a loop. */
  lemma PassStages(s: Stmt, own: set<Name>, mode: Mode, st: State)
    requires IsLoop(s)
    ensures var p := LoopPass(s, own, mode, st);
            var c := TestStage(s, own, mode, st);
            var b := CheckOpt(LoopBody(s), own, mode, c.st);
            var e := CheckOptExpr(LoopStep(s), own, mode, b.st.cur, b.st.dead);
            p.log == c.log + b.log + e.log && p.st == b.st.(cur := e.cur) &&
            p.entry == (if b.swapped then b.entry else e.cur)
  {
  }

  /** A path MOVED after the test is MOVED wherever the pass ends. */
  lemma AfterTestKeeps(s: Stmt, own: set<Name>, mode: Mode, st: State, x: Name)
    requires IsLoop(s) && KeepsPass(s, x) && st.brk == None && st.cont == None
    requires x in TestStage(s, own, mode, st).st.cur
    ensures var p := LoopPass(s, own, mode, st);
            x in p.st.cur && x in p.entry && HasOpt(NextIter(p), x) &&
            x in CheckOpt(LoopBody(s), own, mode, TestStage(s, own, mode, st).st).st.cur
  {
    var c := TestStage(s, own, mode, st);
    var b := CheckOpt(LoopBody(s), own, mode, c.st);
    if LoopBody(s).Some? {
      CheckKeeps(LoopBody(s).value, own, mode, c.st, x);
    }
    OptKeeps(LoopStep(s), own, mode, b.st.cur, b.st.dead, x);
    PassStages(s, own, mode, st);
  }

  /** One run of the body from a covered, reachable state. */
  lemma {:induction false} BodySound(s: Stmt, own: set<Name>, scope: set<Name>, mode: Mode, st: State, moved: set<Name>, ch: Choices)
    requires IsLoop(s) && GoodLoop(s, own, scope) && Covers(scope, own, moved, st.cur) && !st.dead
    requires Quiet(CheckOpt(LoopBody(s), own, mode, st).log)
    ensures Safe(RunBody(s, own, moved, ch), CheckOpt(LoopBody(s), own, mode, st), own, scope, scope)
    decreases |ch|, s, 0
  {
    if LoopBody(s).Some? {
      StmtSound(LoopBody(s).value, own, scope, mode, st, moved, ch);
    }
  }

  /** From any state covered by the loop-head state n of the second pass, the whole rest of
      the loop is faultless, and where it ends normally n still covers the run. */
  lemma {:induction false} IterationsSound(s: Stmt, own: set<Name>, scope: set<Name>, start: set<Name>, n: set<Name>,
                                           moved: set<Name>, ch: Choices)
    requires IsLoop(s) && GoodLoop(s, own, scope) && Covers(scope, own, moved, n)
    requires var p := PassFrom(s, own, start, n); Quiet(p.log) && NextIter(p) == Some(n)
    ensures var r := RunLoop(s, own, moved, ch);
            r.faults == [] && !r.out.Broke? && !r.out.Continued? &&
            (r.out.Normal? ==> MayEnd(s) && Covers(scope, own, r.moved, n))
    decreases |ch|, s, 1
  {
    var mode := SecondMode(start);
    var st := State(n, false, None, None);
    var p := PassFrom(s, own, start, n);
    var c := TestStage(s, own, mode, st);
    var b := CheckOpt(LoopBody(s), own, mode, c.st);
    var e := CheckOptExpr(LoopStep(s), own, mode, b.st.cur, b.st.dead);
    PassStages(s, own, mode, st);
    QuietSplit3(c.log, b.log, e.log);
    OptSound(LoopTest(s), own, scope, mode, n, false, moved, ch);
    var rc := RunOptExpr(LoopTest(s), own, moved, ch);
    if rc.done && rc.rest != [] {
      forall x | x in scope && x in rc.moved ensures x in n {
        AfterTestKeeps(s, own, mode, st, x);
      }
      if !(MayEnd(s) && rc.rest[0] == 0) {
        BodySound(s, own, scope, mode, c.st, rc.moved, rc.rest[1..]);
        var rb := RunBody(s, own, rc.moved, rc.rest[1..]);
        if rb.out.Normal? || (rb.out.Continued? && Targets(rb.out.target, s.tag)) {
          InertStep(s, own, mode, b.st.cur, b.st.dead, rb.moved, rb.rest);
          forall x | x in scope && x in rb.moved ensures x in b.st.cur && x in n {
            if !rb.out.Normal? {
              OptKeeps(LoopTest(s), own, mode, n, false, x);
              AfterTestKeeps(s, own, mode, st, x);
            }
          }
          OptSound(LoopStep(s), own, scope, mode, b.st.cur, b.st.dead, rb.moved, rb.rest);
          var re := RunOptExpr(LoopStep(s), own, rb.moved, rb.rest);
          if re.done {
            IterationsSound(s, own, scope, start, n, re.moved, re.rest);
          }
        }
      }
    }
  }

  /** When no path comes back to the loop head, the first pass alone covers the run. */
  lemma {:induction false} OnceSound(s: Stmt, own: set<Name>, scope: set<Name>, mode: Mode, start: set<Name>, moved: set<Name>, ch: Choices)
    requires IsLoop(s) && GoodLoop(s, own, scope) && Covers(scope, own, moved, start)
    requires var p := FirstPass(s, own, mode, start); Quiet(p.log) && NextIter(p) == None
    ensures var r := RunLoop(s, own, moved, ch);
            r.faults == [] && !r.out.Broke? && !r.out.Continued? &&
            (r.out.Normal? ==> MayEnd(s) && Covers(scope, own, r.moved, FirstPass(s, own, mode, start).entry))
    decreases |ch|, s, 1
  {
    var m := FirstMode(mode, start);
    var st := State(start, false, None, None);
    var c := TestStage(s, own, m, st);
    var b := CheckOpt(LoopBody(s), own, m, c.st);
    PassStages(s, own, m, st);
    QuietSplit3(c.log, b.log, CheckOptExpr(LoopStep(s), own, m, b.st.cur, b.st.dead).log);
    OptSound(LoopTest(s), own, scope, m, start, false, moved, ch);
    var rc := RunOptExpr(LoopTest(s), own, moved, ch);
    if rc.done && rc.rest != [] {
      forall x | x in scope && x in rc.moved ensures x in FirstPass(s, own, mode, start).entry {
        AfterTestKeeps(s, own, m, st, x);
      }
      if !(MayEnd(s) && rc.rest[0] == 0) {
        BodySound(s, own, scope, m, c.st, rc.moved, rc.rest[1..]);
      }
    }
  }

  /** What covers a run that leaves a loop whose first pass was `p`. */
  function ExitCover(p: Result): set<Name> {
    if NextIter(p).Some? then NextIter(p).value else p.entry
  }

  /** The iterations of a loop, from the state its set-up leaves. */
  lemma {:induction false} RunLoopSound(s: Stmt, own: set<Name>, scope: set<Name>, mode: Mode, start: set<Name>,
                                        moved: set<Name>, ch: Choices)
    requires IsLoop(s) && GoodLoop(s, own, scope) && BreakFree(s) && Covers(scope, own, moved, start)
    requires var p := FirstPass(s, own, mode, start);
             Quiet(p.log) && Quiet(SecondPass(s, own, start, NextIter(p)).log)
    ensures var r := RunLoop(s, own, moved, ch);
            var p := FirstPass(s, own, mode, start);
            r.faults == [] && !r.out.Broke? && !r.out.Continued? &&
            (r.out.Normal? ==> MayEnd(s) && Covers(scope, own, r.moved, ExitCover(p)))
    decreases |ch|, s, 2
  {
    var p := FirstPass(s, own, mode, start);
    if NextIter(p).Some? {
      var n := NextIter(p).value;
      TwoPassesSuffice(s, own, mode, start);
      forall x | x in scope && x in moved ensures x in n {
        PassKeeps(s, own, FirstMode(mode, start), State(start, false, None, None), x);
      }
      IterationsSound(s, own, scope, start, n, moved, ch);
    } else {
      OnceSound(s, own, scope, mode, start, moved, ch);
    }
  }

  /** The parts a loop's analysis is made of, and what its result keeps of them. */
  lemma LoopParts(s: Stmt, own: set<Name>, mode: Mode, st: State, o: Result, p: Result)
    requires ParsedLoop(s) && BreakFree(s) && !st.dead && Quiet(CheckLoop(s, own, mode, st).log)
    requires o == LoopSetup(s, own, Mode(false, Some(st.cur), mode.only), State(st.cur, false, None, None))
    requires p == FirstPass(s, own, mode, o.st.cur)
    ensures Quiet(o.log) && Quiet(p.log) && Quiet(SecondPass(s, own, o.st.cur, NextIter(p)).log)
    ensures MayEnd(s) ==> !CheckLoop(s, own, mode, st).st.dead && ExitCover(p) <= CheckLoop(s, own, mode, st).st.cur
  {
    LoopInParts(s, own, mode, st);
    SetupIsInPlace(s, own, Mode(false, Some(st.cur), mode.only), st.cur);
    PassBreaks(s, own, FirstMode(mode, o.st.cur), State(o.st.cur, false, None, None));
    ExitCovers(s.Loop?, st, o, p, SecondPass(s, own, o.st.cur, NextIter(p)));
  }

  lemma PassBreaks(s: Stmt, own: set<Name>, mode: Mode, st: State)
    requires IsLoop(s) && BreakFree(s)
    ensures LoopPass(s, own, mode, st).st.brk == st.brk
  {
    PassStages(s, own, mode, st);
    if LoopBody(s).Some? {
      BreaksKept(LoopBody(s).value, own, mode, TestStage(s, own, mode, st).st);
    }
  }

  lemma ExitCovers(endless: bool, st: State, o: Result, p: Result, second: Result)
    requires !st.dead && !o.swapped && p.st.brk == None
    requires Quiet(LoopExit(endless, st, Chain(o, p), p.st.brk, NextIter(p), second).log)
    ensures Quiet(o.log) && Quiet(p.log) && Quiet(second.log)
    ensures var res := LoopExit(endless, st, Chain(o, p), p.st.brk, NextIter(p), second);
            !endless ==> !res.st.dead && ExitCover(p) <= res.st.cur
  {
    QuietSplit3(o.log, p.log, second.log);
  }

  lemma {:induction false} LoopSound(s: Stmt, own: set<Name>, scope: set<Name>, mode: Mode, st: State, moved: set<Name>, ch: Choices)
    requires IsLoop(s) && Good(s, own, scope) && Covers(scope, own, moved, st.cur) && !st.dead
    requires Quiet(Check(s, own, mode, st).log)
    ensures Safe(RunStmt(s, own, moved, ch), Check(s, own, mode, st), own, scope, scope)
    decreases |ch|, s, 4
  {
    GoodShape(s, own, scope);
    var o := LoopSetup(s, own, Mode(false, Some(st.cur), mode.only), State(st.cur, false, None, None));
    LoopParts(s, own, mode, st, o, FirstPass(s, own, mode, o.st.cur));
    match s
    case For(_, init, _, _, _) => ForSound(s, own, scope, mode, st, moved, ch);
    case ForRange(_, _, lo, hi, _, _) =>
      var m0 := Mode(false, Some(st.cur), mode.only);
      var ca := CheckExpr(lo, own, false, m0, st.cur, false);
      QuietSplit(ca.log, CheckExpr(hi, own, false, m0, ca.cur, false).log);
      ExprSound(lo, own, scope, false, m0, st.cur, false, moved, ch);
      var a := RunExpr(lo, own, moved, ch);
      if a.done {
        ExprSound(hi, own, scope, false, m0, ca.cur, false, a.moved, a.rest);
        var b := RunExpr(hi, own, a.moved, a.rest);
        if b.done {
          RunLoopSound(s, own, scope, mode, CheckExpr(hi, own, false, m0, ca.cur, false).cur, b.moved, b.rest);
        }
      }
    case While(_, _, _) => RunLoopSound(s, own, scope, mode, st.cur, moved, ch);
    case Loop(_, _) => RunLoopSound(s, own, scope, mode, st.cur, moved, ch);
  }

  lemma {:induction false} ForSound(s: Stmt, own: set<Name>, scope: set<Name>, mode: Mode, st: State, moved: set<Name>, ch: Choices)
    requires s.For? && Good(s, own, scope) && BreakFree(s) && Covers(scope, own, moved, st.cur) && !st.dead
    requires Quiet(Check(s, own, mode, st).log)
    ensures Safe(RunStmt(s, own, moved, ch), Check(s, own, mode, st), own, scope, scope)
    decreases |ch|, s, 3
  {
    var m0 := Mode(false, Some(st.cur), mode.only);
    var st0 := State(st.cur, false, None, None);
    var o := LoopSetup(s, own, m0, st0);
    LoopParts(s, own, mode, st, o, FirstPass(s, own, mode, o.st.cur));
    if s.start.None? {
      RunLoopSound(s, own, scope, mode, o.st.cur, moved, ch);
    } else {
      var init := s.start.value;
      StmtSound(init, own, scope, m0, st0, moved, ch);
      var a := RunStmt(init, own, moved, ch);
      if a.out.Normal? {
        RunLoopSound(s, own, ScopeAfter(init, scope), mode, o.st.cur, a.moved, a.rest);
      }
    }
  }

  // ---------- the theorem ----------

  /** Every variable reference carries a line. */
  ghost predicate Located(log: Log) {
    forall i :: 0 <= i < |log| ==> log[i].pos != 0
  }

  /** If the checker reports nothing on a function body, no run of it -- whatever branches
      are taken and however often loops go round -- reads or moves a moved variable.
      `params` are the parameters; nothing is moved at the start. */
  lemma MoveSoundness(body: Stmt, own: set<Name>, params: set<Name>, only: bool, ch: Choices)
    requires Good(body, own, params)
    requires var log := Check(body, own, Mode(false, None, only), State({}, false, None, None)).log;
             Located(log) && forall i :: 0 <= i < |log| ==> !log[i].reported
    ensures RunStmt(body, own, {}, ch).faults == []
  {
    var mode := Mode(false, None, only);
    var st := State({}, false, None, None);
    var log := Check(body, own, mode, st).log;
    GoodShape(body, own, params);
    forall i | 0 <= i < |log| ensures !log[i].moved {
      if log[i].moved {
        NothingHidden(body, own, mode, st, i);
      }
    }
    StmtSound(body, own, params, mode, st, {}, ch);
  }
}
