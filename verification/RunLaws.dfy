/** A finished run does not look at the choices that follow the ones it used, so runs can be
    put one after the other.  This is what lets a witness for a statement be built from
    witnesses for its parts. */
module RunLaws {
  import opened Ast
  import opened Runs

  lemma {:induction false} ExprExtends(e: Expr, own: set<Name>, moved: set<Name>, ch: Choices, more: Choices)
    requires RunExpr(e, own, moved, ch).done
    ensures var r := RunExpr(e, own, moved, ch); RunExpr(e, own, moved, ch + more) == r.(rest := r.rest + more)
    decreases e
  {
    match e
    case Binary(op, l, r) =>
      if op.Set? && l.Var? {
        ExprExtends(r, own, moved, ch, more);
      } else {
        ExprExtends(l, own, moved, ch, more);
        var a := RunExpr(l, own, moved, ch);
        if !IsLogical(op) {
          ExprExtends(r, own, a.moved, a.rest, more);
        } else {
          assert (a.rest + more)[1..] == a.rest[1..] + more;
          if a.rest[0] != 0 {
            ExprExtends(r, own, a.moved, a.rest[1..], more);
          }
        }
      }
    case Unary(_, o) => ExprExtends(o, own, moved, ch, more);
    case Call(f, args, _) =>
      ExprExtends(f, own, moved, ch, more);
      var a := RunExpr(f, own, moved, ch);
      ArgsExtend(args, own, a.moved, a.rest, more);
    case Index(l, r) =>
      ExprExtends(l, own, moved, ch, more);
      var a := RunExpr(l, own, moved, ch);
      ExprExtends(r, own, a.moved, a.rest, more);
    case Cast(o) => ExprExtends(o, own, moved, ch, more);
    case _ =>
  }

  lemma {:induction false} ArgsExtend(args: List<Expr>, own: set<Name>, moved: set<Name>, ch: Choices, more: Choices)
    requires RunArgs(args, own, moved, ch).done
    ensures var r := RunArgs(args, own, moved, ch); RunArgs(args, own, moved, ch + more) == r.(rest := r.rest + more)
    decreases args
  {
    if args.Cons? {
      ExprExtends(args.head, own, moved, ch, more);
      var a := RunExpr(args.head, own, moved, ch);
      ArgsExtend(args.tail, own, a.moved + Taken(args.head, own), a.rest, more);
    }
  }

  lemma OptExtends(e: Option<Expr>, own: set<Name>, moved: set<Name>, ch: Choices, more: Choices)
    requires RunOptExpr(e, own, moved, ch).done
    ensures var r := RunOptExpr(e, own, moved, ch); RunOptExpr(e, own, moved, ch + more) == r.(rest := r.rest + more)
  {
    if e.Some? {
      ExprExtends(e.value, own, moved, ch, more);
    }
  }

  lemma {:induction false} StmtExtends(s: Stmt, own: set<Name>, moved: set<Name>, ch: Choices, more: Choices)
    requires !RunStmt(s, own, moved, ch).out.Cut?
    ensures var r := RunStmt(s, own, moved, ch); RunStmt(s, own, moved, ch + more) == r.(rest := r.rest + more)
    decreases |ch|, s, 1
  {
    match s
    case VarDecl(_, init, _) => OptExtends(init, own, moved, ch, more);
    case ExprStmt(e) => ExprExtends(e, own, moved, ch, more);
    case Assert(e) => ExprExtends(e, own, moved, ch, more);
    case Block(ss) => ListExtends(ss, own, moved, ch, more);
    case If(c, t, e) =>
      ExprExtends(c, own, moved, ch, more);
      var a := RunExpr(c, own, moved, ch);
      assert (a.rest + more)[1..] == a.rest[1..] + more;
      if a.rest[0] != 0 {
        StmtExtends(t, own, a.moved, a.rest[1..], more);
      } else if e.Some? {
        StmtExtends(e.value, own, a.moved, a.rest[1..], more);
      }
    case Match(e, cases) =>
      ExprExtends(e, own, moved, ch, more);
      var a := RunExpr(e, own, moved, ch);
      CasesExtend(cases, HasDefault(cases), own, a.moved, a.rest, more);
    case While(_, _, _) => LoopExtends(s, own, moved, ch, more);
    case Loop(_, _) => LoopExtends(s, own, moved, ch, more);
    case For(_, init, _, _, _) =>
      if init.None? {
        LoopExtends(s, own, moved, ch, more);
      } else {
        StmtExtends(init.value, own, moved, ch, more);
        var a := RunStmt(init.value, own, moved, ch);
        if a.out.Normal? {
          LoopExtends(s, own, a.moved, a.rest, more);
        }
      }
    case ForRange(_, _, lo, hi, _, _) =>
      ExprExtends(lo, own, moved, ch, more);
      var a := RunExpr(lo, own, moved, ch);
      ExprExtends(hi, own, a.moved, a.rest, more);
      var b := RunExpr(hi, own, a.moved, a.rest);
      LoopExtends(s, own, b.moved, b.rest, more);
    case Return(e) => OptExtends(e, own, moved, ch, more);
    case Break(_) =>
    case Continue(_) =>
  }

  lemma {:induction false} ListExtends(ss: List<Stmt>, own: set<Name>, moved: set<Name>, ch: Choices, more: Choices)
    requires !RunList(ss, own, moved, ch).out.Cut?
    ensures var r := RunList(ss, own, moved, ch); RunList(ss, own, moved, ch + more) == r.(rest := r.rest + more)
    decreases |ch|, ss, 1
  {
    if ss.Cons? {
      StmtExtends(ss.head, own, moved, ch, more);
      var a := RunStmt(ss.head, own, moved, ch);
      if a.out.Normal? {
        ListExtends(ss.tail, own, a.moved, a.rest, more);
      }
    }
  }

  lemma {:induction false} CasesExtend(cases: List<Case>, total: bool, own: set<Name>, moved: set<Name>, ch: Choices, more: Choices)
    requires !RunCases(cases, total, own, moved, ch).out.Cut?
    ensures var r := RunCases(cases, total, own, moved, ch);
            RunCases(cases, total, own, moved, ch + more) == r.(rest := r.rest + more)
    decreases |ch|, cases, 1
  {
    if cases.Cons? {
      if total && cases.tail.Nil? {
        StmtExtends(cases.head.body, own, moved, ch, more);
      } else {
        assert (ch + more)[1..] == ch[1..] + more;
        if ch[0] != 0 {
          StmtExtends(cases.head.body, own, moved, ch[1..], more);
        } else {
          CasesExtend(cases.tail, total, own, moved, ch[1..], more);
        }
      }
    }
  }

  lemma {:induction false} LoopExtends(s: Stmt, own: set<Name>, moved: set<Name>, ch: Choices, more: Choices)
    requires IsLoop(s) && !RunLoop(s, own, moved, ch).out.Cut?
    ensures var r := RunLoop(s, own, moved, ch); RunLoop(s, own, moved, ch + more) == r.(rest := r.rest + more)
    decreases |ch|, s, 0
  {
    OptExtends(LoopTest(s), own, moved, ch, more);
    var c := RunOptExpr(LoopTest(s), own, moved, ch);
    assert (c.rest + more)[1..] == c.rest[1..] + more;
    if !(MayEnd(s) && c.rest[0] == 0) {
      BodyExtends(s, own, c.moved, c.rest[1..], more);
      var b := RunBody(s, own, c.moved, c.rest[1..]);
      if b.out.Normal? || (b.out.Continued? && Targets(b.out.target, s.tag)) {
        OptExtends(LoopStep(s), own, b.moved, b.rest, more);
        var e := RunOptExpr(LoopStep(s), own, b.moved, b.rest);
        LoopExtends(s, own, e.moved, e.rest, more);
      }
    }
  }

  lemma {:induction false} BodyExtends(s: Stmt, own: set<Name>, moved: set<Name>, ch: Choices, more: Choices)
    requires IsLoop(s) && !RunBody(s, own, moved, ch).out.Cut?
    ensures var r := RunBody(s, own, moved, ch); RunBody(s, own, moved, ch + more) == r.(rest := r.rest + more)
    decreases |ch|, s, 0
  {
    if LoopBody(s).Some? {
      StmtExtends(LoopBody(s).value, own, moved, ch, more);
    }
  }

  /** A run that used up its choices goes on with whatever follows them. */
  lemma ExprThen(e: Expr, own: set<Name>, moved: set<Name>, ch: Choices, more: Choices)
    requires RunExpr(e, own, moved, ch).done && RunExpr(e, own, moved, ch).rest == []
    ensures RunExpr(e, own, moved, ch + more) == RunExpr(e, own, moved, ch).(rest := more)
  {
    ExprExtends(e, own, moved, ch, more);
    assert [] + more == more;
  }

  lemma OptThen(e: Option<Expr>, own: set<Name>, moved: set<Name>, ch: Choices, more: Choices)
    requires RunOptExpr(e, own, moved, ch).done && RunOptExpr(e, own, moved, ch).rest == []
    ensures RunOptExpr(e, own, moved, ch + more) == RunOptExpr(e, own, moved, ch).(rest := more)
  {
    OptExtends(e, own, moved, ch, more);
    assert [] + more == more;
  }

  lemma StmtThen(s: Stmt, own: set<Name>, moved: set<Name>, ch: Choices, more: Choices)
    requires RunStmt(s, own, moved, ch).out.Normal? && RunStmt(s, own, moved, ch).rest == []
    ensures RunStmt(s, own, moved, ch + more) == RunStmt(s, own, moved, ch).(rest := more)
  {
    StmtExtends(s, own, moved, ch, more);
    assert [] + more == more;
  }
}
