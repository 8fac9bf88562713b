/** The search for exit breaks finds no break that cannot be reached: with it the always-returns analysis is exact. */
module ReturnExact {
  import opened Ast
  import opened Runs
  import opened RunLaws
  import opened MoveLoops
  import opened ReturnCheck

  /** Some run passes the statement, if all of it can be reached. */
  predicate Falls(s: Stmt)
    decreases s
  {
    match s
    case Block(ss) => FallsList(ss)
    case If(_, t, e) => Falls(t) || (e.Some? ==> Falls(e.value))
    case Match(_, cases) => !HasDefault(cases) || SomeFalls(cases)
    case Loop(tag, b) => HasExitBreak(b, tag, false)
    case For(tag, _, test, _, b) => test.Some? || (b.Some? && HasExitBreak(b.value, tag, false))
    case Break(_) => false
    case Continue(_) => false
    case Return(_) => false
    case _ => true
  }

  predicate FallsList(ss: List<Stmt>)
    decreases ss
  {
    ss.Cons? ==> Falls(ss.head) && FallsList(ss.tail)
  }

  predicate SomeFalls(cases: List<Case>)
    decreases cases
  {
    cases.Cons? && (Falls(cases.head.body) || SomeFalls(cases.tail))
  }

  /** No statement stands behind one that cannot be passed, and no loop has the label of a loop around it. */
  predicate Reachable(s: Stmt)
    decreases s
  {
    match s
    case Block(ss) => ReachableList(ss)
    case If(_, t, e) => Reachable(t) && (e.Some? ==> Reachable(e.value))
    case Match(_, cases) => ReachableCases(cases)
    case While(tag, _, b) => Reachable(b) && LabelFree(b, tag)
    case Loop(tag, b) => Reachable(b) && LabelFree(b, tag)
    case For(tag, _, _, _, b) => b.Some? ==> Reachable(b.value) && LabelFree(b.value, tag)
    case ForRange(tag, _, _, _, _, b) => Reachable(b) && LabelFree(b, tag)
    case _ => true
  }

  predicate ReachableList(ss: List<Stmt>)
    decreases ss
  {
    ss.Cons? ==> Reachable(ss.head) && ReachableList(ss.tail) && (ss.tail.Cons? ==> Falls(ss.head))
  }

  predicate ReachableCases(cases: List<Case>)
    decreases cases
  {
    cases.Cons? ==> Reachable(cases.head.body) && ReachableCases(cases.tail)
  }

  /** No loop in `s` is labelled `tag`. */
  predicate LabelFree(s: Stmt, tag: Option<Name>)
    decreases s
  {
    match s
    case Block(ss) => LabelFreeList(ss, tag)
    case If(_, t, e) => LabelFree(t, tag) && (e.Some? ==> LabelFree(e.value, tag))
    case Match(_, cases) => LabelFreeCases(cases, tag)
    case While(own_, _, b) => OtherLabel(own_, tag) && LabelFree(b, tag)
    case Loop(own_, b) => OtherLabel(own_, tag) && LabelFree(b, tag)
    case For(own_, _, _, _, b) => OtherLabel(own_, tag) && (b.Some? ==> LabelFree(b.value, tag))
    case ForRange(own_, _, _, _, _, b) => OtherLabel(own_, tag) && LabelFree(b, tag)
    case _ => true
  }

  predicate LabelFreeList(ss: List<Stmt>, tag: Option<Name>)
    decreases ss
  {
    ss.Cons? ==> LabelFree(ss.head, tag) && LabelFreeList(ss.tail, tag)
  }

  predicate LabelFreeCases(cases: List<Case>, tag: Option<Name>)
    decreases cases
  {
    cases.Cons? ==> LabelFree(cases.head.body, tag) && LabelFreeCases(cases.tail, tag)
  }

  predicate OtherLabel(a: Option<Name>, tag: Option<Name>) {
    tag.Some? ==> a != tag
  }

  // ---------- runs that pass and runs that break ----------

  lemma OptFinishes(e: Option<Expr>, own: set<Name>, moved: set<Name>) returns (ch: Choices)
    ensures RunOptExpr(e, own, moved, ch).done && RunOptExpr(e, own, moved, ch).rest == []
  {
    ch := [];
    if e.Some? {
      ch := ExprFinishes(e.value, own, moved);
    }
  }

  /** What can be reached and falls through has a run that passes it. */
  lemma {:induction false} SomeRunPasses(s: Stmt, own: set<Name>, moved: set<Name>) returns (ch: Choices)
    requires Parsed(s) && Reachable(s) && Falls(s)
    ensures var r := RunStmt(s, own, moved, ch); r.out.Normal? && r.rest == []
    decreases s, 4
  {
    ch := [];
    match s
    case VarDecl(_, init, _) => ch := OptFinishes(init, own, moved);
    case ExprStmt(e) => ch := ExprFinishes(e, own, moved);
    case Assert(e) => ch := ExprFinishes(e, own, moved);
    case Block(ss) => ch := SomeRunPassesList(ss, own, moved);
    case If(c, t, e) =>
      var c1 := ExprFinishes(c, own, moved);
      var a := RunExpr(c, own, moved, c1);
      var c2: Choices := [0];
      if Falls(t) {
        c2 := SomeRunPasses(t, own, a.moved);
        assert ([1] + c2)[1..] == c2;
        c2 := [1] + c2;
      } else if e.Some? {
        c2 := SomeRunPasses(e.value, own, a.moved);
        assert ([0] + c2)[1..] == c2;
        c2 := [0] + c2;
      }
      ExprThen(c, own, moved, c1, c2);
      ch := c1 + c2;
    case Match(e, cases) =>
      var c1 := ExprFinishes(e, own, moved);
      var c2 := SomeRunPassesCases(cases, HasDefault(cases), own, RunExpr(e, own, moved, c1).moved);
      ExprThen(e, own, moved, c1, c2);
      ch := c1 + c2;
    case While(_, _, _) => ch := SomeRunLeaves(s, own, moved);
    case Loop(_, _) => ch := SomeRunLeaves(s, own, moved);
    case For(_, _, _, _, _) => ch := SomeRunLeaves(s, own, moved);
    case ForRange(_, _, _, _, _, _) => ch := SomeRunLeaves(s, own, moved);
  }

  lemma {:induction false} SomeRunPassesList(ss: List<Stmt>, own: set<Name>, moved: set<Name>) returns (ch: Choices)
    requires ParsedList(ss) && ReachableList(ss) && FallsList(ss)
    ensures var r := RunList(ss, own, moved, ch); r.out.Normal? && r.rest == []
    decreases ss, 4
  {
    ch := [];
    if ss.Cons? {
      var c1 := SomeRunPasses(ss.head, own, moved);
      var c2 := SomeRunPassesList(ss.tail, own, RunStmt(ss.head, own, moved, c1).moved);
      StmtThen(ss.head, own, moved, c1, c2);
      ch := c1 + c2;
    }
  }

  lemma {:induction false} SomeRunPassesCases(cases: List<Case>, total: bool, own: set<Name>, moved: set<Name>) returns (ch: Choices)
    requires ParsedCases(cases) && ReachableCases(cases) && (!total || SomeFalls(cases))
    ensures var r := RunCases(cases, total, own, moved, ch); r.out.Normal? && r.rest == []
    decreases cases, 4
  {
    ch := [];
    if cases.Cons? {
      if Falls(cases.head.body) {
        ch := SomeRunPasses(cases.head.body, own, moved);
        assert ([1] + ch)[1..] == ch;
        ch := if total && cases.tail.Nil? then ch else [1] + ch;
      } else {
        ch := SomeRunPassesCases(cases.tail, total, own, moved);
        assert ([0] + ch)[1..] == ch;
        ch := [0] + ch;
      }
    }
  }

  /** The head of a loop can be reached: what runs behind these choices runs from `m`. */
  lemma {:induction false} SetUpFinishes(s: Stmt, own: set<Name>, moved: set<Name>) returns (ch: Choices, m: set<Name>)
    requires IsLoop(s) && Parsed(s)
    ensures forall more :: SameEnd(RunStmt(s, own, moved, ch + more), RunLoop(s, own, m, more))
    decreases s, 0
  {
    ch, m := [], moved;
    match s
    case For(_, init, _, _, _) =>
      if init.Some? {
        ch := SomeRunPasses(init.value, own, moved);
        m := RunStmt(init.value, own, moved, ch).moved;
        forall more ensures SameEnd(RunStmt(s, own, moved, ch + more), RunLoop(s, own, m, more)) {
          StmtThen(init.value, own, moved, ch, more);
        }
      } else {
        NoSetUp(s, own, moved);
      }
    case ForRange(_, _, lo, hi, _, _) =>
      var c1 := ExprFinishes(lo, own, moved);
      var a := RunExpr(lo, own, moved, c1);
      var c2 := ExprFinishes(hi, own, a.moved);
      ch, m := c1 + c2, RunExpr(hi, own, a.moved, c2).moved;
      forall more ensures SameEnd(RunStmt(s, own, moved, ch + more), RunLoop(s, own, m, more)) {
        assert c1 + c2 + more == c1 + (c2 + more);
        ExprThen(lo, own, moved, c1, c2 + more);
        ExprThen(hi, own, a.moved, c2, more);
      }
    case _ => NoSetUp(s, own, moved);
  }

  lemma NoSetUp(s: Stmt, own: set<Name>, moved: set<Name>)
    requires s.While? || s.Loop? || (s.For? && s.start.None?)
    ensures forall more :: SameEnd(RunStmt(s, own, moved, [] + more), RunLoop(s, own, moved, more))
  {
    forall more ensures SameEnd(RunStmt(s, own, moved, [] + more), RunLoop(s, own, moved, more)) {
      assert [] + more == more;
    }
  }

  predicate SameEnd(a: Run, b: Run) {
    a.out == b.out && a.rest == b.rest
  }

  /** A loop that falls through is left by its condition, or by a break that refers to it. */
  lemma {:induction false} SomeRunLeaves(s: Stmt, own: set<Name>, moved: set<Name>) returns (ch: Choices)
    requires IsLoop(s) && Parsed(s) && Reachable(s) && Falls(s)
    ensures var r := RunStmt(s, own, moved, ch); r.out.Normal? && r.rest == []
    decreases s, 3
  {
    var c0, m := SetUpFinishes(s, own, moved);
    var c1: Choices;
    if MayEnd(s) {
      c1 := OptFinishes(LoopTest(s), own, m);
      OptThen(LoopTest(s), own, m, c1, [0]);
      c1 := c1 + [0];
    } else {
      c1 := SomeRunBreaks(LoopBody(s).value, s.tag, false, own, m);
      assert ([1] + c1)[1..] == c1 && RunOptExpr(LoopTest(s), own, m, [1] + c1) == ExprRun(true, m, [1] + c1, []);
      assert RunBody(s, own, m, c1) == RunStmt(LoopBody(s).value, own, m, c1);
      c1 := [1] + c1;
    }
    assert SameEnd(RunStmt(s, own, moved, c0 + c1), RunLoop(s, own, m, c1));
    ch := c0 + c1;
  }

  /** Every break the search finds in reachable code is the end of some run, through any nesting
      of loops, branches and arms. */
  lemma {:induction false} SomeRunBreaks(s: Stmt, tag: Option<Name>, nested: bool, own: set<Name>, moved: set<Name>) returns (ch: Choices)
    requires Parsed(s) && Reachable(s) && LabelFree(s, tag) && HasExitBreak(s, tag, nested)
    ensures var r := RunStmt(s, own, moved, ch); Wanted(r.out, tag, nested) && r.rest == []
    decreases s, 4
  {
    ch := [];
    match s
    case Break(_) =>
    case Block(ss) => ch := SomeRunBreaksList(ss, tag, nested, own, moved);
    case If(c, t, e) =>
      var c1 := ExprFinishes(c, own, moved);
      var a := RunExpr(c, own, moved, c1);
      var c2: Choices;
      if HasExitBreak(t, tag, nested) {
        c2 := SomeRunBreaks(t, tag, nested, own, a.moved);
        assert ([1] + c2)[1..] == c2;
        c2 := [1] + c2;
      } else {
        c2 := SomeRunBreaks(e.value, tag, nested, own, a.moved);
        assert ([0] + c2)[1..] == c2;
        c2 := [0] + c2;
      }
      ExprThen(c, own, moved, c1, c2);
      ch := c1 + c2;
    case Match(e, cases) =>
      var c1 := ExprFinishes(e, own, moved);
      var c2 := SomeRunBreaksCases(cases, HasDefault(cases), tag, nested, own, RunExpr(e, own, moved, c1).moved);
      ExprThen(e, own, moved, c1, c2);
      ch := c1 + c2;
    case While(_, _, _) => ch := SomeRunBreaksOut(s, tag, nested, own, moved);
    case Loop(_, _) => ch := SomeRunBreaksOut(s, tag, nested, own, moved);
    case For(_, _, _, _, _) => ch := SomeRunBreaksOut(s, tag, nested, own, moved);
    case ForRange(_, _, _, _, _, _) => ch := SomeRunBreaksOut(s, tag, nested, own, moved);
  }

  lemma {:induction false} SomeRunBreaksList(ss: List<Stmt>, tag: Option<Name>, nested: bool, own: set<Name>, moved: set<Name>)
    returns (ch: Choices)
    requires ParsedList(ss) && ReachableList(ss) && LabelFreeList(ss, tag) && ListHasExitBreak(ss, tag, nested)
    ensures var r := RunList(ss, own, moved, ch); Wanted(r.out, tag, nested) && r.rest == []
    decreases ss, 4
  {
    if HasExitBreak(ss.head, tag, nested) {
      ch := SomeRunBreaks(ss.head, tag, nested, own, moved);
    } else {
      var c1 := SomeRunPasses(ss.head, own, moved);
      var c2 := SomeRunBreaksList(ss.tail, tag, nested, own, RunStmt(ss.head, own, moved, c1).moved);
      StmtThen(ss.head, own, moved, c1, c2);
      ch := c1 + c2;
    }
  }

  lemma {:induction false} SomeRunBreaksCases(cases: List<Case>, total: bool, tag: Option<Name>, nested: bool,
                                               own: set<Name>, moved: set<Name>) returns (ch: Choices)
    requires ParsedCases(cases) && ReachableCases(cases) && LabelFreeCases(cases, tag) && CasesHaveExitBreak(cases, tag, nested)
    ensures var r := RunCases(cases, total, own, moved, ch); Wanted(r.out, tag, nested) && r.rest == []
    decreases cases, 4
  {
    if HasExitBreak(cases.head.body, tag, nested) {
      ch := SomeRunBreaks(cases.head.body, tag, nested, own, moved);
      assert ([1] + ch)[1..] == ch;
      ch := if total && cases.tail.Nil? then ch else [1] + ch;
    } else {
      ch := SomeRunBreaksCases(cases.tail, total, tag, nested, own, moved);
      assert ([0] + ch)[1..] == ch;
      ch := [0] + ch;
    }
  }

  /** A break in a nested loop that names a loop around it. */
  lemma {:induction false} SomeRunBreaksOut(s: Stmt, tag: Option<Name>, nested: bool, own: set<Name>, moved: set<Name>)
    returns (ch: Choices)
    requires IsLoop(s) && Parsed(s) && Reachable(s) && LabelFree(s, tag) && HasExitBreak(s, tag, nested)
    ensures var r := RunStmt(s, own, moved, ch); Wanted(r.out, tag, nested) && r.rest == []
    decreases s, 3
  {
    var c0, m := SetUpFinishes(s, own, moved);
    var c1 := OptFinishes(LoopTest(s), own, m);
    var c := RunOptExpr(LoopTest(s), own, m, c1);
    var c2 := SomeRunBreaks(LoopBody(s).value, tag, true, own, c.moved);
    assert ([1] + c2)[1..] == c2;
    OptThen(LoopTest(s), own, m, c1, [1] + c2);
    ch := c1 + ([1] + c2);
    var b := RunBody(s, own, c.moved, c2);
    assert b == RunStmt(LoopBody(s).value, own, c.moved, c2) && !Targets(b.out.target, s.tag);
    assert RunLoop(s, own, m, ch) == Then(c, b);
    assert SameEnd(RunStmt(s, own, moved, c0 + ch), RunLoop(s, own, m, ch));
    ch := c0 + ch;
  }

  // ---------- exactness ----------

  /** The search for exit breaks says exactly whether some run leaves by such a break. */
  lemma ExitBreakExact(s: Stmt, tag: Option<Name>, nested: bool, own: set<Name>, moved: set<Name>)
    requires Parsed(s) && Reachable(s) && LabelFree(s, tag)
    ensures HasExitBreak(s, tag, nested) <==> exists ch :: Wanted(RunStmt(s, own, moved, ch).out, tag, nested)
  {
    if HasExitBreak(s, tag, nested) {
      var ch := SomeRunBreaks(s, tag, nested, own, moved);
    } else if ch :| Wanted(RunStmt(s, own, moved, ch).out, tag, nested) {
      ExitBreakFound(s, tag, nested, own, moved, ch);
    }
  }

  /** An endless loop is accepted exactly when no run completes it. */
  lemma EndlessLoopExact(s: Stmt, own: set<Name>, moved: set<Name>)
    requires s.Loop? && Parsed(s) && Reachable(s)
    ensures StmtReturns(s) <==> forall ch :: !RunStmt(s, own, moved, ch).out.Normal?
  {
    if StmtReturns(s) {
      forall ch ensures !RunStmt(s, own, moved, ch).out.Normal? {
        LoopNeverCompletes(s, own, moved, ch);
      }
    } else {
      var ch := SomeRunLeaves(s, own, moved);
    }
  }

  /** Every `for` has a condition. */
  predicate Conditional(s: Stmt)
    decreases s
  {
    match s
    case Block(ss) => ConditionalList(ss)
    case If(_, t, e) => Conditional(t) && (e.Some? ==> Conditional(e.value))
    case Match(_, cases) => ConditionalCases(cases)
    case For(_, _, test, _, _) => test.Some?
    case _ => true
  }

  predicate ConditionalList(ss: List<Stmt>)
    decreases ss
  {
    ss.Cons? ==> Conditional(ss.head) && ConditionalList(ss.tail)
  }

  predicate ConditionalCases(cases: List<Case>)
    decreases cases
  {
    cases.Cons? ==> Conditional(cases.head.body) && ConditionalCases(cases.tail)
  }

  /** Outside loops, what is not accepted falls through. */
  lemma {:induction false} RejectedFalls(s: Stmt)
    requires Bound(s, false, {}) && Conditional(s) && !StrictStmt(s)
    ensures Falls(s)
    decreases s
  {
    match s
    case Block(ss) => RejectedListFalls(ss);
    case If(_, t, e) =>
      if !StrictStmt(t) { RejectedFalls(t); } else if e.Some? { RejectedFalls(e.value); }
    case Match(_, cases) => RejectedCasesFall(cases);
    case _ =>
  }

  lemma {:induction false} RejectedListFalls(ss: List<Stmt>)
    requires BoundList(ss, false, {}) && ConditionalList(ss) && !StrictList(ss)
    ensures FallsList(ss)
    decreases ss
  {
    if ss.Cons? {
      RejectedFalls(ss.head);
      RejectedListFalls(ss.tail);
    }
  }

  lemma {:induction false} RejectedCasesFall(cases: List<Case>)
    requires BoundCases(cases, false, {}) && ConditionalCases(cases)
    ensures cases.Cons? && !StrictCases(cases) ==> SomeFalls(cases)
    decreases cases
  {
    if cases.Cons? {
      if !StrictStmt(cases.head.body) {
        RejectedFalls(cases.head.body);
      } else {
        RejectedCasesFall(cases.tail);
      }
    }
  }

  /** A body of reachable statements, loops and labelled breaks included, is accepted without the
      rule for value statements if and only if none of its runs falls off the end. */
  lemma ExactWithLoops(ss: List<Stmt>, own: set<Name>)
    requires ParsedList(ss) && ReachableList(ss) && BoundList(ss, false, {}) && ConditionalList(ss)
    ensures StrictList(ss) <==> forall ch :: !RunStmt(Block(ss), own, {}, ch).out.Normal?
  {
    if StrictList(ss) {
      forall ch ensures !RunStmt(Block(ss), own, {}, ch).out.Normal? {
        StrictListNeverPasses(ss, own, {}, ch);
      }
    } else {
      RejectedListFalls(ss);
      var ch := SomeRunPassesList(ss, own, {});
      assert RunStmt(Block(ss), own, {}, ch).out.Normal?;
    }
  }

  // ---------- where it is not exact ----------

  /** `a: loop { a: loop { break a; } }`: the search takes the inner label for the outer one, so that
      the loop is rejected, although no run completes it. */
  lemma {:induction false} ShadowedLabel(s: Stmt, own: set<Name>, moved: set<Name>, ch: Choices)
    requires s == Loop(Some("a"), Loop(Some("a"), Break(Some("a"))))
    ensures !StmtReturns(s) && !RunStmt(s, own, moved, ch).out.Normal?
    decreases |ch|
  {
    if ch != [] {
      InnerIsLeft(s.body, own, moved, ch[1..]);
      assert RunBody(s, own, moved, ch[1..]) == RunStmt(s.body, own, moved, ch[1..]);
      if |ch| > 1 {
        assert ch[1..][1..] == ch[2..];
        ShadowedLabel(s, own, moved, ch[2..]);
      }
    }
  }

  lemma InnerIsLeft(s: Stmt, own: set<Name>, moved: set<Name>, ch: Choices)
    requires s == Loop(Some("a"), Break(Some("a")))
    ensures var r := RunStmt(s, own, moved, ch); if ch == [] then r.out.Cut? else r.out.Normal? && r.moved == moved && r.rest == ch[1..]
  {
    if ch != [] {
      assert RunBody(s, own, moved, ch[1..]) == RunStmt(s.body, own, moved, ch[1..]) == Run(Broke(Some("a")), moved, ch[1..], [], false);
    }
  }

  /** `for (;;) { }` never completes and is not accepted. */
  lemma {:induction false} EndlessForRejected(s: Stmt, own: set<Name>, moved: set<Name>, ch: Choices)
    requires s == For(None, None, None, None, None)
    ensures !StmtReturns(s) && !RunLoop(s, own, moved, ch).out.Normal?
    decreases |ch|
  {
    if ch != [] {
      EndlessForRejected(s, own, moved, ch[1..]);
    }
  }

  /** A body that ends with an expression or a match is accepted, whatever stands before it. */
  lemma {:induction false} ValueEndsBody(ss: List<Stmt>, last: Stmt)
    requires last.ExprStmt? || last.Match?
    ensures BlockReturns(Behind(ss, last))
    decreases ss
  {
    if ss.Cons? {
      ValueEndsBody(ss.tail, last);
    }
  }

  function Behind(ss: List<Stmt>, last: Stmt): (r: List<Stmt>)
    ensures r.Cons?
  {
    match ss
    case Nil => Cons(last, Nil)
    case Cons(s, tail) => Cons(s, Behind(tail, last))
  }
}
