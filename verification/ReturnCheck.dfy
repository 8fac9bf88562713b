/** The check that every path of a function returns, and the search for breaks out of a loop. */
module ReturnCheck {
  import opened Ast
  import opened Runs
  import opened RunLaws
  import opened MoveLoops

  /** `stmt_has_exit_break`: `s` contains a break that can exit the loop labelled `tag`;
      `nested` while inside a loop nested within it. */
  predicate HasExitBreak(s: Stmt, tag: Option<Name>, nested: bool)
    decreases s
  {
    match s
    case Break(target) => if target.Some? then target == tag else !nested
    case Block(ss) => ListHasExitBreak(ss, tag, nested)
    case If(_, t, e) => HasExitBreak(t, tag, nested) || (e.Some? && HasExitBreak(e.value, tag, nested))
    case Match(_, cases) => CasesHaveExitBreak(cases, tag, nested)
    case While(_, _, b) => HasExitBreak(b, tag, true)
    case Loop(_, b) => HasExitBreak(b, tag, true)
    case For(_, _, _, _, b) => b.Some? && HasExitBreak(b.value, tag, true)
    case ForRange(_, _, _, _, _, b) => HasExitBreak(b, tag, true)
    case _ => false
  }

  predicate ListHasExitBreak(ss: List<Stmt>, tag: Option<Name>, nested: bool)
    decreases ss
  {
    ss.Cons? && (HasExitBreak(ss.head, tag, nested) || ListHasExitBreak(ss.tail, tag, nested))
  }

  predicate CasesHaveExitBreak(cases: List<Case>, tag: Option<Name>, nested: bool)
    decreases cases
  {
    cases.Cons? && (HasExitBreak(cases.head.body, tag, nested) || CasesHaveExitBreak(cases.tail, tag, nested))
  }

  /** `stmt_always_returns`. */
  predicate StmtReturns(s: Stmt)
    decreases s
  {
    match s
    case Return(_) => true
    case Block(ss) => BlockReturns(ss)
    case If(_, t, e) => e.Some? && StmtReturns(t) && StmtReturns(e.value)
    case Match(_, cases) => cases.Cons? && CasesReturn(cases) && HasDefault(cases)
    case Loop(tag, b) => !HasExitBreak(b, tag, false)
    case _ => false
  }

  predicate CasesReturn(cases: List<Case>)
    decreases cases
  {
    cases.Cons? ==> StmtReturns(cases.head.body) && CasesReturn(cases.tail)
  }

  /** `block_always_returns`, on the statements of a block. */
  predicate BlockReturns(ss: List<Stmt>)
    decreases ss
  {
    ss.Cons? &&
    if ss.tail.Cons? then StmtReturns(ss.head) || BlockReturns(ss.tail)
    else StmtReturns(ss.head) || (ss.head.Block? && BlockReturns(ss.head.stmts)) || IsValueStmt(ss.head)
  }

  // ---------- breaks that leave a loop ----------

  /** A run that ends in this break is seen by a search for `tag` at this nesting. */
  predicate Wanted(out: Outcome, tag: Option<Name>, nested: bool) {
    out.Broke? && if out.target.None? then !nested else out.target == tag
  }

  /** No break that exits the loop is overlooked, through any nesting of loops, branches and
      arms: if a run of `s` ends in one, the search finds one. */
  lemma {:induction false} ExitBreakFound(s: Stmt, tag: Option<Name>, nested: bool, own: set<Name>, moved: set<Name>, ch: Choices)
    requires Parsed(s) && Wanted(RunStmt(s, own, moved, ch).out, tag, nested)
    ensures HasExitBreak(s, tag, nested)
    decreases |ch|, s, 2
  {
    match s
    case Block(ss) => ExitBreakFoundInList(ss, tag, nested, own, moved, ch);
    case If(c, t, e) =>
      var a := RunExpr(c, own, moved, ch);
      if a.rest[0] != 0 {
        ExitBreakFound(t, tag, nested, own, a.moved, a.rest[1..]);
      } else {
        ExitBreakFound(e.value, tag, nested, own, a.moved, a.rest[1..]);
      }
    case Match(e, cases) =>
      var a := RunExpr(e, own, moved, ch);
      ExitBreakFoundInCases(cases, HasDefault(cases), tag, nested, own, a.moved, a.rest);
    case While(_, _, _) => ExitBreakFoundInLoop(s, tag, nested, own, moved, ch);
    case Loop(_, _) => ExitBreakFoundInLoop(s, tag, nested, own, moved, ch);
    case For(_, init, _, _, _) =>
      var a := if init.None? then Run(Normal, moved, ch, [], false) else RunStmt(init.value, own, moved, ch);
      ExitBreakFoundInLoop(s, tag, nested, own, a.moved, a.rest);
    case ForRange(_, _, lo, hi, _, _) =>
      var a := RunExpr(lo, own, moved, ch);
      var b := RunExpr(hi, own, a.moved, a.rest);
      ExitBreakFoundInLoop(s, tag, nested, own, b.moved, b.rest);
    case Break(_) =>
  }

  lemma {:induction false} ExitBreakFoundInList(ss: List<Stmt>, tag: Option<Name>, nested: bool,
                                                own: set<Name>, moved: set<Name>, ch: Choices)
    requires ParsedList(ss) && Wanted(RunList(ss, own, moved, ch).out, tag, nested)
    ensures ListHasExitBreak(ss, tag, nested)
    decreases |ch|, ss, 2
  {
    var a := RunStmt(ss.head, own, moved, ch);
    if a.out.Normal? {
      ExitBreakFoundInList(ss.tail, tag, nested, own, a.moved, a.rest);
    } else {
      ExitBreakFound(ss.head, tag, nested, own, moved, ch);
    }
  }

  lemma {:induction false} ExitBreakFoundInCases(cases: List<Case>, total: bool, tag: Option<Name>, nested: bool,
                                                 own: set<Name>, moved: set<Name>, ch: Choices)
    requires ParsedCases(cases) && Wanted(RunCases(cases, total, own, moved, ch).out, tag, nested)
    ensures CasesHaveExitBreak(cases, tag, nested)
    decreases |ch|, cases, 2
  {
    if total && cases.tail.Nil? {
      ExitBreakFound(cases.head.body, tag, nested, own, moved, ch);
    } else if ch[0] != 0 {
      ExitBreakFound(cases.head.body, tag, nested, own, moved, ch[1..]);
    } else {
      ExitBreakFoundInCases(cases.tail, total, tag, nested, own, moved, ch[1..]);
    }
  }

  lemma {:induction false} ExitBreakFoundInLoop(s: Stmt, tag: Option<Name>, nested: bool, own: set<Name>, moved: set<Name>, ch: Choices)
    requires IsLoop(s) && Parsed(s) && Wanted(RunLoop(s, own, moved, ch).out, tag, nested)
    ensures LoopBody(s).Some? && HasExitBreak(LoopBody(s).value, tag, true)
    decreases |ch|, s, 1
  {
    var c := RunOptExpr(LoopTest(s), own, moved, ch);
    var b := RunBody(s, own, c.moved, c.rest[1..]);
    if b.out.Normal? || (b.out.Continued? && Targets(b.out.target, s.tag)) {
      var e := RunOptExpr(LoopStep(s), own, b.moved, b.rest);
      ExitBreakFoundInLoop(s, tag, nested, own, e.moved, e.rest);
    } else {
      assert b.out.Broke? && b.out.target.Some?;
      ExitBreakFound(LoopBody(s).value, tag, true, own, c.moved, c.rest[1..]);
    }
  }

  /** An endless loop in which the search finds no exit never completes normally. */
  lemma {:induction false} LoopNeverCompletes(s: Stmt, own: set<Name>, moved: set<Name>, ch: Choices)
    requires s.Loop? && Parsed(s) && !HasExitBreak(s.body, s.tag, false)
    ensures !RunLoop(s, own, moved, ch).out.Normal?
    decreases |ch|
  {
    if ch != [] {
      var b := RunStmt(s.body, own, moved, ch[1..]);
      if b.out.Broke? && Targets(b.out.target, s.tag) {
        ExitBreakFound(s.body, s.tag, false, own, moved, ch[1..]);
      } else if b.out.Normal? || (b.out.Continued? && Targets(b.out.target, s.tag)) {
        LoopNeverCompletes(s, own, b.moved, b.rest);
      }
    }
  }

  // ---------- always returning ----------

  /** A statement accepted as always returning is never passed normally, except by a run in
      which some block ended with a value statement. */
  lemma {:induction false} ReturnsSound(s: Stmt, own: set<Name>, moved: set<Name>, ch: Choices)
    requires StmtReturns(s) && Parsed(s)
    ensures var r := RunStmt(s, own, moved, ch); r.out.Normal? ==> r.valued
    decreases s
  {
    match s
    case Return(_) =>
    case Block(ss) => BlockReturnsSound(ss, own, moved, ch);
    case If(c, t, e) =>
      var a := RunExpr(c, own, moved, ch);
      if a.done && a.rest != [] {
        if a.rest[0] != 0 {
          ReturnsSound(t, own, a.moved, a.rest[1..]);
        } else {
          ReturnsSound(e.value, own, a.moved, a.rest[1..]);
        }
      }
    case Match(e, cases) =>
      var a := RunExpr(e, own, moved, ch);
      if a.done {
        CasesReturnSound(cases, own, a.moved, a.rest);
      }
    case Loop(_, _) => LoopNeverCompletes(s, own, moved, ch);
  }

  lemma {:induction false} CasesReturnSound(cases: List<Case>, own: set<Name>, moved: set<Name>, ch: Choices)
    requires CasesReturn(cases) && ParsedCases(cases) && cases.Cons?
    ensures var r := RunCases(cases, true, own, moved, ch); r.out.Normal? ==> r.valued
    decreases cases
  {
    ReturnsSound(cases.head.body, own, moved, ch);
    if ch != [] {
      ReturnsSound(cases.head.body, own, moved, ch[1..]);
      if cases.tail.Cons? {
        CasesReturnSound(cases.tail, own, moved, ch[1..]);
      }
    }
  }

  lemma {:induction false} BlockReturnsSound(ss: List<Stmt>, own: set<Name>, moved: set<Name>, ch: Choices)
    requires BlockReturns(ss) && ParsedList(ss)
    ensures var r := RunList(ss, own, moved, ch); r.out.Normal? ==> r.valued || EndsWithValue(ss)
    decreases ss
  {
    var a := RunStmt(ss.head, own, moved, ch);
    if StmtReturns(ss.head) {
      ReturnsSound(ss.head, own, moved, ch);
    } else if ss.tail.Cons? {
      BlockReturnsSound(ss.tail, own, a.moved, a.rest);
    }
  }

  // ---------- function bodies ----------

  /** Every break and continue has a loop to refer to. */
  predicate Bound(s: Stmt, inLoop: bool, tags: set<Name>)
    decreases s
  {
    match s
    case Break(t) => JumpBound(t, inLoop, tags)
    case Continue(t) => JumpBound(t, inLoop, tags)
    case Block(ss) => BoundList(ss, inLoop, tags)
    case If(_, t, e) => Bound(t, inLoop, tags) && (e.Some? ==> Bound(e.value, inLoop, tags))
    case Match(_, cases) => BoundCases(cases, inLoop, tags)
    case While(tag, _, b) => Bound(b, true, TagsWith(tag, tags))
    case Loop(tag, b) => Bound(b, true, TagsWith(tag, tags))
    case For(tag, _, _, _, b) => b.Some? ==> Bound(b.value, true, TagsWith(tag, tags))
    case ForRange(tag, _, _, _, _, b) => Bound(b, true, TagsWith(tag, tags))
    case _ => true
  }

  predicate BoundList(ss: List<Stmt>, inLoop: bool, tags: set<Name>)
    decreases ss
  {
    ss.Cons? ==> Bound(ss.head, inLoop, tags) && BoundList(ss.tail, inLoop, tags)
  }

  predicate BoundCases(cases: List<Case>, inLoop: bool, tags: set<Name>)
    decreases cases
  {
    cases.Cons? ==> Bound(cases.head.body, inLoop, tags) && BoundCases(cases.tail, inLoop, tags)
  }

  predicate JumpBound(target: Option<Name>, inLoop: bool, tags: set<Name>) {
    if target.None? then inLoop else target.value in tags
  }

  function TagsWith(tag: Option<Name>, tags: set<Name>): set<Name> {
    if tag.None? then tags else tags + {tag.value}
  }

  predicate OutcomeBound(out: Outcome, inLoop: bool, tags: set<Name>) {
    out.Broke? || out.Continued? ==> JumpBound(out.target, inLoop, tags)
  }

  /** A jump out of a statement goes to a loop around it. */
  lemma {:induction false} JumpsAreBound(s: Stmt, inLoop: bool, tags: set<Name>, own: set<Name>, moved: set<Name>, ch: Choices)
    requires Bound(s, inLoop, tags) && Parsed(s)
    ensures OutcomeBound(RunStmt(s, own, moved, ch).out, inLoop, tags)
    decreases |ch|, s, 2
  {
    match s
    case Block(ss) => JumpsAreBoundInList(ss, inLoop, tags, own, moved, ch);
    case If(c, t, e) =>
      var a := RunExpr(c, own, moved, ch);
      if a.done && a.rest != [] {
        if a.rest[0] != 0 {
          JumpsAreBound(t, inLoop, tags, own, a.moved, a.rest[1..]);
        } else if e.Some? {
          JumpsAreBound(e.value, inLoop, tags, own, a.moved, a.rest[1..]);
        }
      }
    case Match(e, cases) =>
      var a := RunExpr(e, own, moved, ch);
      JumpsAreBoundInCases(cases, HasDefault(cases), inLoop, tags, own, a.moved, a.rest);
    case While(_, _, _) => LoopJumpsAreBound(s, inLoop, tags, own, moved, ch);
    case Loop(_, _) => LoopJumpsAreBound(s, inLoop, tags, own, moved, ch);
    case For(_, init, _, _, _) =>
      var a := if init.None? then Run(Normal, moved, ch, [], false) else RunStmt(init.value, own, moved, ch);
      LoopJumpsAreBound(s, inLoop, tags, own, a.moved, a.rest);
    case ForRange(_, _, lo, hi, _, _) =>
      var a := RunExpr(lo, own, moved, ch);
      var b := RunExpr(hi, own, a.moved, a.rest);
      LoopJumpsAreBound(s, inLoop, tags, own, b.moved, b.rest);
    case _ =>
  }

  lemma {:induction false} JumpsAreBoundInList(ss: List<Stmt>, inLoop: bool, tags: set<Name>, own: set<Name>, moved: set<Name>, ch: Choices)
    requires BoundList(ss, inLoop, tags) && ParsedList(ss)
    ensures OutcomeBound(RunList(ss, own, moved, ch).out, inLoop, tags)
    decreases |ch|, ss, 2
  {
    if ss.Cons? {
      JumpsAreBound(ss.head, inLoop, tags, own, moved, ch);
      var a := RunStmt(ss.head, own, moved, ch);
      JumpsAreBoundInList(ss.tail, inLoop, tags, own, a.moved, a.rest);
    }
  }

  lemma {:induction false} JumpsAreBoundInCases(cases: List<Case>, total: bool, inLoop: bool, tags: set<Name>,
                                                own: set<Name>, moved: set<Name>, ch: Choices)
    requires BoundCases(cases, inLoop, tags) && ParsedCases(cases)
    ensures OutcomeBound(RunCases(cases, total, own, moved, ch).out, inLoop, tags)
    decreases |ch|, cases, 2
  {
    if cases.Cons? {
      JumpsAreBound(cases.head.body, inLoop, tags, own, moved, ch);
      if ch != [] {
        JumpsAreBound(cases.head.body, inLoop, tags, own, moved, ch[1..]);
        JumpsAreBoundInCases(cases.tail, total, inLoop, tags, own, moved, ch[1..]);
      }
    }
  }

  lemma {:induction false} LoopJumpsAreBound(s: Stmt, inLoop: bool, tags: set<Name>, own: set<Name>, moved: set<Name>, ch: Choices)
    requires IsLoop(s) && Bound(s, inLoop, tags) && Parsed(s)
    ensures OutcomeBound(RunLoop(s, own, moved, ch).out, inLoop, tags)
    decreases |ch|, s, 1
  {
    var c := RunOptExpr(LoopTest(s), own, moved, ch);
    if c.done && c.rest != [] {
      var b := RunBody(s, own, c.moved, c.rest[1..]);
      if LoopBody(s).Some? {
        JumpsAreBound(LoopBody(s).value, true, TagsWith(s.tag, tags), own, c.moved, c.rest[1..]);
      }
      var e := RunOptExpr(LoopStep(s), own, b.moved, b.rest);
      LoopJumpsAreBound(s, inLoop, tags, own, e.moved, e.rest);
    }
  }

  /** A function body that is accepted never falls off its end: every finished run has
      executed a return, or some block of it ended with a value statement. */
  lemma BodyReturns(ss: List<Stmt>, own: set<Name>, ch: Choices)
    requires BlockReturns(ss) && ParsedList(ss) && BoundList(ss, false, {})
    ensures var r := RunStmt(Block(ss), own, {}, ch); r.out.Returned? || r.out.Cut? || r.valued
  {
    BlockReturnsSound(ss, own, {}, ch);
    JumpsAreBoundInList(ss, false, {}, own, {}, ch);
  }

  // ---------- without the rule for value statements ----------

  /** `stmt_always_returns` if a block could not end with a value. */
  predicate StrictStmt(s: Stmt)
    decreases s
  {
    match s
    case Return(_) => true
    case Block(ss) => StrictList(ss)
    case If(_, t, e) => e.Some? && StrictStmt(t) && StrictStmt(e.value)
    case Match(_, cases) => cases.Cons? && StrictCases(cases) && HasDefault(cases)
    case Loop(tag, b) => !HasExitBreak(b, tag, false)
    case _ => false
  }

  predicate StrictCases(cases: List<Case>)
    decreases cases
  {
    cases.Cons? ==> StrictStmt(cases.head.body) && StrictCases(cases.tail)
  }

  /** `block_always_returns` without its rule that a value statement may end a block. */
  predicate StrictList(ss: List<Stmt>)
    decreases ss
  {
    ss.Cons? && (StrictStmt(ss.head) || StrictList(ss.tail))
  }

  /** The rule only accepts more. */
  lemma {:induction false} StrictIsAccepted(s: Stmt)
    requires StrictStmt(s)
    ensures StmtReturns(s)
    decreases s
  {
    match s
    case Return(_) =>
    case Block(ss) => StrictListIsAccepted(ss);
    case If(_, t, e) =>
      StrictIsAccepted(t);
      StrictIsAccepted(e.value);
    case Match(_, cases) => StrictCasesAreAccepted(cases);
    case Loop(_, _) =>
  }

  lemma {:induction false} StrictListIsAccepted(ss: List<Stmt>)
    requires StrictList(ss)
    ensures BlockReturns(ss)
    decreases ss
  {
    if StrictStmt(ss.head) {
      StrictIsAccepted(ss.head);
    } else {
      StrictListIsAccepted(ss.tail);
    }
  }

  lemma {:induction false} StrictCasesAreAccepted(cases: List<Case>)
    requires StrictCases(cases)
    ensures CasesReturn(cases)
    decreases cases
  {
    if cases.Cons? {
      StrictIsAccepted(cases.head.body);
      StrictCasesAreAccepted(cases.tail);
    }
  }

  /** What is accepted without that rule is never passed normally: no run, with whatever values
      its blocks end, goes on behind it. */
  lemma {:induction false} StrictNeverPasses(s: Stmt, own: set<Name>, moved: set<Name>, ch: Choices)
    requires StrictStmt(s) && Parsed(s)
    ensures !RunStmt(s, own, moved, ch).out.Normal?
    decreases s
  {
    match s
    case Return(_) =>
    case Block(ss) => StrictListNeverPasses(ss, own, moved, ch);
    case If(c, t, e) =>
      var a := RunExpr(c, own, moved, ch);
      if a.done && a.rest != [] {
        if a.rest[0] != 0 {
          StrictNeverPasses(t, own, a.moved, a.rest[1..]);
        } else {
          StrictNeverPasses(e.value, own, a.moved, a.rest[1..]);
        }
      }
    case Match(e, cases) =>
      var a := RunExpr(e, own, moved, ch);
      if a.done {
        StrictCasesNeverPass(cases, own, a.moved, a.rest);
      }
    case Loop(_, _) => LoopNeverCompletes(s, own, moved, ch);
  }

  lemma {:induction false} StrictCasesNeverPass(cases: List<Case>, own: set<Name>, moved: set<Name>, ch: Choices)
    requires StrictCases(cases) && ParsedCases(cases) && cases.Cons?
    ensures !RunCases(cases, true, own, moved, ch).out.Normal?
    decreases cases
  {
    StrictNeverPasses(cases.head.body, own, moved, ch);
    if ch != [] {
      StrictNeverPasses(cases.head.body, own, moved, ch[1..]);
      if cases.tail.Cons? {
        StrictCasesNeverPass(cases.tail, own, moved, ch[1..]);
      }
    }
  }

  lemma {:induction false} StrictListNeverPasses(ss: List<Stmt>, own: set<Name>, moved: set<Name>, ch: Choices)
    requires StrictList(ss) && ParsedList(ss)
    ensures !RunList(ss, own, moved, ch).out.Normal?
    decreases ss
  {
    if StrictStmt(ss.head) {
      StrictNeverPasses(ss.head, own, moved, ch);
    } else {
      var a := RunStmt(ss.head, own, moved, ch);
      StrictListNeverPasses(ss.tail, own, a.moved, a.rest);
    }
  }

  /** A body accepted without the rule for value statements, loops and labelled breaks included,
      never falls off its end: every finished run has executed a return. */
  lemma StrictBodyReturns(ss: List<Stmt>, own: set<Name>, ch: Choices)
    requires StrictList(ss) && ParsedList(ss)
    ensures !RunStmt(Block(ss), own, {}, ch).out.Normal?
    ensures BoundList(ss, false, {}) ==> var r := RunStmt(Block(ss), own, {}, ch); r.out.Returned? || r.out.Cut?
  {
    StrictListNeverPasses(ss, own, {}, ch);
    if BoundList(ss, false, {}) {
      JumpsAreBoundInList(ss, false, {}, own, {}, ch);
    }
  }

  // ---------- exactness without loops ----------

  /** No loop and no jump but return. */
  predicate Straight(s: Stmt)
    decreases s
  {
    match s
    case Block(ss) => StraightList(ss)
    case If(_, t, e) => Straight(t) && (e.Some? ==> Straight(e.value))
    case Match(_, cases) => StraightCases(cases)
    case VarDecl(_, _, _) => true
    case ExprStmt(_) => true
    case Assert(_) => true
    case Return(_) => true
    case _ => false
  }

  predicate StraightList(ss: List<Stmt>)
    decreases ss
  {
    ss.Cons? ==> Straight(ss.head) && StraightList(ss.tail)
  }

  predicate StraightCases(cases: List<Case>)
    decreases cases
  {
    cases.Cons? ==> Straight(cases.head.body) && StraightCases(cases.tail)
  }

  /** Choices that evaluate an expression completely (no operand skipped). */
  lemma {:induction false} ExprFinishes(e: Expr, own: set<Name>, moved: set<Name>) returns (ch: Choices)
    ensures RunExpr(e, own, moved, ch).done && RunExpr(e, own, moved, ch).rest == []
    decreases e
  {
    ch := [];
    match e
    case Binary(op, l, r) =>
      if op.Set? && l.Var? {
        ch := ExprFinishes(r, own, moved);
      } else {
        var c1 := ExprFinishes(l, own, moved);
        var c2 := ExprFinishes(r, own, RunExpr(l, own, moved, c1).moved);
        if IsLogical(op) {
          ExprThen(l, own, moved, c1, [1] + c2);
          assert ([1] + c2)[1..] == c2;
          ch := c1 + ([1] + c2);
        } else {
          ExprThen(l, own, moved, c1, c2);
          ch := c1 + c2;
        }
      }
    case Unary(_, o) => ch := ExprFinishes(o, own, moved);
    case Call(f, args, _) =>
      var c1 := ExprFinishes(f, own, moved);
      var c2 := ArgsFinish(args, own, RunExpr(f, own, moved, c1).moved);
      ExprThen(f, own, moved, c1, c2);
      ch := c1 + c2;
    case Index(l, r) =>
      var c1 := ExprFinishes(l, own, moved);
      var c2 := ExprFinishes(r, own, RunExpr(l, own, moved, c1).moved);
      ExprThen(l, own, moved, c1, c2);
      ch := c1 + c2;
    case Cast(o) => ch := ExprFinishes(o, own, moved);
    case _ =>
  }

  lemma {:induction false} ArgsFinish(args: List<Expr>, own: set<Name>, moved: set<Name>) returns (ch: Choices)
    ensures RunArgs(args, own, moved, ch).done && RunArgs(args, own, moved, ch).rest == []
    decreases args
  {
    ch := [];
    if args.Cons? {
      var c1 := ExprFinishes(args.head, own, moved);
      var c2 := ArgsFinish(args.tail, own, RunExpr(args.head, own, moved, c1).moved + Taken(args.head, own));
      ExprThen(args.head, own, moved, c1, c2);
      ch := c1 + c2;
    }
  }

  /** A statement without loops that is not accepted has a run that passes it normally. */
  lemma {:induction false} FallsThrough(s: Stmt, own: set<Name>, moved: set<Name>) returns (ch: Choices)
    requires Straight(s) && !StrictStmt(s)
    ensures var r := RunStmt(s, own, moved, ch); r.out.Normal? && r.rest == []
    decreases s
  {
    ch := [];
    match s
    case VarDecl(_, init, _) =>
      if init.Some? { ch := ExprFinishes(init.value, own, moved); }
    case ExprStmt(e) => ch := ExprFinishes(e, own, moved);
    case Assert(e) => ch := ExprFinishes(e, own, moved);
    case Block(ss) => ch := ListFallsThrough(ss, own, moved);
    case If(c, t, e) =>
      var c1 := ExprFinishes(c, own, moved);
      var a := RunExpr(c, own, moved, c1);
      var c2: Choices := [0];
      if !StrictStmt(t) {
        c2 := FallsThrough(t, own, a.moved);
        assert ([1] + c2)[1..] == c2;
        c2 := [1] + c2;
      } else if e.Some? {
        c2 := FallsThrough(e.value, own, a.moved);
        assert ([0] + c2)[1..] == c2;
        c2 := [0] + c2;
      }
      ExprThen(c, own, moved, c1, c2);
      ch := c1 + c2;
    case Match(e, cases) =>
      var c1 := ExprFinishes(e, own, moved);
      var c2 := CasesFallThrough(cases, HasDefault(cases), own, RunExpr(e, own, moved, c1).moved);
      ExprThen(e, own, moved, c1, c2);
      ch := c1 + c2;
  }

  lemma {:induction false} ListFallsThrough(ss: List<Stmt>, own: set<Name>, moved: set<Name>) returns (ch: Choices)
    requires StraightList(ss) && !StrictList(ss)
    ensures var r := RunList(ss, own, moved, ch); r.out.Normal? && r.rest == []
    decreases ss
  {
    ch := [];
    if ss.Cons? {
      var c1 := FallsThrough(ss.head, own, moved);
      var a := RunStmt(ss.head, own, moved, c1);
      var c2 := ListFallsThrough(ss.tail, own, a.moved);
      StmtThen(ss.head, own, moved, c1, c2);
      ch := c1 + c2;
    }
  }

  lemma {:induction false} CasesFallThrough(cases: List<Case>, total: bool, own: set<Name>, moved: set<Name>) returns (ch: Choices)
    requires StraightCases(cases) && (!total || (cases.Cons? && !StrictCases(cases)))
    ensures var r := RunCases(cases, total, own, moved, ch); r.out.Normal? && r.rest == []
    decreases cases
  {
    ch := [];
    if cases.Cons? {
      if !StrictStmt(cases.head.body) {
        ch := FallsThrough(cases.head.body, own, moved);
        assert ([1] + ch)[1..] == ch;
        ch := if total && cases.tail.Nil? then ch else [1] + ch;
      } else {
        ch := CasesFallThrough(cases.tail, total, own, moved);
        assert ([0] + ch)[1..] == ch;
        ch := [0] + ch;
      }
    }
  }

  /** On bodies without loops the rule for value statements is the only reason for accepting too
      much: a body is accepted without it if and only if none of its runs falls off the end. */
  lemma ExactWithoutLoops(ss: List<Stmt>, own: set<Name>)
    requires StraightList(ss) && ParsedList(ss)
    ensures StrictList(ss) <==> forall ch :: !RunStmt(Block(ss), own, {}, ch).out.Normal?
  {
    if StrictList(ss) {
      forall ch ensures !RunStmt(Block(ss), own, {}, ch).out.Normal? {
        StrictListNeverPasses(ss, own, {}, ch);
      }
    } else {
      var ch := ListFallsThrough(ss, own, {});
      assert RunStmt(Block(ss), own, {}, ch).out.Normal?;
    }
  }

  /** So an accepted body falls off its end exactly when that rule was needed to accept it. */
  lemma AcceptedBodyFallsOff(ss: List<Stmt>, own: set<Name>)
    requires StraightList(ss) && ParsedList(ss)
    ensures BlockReturns(ss) ==> (!StrictList(ss) <==> exists ch :: RunStmt(Block(ss), own, {}, ch).out.Normal?)
    ensures !BlockReturns(ss) ==> exists ch :: RunStmt(Block(ss), own, {}, ch).out.Normal?
  {
    ExactWithoutLoops(ss, own);
    if StrictList(ss) {
      StrictListIsAccepted(ss);
    }
  }

  /** Why the value statements matter: `{ if c { f(); } else { g(); } let x; }` is accepted,
      although a run falls off its end without a return. */
  lemma ValuedBranchFallsThrough()
    ensures var call := Block(Cons(ExprStmt(Call(Var("f", 1), Nil, false)), Nil));
            var ss := Cons(If(Var("c", 1), call, Some(call)), Cons(VarDecl("x", None, 0), Nil));
            BlockReturns(ss) && RunStmt(Block(ss), {}, {}, [1]).out.Normal?
  {
    var call := Block(Cons(ExprStmt(Call(Var("f", 1), Nil, false)), Nil));
    var branch := If(Var("c", 1), call, Some(call));
    var rest := Cons(VarDecl("x", None, 0), Nil);
    assert BlockReturns(call.stmts);
    assert StmtReturns(branch);
    assert RunList(call.stmts, {}, {}, []).out.Normal?;
    assert [1][1..] == [];
    assert RunStmt(branch, {}, {}, [1]).out.Normal?;
    assert RunList(rest, {}, {}, []).out.Normal?;
  }
}
