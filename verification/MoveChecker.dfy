/** The move checker as the compiler runs it: a `TypeChecker` whose fields point to shared,
    mutable move states, which `if`, `match` and the loops clone, swap and merge.  Every
    method is proved to have the effect of its counterpart in MoveSpec, and to log the
    same uses. */
module MoveChecker {
  import opened Ast
  import opened Runs
  import opened MoveSpec
  import opened MoveList
  import opened LoopStates
  import opened MoveSoundness

  class TypeChecker {
    /** The variables of owning types; every other variable is copied when it is passed on. */
    const own: set<Name>
    var moveState: MoveState
    var isUnreachable: bool
    /** The states of the innermost loop. */
    var loop: LoopStates
    var inLoopPass2: bool
    var moveChecksOnly: bool
    var isAssignLhs: bool

    /** The current state and those of the loop share nothing. */
    ghost predicate Valid()
      reads this, moveState, moveState.repr, loop, loop.repr
    {
      && moveState.Valid() == true && loop.Valid() == true
      && this !in moveState.repr && this !in loop.repr && moveState.repr !! loop.repr
    }

    ghost function Abs(): State
      reads this, moveState, loop
    {
      State(moveState.moved, isUnreachable, loop.brk, loop.cont)
    }

    ghost function ModeOf(): Mode
      reads this, loop
    {
      Mode(inLoopPass2, loop.start, moveChecksOnly)
    }

    constructor (own: set<Name>, moveChecksOnly: bool)
      ensures Valid() && fresh(moveState.repr) && fresh(loop.repr)
      ensures this.own == own && Abs() == State({}, false, None, None) && ModeOf() == Mode(false, None, moveChecksOnly)
      ensures !isAssignLhs
    {
      this.own := own;
      moveState := new MoveState();
      loop := new LoopStates(null);
      isUnreachable, inLoopPass2, isAssignLhs := false, false, false;
      this.moveChecksOnly := moveChecksOnly;
    }

    // ---------- expressions ----------

    // The checkers of expressions and statements return the uses they met, with the errors
    // reported for them, in order.

    /** `check_path_validity`. */
    method CheckPathValidity(path: Name, line: nat) returns (uses: Log)
      requires Valid()
      ensures uses == [VisitOf(path, line, ModeOf(), moveState.moved, isUnreachable)]
    {
      var status := moveState.GetStatus(path);
      var report := false;
      if status == MOVED || status == MAYBE_MOVED {
        report := true;
        if inLoopPass2 {
          var movedAtStart := loop.MovedAtStart(path);
          report := line != 0 && !movedAtStart;
        }
      }
      uses := [Visit(path, line, status == MOVED, report, isUnreachable)];
    }

    /** `check_move_for_rvalue`: a variable of an owning type gives its value away. */
    method CheckMoveForRvalue(e: Expr)
      requires Valid()
      modifies moveState.repr
      ensures Valid() && moveState.moved == old(moveState.moved) + Taken(e, own)
      ensures old(moveState.repr) <= moveState.repr && fresh(moveState.repr - old(moveState.repr))
    {
      if e.Var? && e.name in own {
        moveState.MarkMoved(e.name, e.pos);
      }
    }

    method CheckExpr(e: Expr) returns (uses: Log)
      requires Valid()
      modifies this`isAssignLhs, moveState.repr
      ensures Valid() && isAssignLhs == old(isAssignLhs)
      ensures old(moveState.repr) <= moveState.repr && fresh(moveState.repr - old(moveState.repr))
      ensures ExprResult(moveState.moved, uses) ==
              MoveSpec.CheckExpr(e, own, old(isAssignLhs), old(ModeOf()), old(moveState.moved), isUnreachable)
      decreases e, 1
    {
      uses := [];
      match e
      case Var(x, pos) =>
        if !isAssignLhs {
          uses := CheckPathValidity(x, pos);
        }
      case Binary(_, _, _) => uses := CheckBinary(e);
      case Unary(_, o) => uses := CheckExpr(o);
      case Call(_, _, _) => uses := CheckCall(e);
      case Index(l, r) =>
        var a := CheckExpr(l);
        var b := CheckExpr(r);
        uses := a + b;
      case Cast(o) => uses := CheckExpr(o);
      case _ =>
    }

    /** `check_expr_binary`: check both operands, then move the right one, then re-validate the target. */
    method CheckBinary(e: Expr) returns (uses: Log)
      requires Valid() && e.Binary?
      modifies this`isAssignLhs, moveState.repr
      ensures Valid() && isAssignLhs == old(isAssignLhs)
      ensures old(moveState.repr) <= moveState.repr && fresh(moveState.repr - old(moveState.repr))
      ensures ExprResult(moveState.moved, uses) ==
              MoveSpec.CheckExpr(e, own, old(isAssignLhs), old(ModeOf()), old(moveState.moved), isUnreachable)
      decreases e, 0
    {
      var oldIsAssignLhs := isAssignLhs;
      isAssignLhs := isAssignLhs || IsAssignment(e.op);
      var a := CheckExpr(e.left);
      isAssignLhs := oldIsAssignLhs;
      var b := CheckExpr(e.right);
      if e.op.Set? {
        Settle(e.left, e.right);
      }
      uses := a + b;
    }

    method Settle(l: Expr, r: Expr)
      requires Valid()
      modifies moveState.repr
      ensures Valid() && moveState.moved == Assigned(l, r, own, old(moveState.moved))
      ensures old(moveState.repr) <= moveState.repr && fresh(moveState.repr - old(moveState.repr))
    {
      CheckMoveForRvalue(r);
      if l.Var? {
        moveState.MarkValid(l.name, l.pos);
      }
    }

    method CheckCall(e: Expr) returns (uses: Log)
      requires Valid() && e.Call?
      modifies this`isAssignLhs, moveState.repr
      ensures Valid() && isAssignLhs == old(isAssignLhs)
      ensures old(moveState.repr) <= moveState.repr && fresh(moveState.repr - old(moveState.repr))
      ensures ExprResult(moveState.moved, uses) ==
              MoveSpec.CheckExpr(e, own, old(isAssignLhs), old(ModeOf()), old(moveState.moved), isUnreachable)
      decreases e, 0
    {
      var a := CheckExpr(e.callee);
      var b := CheckArgs(e.args);
      uses := a + b;
    }

    /** The argument loop of `check_expr_call`, left to right. */
    method CheckArgs(args: List<Expr>) returns (uses: Log)
      requires Valid()
      modifies this`isAssignLhs, moveState.repr
      ensures Valid() && isAssignLhs == old(isAssignLhs)
      ensures old(moveState.repr) <= moveState.repr && fresh(moveState.repr - old(moveState.repr))
      ensures ExprResult(moveState.moved, uses) ==
              MoveSpec.CheckArgs(args, own, old(isAssignLhs), old(ModeOf()), old(moveState.moved), isUnreachable)
      decreases args, 1
    {
      uses := [];
      var arg := args;
      ghost var mode := ModeOf();
      ghost var all := MoveSpec.CheckArgs(args, own, isAssignLhs, mode, moveState.moved, isUnreachable);
      while arg.Cons?
        invariant Valid() && isAssignLhs == old(isAssignLhs) && ModeOf() == mode
        invariant old(moveState.repr) <= moveState.repr && fresh(moveState.repr - old(moveState.repr))
        invariant arg == args || arg < args
        invariant all == Prefixed(uses, MoveSpec.CheckArgs(arg, own, isAssignLhs, mode, moveState.moved, isUnreachable))
        decreases arg
      {
        ghost var moved := moveState.moved;
        var a := CheckArg(arg.head);
        ArgStep(uses, arg, isAssignLhs, mode, moved, a, moveState.moved);
        uses := uses + a;
        arg := arg.tail;
      }
    }

    /** The uses met so far come before those of the arguments that remain. */
    static ghost function Prefixed(uses: Log, rest: ExprResult): ExprResult {
      ExprResult(rest.cur, uses + rest.log)
    }

    lemma ArgStep(uses: Log, arg: List<Expr>, lhs: bool, mode: Mode, moved: set<Name>, a: Log, now: set<Name>)
      requires arg.Cons?
      requires var r := MoveSpec.CheckExpr(arg.head, own, lhs, mode, moved, isUnreachable);
               now == r.cur + Taken(arg.head, own) && a == r.log
      ensures Prefixed(uses, MoveSpec.CheckArgs(arg, own, lhs, mode, moved, isUnreachable)) ==
              Prefixed(uses + a, MoveSpec.CheckArgs(arg.tail, own, lhs, mode, now, isUnreachable))
    {
      var more := MoveSpec.CheckArgs(arg.tail, own, lhs, mode, now, isUnreachable).log;
      assert uses + (a + more) == uses + a + more;
    }

    /** One argument: used, then moved. */
    method CheckArg(arg: Expr) returns (uses: Log)
      requires Valid()
      modifies this`isAssignLhs, moveState.repr
      ensures Valid() && isAssignLhs == old(isAssignLhs) && ModeOf() == old(ModeOf())
      ensures old(moveState.repr) <= moveState.repr && fresh(moveState.repr - old(moveState.repr))
      ensures var r := MoveSpec.CheckExpr(arg, own, old(isAssignLhs), old(ModeOf()), old(moveState.moved), isUnreachable);
              moveState.moved == r.cur + Taken(arg, own) && uses == r.log
      decreases arg, 2
    {
      uses := CheckExpr(arg);
      CheckMoveForRvalue(arg);
    }

    method CheckOptExpr(e: Option<Expr>) returns (uses: Log)
      requires Valid() && !isAssignLhs
      modifies this`isAssignLhs, moveState.repr
      ensures Valid() && !isAssignLhs
      ensures old(moveState.repr) <= moveState.repr && fresh(moveState.repr - old(moveState.repr))
      ensures ExprResult(moveState.moved, uses) ==
              MoveSpec.CheckOptExpr(e, own, old(ModeOf()), old(moveState.moved), isUnreachable)
    {
      uses := [];
      if e.Some? {
        uses := CheckExpr(e.value);
      }
    }

    // ---------- statements ----------

    /** `s`, the state that was current before a statement, is still whole: it is current
        again, or it shares nothing with the current one; nor does it with those of the loop. */
    ghost predicate Kept(s: MoveState)
      reads this, moveState, loop, s, s.repr
    {
      Whole(s) && s.repr !! loop.repr
    }

    ghost predicate Whole(s: MoveState)
      reads this, moveState, s, s.repr
    {
      s.Valid() && this !in s.repr && (s != moveState ==> s.repr !! moveState.repr)
    }

    /** `check_node`, for statements. */
    method CheckStmt(s: Stmt) returns (uses: Log)
      requires Valid() && !isAssignLhs
      modifies this, moveState.repr, loop.repr
      ensures Valid() && !isAssignLhs && ModeOf() == old(ModeOf()) && loop == old(loop) && fresh(loop.repr - old(loop.repr))
      ensures Result(Abs(), old(moveState).moved, moveState != old(moveState), uses) == Check(s, own, old(ModeOf()), old(Abs()))
      ensures Kept(old(moveState)) && fresh(old(moveState).repr - old(moveState.repr))
      ensures fresh(moveState.repr - old(moveState.repr))
      decreases s, 6
    {
      match s
      case VarDecl(_, _, _) => uses := CheckVarDecl(s);
      case ExprStmt(e) => uses := CheckExpr(e);
      case Assert(e) => uses := CheckExpr(e);
      case Block(ss) => uses := CheckBlock(ss);
      case If(_, _, _) => uses := CheckIf(s);
      case Match(_, _) => uses := CheckMatch(s);
      case While(_, _, _) => uses := CheckLoopPasses(s);
      case Loop(_, _) => uses := CheckLoopPasses(s);
      case For(_, _, _, _, _) => uses := CheckLoopPasses(s);
      case ForRange(_, _, _, _, _, _) => uses := CheckLoopPasses(s);
      case Break(_) =>
        uses := [];
        CheckBreak();
      case Continue(_) =>
        uses := [];
        CheckContinue();
      case Return(e) =>
        uses := CheckOptExpr(e);
        isUnreachable := true;
    }

    /** NODE_BREAK: a second pass, like every pass inside it, records nothing. */
    method CheckBreak()
      requires Valid()
      modifies this`isUnreachable, loop.repr
      ensures Valid() && fresh(loop.repr - old(loop.repr)) && ModeOf() == old(ModeOf())
      ensures Abs() == old(Abs()).(dead := true, brk := if moveChecksOnly then old(loop.brk) else Merged(old(loop.brk), moveState.moved))
      ensures moveState.moved == old(moveState.moved) && moveState.repr == old(moveState.repr)
    {
      if !moveChecksOnly {
        loop.CollectBreak(moveState);
      }
      isUnreachable := true;
    }

    /** NODE_CONTINUE. */
    method CheckContinue()
      requires Valid()
      modifies this`isUnreachable, loop.repr
      ensures Valid() && fresh(loop.repr - old(loop.repr)) && ModeOf() == old(ModeOf())
      ensures Abs() == old(Abs()).(dead := true, cont := Merged(old(loop.cont), moveState.moved))
      ensures moveState.moved == old(moveState.moved) && moveState.repr == old(moveState.repr)
    {
      loop.CollectContinue(moveState);
      isUnreachable := true;
    }

    /** The move part of `check_var_decl`: the initialiser is used and moved, the new variable is valid. */
    method CheckVarDecl(s: Stmt) returns (uses: Log)
      requires Valid() && !isAssignLhs && s.VarDecl?
      modifies this`isAssignLhs, moveState.repr
      ensures Valid() && !isAssignLhs
      ensures old(moveState.repr) <= moveState.repr && fresh(moveState.repr - old(moveState.repr))
      ensures var st := State(old(moveState.moved), isUnreachable, None, None);
              Result(st.(cur := moveState.moved), moveState.moved, false, uses) == Check(s, own, old(ModeOf()), st)
    {
      uses := CheckOptExpr(s.init);
      if s.init.Some? {
        CheckMoveForRvalue(s.init.value);
      }
      moveState.MarkValid(s.name, 0);
    }

    /** `check_block`: the statements in order. */
    method CheckBlock(ss: List<Stmt>) returns (uses: Log)
      requires Valid() && !isAssignLhs
      modifies this, moveState.repr, loop.repr
      ensures Valid() && !isAssignLhs && ModeOf() == old(ModeOf()) && loop == old(loop) && fresh(loop.repr - old(loop.repr))
      ensures Result(Abs(), old(moveState).moved, moveState != old(moveState), uses) == CheckList(ss, own, old(ModeOf()), old(Abs()))
      ensures Kept(old(moveState)) && fresh(old(moveState).repr - old(moveState.repr))
      ensures fresh(moveState.repr - old(moveState.repr))
      decreases ss, 9
    {
      uses := [];
      var stmt := ss;
      ghost var initial, mode := moveState, ModeOf();
      ghost var acc := InPlace(Abs(), ExprResult(moveState.moved, []));
      ghost var all := CheckList(ss, own, mode, Abs());
      while stmt.Cons?
        invariant Valid() && !isAssignLhs && ModeOf() == mode && loop == old(loop) && fresh(loop.repr - old(loop.repr))
        invariant Kept(initial) && fresh(initial.repr - old(moveState.repr))
        invariant fresh(moveState.repr - old(moveState.repr))
        invariant stmt == ss || stmt < ss
        invariant acc == Result(Abs(), initial.moved, moveState != initial, uses)
        invariant all == Chain(acc, CheckList(stmt, own, mode, acc.st))
        decreases stmt
      {
        ghost var step := Check(stmt.head, own, mode, acc.st);
        ChainAssoc(acc, step, CheckList(stmt.tail, own, mode, step.st));
        var a := CheckStmt(stmt.head);
        uses := uses + a;
        acc := Chain(acc, step);
        stmt := stmt.tail;
      }
    }

    /** Checks `s` from a clone of `initial`, which stays as it is. */
    method CheckOnClone(s: Stmt, initial: MoveState, unreachable: bool) returns (uses: Log)
      requires LoopReady() && initial.Valid() && this !in initial.repr && initial.repr !! loop.repr && !isAssignLhs
      modifies this, loop.repr
      ensures Valid() && fresh(moveState.repr) && !isAssignLhs && ModeOf() == old(ModeOf())
      ensures loop == old(loop) && fresh(loop.repr - old(loop.repr))
      ensures var r := Check(s, own, old(ModeOf()), State(initial.moved, unreachable, old(loop.brk), old(loop.cont)));
              Abs() == r.st && uses == r.log
      decreases s, 7
    {
      moveState := initial.Clone();
      isUnreachable := unreachable;
      uses := CheckStmt(s);
    }

    /** The else branch, if any; without one the state before the branches stands for it. */
    method CheckElseBranch(e: Option<Stmt>, initial: MoveState, unreachable: bool) returns (uses: Log, after: MoveState)
      requires LoopReady() && initial.Valid() && this !in initial.repr && initial.repr !! loop.repr && !isAssignLhs
      modifies this, loop.repr
      ensures !isAssignLhs && ModeOf() == old(ModeOf()) && loop == old(loop) && LoopReady() && fresh(loop.repr - old(loop.repr))
      ensures after.Valid() && this !in after.repr && after.repr !! loop.repr && (after == initial || fresh(after.repr))
      ensures var r := CheckOpt(e, own, old(ModeOf()), State(initial.moved, unreachable, old(loop.brk), old(loop.cont)));
              r.st == State(after.moved, isUnreachable, loop.brk, loop.cont) && uses == r.log
      decreases e, 8
    {
      if e.Some? {
        uses := CheckOnClone(e.value, initial, unreachable);
        after := moveState;
      } else {
        uses, after, isUnreachable := [], initial, unreachable;
      }
    }

    /** Both branches of an `if`, each from a clone of the state before them. */
    method CheckBothBranches(s: Stmt, initial: MoveState)
      returns (uses: Log, afterThen: MoveState, thenUnreachable: bool, afterElse: MoveState)
      requires s.If? && LoopReady() && initial.Valid() && this !in initial.repr && initial.repr !! loop.repr && !isAssignLhs
      modifies this, loop.repr
      ensures !isAssignLhs && ModeOf() == old(ModeOf()) && loop == old(loop) && LoopReady() && fresh(loop.repr - old(loop.repr))
      ensures afterThen.Valid() && fresh(afterThen.repr)
      ensures afterElse.Valid() && this !in afterElse.repr && (afterElse == initial || fresh(afterElse.repr))
      ensures var st := State(initial.moved, old(isUnreachable), old(loop.brk), old(loop.cont));
              var rt := Check(s.thenBody, own, old(ModeOf()), st);
              var re := CheckOpt(s.elseBody, own, old(ModeOf()), st.(brk := rt.st.brk, cont := rt.st.cont));
              afterThen.moved == rt.st.cur && thenUnreachable == rt.st.dead && uses == rt.log + re.log &&
              State(afterElse.moved, isUnreachable, loop.brk, loop.cont) == re.st
      decreases s, 0
    {
      var initialUnreachable := isUnreachable;
      var a := CheckOnClone(s.thenBody, initial, initialUnreachable);
      afterThen, thenUnreachable := moveState, isUnreachable;
      var b;
      b, afterElse := CheckElseBranch(s.elseBody, initial, initialUnreachable);
      uses := a + b;
    }

    /** The state before an `if` absorbs the states of those branches that can be passed. */
    method CheckBranches(s: Stmt) returns (uses: Log)
      requires Valid() && !isAssignLhs && s.If?
      modifies this, moveState.repr, loop.repr
      ensures Valid() && !isAssignLhs && ModeOf() == old(ModeOf()) && loop == old(loop) && fresh(loop.repr - old(loop.repr))
      ensures moveState == old(moveState) && fresh(moveState.repr - old(moveState.repr))
      ensures var rt := Check(s.thenBody, own, old(ModeOf()), old(Abs()));
              var re := CheckOpt(s.elseBody, own, old(ModeOf()), old(Abs()).(brk := rt.st.brk, cont := rt.st.cont));
              Abs() == State(Joined(old(moveState.moved), rt.st, re.st), rt.st.dead && re.st.dead, re.st.brk, re.st.cont) &&
              uses == rt.log + re.log
      decreases s, 1
    {
      var initial := moveState;
      var afterThen, thenUnreachable, afterElse;
      uses, afterThen, thenUnreachable, afterElse := CheckBothBranches(s, initial);
      Rejoin(initial, afterThen, thenUnreachable, afterElse);
    }

    /** The state before an `if` is current again, joined with those after its branches. */
    method Rejoin(initial: MoveState, afterThen: MoveState, thenUnreachable: bool, afterElse: MoveState)
      requires LoopReady() && initial.Valid() && this !in initial.repr && initial.repr !! loop.repr
      requires afterThen.Valid() && afterThen.repr !! initial.repr
      requires afterElse.Valid() && (afterElse == initial || afterElse.repr !! initial.repr)
      modifies this`moveState, this`isUnreachable, initial.repr
      ensures Valid() && moveState == initial && isUnreachable == (thenUnreachable && old(isUnreachable))
      ensures fresh(moveState.repr - old(initial.repr))
      ensures loop.repr == old(loop.repr) && loop.brk == old(loop.brk) && loop.cont == old(loop.cont) && loop.start == old(loop.start)
      ensures moveState.moved == old(initial.moved) + (if thenUnreachable then {} else old(afterThen.moved)) +
                                 (if old(isUnreachable) then {} else old(afterElse.moved))
    {
      Join(initial, afterThen, thenUnreachable, afterElse, isUnreachable);
      moveState := initial;
      isUnreachable := thenUnreachable && isUnreachable;
    }

    method CheckIf(s: Stmt) returns (uses: Log)
      requires Valid() && !isAssignLhs && s.If?
      modifies this, moveState.repr, loop.repr
      ensures Valid() && !isAssignLhs && ModeOf() == old(ModeOf()) && loop == old(loop) && fresh(loop.repr - old(loop.repr))
      ensures Result(Abs(), old(moveState).moved, moveState != old(moveState), uses) == Check(s, own, old(ModeOf()), old(Abs()))
      ensures Kept(old(moveState)) && fresh(old(moveState).repr - old(moveState.repr))
      ensures fresh(moveState.repr - old(moveState.repr))
      decreases s, 2
    {
      var a := CheckExpr(s.cond);
      var b := CheckBranches(s);
      uses := a + b;
    }

    /** One arm of a match, from a clone of the state before the match; its final state is
        merged into `merged` if the arm can be passed. */
    method CheckArm(body: Stmt, initial: MoveState, unreachable: bool, merged: MoveState?) returns (uses: Log, r: MoveState?)
      requires LoopReady() && initial.Valid() && this !in initial.repr && initial.repr !! loop.repr
      requires !isAssignLhs && ValidOpt(merged) && this !in ReprOf(merged)
      requires ReprOf(merged) !! loop.repr && ReprOf(merged) !! initial.repr
      modifies this, ReprOf(merged), loop.repr
      ensures !isAssignLhs && ModeOf() == old(ModeOf()) && loop == old(loop) && LoopReady() && fresh(loop.repr - old(loop.repr))
      ensures ValidOpt(r) && this !in ReprOf(r) && ReprOf(r) !! loop.repr
      ensures fresh(ReprOf(r) - old(ReprOf(merged)))
      ensures var res := Check(body, own, old(ModeOf()), State(old(initial.moved), unreachable, old(loop.brk), old(loop.cont)));
              isUnreachable == res.st.dead && loop.brk == res.st.brk && loop.cont == res.st.cont && uses == res.log &&
              OptMoved(r) == if res.st.dead then old(OptMoved(merged)) else Merged(old(OptMoved(merged)), res.st.cur)
      decreases body, 8
    {
      uses := CheckOnClone(body, initial, unreachable);
      r := merged;
      if !isUnreachable {
        r := MergeInto(merged, moveState);
      }
    }

    /** What an arm adds to what was found in the arms before it. */
    method AddArmOf(body: Stmt, initial: MoveState, unreachable: bool, merged: MoveState?, before: Log, allUnreachable: bool,
                    ghost acc: ArmsState) returns (uses: Log, r: MoveState?, all: bool)
      requires LoopReady() && initial.Valid() && this !in initial.repr && initial.repr !! loop.repr
      requires !isAssignLhs && ValidOpt(merged) && this !in ReprOf(merged)
      requires ReprOf(merged) !! loop.repr && ReprOf(merged) !! initial.repr
      requires acc == ArmsState(OptMoved(merged), allUnreachable, loop.brk, loop.cont, before)
      modifies this, ReprOf(merged), loop.repr
      ensures !isAssignLhs && ModeOf() == old(ModeOf()) && loop == old(loop) && LoopReady() && fresh(loop.repr - old(loop.repr))
      ensures ValidOpt(r) && this !in ReprOf(r) && ReprOf(r) !! loop.repr
      ensures fresh(ReprOf(r) - old(ReprOf(merged)))
      ensures ArmsState(OptMoved(r), all, loop.brk, loop.cont, uses) ==
              AddArm(acc, Check(body, own, old(ModeOf()), State(old(initial.moved), unreachable, acc.brk, acc.cont)))
      decreases body, 9
    {
      var a;
      a, r := CheckArm(body, initial, unreachable, merged);
      uses, all := before + a, allUnreachable && isUnreachable;
    }

    /** The walk over the arms of a match.  Without a default arm the state before the match
        is merged in as well. */
    method CheckArms(cases: List<Case>, initial: MoveState, before: Log) returns (uses: Log, merged: MoveState?, allUnreachable: bool)
      requires LoopReady() && initial.Valid() && this !in initial.repr && initial.repr !! loop.repr && !isAssignLhs
      modifies this, loop.repr
      ensures !isAssignLhs && ModeOf() == old(ModeOf()) && loop == old(loop) && LoopReady() && fresh(loop.repr - old(loop.repr))
      ensures ValidOpt(merged) && this !in ReprOf(merged) && ReprOf(merged) !! loop.repr && fresh(ReprOf(merged))
      ensures var st := State(initial.moved, old(isUnreachable), old(loop.brk), old(loop.cont));
              var r := CheckCases(cases, own, old(ModeOf()), st, ArmsState(None, true, st.brk, st.cont, before));
              uses == r.log && loop.brk == r.brk && loop.cont == r.cont && allUnreachable == (r.allDead && HasDefault(cases)) &&
              OptMoved(merged) == if HasDefault(cases) then r.merged else Merged(r.merged, initial.moved)
      decreases cases, 9
    {
      var initialUnreachable, hasDefault, arm := isUnreachable, false, cases;
      uses, merged, allUnreachable := before, null, true;
      ghost var mode, st := ModeOf(), State(initial.moved, isUnreachable, loop.brk, loop.cont);
      ghost var acc := ArmsState(None, true, loop.brk, loop.cont, before);
      ghost var all := CheckCases(cases, own, mode, st, acc);
      while arm.Cons?
        invariant !isAssignLhs && ModeOf() == mode && loop == old(loop) && LoopReady() && fresh(loop.repr - old(loop.repr))
        invariant initial.Valid() && initial.moved == st.cur && initial.repr !! loop.repr
        invariant ValidOpt(merged) && this !in ReprOf(merged) && ReprOf(merged) !! loop.repr && fresh(ReprOf(merged))
        invariant arm == cases || arm < cases
        invariant HasDefault(cases) == (hasDefault || HasDefault(arm))
        invariant acc == ArmsState(OptMoved(merged), allUnreachable, loop.brk, loop.cont, uses)
        invariant all == CheckCases(arm, own, mode, st, acc)
        decreases arm
      {
        hasDefault := hasDefault || arm.head.isDefault;
        ghost var was := acc;
        acc := AddArm(acc, Check(arm.head.body, own, mode, st.(brk := acc.brk, cont := acc.cont)));
        uses, merged, allUnreachable := AddArmOf(arm.head.body, initial, initialUnreachable, merged, uses, allUnreachable, was);
        arm := arm.tail;
      }
      allUnreachable := allUnreachable && hasDefault;
      merged := MergeUnmatched(hasDefault, merged, initial);
    }

    method MergeUnmatched(hasDefault: bool, merged: MoveState?, initial: MoveState) returns (r: MoveState?)
      requires LoopReady() && ValidOpt(merged) && this !in ReprOf(merged) && ReprOf(merged) !! loop.repr
      requires initial.Valid() && initial.repr !! ReprOf(merged)
      modifies ReprOf(merged)
      ensures LoopReady() && loop.repr == old(loop.repr) && loop.brk == old(loop.brk) && loop.cont == old(loop.cont)
      ensures loop.start == old(loop.start)
      ensures ValidOpt(r) && this !in ReprOf(r) && ReprOf(r) !! loop.repr && fresh(ReprOf(r) - old(ReprOf(merged)))
      ensures OptMoved(r) == if hasDefault then old(OptMoved(merged)) else Merged(old(OptMoved(merged)), initial.moved)
    {
      r := merged;
      if !hasDefault {
        r := MergeInto(merged, initial);
      }
    }

    /** NODE_MATCH: the state after it is the new, merged one, if there is one. */
    method CheckMatch(s: Stmt) returns (uses: Log)
      requires Valid() && !isAssignLhs && s.Match?
      modifies this, moveState.repr, loop.repr
      ensures Valid() && !isAssignLhs && ModeOf() == old(ModeOf()) && loop == old(loop) && fresh(loop.repr - old(loop.repr))
      ensures Result(Abs(), old(moveState).moved, moveState != old(moveState), uses) == Check(s, own, old(ModeOf()), old(Abs()))
      ensures Kept(old(moveState)) && fresh(old(moveState).repr - old(moveState.repr))
      ensures fresh(moveState.repr - old(moveState.repr))
      decreases s, 2
    {
      var a := CheckExpr(s.scrutinee);
      uses := MatchArms(s.cases, a);
    }

    /** The arms, and the swap: the merged state, if there is one, becomes current. */
    method MatchArms(cases: List<Case>, before: Log) returns (uses: Log)
      requires Valid() && !isAssignLhs
      modifies this, loop.repr
      ensures Valid() && !isAssignLhs && ModeOf() == old(ModeOf()) && loop == old(loop) && fresh(loop.repr - old(loop.repr))
      ensures var st := old(Abs());
              var r := CheckCases(cases, own, old(ModeOf()), st, ArmsState(None, true, st.brk, st.cont, before));
              var merged := if HasDefault(cases) then r.merged else Merged(r.merged, st.cur);
              Abs() == State(if merged.Some? then merged.value else st.cur, r.allDead && HasDefault(cases), r.brk, r.cont) &&
              uses == r.log && (moveState != old(moveState)) == merged.Some?
      ensures Kept(old(moveState)) && old(moveState).moved == old(moveState.moved) && old(moveState).repr == old(moveState.repr)
      ensures moveState == old(moveState) || fresh(moveState.repr)
      decreases cases, 10
    {
      var initial := moveState;
      var merged, allUnreachable;
      uses, merged, allUnreachable := CheckArms(cases, initial, before);
      moveState := if merged != null then merged else initial;
      isUnreachable := allUnreachable;
    }

    // ---------- loops ----------

    method CheckOptStmt(e: Option<Stmt>) returns (uses: Log)
      requires Valid() && !isAssignLhs
      modifies this, moveState.repr, loop.repr
      ensures Valid() && !isAssignLhs && ModeOf() == old(ModeOf()) && loop == old(loop) && fresh(loop.repr - old(loop.repr))
      ensures Result(Abs(), old(moveState).moved, moveState != old(moveState), uses) == CheckOpt(e, own, old(ModeOf()), old(Abs()))
      ensures Kept(old(moveState)) && fresh(old(moveState).repr - old(moveState.repr))
      ensures fresh(moveState.repr - old(moveState.repr))
      decreases e, 8
    {
      uses := [];
      if e.Some? {
        uses := CheckStmt(e.value);
      }
    }

    /** What happens once, before the iterations: the first clause of a `for`, the bounds of a range. */
    method SetUpLoop(s: Stmt) returns (uses: Log)
      requires Valid() && !isAssignLhs && IsLoop(s)
      modifies this, moveState.repr, loop.repr
      ensures Valid() && !isAssignLhs && ModeOf() == old(ModeOf()) && loop == old(loop) && fresh(loop.repr - old(loop.repr))
      ensures Result(Abs(), old(moveState).moved, moveState != old(moveState), uses) == LoopSetup(s, own, old(ModeOf()), old(Abs()))
      ensures Kept(old(moveState)) && fresh(old(moveState).repr - old(moveState.repr))
      ensures fresh(moveState.repr - old(moveState.repr))
      decreases s, 0
    {
      uses := [];
      match s
      case For(_, init, _, _, _) => uses := CheckOptStmt(init);
      case ForRange(_, _, lo, hi, _, _) =>
        var a := CheckExpr(lo);
        var b := CheckExpr(hi);
        uses := a + b;
      case _ =>
    }

    /** The body and the step of one pass. */
    method PassTail(s: Stmt) returns (uses: Log)
      requires Valid() && !isAssignLhs && IsLoop(s)
      modifies this, moveState.repr, loop.repr
      ensures Valid() && !isAssignLhs && ModeOf() == old(ModeOf()) && loop == old(loop) && fresh(loop.repr - old(loop.repr))
      ensures Result(Abs(), old(moveState).moved, moveState != old(moveState), uses) == PassRest(s, own, old(ModeOf()), old(Abs()))
      ensures Kept(old(moveState)) && fresh(old(moveState).repr - old(moveState.repr))
      ensures fresh(moveState.repr - old(moveState.repr))
      decreases s, 0
    {
      uses := [];
      if LoopBody(s).Some? {
        uses := CheckStmt(LoopBody(s).value);
      }
      var b := CheckOptExpr(LoopStep(s));
      uses := uses + b;
    }

    /** One pass over the test, the body and the step of a loop. */
    method PassOnce(s: Stmt) returns (uses: Log)
      requires Valid() && !isAssignLhs && IsLoop(s)
      modifies this, moveState.repr, loop.repr
      ensures Valid() && !isAssignLhs && ModeOf() == old(ModeOf()) && loop == old(loop) && fresh(loop.repr - old(loop.repr))
      ensures Result(Abs(), old(moveState).moved, moveState != old(moveState), uses) == LoopPass(s, own, old(ModeOf()), old(Abs()))
      ensures Kept(old(moveState)) && fresh(old(moveState).repr - old(moveState.repr))
      ensures fresh(moveState.repr - old(moveState.repr))
      decreases s, 1
    {
      PassInParts(s, own, ModeOf(), Abs());
      var a := CheckOptExpr(LoopTest(s));
      var b := PassTail(s);
      uses := a + b;
    }

    /** Enters a loop: its states are new ones, there is no silence, the start is taken as reachable;
        then the set-up runs, and what it moved belongs to the start of the loop. */
    method EnterLoop(s: Stmt) returns (uses: Log)
      requires Valid() && !isAssignLhs && IsLoop(s)
      modifies this, moveState.repr
      ensures Valid() && !isAssignLhs && fresh(loop.repr) && ModeOf() == Mode(false, Some(moveState.moved), old(moveChecksOnly))
      ensures Kept(old(moveState)) && fresh(old(moveState).repr - old(moveState.repr))
      ensures fresh(moveState.repr - old(moveState.repr))
      ensures Result(Abs(), old(moveState).moved, moveState != old(moveState), uses) ==
              LoopSetup(s, own, Mode(false, Some(old(moveState.moved)), old(moveChecksOnly)),
                        State(old(moveState.moved), false, None, None))
      decreases s, 1
    {
      BeginLoop();
      uses := SetUpLoop(s);
      if s.For? || s.ForRange? {
        RecordStart();
      }
    }

    method BeginLoop()
      requires Valid()
      modifies this`loop, this`inLoopPass2, this`isUnreachable
      ensures Valid() && fresh(loop.repr)
      ensures ModeOf() == Mode(false, Some(moveState.moved), moveChecksOnly) && Abs() == State(moveState.moved, false, None, None)
    {
      loop := new LoopStates(moveState);
      inLoopPass2, isUnreachable := false, false;
    }

    method RecordStart()
      requires Valid()
      modifies loop
      ensures Valid() && fresh(loop.repr - old(loop.repr))
      ensures ModeOf() == old(ModeOf()).(start := Some(moveState.moved)) && Abs() == old(Abs())
    {
      loop.RecordStart(moveState);
    }

    /** The first pass, from the recorded start of the loop. */
    method FirstPart(s: Stmt) returns (uses: Log)
      requires Valid() && !isAssignLhs && IsLoop(s)
      modifies this, moveState.repr
      ensures Valid() && !isAssignLhs && fresh(loop.repr) && moveChecksOnly == old(moveChecksOnly)
      ensures Kept(old(moveState)) && fresh(old(moveState).repr - old(moveState.repr))
      ensures fresh(moveState.repr - old(moveState.repr))
      ensures var o := LoopSetup(s, own, Mode(false, Some(old(moveState.moved)), old(moveChecksOnly)),
                        State(old(moveState.moved), false, None, None));
              var r := Chain(o, LoopPass(s, own, Mode(false, Some(o.st.cur), old(moveChecksOnly)), o.st));
              loop.start == Some(o.st.cur) && Result(Abs(), old(moveState).moved, moveState != old(moveState), uses) == r
      decreases s, 2
    {
      var a := EnterLoop(s);
      var b := PassOnce(s);
      uses := a + b;
    }

    /** The state of the next iteration, from the end of the first pass and its continues. */
    method NextIterState() returns (next: MoveState?)
      requires Valid()
      ensures Valid() && ValidOpt(next) && fresh(ReprOf(next))
      ensures OptMoved(next) == MergedOpt(if isUnreachable then None else Some(moveState.moved), loop.cont)
    {
      next := null;
      if !isUnreachable {
        next := MergeInto(next, moveState);
      }
      if loop.continueState != null {
        next := MergeInto(next, loop.continueState);
      }
    }

    /** The second pass, from a clone of the next-iteration state. */
    method SecondPart(s: Stmt, next: MoveState) returns (uses: Log)
      requires LoopReady() && next.Valid() && this !in next.repr && next.repr !! loop.repr
      requires !isAssignLhs && IsLoop(s) && loop.start.Some?
      modifies this, loop.repr
      ensures !isAssignLhs && moveChecksOnly == old(moveChecksOnly) && loop == old(loop) && LoopReady() && fresh(loop.repr - old(loop.repr))
      ensures var r := LoopPass(s, own, SecondMode(old(loop.start).value), State(next.moved, false, None, None));
              uses == r.log && loop.brk == r.st.brk
      decreases s, 2, 0
    {
      var prevMoveChecksOnly := moveChecksOnly;
      BeginSecondPass(next);
      uses := PassOnce(s);
      moveChecksOnly := prevMoveChecksOnly;
    }

    method BeginSecondPass(next: MoveState)
      requires LoopReady() && next.Valid() && this !in next.repr && next.repr !! loop.repr
      modifies this`moveChecksOnly, this`inLoopPass2, this`moveState, this`isUnreachable, loop
      ensures Valid() && fresh(moveState.repr) && loop.repr == old(loop.repr)
      ensures ModeOf() == Mode(true, old(loop.start), true) && Abs() == State(next.moved, false, None, None)
    {
      StartOver(next);
      moveState := next.Clone();
      moveChecksOnly, inLoopPass2, isUnreachable := true, true, false;
    }

    method StartOver(ghost next: MoveState)
      requires LoopReady() && next.Valid() && next.repr !! loop.repr
      modifies loop
      ensures LoopReady() && next.Valid() && next.moved == old(next.moved) && next.repr == old(next.repr)
      ensures loop.repr == old(loop.repr) && loop.start == old(loop.start) && loop.brk == None && loop.cont == None
    {
      loop.StartOver();
    }

    method SecondIfAny(s: Stmt, next: MoveState?) returns (uses: Log)
      requires LoopReady() && ValidOpt(next) && this !in ReprOf(next) && ReprOf(next) !! loop.repr
      requires !isAssignLhs && IsLoop(s) && loop.start.Some?
      modifies this, loop.repr
      ensures !isAssignLhs && moveChecksOnly == old(moveChecksOnly) && loop == old(loop) && LoopReady() && fresh(loop.repr - old(loop.repr))
      ensures var r := SecondPass(s, own, old(loop.start).value, OptMoved(next));
              uses == r.log && loop.brk == if next != null then r.st.brk else old(loop.brk)
      decreases s, 2, 1
    {
      uses := [];
      if next != null {
        uses := SecondPart(s, next);
      }
    }

    /** The state after a loop, if the loop can be left: the next-iteration state, because the
        test may fail there, and the state collected at the breaks. */
    method FinalState(s: Stmt, next: MoveState?) returns (final: MoveState?)
      requires LoopReady() && ValidOpt(next)
      ensures LoopReady() && ValidOpt(final) && fresh(ReprOf(final))
      ensures OptMoved(final) == MergedOpt(if s.Loop? then None else OptMoved(next), loop.brk)
    {
      final := null;
      if next != null && !s.Loop? {
        final := MergeInto(final, next);
      }
      if loop.breakState != null {
        final := MergeInto(final, loop.breakState);
      }
    }

    /** Leaves a loop: the final state, or the one before the loop, becomes current.  `brk` and
        `next` are what was collected; `first` and `second` are the analyses of the passes. */
    method LeaveLoop(s: Stmt, initial: MoveState, initialUnreachable: bool, next: MoveState?, ghost st: State, ghost first: Result,
                     ghost brk: Option<set<Name>>, ghost second: Result)
      requires LoopReady() && initial.Valid() && this !in initial.repr && initial.repr !! loop.repr && ValidOpt(next) && IsLoop(s)
      requires first.entry == initial.moved && st.dead == initialUnreachable
      requires loop.brk == if next != null then second.st.brk else brk
      modifies this`moveState, this`isUnreachable
      ensures Valid() && (moveState == initial || fresh(moveState.repr))
      ensures var res := LoopExit(s.Loop?, st, first, brk, OptMoved(next), second);
              isUnreachable == res.st.dead && (moveState != initial) == res.swapped && moveState.moved == res.st.cur
    {
      ghost var res := LoopExit(s.Loop?, st, first, brk, OptMoved(next), second);
      var final := FinalState(s, next);
      assert res.swapped == (final != null) && res.st.cur == if final != null then final.moved else initial.moved;
      isUnreachable := final == null && (s.Loop? || initialUnreachable);
      moveState := if final != null then final else initial;
    }

    /** Everything after the first pass; `initial` is the state object that was current
        before the loop and `initialUnreachable` its reachability. */
    method Rest(s: Stmt, initial: MoveState, initialUnreachable: bool, ghost st: State, ghost first: Result) returns (uses: Log)
      requires Valid() && Kept(initial) && !isAssignLhs && IsLoop(s) && loop.start.Some?
      requires first.st == Abs() && first.entry == initial.moved && st.dead == initialUnreachable
      modifies this, loop.repr
      ensures Valid() && !isAssignLhs && moveChecksOnly == old(moveChecksOnly)
      ensures moveState == initial || fresh(moveState.repr)
      ensures var second := SecondPass(s, own, old(loop.start).value, NextIter(first));
              var res := LoopExit(s.Loop?, st, first, first.st.brk, NextIter(first), second);
              isUnreachable == res.st.dead && (moveState != initial) == res.swapped && moveState.moved == res.st.cur && uses == second.log
      decreases s, 3
    {
      ghost var second := SecondPass(s, own, loop.start.value, NextIter(first));
      var next := NextIterState();
      uses := SecondAndExit(s, initial, initialUnreachable, next, st, first, second);
    }

    method SecondAndExit(s: Stmt, initial: MoveState, initialUnreachable: bool, next: MoveState?, ghost st: State, ghost first: Result,
                         ghost second: Result) returns (uses: Log)
      requires LoopReady() && initial.Valid() && this !in initial.repr && initial.repr !! loop.repr
      requires ValidOpt(next) && this !in ReprOf(next) && ReprOf(next) !! loop.repr
      requires !isAssignLhs && IsLoop(s) && loop.start.Some?
      requires first.st.brk == loop.brk && first.entry == initial.moved && st.dead == initialUnreachable
      requires second == SecondPass(s, own, loop.start.value, OptMoved(next))
      modifies this, loop.repr
      ensures Valid() && !isAssignLhs && moveChecksOnly == old(moveChecksOnly)
      ensures moveState == initial || fresh(moveState.repr)
      ensures var res := LoopExit(s.Loop?, st, first, first.st.brk, old(OptMoved(next)), second);
              isUnreachable == res.st.dead && (moveState != initial) == res.swapped && moveState.moved == res.st.cur && uses == second.log
      decreases s, 2, 2
    {
      uses := SecondIfAny(s, next);
      LeaveLoop(s, initial, initialUnreachable, next, st, first, first.st.brk, second);
    }

    /** Both passes and the exit; the states of the surrounding loop are left to the caller. */
    method BothPasses(s: Stmt) returns (uses: Log)
      requires Valid() && !isAssignLhs && IsLoop(s)
      modifies this, moveState.repr
      ensures moveState.Valid() && this !in moveState.repr && !isAssignLhs && moveChecksOnly == old(moveChecksOnly)
      ensures Result(old(Abs()).(cur := moveState.moved, dead := isUnreachable), old(moveState).moved, moveState != old(moveState), uses) ==
              Check(s, own, old(ModeOf()), old(Abs()))
      ensures Whole(old(moveState)) && fresh(old(moveState).repr - old(moveState.repr))
      ensures fresh(moveState.repr - old(moveState.repr))
      decreases s, 4
    {
      var initial, initialUnreachable := moveState, isUnreachable;
      ghost var mode, st := ModeOf(), Abs();
      var a := FirstPart(s);
      ghost var first := Result(Abs(), initial.moved, moveState != initial, a);
      LoopInTwoParts(s, own, mode, st, loop.start.value, first);
      var b := Rest(s, initial, initialUnreachable, st, first);
      uses := a + b;
    }

    /** `check_loop_passes`: the states of the surrounding loop are saved and put back. */
    method CheckLoopPasses(s: Stmt) returns (uses: Log)
      requires Valid() && !isAssignLhs && IsLoop(s)
      modifies this, moveState.repr
      ensures Valid() && !isAssignLhs && ModeOf() == old(ModeOf()) && loop == old(loop) && loop.repr == old(loop.repr)
      ensures Result(Abs(), old(moveState).moved, moveState != old(moveState), uses) == Check(s, own, old(ModeOf()), old(Abs()))
      ensures Kept(old(moveState)) && fresh(old(moveState).repr - old(moveState.repr))
      ensures fresh(moveState.repr - old(moveState.repr))
      decreases s, 5
    {
      var outer, outerPass2 := loop, inLoopPass2;
      uses := BothPasses(s);
      loop, inLoopPass2 := outer, outerPass2;
    }

    /** The states of the loop are whole and apart from the checker itself. */
    ghost predicate LoopReady()
      reads this, loop, loop.repr
    {
      loop.Valid() == true && this !in loop.repr
    }
  }

  /** The join after an `if`: only the states of branches that can be passed are merged. */
  method Join(initial: MoveState, afterThen: MoveState, thenUnreachable: bool, afterElse: MoveState, elseUnreachable: bool)
    requires initial.Valid() && afterThen.Valid() && afterElse.Valid()
    requires afterThen.repr !! initial.repr && (afterElse == initial || afterElse.repr !! initial.repr)
    modifies initial.repr
    ensures initial.Valid() && old(initial.repr) <= initial.repr && fresh(initial.repr - old(initial.repr))
    ensures initial.moved == old(initial.moved) + (if thenUnreachable then {} else old(afterThen.moved)) +
                             (if elseUnreachable then {} else old(afterElse.moved))
  {
    var a: MoveState? := if thenUnreachable then null else afterThen;
    var b: MoveState? := if elseUnreachable then null else afterElse;
    assert ValidOpt(a) && ReprOf(a) !! initial.repr;
    assert ValidOpt(b) && (b == initial || ReprOf(b) !! initial.repr);
    Merge(initial, a, b);
  }

  /** `check_function`, its move part: the body is checked from an empty move state.  If no
      use was reported in a body of the supported kind, no run of it uses a moved variable. */
  method CheckFunctionBody(body: Stmt, own: set<Name>, moveChecksOnly: bool, ghost params: set<Name>) returns (uses: Log)
    ensures uses == Check(body, own, Mode(false, None, moveChecksOnly), State({}, false, None, None)).log
    ensures Good(body, own, params) && Located(uses) && (forall i :: 0 <= i < |uses| ==> !uses[i].reported) ==>
            forall ch :: RunStmt(body, own, {}, ch).faults == []
  {
    var tc := new TypeChecker(own, moveChecksOnly);
    uses := tc.CheckStmt(body);
    if Good(body, own, params) && Located(uses) && forall i :: 0 <= i < |uses| ==> !uses[i].reported {
      forall ch ensures RunStmt(body, own, {}, ch).faults == [] {
        MoveSoundness.MoveSoundness(body, own, params, moveChecksOnly, ch);
      }
    }
  }
}
