/** The move analysis as a function of the syntax: what `check_node`, `check_block`,
    `check_var_decl` and `check_loop_passes` do to the set of MOVED paths.  The class in
    MoveChecker.dfy does the same on shared, mutable linked lists and is proved against it. */
module MoveSpec {
  import opened Ast
  import opened Runs

  /** One use of a variable met by the checker, in the order of the visits.
      `moved`: its path was MOVED.  `reported`: a use-after-move error was issued.
      `dead`: `is_unreachable` was set. */
  datatype Visit = Visit(name: Name, pos: nat, moved: bool, reported: bool, dead: bool)

  type Log = seq<Visit>

  /** `in_loop_pass2`, `loop_start_state` (its MOVED paths) and `move_checks_only`. */
  datatype Mode = Mode(pass2: bool, start: Option<set<Name>>, only: bool)

  /** The MOVED paths of the current state, `is_unreachable`, and the states collected
      from the breaks and continues of the innermost loop. */
  datatype State = State(cur: set<Name>, dead: bool, brk: Option<set<Name>>, cont: Option<set<Name>>)

  /** `entry`: the MOVED paths left in the state object that was current before the
      statement; `swapped`: another object is current after it. */
  datatype Result = Result(st: State, entry: set<Name>, swapped: bool, log: Log)

  datatype ExprResult = ExprResult(cur: set<Name>, log: Log)

  /** Merging a source state into a possibly absent target state. */
  function Merged(target: Option<set<Name>>, src: set<Name>): Option<set<Name>> {
    Some(if target.None? then src else target.value + src)
  }

  function MergedOpt(target: Option<set<Name>>, src: Option<set<Name>>): Option<set<Name>> {
    if src.None? then target else Merged(target, src.value)
  }

  /** The reporting rule of `check_path_validity`: the second pass over a loop body stays
      silent about paths MOVED before the loop and about unknown lines. */
  predicate Reports(x: Name, pos: nat, mode: Mode, cur: set<Name>) {
    x in cur && !(mode.pass2 && (pos == 0 || (mode.start.Some? && x in mode.start.value)))
  }

  function VisitOf(x: Name, pos: nat, mode: Mode, cur: set<Name>, dead: bool): Visit {
    Visit(x, pos, x in cur, Reports(x, pos, mode, cur), dead)
  }

  /** The end of an assignment: the right side is moved, then a variable on the left is valid again. */
  function Assigned(l: Expr, r: Expr, own: set<Name>, cur: set<Name>): set<Name> {
    (cur + Taken(r, own)) - (if l.Var? then {l.name} else {})
  }

  /** `lhs` is `is_assign_lhs`: variables read there are not checked. */
  function CheckExpr(e: Expr, own: set<Name>, lhs: bool, mode: Mode, cur: set<Name>, dead: bool): ExprResult
    decreases e
  {
    match e
    case Var(x, pos) => ExprResult(cur, if lhs then [] else [VisitOf(x, pos, mode, cur, dead)])
    case Binary(op, l, r) =>
      var a := CheckExpr(l, own, lhs || IsAssignment(op), mode, cur, dead);
      var b := CheckExpr(r, own, lhs, mode, a.cur, dead);
      ExprResult(if op.Set? then Assigned(l, r, own, b.cur) else b.cur, a.log + b.log)
    case Unary(_, o) => CheckExpr(o, own, lhs, mode, cur, dead)
    case Call(f, args, _) =>
      var a := CheckExpr(f, own, lhs, mode, cur, dead);
      var b := CheckArgs(args, own, lhs, mode, a.cur, dead);
      ExprResult(b.cur, a.log + b.log)
    case Index(l, r) =>
      var a := CheckExpr(l, own, lhs, mode, cur, dead);
      var b := CheckExpr(r, own, lhs, mode, a.cur, dead);
      ExprResult(b.cur, a.log + b.log)
    case Cast(o) => CheckExpr(o, own, lhs, mode, cur, dead)
    case _ => ExprResult(cur, [])
  }

  function CheckArgs(args: List<Expr>, own: set<Name>, lhs: bool, mode: Mode, cur: set<Name>, dead: bool): ExprResult
    decreases args
  {
    match args
    case Nil => ExprResult(cur, [])
    case Cons(arg, tail) =>
      var a := CheckExpr(arg, own, lhs, mode, cur, dead);
      var b := CheckArgs(tail, own, lhs, mode, a.cur + Taken(arg, own), dead);
      ExprResult(b.cur, a.log + b.log)
  }

  function CheckOptExpr(e: Option<Expr>, own: set<Name>, mode: Mode, cur: set<Name>, dead: bool): ExprResult {
    match e
    case None => ExprResult(cur, [])
    case Some(x) => CheckExpr(x, own, false, mode, cur, dead)
  }

  /** An expression changes the current object in place. */
  function InPlace(st: State, a: ExprResult): Result {
    Result(st.(cur := a.cur), a.cur, false, a.log)
  }

  /** Two steps, one after the other. */
  function Chain(a: Result, b: Result): Result {
    Result(b.st, if a.swapped then a.entry else b.entry, a.swapped || b.swapped, a.log + b.log)
  }

  lemma ChainAssoc(a: Result, b: Result, c: Result)
    ensures Chain(Chain(a, b), c) == Chain(a, Chain(b, c))
  {
  }

  function Check(s: Stmt, own: set<Name>, mode: Mode, st: State): Result
    decreases s, 4
  {
    match s
    case VarDecl(x, init, _) =>
      var a := CheckOptExpr(init, own, mode, st.cur, st.dead);
      var taken := if init.Some? then Taken(init.value, own) else {};
      InPlace(st, ExprResult((a.cur + taken) - {x}, a.log))
    case ExprStmt(e) => InPlace(st, CheckExpr(e, own, false, mode, st.cur, st.dead))
    case Assert(e) => InPlace(st, CheckExpr(e, own, false, mode, st.cur, st.dead))
    case Block(ss) => CheckList(ss, own, mode, st)
    case If(c, t, e) =>
      var a := CheckExpr(c, own, false, mode, st.cur, st.dead);
      var st0 := st.(cur := a.cur);
      var rt := Check(t, own, mode, st0);
      var re := CheckOpt(e, own, mode, st0.(brk := rt.st.brk, cont := rt.st.cont));
      var joined := Joined(a.cur, rt.st, re.st);
      Result(State(joined, rt.st.dead && re.st.dead, re.st.brk, re.st.cont), joined, false, a.log + rt.log + re.log)
    case Match(e, cases) =>
      var a := CheckExpr(e, own, false, mode, st.cur, st.dead);
      var arms := CheckCases(cases, own, mode, st.(cur := a.cur), ArmsState(None, true, st.brk, st.cont, a.log));
      var merged := if HasDefault(cases) then arms.merged else Merged(arms.merged, a.cur);
      Result(State(if merged.Some? then merged.value else a.cur, arms.allDead && HasDefault(cases), arms.brk, arms.cont),
             a.cur, merged.Some?, arms.log)
    case While(_, _, _) => CheckLoop(s, own, mode, st)
    case Loop(_, _) => CheckLoop(s, own, mode, st)
    case For(_, _, _, _, _) => CheckLoop(s, own, mode, st)
    case ForRange(_, _, _, _, _, _) => CheckLoop(s, own, mode, st)
    case Break(_) =>
      InPlace(st.(brk := if mode.only then st.brk else Merged(st.brk, st.cur), dead := true), ExprResult(st.cur, []))
    case Continue(_) =>
      InPlace(st.(cont := Merged(st.cont, st.cur), dead := true), ExprResult(st.cur, []))
    case Return(e) =>
      InPlace(st.(dead := true), CheckOptExpr(e, own, mode, st.cur, st.dead))
  }

  /** The state before an `if` absorbs the branches that can be passed. */
  function Joined(before: set<Name>, a: State, b: State): set<Name> {
    before + (if a.dead then {} else a.cur) + (if b.dead then {} else b.cur)
  }

  /** An optional statement: without an else branch the state before it goes on unchanged. */
  function CheckOpt(e: Option<Stmt>, own: set<Name>, mode: Mode, st: State): Result
    decreases e, 5
  {
    match e
    case None => InPlace(st, ExprResult(st.cur, []))
    case Some(x) => Check(x, own, mode, st)
  }

  function CheckList(ss: List<Stmt>, own: set<Name>, mode: Mode, st: State): Result
    decreases ss, 4
  {
    match ss
    case Nil => InPlace(st, ExprResult(st.cur, []))
    case Cons(s, tail) =>
      var a := Check(s, own, mode, st);
      Chain(a, CheckList(tail, own, mode, a.st))
  }

  /** What the walk over the arms of a match accumulates. */
  datatype ArmsState = ArmsState(merged: Option<set<Name>>, allDead: bool, brk: Option<set<Name>>, cont: Option<set<Name>>, log: Log)

  /** One more arm, analysed as `r`. */
  function AddArm(acc: ArmsState, r: Result): ArmsState {
    ArmsState(if r.st.dead then acc.merged else Merged(acc.merged, r.st.cur), acc.allDead && r.st.dead,
              r.st.brk, r.st.cont, acc.log + r.log)
  }

  function CheckCases(cases: List<Case>, own: set<Name>, mode: Mode, st0: State, acc: ArmsState): ArmsState
    decreases cases, 4
  {
    match cases
    case Nil => acc
    case Cons(c, tail) =>
      var r := Check(c.body, own, mode, st0.(brk := acc.brk, cont := acc.cont));
      CheckCases(tail, own, mode, st0,
        AddArm(acc, r))
  }

  /** What happens once, before the iterations of a loop. */
  function LoopSetup(s: Stmt, own: set<Name>, mode: Mode, st: State): Result
    requires IsLoop(s)
    decreases s, 0
  {
    match s
    case For(_, init, _, _, _) =>
      if init.None? then InPlace(st, ExprResult(st.cur, [])) else Check(init.value, own, mode, st)
    case ForRange(_, _, lo, hi, _, _) =>
      var a := CheckExpr(lo, own, false, mode, st.cur, st.dead);
      var b := CheckExpr(hi, own, false, mode, a.cur, st.dead);
      InPlace(st, ExprResult(b.cur, a.log + b.log))
    case _ => InPlace(st, ExprResult(st.cur, []))
  }

  /** One pass over the test, the body and the step of a loop. */
  function LoopPass(s: Stmt, own: set<Name>, mode: Mode, st: State): Result
    requires IsLoop(s)
    decreases s, 1
  {
    var c := TestStage(s, own, mode, st);
    var b := match LoopBody(s)
      case None => InPlace(c.st, ExprResult(c.st.cur, []))
      case Some(x) => Check(x, own, mode, c.st);
    var e := InPlace(b.st, CheckOptExpr(LoopStep(s), own, mode, b.st.cur, b.st.dead));
    Chain(Chain(c, b), e)
  }

  /** The state in which the next iteration starts, if any path reaches it. */
  function NextIter(r: Result): Option<set<Name>> {
    MergedOpt(if r.st.dead then None else Some(r.st.cur), r.st.cont)
  }

  function FirstMode(mode: Mode, start: set<Name>): Mode {
    Mode(false, Some(start), mode.only)
  }

  function SecondMode(start: set<Name>): Mode {
    Mode(true, Some(start), true)
  }

  /** The loop body is checked from the entry state and, when some path comes back to the
      loop head, once more from the state of the next iteration. */
  function CheckLoop(s: Stmt, own: set<Name>, mode: Mode, st: State): Result
    requires IsLoop(s)
    decreases s, 3
  {
    var o := LoopSetup(s, own, Mode(false, Some(st.cur), mode.only), State(st.cur, false, None, None));
    var start := o.st.cur;
    var r1 := LoopPass(s, own, FirstMode(mode, start), o.st);
    var next := NextIter(r1);
    LoopExit(s.Loop?, st, Chain(o, r1), r1.st.brk, next, SecondPass(s, own, start, next))
  }

  /** The state after a loop: the next-iteration state, because the test may fail there,
      joined with the break states; with neither, the object that was current before. */
  function LoopExit(endless: bool, st: State, first: Result, brk: Option<set<Name>>, next: Option<set<Name>>, second: Result): Result {
    var out := MergedOpt(if endless then None else next, if next.Some? then second.st.brk else brk);
    Result(State(if out.Some? then out.value else first.entry, out.None? && (endless || st.dead), st.brk, st.cont),
           first.entry, out.Some?, first.log + second.log)
  }

  function SecondPass(s: Stmt, own: set<Name>, start: set<Name>, next: Option<set<Name>>): Result
    requires IsLoop(s)
    decreases s, 2
  {
    match next
    case None => Result(State({}, true, None, None), {}, false, [])
    case Some(n) => LoopPass(s, own, SecondMode(start), State(n, false, None, None))
  }

  /** The test of one pass. */
  function TestStage(s: Stmt, own: set<Name>, mode: Mode, st: State): Result
    requires IsLoop(s)
  {
    InPlace(st, CheckOptExpr(LoopTest(s), own, mode, st.cur, st.dead))
  }

  /** The body and the step of one pass. */
  function PassRest(s: Stmt, own: set<Name>, mode: Mode, st: State): Result
    requires IsLoop(s)
  {
    var b := CheckOpt(LoopBody(s), own, mode, st);
    Chain(b, InPlace(b.st, CheckOptExpr(LoopStep(s), own, mode, b.st.cur, b.st.dead)))
  }

  lemma PassInParts(s: Stmt, own: set<Name>, mode: Mode, st: State)
    requires IsLoop(s)
    ensures var c := TestStage(s, own, mode, st);
            LoopPass(s, own, mode, st) == Chain(c, PassRest(s, own, mode, c.st))
  {
    var c := TestStage(s, own, mode, st);
    var b := CheckOpt(LoopBody(s), own, mode, c.st);
    ChainAssoc(c, b, InPlace(b.st, CheckOptExpr(LoopStep(s), own, mode, b.st.cur, b.st.dead)));
  }

  /** A loop's analysis from the analysis `first` of its set-up and first pass. */
  lemma LoopInTwoParts(s: Stmt, own: set<Name>, mode: Mode, st: State, start: set<Name>, first: Result)
    requires IsLoop(s)
    requires var o := LoopSetup(s, own, Mode(false, Some(st.cur), mode.only), State(st.cur, false, None, None));
             start == o.st.cur && first == Chain(o, LoopPass(s, own, FirstMode(mode, start), o.st))
    ensures Check(s, own, mode, st) ==
            LoopExit(s.Loop?, st, first, first.st.brk, NextIter(first), SecondPass(s, own, start, NextIter(first)))
  {
  }
}
