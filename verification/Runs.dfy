/** Run-time meaning of statements, with every data-dependent decision left open.
    A run is driven by a sequence of choices: each branch, each loop test and each
    short-circuit operator consumes one.  A run whose choices are used up is `Cut`:
    it stands for a prefix of a longer, possibly endless, run.  Quantifying over
    all choice sequences therefore quantifies over every run and every prefix. */
module Runs {
  import opened Ast

  type Choices = seq<nat>

  datatype Outcome =
    | Normal
    | Broke(target: Option<Name>)
    | Continued(target: Option<Name>)
    | Returned
    | Cut

  /** A read or a move, at line `pos`, of a variable whose value was moved away before. */
  datatype Fault = Fault(name: Name, pos: nat)

  /** `moved`: the variables whose value is gone.  `valued`: some block ended with a value statement. */
  datatype Run = Run(out: Outcome, moved: set<Name>, rest: Choices, faults: seq<Fault>, valued: bool)

  /** The effect of evaluating an expression; `done` is false when the choices ran out. */
  datatype ExprRun = ExprRun(done: bool, moved: set<Name>, rest: Choices, faults: seq<Fault>)

  /** A variable expression of an owning type used as an rvalue gives its value away. */
  function Taken(e: Expr, own: set<Name>): set<Name> {
    if e.Var? && e.name in own then {e.name} else {}
  }

  function ReadFault(x: Name, pos: nat, moved: set<Name>): seq<Fault> {
    if x in moved then [Fault(x, pos)] else []
  }

  /** Evaluates `e`, left to right.  `own` are the variables of owning (non-Copy) types. */
  function RunExpr(e: Expr, own: set<Name>, moved: set<Name>, ch: Choices): (r: ExprRun)
    ensures |r.rest| <= |ch|
    decreases e
  {
    match e
    case Var(x, pos) => ExprRun(true, moved, ch, ReadFault(x, pos, moved))
    case Binary(op, l, r) =>
      if op.Set? then
        var a := if l.Var? then ExprRun(true, moved, ch, []) else RunExpr(l, own, moved, ch);
        if !a.done then a else
          var b := RunExpr(r, own, a.moved, a.rest);
          if !b.done then b.(faults := a.faults + b.faults) else
            b.(moved := (b.moved + Taken(r, own)) - (if l.Var? then {l.name} else {}), faults := a.faults + b.faults)
      else
        var a := RunExpr(l, own, moved, ch);
        if !a.done then a
        else if IsLogical(op) then
          if a.rest == [] then a.(done := false)
          else if a.rest[0] == 0 then a.(rest := a.rest[1..])
          else
            var b := RunExpr(r, own, a.moved, a.rest[1..]);
            b.(faults := a.faults + b.faults)
        else
          var b := RunExpr(r, own, a.moved, a.rest);
          b.(faults := a.faults + b.faults)
    case Unary(_, o) => RunExpr(o, own, moved, ch)
    case Call(f, args, _) =>
      var a := RunExpr(f, own, moved, ch);
      if !a.done then a else
        var b := RunArgs(args, own, a.moved, a.rest);
        b.(faults := a.faults + b.faults)
    case Index(l, r) =>
      var a := RunExpr(l, own, moved, ch);
      if !a.done then a else
        var b := RunExpr(r, own, a.moved, a.rest);
        b.(faults := a.faults + b.faults)
    case Cast(o) => RunExpr(o, own, moved, ch)
    case _ => ExprRun(true, moved, ch, [])
  }

  /** Arguments are passed by value, so an owning variable is moved into the call. */
  function RunArgs(args: List<Expr>, own: set<Name>, moved: set<Name>, ch: Choices): (r: ExprRun)
    ensures |r.rest| <= |ch|
    decreases args
  {
    match args
    case Nil => ExprRun(true, moved, ch, [])
    case Cons(arg, tail) =>
      var a := RunExpr(arg, own, moved, ch);
      if !a.done then a else
        var b := RunArgs(tail, own, a.moved + Taken(arg, own), a.rest);
        b.(faults := a.faults + b.faults)
  }

  function RunOptExpr(e: Option<Expr>, own: set<Name>, moved: set<Name>, ch: Choices): (r: ExprRun)
    ensures |r.rest| <= |ch|
  {
    match e
    case None => ExprRun(true, moved, ch, [])
    case Some(x) => RunExpr(x, own, moved, ch)
  }

  /** A run that ends with, or is cut inside, an expression. */
  function AfterExpr(r: ExprRun): Run {
    Run(if r.done then Normal else Cut, r.moved, r.rest, r.faults, false)
  }

  /** `b` continues `a`. */
  function Then(a: ExprRun, b: Run): Run {
    b.(faults := a.faults + b.faults)
  }

  function ThenRun(a: Run, b: Run): Run {
    b.(faults := a.faults + b.faults, valued := a.valued || b.valued)
  }

  /** A break or continue with this target leaves the loop labelled `tag`. */
  predicate Targets(target: Option<Name>, tag: Option<Name>) {
    target.None? || target == tag
  }

  /** The statement kinds whose value a block may end with. */
  predicate IsValueStmt(s: Stmt) {
    s.ExprStmt? || s.Match?
  }

  predicate EndsWithValue(ss: List<Stmt>) {
    ss.Cons? && if ss.tail.Nil? then IsValueStmt(ss.head) else EndsWithValue(ss.tail)
  }

  function RunStmt(s: Stmt, own: set<Name>, moved: set<Name>, ch: Choices): (r: Run)
    ensures |r.rest| <= |ch|
    decreases |ch|, s, 1
  {
    match s
    case VarDecl(x, init, _) =>
      var a := RunOptExpr(init, own, moved, ch);
      if !a.done then AfterExpr(a) else
        var taken := if init.Some? then Taken(init.value, own) else {};
        AfterExpr(a.(moved := (a.moved + taken) - {x}))
    case ExprStmt(e) => AfterExpr(RunExpr(e, own, moved, ch))
    case Assert(e) => AfterExpr(RunExpr(e, own, moved, ch))
    case Block(ss) =>
      var r := RunList(ss, own, moved, ch);
      r.(valued := r.valued || (r.out.Normal? && EndsWithValue(ss)))
    case If(c, t, e) =>
      var a := RunExpr(c, own, moved, ch);
      if !a.done || a.rest == [] then AfterExpr(a.(done := false))
      else if a.rest[0] != 0 then Then(a, RunStmt(t, own, a.moved, a.rest[1..]))
      else if e.Some? then Then(a, RunStmt(e.value, own, a.moved, a.rest[1..]))
      else AfterExpr(a.(rest := a.rest[1..]))
    case Match(e, cases) =>
      var a := RunExpr(e, own, moved, ch);
      if !a.done then AfterExpr(a) else Then(a, RunCases(cases, HasDefault(cases), own, a.moved, a.rest))
    case While(_, c, _) => RunLoop(s, own, moved, ch)
    case Loop(_, _) => RunLoop(s, own, moved, ch)
    case For(_, init, _, _, _) =>
      var a := if init.None? then Run(Normal, moved, ch, [], false) else RunStmt(init.value, own, moved, ch);
      if !a.out.Normal? then a else ThenRun(a, RunLoop(s, own, a.moved, a.rest))
    case ForRange(_, _, lo, hi, _, _) =>
      var a := RunExpr(lo, own, moved, ch);
      if !a.done then AfterExpr(a) else
        var b := RunExpr(hi, own, a.moved, a.rest);
        if !b.done then Then(a, AfterExpr(b)) else Then(a, Then(b, RunLoop(s, own, b.moved, b.rest)))
    case Break(t) => Run(Broke(t), moved, ch, [], false)
    case Continue(t) => Run(Continued(t), moved, ch, [], false)
    case Return(e) =>
      var a := RunOptExpr(e, own, moved, ch);
      if a.done then AfterExpr(a).(out := Returned) else AfterExpr(a)
  }

  function RunList(ss: List<Stmt>, own: set<Name>, moved: set<Name>, ch: Choices): (r: Run)
    ensures |r.rest| <= |ch|
    decreases |ch|, ss, 1
  {
    match ss
    case Nil => Run(Normal, moved, ch, [], false)
    case Cons(s, tail) =>
      var a := RunStmt(s, own, moved, ch);
      if !a.out.Normal? then a else ThenRun(a, RunList(tail, own, a.moved, a.rest))
  }

  /** Any arm may be the one that matches; with a default arm one of them does. */
  function RunCases(cases: List<Case>, total: bool, own: set<Name>, moved: set<Name>, ch: Choices): (r: Run)
    ensures |r.rest| <= |ch|
    decreases |ch|, cases, 1
  {
    match cases
    case Nil => Run(Normal, moved, ch, [], false)
    case Cons(c, tail) =>
      if total && tail.Nil? then RunStmt(c.body, own, moved, ch)
      else if ch == [] then Run(Cut, moved, ch, [], false)
      else if ch[0] != 0 then RunStmt(c.body, own, moved, ch[1..])
      else RunCases(tail, total, own, moved, ch[1..])
  }

  predicate IsLoop(s: Stmt) {
    s.While? || s.Loop? || s.For? || s.ForRange?
  }

  function LoopBody(s: Stmt): Option<Stmt>
    requires IsLoop(s)
  {
    if s.For? then s.forBody else Some(s.body)
  }

  /** The expression tested before each iteration, if any. */
  function LoopTest(s: Stmt): Option<Expr>
    requires IsLoop(s)
  {
    if s.While? then Some(s.guard) else if s.For? then s.test else None
  }

  /** The expression evaluated after each iteration, if any. */
  function LoopStep(s: Stmt): Option<Expr>
    requires IsLoop(s)
  {
    if s.For? then s.step else None
  }

  /** Only these loops can end without a break. */
  predicate MayEnd(s: Stmt) {
    s.While? || s.ForRange? || (s.For? && s.test.Some?)
  }

  /** The iterations of loop `s`, from a state in which it is already set up.
      One choice per iteration tells whether the loop goes on. */
  function RunLoop(s: Stmt, own: set<Name>, moved: set<Name>, ch: Choices): (r: Run)
    requires IsLoop(s)
    ensures |r.rest| <= |ch|
    decreases |ch|, s, 0
  {
    var c := RunOptExpr(LoopTest(s), own, moved, ch);
    if !c.done || c.rest == [] then AfterExpr(c.(done := false))
    else if MayEnd(s) && c.rest[0] == 0 then AfterExpr(c.(rest := c.rest[1..]))
    else
      var b := RunBody(s, own, c.moved, c.rest[1..]);
      if b.out.Normal? || (b.out.Continued? && Targets(b.out.target, s.tag)) then
        var e := RunOptExpr(LoopStep(s), own, b.moved, b.rest);
        if !e.done then Then(c, ThenRun(b, AfterExpr(e))) else
          Then(c, ThenRun(b, Then(e, RunLoop(s, own, e.moved, e.rest))))
      else if b.out.Broke? && Targets(b.out.target, s.tag) then Then(c, b.(out := Normal))
      else Then(c, b)
  }

  function RunBody(s: Stmt, own: set<Name>, moved: set<Name>, ch: Choices): (r: Run)
    requires IsLoop(s)
    ensures |r.rest| <= |ch|
    decreases |ch|, s, 0
  {
    match LoopBody(s)
    case None => Run(Normal, moved, ch, [], false)
    case Some(b) => RunStmt(b, own, moved, ch)
  }
}
