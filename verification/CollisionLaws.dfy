/** Which operands Rule 13.2 is reported for, in terms of what they modify and mention; and what a report means. */
module CollisionLaws {
  import opened Ast
  import opened Collision
  import opened Sequencing

  /** The operator text contains an equals sign. */
  predicate Equals(op: BinOp) {
    match op
    case Set => true
    case AddSet => true
    case SubSet => true
    case MulSet => true
    case Eq => true
    case Ne => true
    case Le => true
    case Ge => true
    case _ => false
  }

  /** Somewhere outside casts and indexes `x` is stepped or stands to the left of an operator with an equals sign. */
  predicate Modifies(e: Expr, x: Name)
    decreases e
  {
    match e
    case Binary(op, l, r) => (Equals(op) && l.Var? && l.name == x) || Modifies(l, x) || Modifies(r, x)
    case Unary(op, o) => (IsStep(op) && o.Var? && o.name == x) || Modifies(o, x)
    case Call(f, args, _) => Modifies(f, x) || SomeModifies(args, x)
    case _ => false
  }

  predicate SomeModifies(args: List<Expr>, x: Name)
    decreases args
  {
    args.Cons? && (Modifies(args.head, x) || SomeModifies(args.tail, x))
  }

  /** `x` occurs outside casts and indexes. */
  predicate Mentions(e: Expr, x: Name)
    decreases e
  {
    match e
    case Var(y, _) => y == x
    case Binary(_, l, r) => Mentions(l, x) || Mentions(r, x)
    case Unary(_, o) => Mentions(o, x)
    case Call(f, args, _) => Mentions(f, x) || SomeMentions(args, x)
    case _ => false
  }

  predicate SomeMentions(args: List<Expr>, x: Name)
    decreases args
  {
    args.Cons? && (Mentions(args.head, x) || SomeMentions(args.tail, x))
  }

  /** The collected writes are the modified variables and the collected reads the mentioned ones. */
  lemma {:induction false} CollectedExactly(e: Expr, x: Name)
    ensures x in WritesOf(e) <==> Modifies(e, x)
    ensures x in ReadsOf(e) <==> Mentions(e, x)
    ensures Modifies(e, x) ==> Mentions(e, x)
    decreases e
  {
    match e
    case Binary(_, l, r) =>
      CollectedExactly(l, x);
      CollectedExactly(r, x);
    case Unary(_, o) => CollectedExactly(o, x);
    case Call(f, args, _) =>
      CollectedExactly(f, x);
      ArgsCollectedExactly(args, x);
    case _ =>
  }

  lemma {:induction false} ArgsCollectedExactly(args: List<Expr>, x: Name)
    ensures x in ArgWrites(args) <==> SomeModifies(args, x)
    ensures x in ArgReads(args) <==> SomeMentions(args, x)
    ensures SomeModifies(args, x) ==> SomeMentions(args, x)
    decreases args
  {
    if args.Cons? {
      CollectedExactly(args.head, x);
      ArgsCollectedExactly(args.tail, x);
    }
  }

  /** One of the two modifies a variable that the other one mentions. */
  ghost predicate Conflict(a: Expr, b: Expr) {
    exists x :: (Modifies(a, x) && Mentions(b, x)) || (Modifies(b, x) && Mentions(a, x))
  }

  /** While no set is full, operands are reported if and only if they conflict. */
  lemma OperandsReported(l: Expr, r: Expr)
    requires Fits(l) && Fits(r)
    ensures Collide(l, r) <==> Conflict(l, r)
  {
    forall x ensures Says(l, x) && Says(r, x) {
      CollectedExactly(l, x);
      CollectedExactly(r, x);
    }
    if Conflict(l, r) {
      ConflictCollides(l, r);
    }
    if Collide(l, r) {
      CollisionConflicts(l, r);
    }
  }

  lemma CollisionConflicts(l: Expr, r: Expr)
    requires Collide(l, r) && Fits(l) && Fits(r) && forall x :: Says(l, x) && Says(r, x)
    ensures Conflict(l, r)
  {
    var x :| (x in WritesOf(l) && (x in WritesOf(r) || x in ReadsOf(r))) || (x in WritesOf(r) && x in ReadsOf(l));
    assert Says(l, x) && Says(r, x);
  }

  /** The collected sets say of `x` what the expression does with it. */
  ghost predicate Says(e: Expr, x: Name) {
    && (x in WritesOf(e) <==> Modifies(e, x)) && (x in ReadsOf(e) <==> Mentions(e, x)) && (Modifies(e, x) ==> Mentions(e, x))
  }

  lemma ConflictCollides(l: Expr, r: Expr)
    requires Conflict(l, r) && Fits(l) && Fits(r) && forall x :: Says(l, x) && Says(r, x)
    ensures Collide(l, r)
  {
    var x :| (Modifies(l, x) && Mentions(r, x)) || (Modifies(r, x) && Mentions(l, x));
    assert Says(l, x) && Says(r, x);
    if Modifies(l, x) && Mentions(r, x) {
      assert x in WritesOf(l) && x in ReadsOf(r);
    } else {
      assert x in WritesOf(r) && x in ReadsOf(l);
    }
  }

  /** While the set of the right side is not full, an assignment to a variable is reported if and
      only if its right side modifies that variable; that it reads the variable does not matter. */
  lemma AssignmentReported(l: Expr, r: Expr)
    requires l.Var? && |WritesOf(r)| <= CAPACITY
    ensures AssignCollide(l, r) <==> Modifies(r, l.name)
  {
    CollectedExactly(r, l.name);
    assert TargetWrites(l) == [l.name];
  }

  /** An assignment whose right side modifies nothing is never reported, whatever its target. */
  lemma QuietRightSide(l: Expr, r: Expr)
    requires forall x :: !Modifies(r, x)
    ensures !AssignCollide(l, r)
  {
    forall x ensures x !in Cap(WritesOf(r)) {
      CollectedExactly(r, x);
    }
  }

  /** The right side modifies the target, or something that the target modifies. */
  ghost predicate ModifiedTwice(l: Expr, r: Expr) {
    exists x :: ModifiesOrIs(l, x) && Modifies(r, x)
  }

  predicate ModifiesOrIs(l: Expr, x: Name) {
    (l.Var? && l.name == x) || Modifies(l, x)
  }

  /** The same for every target, while no set is full. */
  lemma TargetReported(l: Expr, r: Expr)
    requires |WritesOf(l)| < CAPACITY && |WritesOf(r)| <= CAPACITY
    ensures AssignCollide(l, r) <==> ModifiedTwice(l, r)
  {
    forall x ensures x in TargetWrites(l) <==> ModifiesOrIs(l, x) {
      CollectedExactly(l, x);
    }
    forall x ensures x in Cap(WritesOf(r)) <==> Modifies(r, x) {
      CollectedExactly(r, x);
    }
    SameElements(TargetWrites(l), Cap(WritesOf(r)), l, r);
  }

  lemma SameElements(a: seq<Name>, b: seq<Name>, l: Expr, r: Expr)
    requires (forall x :: x in a <==> ModifiesOrIs(l, x)) && (forall x :: x in b <==> Modifies(r, x))
    ensures Meet(a, b) <==> ModifiedTwice(l, r)
  {
    if x :| x in a && x in b {
      assert ModifiesOrIs(l, x) && Modifies(r, x);
    }
    if x :| ModifiesOrIs(l, x) && Modifies(r, x) {
      assert x in a && x in b;
    }
  }

  // ---------- arguments ----------

  ghost predicate SomeConflict(args: seq<Expr>) {
    exists i, j :: 0 <= i < j < |args| && Conflict(args[i], args[j])
  }

  /** Something collected before the argument conflicts with it. */
  ghost predicate Touches(e: Expr, seen: seq<Name>, written: seq<Name>) {
    exists x :: (Modifies(e, x) && (x in seen || x in written)) || (Mentions(e, x) && x in written)
  }

  ghost predicate SomeTouches(args: seq<Expr>, seen: seq<Name>, written: seq<Name>) {
    exists i :: 0 <= i < |args| && Touches(args[i], seen, written)
  }

  /** While no set is full, a call is reported if and only if two of its arguments, the receiver
      counted among them, conflict. */
  lemma {:induction false} ArgumentsReported(args: List<Expr>, seen: seq<Name>, written: seq<Name>)
    requires ArgsFit(args, seen, written)
    ensures ArgsCollide(args, seen, written) <==> SomeTouches(ToSeq(args), seen, written) || SomeConflict(ToSeq(args))
    decreases args
  {
    if args.Cons? {
      var a, r, w := args.head, ReadsOf(args.head), WritesOf(args.head);
      var rest := ToSeq(args.tail);
      FirstReported(a, seen, written);
      assert args.tail.Cons? ==> Cap(seen + Cap(r)) == seen + r && Cap(written + Cap(w)) == written + w;
      ArgumentsReported(args.tail, seen + r, written + w);
      RestTouches(a, rest, seen, written);
      AllArguments(a, rest, seen, written);
    }
  }

  lemma FirstReported(a: Expr, seen: seq<Name>, written: seq<Name>)
    requires Fits(a)
    ensures (Meet(Cap(WritesOf(a)), seen) || Meet(Cap(WritesOf(a)), written) || Meet(Cap(ReadsOf(a)), written)) <==>
            Touches(a, seen, written)
  {
    forall x ensures (x in WritesOf(a) <==> Modifies(a, x)) && (x in ReadsOf(a) <==> Mentions(a, x)) {
      CollectedExactly(a, x);
    }
    if Touches(a, seen, written) {
      var x :| (Modifies(a, x) && (x in seen || x in written)) || (Mentions(a, x) && x in written);
      assert (x in WritesOf(a) && (x in seen || x in written)) || (x in ReadsOf(a) && x in written);
    }
  }

  /** What touches the larger sets touches the smaller ones or conflicts with `a`. */
  lemma RestTouches(a: Expr, rest: seq<Expr>, seen: seq<Name>, written: seq<Name>)
    ensures SomeTouches(rest, seen + ReadsOf(a), written + WritesOf(a)) <==>
            SomeTouches(rest, seen, written) || exists j :: 0 <= j < |rest| && Conflict(a, rest[j])
  {
    forall j | 0 <= j < |rest|
      ensures Touches(rest[j], seen + ReadsOf(a), written + WritesOf(a)) <==> Touches(rest[j], seen, written) || Conflict(a, rest[j])
    {
      TouchesMore(a, rest[j], seen, written);
    }
  }

  lemma TouchesMore(a: Expr, b: Expr, seen: seq<Name>, written: seq<Name>)
    ensures Touches(b, seen + ReadsOf(a), written + WritesOf(a)) <==> Touches(b, seen, written) || Conflict(a, b)
  {
    forall x
      ensures (x in WritesOf(a) <==> Modifies(a, x)) && (x in ReadsOf(a) <==> Mentions(a, x)) && (Modifies(a, x) ==> Mentions(a, x))
      ensures Modifies(b, x) ==> Mentions(b, x)
    {
      CollectedExactly(a, x);
      CollectedExactly(b, x);
    }
  }

  lemma AllArguments(a: Expr, rest: seq<Expr>, seen: seq<Name>, written: seq<Name>)
    ensures var all := [a] + rest;
      && (SomeTouches(all, seen, written) <==> Touches(a, seen, written) || SomeTouches(rest, seen, written))
      && (SomeConflict(all) <==> SomeConflict(rest) || exists j :: 0 <= j < |rest| && Conflict(a, rest[j]))
  {
    AllTouches(a, rest, seen, written);
    ConflictFound(a, rest);
    if SomeConflict([a] + rest) {
      ConflictInParts(a, rest);
    }
  }

  lemma AllTouches(a: Expr, rest: seq<Expr>, seen: seq<Name>, written: seq<Name>)
    ensures SomeTouches([a] + rest, seen, written) <==> Touches(a, seen, written) || SomeTouches(rest, seen, written)
  {
    var all := [a] + rest;
    assert all[0] == a && forall i :: 0 <= i < |rest| ==> all[i + 1] == rest[i];
    if SomeTouches(rest, seen, written) {
      var i :| 0 <= i < |rest| && Touches(rest[i], seen, written);
      assert Touches(all[i + 1], seen, written);
    }
  }

  lemma ConflictFound(a: Expr, rest: seq<Expr>)
    ensures SomeConflict(rest) || (exists j :: 0 <= j < |rest| && Conflict(a, rest[j])) ==> SomeConflict([a] + rest)
  {
    var all := [a] + rest;
    if SomeConflict(rest) {
      var i, j :| 0 <= i < j < |rest| && Conflict(rest[i], rest[j]);
      assert all[i + 1] == rest[i] && all[j + 1] == rest[j];
    } else if j :| 0 <= j < |rest| && Conflict(a, rest[j]) {
      assert all[0] == a && all[j + 1] == rest[j];
    }
  }

  lemma ConflictInParts(a: Expr, rest: seq<Expr>)
    requires SomeConflict([a] + rest)
    ensures SomeConflict(rest) || exists j :: 0 <= j < |rest| && Conflict(a, rest[j])
  {
    var all := [a] + rest;
    var i, j :| 0 <= i < j < |all| && Conflict(all[i], all[j]);
    assert all[j] == rest[j - 1];
    if i > 0 {
      assert all[i] == rest[i - 1];
    }
  }

  /** A call whose sets stay within their capacity is reported if and only if two of its receiver
      and arguments conflict. */
  lemma CallReported(receiver: Option<Expr>, args: List<Expr>)
    requires ArgsFit(if receiver.Some? then Cons(receiver.value, args) else args, [], [])
    ensures CallCollide(receiver, args) <==> SomeConflict(ToSeq(if receiver.Some? then Cons(receiver.value, args) else args))
  {
    var all := if receiver.Some? then Cons(receiver.value, args) else args;
    ArgumentsReported(all, [], []);
    if receiver.Some? {
      var r := receiver.value;
      assert [] + Cap(ReadsOf(r)) == Cap(ReadsOf(r)) && [] + Cap(WritesOf(r)) == Cap(WritesOf(r));
    }
  }

  /** A set holds 32 reads: with up to 31 operands `y` in front of it the last `x` is still seen. */
  lemma SetHoldsThirtyTwo(n: nat)
    requires n <= 30
    ensures Collide(Binary(Add, Sum(n), X), Bump)
  {
    var l := Binary(Add, Sum(n), X);
    SumReads(n);
    assert WritesOf(X) == [] && WritesOf(l) == [] && |ReadsOf(l)| == n + 2;
    assert Fits(l) && Fits(Bump);
    OperandsReported(l, Bump);
    assert Modifies(Bump, "x") && Mentions(X, "x") && Mentions(l, "x");
  }

  // ---------- whole expressions ----------

  /** Nowhere in the expression is a set filled beyond its capacity. */
  predicate NeverFull(e: Expr)
    decreases e
  {
    match e
    case Binary(op, l, r) => NeverFull(l) && NeverFull(r) && Fits(l) && Fits(r) && |WritesOf(l)| < CAPACITY
    case Unary(_, o) => NeverFull(o)
    case Call(f, args, _) => NeverFull(f) && NeverFullArgs(args) && ArgsFit(args, [], [])
    case Index(a, i) => NeverFull(a) && NeverFull(i)
    case Cast(o) => NeverFull(o)
    case _ => true
  }

  predicate NeverFullArgs(args: List<Expr>)
    decreases args
  {
    args.Cons? ==> NeverFull(args.head) && NeverFullArgs(args.tail)
  }

  /** Somewhere the operands of an operator that leaves their order open conflict, or the arguments
      of a call, or an assignment and its right side modify the same variable. */
  ghost predicate HasConflict(e: Expr)
    decreases e
  {
    match e
    case Binary(op, l, r) =>
      HasConflict(l) || HasConflict(r) ||
      (match op
       case And => false
       case Or => false
       case Set => ModifiedTwice(l, r)
       case AddSet => ModifiedTwice(l, r)
       case SubSet => ModifiedTwice(l, r)
       case MulSet => ModifiedTwice(l, r)
       case _ => Conflict(l, r))
    case Unary(_, o) => HasConflict(o)
    case Call(f, args, _) => HasConflict(f) || SomeHasConflict(args) || SomeConflict(ToSeq(args))
    case Index(a, i) => HasConflict(a) || HasConflict(i)
    case Cast(o) => HasConflict(o)
    case _ => false
  }

  ghost predicate SomeHasConflict(args: List<Expr>)
    decreases args
  {
    args.Cons? && (HasConflict(args.head) || SomeHasConflict(args.tail))
  }

  /** While no set is full, an expression draws a report if and only if there is a conflict in it. */
  lemma {:induction false} ExpressionReported(e: Expr)
    requires NeverFull(e)
    ensures !Silent(e) <==> HasConflict(e)
    decreases e
  {
    match e
    case Binary(op, l, r) =>
      ExpressionReported(l);
      ExpressionReported(r);
      OperandsReported(l, r);
      if IsAssignment(op) {
        TargetReported(l, r);
      }
    case Unary(_, o) => ExpressionReported(o);
    case Call(f, args, _) =>
      ExpressionReported(f);
      ArgumentsInTurn(args);
      CallReported(None, args);
    case Index(a, i) =>
      ExpressionReported(a);
      ExpressionReported(i);
    case Cast(o) => ExpressionReported(o);
    case _ =>
  }

  lemma {:induction false} ArgumentsInTurn(args: List<Expr>)
    requires NeverFullArgs(args)
    ensures !ArgsSilent(args) <==> SomeHasConflict(args)
    decreases args
  {
    if args.Cons? {
      ExpressionReported(args.head);
      ArgumentsInTurn(args.tail);
    }
  }

  // ---------- what a report means ----------

  /** Evaluation takes no branch and cannot trap, and nothing is collected as written that is not. */
  predicate Certain(e: Expr)
    decreases e
  {
    match e
    case IntLit(_) => true
    case CharLit(_) => true
    case Var(_, _) => true
    case Unary(op, o) => if IsStep(op) then o.Var? else Certain(o)
    case Binary(op, l, r) =>
      Certain(l) && Certain(r) && if IsAssignment(op) then l.Var? else op.Add? || op.Sub? || op.Mul? || op.Lt? || op.Gt?
    case _ => false
  }

  /** Such an expression changes exactly the variables it is said to modify, under every order. */
  lemma {:induction false} AlwaysModifies(e: Expr, o: Order, store: Store)
    requires Certain(e)
    ensures var r := Eval(e, o, store); r.Done? && forall x :: x in r.writes <==> Modifies(e, x)
    decreases e, 1
  {
    match e
    case Unary(op, operand) =>
      if !IsStep(op) {
        AlwaysModifies(operand, LeftOrder(o), store);
      }
    case Binary(op, l, r) =>
      AlwaysModifies(r, RightOrder(o), store);
      if IsAssignment(op) {
        assert Eval(e, o, store) == EvalAssignment(e, o, store);
      } else {
        OperandsModify(e, o, store);
      }
    case _ =>
  }

  lemma {:induction false} OperandsModify(e: Expr, o: Order, store: Store)
    requires e.Binary? && !IsAssignment(e.op) && Certain(e)
    ensures var r := Eval(e, o, store); r.Done? && forall x :: x in r.writes <==> Modifies(e, x)
    decreases e, 0
  {
    var l, r := e.left, e.right;
    var a, b := Eval(l, LeftOrder(o), store), Eval(r, RightOrder(o), store);
    AlwaysModifies(l, LeftOrder(o), store);
    AlwaysModifies(r, RightOrder(o), store);
    AlwaysModifies(l, LeftOrder(o), After(store, b));
    AlwaysModifies(r, RightOrder(o), After(store, a));
    assert forall x :: Modifies(e, x) <==> Modifies(l, x) || Modifies(r, x);
    assert Eval(e, o, store) == EvalOperands(e, o, store);
    assert Eval(e, o, store) == match TimingOf(o)
      case LeftFirst => Combine(e.op, a, Eval(r, RightOrder(o), After(store, a)), true)
      case RightFirst => Combine(e.op, Eval(l, LeftOrder(o), After(store, b)), b, false)
      case LandLeftRight => Combine(e.op, a, b, true)
      case LandRightLeft => Combine(e.op, a, b, false);
  }

  /** The value an assignment `x op= right` computes when both sides run in `store`. */
  function Assigned(op: BinOp, x: Name, right: Effect, store: Store): Option<int>
    requires right.Done?
  {
    Apply(op, Get(store, x), right.value)
  }

  /** A reported assignment: whether the order in which the two changes of the target land can be
      seen depends on nothing but whether they leave the same value in it. */
  lemma ReportedAssignmentShows(op: BinOp, l: Expr, r: Expr, o: Order, store: Store)
    requires l.Var? && IsAssignment(op) && Certain(r) && |WritesOf(r)| <= CAPACITY && AssignCollide(l, r)
    ensures var right := Eval(r, o, store);
      && right.Done? && l.name in right.writes && Assigned(op, l.name, right, store).Some?
      && (Eval(Binary(op, l, r), Fork(LandLeftRight, Leaf, o), store) == Eval(Binary(op, l, r), Fork(LandRightLeft, Leaf, o), store)
          <==> Assigned(op, l.name, right, store) == Some(right.writes[l.name]))
  {
    AssignmentReported(l, r);
    AlwaysModifies(r, o, store);
    var e, right, x := Binary(op, l, r), Eval(r, o, store), l.name;
    var v := Assigned(op, x, right, store).value;
    var first, last := Fork(LandLeftRight, Leaf, o), Fork(LandRightLeft, Leaf, o);
    assert Eval(e, first, store) == EvalAssignment(e, first, store) == Done(v, map[x := v] + right.writes);
    assert Eval(e, last, store) == EvalAssignment(e, last, store) == Done(v, right.writes + map[x := v]);
    LandingOrder(x, v, right.writes);
  }

  lemma LandingOrder(x: Name, v: int, writes: Store)
    requires x in writes
    ensures map[x := v] + writes == writes + map[x := v] <==> v == writes[x]
  {
    assert (map[x := v] + writes)[x] == writes[x] && (writes + map[x := v])[x] == v;
  }

  /** `x = x++` depends on the order in every store; `x = ++x`, which is reported too, in none. */
  lemma StepIntoItself(x: Name, pos: nat, store: Store)
    ensures var v, first, last := Var(x, pos), Fork(LandLeftRight, Leaf, Leaf), Fork(LandRightLeft, Leaf, Leaf);
      && AssignCollide(v, Unary(PostInc, v)) && AssignCollide(v, Unary(PreInc, v))
      && Eval(Binary(Set, v, Unary(PostInc, v)), first, store) != Eval(Binary(Set, v, Unary(PostInc, v)), last, store)
      && Eval(Binary(Set, v, Unary(PreInc, v)), first, store) == Eval(Binary(Set, v, Unary(PreInc, v)), last, store)
  {
    var v := Var(x, pos);
    AssignmentReported(v, Unary(PostInc, v));
    AssignmentReported(v, Unary(PreInc, v));
    ReportedAssignmentShows(Set, v, Unary(PostInc, v), Leaf, store);
    ReportedAssignmentShows(Set, v, Unary(PreInc, v), Leaf, store);
  }

  /** A variable added to a step of itself, which is reported, depends on the order in every store. */
  lemma ReportedSumShows(x: Name, pos: nat, op: UnOp, store: Store)
    requires IsStep(op)
    ensures var v := Var(x, pos);
      && Collide(v, Unary(op, v))
      && Eval(Binary(Add, v, Unary(op, v)), Leaf, store) != Eval(Binary(Add, v, Unary(op, v)), Fork(RightFirst, Leaf, Leaf), store)
  {
    var v := Var(x, pos);
    assert Conflict(v, Unary(op, v)) by { assert Modifies(Unary(op, v), x) && Mentions(v, x); }
    OperandsReported(v, Unary(op, v));
    SumOf(v, Unary(op, v), store);
    SumOfRightFirst(v, Unary(op, v), store);
  }
}
