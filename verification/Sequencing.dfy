/** Where the Rule 13.2 check stays silent, C11 section 6.5 paragraph 2 leaves nothing to observe. */
module Sequencing {
  import opened Ast
  import opened Arithmetic
  import opened Collision

  // ---------- evaluation under a chosen order ----------

  type Store = map<Name, int>

  function Get(store: Store, x: Name): int {
    if x in store then store[x] else 0
  }

  /** How one operator treats its operands: one first and then the other, or both from the
      same store, their side effects landing afterwards in one order or the other. */
  datatype Timing = LeftFirst | RightFirst | LandLeftRight | LandRightLeft

  /** One timing for every operator of an expression. */
  datatype Order = Leaf | Fork(timing: Timing, left: Order, right: Order)

  function TimingOf(o: Order): Timing {
    if o.Leaf? then LeftFirst else o.timing
  }

  function LeftOrder(o: Order): Order {
    if o.Leaf? then Leaf else o.left
  }

  function RightOrder(o: Order): Order {
    if o.Leaf? then Leaf else o.right
  }

  /** The value of an expression and the variables it changes; None is a trap. */
  datatype Effect = Trap | Done(value: int, writes: Store)

  function Apply(op: BinOp, a: int, b: int): Option<int> {
    match op
    case Set => Some(b)
    case AddSet => Some(a + b)
    case SubSet => Some(a - b)
    case MulSet => Some(a * b)
    case _ => Compute(op, a, b)
  }

  /** Two effects joined by an operator, the writes of `b` landing last. */
  function Combine(op: BinOp, a: Effect, b: Effect, bLast: bool): Effect {
    if a.Trap? || b.Trap? then Trap
    else
      match Apply(op, a.value, b.value)
      case None => Trap
      case Some(v) => Done(v, if bLast then a.writes + b.writes else b.writes + a.writes)
  }

  function After(store: Store, e: Effect): Store {
    if e.Trap? then store else store + e.writes
  }

  function Eval(e: Expr, o: Order, store: Store): Effect
    decreases e, 1
  {
    match e
    case IntLit(v) => Done(v, map[])
    case CharLit(c) => Done(c, map[])
    case Var(x, _) => Done(Get(store, x), map[])
    case Cast(inner) => Eval(inner, o, store)
    case Unary(op, operand) =>
      if IsStep(op) then
        if operand.Var? then Step(op, operand.name, store) else Trap
      else
        var a := Eval(operand, LeftOrder(o), store);
        if a.Trap? then Trap
        else if op.Neg? then Done(-a.value, a.writes)
        else if op.Not? then Done(Truth(a.value == 0), a.writes)
        else if op.BitNot? then Done(-a.value - 1, a.writes)
        else a
    case Binary(op, l, r) => if IsAssignment(op) then EvalAssignment(e, o, store) else EvalOperands(e, o, store)
    case _ => Trap
  }

  function EvalAssignment(e: Expr, o: Order, store: Store): Effect
    requires e.Binary?
    decreases e, 0
  {
    if e.left.Var? then Store_(e.op, e.left.name, Eval(e.right, RightOrder(o), store), TimingOf(o), store) else Trap
  }

  function EvalOperands(e: Expr, o: Order, store: Store): Effect
    requires e.Binary?
    decreases e, 0
  {
    var a := Eval(e.left, LeftOrder(o), store);
    if IsLogical(e.op) then
      if a.Trap? then Trap
      else if (a.value != 0) == e.op.Or? then Done(Truth(e.op.Or?), a.writes)
      else
        var b := Eval(e.right, RightOrder(o), After(store, a));
        if b.Trap? then Trap else Done(Truth(b.value != 0), a.writes + b.writes)
    else
      match TimingOf(o)
      case LeftFirst => Combine(e.op, a, Eval(e.right, RightOrder(o), After(store, a)), true)
      case RightFirst =>
        var b := Eval(e.right, RightOrder(o), store);
        Combine(e.op, Eval(e.left, LeftOrder(o), After(store, b)), b, false)
      case LandLeftRight => Combine(e.op, a, Eval(e.right, RightOrder(o), store), true)
      case LandRightLeft => Combine(e.op, a, Eval(e.right, RightOrder(o), store), false)
  }

  function Step(op: UnOp, x: Name, store: Store): Effect {
    var old_ := Get(store, x);
    var new_ := if op.PreInc? || op.PostInc? then old_ + 1 else old_ - 1;
    Done(if op.PreInc? || op.PreDec? then new_ else old_, map[x := new_])
  }

  /** `x op= right`: a compound assignment reads `x` before or after the right side runs, and the
      new value lands before or after the side effects of the right side. */
  function Store_(op: BinOp, x: Name, right: Effect, timing: Timing, store: Store): Effect {
    if right.Trap? then Trap
    else
      var old_ := Get(if timing.RightFirst? then After(store, right) else store, x);
      match Apply(op, old_, right.value)
      case None => Trap
      case Some(v) => Done(v, if timing.LandLeftRight? then map[x := v] + right.writes else right.writes + map[x := v])
  }

  // ---------- what an expression can touch ----------

  /** Literals, variables, the operators of integers, and changes of variables. */
  predicate Scalar(e: Expr)
    decreases e
  {
    match e
    case IntLit(_) => true
    case CharLit(_) => true
    case Var(_, _) => true
    case Unary(op, operand) => Scalar(operand) && (IsStep(op) ==> operand.Var?)
    case Binary(op, l, r) => Scalar(l) && Scalar(r) && (IsAssignment(op) ==> l.Var?)
    case _ => false
  }

  ghost predicate AgreeOn(a: Store, b: Store, names: seq<Name>) {
    forall x :: x in names ==> Get(a, x) == Get(b, x)
  }

  /** Only the variables that are collected as writes change. */
  lemma {:induction false} WritesAreCollected(e: Expr, o: Order, store: Store)
    requires Scalar(e)
    ensures var r := Eval(e, o, store); r.Done? ==> forall x :: x in r.writes ==> x in WritesOf(e)
    decreases e, 1
  {
    match e
    case Unary(op, operand) =>
      if !IsStep(op) {
        WritesAreCollected(operand, LeftOrder(o), store);
      }
    case Binary(op, _, r) =>
      if IsAssignment(op) {
        WritesAreCollected(r, RightOrder(o), store);
      } else {
        OperandWritesAreCollected(e, o, store);
      }
    case _ =>
  }

  lemma {:induction false} OperandWritesAreCollected(e: Expr, o: Order, store: Store)
    requires e.Binary? && Scalar(e)
    ensures var r := EvalOperands(e, o, store); r.Done? ==> forall x :: x in r.writes ==> x in WritesOf(e)
    decreases e, 0
  {
    var a := Eval(e.left, LeftOrder(o), store);
    WritesAreCollected(e.left, LeftOrder(o), store);
    if !IsLogical(e.op) && TimingOf(o).RightFirst? {
      var b := Eval(e.right, RightOrder(o), store);
      WritesAreCollected(e.right, RightOrder(o), store);
      WritesAreCollected(e.left, LeftOrder(o), After(store, b));
    } else {
      WritesAreCollected(e.right, RightOrder(o), store);
      WritesAreCollected(e.right, RightOrder(o), After(store, a));
    }
  }

  lemma AgreeOnParts(s: Store, t: Store, p: seq<Name>, q: seq<Name>)
    requires AgreeOn(s, t, p + q)
    ensures AgreeOn(s, t, p) && AgreeOn(s, t, q)
  {
    assert forall x :: x in p || x in q ==> x in p + q;
  }

  lemma AgreeAfter(s: Store, t: Store, e: Effect, names: seq<Name>)
    requires AgreeOn(s, t, names)
    ensures AgreeOn(After(s, e), After(t, e), names)
  {
  }

  /** An evaluation depends on nothing but the variables that are collected as reads. */
  lemma {:induction false} OnlyReadsMatter(e: Expr, o: Order, s: Store, t: Store)
    requires Scalar(e) && AgreeOn(s, t, ReadsOf(e))
    ensures Eval(e, o, s) == Eval(e, o, t)
    decreases e, 1
  {
    match e
    case Unary(op, operand) =>
      if !IsStep(op) {
        OnlyReadsMatter(operand, LeftOrder(o), s, t);
      } else {
        assert operand.name in ReadsOf(operand);
      }
    case Binary(op, l, r) =>
      if IsAssignment(op) {
        AgreeOnParts(s, t, ReadsOf(l), ReadsOf(r));
        OnlyReadsMatter(r, RightOrder(o), s, t);
        assert l.name in ReadsOf(l);
        assert EvalAssignment(e, o, s) == EvalAssignment(e, o, t);
      } else {
        OperandsOnlyReads(e, o, s, t);
      }
    case _ =>
  }

  lemma {:induction false} OperandsOnlyReads(e: Expr, o: Order, s: Store, t: Store)
    requires e.Binary? && Scalar(e) && AgreeOn(s, t, ReadsOf(e))
    ensures EvalOperands(e, o, s) == EvalOperands(e, o, t)
    decreases e, 0
  {
    var l, r := e.left, e.right;
    AgreeOnParts(s, t, ReadsOf(l), ReadsOf(r));
    if !IsLogical(e.op) && TimingOf(o).RightFirst? {
      OnlyReadsMatter(r, RightOrder(o), s, t);
      var b := Eval(r, RightOrder(o), s);
      AgreeAfter(s, t, b, ReadsOf(l));
      OnlyReadsMatter(l, LeftOrder(o), After(s, b), After(t, b));
    } else {
      OnlyReadsMatter(l, LeftOrder(o), s, t);
      var a := Eval(l, LeftOrder(o), s);
      AgreeAfter(s, t, a, ReadsOf(r));
      OnlyReadsMatter(r, RightOrder(o), s, t);
      OnlyReadsMatter(r, RightOrder(o), After(s, a), After(t, a));
    }
  }

  // ---------- operands ----------

  predicate Fits(e: Expr) {
    |ReadsOf(e)| <= CAPACITY && |WritesOf(e)| <= CAPACITY
  }

  /** Wherever the check compares sets, nothing was dropped from them.  At && and || nothing is
      compared, and at an assignment only what the right side writes. */
  predicate OperandsFit(e: Expr)
    decreases e
  {
    match e
    case Binary(op, l, r) =>
      && OperandsFit(l) && OperandsFit(r)
      && (if IsAssignment(op) then |WritesOf(r)| <= CAPACITY else IsLogical(op) || (Fits(l) && Fits(r)))
    case Unary(_, o) => OperandsFit(o)
    case _ => true
  }

  lemma {:induction false} FitsThroughout(e: Expr)
    requires Fits(e)
    ensures OperandsFit(e)
    decreases e
  {
    match e
    case Binary(_, l, r) =>
      FitsThroughout(l);
      FitsThroughout(r);
    case Unary(_, o) => FitsThroughout(o);
    case _ =>
  }

  /** Writes that the other operand does not read leave its evaluation alone. */
  lemma Undisturbed(e: Expr, o: Order, store: Store, other: Expr, p: Order)
    requires Scalar(e) && Scalar(other) && !Meet(WritesOf(other), ReadsOf(e))
    ensures Eval(e, o, After(store, Eval(other, p, store))) == Eval(e, o, store)
  {
    WritesAreCollected(other, p, store);
    OnlyReadsMatter(e, o, After(store, Eval(other, p, store)), store);
  }

  lemma MergeCommutes(l: Expr, r: Expr, o: Order, p: Order, store: Store)
    requires Scalar(l) && Scalar(r) && !Meet(WritesOf(l), WritesOf(r))
    ensures var a, b := Eval(l, o, store), Eval(r, p, store); a.Done? && b.Done? ==> a.writes + b.writes == b.writes + a.writes
  {
    WritesAreCollected(l, o, store);
    WritesAreCollected(r, p, store);
  }

  /** Operands that do not collide may be evaluated in any order. */
  lemma AnyTiming(op: BinOp, l: Expr, r: Expr, o: Order, store: Store)
    requires Scalar(l) && Scalar(r) && Fits(l) && Fits(r)
    requires !IsLogical(op) && !IsAssignment(op) && !Collide(l, r)
    ensures Eval(Binary(op, l, r), o, store) == Combine(op, Eval(l, LeftOrder(o), store), Eval(r, RightOrder(o), store), true)
  {
    Undisturbed(l, LeftOrder(o), store, r, RightOrder(o));
    Undisturbed(r, RightOrder(o), store, l, LeftOrder(o));
    MergeCommutes(l, r, LeftOrder(o), RightOrder(o), store);
  }

  /** An assignment whose right side does not modify the target may be timed in any way. */
  lemma AnyStoreTiming(op: BinOp, l: Expr, r: Expr, o: Order, store: Store)
    requires l.Var? && Scalar(r) && |WritesOf(r)| <= CAPACITY && IsAssignment(op) && !AssignCollide(l, r)
    ensures Eval(Binary(op, l, r), o, store) == Store_(op, l.name, Eval(r, RightOrder(o), store), LeftFirst, store)
  {
    WritesAreCollected(r, RightOrder(o), store);
    var e, b := Binary(op, l, r), Eval(r, RightOrder(o), store);
    assert l.name in TargetWrites(l) && Eval(e, o, store) == EvalAssignment(e, o, store);
    if b.Done? {
      LandsAnywhere(op, l.name, b, TimingOf(o), store);
    }
  }

  lemma LandsAnywhere(op: BinOp, x: Name, right: Effect, timing: Timing, store: Store)
    requires right.Done? && x !in right.writes
    ensures Store_(op, x, right, timing, store) == Store_(op, x, right, LeftFirst, store)
  {
    forall v ensures map[x := v] + right.writes == right.writes + map[x := v] {}
  }

  /** Logical operators leave no choice of their own. */
  lemma LogicalOrder(e: Expr, o: Order, p: Order, store: Store)
    requires e.Binary? && IsLogical(e.op) && Eval(e.left, LeftOrder(o), store) == Eval(e.left, LeftOrder(p), store)
    requires var s := After(store, Eval(e.left, LeftOrder(o), store)); Eval(e.right, RightOrder(o), s) == Eval(e.right, RightOrder(p), s)
    ensures Eval(e, o, store) == Eval(e, p, store)
  {
    assert Eval(e, o, store) == EvalOperands(e, o, store) && Eval(e, p, store) == EvalOperands(e, p, store);
  }

  /** Where the check is silent, the value and the effect are the same under every order. */
  lemma {:induction false} OperandOrderIrrelevant(e: Expr, o: Order, p: Order, store: Store)
    requires Scalar(e) && Silent(e) && OperandsFit(e)
    ensures Eval(e, o, store) == Eval(e, p, store)
    decreases e
  {
    match e
    case Unary(op, operand) =>
      if !IsStep(op) {
        OperandOrderIrrelevant(operand, LeftOrder(o), LeftOrder(p), store);
      }
    case Binary(op, l, r) =>
      OperandOrderIrrelevant(l, LeftOrder(o), LeftOrder(p), store);
      OperandOrderIrrelevant(r, RightOrder(o), RightOrder(p), store);
      if IsLogical(op) {
        OperandOrderIrrelevant(r, RightOrder(o), RightOrder(p), After(store, Eval(l, LeftOrder(o), store)));
        LogicalOrder(e, o, p, store);
      } else if IsAssignment(op) {
        AnyStoreTiming(op, l, r, o, store);
        AnyStoreTiming(op, l, r, p, store);
      } else {
        AnyTiming(op, l, r, o, store);
        AnyTiming(op, l, r, p, store);
      }
    case _ =>
  }

  // ---------- arguments ----------

  /** The values of the arguments evaluated so far, by position, and the variables they changed. */
  datatype Batch = Failed | Batch(values: map<nat, int>, writes: Store)

  /** The arguments evaluated one after the other in the sequence `turn`, each under an order of its own. */
  function EvalArgs(args: seq<Expr>, orders: seq<Order>, turn: seq<nat>, store: Store): Batch
    requires |orders| == |args| && InRange(turn, |args|)
    decreases |turn|
  {
    if turn == [] then Batch(map[], map[])
    else
      var first := Eval(args[turn[0]], orders[turn[0]], store);
      var rest := EvalArgs(args, orders, turn[1..], After(store, first));
      if first.Trap? || rest.Failed? then Failed
      else Batch(map[turn[0] := first.value] + rest.values, first.writes + rest.writes)
  }

  predicate InRange(turn: seq<nat>, n: nat) {
    forall k :: 0 <= k < |turn| ==> turn[k] < n
  }

  function ToSeq<T>(l: List<T>): seq<T> {
    match l
    case Nil => []
    case Cons(h, t) => [h] + ToSeq(t)
  }

  predicate Distinct(turn: seq<nat>) {
    forall i, j :: 0 <= i < j < |turn| ==> turn[i] != turn[j]
  }

  predicate Checked(e: Expr) {
    Scalar(e) && Silent(e) && OperandsFit(e)
  }

  /** Every argument is scalar and checked on its own, and no two of them disturb each other. */
  ghost predicate Independent(args: seq<Expr>) {
    && (forall i :: 0 <= i < |args| ==> Checked(args[i]))
    && (forall i, j :: 0 <= i < |args| && 0 <= j < |args| && i != j ==> !Disturbs(args[i], args[j]))
  }

  /** The first expression may change what the second one reads or changes. */
  ghost predicate Disturbs(a: Expr, b: Expr) {
    Meet(WritesOf(a), WritesOf(b)) || Meet(WritesOf(a), ReadsOf(b))
  }

  /** What the `i`th argument does on its own in `store`. */
  function Alone(args: seq<Expr>, i: nat, store: Store): Effect
    requires i < |args|
  {
    Eval(args[i], Leaf, store)
  }

  /** The batch is what the arguments in `turn` do, each on its own in the same store. */
  ghost predicate Gathers(args: seq<Expr>, turn: seq<nat>, store: Store, b: Batch)
    requires InRange(turn, |args|)
  {
    && (b.Failed? <==> exists i :: i in turn && Alone(args, i, store).Trap?)
    && (b.Batch? ==>
         && ValuesGathered(args, turn, store, b.values)
         && WritesGathered(args, turn, store, b.writes))
  }

  ghost predicate ValuesGathered(args: seq<Expr>, turn: seq<nat>, store: Store, values: map<nat, int>)
    requires InRange(turn, |args|) && forall i :: i in turn ==> Alone(args, i, store).Done?
  {
    (forall i :: i in values <==> i in turn) && forall i :: i in turn ==> values[i] == Alone(args, i, store).value
  }

  ghost predicate WritesGathered(args: seq<Expr>, turn: seq<nat>, store: Store, writes: Store)
    requires InRange(turn, |args|) && forall i :: i in turn ==> Alone(args, i, store).Done?
  {
    && (forall x :: x in writes <==> exists i :: i in turn && x in Alone(args, i, store).writes)
    && (forall i, x :: i in turn && x in Alone(args, i, store).writes ==> writes[x] == Alone(args, i, store).writes[x])
  }

  /** Nothing the argument `h` does is seen or overwritten by another argument. */
  lemma LeavesAlone(args: seq<Expr>, h: nat, i: nat, store: Store)
    requires Independent(args) && h < |args| && i < |args| && h != i
    ensures Alone(args, i, After(store, Alone(args, h, store))) == Alone(args, i, store)
    ensures var a, b := Alone(args, h, store), Alone(args, i, store); a.Done? && b.Done? ==> forall x :: x in a.writes ==> x !in b.writes
  {
    assert !Disturbs(args[h], args[i]);
    Undisturbed(args[i], Leaf, store, args[h], Leaf);
    WritesAreCollected(args[h], Leaf, store);
    WritesAreCollected(args[i], Leaf, store);
  }

  lemma InTail(turn: seq<nat>)
    requires turn != [] && Distinct(turn)
    ensures Distinct(turn[1..]) && turn[0] !in turn[1..]
    ensures forall i :: i in turn <==> i == turn[0] || i in turn[1..]
  {
    assert turn == [turn[0]] + turn[1..];
  }

  /** The batch of the other arguments is the same as if the first one had not run. */
  lemma GathersWithout(args: seq<Expr>, h: nat, rest: seq<nat>, store: Store, b: Batch)
    requires Independent(args) && h < |args| && InRange(rest, |args|) && h !in rest
    requires Gathers(args, rest, After(store, Alone(args, h, store)), b)
    ensures Gathers(args, rest, store, b)
  {
    forall i | i in rest
      ensures Alone(args, i, After(store, Alone(args, h, store))) == Alone(args, i, store)
    {
      LeavesAlone(args, h, i, store);
    }
  }

  lemma GatherOneMore(args: seq<Expr>, turn: seq<nat>, store: Store, b: Batch)
    requires Independent(args) && turn != [] && Distinct(turn) && InRange(turn, |args|)
    requires Gathers(args, turn[1..], store, b)
    ensures var first := Alone(args, turn[0], store);
      Gathers(args, turn, store,
              if first.Trap? || b.Failed? then Failed else Batch(map[turn[0] := first.value] + b.values, first.writes + b.writes))
  {
    InTail(turn);
    GatherTraps(args, turn, store, b);
    if Alone(args, turn[0], store).Done? && b.Batch? {
      GatherWrites(args, turn, store, b.writes);
      GatherValues(args, turn, store, b.values);
    }
  }

  lemma GatherValues(args: seq<Expr>, turn: seq<nat>, store: Store, values: map<nat, int>)
    requires turn != [] && InRange(turn, |args|) && (forall i :: i in turn <==> i == turn[0] || i in turn[1..]) && turn[0] !in turn[1..]
    requires (forall i :: i in turn ==> Alone(args, i, store).Done?) && ValuesGathered(args, turn[1..], store, values)
    ensures ValuesGathered(args, turn, store, map[turn[0] := Alone(args, turn[0], store).value] + values)
  {
  }

  lemma GatherTraps(args: seq<Expr>, turn: seq<nat>, store: Store, b: Batch)
    requires turn != [] && InRange(turn, |args|) && (forall i :: i in turn <==> i == turn[0] || i in turn[1..])
    requires b.Failed? <==> exists i :: i in turn[1..] && Alone(args, i, store).Trap?
    ensures Alone(args, turn[0], store).Trap? || b.Failed? <==> exists i :: i in turn && Alone(args, i, store).Trap?
  {
    assert Alone(args, turn[0], store).Trap? ==> turn[0] in turn;
  }

  lemma GatherWrites(args: seq<Expr>, turn: seq<nat>, store: Store, writes: Store)
    requires Independent(args) && turn != [] && Distinct(turn) && InRange(turn, |args|)
    requires forall i :: i in turn ==> Alone(args, i, store).Done?
    requires (forall i :: i in turn[1..] ==> i in turn) && WritesGathered(args, turn[1..], store, writes)
    ensures WritesGathered(args, turn, store, Alone(args, turn[0], store).writes + writes)
  {
    InTail(turn);
    HeadApart(args, turn, store);
    var ws := AllWrites(args, store);
    assert forall i :: i in turn ==> ws[i] == Alone(args, i, store).writes;
    UnionWithHead(ws, turn, writes);
  }

  function AllWrites(args: seq<Expr>, store: Store): (ws: seq<Store>)
    ensures |ws| == |args|
  {
    seq(|args|, i requires 0 <= i < |args| => var a := Alone(args, i, store); if a.Done? then a.writes else map[])
  }

  ghost predicate Union(ws: seq<Store>, turn: seq<nat>, writes: Store)
    requires InRange(turn, |ws|)
  {
    && (forall x :: x in writes <==> exists i :: i in turn && x in ws[i])
    && (forall i, x :: i in turn && x in ws[i] ==> writes[x] == ws[i][x])
  }

  lemma UnionWithHead(ws: seq<Store>, turn: seq<nat>, writes: Store)
    requires turn != [] && InRange(turn, |ws|) && (forall i :: i in turn <==> i == turn[0] || i in turn[1..])
    requires Union(ws, turn[1..], writes) && forall i, x :: i in turn[1..] && x in ws[turn[0]] ==> x !in ws[i]
    ensures Union(ws, turn, ws[turn[0]] + writes)
  {
  }

  lemma HeadApart(args: seq<Expr>, turn: seq<nat>, store: Store)
    requires Independent(args) && turn != [] && InRange(turn, |args|) && turn[0] !in turn[1..]
    requires forall i :: i in turn ==> Alone(args, i, store).Done?
    ensures forall i, x :: i in turn[1..] && x in Alone(args, turn[0], store).writes ==> x !in Alone(args, i, store).writes
  {
    forall i | i in turn[1..]
      ensures forall x :: x in Alone(args, turn[0], store).writes ==> x !in Alone(args, i, store).writes
    {
      LeavesAlone(args, turn[0], i, store);
    }
  }

  /** Whatever the turn and the orders, each argument acts as if it were alone. */
  lemma {:induction false} EachActsAlone(args: seq<Expr>, orders: seq<Order>, turn: seq<nat>, store: Store)
    requires |orders| == |args| && Independent(args)
    requires Distinct(turn) && InRange(turn, |args|)
    ensures Gathers(args, turn, store, EvalArgs(args, orders, turn, store))
    decreases |turn|
  {
    if turn != [] {
      var h := turn[0];
      InTail(turn);
      OperandOrderIrrelevant(args[h], orders[h], Leaf, store);
      var later := After(store, Alone(args, h, store));
      EachActsAlone(args, orders, turn[1..], later);
      GathersWithout(args, h, turn[1..], store, EvalArgs(args, orders, turn[1..], later));
      GatherOneMore(args, turn, store, EvalArgs(args, orders, turn[1..], later));
    }
  }

  lemma GathersUnique(args: seq<Expr>, s: seq<nat>, t: seq<nat>, store: Store, a: Batch, b: Batch)
    requires InRange(s, |args|) && InRange(t, |args|) && forall i :: i in s <==> i in t
    requires Gathers(args, s, store, a) && Gathers(args, t, store, b)
    ensures a == b
  {
    if a.Batch? && b.Batch? {
      assert a.values.Keys == b.values.Keys;
      assert a.values == b.values;
      assert a.writes.Keys == b.writes.Keys;
      assert a.writes == b.writes;
    }
  }

  // ---------- from the cumulative check to independence ----------

  /** No set was full when an argument was compared with those before it. */
  predicate ArgsFit(args: List<Expr>, seen: seq<Name>, written: seq<Name>) {
    args.Cons? ==>
      && |seen| <= CAPACITY && |written| <= CAPACITY && Fits(args.head)
      && ArgsFit(args.tail, seen + ReadsOf(args.head), written + WritesOf(args.head))
  }

  predicate EachSilent(args: List<Expr>) {
    args.Cons? ==> Scalar(args.head) && Silent(args.head) && EachSilent(args.tail)
  }

  ghost predicate Untouched(e: Expr, seen: seq<Name>, written: seq<Name>) {
    !Meet(WritesOf(e), seen) && !Meet(WritesOf(e), written) && !Meet(ReadsOf(e), written)
  }

  /** Nothing in `args` disturbs, or is disturbed by, what was seen and written before. */
  ghost predicate Clear(args: seq<Expr>, seen: seq<Name>, written: seq<Name>) {
    forall i :: 0 <= i < |args| ==> Untouched(args[i], seen, written)
  }

  /** Silence of the cumulative check makes the arguments independent, and clear of what came first. */
  lemma {:induction false} SilentCallIndependent(args: List<Expr>, seen: seq<Name>, written: seq<Name>)
    requires EachSilent(args) && ArgsFit(args, seen, written) && !ArgsCollide(args, seen, written)
    ensures Independent(ToSeq(args)) && Clear(ToSeq(args), seen, written)
    decreases args
  {
    if args.Cons? {
      var a, r, w := args.head, ReadsOf(args.head), WritesOf(args.head);
      FitsThroughout(a);
      assert args.tail.Cons? ==> Cap(seen + Cap(r)) == seen + r && Cap(written + Cap(w)) == written + w;
      SilentCallIndependent(args.tail, seen + r, written + w);
      ClearOfBoth(ToSeq(args.tail), seen, written, r, w);
      IndependentOfHead(a, ToSeq(args.tail));
    }
  }

  lemma ClearOfBoth(args: seq<Expr>, seen: seq<Name>, written: seq<Name>, r: seq<Name>, w: seq<Name>)
    requires Clear(args, seen + r, written + w)
    ensures Clear(args, seen, written) && Clear(args, r, w)
  {
  }

  lemma IndependentOfHead(a: Expr, rest: seq<Expr>)
    requires Independent(rest) && Clear(rest, ReadsOf(a), WritesOf(a)) && Checked(a)
    ensures Independent([a] + rest)
  {
    var all := [a] + rest;
    forall i | 0 <= i < |all| ensures Checked(all[i]) {
      assert i > 0 ==> all[i] == rest[i - 1];
    }
    forall i, j | 0 <= i < |all| && 0 <= j < |all| && i != j ensures !Disturbs(all[i], all[j]) {
      HeadAndTail(a, rest, i, j);
    }
  }

  lemma HeadAndTail(a: Expr, rest: seq<Expr>, i: nat, j: nat)
    requires Independent(rest) && Clear(rest, ReadsOf(a), WritesOf(a)) && i <= |rest| && j <= |rest| && i != j
    ensures !Disturbs(([a] + rest)[i], ([a] + rest)[j])
  {
    if i == 0 {
      NoneDisturbed(a, rest[j - 1]);
    } else if j == 0 {
      NoneDisturbed(a, rest[i - 1]);
    } else {
      assert !Disturbs(rest[i - 1], rest[j - 1]);
    }
  }

  lemma NoneDisturbed(a: Expr, b: Expr)
    requires Untouched(b, ReadsOf(a), WritesOf(a))
    ensures !Disturbs(a, b) && !Disturbs(b, a)
  {
  }

  predicate Permutes(turn: seq<nat>, n: nat) {
    Distinct(turn) && InRange(turn, n) && forall i :: 0 <= i < n ==> i in turn
  }

  /** A call the check accepts may evaluate its receiver and arguments in any turn, each under
      any order of its own: values and final store are the same. */
  lemma ArgumentOrderIrrelevant(receiver: Option<Expr>, args: List<Expr>, orders: seq<Order>, turn: seq<nat>,
                                orders': seq<Order>, turn': seq<nat>, store: Store)
    requires var all := if receiver.Some? then Cons(receiver.value, args) else args;
      && !CallCollide(receiver, args) && EachSilent(all) && ArgsFit(all, [], [])
      && |orders| == |ToSeq(all)| == |orders'| && Permutes(turn, |orders|) && Permutes(turn', |orders|)
    ensures var all := ToSeq(if receiver.Some? then Cons(receiver.value, args) else args);
      EvalArgs(all, orders, turn, store) == EvalArgs(all, orders', turn', store)
  {
    var all := if receiver.Some? then Cons(receiver.value, args) else args;
    if receiver.Some? {
      var r := receiver.value;
      assert [] + ReadsOf(r) == ReadsOf(r) && [] + WritesOf(r) == WritesOf(r);
    }
    SilentCallIndependent(all, [], []);
    var s := ToSeq(all);
    EachActsAlone(s, orders, turn, store);
    EachActsAlone(s, orders', turn', store);
    GathersUnique(s, turn, turn', store, EvalArgs(s, orders, turn, store), EvalArgs(s, orders', turn', store));
  }

  // ---------- where the check stays silent although order shows ----------

  const X := Var("x", 1)
  const Bump := Unary(PostInc, X)

  lemma SumOf(l: Expr, r: Expr, store: Store)
    ensures Eval(Binary(Add, l, r), Leaf, store) ==
            Combine(Add, Eval(l, Leaf, store), Eval(r, Leaf, After(store, Eval(l, Leaf, store))), true)
  {
    var e := Binary(Add, l, r);
    assert Eval(e, Leaf, store) == EvalOperands(e, Leaf, store);
  }

  lemma SumOfRightFirst(l: Expr, r: Expr, store: Store)
    ensures Eval(Binary(Add, l, r), Fork(RightFirst, Leaf, Leaf), store) ==
            Combine(Add, Eval(l, Leaf, After(store, Eval(r, Leaf, store))), Eval(r, Leaf, store), false)
  {
    var e, o := Binary(Add, l, r), Fork(RightFirst, Leaf, Leaf);
    assert Eval(e, o, store) == EvalOperands(e, o, store);
  }

  lemma BumpAndX(store: Store)
    ensures Eval(Bump, Leaf, store) == Done(Get(store, "x"), map["x" := Get(store, "x") + 1])
    ensures Eval(X, Leaf, store) == Done(Get(store, "x"), map[])
  {
  }

  /** An operand that bumps `x` and one that reads it: the sum depends on the order. */
  lemma OrderShows(bump: Expr, read: Expr)
    requires Eval(bump, Leaf, map[]) == Done(0, map["x" := 1])
    requires Eval(read, Leaf, map[]) == Done(0, map[]) && Eval(read, Leaf, map["x" := 1]) == Done(1, map[])
    ensures Eval(Binary(Add, bump, read), Leaf, map[]) == Done(1, map["x" := 1])
    ensures Eval(Binary(Add, bump, read), Fork(RightFirst, Leaf, Leaf), map[]) == Done(0, map["x" := 1])
    ensures Eval(Binary(Add, read, bump), Leaf, map[]) == Done(0, map["x" := 1])
    ensures Eval(Binary(Add, read, bump), Fork(RightFirst, Leaf, Leaf), map[]) == Done(1, map["x" := 1])
  {
    var after: Store := map["x" := 1];
    assert map[] + after == after && after + map[] == after;
    SumOf(bump, read, map[]);
    SumOf(read, bump, map[]);
    SumOfRightFirst(bump, read, map[]);
    SumOfRightFirst(read, bump, map[]);
  }

  lemma CastOf(e: Expr, store: Store)
    ensures Eval(Cast(e), Leaf, store) == Eval(e, Leaf, store)
  {
  }

  lemma CastIsSilent()
    ensures var e := Binary(Add, Cast(Bump), X); Silent(e) && Fits(e)
  {
    assert WritesOf(Cast(Bump)) == [] && ReadsOf(Cast(Bump)) == [] && WritesOf(X) == [];
  }

  /** The collection does not look inside a cast: `(int)(x++) + x` passes, and its value depends on the order. */
  lemma CastHidesCollision()
    ensures var e := Binary(Add, Cast(Bump), X);
      && Silent(e) && Fits(e)
      && Eval(e, Leaf, map[]) == Done(1, map["x" := 1]) && Eval(e, Fork(RightFirst, Leaf, Leaf), map[]) == Done(0, map["x" := 1])
  {
    CastIsSilent();
    CastOf(Bump, map[]);
    BumpAndX(map[]);
    BumpAndX(map["x" := 1]);
    OrderShows(Cast(Bump), X);
  }

  /** `y + y + ... + y`, with `n + 1` operands. */
  function Sum(n: nat): Expr {
    if n == 0 then Var("y", 1) else Binary(Add, Sum(n - 1), Var("y", 1))
  }

  lemma {:induction false} SumReads(n: nat)
    ensures Scalar(Sum(n)) && Silent(Sum(n)) && WritesOf(Sum(n)) == []
    ensures |ReadsOf(Sum(n))| == n + 1 && forall x :: x in ReadsOf(Sum(n)) ==> x == "y"
  {
    if n > 0 {
      SumReads(n - 1);
    }
  }

  lemma {:induction false} SumIsZero(n: nat, store: Store)
    requires "y" !in store
    ensures Eval(Sum(n), Leaf, store) == Done(0, map[])
  {
    if n > 0 {
      SumIsZero(n - 1, store);
      ZeroPlusZero(Sum(n - 1), Var("y", 1), store);
    }
  }

  lemma ZeroPlusZero(l: Expr, r: Expr, store: Store)
    requires Eval(l, Leaf, store) == Done(0, map[]) == Eval(r, Leaf, store)
    ensures Eval(Binary(Add, l, r), Leaf, store) == Done(0, map[])
  {
    SumOf(l, r, store);
    assert After(store, Done(0, map[])) == store;
  }

  lemma ZeroPlusX(l: Expr, store: Store)
    requires Eval(l, Leaf, store) == Done(0, map[])
    ensures Eval(Binary(Add, l, X), Leaf, store) == Done(Get(store, "x"), map[])
  {
    SumOf(l, X, store);
    BumpAndX(store);
    assert After(store, Done(0, map[])) == store;
  }

  lemma FullSetIsSilent(n: nat, l: Expr)
    requires n >= CAPACITY - 1 && l == Binary(Add, Sum(n), X)
    ensures Scalar(l) && Silent(l) && !Collide(l, Bump)
  {
    SumReads(n);
    assert Cap(ReadsOf(l)) == Cap(ReadsOf(Sum(n))) && WritesOf(X) == [] && WritesOf(l) == [];
    assert !Collide(Sum(n), X) && Silent(l);
    assert "x" != "y" by { assert "x"[0] != "y"[0]; }
    assert forall v :: v in Cap(ReadsOf(Sum(n))) ==> v in ReadsOf(Sum(n));
    assert WritesOf(Bump) == ["x"] && "x" !in Cap(ReadsOf(l));
  }

  /** A set with room for 32 reads forgets the 33rd: with 32 or more operands `y` the sum
      `(y + ... + y + x) + x++` passes, although the order of its operands shows. */
  lemma FullSetHidesCollision(n: nat)
    requires n >= 31
    ensures var e := Binary(Add, Binary(Add, Sum(n), X), Bump);
      && Scalar(e) && Silent(e)
      && Eval(e, Leaf, map[]) == Done(0, map["x" := 1]) && Eval(e, Fork(RightFirst, Leaf, Leaf), map[]) == Done(1, map["x" := 1])
  {
    var l := Binary(Add, Sum(n), X);
    FullSetIsSilent(n, l);
    forall store: Store | "y" !in store ensures Eval(l, Leaf, store) == Done(Get(store, "x"), map[]) {
      SumIsZero(n, store);
      ZeroPlusX(Sum(n), store);
    }
    BumpAndX(map[]);
    OrderShows(Bump, l);
  }
}
