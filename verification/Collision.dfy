/** MISRA Rule 13.2: no variable is modified in one operand and used in another. */
module Collision {
  import opened Ast

  const CAPACITY := 32

  // ---------- the variables an expression reads and writes ----------

  /** What `collect_symbols` records as reads, in order; an assignment target counts as one. */
  function ReadsOf(e: Expr): seq<Name>
    decreases e
  {
    match e
    case Var(x, _) => [x]
    case Binary(_, l, r) => ReadsOf(l) + ReadsOf(r)
    case Unary(_, o) => ReadsOf(o)
    case Call(f, args, _) => ReadsOf(f) + ArgReads(args)
    case _ => []
  }

  function ArgReads(args: List<Expr>): seq<Name>
    decreases args
  {
    match args
    case Nil => []
    case Cons(arg, tail) => ReadsOf(arg) + ArgReads(tail)
  }

  /** The operator text contains `=`; comparisons count too. */
  predicate HasEqualsSign(op: BinOp) {
    IsAssignment(op) || op.Eq? || op.Ne? || op.Le? || op.Ge?
  }

  function Target(e: Expr): seq<Name> {
    if e.Var? then [e.name] else []
  }

  /** What `collect_symbols` records as writes, in order. */
  function WritesOf(e: Expr): seq<Name>
    decreases e
  {
    match e
    case Binary(op, l, r) => (if HasEqualsSign(op) then Target(l) else []) + WritesOf(l) + WritesOf(r)
    case Unary(op, o) => (if IsStep(op) then Target(o) else []) + WritesOf(o)
    case Call(f, args, _) => WritesOf(f) + ArgWrites(args)
    case _ => []
  }

  function ArgWrites(args: List<Expr>): seq<Name>
    decreases args
  {
    match args
    case Nil => []
    case Cons(arg, tail) => WritesOf(arg) + ArgWrites(tail)
  }

  /** A symbol set has room for 32 entries; what comes later is dropped. */
  function Cap(s: seq<Name>): seq<Name> {
    if |s| <= CAPACITY then s else s[..CAPACITY]
  }

  lemma CapTwice(a: seq<Name>, b: seq<Name>)
    ensures Cap(Cap(a) + b) == Cap(a + b)
  {
  }

  /** Adding `p` and then `q` to a set that holds `s` is adding `p + q`. */
  lemma CapInParts(s: seq<Name>, p: seq<Name>, q: seq<Name>)
    ensures Cap(Cap(s + p) + q) == Cap(s + (p + q))
  {
    CapTwice(s + p, q);
    assert s + p + q == s + (p + q);
  }

  predicate Meet(a: seq<Name>, b: seq<Name>) {
    exists x :: x in a && x in b
  }

  /** `check_side_effect_collision` reports the operands `l` and `r`. */
  predicate Collide(l: Expr, r: Expr) {
    Meet(Cap(WritesOf(l)), Cap(WritesOf(r))) || Meet(Cap(WritesOf(l)), Cap(ReadsOf(r))) || Meet(Cap(WritesOf(r)), Cap(ReadsOf(l)))
  }

  /** The target is entered unless it is there already. */
  function TargetWrites(l: Expr): seq<Name> {
    var w := Cap(WritesOf(l));
    if l.Var? && l.name !in w && |w| < CAPACITY then w + [l.name] else w
  }

  /** An assignment is reported when its right side modifies its target. */
  predicate AssignCollide(l: Expr, r: Expr) {
    Meet(TargetWrites(l), Cap(WritesOf(r)))
  }

  /** `check_all_args_side_effects` reports one of `args` against what the earlier arguments
      (and the receiver) have read and written so far. */
  predicate ArgsCollide(args: List<Expr>, seen: seq<Name>, written: seq<Name>)
    decreases args
  {
    match args
    case Nil => false
    case Cons(arg, tail) =>
      Meet(Cap(WritesOf(arg)), seen) || Meet(Cap(WritesOf(arg)), written) || Meet(Cap(ReadsOf(arg)), written) ||
      ArgsCollide(tail, Cap(seen + Cap(ReadsOf(arg))), Cap(written + Cap(WritesOf(arg))))
  }

  /** A method call checks its receiver too; a plain call has none. */
  predicate CallCollide(receiver: Option<Expr>, args: List<Expr>) {
    match receiver
    case None => ArgsCollide(args, [], [])
    case Some(r) => ArgsCollide(args, Cap(ReadsOf(r)), Cap(WritesOf(r)))
  }

  /** No Rule 13.2 report anywhere in `e`. */
  predicate Silent(e: Expr)
    decreases e
  {
    match e
    case Binary(op, l, r) =>
      Silent(l) && Silent(r) &&
      (if IsAssignment(op) then !AssignCollide(l, r) else IsLogical(op) || !Collide(l, r))
    case Unary(_, o) => Silent(o)
    case Call(f, args, _) => Silent(f) && ArgsSilent(args) && !CallCollide(None, args)
    case Index(a, i) => Silent(a) && Silent(i)
    case Cast(o) => Silent(o)
    case _ => true
  }

  predicate ArgsSilent(args: List<Expr>)
    decreases args
  {
    args.Cons? ==> Silent(args.head) && ArgsSilent(args.tail)
  }

  // ---------- the check as the compiler runs it ----------

  class SymbolSet {
    const syms: array<Name>
    var count: nat
    ghost var contents: seq<Name>

    ghost predicate Valid()
      reads this, syms
    {
      syms.Length == CAPACITY && count <= CAPACITY && contents == syms[..count]
    }

    constructor ()
      ensures Valid() && contents == [] && fresh(syms)
    {
      syms := new Name[CAPACITY];
      count := 0;
      contents := [];
    }

    method Add(x: Name)
      requires Valid()
      modifies this, syms
      ensures Valid() && contents == Cap(old(contents) + [x])
    {
      if count < CAPACITY {
        syms[count] := x;
        count := count + 1;
        contents := contents + [x];
      }
    }

    method Contains(x: Name) returns (found: bool)
      requires Valid()
      ensures found == (x in contents)
    {
      for i := 0 to count
        invariant x !in syms[..i]
      {
        if syms[i] == x {
          return true;
        }
      }
      return false;
    }

    /** Adds the entries of `other` while there is room. */
    method AddAll(other: SymbolSet)
      requires Valid() && other.Valid() && other != this && other.syms != syms
      modifies this, syms
      ensures Valid() && contents == Cap(old(contents) + other.contents)
    {
      var i := 0;
      assert contents + other.contents[..0] == contents;
      while i < other.count && count < CAPACITY
        invariant Valid() && i <= other.count && contents == Cap(old(contents) + other.contents[..i])
      {
        assert other.contents[..i + 1] == other.contents[..i] + [other.syms[i]];
        CapInParts(old(contents), other.contents[..i], [other.syms[i]]);
        Add(other.syms[i]);
        i := i + 1;
      }
    }

    /** Some entry of this set is in `other` too. */
    method Meets(other: SymbolSet) returns (found: bool)
      requires Valid() && other.Valid()
      ensures found == Meet(contents, other.contents)
    {
      for i := 0 to count
        invariant forall j :: 0 <= j < i ==> syms[j] !in other.contents
      {
        var hit := other.Contains(syms[i]);
        if hit {
          assert syms[i] in contents;
          return true;
        }
      }
      return false;
    }
  }

  /** Two sets that share nothing. */
  ghost predicate Separate(a: SymbolSet, b: SymbolSet)
    reads a, b, a.syms, b.syms
  {
    a.Valid() && b.Valid() && a != b && a.syms != b.syms
  }

  method CollectSymbols(e: Expr, reads_: SymbolSet, writes: SymbolSet)
    requires Separate(reads_, writes)
    modifies reads_, reads_.syms, writes, writes.syms
    ensures Separate(reads_, writes)
    ensures reads_.contents == Cap(old(reads_.contents) + ReadsOf(e))
    ensures writes.contents == Cap(old(writes.contents) + WritesOf(e))
    decreases e, 1
  {
    match e {
      case Binary(_, _, _) => CollectBinary(e, reads_, writes);
      case Unary(op, o) => CollectUnary(e, reads_, writes);
      case Var(x, _) =>
        reads_.Add(x);
        assert writes.contents + [] == writes.contents;
      case Call(_, _, _) => CollectCall(e, reads_, writes);
      case _ =>
        assert reads_.contents + [] == reads_.contents && writes.contents + [] == writes.contents;
    }
  }

  /** Enters the variable `e` names, if it is one. */
  method AddTarget(e: Expr, writes: SymbolSet)
    requires writes.Valid()
    modifies writes, writes.syms
    ensures writes.Valid() && writes.contents == Cap(old(writes.contents) + Target(e))
  {
    if e.Var? {
      writes.Add(e.name);
    } else {
      assert writes.contents + [] == writes.contents;
    }
  }

  method CollectBinary(e: Expr, reads_: SymbolSet, writes: SymbolSet)
    requires e.Binary? && Separate(reads_, writes)
    modifies reads_, reads_.syms, writes, writes.syms
    ensures Separate(reads_, writes)
    ensures reads_.contents == Cap(old(reads_.contents) + ReadsOf(e))
    ensures writes.contents == Cap(old(writes.contents) + WritesOf(e))
    decreases e, 0
  {
    CapInParts(reads_.contents, ReadsOf(e.left), ReadsOf(e.right));
    CapInParts(writes.contents, WritesOf(e.left), WritesOf(e.right));
    CapInParts(writes.contents, Target(e.left), WritesOf(e.left));
    CapInParts(writes.contents, Target(e.left) + WritesOf(e.left), WritesOf(e.right));
    assert [] + WritesOf(e.left) == WritesOf(e.left);
    if HasEqualsSign(e.op) {
      AddTarget(e.left, writes);
    }
    CollectSymbols(e.left, reads_, writes);
    CollectSymbols(e.right, reads_, writes);
  }

  method CollectUnary(e: Expr, reads_: SymbolSet, writes: SymbolSet)
    requires e.Unary? && Separate(reads_, writes)
    modifies reads_, reads_.syms, writes, writes.syms
    ensures Separate(reads_, writes)
    ensures reads_.contents == Cap(old(reads_.contents) + ReadsOf(e))
    ensures writes.contents == Cap(old(writes.contents) + WritesOf(e))
    decreases e, 0
  {
    CapInParts(writes.contents, Target(e.operand), WritesOf(e.operand));
    assert [] + WritesOf(e.operand) == WritesOf(e.operand);
    if IsStep(e.uop) {
      AddTarget(e.operand, writes);
    }
    CollectSymbols(e.operand, reads_, writes);
  }

  method CollectCall(e: Expr, reads_: SymbolSet, writes: SymbolSet)
    requires e.Call? && Separate(reads_, writes)
    modifies reads_, reads_.syms, writes, writes.syms
    ensures Separate(reads_, writes)
    ensures reads_.contents == Cap(old(reads_.contents) + ReadsOf(e))
    ensures writes.contents == Cap(old(writes.contents) + WritesOf(e))
    decreases e, 0
  {
    CapInParts(reads_.contents, ReadsOf(e.callee), ArgReads(e.args));
    CapInParts(writes.contents, WritesOf(e.callee), ArgWrites(e.args));
    CollectSymbols(e.callee, reads_, writes);
    CollectArgs(e.args, reads_, writes);
  }

  method CollectArgs(args: List<Expr>, reads_: SymbolSet, writes: SymbolSet)
    requires Separate(reads_, writes)
    modifies reads_, reads_.syms, writes, writes.syms
    ensures Separate(reads_, writes)
    ensures reads_.contents == Cap(old(reads_.contents) + ArgReads(args))
    ensures writes.contents == Cap(old(writes.contents) + ArgWrites(args))
    decreases args
  {
    ghost var allReads, allWrites := Cap(reads_.contents + ArgReads(args)), Cap(writes.contents + ArgWrites(args));
    var arg := args;
    while arg.Cons?
      invariant Separate(reads_, writes) && (arg == args || arg < args)
      invariant Cap(reads_.contents + ArgReads(arg)) == allReads && Cap(writes.contents + ArgWrites(arg)) == allWrites
      decreases arg
    {
      CapInParts(reads_.contents, ReadsOf(arg.head), ArgReads(arg.tail));
      CapInParts(writes.contents, WritesOf(arg.head), ArgWrites(arg.tail));
      CollectSymbols(arg.head, reads_, writes);
      arg := arg.tail;
    }
    assert reads_.contents + [] == reads_.contents && writes.contents + [] == writes.contents;
  }

  /** Collects into fresh sets. */
  method Collect(e: Expr) returns (reads_: SymbolSet, writes: SymbolSet)
    ensures Separate(reads_, writes) && fresh(reads_) && fresh(writes) && fresh(reads_.syms) && fresh(writes.syms)
    ensures reads_.contents == Cap(ReadsOf(e)) && writes.contents == Cap(WritesOf(e))
  {
    reads_ := new SymbolSet();
    writes := new SymbolSet();
    CollectSymbols(e, reads_, writes);
    assert [] + ReadsOf(e) == ReadsOf(e) && [] + WritesOf(e) == WritesOf(e);
  }

  method CheckSideEffectCollision(l: Expr, r: Expr) returns (reported: bool)
    ensures reported == Collide(l, r)
  {
    var lReads, lWrites := Collect(l);
    var rReads, rWrites := Collect(r);
    reported := lWrites.Meets(rWrites);
    if !reported {
      reported := lWrites.Meets(rReads);
    }
    if !reported {
      reported := rWrites.Meets(lReads);
    }
  }

  /** The collision part of the check of an assignment. */
  method CheckAssignment(l: Expr, r: Expr) returns (reported: bool)
    ensures reported == AssignCollide(l, r)
  {
    var lReads, lWrites := Collect(l);
    var rReads, rWrites := Collect(r);
    if l.Var? {
      var already := lWrites.Contains(l.name);
      if !already && lWrites.count < CAPACITY {
        lWrites.Add(l.name);
      }
    }
    reported := lWrites.Meets(rWrites);
  }

  // ---------- the arguments of one call ----------

  method CheckAllArgsSideEffects(receiver: Option<Expr>, args: List<Expr>) returns (reported: bool)
    ensures reported == CallCollide(receiver, args)
  {
    var seen, written;
    match receiver {
      case None =>
        seen := new SymbolSet();
        written := new SymbolSet();
      case Some(r) =>
        seen, written := Collect(r);
    }
    var arg := args;
    while arg.Cons?
      invariant Separate(seen, written) && fresh(seen) && fresh(seen.syms) && fresh(written) && fresh(written.syms)
      invariant ArgsCollide(arg, seen.contents, written.contents) == CallCollide(receiver, args)
      decreases arg
    {
      var nextReads, nextWrites := Collect(arg.head);
      var hit := ThreeWay(nextReads, nextWrites, seen, written);
      if hit {
        return true;
      }
      seen.AddAll(nextReads);
      written.AddAll(nextWrites);
      arg := arg.tail;
    }
    return false;
  }

  method ThreeWay(nextReads: SymbolSet, nextWrites: SymbolSet, seen: SymbolSet, written: SymbolSet) returns (hit: bool)
    requires nextReads.Valid() && nextWrites.Valid() && seen.Valid() && written.Valid()
    ensures hit == (Meet(nextWrites.contents, seen.contents) || Meet(nextWrites.contents, written.contents) ||
                   Meet(nextReads.contents, written.contents))
  {
    hit := nextWrites.Meets(seen);
    if !hit {
      hit := nextWrites.Meets(written);
    }
    if !hit {
      hit := nextReads.Meets(written);
    }
  }

  /** The walk of the type checker over an expression: is Rule 13.2 reported anywhere? */
  method CheckExpression(e: Expr) returns (reported: bool)
    ensures reported == !Silent(e)
    decreases e
  {
    reported := false;
    match e {
      case Binary(op, l, r) =>
        var a := CheckExpression(l);
        var b := CheckExpression(r);
        var c := false;
        if IsAssignment(op) {
          c := CheckAssignment(l, r);
        } else if !IsLogical(op) {
          c := CheckSideEffectCollision(l, r);
        }
        reported := a || b || c;
      case Unary(_, o) => reported := CheckExpression(o);
      case Call(f, args, _) =>
        var a := CheckExpression(f);
        var b := CheckArguments(args);
        var c := CheckAllArgsSideEffects(None, args);
        reported := a || b || c;
      case Index(array_, i) =>
        var a := CheckExpression(array_);
        var b := CheckExpression(i);
        reported := a || b;
      case Cast(o) => reported := CheckExpression(o);
      case _ =>
    }
  }

  method CheckArguments(args: List<Expr>) returns (reported: bool)
    ensures reported == !ArgsSilent(args)
    decreases args
  {
    reported := false;
    var arg := args;
    while arg.Cons?
      invariant arg == args || arg < args
      invariant !ArgsSilent(args) == (reported || !ArgsSilent(arg))
      decreases arg
    {
      var a := CheckExpression(arg.head);
      reported := reported || a;
      arg := arg.tail;
    }
  }
}
