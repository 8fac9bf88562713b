/** The compile-time interpreter as it runs, on linked scopes and blocks of cells.  Every
    method is proved to have the effect of its counterpart in ComptimeSpec: the chain of
    scope entries holds the bindings of the functional state, the buffer its output, and
    no two stored values share a block. */
module Comptime {
  import opened Ast
  import opened ComptimeSpec
  import opened ComptimeValues
  import opened Yield

  /** A scope entry. */
  class CScope {
    const name: Name
    var value: CValue
    const next: CScope?
    /** The length of the chain from here. */
    ghost const height: nat

    constructor (name: Name, value: CValue, next: CScope?)
      ensures this.name == name && this.value == value && this.next == next
      ensures height == 1 + HeightOf(next)
    {
      this.name, this.value, this.next := name, value, next;
      height := 1 + HeightOf(next);
    }
  }

  ghost function HeightOf(e: CScope?): nat {
    if e == null then 0 else e.height
  }

  /** The entries of a scope chain, innermost first, and what each of them stores; `cells` and
      `blocks` contain all the storage the chain has used. */
  datatype Frame = Frame(entries: seq<CScope>, trees: seq<Tree>, cells: set<CScope>, blocks: set<object>)

  ghost function Nth(entries: seq<CScope>, i: nat): CScope? {
    if i < |entries| then entries[i] else null
  }

  ghost predicate Linked(head: CScope?, entries: seq<CScope>) {
    && head == (if entries == [] then null else entries[0])
    && forall i {:trigger entries[i].next} {:trigger entries[i].height} :: 0 <= i < |entries| ==>
         entries[i].next == Nth(entries, i + 1) && entries[i].height == |entries| - i
  }

  /** The chain at `head` holds the bindings `env`; no two of them share storage. */
  ghost predicate Holds(head: CScope?, f: Frame, env: Env)
    reads f.cells, f.blocks
  {
    && |f.entries| == |f.trees| == |env| && Linked(head, f.entries) && Apart(f.trees) && f.cells !! f.blocks
    && forall i :: 0 <= i < |env| ==>
         && f.entries[i] in f.cells && Blocks(f.trees[i]) <= f.blocks && f.entries[i].name == env[i].name
         && Shows(f.entries[i].value, f.trees[i]) && Owned(f.trees[i]) && Content(f.trees[i]) == env[i].value
  }

  ghost function Pushed(f: Frame, e: CScope, t: Tree): Frame {
    Frame([e] + f.entries, [t] + f.trees, f.cells + {e}, f.blocks + Blocks(t))
  }

  lemma PushHolds(e: CScope, t: Tree, head: CScope?, f: Frame, env: Env)
    requires Holds(head, f, env) && e !in f.cells && e.next == head && e.height == 1 + HeightOf(head)
    requires Shows(e.value, t) && Owned(t) && Blocks(t) !! f.blocks && Blocks(t) !! f.cells && e !in f.blocks && e !in Blocks(t)
    ensures Holds(e, Pushed(f, e, t), [Binding(e.name, Content(t))] + env)
  {
    var g := Pushed(f, e, t);
    PushLinked(e, head, f.entries);
    forall i, j | 0 <= i < |g.trees| && 0 <= j < |g.trees| && i != j ensures Blocks(g.trees[i]) !! Blocks(g.trees[j]) {
      assert i > 0 ==> g.trees[i] == f.trees[i - 1];
      assert j > 0 ==> g.trees[j] == f.trees[j - 1];
    }
  }

  lemma PushLinked(e: CScope, head: CScope?, entries: seq<CScope>)
    requires Linked(head, entries) && e.next == head && e.height == 1 + HeightOf(head)
    ensures Linked(e, [e] + entries)
  {
    var all := [e] + entries;
    assert entries != [] ==> entries[0].height == |entries|;
    forall i | 0 <= i < |all| ensures all[i].next == Nth(all, i + 1) && all[i].height == |all| - i {
      assert i > 0 ==> all[i] == entries[i - 1] && entries[i - 1].next == Nth(entries, i);
    }
  }

  lemma PopLinked(head: CScope?, entries: seq<CScope>)
    requires Linked(head, entries) && entries != []
    ensures Linked(entries[0].next, entries[1..])
  {
    var rest := entries[1..];
    assert entries[0].next == Nth(entries, 1);
    forall i | 0 <= i < |rest| ensures rest[i].next == Nth(rest, i + 1) && rest[i].height == |rest| - i {
      assert rest[i] == entries[i + 1] && entries[i + 1].next == Nth(entries, i + 2);
    }
  }

  /** The entries of a chain are different objects. */
  lemma EntriesDiffer(head: CScope?, entries: seq<CScope>, k: nat)
    requires Linked(head, entries) && k < |entries|
    ensures forall i :: 0 <= i < |entries| && i != k ==> entries[i] != entries[k]
  {
    forall i | 0 <= i < |entries| && i != k ensures entries[i] != entries[k] {
      assert entries[i].height == |entries| - i && entries[k].height == |entries| - k;
    }
  }

  /** All but the `k`th variable are laid out as described. */
  ghost predicate HoldsBut(head: CScope?, f: Frame, env: Env, k: nat)
    reads f.cells, f.blocks
  {
    && |f.entries| == |f.trees| == |env| && Linked(head, f.entries) && Apart(f.trees) && f.cells !! f.blocks && k < |env|
    && forall i :: 0 <= i < |env| ==>
         && f.entries[i] in f.cells && Blocks(f.trees[i]) <= f.blocks && f.entries[i].name == env[i].name
         && (i != k ==> Shows(f.entries[i].value, f.trees[i]) && Owned(f.trees[i]) && Content(f.trees[i]) == env[i].value)
  }

  lemma RedescribedHolds(head: CScope?, f: Frame, env: Env, k: nat, t: Tree, added: Tree)
    requires HoldsBut(head, f, env, k) && Shows(f.entries[k].value, t) && Owned(t)
    requires Blocks(t) <= Blocks(f.trees[k]) + Blocks(added) && Blocks(added) !! f.blocks && Blocks(added) !! f.cells
    ensures Holds(head, f.(trees := f.trees[k := t], blocks := f.blocks + Blocks(added)), env[k := Binding(env[k].name, Content(t))])
  {
    var trees := f.trees[k := t];
    forall i, j | 0 <= i < |trees| && 0 <= j < |trees| && i != j ensures Blocks(trees[i]) !! Blocks(trees[j]) {
      assert Blocks(f.trees[i]) !! Blocks(f.trees[j]) && Blocks(f.trees[i]) <= f.blocks && Blocks(f.trees[j]) <= f.blocks;
    }
  }

  lemma PopHolds(head: CScope?, f: Frame, env: Env)
    requires Holds(head, f, env) && head != null
    ensures Holds(head.next, f.(entries := f.entries[1..], trees := f.trees[1..]), env[1..])
  {
    PopLinked(head, f.entries);
  }

  const EMPTY := Frame([], [], {}, {})

  class CInterp {
    const funcs: Funcs
    const out: YieldBuffer
    var scope: CScope?
    var stepCount: nat
    var recDepth: nat
    var status: Status
    ghost var frame: Frame
    /** The state of the functional interpreter at this point. */
    ghost var state: State

    /** The interpreter and its yield buffer are not part of this storage. */
    ghost predicate Clear(blocks: set<object>)
      reads out
    {
      this !in blocks && out !in blocks && out.buf !in blocks
    }

    ghost predicate Valid()
      reads this, out, out.buf, frame.cells, frame.blocks
    {
      && out.Valid() && out.text == state.out
      && stepCount == state.steps && recDepth == state.depth <= MAX_RECURSION && status == state.status
      && Clear(frame.blocks)
      && Holds(scope, frame, state.env) == true // one fact, not its parts
    }

    constructor (funcs: Funcs)
      ensures Valid() && this.funcs == funcs && state == START && frame == EMPTY && fresh(out) && out.buf == null
    {
      this.funcs := funcs;
      out := new YieldBuffer();
      scope, stepCount, recDepth, status := null, 0, 0, Running;
      frame, state := EMPTY, START;
    }

    method Error()
      requires Valid()
      modifies this`status, this`state
      ensures Valid() && state == Fail(old(state))
    {
      if status.Running? {
        status := Failed;
      }
      state := Fail(state);
    }

    /** Counts a step; the step past the limit is an error. */
    method Step()
      requires Valid()
      modifies this`status, this`state, this`stepCount
      ensures Valid() && state == Tick(old(state))
    {
      if stepCount > MAX_STEPS && status.Running? {
        status := Failed;
      }
      stepCount := stepCount + 1;
      state := Tick(state);
    }

    /** The innermost entry named `x`. */
    method ScopeFind(x: Name) returns (e: CScope?, ghost k: nat)
      requires Valid()
      ensures Valid() && k == Find(state.env, x)
      ensures if k < |state.env| then e == frame.entries[k] else e == null
    {
      e, k := scope, 0;
      while e != null && e.name != x
        invariant Valid() && k <= |state.env| && e == if k < |state.env| then frame.entries[k] else null
        invariant forall j :: 0 <= j < k ==> state.env[j].name != x
        decreases |state.env| - k
      {
        assert frame.entries[k].next == Nth(frame.entries, k + 1);
        e, k := e.next, k + 1;
      }
      FindIs(state.env, x, k);
    }

    /** Reads a variable; the value read is a copy. */
    method EvalVar(x: Name) returns (v: CValue, ghost t: Tree)
      requires Valid() && status.Running?
      modifies this`status, this`state
      ensures Valid() && Shows(v, t) && Owned(t) && fresh(Blocks(t)) && Clear(Blocks(t))
      ensures (Content(t), state) == Lookup(x, old(state))
    {
      if x == "true" {
        return CBool(true), Leaf(Bool(true));
      }
      if x == "false" {
        return CBool(false), Leaf(Bool(false));
      }
      var e;
      ghost var k;
      e, k := ScopeFind(x);
      if e == null {
        Error();
        return CNull, Leaf(Null);
      }
      v, t := DeepCopy(e.value, frame.trees[k]);
    }

    // ---------- expressions ----------

    method EvalExpr(e: Expr) returns (v: CValue, ghost t: Tree)
      requires Valid()
      modifies this, out, out.buf
      ensures Valid() && scope == old(scope) && frame == old(frame) && (out.buf == old(out.buf) || fresh(out.buf))
      ensures Shows(v, t) && Owned(t) && fresh(Blocks(t)) && Clear(Blocks(t)) && (Content(t), state) == Eval(funcs, e, old(state))
      ensures Blocks(t) !! frame.blocks && Blocks(t) !! frame.cells
      decreases Budget(state), 0
    {
      Step();
      if !status.Running? {
        v, t := CNull, Leaf(Null);
      } else {
        v, t := EvalNode(e);
      }
    }

    method EvalNode(e: Expr) returns (v: CValue, ghost t: Tree)
      requires Valid() && status.Running?
      modifies this, out, out.buf
      ensures Valid() && scope == old(scope) && frame == old(frame) && (out.buf == old(out.buf) || fresh(out.buf))
      ensures Shows(v, t) && Owned(t) && fresh(Blocks(t)) && Clear(Blocks(t))
      ensures (Content(t), state) == ComptimeSpec.EvalNode(funcs, e, old(state))
      decreases Budget(state), 3
    {
      match e {
        case IntLit(i) => v, t := CInt(i), Leaf(Int(i));
        case CharLit(c) => v, t := CInt(c), Leaf(Int(c));
        case StrLit(text, raw) => v, t := NewString(LiteralText(text, raw));
        case Var(x, _) => v, t := EvalVar(x);
        case Binary(op, l, r) => v, t := EvalBinary(op, l, r);
        case Unary(op, o) => v, t := EvalUnary(op, o);
        case Call(_, _, _) => v, t := EvalCall(e);
        case Index(a, i) => v, t := EvalIndex(a, i);
        case Cast(inner) => v, t := EvalExpr(inner);
      }
    }

    /** Both operands are evaluated, whatever the operator. */
    method EvalBinary(op: BinOp, l: Expr, r: Expr) returns (v: CValue, ghost t: Tree)
      requires Valid() && status.Running?
      modifies this, out, out.buf
      ensures Valid() && scope == old(scope) && frame == old(frame) && (out.buf == old(out.buf) || fresh(out.buf))
      ensures Shows(v, t) && Owned(t) && fresh(Blocks(t)) && Clear(Blocks(t))
      ensures (Content(t), state) == ComptimeSpec.EvalBinary(funcs, op, l, r, old(state))
      decreases Budget(state), 2
    {
      var a;
      ghost var ta;
      a, ta := EvalExpr(l);
      ShownAlike(a, ta);
      ghost var x, s1 := Content(ta), state;
      assert (x, s1) == Eval(funcs, l, old(state));
      if status.Running? {
        v, t := EvalRight(op, a, x, r);
        assert ComptimeSpec.EvalBinary(funcs, op, l, r, old(state)) == ComptimeSpec.EvalRight(funcs, op, x, r, s1);
      } else {
        v, t := CNull, Leaf(Null);
      }
    }

    method EvalRight(op: BinOp, a: CValue, ghost x: Value, r: Expr) returns (v: CValue, ghost t: Tree)
      requires Alike(a, x) && (a.CStr? ==> a.chars != out.buf)
      requires Valid() && status.Running?
      modifies this, out, out.buf
      ensures Valid() && scope == old(scope) && frame == old(frame) && (out.buf == old(out.buf) || fresh(out.buf))
      ensures Shows(v, t) && Owned(t) && fresh(Blocks(t)) && Clear(Blocks(t))
      ensures (Content(t), state) == ComptimeSpec.EvalRight(funcs, op, x, r, old(state))
      decreases Budget(state), 1
    {
      var b;
      ghost var y;
      b, y := EvalOther(r, a, x);
      ghost var s1 := state;
      if status.Running? {
        v, t := Combine(op, a, x, b, y);
        assert ComptimeSpec.EvalRight(funcs, op, x, r, old(state)) == ComptimeSpec.Settle(Operate(op, x, y), s1);
      } else {
        v, t := CNull, Leaf(Null);
      }
    }

    /** The right operand; the left one, in storage of its own, stays as it was. */
    method EvalOther(r: Expr, a: CValue, ghost x: Value) returns (b: CValue, ghost y: Value)
      requires Alike(a, x) && (a.CStr? ==> a.chars != out.buf)
      requires Valid() && status.Running?
      modifies this, out, out.buf
      ensures Valid() && scope == old(scope) && frame == old(frame) && (out.buf == old(out.buf) || fresh(out.buf))
      ensures Alike(a, x) && Alike(b, y) && (y, state) == Eval(funcs, r, old(state))
      decreases Budget(state), 1, 0
    {
      ghost var t;
      b, t := EvalExpr(r);
      ShownAlike(b, t);
      y := Content(t);
    }

    /** Both operands are there: two strings are joined, anything else has a value without storage. */
    method Combine(op: BinOp, a: CValue, ghost x: Value, b: CValue, ghost y: Value) returns (v: CValue, ghost t: Tree)
      requires Valid() && Alike(a, x) && Alike(b, y)
      modifies this`status, this`state
      ensures Valid() && Shows(v, t) && Owned(t) && fresh(Blocks(t)) && Clear(Blocks(t))
      ensures (Content(t), state) == ComptimeSpec.Settle(Operate(op, x, y), old(state))
    {
      if op.Add? && a.CStr? && b.CStr? {
        v, t := Concat(a.chars, b.chars);
      } else {
        OperateAlike(op, a, x, b, y);
        v, t := Settle(Operate(op, Plain(a), Plain(b)));
      }
    }

    method Settle(result: Option<Value>) returns (v: CValue, ghost t: Tree)
      requires Valid() && (result.Some? ==> !result.value.Arr? && !result.value.Str?)
      modifies this`status, this`state
      ensures Valid() && t.Leaf? && Shows(v, t) && Owned(t) && (Content(t), state) == ComptimeSpec.Settle(result, old(state))
    {
      if result.None? {
        Error();
        v, t := CNull, Leaf(Null);
      } else {
        v, t := Stored(result.value), Leaf(result.value);
      }
    }

    method EvalUnary(op: UnOp, o: Expr) returns (v: CValue, ghost t: Tree)
      requires Valid() && status.Running?
      modifies this, out, out.buf
      ensures Valid() && scope == old(scope) && frame == old(frame) && (out.buf == old(out.buf) || fresh(out.buf))
      ensures Shows(v, t) && Owned(t) && fresh(Blocks(t)) && Clear(Blocks(t))
      ensures (Content(t), state) == ComptimeSpec.EvalUnary(funcs, op, o, old(state))
      decreases Budget(state), 2
    {
      if !op.Neg? && !op.Not? {
        Error();
        v, t := CNull, Leaf(Null);
        return;
      }
      v, t := EvalExpr(o);
      if status.Running? {
        v, t := UnaryOf(op, v, t);
      } else {
        v, t := CNull, Leaf(Null);
      }
    }

    method UnaryOf(op: UnOp, v: CValue, ghost t: Tree) returns (w: CValue, ghost u: Tree)
      requires Valid() && Shows(v, t) && Owned(t)
      ensures Valid() && Shows(w, u) && Owned(u) && Blocks(u) <= Blocks(t)
      ensures Content(u) == if op.Neg? then Negated(Content(t)) else Inverted(Content(t))
    {
      ShownAlike(v, t);
      if v.CInt? {
        if op.Neg? {
          w, u := CInt(-v.i), Leaf(Int(-v.i));
        } else {
          w, u := CBool(v.i == 0), Leaf(Bool(v.i == 0));
        }
      } else if op.Neg? {
        w, u := CNull, Leaf(Null);
      } else if v.CBool? {
        w, u := CBool(!v.b), Leaf(Bool(!v.b));
      } else {
        w, u := v, t;
      }
    }

    /** An expression that must have an integer value. */
    method EvalInt(e: Expr) returns (i: int)
      requires Valid()
      modifies this, out, out.buf
      ensures Valid() && scope == old(scope) && frame == old(frame) && (out.buf == old(out.buf) || fresh(out.buf))
      ensures (i, state) == ComptimeSpec.EvalInt(funcs, e, old(state))
      decreases Budget(state), 1
    {
      var v;
      ghost var t;
      v, t := EvalExpr(e);
      ShownAlike(v, t);
      i := IntOf(v, Content(t));
    }

    method IntOf(v: CValue, ghost x: Value) returns (i: int)
      requires Valid() && Alike(v, x)
      modifies this`status, this`state
      ensures Valid() && (i, state) == ComptimeSpec.IntOf(x, old(state))
    {
      if !status.Running? {
        i := 0;
      } else if v.CInt? {
        i := v.i;
      } else {
        Error();
        i := 0;
      }
    }

    /** The element read is a copy, as the array it is read from is. */
    method EvalIndex(a: Expr, i: Expr) returns (v: CValue, ghost t: Tree)
      requires Valid() && status.Running?
      modifies this, out, out.buf
      ensures Valid() && scope == old(scope) && frame == old(frame) && (out.buf == old(out.buf) || fresh(out.buf))
      ensures Shows(v, t) && Owned(t) && fresh(Blocks(t)) && Clear(Blocks(t))
      ensures (Content(t), state) == ComptimeSpec.EvalIndex(funcs, a, i, old(state))
      decreases Budget(state), 2
    {
      var arr;
      ghost var ta;
      arr, ta := EvalExpr(a);
      ghost var x, s1 := Content(ta), state;
      assert (x, s1) == Eval(funcs, a, old(state));
      if status.Running? {
        v, t := EvalElement(arr, ta, i);
        assert ComptimeSpec.EvalIndex(funcs, a, i, old(state)) == ComptimeSpec.EvalElement(funcs, x, i, s1);
      } else {
        v, t := CNull, Leaf(Null);
      }
    }

    method EvalElement(arr: CValue, ghost ta: Tree, i: Expr) returns (v: CValue, ghost t: Tree)
      requires Shows(arr, ta) && Clear(Blocks(ta))
      requires Valid() && status.Running?
      modifies this, out, out.buf
      ensures Valid() && scope == old(scope) && frame == old(frame) && (out.buf == old(out.buf) || fresh(out.buf))
      ensures Shows(v, t) && Owned(t) && fresh(Blocks(t)) && Clear(Blocks(t))
      ensures (Content(t), state) == ComptimeSpec.EvalElement(funcs, Content(ta), i, old(state))
      decreases Budget(state), 2
    {
      if !arr.CArr? {
        Error();
        v, t := CNull, Leaf(Null);
        return;
      }
      var k := EvalInt(i);
      if status.Running? {
        v, t := ReadElement(arr, ta, k);
      } else {
        v, t := CNull, Leaf(Null);
      }
    }

    method ReadElement(arr: CValue, ghost ta: Tree, k: int) returns (v: CValue, ghost t: Tree)
      requires Valid() && status.Running? && arr.CArr? && Shows(arr, ta)
      modifies this`status, this`state
      ensures Valid() && Shows(v, t) && Owned(t) && fresh(Blocks(t)) && Clear(Blocks(t))
      ensures (Content(t), state) == ComptimeSpec.Settle(ElementAt(Content(ta).elems, k), old(state))
    {
      if 0 <= k < arr.data.Length {
        v, t := DeepCopy(arr.data[k], ta.kids[k]);
      } else {
        Error();
        v, t := CNull, Leaf(Null);
      }
    }

    // ---------- calls ----------

    method EvalCall(e: Expr) returns (v: CValue, ghost t: Tree)
      requires e.Call?
      requires Valid() && status.Running?
      modifies this, out, out.buf
      ensures Valid() && scope == old(scope) && frame == old(frame) && (out.buf == old(out.buf) || fresh(out.buf))
      ensures Shows(v, t) && Owned(t) && fresh(Blocks(t)) && Clear(Blocks(t))
      ensures (Content(t), state) == ComptimeSpec.EvalNode(funcs, e, old(state))
      decreases Budget(state), 3, 0
    {
      if !e.callee.Var? {
        Error();
        v, t := CNull, Leaf(Null);
        return;
      }
      if IsBuiltin(e.callee.name) {
        CallBuiltin(e.callee.name, e.args, e.stringArg);
        v, t := CNull, Leaf(Null);
        return;
      }
      var f := FindFunction(e.callee.name);
      if f.None? {
        Error();
        v, t := CNull, Leaf(Null);
        return;
      }
      v, t := CallFn(f.value, e.args);
    }

    method FindFunction(x: Name) returns (f: Option<Func>)
      requires Valid()
      ensures Valid() && f == FindFunc(funcs, x)
    {
      var rest := funcs;
      while rest.Cons?
        invariant Valid() && FindFunc(rest, x) == FindFunc(funcs, x)
        decreases rest
      {
        if rest.head.isComptime && rest.head.name == x {
          return Some(rest.head);
        }
        rest := rest.tail;
      }
      return None;
    }

    /** The text goes into the yield buffer if there is room. */
    method YieldAppend(text: string)
      requires Valid()
      modifies this`status, this`state, out, out.buf
      ensures Valid() && (out.buf == old(out.buf) || fresh(out.buf))
      ensures state == Accept(old(state), text)
    {
      var ok := AppendText(text);
      if !ok {
        Error();
      }
    }

    method AppendText(text: string) returns (ok: bool)
      requires Valid()
      modifies this`state, out, out.buf
      ensures Valid() && (out.buf == old(out.buf) || fresh(out.buf))
      ensures ok == (|old(state).out| + |text| <= MAX_YIELD - 1)
      ensures state == if ok then old(state).(out := old(state).out + text) else old(state)
    {
      ok := out.Append(text);
      assert Holds(scope, frame, state.env);
      state := state.(out := out.text);
    }

    method CallBuiltin(name: Name, args: List<Expr>, stringArg: bool)
      requires Valid() && status.Running?
      modifies this, out, out.buf
      ensures Valid() && scope == old(scope) && frame == old(frame) && (out.buf == old(out.buf) || fresh(out.buf))
      ensures state == Builtin(funcs, name, args, stringArg, old(state))
      decreases Budget(state), 2
    {
      var v;
      ghost var x;
      v, x := EvalArgument(args, stringArg);
      if status.Running? {
        Finish(name, v, x);
      }
    }

    /** The first argument of a builtin, null if there is none. */
    method EvalArgument(args: List<Expr>, stringArg: bool) returns (v: CValue, ghost x: Value)
      requires Valid() && status.Running?
      modifies this, out, out.buf
      ensures Valid() && scope == old(scope) && frame == old(frame) && (out.buf == old(out.buf) || fresh(out.buf))
      ensures Alike(v, x) && (x, state) == Argument(funcs, args, stringArg, old(state))
      decreases Budget(state), 1
    {
      if args.Nil? {
        v, x := CNull, Null;
      } else if stringArg && !IsStringForm(args.head) {
        Error();
        v, x := CNull, Null;
      } else {
        ghost var t;
        v, t := EvalExpr(args.head);
        ShownAlike(v, t);
        x := Content(t);
      }
    }

    method Finish(name: Name, v: CValue, ghost x: Value)
      requires Valid() && Alike(v, x)
      modifies this`status, this`state, out, out.buf
      ensures Valid() && (out.buf == old(out.buf) || fresh(out.buf))
      ensures state == ComptimeSpec.Finish(name, x, old(state))
    {
      if IsYield(name) {
        YieldAppend(TextOf(v));
      } else if name == "compile_error" {
        Error();
      }
    }

    /** The caller's chain is set aside, and put back whatever happens. */
    method CallFn(f: Func, args: List<Expr>) returns (v: CValue, ghost t: Tree)
      requires Covered(funcs, f.body)
      requires Valid() && status.Running?
      modifies this, out, out.buf
      ensures Valid() && scope == old(scope) && frame == old(frame) && (out.buf == old(out.buf) || fresh(out.buf))
      ensures Shows(v, t) && Owned(t) && fresh(Blocks(t)) && Clear(Blocks(t))
      ensures (Content(t), state) == ComptimeSpec.CallFn(funcs, f, args, old(state))
      decreases Budget(state), 2, 2
    {
      if recDepth >= MAX_RECURSION {
        Error();
        v, t := CNull, Leaf(Null);
        return;
      }
      var saved := scope;
      ghost var savedFrame, savedEnv := frame, state.env;
      EnterScope();
      v, t := FinishCall(f, args, saved, savedFrame, savedEnv);
    }

    /** Runs the callee and returns to the scope of the caller. */
    method FinishCall(f: Func, args: List<Expr>, saved: CScope?, ghost savedFrame: Frame, ghost savedEnv: Env)
      returns (v: CValue, ghost t: Tree)
      requires recDepth > 0 && Covered(funcs, f.body)
      requires Valid() && status.Running? && frame == EMPTY && Holds(saved, savedFrame, savedEnv) && Clear(savedFrame.blocks)
      modifies this, out, out.buf
      ensures Valid() && scope == saved && frame == savedFrame && (out.buf == old(out.buf) || fresh(out.buf))
      ensures Shows(v, t) && Owned(t) && fresh(Blocks(t)) && Clear(Blocks(t))
      ensures Content(t) == ComptimeSpec.RunCallee(funcs, f, args, old(state)).0
      ensures var u := ComptimeSpec.RunCallee(funcs, f, args, old(state)).1; state == u.(env := savedEnv, depth := u.depth - 1)
      decreases Budget(state), 2, 1
    {
      v, t := RunAside(f, args, saved, savedFrame, savedEnv);
      LeaveScope(saved, savedFrame, savedEnv);
    }

    /** The callee does not touch the chain of the caller. */
    method RunAside(f: Func, args: List<Expr>, ghost saved: CScope?, ghost savedFrame: Frame, ghost savedEnv: Env)
      returns (v: CValue, ghost t: Tree)
      requires recDepth > 0 && Covered(funcs, f.body)
      requires Valid() && status.Running? && frame == EMPTY && Holds(saved, savedFrame, savedEnv) && Clear(savedFrame.blocks)
      modifies this, out, out.buf
      ensures Valid() && (out.buf == old(out.buf) || fresh(out.buf))
      ensures Holds(saved, savedFrame, savedEnv) == true && Clear(savedFrame.blocks)
      ensures Shows(v, t) && Owned(t) && fresh(Blocks(t)) && Clear(Blocks(t))
      ensures (Content(t), state) == ComptimeSpec.RunCallee(funcs, f, args, old(state))
      decreases Budget(state), 2, 0, 1
    {
      v, t := RunCallee(f, args);
    }

    method EnterScope()
      requires Valid() && recDepth < MAX_RECURSION
      modifies this`scope, this`frame, this`state, this`recDepth
      ensures Valid() && frame == EMPTY
      ensures state == old(state).(env := [], depth := old(state).depth + 1)
    {
      scope, frame := null, EMPTY;
      recDepth := recDepth + 1;
      state := state.(env := [], depth := state.depth + 1);
    }

    method LeaveScope(saved: CScope?, ghost savedFrame: Frame, ghost savedEnv: Env)
      requires Valid() && recDepth > 0 && Holds(saved, savedFrame, savedEnv) && Clear(savedFrame.blocks)
      modifies this`scope, this`frame, this`state, this`recDepth
      ensures Valid() && scope == saved && frame == savedFrame
      ensures state == old(state).(env := savedEnv, depth := old(state).depth - 1)
    {
      scope, frame := saved, savedFrame;
      recDepth := recDepth - 1;
      state := state.(env := savedEnv, depth := state.depth - 1);
    }

    method RunCallee(f: Func, args: List<Expr>) returns (v: CValue, ghost t: Tree)
      requires Covered(funcs, f.body)
      requires Valid() && status.Running? && frame == EMPTY
      modifies this, out, out.buf
      ensures Valid() && (out.buf == old(out.buf) || fresh(out.buf))
      ensures Shows(v, t) && Owned(t) && fresh(Blocks(t)) && Clear(Blocks(t))
      ensures (Content(t), state) == ComptimeSpec.RunCallee(funcs, f, args, old(state))
      decreases Budget(state), 2, 0, 0
    {
      BindArgs(f.params, args);
      if status.Running? {
        v, t := RunBody(f.body);
      } else {
        v, t := CNull, Leaf(Null);
      }
    }

    /** A new innermost variable; the chain takes over the storage of `v`. */
    method Push(x: Name, v: CValue, ghost t: Tree)
      requires Valid() && Shows(v, t) && Owned(t) && Blocks(t) !! frame.blocks && Blocks(t) !! frame.cells && Clear(Blocks(t))
      modifies this`scope, this`frame, this`state
      ensures Valid() && state == ComptimeSpec.Push(old(state), x, Content(t))
      ensures fresh(frame.cells - old(frame.cells)) && frame.blocks == old(frame.blocks) + Blocks(t)
    {
      var e := new CScope(x, v, scope);
      PushHolds(e, t, scope, frame, state.env);
      scope, frame := e, Pushed(frame, e, t);
      state := ComptimeSpec.Push(state, x, Content(t));
    }

    /** The innermost variable is dropped, whichever it is. */
    method Pop()
      requires Valid() && scope != null
      modifies this`scope, this`frame, this`state
      ensures Valid() && state == old(state).(env := ComptimeSpec.Pop(old(state).env))
      ensures frame.cells == old(frame.cells) && frame.blocks == old(frame.blocks)
    {
      PopHolds(scope, frame, state.env);
      scope, frame := scope.next, frame.(entries := frame.entries[1..], trees := frame.trees[1..]);
      state := state.(env := state.env[1..]);
    }

    method BindArgs(params: seq<Name>, args: List<Expr>)
      requires Valid() && status.Running?
      modifies this, out, out.buf, frame.cells, frame.blocks
      ensures Valid() && fresh(frame.cells - old(frame.cells)) && fresh(frame.blocks - old(frame.blocks))
      ensures out.buf == old(out.buf) || fresh(out.buf)
      ensures state == Bind(funcs, params, args, old(state))
      decreases Budget(state), 1, args
    {
      var i, arg := 0, args;
      while i < |params| && arg.Cons?
        invariant i <= |params| && Valid() && status.Running?
        invariant fresh(frame.cells - old(frame.cells)) && fresh(frame.blocks - old(frame.blocks))
        invariant out.buf == old(out.buf) || fresh(out.buf)
        invariant Bind(funcs, params[i..], arg, state) == Bind(funcs, params, args, old(state))
        invariant Budget(state) <= Budget(old(state))
        decreases arg
      {
        var v;
        ghost var t;
        v, t := EvalExpr(arg.head);
        if !status.Running? {
          return;
        }
        Push(params[i], v, t);
        assert params[i..][1..] == params[i + 1..];
        i, arg := i + 1, arg.tail;
      }
    }

    /** A function body: a `return` among its own statements ends it. */
    method RunBody(stmts: List<Stmt>) returns (v: CValue, ghost t: Tree)
      requires Valid() && status.Running?
      modifies this, out, out.buf, frame.cells, frame.blocks
      ensures Valid() && fresh(frame.cells - old(frame.cells)) && fresh(frame.blocks - old(frame.blocks))
      ensures out.buf == old(out.buf) || fresh(out.buf)
      ensures state == ComptimeSpec.RunBody(funcs, stmts, old(state)).1
      ensures Shows(v, t) && Owned(t) && fresh(Blocks(t)) && Clear(Blocks(t))
      ensures Content(t) == ComptimeSpec.RunBody(funcs, stmts, old(state)).0
      decreases Budget(state), 1, stmts
    {
      var rest := stmts;
      while rest.Cons? && !rest.head.Return? && status.Running?
        invariant Valid() && fresh(frame.cells - old(frame.cells)) && fresh(frame.blocks - old(frame.blocks))
        invariant out.buf == old(out.buf) || fresh(out.buf)
        invariant BodyFrom(funcs, rest, state) == ComptimeSpec.RunBody(funcs, stmts, old(state))
        invariant Budget(state) <= Budget(old(state))
        decreases rest
      {
        ExecStmt(rest.head);
        rest := rest.tail;
      }
      if status.Running? && rest.Cons? && rest.head.value.Some? {
        v, t := EvalExpr(rest.head.value.value);
      } else {
        v, t := CNull, Leaf(Null);
      }
    }

    // ---------- statements ----------

    method ExecStmt(st: Stmt)
      requires Valid()
      modifies this, out, out.buf, frame.cells, frame.blocks
      ensures Valid() && fresh(frame.cells - old(frame.cells)) && fresh(frame.blocks - old(frame.blocks))
      ensures out.buf == old(out.buf) || fresh(out.buf)
      ensures state == Exec(funcs, st, old(state))
      decreases Budget(state), 0
    {
      if !status.Running? {
        return;
      }
      Step();
      if status.Running? {
        ExecNode(st);
      }
    }

    method ExecNode(st: Stmt)
      requires Valid() && status.Running?
      modifies this, out, out.buf, frame.cells, frame.blocks
      ensures Valid() && fresh(frame.cells - old(frame.cells)) && fresh(frame.blocks - old(frame.blocks))
      ensures out.buf == old(out.buf) || fresh(out.buf)
      ensures state == ComptimeSpec.ExecNode(funcs, st, old(state))
      decreases Budget(state), 3
    {
      match st {
        case Assert(e) => ExecAssert(e);
        case VarDecl(x, init, arrayLen) => ExecLet(x, init, arrayLen);
        case ExprStmt(e) => ExecExpr(e);
        case If(c, thenBody, elseBody) => ExecIf(c, thenBody, elseBody);
        case Block(stmts) => ExecList(stmts);
        case While(_, guard, body) => WhileLoop(guard, body);
        case Loop(_, body) => EndlessLoop(body);
        case For(_, start, test, step, body) => ExecFor(start, test, step, body);
        case ForRange(_, x, lo, hi, inclusive, body) => ExecRange(x, lo, hi, inclusive, body);
        case Match(_, _) =>
        case Break(_) =>
        case Continue(_) =>
        case Return(_) =>
      }
    }

    method ExecList(stmts: List<Stmt>)
      requires Valid()
      modifies this, out, out.buf, frame.cells, frame.blocks
      ensures Valid() && fresh(frame.cells - old(frame.cells)) && fresh(frame.blocks - old(frame.blocks))
      ensures out.buf == old(out.buf) || fresh(out.buf)
      ensures state == ComptimeSpec.ExecList(funcs, stmts, old(state))
      decreases Budget(state), 1, stmts
    {
      var rest := stmts;
      while rest.Cons? && status.Running?
        invariant Valid() && fresh(frame.cells - old(frame.cells)) && fresh(frame.blocks - old(frame.blocks))
        invariant out.buf == old(out.buf) || fresh(out.buf)
        invariant ComptimeSpec.ExecList(funcs, rest, state) == ComptimeSpec.ExecList(funcs, stmts, old(state))
        invariant Budget(state) <= Budget(old(state))
        decreases rest
      {
        ExecStmt(rest.head);
        rest := rest.tail;
      }
    }

    method ExecAssert(e: Expr)
      requires Valid() && status.Running?
      modifies this, out, out.buf, frame.cells, frame.blocks
      ensures Valid() && fresh(frame.cells - old(frame.cells)) && fresh(frame.blocks - old(frame.blocks))
      ensures out.buf == old(out.buf) || fresh(out.buf)
      ensures state == ComptimeSpec.ExecAssert(funcs, e, old(state))
      decreases Budget(state), 2
    {
      var on := EvalTruth(e);
      if !on {
        Error();
      }
    }

    /** A condition; an error reads as false. */
    method EvalTruth(e: Expr) returns (on: bool)
      requires Valid()
      modifies this, out, out.buf
      ensures Valid() && scope == old(scope) && frame == old(frame) && (out.buf == old(out.buf) || fresh(out.buf))
      ensures on == Truthy(Eval(funcs, e, old(state)).0) && state == Eval(funcs, e, old(state)).1
      decreases Budget(state), 1, 0
    {
      var v;
      ghost var t;
      v, t := EvalExpr(e);
      ShownAlike(v, t);
      on := Truthy(Plain(v));
    }

    method ExecLet(x: Name, init: Option<Expr>, arrayLen: nat)
      requires Valid() && status.Running?
      modifies this, out, out.buf, frame.cells, frame.blocks
      ensures Valid() && fresh(frame.cells - old(frame.cells)) && fresh(frame.blocks - old(frame.blocks))
      ensures out.buf == old(out.buf) || fresh(out.buf)
      ensures state == ComptimeSpec.ExecLet(funcs, x, init, arrayLen, old(state))
      decreases Budget(state), 2
    {
      var v;
      ghost var t;
      if init.None? {
        v, t := NewValue(arrayLen);
      } else {
        v, t := EvalExpr(init.value);
        if !status.Running? {
          return;
        }
      }
      Push(x, v, t);
    }

    /** What a declaration without an initialiser stores. */
    method NewValue(arrayLen: nat) returns (v: CValue, ghost t: Tree)
      requires Valid()
      ensures Valid() && Shows(v, t) && Owned(t) && fresh(Blocks(t)) && Clear(Blocks(t)) && Content(t) == Initial(arrayLen)
      ensures Blocks(t) !! frame.blocks && Blocks(t) !! frame.cells
    {
      if arrayLen == 0 {
        return CNull, Leaf(Null);
      }
      v, t := NewArray(arrayLen);
      assert Blocks(t) !! frame.cells;
    }

    method ExecExpr(e: Expr)
      requires Valid() && status.Running?
      modifies this, out, out.buf, frame.cells, frame.blocks
      ensures Valid() && fresh(frame.cells - old(frame.cells)) && fresh(frame.blocks - old(frame.blocks))
      ensures out.buf == old(out.buf) || fresh(out.buf)
      ensures state == ComptimeSpec.ExecExpr(funcs, e, old(state))
      decreases Budget(state), 2, 3
    {
      if e.Binary? && e.op.Set? {
        Assign(e.left, e.right);
      } else if !e.Index? && !e.Cast? {
        var v;
        ghost var t;
        v, t := EvalExpr(e);
      }
    }

    method Assign(l: Expr, r: Expr)
      requires Valid() && status.Running?
      modifies this, out, out.buf, frame.cells, frame.blocks
      ensures Valid() && fresh(frame.cells - old(frame.cells)) && fresh(frame.blocks - old(frame.blocks))
      ensures out.buf == old(out.buf) || fresh(out.buf)
      ensures state == ComptimeSpec.Assign(funcs, l, r, old(state))
      decreases Budget(state), 2, 2
    {
      if l.Index? {
        AssignIndex(l, r);
        return;
      }
      if !l.Var? {
        Error();
        return;
      }
      var e;
      ghost var k;
      e, k := ScopeFind(l.name);
      if e == null {
        Error();
        return;
      }
      var v;
      ghost var t;
      v, t := EvalExpr(r);
      if status.Running? {
        Store(e, k, v, t);
      }
    }

    /** The variable gets a new value, whose storage becomes its own. */
    method Store(e: CScope, ghost k: nat, v: CValue, ghost t: Tree)
      requires Valid() && k < |state.env| && e == frame.entries[k]
      requires Shows(v, t) && Owned(t) && Blocks(t) !! frame.blocks && Blocks(t) !! frame.cells && Clear(Blocks(t))
      modifies this`frame, this`state, e
      ensures Valid() && state == Rebind(old(state), k, Content(t))
      ensures frame.cells == old(frame.cells) && frame.blocks == old(frame.blocks) + Blocks(t)
    {
      EntriesDiffer(scope, frame.entries, k);
      e.value := v;
      assert HoldsBut(scope, frame, state.env, k);
      Restore(k, t, t);
    }

    /** Variable `k`, whose storage was changed, is described anew; `added` is storage it got. */
    ghost method Restore(k: nat, t: Tree, added: Tree)
      requires out.Valid() && out.text == state.out
      requires stepCount == state.steps && recDepth == state.depth <= MAX_RECURSION && status == state.status
      requires HoldsBut(scope, frame, state.env, k)
      requires Shows(frame.entries[k].value, t) && Owned(t)
      requires Blocks(t) <= Blocks(frame.trees[k]) + Blocks(added) && Blocks(added) !! frame.blocks && Blocks(added) !! frame.cells
      requires Clear(frame.blocks) && Clear(Blocks(added))
      modifies this`frame, this`state
      ensures Valid() && state == Rebind(old(state), k, Content(t))
      ensures frame.cells == old(frame.cells) && frame.blocks == old(frame.blocks) + Blocks(added)
    {
      RedescribedHolds(scope, frame, state.env, k, t, added);
      frame := frame.(trees := frame.trees[k := t], blocks := frame.blocks + Blocks(added));
      state := Rebind(state, k, Content(t));
    }

    method AssignIndex(l: Expr, r: Expr)
      requires l.Index?
      requires Valid() && status.Running?
      modifies this, out, out.buf, frame.cells, frame.blocks
      ensures Valid() && fresh(frame.cells - old(frame.cells)) && fresh(frame.blocks - old(frame.blocks))
      ensures out.buf == old(out.buf) || fresh(out.buf)
      ensures state == ComptimeSpec.AssignIndex(funcs, l, r, old(state))
      decreases Budget(state), 2, 1
    {
      match l case Index(a, i) =>
      if !a.Var? {
        Error();
        return;
      }
      var e;
      ghost var k;
      e, k := ScopeFind(a.name);
      if e == null {
        Error();
        return;
      }
      AssignFound(e, k, i, r);
    }

    method AssignFound(e: CScope, ghost k: nat, i: Expr, r: Expr)
      requires k < |state.env| && k < |frame.entries| && e == frame.entries[k]
      requires Valid() && status.Running?
      modifies this, out, out.buf, frame.cells, frame.blocks
      ensures Valid() && fresh(frame.cells - old(frame.cells)) && fresh(frame.blocks - old(frame.blocks))
      ensures out.buf == old(out.buf) || fresh(out.buf)
      ensures state == if old(state).env[k].value.Arr? then ComptimeSpec.AssignAt(funcs, k, i, r, old(state)) else Fail(old(state))
      decreases Budget(state), 2, 0, 1
    {
      ShownAlike(e.value, frame.trees[k]);
      if !e.value.CArr? {
        Error();
      } else {
        AssignAt(e, k, i, r);
      }
    }

    method AssignAt(e: CScope, ghost k: nat, i: Expr, r: Expr)
      requires k < |state.env| && k < |frame.entries| && e == frame.entries[k] && state.env[k].value.Arr?
      requires Valid() && status.Running?
      modifies this, out, out.buf, frame.cells, frame.blocks
      ensures Valid() && fresh(frame.cells - old(frame.cells)) && fresh(frame.blocks - old(frame.blocks))
      ensures out.buf == old(out.buf) || fresh(out.buf)
      ensures state == ComptimeSpec.AssignAt(funcs, k, i, r, old(state))
      decreases Budget(state), 2, 0, 0
    {
      var j := EvalInt(i);
      ghost var s1 := state;
      assert (j, s1) == ComptimeSpec.EvalInt(funcs, i, old(state));
      if status.Running? {
        AssignElement(e, k, j, r);
        assert ComptimeSpec.AssignAt(funcs, k, i, r, old(state)) == ComptimeSpec.AssignElement(funcs, k, j, r, s1);
      }
    }

    method AssignElement(e: CScope, ghost k: nat, j: int, r: Expr)
      requires k < |state.env| && k < |frame.entries| && e == frame.entries[k] && state.env[k].value.Arr?
      requires Valid() && status.Running?
      modifies this, out, out.buf, frame.cells, frame.blocks
      ensures Valid() && fresh(frame.cells - old(frame.cells)) && fresh(frame.blocks - old(frame.blocks))
      ensures out.buf == old(out.buf) || fresh(out.buf)
      ensures state == ComptimeSpec.AssignElement(funcs, k, j, r, old(state))
      decreases Budget(state), 1, 1
    {
      ShownAlike(e.value, frame.trees[k]);
      assert e.value.data.Length == |state.env[k].value.elems|;
      if j < 0 || j >= e.value.data.Length {
        Error();
        return;
      }
      AssignInside(e, k, j, r);
    }

    method AssignInside(e: CScope, ghost k: nat, j: nat, r: Expr)
      requires k < |state.env| && k < |frame.entries| && e == frame.entries[k] && state.env[k].value.Arr? && j < |state.env[k].value.elems|
      requires Valid() && status.Running?
      modifies this, out, out.buf, frame.cells, frame.blocks
      ensures Valid() && fresh(frame.cells - old(frame.cells)) && fresh(frame.blocks - old(frame.blocks))
      ensures out.buf == old(out.buf) || fresh(out.buf)
      ensures state == ComptimeSpec.AssignElement(funcs, k, j, r, old(state))
      decreases Budget(state), 1, 0
    {
      var v;
      ghost var t;
      v, t := EvalExpr(r);
      if status.Running? {
        ShownAlike(e.value, frame.trees[k]);
        StoreElement(e, k, j, v, t);
      }
    }

    /** One cell of the variable's own block is overwritten. */
    method StoreElement(e: CScope, ghost k: nat, j: nat, v: CValue, ghost t: Tree)
      requires Valid() && k < |state.env| && e == frame.entries[k] && e.value.CArr? && j < e.value.data.Length
      requires Shows(v, t) && Owned(t) && Blocks(t) !! frame.blocks && Blocks(t) !! frame.cells && Clear(Blocks(t))
      modifies this`frame, this`state, e.value.data
      ensures Valid() && state == Rebind(old(state), k, Arr(old(state).env[k].value.elems[j := Content(t)]))
      ensures frame.cells == old(frame.cells) && frame.blocks == old(frame.blocks) + Blocks(t)
    {
      ghost var was := frame.trees[k];
      ghost var now := Node(was.block, was.kids[j := t], was.storage + Blocks(t));
      Overwrite(e.value.data, j, v, was, t);
      assert HoldsBut(scope, frame, state.env, k);
      Restore(k, now, t);
    }

    method ExecIf(c: Expr, thenBody: Stmt, elseBody: Option<Stmt>)
      requires Valid() && status.Running?
      modifies this, out, out.buf, frame.cells, frame.blocks
      ensures Valid() && fresh(frame.cells - old(frame.cells)) && fresh(frame.blocks - old(frame.blocks))
      ensures out.buf == old(out.buf) || fresh(out.buf)
      ensures state == ComptimeSpec.ExecIf(funcs, c, thenBody, elseBody, old(state))
      decreases Budget(state), 2
    {
      var on := EvalTruth(c);
      ghost var s1 := state;
      if !status.Running? {
        return;
      }
      if on {
        ExecBranch(thenBody);
        assert ComptimeSpec.ExecIf(funcs, c, thenBody, elseBody, old(state)) == ComptimeSpec.ExecBranch(funcs, thenBody, s1);
      } else if elseBody.Some? {
        ExecBranch(elseBody.value);
        assert ComptimeSpec.ExecIf(funcs, c, thenBody, elseBody, old(state)) == ComptimeSpec.ExecBranch(funcs, elseBody.value, s1);
      }
    }

    method ExecBranch(body: Stmt)
      requires Valid() && status.Running?
      modifies this, out, out.buf, frame.cells, frame.blocks
      ensures Valid() && fresh(frame.cells - old(frame.cells)) && fresh(frame.blocks - old(frame.blocks))
      ensures out.buf == old(out.buf) || fresh(out.buf)
      ensures state == ComptimeSpec.ExecBranch(funcs, body, old(state))
      decreases Budget(state), 2
    {
      if body.Block? {
        ExecList(body.stmts);
      } else {
        ExecStmt(body);
      }
    }

    method WhileLoop(guard: Expr, body: Stmt)
      requires Valid()
      modifies this, out, out.buf, frame.cells, frame.blocks
      ensures Valid() && fresh(frame.cells - old(frame.cells)) && fresh(frame.blocks - old(frame.blocks))
      ensures out.buf == old(out.buf) || fresh(out.buf)
      ensures state == ComptimeSpec.WhileLoop(funcs, guard, body, old(state))
      decreases Budget(state), 2
    {
      ghost var goal := ComptimeSpec.WhileLoop(funcs, guard, body, state);
      while status.Running?
        invariant Valid() && fresh(frame.cells - old(frame.cells)) && fresh(frame.blocks - old(frame.blocks))
        invariant out.buf == old(out.buf) || fresh(out.buf)
        invariant ComptimeSpec.WhileLoop(funcs, guard, body, state) == goal
        invariant Budget(state) <= Budget(old(state))
        decreases status.Running?, Budget(state)
      {
        var on := WhileStep(guard, body, goal);
        if !on {
          return;
        }
      }
    }

    /** A round, and what it leaves of the loop; `goal` is the state in which the loop is to end. */
    method WhileStep(guard: Expr, body: Stmt, ghost goal: State) returns (on: bool)
      requires Valid() && status.Running? && ComptimeSpec.WhileLoop(funcs, guard, body, state) == goal
      modifies this, out, out.buf, frame.cells, frame.blocks
      ensures Valid() && fresh(frame.cells - old(frame.cells)) && fresh(frame.blocks - old(frame.blocks))
      ensures out.buf == old(out.buf) || fresh(out.buf)
      ensures goal == if on then ComptimeSpec.WhileLoop(funcs, guard, body, state) else state
      ensures Budget(state) <= Budget(old(state)) && (status.Running? ==> Budget(state) < Budget(old(state)))
      decreases Budget(state), 1, 2
    {
      on := WhileRound(guard, body);
    }

    method WhileRound(guard: Expr, body: Stmt) returns (on: bool)
      requires Valid() && status.Running?
      modifies this, out, out.buf, frame.cells, frame.blocks
      ensures Valid() && fresh(frame.cells - old(frame.cells)) && fresh(frame.blocks - old(frame.blocks))
      ensures out.buf == old(out.buf) || fresh(out.buf)
      ensures state == ComptimeSpec.WhileRound(funcs, guard, body, old(state)).1
      ensures on == ComptimeSpec.WhileRound(funcs, guard, body, old(state)).0
      decreases Budget(state), 1, 1
    {
      on := EvalTruth(guard);
      if on {
        ExecStmt(body);
      }
    }

    /** The step limit ends this loop without an error. */
    method EndlessLoop(body: Stmt)
      requires Valid()
      modifies this, out, out.buf, frame.cells, frame.blocks
      ensures Valid() && fresh(frame.cells - old(frame.cells)) && fresh(frame.blocks - old(frame.blocks))
      ensures out.buf == old(out.buf) || fresh(out.buf)
      ensures state == ComptimeSpec.EndlessLoop(funcs, body, old(state))
      decreases Budget(state), 2
    {
      ghost var goal := ComptimeSpec.EndlessLoop(funcs, body, state);
      while status.Running?
        invariant Valid() && fresh(frame.cells - old(frame.cells)) && fresh(frame.blocks - old(frame.blocks))
        invariant out.buf == old(out.buf) || fresh(out.buf)
        invariant ComptimeSpec.EndlessLoop(funcs, body, state) == goal
        invariant Budget(state) <= Budget(old(state))
        decreases status.Running?, Budget(state)
      {
        ghost var s0 := state;
        var last := stepCount > MAX_STEPS;
        CountStep();
        if last {
          return;
        }
        ExecStmt(body);
        assert ComptimeSpec.EndlessLoop(funcs, body, s0) == goal;
      }
    }

    method CountStep()
      requires Valid()
      modifies this`state, this`stepCount
      ensures Valid() && state == old(state).(steps := old(state).steps + 1)
    {
      stepCount := stepCount + 1;
      state := state.(steps := state.steps + 1);
    }

    method ExecFor(start: Option<Stmt>, test: Option<Expr>, step: Option<Expr>, body: Option<Stmt>)
      requires Valid() && status.Running?
      modifies this, out, out.buf, frame.cells, frame.blocks
      ensures Valid() && fresh(frame.cells - old(frame.cells)) && fresh(frame.blocks - old(frame.blocks))
      ensures out.buf == old(out.buf) || fresh(out.buf)
      ensures state ==
              ComptimeSpec.ForLoop(funcs, test, step, body, if start.Some? then Exec(funcs, start.value, old(state)) else old(state))
      decreases Budget(state), 2, 1
    {
      if start.Some? {
        ExecStmt(start.value);
      }
      ForLoop(test, step, body);
    }

    /** A loop with neither condition, body nor step would run forever: it is marked as hung. */
    method ForLoop(test: Option<Expr>, step: Option<Expr>, body: Option<Stmt>)
      requires Valid()
      modifies this, out, out.buf, frame.cells, frame.blocks
      ensures Valid() && fresh(frame.cells - old(frame.cells)) && fresh(frame.blocks - old(frame.blocks))
      ensures out.buf == old(out.buf) || fresh(out.buf)
      ensures state == ComptimeSpec.ForLoop(funcs, test, step, body, old(state))
      decreases Budget(state), 2, 0
    {
      if test.None? && step.None? && body.None? {
        Hang();
        return;
      }
      ghost var goal := ComptimeSpec.ForLoop(funcs, test, step, body, state);
      while status.Running?
        invariant Valid() && fresh(frame.cells - old(frame.cells)) && fresh(frame.blocks - old(frame.blocks))
        invariant out.buf == old(out.buf) || fresh(out.buf)
        invariant ComptimeSpec.ForLoop(funcs, test, step, body, state) == goal
        invariant Budget(state) <= Budget(old(state))
        decreases status.Running?, Budget(state)
      {
        ghost var s0 := state;
        var on := ForRound(test, step, body);
        if !on {
          return;
        }
        assert ComptimeSpec.ForLoop(funcs, test, step, body, s0) == goal;
      }
    }

    method Hang()
      requires Valid()
      modifies this`status, this`state
      ensures Valid() && state == if old(state).Live() then old(state).(status := Hung) else old(state)
    {
      if status.Running? {
        status := Hung;
        state := state.(status := Hung);
      }
    }

    method ForRound(test: Option<Expr>, step: Option<Expr>, body: Option<Stmt>) returns (on: bool)
      requires test.Some? || step.Some? || body.Some?
      requires Valid() && status.Running?
      modifies this, out, out.buf, frame.cells, frame.blocks
      ensures Valid() && fresh(frame.cells - old(frame.cells)) && fresh(frame.blocks - old(frame.blocks))
      ensures out.buf == old(out.buf) || fresh(out.buf)
      ensures state == ComptimeSpec.ForRound(funcs, test, step, body, old(state)).1
      ensures on == ComptimeSpec.ForRound(funcs, test, step, body, old(state)).0
      decreases Budget(state), 1, 1
    {
      on := true;
      if test.Some? {
        on := EvalTruth(test.value);
      }
      if on {
        ForRest(step, body);
      }
    }

    method ForRest(step: Option<Expr>, body: Option<Stmt>)
      requires Valid()
      modifies this, out, out.buf, frame.cells, frame.blocks
      ensures Valid() && fresh(frame.cells - old(frame.cells)) && fresh(frame.blocks - old(frame.blocks))
      ensures out.buf == old(out.buf) || fresh(out.buf)
      ensures state == ComptimeSpec.ForRest(funcs, step, body, old(state))
      decreases Budget(state), 1, 0
    {
      if body.Some? {
        ExecStmt(body.value);
      }
      if step.Some? {
        ExecStmt(ExprStmt(step.value));
      }
    }

    method ExecRange(x: Name, lo: Expr, hi: Expr, inclusive: bool, body: Stmt)
      requires Valid() && status.Running?
      modifies this, out, out.buf, frame.cells, frame.blocks
      ensures Valid() && fresh(frame.cells - old(frame.cells)) && fresh(frame.blocks - old(frame.blocks))
      ensures out.buf == old(out.buf) || fresh(out.buf)
      ensures state == ComptimeSpec.ExecRange(funcs, x, lo, hi, inclusive, body, old(state))
      decreases Budget(state), 2, 1
    {
      var a := EvalInt(lo);
      ghost var s1 := state;
      assert (a, s1) == ComptimeSpec.EvalInt(funcs, lo, old(state));
      RangeTo(x, a, hi, inclusive, body);
      assert ComptimeSpec.ExecRange(funcs, x, lo, hi, inclusive, body, old(state)) ==
             ComptimeSpec.RangeTo(funcs, x, a, hi, inclusive, body, s1);
    }

    method RangeTo(x: Name, start: int, hi: Expr, inclusive: bool, body: Stmt)
      requires Valid()
      modifies this, out, out.buf, frame.cells, frame.blocks
      ensures Valid() && fresh(frame.cells - old(frame.cells)) && fresh(frame.blocks - old(frame.blocks))
      ensures out.buf == old(out.buf) || fresh(out.buf)
      ensures state == ComptimeSpec.RangeTo(funcs, x, start, hi, inclusive, body, old(state))
      decreases Budget(state), 2, 0
    {
      var b := EvalInt(hi);
      ghost var s1 := state;
      assert (b, s1) == ComptimeSpec.EvalInt(funcs, hi, old(state));
      var end := if inclusive then b + 1 else b;
      RangeLoop(x, start, end, body);
      assert ComptimeSpec.RangeTo(funcs, x, start, hi, inclusive, body, old(state)) ==
             ComptimeSpec.RangeLoop(funcs, x, start, end, body, s1);
    }

    method RangeLoop(x: Name, start: int, end: int, body: Stmt)
      requires Valid()
      modifies this, out, out.buf, frame.cells, frame.blocks
      ensures Valid() && fresh(frame.cells - old(frame.cells)) && fresh(frame.blocks - old(frame.blocks))
      ensures out.buf == old(out.buf) || fresh(out.buf)
      ensures state == ComptimeSpec.RangeLoop(funcs, x, start, end, body, old(state))
      decreases Budget(state), 1, 2
    {
      var i := start;
      ghost var goal := ComptimeSpec.RangeLoop(funcs, x, start, end, body, state);
      while i < end && status.Running?
        invariant Valid() && fresh(frame.cells - old(frame.cells)) && fresh(frame.blocks - old(frame.blocks))
        invariant out.buf == old(out.buf) || fresh(out.buf)
        invariant ComptimeSpec.RangeLoop(funcs, x, i, end, body, state) == goal
        invariant Budget(state) <= Budget(old(state))
        decreases end - i
      {
        i := RangeStep(x, i, end, body, goal);
      }
    }

    /** One round and the count of it; `goal` is the state in which the loop is to end. */
    method RangeStep(x: Name, i: int, end: int, body: Stmt, ghost goal: State) returns (next: int)
      requires Valid() && status.Running? && i < end && ComptimeSpec.RangeLoop(funcs, x, i, end, body, state) == goal
      modifies this, out, out.buf, frame.cells, frame.blocks
      ensures Valid() && fresh(frame.cells - old(frame.cells)) && fresh(frame.blocks - old(frame.blocks))
      ensures out.buf == old(out.buf) || fresh(out.buf)
      ensures next == i + 1 && ComptimeSpec.RangeLoop(funcs, x, next, end, body, state) == goal
      ensures Budget(state) <= Budget(old(state))
      decreases Budget(state), 1, 1
    {
      Step();
      if status.Running? {
        RangeRound(x, i, body);
      }
      next := i + 1;
    }

    method RangeRound(x: Name, i: int, body: Stmt)
      requires Valid() && status.Running?
      modifies this, out, out.buf, frame.cells, frame.blocks
      ensures Valid() && fresh(frame.cells - old(frame.cells)) && fresh(frame.blocks - old(frame.blocks))
      ensures out.buf == old(out.buf) || fresh(out.buf)
      ensures state == ComptimeSpec.RangeRound(funcs, x, i, body, old(state))
      decreases Budget(state), 1, 0
    {
      Push(x, CInt(i), Leaf(Int(i)));
      ExecStmt(body);
      Pop();
    }
  }

  /** Runs a comptime block: the text it generated, or nothing after an error. */
  method InterpretComptime(funcs: Funcs, body: List<Stmt>) returns (result: Option<string>)
    ensures result == (var s := Interpret(funcs, body); if s.Live() then Some(s.out) else None)
  {
    var ci := new CInterp(funcs);
    ci.ExecList(body);
    if !ci.status.Running? {
      return None;
    }
    if ci.out.buf == null {
      return Some("");
    }
    return Some(ci.out.buf[..ci.out.len]);
  }

  /** What remains of a function body, unless an error ended it. */
  ghost function BodyFrom(fs: Funcs, stmts: List<Stmt>, s: State): (Value, State)
    requires s.depth <= MAX_RECURSION
  {
    if s.Live() then RunBody(fs, stmts, s) else (Null, s)
  }

  /** What is generated for a value: a string's characters, or a number's digits. */
  function TextOf(v: CValue): string
    reads if v.CStr? then {v.chars} else {}
  {
    if v.CStr? then v.chars[..] else YieldText(Plain(v))
  }

  /** As much of `c` as the interpreter looks at is in `v`. */
  predicate Alike(v: CValue, c: Value)
    reads if v.CStr? then {v.chars} else {}
  {
    match v
    case CArr(_) => c.Arr?
    case CStr(chars) => c == Str(chars[..])
    case _ => Plain(v) == c
  }

  lemma ShownAlike(v: CValue, t: Tree)
    requires Shows(v, t)
    ensures Alike(v, Content(t))
  {
  }

  /** Operators never look into an array, and only the joining of strings looks into one. */
  lemma OperateAlike(op: BinOp, a: CValue, x: Value, b: CValue, y: Value)
    requires Alike(a, x) && Alike(b, y) && !(op.Add? && a.CStr? && b.CStr?)
    ensures Operate(op, Plain(a), Plain(b)) == Operate(op, x, y)
    ensures Operate(op, x, y).Some? ==> !Operate(op, x, y).value.Arr? && !Operate(op, x, y).value.Str?
  {
  }
}
