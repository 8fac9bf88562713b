/** The values of the compile-time interpreter as they lie in memory: a string is a block of
    characters, an array a block of cells, and a value owns every block it reaches. */
module ComptimeValues {
  import opened ComptimeSpec

  datatype CValue = CNull | CInt(i: int) | CBool(b: bool) | CStr(chars: array<char>) | CArr(data: array<CValue>)

  /** The shape of a stored value: which block holds which part of it.  All the storage that a
      value owns, or has owned, is in `storage`. */
  datatype Tree =
    | Leaf(v: Value)
    | Text(chars: array<char>, text: string)
    | Node(block: array<CValue>, kids: seq<Tree>, storage: set<object>)

  ghost function Blocks(t: Tree): set<object> {
    match t
    case Leaf(_) => {}
    case Text(chars, _) => {chars}
    case Node(_, _, storage) => storage
  }

  /** The value without its places. */
  ghost function Content(t: Tree): Value {
    match t
    case Leaf(v) => v
    case Text(_, text) => Str(text)
    case Node(_, kids, _) => Arr(seq(|kids|, i requires 0 <= i < |kids| => Content(kids[i])))
  }

  /** No two parts of the value share a block. */
  ghost predicate Owned(t: Tree) {
    match t
    case Leaf(v) => !v.Arr? && !v.Str?
    case Text(_, _) => true
    case Node(block, kids, storage) =>
      && block in storage && Apart(kids)
      && forall i :: 0 <= i < |kids| ==> Owned(kids[i]) && block !in Blocks(kids[i]) && Blocks(kids[i]) <= storage
  }

  ghost predicate Apart(trees: seq<Tree>) {
    forall i, j :: 0 <= i < |trees| && 0 <= j < |trees| && i != j ==> Blocks(trees[i]) !! Blocks(trees[j])
  }

  /** The content of a value without storage; a string or an array is only known to be one. */
  function Plain(v: CValue): Value {
    match v
    case CNull => Null
    case CInt(i) => Int(i)
    case CBool(b) => Bool(b)
    case CStr(_) => Str("")
    case CArr(_) => Arr([])
  }

  function Stored(v: Value): CValue
    requires !v.Arr? && !v.Str?
  {
    match v
    case Null => CNull
    case Int(i) => CInt(i)
    case Bool(b) => CBool(b)
  }

  /** `v` is laid out in memory as `t` says. */
  ghost predicate Shows(v: CValue, t: Tree)
    reads Blocks(t)
    decreases t
  {
    match t
    case Leaf(p) => !v.CArr? && !v.CStr? && Plain(v) == p
    case Text(chars, text) => v == CStr(chars) && chars[..] == text
    case Node(block, kids, storage) =>
      && v == CArr(block) && block in storage && block.Length == |kids|
      && forall i :: 0 <= i < |kids| ==> Blocks(kids[i]) <= storage && Shows(block[i], kids[i])
  }

  /** A copy shares nothing with what it was copied from, nor with anything else. */
  method DeepCopy(v: CValue, ghost t: Tree) returns (w: CValue, ghost u: Tree)
    requires Shows(v, t)
    ensures Shows(w, u) && Owned(u) && fresh(Blocks(u)) && Content(u) == Content(t)
    decreases t
  {
    if v.CStr? {
      w, u := NewString(v.chars[..]);
    } else if v.CArr? {
      w, u := CopyArray(v.data, t);
    } else {
      w, u := v, Leaf(Plain(v));
    }
  }

  /** A string of its own with this text. */
  method NewString(text: string) returns (w: CValue, ghost u: Tree)
    ensures w.CStr? && fresh(w.chars) && u == Text(w.chars, text) && Shows(w, u)
  {
    var chars := new char[|text|](i requires 0 <= i < |text| => text[i]);
    w, u := CStr(chars), Text(chars, text);
  }

  /** `val_new_array`: a block of nulls. */
  method NewArray(len: nat) returns (w: CValue, ghost u: Tree)
    ensures Shows(w, u) && Owned(u) && fresh(Blocks(u)) && Content(u) == Arr(seq(len, _ => Null))
  {
    var data := new CValue[len](_ => CNull);
    ghost var kids := seq(len, _ => Leaf(Null));
    w, u := CArr(data), Node(data, kids, {data});
    assert Content(u).elems == seq(len, _ => Null);
  }

  /** Both texts in a block of their own, one after the other. */
  method Concat(a: array<char>, b: array<char>) returns (w: CValue, ghost u: Tree)
    ensures w.CStr? && fresh(w.chars) && u == Text(w.chars, a[..] + b[..]) && Shows(w, u)
  {
    w, u := NewString(a[..] + b[..]);
  }

  /** The first cells of `block` hold the values that `kids` describe, outside the block and apart. */
  ghost predicate Row(block: array<CValue>, kids: seq<Tree>, storage: set<object>)
    reads block, storage
  {
    && |kids| <= block.Length && Apart(kids) && block !in storage
    && forall j :: 0 <= j < |kids| ==> Blocks(kids[j]) <= storage && Shows(block[j], kids[j]) && Owned(kids[j])
  }

  method CopyArray(data: array<CValue>, ghost t: Tree) returns (w: CValue, ghost u: Tree)
    requires t.Node? && Shows(CArr(data), t)
    ensures Shows(w, u) && Owned(u) && fresh(Blocks(u)) && Content(u) == Content(t)
    decreases t, 0
  {
    var copy := new CValue[data.Length](_ => CNull);
    ghost var kids: seq<Tree>, storage: set<object> := [], {};
    for k := 0 to data.Length
      invariant |kids| == k && Shows(CArr(data), t) && Row(copy, kids, storage) && fresh(storage)
      invariant forall j :: 0 <= j < k ==> Content(kids[j]) == Content(t.kids[j])
    {
      var c;
      ghost var kid;
      c, kid := DeepCopy(data[k], t.kids[k]);
      SetCell(copy, k, c, kids, storage, kid);
      kids, storage := kids + [kid], storage + Blocks(kid);
    }
    w, u := CArr(copy), Node(copy, kids, storage + {copy});
  }

  /** The next cell of a block under construction is filled. */
  method SetCell(block: array<CValue>, k: nat, c: CValue, ghost kids: seq<Tree>, ghost storage: set<object>, ghost kid: Tree)
    requires k == |kids| < block.Length && Row(block, kids, storage)
    requires Shows(c, kid) && Owned(kid) && block !in Blocks(kid) && storage !! Blocks(kid)
    modifies block
    ensures Row(block, kids + [kid], storage + Blocks(kid))
  {
    block[k] := c;
  }

  /** One cell of an array gets a value of its own; the other cells are as they were. */
  method Overwrite(block: array<CValue>, j: nat, c: CValue, ghost t: Tree, ghost kid: Tree)
    requires Shows(CArr(block), t) && Owned(t) && j < block.Length
    requires Shows(c, kid) && Owned(kid) && Blocks(kid) !! Blocks(t)
    modifies block
    ensures t.Node? && j < |t.kids|
    ensures var now := Node(t.block, t.kids[j := kid], t.storage + Blocks(kid));
      && Shows(CArr(block), now) && Owned(now) && Blocks(now) <= Blocks(t) + Blocks(kid)
      && Content(now) == Arr(Content(t).elems[j := Content(kid)])
  {
    block[j] := c;
    ghost var kids := t.kids[j := kid];
    assert forall i :: 0 <= i < |kids| && i != j ==> Shows(block[i], t.kids[i]);
    assert Shows(block[j], kid);
    assert Content(Node(t.block, kids, t.storage + Blocks(kid))).elems == Content(t).elems[j := Content(kid)];
  }
}
