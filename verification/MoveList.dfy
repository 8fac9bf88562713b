/** The linked lists of move entries (`MoveEntry`, `MoveState`) and the operations that
    search, extend, copy and merge them in place. */
module MoveList {
  import opened Ast

  datatype MoveStatus = VALID | MOVED | MAYBE_MOVED

  class MoveEntry {
    const name: Name
    var status: MoveStatus
    var movedAt: nat
    var next: MoveEntry?

    constructor (name: Name, status: MoveStatus, movedAt: nat, next: MoveEntry?)
      ensures this.name == name && this.status == status && this.movedAt == movedAt && this.next == next
    {
      this.name, this.status, this.movedAt, this.next := name, status, movedAt, next;
    }
  }

  class MoveState {
    var entries: MoveEntry?
    ghost var repr: set<object>
    /** The entries, in list order. */
    ghost var spine: seq<MoveEntry>
    /** The MOVED paths: what the rest of the checker can observe. */
    ghost var moved: set<Name>

    /** Properly linked, no path twice, never the unused third status, and `moved` lists
        exactly the paths whose entry is MOVED. */
    ghost predicate Valid()
      reads this, repr
      ensures Valid() ==> this in repr
    {
      this in repr && (forall i :: 0 <= i < |spine| ==> spine[i] in repr) &&
      entries == (if spine == [] then null else spine[0]) &&
      (forall i {:trigger spine[i].next} :: 0 <= i < |spine| - 1 ==> spine[i].next == spine[i + 1]) &&
      (spine != [] ==> spine[|spine| - 1].next == null) &&
      (forall i, j :: 0 <= i < j < |spine| ==> spine[i].name != spine[j].name) &&
      (forall i :: 0 <= i < |spine| ==> spine[i].status == if spine[i].name in moved then MOVED else VALID) &&
      (forall x :: x in moved ==> Lists(spine, x))
    }

    static ghost predicate Lists(spine: seq<MoveEntry>, path: Name) {
      exists i :: 0 <= i < |spine| && spine[i].name == path
    }

    constructor ()
      ensures Valid() && fresh(repr) && spine == [] && moved == {}
    {
      entries := null;
      spine, moved, repr := [], {}, {this};
    }

    method GetStatus(path: Name) returns (status: MoveStatus)
      requires Valid()
      ensures status == if path in moved then MOVED else VALID
    {
      var e := entries;
      ghost var k := 0;
      while e != null
        invariant 0 <= k <= |spine| && e == (if k < |spine| then spine[k] else null)
        invariant forall i :: 0 <= i < k ==> spine[i].name != path
        decreases |spine| - k
      {
        if e.name == path {
          return e.status;
        }
        e, k := e.next, k + 1;
      }
      return VALID;
    }

    method MarkMoved(path: Name, line: nat)
      requires Valid()
      modifies repr
      ensures Valid() && moved == old(moved) + {path}
      ensures old(repr) <= repr && fresh(repr - old(repr))
      ensures Lists(old(spine), path) ==> spine == old(spine)
    {
      var e := entries;
      ghost var k := 0;
      while e != null
        invariant 0 <= k <= |spine| && e == (if k < |spine| then spine[k] else null)
        invariant forall i :: 0 <= i < k ==> spine[i].name != path
        decreases |spine| - k
      {
        if e.name == path {
          e.status := MOVED;
          e.movedAt := line;
          moved := moved + {path};
          return;
        }
        e, k := e.next, k + 1;
      }
      Prepend(path, MOVED, line);
    }

    method MarkValid(path: Name, line: nat)
      requires Valid()
      modifies repr
      ensures Valid() && moved == old(moved) - {path}
      ensures old(repr) <= repr && fresh(repr - old(repr))
    {
      var e := entries;
      ghost var k := 0;
      while e != null
        invariant 0 <= k <= |spine| && e == (if k < |spine| then spine[k] else null)
        invariant forall i :: 0 <= i < k ==> spine[i].name != path
        decreases |spine| - k
      {
        if e.name == path {
          e.status := VALID;
          e.movedAt := line;
          moved := moved - {path};
          return;
        }
        e, k := e.next, k + 1;
      }
      Prepend(path, VALID, line);
    }

    /** A new entry at the head, for a path that has none. */
    method Prepend(path: Name, status: MoveStatus, line: nat)
      requires Valid() && !Lists(spine, path) && status != MAYBE_MOVED
      modifies this
      ensures Valid() && moved == (if status == MOVED then old(moved) + {path} else old(moved) - {path})
      ensures old(repr) <= repr && fresh(repr - old(repr))
      ensures |spine| == |old(spine)| + 1 && spine[1..] == old(spine) && spine[0].name == path
    {
      var newEntry := new MoveEntry(path, status, line, entries);
      entries := newEntry;
      spine := [newEntry] + spine;
      repr := repr + {newEntry};
      moved := if status == MOVED then moved + {path} else moved - {path};
      ListsLater(newEntry, old(spine));
      assert spine[0].name == path;
    }

    static lemma ListsLater(head: MoveEntry, tail: seq<MoveEntry>)
      ensures forall x :: Lists(tail, x) ==> Lists([head] + tail, x)
    {
      forall x | Lists(tail, x) ensures Lists([head] + tail, x) {
        var i :| 0 <= i < |tail| && tail[i].name == x;
        assert ([head] + tail)[i + 1].name == x;
      }
    }

    /** A copy that shares no entry with the original and lists the same paths in the same order. */
    method Clone() returns (copy: MoveState)
      requires Valid()
      ensures copy.Valid() && fresh(copy.repr) && copy.moved == moved
      ensures |copy.spine| == |spine|
      ensures forall i :: 0 <= i < |spine| ==>
                copy.spine[i].name == spine[i].name && copy.spine[i].status == spine[i].status
    {
      copy := new MoveState();
      var curr := entries;
      var tail: MoveEntry? := null;
      ghost var k := 0;
      while curr != null
        invariant 0 <= k <= |spine| && curr == (if k < |spine| then spine[k] else null)
        invariant copy.Valid() && fresh(copy.repr) && |copy.spine| == k
        invariant if k == 0 then tail == null else tail == copy.spine[k - 1]
        invariant forall i :: 0 <= i < k ==>
                    copy.spine[i].name == spine[i].name && copy.spine[i].status == spine[i].status
        invariant copy.moved <= moved
        decreases |spine| - k
      {
        tail := copy.AppendCopy(tail, curr);
        curr, k := curr.next, k + 1;
      }
      CopiedMoved(copy);
    }

    /** A copy of all entries has all MOVED paths. */
    lemma CopiedMoved(copy: MoveState)
      requires Valid() && copy.Valid() && |copy.spine| == |spine|
      requires forall i :: 0 <= i < |spine| ==> copy.spine[i].name == spine[i].name && copy.spine[i].status == spine[i].status
      ensures moved <= copy.moved
    {
      forall x | x in moved ensures x in copy.moved {
        var i :| 0 <= i < |spine| && spine[i].name == x;
        assert copy.spine[i].status == MOVED;
      }
    }

    /** The step of the copy loop. */
    method AppendCopy(tail: MoveEntry?, e: MoveEntry) returns (newEntry: MoveEntry)
      requires Valid() && e !in repr && e.status != MAYBE_MOVED && !Lists(spine, e.name)
      requires if spine == [] then tail == null else tail == spine[|spine| - 1]
      modifies this, tail
      ensures Valid() && fresh(newEntry) && repr == old(repr) + {newEntry} && spine == old(spine) + [newEntry]
      ensures newEntry.name == e.name && newEntry.status == old(e.status)
      ensures moved == if newEntry.status == MOVED then old(moved) + {e.name} else old(moved) - {e.name}
    {
      newEntry := new MoveEntry(e.name, e.status, e.movedAt, null);
      Append(tail, newEntry);
    }

    /** Links a new entry after `tail`, the last one. */
    method Append(tail: MoveEntry?, newEntry: MoveEntry)
      requires Valid() && newEntry !in repr && newEntry.next == null && newEntry.status != MAYBE_MOVED
      requires if spine == [] then tail == null else tail == spine[|spine| - 1]
      requires !Lists(spine, newEntry.name)
      modifies this, tail
      ensures Valid() && repr == old(repr) + {newEntry} && spine == old(spine) + [newEntry]
      ensures moved == if newEntry.status == MOVED then old(moved) + {newEntry.name} else old(moved) - {newEntry.name}
    {
      if tail == null {
        entries := newEntry;
      } else {
        tail.next := newEntry;
      }
      spine := spine + [newEntry];
      repr := repr + {newEntry};
      moved := if newEntry.status == MOVED then moved + {newEntry.name} else moved - {newEntry.name};
      forall x | x in moved ensures Lists(spine, x) {
        if Lists(old(spine), x) {
          var i :| 0 <= i < |old(spine)| && old(spine)[i].name == x;
          assert spine[i].name == x;
        } else {
          assert spine[|old(spine)|].name == x;
        }
      }
    }
  }

  ghost function MovedOf(s: MoveState?): set<Name>
    reads s
  {
    if s == null then {} else s.moved
  }

  ghost function ReprOf(s: MoveState?): set<object>
    reads s
  {
    if s == null then {} else s.repr
  }

  ghost predicate ValidOpt(s: MoveState?)
    reads s, ReprOf(s)
  {
    s != null ==> s.Valid()
  }

  /** The states a walk may read: the target itself, or one that shares nothing with it. */
  ghost predicate Mergeable(s: MoveState?, target: MoveState)
    reads s, ReprOf(s), target
  {
    ValidOpt(s) && (s == target || ReprOf(s) !! target.repr)
  }

  /** One step of a walk: the entry `e` of `src` is marked in `target` when its path is
      MOVED in `src` or in `other`. */
  method MarkStep(target: MoveState, src: MoveState, other: MoveState?, e: MoveEntry, ghost all: set<Name>)
    requires target.Valid() && Mergeable(src, target) && Mergeable(other, target)
    requires exists i :: 0 <= i < |src.spine| && src.spine[i] == e
    requires target.moved <= all && src.moved <= all && MovedOf(other) <= all
    modifies target.repr
    ensures target.Valid() && Mergeable(src, target) && Mergeable(other, target) && src.spine == old(src.spine)
    ensures old(target.repr) <= target.repr && fresh(target.repr - old(target.repr))
    ensures old(target.moved) <= target.moved && old(src.moved) <= src.moved
    ensures e.name in old(src.moved) ==> e.name in target.moved
    ensures target.moved <= all && src.moved <= all && MovedOf(other) <= all
  {
    var statusSrc := e.status;
    var statusOther := VALID;
    if other != null {
      statusOther := other.GetStatus(e.name);
    }
    assert MoveState.Lists(src.spine, e.name);
    if statusSrc == MOVED || statusOther == MOVED {
      target.MarkMoved(e.name, e.movedAt);
    }
  }

  lemma MovedWithin(s: MoveState, paths: set<Name>, bound: set<Name>)
    requires s.Valid() && paths <= s.moved
    requires forall i :: 0 <= i < |s.spine| && s.spine[i].name in paths ==> s.spine[i].name in bound
    ensures paths <= bound
  {
    forall x | x in paths ensures x in bound {
      assert MoveState.Lists(s.spine, x);
    }
  }

  /** One of the two walks of a merge: marks in `target` the paths of `src` that are MOVED
      in `src` or in `other`.  Either of them may be `target` itself. */
  method MarkFrom(target: MoveState, src: MoveState, other: MoveState?)
    requires target.Valid() && Mergeable(src, target) && Mergeable(other, target)
    modifies target.repr
    ensures target.Valid() && old(target.repr) <= target.repr && fresh(target.repr - old(target.repr))
    ensures old(target.moved) + old(src.moved) <= target.moved
    ensures target.moved <= old(target.moved) + old(src.moved) + old(MovedOf(other))
  {
    ghost var spine, here, all := src.spine, src.moved, target.moved + src.moved + MovedOf(other);
    var e := src.entries;
    ghost var k := 0;
    while e != null
      invariant src.spine == spine && 0 <= k <= |spine| && e == (if k < |spine| then spine[k] else null)
      invariant target.Valid() && Mergeable(src, target) && Mergeable(other, target)
      invariant old(target.repr) <= target.repr && fresh(target.repr - old(target.repr))
      invariant old(target.moved) <= target.moved <= all && here <= src.moved <= all && MovedOf(other) <= all
      invariant forall i :: 0 <= i < k && spine[i].name in here ==> spine[i].name in target.moved
      decreases |spine| - k
    {
      MarkStep(target, src, other, e, all);
      e, k := e.next, k + 1;
    }
    MovedWithin(src, here, target.moved);
  }

  /** Marks in `target` every path MOVED in `a` or `b`.  `b` may be `target` itself: a
      conditional without an else branch merges the state before it into itself. */
  method Merge(target: MoveState, a: MoveState?, b: MoveState?)
    requires target.Valid() && ValidOpt(a) && ValidOpt(b)
    requires ReprOf(a) !! target.repr && (b == target || ReprOf(b) !! target.repr)
    modifies target.repr
    ensures target.Valid() && target.moved == old(target.moved) + old(MovedOf(a)) + old(MovedOf(b))
    ensures old(target.repr) <= target.repr && fresh(target.repr - old(target.repr))
  {
    if a != null {
      MarkFrom(target, a, b);
    }
    if b != null {
      MarkFrom(target, b, a);
    }
  }

  /** Merges `src` into a state that is created on first use. */
  method MergeInto(target: MoveState?, src: MoveState) returns (r: MoveState)
    requires src.Valid() && ValidOpt(target) && src.repr !! ReprOf(target)
    modifies ReprOf(target)
    ensures r.Valid() && r.moved == if target == null then src.moved else old(target.moved) + old(src.moved)
    ensures if target == null then fresh(r.repr) else r == target && old(target.repr) <= r.repr && fresh(r.repr - old(target.repr))
  {
    if target == null {
      r := src.Clone();
      return;
    }
    r := target;
    var e := src.entries;
    ghost var k := 0;
    while e != null
      invariant 0 <= k <= |src.spine| && e == (if k < |src.spine| then src.spine[k] else null)
      invariant src.Valid() && r.Valid() && old(target.repr) <= r.repr && fresh(r.repr - old(target.repr))
      invariant old(target.moved) <= r.moved <= old(target.moved) + src.moved
      invariant forall i :: 0 <= i < k && src.spine[i].name in src.moved ==> src.spine[i].name in r.moved
      decreases |src.spine| - k
    {
      if e.status == MOVED {
        r.MarkMoved(e.name, e.movedAt);
      }
      e, k := e.next, k + 1;
    }
    forall x | x in src.moved ensures x in r.moved {
      assert MoveState.Lists(src.spine, x);
    }
  }
}
