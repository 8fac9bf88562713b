/** The buffer in which a comptime block collects the text it generates. */
module Yield {

  const MAX_YIELD := 1024 * 1024

  /** 4096 doubled `k` times. */
  function Doubled(k: nat): nat {
    if k == 0 then 4096 else 2 * Doubled(k - 1)
  }

  /** The sizes the buffer can have. */
  ghost predicate IsCapacity(cap: nat) {
    cap == 0 || (cap <= MAX_YIELD && exists k: nat :: cap == Doubled(k))
  }

  lemma {:induction false} DoubledGrows(j: nat, k: nat)
    requires j < k
    ensures 2 * Doubled(j) <= Doubled(k)
  {
    if j < k - 1 {
      DoubledGrows(j, k - 1);
    }
  }

  /** The largest size is one of them, so nothing below it is skipped. */
  lemma LargestIsReached()
    ensures Doubled(8) == MAX_YIELD
  {
  }

  /** A capacity with less room than the limit can be doubled. */
  lemma CanDouble(k: nat)
    requires Doubled(k) < MAX_YIELD
    ensures 2 * Doubled(k) <= MAX_YIELD
  {
    LargestIsReached();
    if k < 8 {
      DoubledGrows(k, 8);
    } else if k > 8 {
      DoubledGrows(8, k);
    }
  }

  class YieldBuffer {
    var buf: array?<char>
    var len: nat
    var cap: nat
    /** Everything accepted so far. */
    ghost var text: string

    ghost predicate Valid()
      reads this, buf
    {
      && IsCapacity(cap) && (cap == 0 <==> buf == null)
      && len == |text|
      && (buf == null ==> text == "")
      && (buf != null ==> buf.Length == cap && len < cap && buf[..len] == text && buf[len] == '\0')
    }

    constructor ()
      ensures Valid() && text == "" && buf == null
    {
      buf, len, cap, text := null, 0, 0, "";
    }

    /** The size to grow to: the smallest capacity with room for `need` characters, or one past the limit. */
    method NewCapacity(need: nat) returns (size: nat)
      requires Valid() && need > cap
      ensures size >= need && (size == 4096 || size < 2 * need) && exists k: nat :: size == Doubled(k)
      ensures size > MAX_YIELD <==> need > MAX_YIELD
    {
      ghost var k: nat;
      if cap == 0 {
        size, k := 4096, 0;
      } else {
        ghost var j: nat :| cap == Doubled(j);
        size, k := cap * 2, j + 1;
        if need <= MAX_YIELD {
          CanDouble(j);
        }
      }
      while need > size
        invariant size == Doubled(k) && (size == 4096 || size < 2 * need)
        invariant need <= MAX_YIELD ==> size <= MAX_YIELD
        decreases need - size
      {
        if need <= MAX_YIELD {
          CanDouble(k);
        }
        size := size * 2;
        k := k + 1;
      }
    }

    /** Appends `s`; refuses, and changes nothing, exactly when the text would not fit into 2^20 - 1 characters. */
    method Append(s: string) returns (ok: bool)
      requires Valid()
      modifies this, buf
      ensures Valid() && (buf == old(buf) || fresh(buf))
      ensures ok == (|old(text)| + |s| <= MAX_YIELD - 1)
      ensures text == if ok then old(text) + s else old(text)
      ensures buf != null || !ok
    {
      if len + |s| + 1 > cap {
        var size := NewCapacity(len + |s| + 1);
        if size > MAX_YIELD {
          return false;
        }
        Reallocate(size);
      }
      Copy(s);
      return true;
    }

    /** Moves the text into a larger buffer. */
    method Reallocate(size: nat)
      requires Valid() && cap < size <= MAX_YIELD && exists k: nat :: size == Doubled(k)
      modifies this`buf, this`cap
      ensures Valid() && fresh(buf) && cap == size
    {
      var bigger := new char[size];
      if buf != null {
        for i := 0 to len
          invariant unchanged(this) && Valid() && bigger[..i] == buf[..i]
        {
          bigger[i] := buf[i];
        }
      }
      bigger[len] := '\0';
      assert bigger[..len] == text;
      buf, cap := bigger, size;
    }

    method Copy(s: string)
      requires Valid() && buf != null && len + |s| + 1 <= cap
      modifies this`len, this`text, buf
      ensures Valid() && text == old(text) + s
    {
      for i := 0 to |s|
        invariant unchanged(this) && buf[..len + i] == text + s[..i]
      {
        buf[len + i] := s[i];
        assert buf[..len + (i + 1)] == buf[..len + i] + [s[i]];
      }
      assert s[..|s|] == s;
      len := len + |s|;
      buf[len] := '\0';
      text := text + s;
      assert buf[..len] == text;
    }
  }
}
