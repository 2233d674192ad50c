/** The growing vectors of vec.c, used for the code buffer, the patch lists and the stack nodes. ByteVec
    and AddrVec differ only in the element type. */
module Vec {
  import opened Wrappers

  const VEC_START := 8

  /** What a vector costs: its length and capacity, all elements it was ever given or reserved, and all
      elements that reallocations have copied, counting the whole old block each time. */
  datatype Sizes = Sizes(len: nat, cap: nat, added: nat, copied: nat)

  datatype Op = Append | Reserve(n: nat) | Pop

  const Empty: Sizes := Sizes(0, 0, 0, 0)

  function Max(x: nat, y: nat): nat {
    if x > y then x else y
  }

  /** bytevec_append and addrvec_append (vec.c:16-24, vec.c:54-62) */
  function Appended(s: Sizes): Sizes {
    if s.len == s.cap then
      Sizes(s.len + 1, if s.cap != 0 then s.cap * 2 else VEC_START, s.added + 1, s.copied + s.cap)
    else
      Sizes(s.len + 1, s.cap, s.added + 1, s.copied)
  }

  /** bytevec_reserve (vec.c:27-41); it grows already when the vector would be exactly full. */
  function Reserved(s: Sizes, n: nat): Sizes {
    if s.len + n >= s.cap then
      Sizes(s.len + n, if s.cap != 0 then Max(s.cap * 2, s.cap + n) else Max(VEC_START, n), s.added + n, s.copied + s.cap)
    else
      Sizes(s.len + n, s.cap, s.added + n, s.copied)
  }

  /** The decrement of recv_stack (vm.c:318-329), which refuses to go below 0. */
  function Popped(s: Sizes): Sizes {
    if s.len == 0 then s else s.(len := s.len - 1)
  }

  function Applied(s: Sizes, op: Op): Sizes {
    match op
    case Append => Appended(s)
    case Reserve(n) => Reserved(s, n)
    case Pop => Popped(s)
  }

  function AppliedAll(ops: seq<Op>): Sizes {
    if ops == [] then Empty else Applied(AppliedAll(ops[..|ops| - 1]), ops[|ops| - 1])
  }

  /** The elements fit, each growth at least doubled the block, and there was enough added to pay. */
  predicate Paid(s: Sizes) {
    && s.len <= s.cap && s.len <= s.added
    && (s.cap == 0 ==> s.copied == 0)
    && (s.cap > 0 ==> s.copied + VEC_START <= s.cap)
    && s.cap <= Max(VEC_START, 2 * s.added)
  }

  lemma AppliedPaid(s: Sizes, op: Op)
    requires Paid(s)
    ensures Paid(Applied(s, op))
  {
  }

  /** Any sequence of appends, reserves and pops keeps the length within the capacity and copies at most
      two elements for each element added. */
  lemma {:induction false} LinearCost(ops: seq<Op>)
    ensures var s := AppliedAll(ops); s.len <= s.cap && s.copied <= 2 * s.added && Paid(s)
  {
    hide Applied;
    if ops != [] {
      LinearCost(ops[..|ops| - 1]);
      AppliedPaid(AppliedAll(ops[..|ops| - 1]), ops[|ops| - 1]);
    }
  }

  class Vector<T(0)> {
    var buf: array<T>
    var len: nat
    ghost var added: nat
    ghost var copied: nat

    ghost function Account(): Sizes
      reads this
    {
      Sizes(len, buf.Length, added, copied)
    }

    ghost predicate Valid()
      reads this
    {
      len <= buf.Length && len <= added
    }

    ghost function Contents(): (s: seq<T>)
      requires Valid()
      reads this, buf
    {
      buf[..len]
    }

    constructor ()
      ensures Valid() && fresh(buf) && Contents() == [] && Account() == Empty
    {
      buf := new T[0];
      len, added, copied := 0, 0, 0;
    }

    /** erealloc: a block of `cap` elements that begins with those of the old one. */
    method Reallocate(cap: nat)
      requires Valid() && len <= cap
      modifies `buf, `copied
      ensures fresh(buf) && buf.Length == cap && Valid()
      ensures Contents() == old(Contents()) && copied == old(copied) + old(buf.Length)
    {
      var block := new T[cap];
      var i := 0;
      while i < len
        invariant 0 <= i <= len
        invariant forall k :: 0 <= k < i ==> block[k] == buf[k]
        modifies block
      {
        block[i] := buf[i];
        i := i + 1;
      }
      copied := copied + buf.Length;
      buf := block;
    }

    /** bytevec_append, addrvec_append */
    method Append(val: T)
      requires Valid()
      modifies this, buf
      ensures Valid() && (buf == old(buf) || fresh(buf))
      ensures Contents() == old(Contents()) + [val] && Account() == Appended(old(Account()))
    {
      if len == buf.Length {
        Reallocate(if buf.Length != 0 then buf.Length * 2 else VEC_START);
      }
      buf[len] := val;
      len := len + 1;
      added := added + 1;
    }

    /** bytevec_reserve: behind the old elements come `n` of any content, for a later patch. */
    method Reserve(n: nat) returns (result: nat)
      requires Valid()
      modifies this
      ensures Valid() && (buf == old(buf) || fresh(buf))
      ensures result == old(len) && |Contents()| == result + n && Contents()[..result] == old(Contents())
      ensures Account() == Reserved(old(Account()), n)
    {
      if len + n >= buf.Length {
        Reallocate(if buf.Length != 0 then Max(buf.Length * 2, buf.Length + n) else Max(VEC_START, n));
      }
      result := len;
      len := len + n;
      added := added + n;
      assert Contents()[..result] == buf[..result];
    }

    /** Filling in a reserved place leaves the rest alone. */
    method Patch(i: nat, val: T)
      requires Valid() && i < len
      modifies buf
      ensures Valid() && Contents() == old(Contents())[i := val] && Account() == old(Account())
    {
      buf[i] := val;
    }

    /** The pop of recv_stack (vm.c:318-329). */
    method Pop() returns (r: Option<T>)
      requires Valid()
      modifies `len
      ensures Valid() && Account() == Popped(old(Account())) && buf == old(buf)
      ensures old(len) == 0 ==> r == None && len == 0
      ensures old(len) > 0 ==> r == Some(old(Contents())[old(len) - 1]) && Contents() == old(Contents())[..old(len) - 1]
    {
      if len == 0 {
        return None;
      }
      len := len - 1;
      r := Some(buf[len]);
    }

    /** bytevec_shrink: nothing but the capacity changes. */
    method Shrink()
      requires Valid()
      modifies this
      ensures Valid() && (buf == old(buf) || fresh(buf))
      ensures Contents() == old(Contents()) && buf.Length == len == old(len)
    {
      if len == buf.Length {
        return;
      }
      Reallocate(len);
    }

    /** addrvec_clear */
    method Clear()
      requires Valid()
      modifies this
      ensures Valid() && fresh(buf) && Contents() == [] && Account() == Empty
    {
      buf := new T[0];
      len, added, copied := 0, 0, 0;
    }
  }
}
