/** What the devices behind a port promise (vm.c:230-329), over sequences of sends and receives: a stack is
    last in, first out; a buffer is 256 cells; standard input is read, and output written, in order. */
module Devices {
  import opened Wrappers
  import opened Bytes
  import opened Network

  predicate Sized(r: Res) {
    r.Cells? ==> |r.data| == 256
  }

  /** Send the bytes one after the other; None when one of them is not taken at once. */
  function SendAll(r: Res, port: nat, bs: seq<byte>): (t: Option<Res>)
    requires Sized(r)
    ensures t.Some? ==> Sized(t.value)
    decreases |bs|
  {
    if bs == [] then Some(r) else
    match SendTo(r, port, bs[0])
    case Taken(t) => SendAll(t, port, bs[1..])
    case _ => None
  }

  /** Receive `n` bytes one after the other; None when there are fewer. */
  function RecvAll(r: Res, port: nat, n: nat): (t: Option<(seq<byte>, Res)>)
    requires Sized(r)
    ensures t.Some? ==> |t.value.0| == n && Sized(t.value.1)
    decreases n
  {
    if n == 0 then Some(([], r)) else
    match RecvFrom(r, port)
    case Got(b, t) =>
      (match RecvAll(t, port, n - 1)
       case None => None
       case Some((bs, u)) => Some(([b] + bs, u)))
    case _ => None
  }

  function Reversed(s: seq<byte>): (r: seq<byte>)
    ensures |r| == |s| && forall k :: 0 <= k < |s| ==> r[k] == s[|s| - 1 - k]
  {
    if s == [] then [] else Reversed(s[1..]) + [s[0]]
  }

  // ----- Stacks -----

  /** A receive undoes the last send. */
  lemma ReceiveUndoesSend(s: seq<byte>, p: nat, q: nat, b: byte)
    ensures SendTo(Items(s), p, b).Taken? && RecvFrom(SendTo(Items(s), p, b).r, q) == Got(b, Items(s))
    ensures RecvFrom(Items([]), q) == Nothing
  {
    assert (s + [b])[..|s|] == s;
  }

  lemma {:induction false} Pushed(s: seq<byte>, p: nat, bs: seq<byte>)
    ensures SendAll(Items(s), p, bs) == Some(Items(s + bs))
    decreases |bs|
  {
    if bs == [] {
      assert s + bs == s;
    } else {
      Pushed(s + [bs[0]], p, bs[1..]);
      assert s + [bs[0]] + bs[1..] == s + bs;
    }
  }

  lemma {:induction false} Popped(s: seq<byte>, q: nat, bs: seq<byte>)
    ensures RecvAll(Items(s + bs), q, |bs|) == Some((Reversed(bs), Items(s)))
    decreases |bs|
  {
    if bs == [] {
      assert s + bs == s;
    } else {
      var n := |bs| - 1;
      Popped(s, q, bs[..n]);
      assert s + bs == (s + bs[..n]) + [bs[n]];
      assert (s + bs)[..|s + bs| - 1] == s + bs[..n];
      assert Reversed(bs) == [bs[n]] + Reversed(bs[..n]);
    }
  }

  /** Last in, first out: whatever a stack holds, the bytes sent to it come back in reverse, and below them
      it is as before. */
  lemma LastInFirstOut(s: seq<byte>, p: nat, q: nat, bs: seq<byte>)
    ensures SendAll(Items(s), p, bs).Some?
    ensures RecvAll(SendAll(Items(s), p, bs).value, q, |bs|) == Some((Reversed(bs), Items(s)))
  {
    Pushed(s, p, bs);
    Popped(s, q, bs);
  }

  // ----- Buffers -----

  predicate IsBuffer(r: Res) {
    r.Cells? && |r.data| == 256
  }

  /** What a processor reads that first sends the index `i` to `idx` and then receives from `elm`. */
  function CellAt(r: Res, elm: nat, idx: nat, i: byte): Option<byte>
    requires IsBuffer(r)
  {
    match SendTo(r, idx, i)
    case Taken(t) =>
      (match RecvFrom(t, elm)
       case Got(b, _) => Some(b)
       case _ => None)
    case _ => None
  }

  /** The state after a processor sent the index `i` to `idx` and then `b` to `elm`. */
  function StoreAt(r: Res, elm: nat, idx: nat, i: byte, b: byte): Option<Res>
    requires IsBuffer(r)
  {
    match SendTo(r, idx, i)
    case Taken(t) =>
      (match SendTo(t, elm, b)
       case Taken(u) => Some(u)
       case _ => None)
    case _ => None
  }

  /** The numbers of a buffer's ports, told by their names. */
  predicate ByName(elm: nat, idx: nat) {
    elm < |BUFFER_PORTS| && idx < |BUFFER_PORTS| && BUFFER_PORTS[elm] == "elm" && BUFFER_PORTS[idx] == "idx"
  }

  lemma NamesApart(elm: nat, idx: nat)
    requires ByName(elm, idx)
    ensures elm == BUFFER_ELM && idx == BUFFER_IDX
  {
    assert "elm"[0] != "idx"[0];
  }

  /** A buffer is 256 cells: what is stored through `idx` and `elm` is read back there and nowhere else,
      through any sequence of accesses; an index sent to `idx` is read back from it; and a new buffer holds
      the bytes it was made of. */
  lemma BufferIsMemory(r: Res, elm: nat, idx: nat, i: byte, j: byte, b: byte)
    requires IsBuffer(r) && ByName(elm, idx)
    ensures StoreAt(r, elm, idx, i, b).Some? && IsBuffer(StoreAt(r, elm, idx, i, b).value)
    ensures CellAt(StoreAt(r, elm, idx, i, b).value, elm, idx, j) == if i == j then Some(b) else CellAt(r, elm, idx, j)
    ensures SendTo(r, idx, i).Taken? && RecvFrom(SendTo(r, idx, i).r, idx) == Got(i, SendTo(r, idx, i).r)
    ensures CellAt(SendTo(r, idx, i).r, elm, idx, j) == CellAt(r, elm, idx, j) == Some(r.data[j])
  {
    NamesApart(elm, idx);
  }

  // ----- Streams -----

  /** Standard input arrives front to back, and then nothing arrives; standard output and error keep what
      is written, in order; and neither is used the other way. */
  lemma {:induction false} StreamsInOrder(s: seq<byte>, port: nat, bs: seq<byte>, b: byte)
    requires port < 3
    ensures IO_PORTS[port] == "in" ==>
              && RecvAll(Input(bs + s), port, |bs|) == Some((bs, Input(s)))
              && RecvFrom(Input([]), port) == Nothing && SendTo(Input(s), port, b) == NoSuchPort
    ensures IO_PORTS[port] in {"out", "err"} ==>
              && SendAll(Output(s), port, bs) == Some(Output(s + bs))
              && RecvFrom(Output(s), port) == BadPort
    decreases |bs|
  {
    if bs == [] {
      assert bs + s == s && s + bs == s;
    } else {
      StreamsInOrder(s, port, bs[1..], b);
      StreamsInOrder(s + [bs[0]], port, bs[1..], b);
      assert (bs + s)[1..] == bs[1..] + s && [bs[0]] + bs[1..] == bs;
      assert s + [bs[0]] + bs[1..] == s + bs;
    }
  }
}
