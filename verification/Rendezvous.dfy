/** What every tick of every interleaving keeps: a filled wire has its sender parked at the send. */
module Rendezvous {
  import opened Wrappers
  import opened Bytecode
  import opened Machine
  import opened Network

  /** The state after a tick; a blocked or crashing tick changes nothing. */
  function After(net: Net, s: Sys, i: nat): Sys
    requires Valid(net, s) && i in s.cores
  {
    match Step(net, s, i)
    case Progress(t, _) => t
    case Offering(t) => t
    case Blocked => s
    case Crash => s
  }

  lemma WantsLinked(net: Net, s: Sys, i: nat)
    requires Valid(net, s) && i in s.cores && Wants(net, i, s.cores[i]).Some?
    ensures var a := Peek(net[i].code, s.cores[i]);
            var k := Wants(net, i, s.cores[i]).value;
            && k in s.res && GoodRes(k, s.res[k])
            && (a.Sending? || a.Receiving?)
            && Linked(net, i, a.port, k)
  {
    hide Peek, GoodRes;
    var a := Peek(net[i].code, s.cores[i]);
    assert Linked(net, i, a.port, Wants(net, i, s.cores[i]).value);
  }

  lemma EffectGood(net: Net, s: Sys, i: nat)
    requires Valid(net, s) && i in s.cores && Wants(net, i, s.cores[i]).Some?
    ensures var e := TickEffect(net, i, s.cores[i], Wanted(net, s, i));
            var k := Wants(net, i, s.cores[i]).value;
            && (e.Proceed? && e.res.Some? ==> GoodRes(k, e.res.value))
            && (e.Offer? ==> GoodRes(k, e.full))
  {
    hide Peek;
    WantsLinked(net, s, i);
  }

  lemma AfterValid(net: Net, s: Sys, i: nat)
    requires Valid(net, s) && i in s.cores
    ensures Valid(net, After(net, s, i))
  {
    hide Peek, TickEffect, GoodRes;
    if Wants(net, i, s.cores[i]).Some? {
      WantsLinked(net, s, i);
      EffectGood(net, s, i);
    }
  }

  lemma CodeClosed(net: Net, i: nat)
    requires WellWired(net) && i < |net| && net[i].Proc?
    ensures Closed(net[i].code)
  {
  }

  /** How a tick about a wire changes the wire: the handshake of send_proc and recv_proc
      (vm.c:190-228). A receive onto a full operand stack ends the VM instead. */
  lemma WireTick(net: Net, s: Sys, i: nat, k: Key)
    requires Valid(net, s) && i in s.cores && Wants(net, i, s.cores[i]) == Some(k) && k.WireKey?
    ensures k in s.res && s.res[k].Wire?
    ensures var a := Peek(net[i].code, s.cores[i]);
            var r := s.res[k];
            var t := After(net, s, i);
            && (a.Sending? || a.Receiving?)
            && (a.Sending? && r.status == EMPTY ==> Step(net, s, i) == Offering(t) && t == s.(res := s.res[k := Wire(FULL, a.val)]))
            && (a.Sending? && r.status == FULL ==> Step(net, s, i) == Blocked)
            && (a.Sending? && r.status == CONSUMED ==>
                  Step(net, s, i) == Progress(t, Sent(k, a.val))
                  && t == Sys(s.cores[i := AfterSend(net[i].code, s.cores[i])], s.res[k := Wire(EMPTY, r.buf)]))
            && (a.Receiving? && r.status != FULL ==> Step(net, s, i) == Blocked)
            && (a.Receiving? && r.status == FULL ==>
                  match AfterRecv(net[i].code, s.cores[i], r.buf)
                  case None => Step(net, s, i) == Crash
                  case Some(c) => Step(net, s, i) == Progress(t, Received(k, r.buf))
                                  && t == Sys(s.cores[i := c], s.res[k := Wire(CONSUMED, r.buf)]))
  {
    hide Peek, AfterSend, AfterRecv;
    WantsLinked(net, s, i);
  }

  /** A tick leaves isp on an instruction start. */
  lemma AfterStarts(net: Net, s: Sys, i: nat)
    requires Inv(net, s) && i in s.cores
    ensures i in After(net, s, i).cores && IsStart(net[i].code, After(net, s, i).cores[i].pc)
  {
    hide Peek, SendTo, RecvFrom, AfterRecv, AfterSend, Decode, Closed, IsStart, Coupled, WellWired, KeyOf, GoodRes;
    CodeClosed(net, i);
    StaysOnStarts(net[i].code, s.cores[i]);
  }

  /** Two processors at a send on the same wire are the same processor at the same port. */
  lemma OneSender(net: Net, s: Sys, i: nat, p: slot, j: nat, q: slot, k: Key)
    requires WellWired(net) && Valid(net, s) && i in s.cores && j in s.cores
    requires IsStart(net[i].code, s.cores[i].pc) && IsStart(net[j].code, s.cores[j].pc)
    requires Linked(net, i, p, k) && Linked(net, j, q, k) && k.WireKey?
    requires Peek(net[i].code, s.cores[i]).Sending? && Peek(net[i].code, s.cores[i]).port == p
    requires Peek(net[j].code, s.cores[j]).Sending? && Peek(net[j].code, s.cores[j]).port == q
    ensures i == j && p == q
  {
    hide Peek;
    assert Sends(net, i, p) && Sends(net, j, q);
  }

  /** A tick of `i` that is not about wire `w` keeps its holder parked. */
  lemma HolderKept(net: Net, s: Sys, i: nat, j: nat, q: slot, w: nat)
    requires Valid(net, s) && i in s.cores && Parked(net, s, j, q, w) && i != j
    requires Valid(net, After(net, s, i))
    requires WireKey(w) in After(net, s, i).res
    requires After(net, s, i).res[WireKey(w)].Wire?
    requires After(net, s, i).res[WireKey(w)].buf == s.res[WireKey(w)].buf
    ensures Parked(net, After(net, s, i), j, q, w)
  {
    hide Peek, TickEffect;
  }

  /** A wire that is not empty after the tick has its sender parked after the tick. */
  lemma WireKept(net: Net, s: Sys, i: nat, w: nat) returns (j: nat, q: slot)
    requires Inv(net, s) && i in s.cores
    requires Valid(net, After(net, s, i))
    requires WireKey(w) in After(net, s, i).res
    requires After(net, s, i).res[WireKey(w)] != Wire(EMPTY, After(net, s, i).res[WireKey(w)].buf)
    ensures Parked(net, After(net, s, i), j, q, w)
  {
    hide Peek, AfterSend, AfterRecv, TickEffect, WellWired;
    var t := After(net, s, i);
    var k := WireKey(w);
    assert GoodRes(k, t.res[k]);
    var a := Peek(net[i].code, s.cores[i]);
    if Wants(net, i, s.cores[i]) == Some(k) {
      WantsLinked(net, s, i);
      WireTick(net, s, i, k);
      if a.Sending? && s.res[k] == Wire(EMPTY, s.res[k].buf) {
        j, q := i, a.port;
      } else {
        j, q :| Parked(net, s, j, q, w);
        if t != s {
          assert a.Receiving?;
          HolderKept(net, s, i, j, q, w);
        }
      }
    } else {
      assert k in s.res && s.res[k] == t.res[k];
      j, q :| Parked(net, s, j, q, w);
      assert Wants(net, j, s.cores[j]) == Some(k);
      HolderKept(net, s, i, j, q, w);
    }
  }

  /** A tick of `i` leaves the other processors alone. */
  lemma OtherCores(net: Net, s: Sys, i: nat)
    requires Valid(net, s) && i in s.cores
    ensures After(net, s, i).cores.Keys == s.cores.Keys
    ensures forall j :: j in s.cores && j != i ==> After(net, s, i).cores[j] == s.cores[j]
  {
    hide Peek, TickEffect, Valid, Wants, Wanted;
  }

  lemma AfterCoupled(net: Net, s: Sys, i: nat)
    requires Inv(net, s) && i in s.cores && Valid(net, After(net, s, i))
    ensures Coupled(net, After(net, s, i))
  {
    hide After, Parked, WellWired;
    var t := After(net, s, i);
    forall w: nat | WireKey(w) in t.res && t.res[WireKey(w)] != Wire(EMPTY, t.res[WireKey(w)].buf)
      ensures exists j: nat, q: slot :: Parked(net, t, j, q, w)
    {
      var j, q := WireKept(net, s, i, w);
    }
  }

  /** The invariant holds at the start and every tick of every processor keeps it. */
  lemma AfterInv(net: Net, s: Sys, i: nat)
    requires Inv(net, s) && i in s.cores
    ensures Inv(net, After(net, s, i))
  {
    hide After, Valid, WellWired, Coupled, IsStart;
    AfterValid(net, s, i);
    AfterStarts(net, s, i);
    OtherCores(net, s, i);
    AfterCoupled(net, s, i);
  }

  lemma InitialInv(net: Net, s: Sys)
    requires Initial(net, s)
    ensures Inv(net, s)
  {
  }
}
