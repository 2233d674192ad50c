/** Every interleaving delivers each wire's data exactly once and in order. */
module Delivery {
  import opened Wrappers
  import opened Bytes
  import opened Bytecode
  import opened Machine
  import opened Network
  import opened Rendezvous

  /** The sends and receives completed by one tick of `i`. */
  function Label(net: Net, s: Sys, i: nat): seq<Event>
    requires Valid(net, s) && i in s.cores
  {
    match Step(net, s, i)
    case Progress(_, ev) => if ev == Quiet then [] else [ev]
    case _ => []
  }

  /** The VM and its history after the scheduler let the processors of `sched` tick in that order.
      Entries that name no processor are skipped. */
  ghost function Exec(net: Net, s: Sys, sched: seq<nat>): (r: (Sys, seq<Event>))
    requires Valid(net, s)
    ensures Valid(net, r.0)
  {
    if sched == [] then (s, []) else
    var (t, h) := Exec(net, s, sched[..|sched| - 1]);
    var i := sched[|sched| - 1];
    if i !in t.cores then (t, h) else
    AfterValid(net, t, i);
    (After(net, t, i), h + Label(net, t, i))
  }

  /** The bytes whose send on `k` completed: popped off the sender's stack. */
  function SentOn(h: seq<Event>, k: Key): seq<byte> {
    if h == [] then [] else
    var l := h[|h| - 1];
    SentOn(h[..|h| - 1], k) + if l.Sent? && l.k == k then [l.b] else []
  }

  /** The bytes received from `k`: pushed onto the receiver's stack. */
  function ReceivedOn(h: seq<Event>, k: Key): seq<byte> {
    if h == [] then [] else
    var l := h[|h| - 1];
    ReceivedOn(h[..|h| - 1], k) + if l.Received? && l.k == k then [l.b] else []
  }

  /** The value the receiver already has while its sender has not been told yet. */
  function Acknowledging(r: Res): seq<byte> {
    if r.Wire? && r.status == CONSUMED then [r.buf] else []
  }

  lemma HistoryStep(h: seq<Event>, ev: Event, k: Key)
    ensures SentOn(h + [ev], k) == SentOn(h, k) + if ev.Sent? && ev.k == k then [ev.b] else []
    ensures ReceivedOn(h + [ev], k) == ReceivedOn(h, k) + if ev.Received? && ev.k == k then [ev.b] else []
  {
    assert (h + [ev])[..|h|] == h;
  }

  /** Ticks about something else neither touch a wire nor appear in its history. */
  lemma OtherTick(net: Net, s: Sys, i: nat, k: Key)
    requires Valid(net, s) && i in s.cores && k in s.res && Wants(net, i, s.cores[i]) != Some(k)
    ensures k in After(net, s, i).res && After(net, s, i).res[k] == s.res[k]
    ensures Label(net, s, i) == [] ||
            (exists ev :: Label(net, s, i) == [ev] && (ev.Sent? || ev.Received? ==> ev.k != k))
  {
    hide Peek, SendTo, RecvFrom, AfterSend, AfterRecv;
    if Label(net, s, i) != [] {
      var ev := Label(net, s, i)[0];
      assert Label(net, s, i) == [ev];
    }
  }

  /** In every reachable state of every interleaving, the received history of a wire equals its
      completed-send history, followed by the buffered value exactly while the wire is CONSUMED. */
  lemma {:induction false} ExactlyOnceInOrder(net: Net, s: Sys, sched: seq<nat>, w: nat)
    requires Initial(net, s) && WireKey(w) in s.res
    ensures var (t, h) := Exec(net, s, sched);
            && Inv(net, t)
            && WireKey(w) in t.res
            && ReceivedOn(h, WireKey(w)) == SentOn(h, WireKey(w)) + Acknowledging(t.res[WireKey(w)])
    decreases |sched|
  {
    var k := WireKey(w);
    if sched == [] {
      InitialInv(net, s);
    } else {
      ExactlyOnceInOrder(net, s, sched[..|sched| - 1], w);
      var (t, h) := Exec(net, s, sched[..|sched| - 1]);
      var i := sched[|sched| - 1];
      if i in t.cores {
        AfterInv(net, t, i);
        TickDelivers(net, t, h, i, w);
      }
    }
  }

  /** One tick keeps the equation between the two histories. */
  lemma TickDelivers(net: Net, s: Sys, h: seq<Event>, i: nat, w: nat)
    requires Inv(net, s) && i in s.cores && WireKey(w) in s.res
    requires ReceivedOn(h, WireKey(w)) == SentOn(h, WireKey(w)) + Acknowledging(s.res[WireKey(w)])
    ensures var t := After(net, s, i);
            var h' := h + Label(net, s, i);
            && WireKey(w) in t.res
            && ReceivedOn(h', WireKey(w)) == SentOn(h', WireKey(w)) + Acknowledging(t.res[WireKey(w)])
  {
    hide Peek, TickEffect, AfterSend, AfterRecv, SentOn, ReceivedOn, WellWired;
    var k := WireKey(w);
    var a := Peek(net[i].code, s.cores[i]);
    if Wants(net, i, s.cores[i]) == Some(k) {
      WireTick(net, s, i, k);
      if Label(net, s, i) != [] {
        HistoryStep(h, Label(net, s, i)[0], k);
        if a.Sending? {
          SentValue(net, s, i, w);
        }
      } else {
        assert h + [] == h;
      }
    } else {
      OtherTick(net, s, i, k);
      if Label(net, s, i) != [] {
        HistoryStep(h, Label(net, s, i)[0], k);
      } else {
        assert h + [] == h;
      }
    }
  }

  /** The value a sender pops when its wire is CONSUMED is the one the receiver took. */
  lemma SentValue(net: Net, s: Sys, i: nat, w: nat)
    requires Inv(net, s) && i in s.cores && Wants(net, i, s.cores[i]) == Some(WireKey(w))
    requires WireKey(w) in s.res && s.res[WireKey(w)] == Wire(CONSUMED, s.res[WireKey(w)].buf)
    requires Peek(net[i].code, s.cores[i]).Sending?
    ensures Peek(net[i].code, s.cores[i]).val == s.res[WireKey(w)].buf
  {
    hide Peek;
    var j: nat, q: slot :| Parked(net, s, j, q, w);
    WantsLinked(net, s, i);
    OneSender(net, s, i, Peek(net[i].code, s.cores[i]).port, j, q, WireKey(w));
  }

  lemma {:induction false} ExecInv(net: Net, s: Sys, sched: seq<nat>)
    requires Initial(net, s)
    ensures Inv(net, Exec(net, s, sched).0)
    decreases |sched|
  {
    hide Inv, Valid, After, Label;
    if sched == [] {
      InitialInv(net, s);
    } else {
      ExecInv(net, s, sched[..|sched| - 1]);
      var t := Exec(net, s, sched[..|sched| - 1]).0;
      if sched[|sched| - 1] in t.cores {
        AfterInv(net, t, sched[|sched| - 1]);
      }
    }
  }

  /** In every reachable state of every interleaving, a FULL or CONSUMED wire has exactly one
      processor parked at the send that filled it, with the buffered value on top of its stack. */
  lemma RendezvousCoupling(net: Net, s: Sys, sched: seq<nat>, w: nat) returns (i: nat, p: slot)
    requires Initial(net, s)
    requires var t := Exec(net, s, sched).0; WireKey(w) in t.res && t.res[WireKey(w)].Wire? && t.res[WireKey(w)].status != EMPTY
    ensures var t := Exec(net, s, sched).0;
            && Parked(net, t, i, p, w)
            && Decode(net[i].code, t.cores[i].pc) == Some(Instr.Send(p))
            && t.cores[i].stack != [] && Top(t.cores[i]) == t.res[WireKey(w)].buf
            && forall j: nat, q: slot :: Parked(net, t, j, q, w) ==> j == i && q == p
  {
    hide Peek, Exec, Closed, GoodRes;
    ExecInv(net, s, sched);
    var t := Exec(net, s, sched).0;
    i, p :| Parked(net, t, i, p, w);
    forall j: nat, q: slot | Parked(net, t, j, q, w)
      ensures j == i && q == p
    {
      OneSender(net, t, i, p, j, q, WireKey(w));
    }
  }

  /** No sender passes a send before its value is taken: a send on a wire completes only when the
      wire is CONSUMED, and what is popped is the value that was taken. */
  lemma SendCompletesWhenTaken(net: Net, s: Sys, i: nat, w: nat, b: byte)
    requires Inv(net, s) && i in s.cores
    requires Step(net, s, i).Progress? && Step(net, s, i).ev == Sent(WireKey(w), b)
    ensures WireKey(w) in s.res && s.res[WireKey(w)] == Wire(CONSUMED, b)
  {
    hide Peek, WellWired, AfterSend, AfterRecv;
    assert Wants(net, i, s.cores[i]) == Some(WireKey(w));
    WireTick(net, s, i, WireKey(w));
    SentValue(net, s, i, w);
  }
}
