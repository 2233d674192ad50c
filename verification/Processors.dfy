/** Where the two halves meet: in every interleaving, what one processor of the VM has done so far is a
    run of its own code on the bytes it received, and so a beginning of what its source means. */
module Processors {
  import opened Wrappers
  import opened Bytes
  import opened Bytecode
  import opened Machine
  import opened Syntax
  import opened Assembler
  import opened Execution
  import opened Behaviour
  import opened Network
  import opened Rendezvous
  import opened Delivery
  import StmtMeaning

  /** The port action that a tick of `i` completes, if any. */
  function ActOf(net: Net, s: Sys, i: nat): seq<Action<slot>>
    requires Valid(net, s) && i in s.cores
  {
    var o := Step(net, s, i);
    if !o.Progress? then [] else
    match Peek(net[i].code, s.cores[i])
    case Sending(p, b) => [Out(p, b)]
    case Receiving(p) => if o.ev.Received? then [In(p, o.ev.b)] else []
    case _ => []
  }

  /** The port actions that processor `i` has completed under a schedule. */
  ghost function ActsOf(net: Net, s: Sys, sched: seq<nat>, i: nat): seq<Action<slot>>
    requires Valid(net, s)
  {
    if sched == [] then [] else
    var before := sched[..|sched| - 1];
    var t := Delivery.Exec(net, s, before).0;
    var j := sched[|sched| - 1];
    ActsOf(net, s, before, i) + if j == i && i in t.cores then ActOf(net, t, i) else []
  }

  /** The bytes received, through whatever port. */
  function Inputs(acts: seq<Action<slot>>): seq<byte> {
    if acts == [] then [] else
    var a := acts[|acts| - 1];
    Inputs(acts[..|acts| - 1]) + if a.In? then [a.val] else []
  }

  function InputsOn(acts: seq<Action<slot>>, p: slot): seq<byte> {
    if acts == [] then [] else
    var a := acts[|acts| - 1];
    InputsOn(acts[..|acts| - 1], p) + if a.In? && a.port == p then [a.val] else []
  }

  function OutputsOn(acts: seq<Action<slot>>, p: slot): seq<byte> {
    if acts == [] then [] else
    var a := acts[|acts| - 1];
    OutputsOn(acts[..|acts| - 1], p) + if a.Out? && a.port == p then [a.val] else []
  }

  lemma OneMoreAct(acts: seq<Action<slot>>, a: Action<slot>, p: slot)
    ensures Inputs(acts + [a]) == Inputs(acts) + if a.In? then [a.val] else []
    ensures InputsOn(acts + [a], p) == InputsOn(acts, p) + if a.In? && a.port == p then [a.val] else []
    ensures OutputsOn(acts + [a], p) == OutputsOn(acts, p) + if a.Out? && a.port == p then [a.val] else []
  {
    assert (acts + [a])[..|acts|] == acts;
  }

  // ----- A processor of the VM is a processor on its own -----

  /** More input does not change a run that got along without it. */
  lemma {:induction false} MoreInput(code: seq<byte>, m: Mach, n: nat, t: Mach, more: seq<byte>)
    requires Shaped(m.core) && Runs(code, m, n, t)
    ensures Runs(code, m.(ins := m.ins + more), n, t.(ins := t.ins + more))
    decreases n
  {
    hide Peek, AfterSend, AfterRecv;
    if n > 0 {
      var u := MTick(code, m).m;
      assert m.ins != [] ==> (m.ins + more)[1..] == m.ins[1..] + more;
      assert MTick(code, m.(ins := m.ins + more)) == Next(u.(ins := u.ins + more));
      MoreInput(code, u, n - 1, t, more);
    }
  }

  /** What a tick of `i` that returns true does to its core. */
  lemma ProgressCore(net: Net, s: Sys, i: nat)
    requires Valid(net, s) && i in s.cores
    ensures var t := After(net, s, i);
            && i in t.cores
            && (!Step(net, s, i).Progress? ==> t.cores[i] == s.cores[i])
            && (Step(net, s, i).Progress? ==>
                  match Peek(net[i].code, s.cores[i])
                  case Silent(c) => Step(net, s, i).ev == Quiet && t.cores[i] == c
                  case Sending(p, b) => t.cores[i] == AfterSend(net[i].code, s.cores[i])
                  case Receiving(p) =>
                    && Step(net, s, i).ev.Received?
                    && AfterRecv(net[i].code, s.cores[i], Step(net, s, i).ev.b) == Some(t.cores[i])
                  case _ => false)
  {
    hide Peek, SendTo, RecvFrom, AfterSend, AfterRecv, GoodRes, Linked;
  }

  lemma CoreShaped(net: Net, s: Sys, i: nat)
    requires Valid(net, s) && i in s.cores
    ensures i < |net| && net[i].Proc? && Shaped(s.cores[i])
  {
  }

  lemma NoInputs()
    ensures Inputs([]) == []
  {
  }

  lemma OneInput(p: slot, b: byte)
    ensures Inputs([In(p, b)]) == [b] && [b][1..] == []
  {
    OneMoreAct([], In(p, b), p);
    assert [] + [In(p, b)] == [In(p, b)];
  }

  lemma OneOutput(p: slot, b: byte)
    ensures Inputs([Out(p, b)]) == []
  {
    OneMoreAct([], Out(p, b), p);
    assert [] + [Out(p, b)] == [Out(p, b)];
  }

  /** A tick within the VM is a tick of the processor on its own, with the byte it receives, if any. */
  lemma TickAlone(net: Net, s: Sys, i: nat, acts: seq<Action<slot>>)
    requires Valid(net, s) && i in s.cores
    ensures var t := After(net, s, i);
            var a := ActOf(net, s, i);
            && i in t.cores && |a| <= 1
            && (Step(net, s, i).Progress? ==>
                  MTick(net[i].code, Mach(s.cores[i], Inputs(a), acts)) == Next(Mach(t.cores[i], [], acts + a)))
            && (!Step(net, s, i).Progress? ==> t.cores[i] == s.cores[i] && a == [])
  {
    hide Step, After, Peek, AfterSend, AfterRecv, GoodRes, Linked, Inputs, Valid;
    CoreShaped(net, s, i);
    ProgressCore(net, s, i);
    NoInputs();
    assert acts + [] == acts;
    if Step(net, s, i).Progress? && Peek(net[i].code, s.cores[i]).Receiving? {
      OneInput(Peek(net[i].code, s.cores[i]).port, Step(net, s, i).ev.b);
    } else if Peek(net[i].code, s.cores[i]).Sending? {
      OneOutput(Peek(net[i].code, s.cores[i]).port, Peek(net[i].code, s.cores[i]).val);
    }
  }

  /** In every reachable state of every interleaving, a processor stands where its code, run alone on the
      bytes it received, gets to in some number of ticks, with the same port actions. */
  lemma {:induction false} RunsAlone(net: Net, s: Sys, sched: seq<nat>, i: nat) returns (n: nat)
    requires Initial(net, s) && i in s.cores
    ensures var t := Delivery.Exec(net, s, sched).0;
            var acts := ActsOf(net, s, sched, i);
            && i in t.cores && i < |net| && net[i].Proc?
            && Runs(net[i].code, Created(Inputs(acts)), n, Mach(t.cores[i], [], acts))
    decreases |sched|
  {
    hide WellWired, Runs, MTick, Peek, Step, After, Delivery.Label, ActOf, GoodRes, Linked, Shaped;
    n := 0;
    if sched == [] {
      NoTicks(net[i].code);
    } else {
      var before := sched[..|sched| - 1];
      n := RunsAlone(net, s, before, i);
      var t := Delivery.Exec(net, s, before).0;
      var j := sched[|sched| - 1];
      if j in t.cores {
        OtherCores(net, t, j);
      }
      if j == i {
        n := OneMoreTick(net, t, i, ActsOf(net, s, before, i), n);
      } else {
        assert ActsOf(net, s, before, i) + [] == ActsOf(net, s, before, i);
      }
    }
  }

  lemma NoTicks(code: seq<byte>)
    ensures Runs(code, Created(Inputs([])), 0, Mach(Fresh, [], []))
  {
  }

  lemma OneMoreTick(net: Net, s: Sys, i: nat, acts: seq<Action<slot>>, n: nat) returns (k: nat)
    requires Valid(net, s) && i in s.cores
    requires Runs(net[i].code, Created(Inputs(acts)), n, Mach(s.cores[i], [], acts))
    ensures var acts' := acts + ActOf(net, s, i);
            && i in After(net, s, i).cores
            && Runs(net[i].code, Created(Inputs(acts')), k, Mach(After(net, s, i).cores[i], [], acts'))
  {
    hide Runs, MTick, Peek, Step, After, ActOf, GoodRes, Linked, Inputs;
    var code, a := net[i].code, ActOf(net, s, i);
    TickAlone(net, s, i, acts);
    assert acts + [] == acts;
    k := n;
    if Step(net, s, i).Progress? {
      var here := Mach(s.cores[i], Inputs(a), acts);
      var there := Mach(After(net, s, i).cores[i], [], acts + a);
      MoreInput(code, Created(Inputs(acts)), n, Mach(s.cores[i], [], acts), Inputs(a));
      assert [] + Inputs(a) == Inputs(a);
      InputsConcat(acts, a);
      StmtMeaning.OneTick(code, here, there);
      RunsTransitive(code, Created(Inputs(acts + a)), n, here, 1, there);
      k := n + 1;
    }
  }

  lemma InputsConcat(acts: seq<Action<slot>>, a: seq<Action<slot>>)
    requires |a| <= 1
    ensures Inputs(acts + a) == Inputs(acts) + Inputs(a)
  {
    if a == [] {
      assert acts + a == acts;
    } else {
      assert a == [a[0]];
      OneMoreAct(acts, a[0], 0);
      OneMoreAct([], a[0], 0);
      assert [] + a == a;
    }
  }

  /** Every processor of the VM means its source: in every reachable state of every interleaving, some
      number of steps of the source, on the bytes the processor received, accounts for the port actions
      it has completed. */
  lemma ProcessorsMeanTheirSource(net: Net, s: Sys, sched: seq<nat>, i: nat, body: Stmt) returns (steps: nat)
    requires Initial(net, s) && i in s.cores
    requires Covered(body) && net[i].code == EncodeAll(Program(body))
    ensures var acts := ActsOf(net, s, sched, i);
            Explains(body, ImageOf(body), Begin(body, Inputs(acts)), steps, acts)
  {
    hide WellWired, Runs, Delivery.Exec, ActsOf, Inputs, Explains, Covered, Program, EncodeAll;
    var n := RunsAlone(net, s, sched, i);
    var acts := ActsOf(net, s, sched, i);
    steps := CodeDoesNothingElse(body, Inputs(acts), n, Mach(Delivery.Exec(net, s, sched).0.cores[i], [], acts));
  }

  // ----- What is sent by one source is received by the other -----

  /** A tick's entry in the history of the VM is its port action, at the resource behind the port. */
  lemma LabelOfAct(net: Net, s: Sys, i: nat)
    requires Valid(net, s) && i in s.cores
    ensures var a, l := ActOf(net, s, i), Delivery.Label(net, s, i);
            && (a == [] <==> l == []) && |a| <= 1
            && (a != [] && a[0].Out? ==> exists k :: Linked(net, i, a[0].port, k) && l == [Sent(k, a[0].val)]
                                           && Decode(net[i].code, s.cores[i].pc) == Some(Instr.Send(a[0].port)))
            && (a != [] && a[0].In? ==> exists k :: Linked(net, i, a[0].port, k) && l == [Received(k, a[0].val)]
                                          && Decode(net[i].code, s.cores[i].pc) == Some(Recv(a[0].port)))
  {
    hide Peek, SendTo, RecvFrom, AfterSend, AfterRecv, GoodRes;
    if Wants(net, i, s.cores[i]).Some? {
      WantsLinked(net, s, i);
    }
  }

  /** What was sent on a wire is what its one sending processor put out on its port. */
  lemma {:induction false} SentByItsSender(net: Net, s: Sys, sched: seq<nat>, i: nat, p: slot, w: nat)
    requires Initial(net, s) && i in s.cores && Linked(net, i, p, WireKey(w)) && Sends(net, i, p)
    ensures SentOn(Delivery.Exec(net, s, sched).1, WireKey(w)) == OutputsOn(ActsOf(net, s, sched, i), p)
    decreases |sched|
  {
    hide WellWired, Step, After, Delivery.Label, ActOf, GoodRes, Linked, Sends, Inv;
    if sched != [] {
      var before := sched[..|sched| - 1];
      SentByItsSender(net, s, before, i, p, w);
      ExecInv(net, s, before);
      var (t, h) := Delivery.Exec(net, s, before);
      var j := sched[|sched| - 1];
      if j in t.cores {
        TickSends(net, t, h, ActsOf(net, s, before, i), j, i, p, w);
      } else {
        assert ActsOf(net, s, before, i) + [] == ActsOf(net, s, before, i);
      }
    }
  }

  lemma TickSends(net: Net, s: Sys, h: seq<Event>, acts: seq<Action<slot>>, j: nat, i: nat, p: slot, w: nat)
    requires Inv(net, s) && j in s.cores && i in s.cores && Linked(net, i, p, WireKey(w)) && Sends(net, i, p)
    requires SentOn(h, WireKey(w)) == OutputsOn(acts, p)
    ensures SentOn(h + Delivery.Label(net, s, j), WireKey(w)) == OutputsOn(acts + if j == i then ActOf(net, s, i) else [], p)
  {
    hide Peek, Step, After, Delivery.Label, ActOf, GoodRes, SentOn, OutputsOn, Decode;
    var k := WireKey(w);
    var a, l := ActOf(net, s, j), Delivery.Label(net, s, j);
    LabelOfAct(net, s, j);
    assert h + [] == h && acts + [] == acts;
    if a != [] {
      assert a == [a[0]] && l == [l[0]];
      HistoryStep(h, l[0], k);
      OneMoreAct(acts, a[0], p);
      if a[0].Out? {
        assert Sends(net, j, a[0].port);
      }
    }
  }

  /** What was received from a wire is what its one receiving processor took in on its port. */
  lemma {:induction false} ReceivedByItsReceiver(net: Net, s: Sys, sched: seq<nat>, i: nat, p: slot, w: nat)
    requires Initial(net, s) && i in s.cores && Linked(net, i, p, WireKey(w)) && Receives(net, i, p)
    ensures ReceivedOn(Delivery.Exec(net, s, sched).1, WireKey(w)) == InputsOn(ActsOf(net, s, sched, i), p)
    decreases |sched|
  {
    hide WellWired, Step, After, Delivery.Label, ActOf, GoodRes, Linked, Receives, Inv;
    if sched != [] {
      var before := sched[..|sched| - 1];
      ReceivedByItsReceiver(net, s, before, i, p, w);
      ExecInv(net, s, before);
      var (t, h) := Delivery.Exec(net, s, before);
      var j := sched[|sched| - 1];
      if j in t.cores {
        TickReceives(net, t, h, ActsOf(net, s, before, i), j, i, p, w);
      } else {
        assert ActsOf(net, s, before, i) + [] == ActsOf(net, s, before, i);
      }
    }
  }

  lemma TickReceives(net: Net, s: Sys, h: seq<Event>, acts: seq<Action<slot>>, j: nat, i: nat, p: slot, w: nat)
    requires Inv(net, s) && j in s.cores && i in s.cores && Linked(net, i, p, WireKey(w)) && Receives(net, i, p)
    requires ReceivedOn(h, WireKey(w)) == InputsOn(acts, p)
    ensures ReceivedOn(h + Delivery.Label(net, s, j), WireKey(w)) == InputsOn(acts + if j == i then ActOf(net, s, i) else [], p)
  {
    hide Peek, Step, After, Delivery.Label, ActOf, GoodRes, ReceivedOn, InputsOn, Decode;
    var k := WireKey(w);
    var a, l := ActOf(net, s, j), Delivery.Label(net, s, j);
    LabelOfAct(net, s, j);
    assert h + [] == h && acts + [] == acts;
    if a != [] {
      assert a == [a[0]] && l == [l[0]];
      HistoryStep(h, l[0], k);
      OneMoreAct(acts, a[0], p);
      if a[0].In? {
        assert Receives(net, j, a[0].port);
      }
    }
  }

  /** From source to source: whatever the interleaving, the bytes one processor has taken in on its end of
      a wire are the bytes the other has put out on its end, followed by the one in the wire while it is
      CONSUMED. */
  lemma SourceToSource(net: Net, s: Sys, sched: seq<nat>, i: nat, p: slot, j: nat, q: slot, w: nat)
    requires Initial(net, s) && i in s.cores && j in s.cores && WireKey(w) in s.res
    requires Linked(net, i, p, WireKey(w)) && Sends(net, i, p)
    requires Linked(net, j, q, WireKey(w)) && Receives(net, j, q)
    ensures var t := Delivery.Exec(net, s, sched).0;
            && WireKey(w) in t.res
            && InputsOn(ActsOf(net, s, sched, j), q)
               == OutputsOn(ActsOf(net, s, sched, i), p) + Acknowledging(t.res[WireKey(w)])
  {
    hide WellWired, Delivery.Exec, ActsOf, InputsOn, OutputsOn, Linked, Sends, Receives, Acknowledging, Inv;
    ExactlyOnceInOrder(net, s, sched, w);
    SentByItsSender(net, s, sched, i, p, w);
    ReceivedByItsReceiver(net, s, sched, j, q, w);
  }
}
