/** `run_proc` and `run` (vm.c:525-542), and why `run` only returns when nothing can move again. */
module Scheduler {
  import opened Wrappers
  import opened Bytecode
  import opened Machine
  import opened Network
  import opened Rendezvous

  /** The outcome of a loop that may not terminate, cut off after a number of rounds: it ended (and
      whether some tick returned true), it was cut off, or it ended the VM with an error. */
  datatype Ran = Ran(s: Sys, progressed: bool) | CutOff | Failed

  /** Tick processor `i` until a tick returns false (vm.c:528). */
  function Drain(net: Net, s: Sys, i: nat, fuel: nat): (r: Ran)
    requires Valid(net, s) && i in s.cores
    ensures r.Ran? ==> Valid(net, r.s)
    decreases fuel
  {
    AfterValid(net, s, i);
    match Step(net, s, i)
    case Progress(t, _) => if fuel == 0 then CutOff else Drain(net, t, i, fuel - 1)
    case Offering(t) => Ran(t, true)
    case Blocked => Ran(s, true)
    case Crash => Failed
  }

  /** `run_proc` (vm.c:525-530). */
  function RunProc(net: Net, s: Sys, i: nat, fuel: nat): (r: Ran)
    requires Valid(net, s) && i in s.cores
    ensures r.Ran? ==> Valid(net, r.s)
  {
    AfterValid(net, s, i);
    match Step(net, s, i)
    case Progress(t, _) => Drain(net, t, i, fuel)
    case Offering(t) => Ran(t, false)
    case Blocked => Ran(s, false)
    case Crash => Failed
  }

  /** The nodes from `i` on of one sweep (vm.c:537-540). */
  function Sweep(net: Net, s: Sys, i: nat, progressed: bool, fuel: nat): (r: Ran)
    requires Valid(net, s) && i <= |net|
    ensures r.Ran? ==> Valid(net, r.s)
    decreases |net| - i
  {
    if i == |net| then Ran(s, progressed)
    else if !net[i].Proc? then Sweep(net, s, i + 1, progressed, fuel)
    else
      match RunProc(net, s, i, fuel)
      case Ran(t, p) => Sweep(net, t, i + 1, progressed || p, fuel)
      case CutOff => CutOff
      case Failed => Failed
  }

  /** `run` (vm.c:532-542), cut off after `sweeps` sweeps that made progress. */
  function Run(net: Net, s: Sys, sweeps: nat, fuel: nat): (r: Ran)
    requires Valid(net, s)
    ensures r.Ran? ==> Valid(net, r.s)
    decreases sweeps
  {
    match Sweep(net, s, 0, false, fuel)
    case Ran(t, p) => if !p then Ran(t, false) else if sweeps == 0 then CutOff else Run(net, t, sweeps - 1, fuel)
    case CutOff => CutOff
    case Failed => Failed
  }

  /** Nothing can move: every tick of every processor returns false and changes nothing. */
  ghost predicate Quiescent(net: Net, s: Sys)
    requires Valid(net, s)
  {
    forall i :: i in s.cores ==> Step(net, s, i) == Blocked
  }

  /** No processor is about to fill an empty wire. */
  ghost predicate Settled(net: Net, s: Sys)
    requires Valid(net, s)
  {
    forall i :: i in s.cores ==> !Step(net, s, i).Offering?
  }

  ghost predicate SettledBut(net: Net, s: Sys, i: nat)
    requires Valid(net, s)
  {
    forall j :: j in s.cores && j != i ==> !Step(net, s, j).Offering?
  }

  /** Only a send onto an empty wire fills it. */
  lemma OfferingTick(net: Net, s: Sys, i: nat)
    requires Valid(net, s) && i in s.cores && Step(net, s, i).Offering?
    ensures Peek(net[i].code, s.cores[i]).Sending?
    ensures var k := Wants(net, i, s.cores[i]);
            k.Some? && k.value.WireKey? && k.value in s.res && s.res[k.value] == Wire(EMPTY, s.res[k.value].buf)
  {
    hide Peek, AfterSend, AfterRecv;
    WantsLinked(net, s, i);
  }

  /** A tick of `i` gives no other processor an empty wire to fill. */
  lemma OthersStaySettled(net: Net, s: Sys, i: nat, j: nat)
    requires Inv(net, s) && i in s.cores && j in s.cores && i != j
    requires !Step(net, s, j).Offering?
    ensures Valid(net, After(net, s, i)) && !Step(net, After(net, s, i), j).Offering?
  {
    hide Peek, TickEffect, WellWired, Coupled, GoodRes;
    AfterValid(net, s, i);
    var t := After(net, s, i);
    if Step(net, t, j).Offering? {
      OfferingTick(net, t, j);
      assert t.cores[j] == s.cores[j];
      var k := Wants(net, j, s.cores[j]).value;
      WantsLinked(net, s, j);
      WireTick(net, s, j, k);
      if Wants(net, i, s.cores[i]) == Some(k) {
        WireTick(net, s, i, k);
        WantsLinked(net, s, i);
        OneSender(net, s, i, Peek(net[i].code, s.cores[i]).port, j, Peek(net[j].code, s.cores[j]).port, k);
      }
    }
  }

  lemma OthersSettledAfter(net: Net, s: Sys, i: nat)
    requires Inv(net, s) && i in s.cores && SettledBut(net, s, i)
    ensures Inv(net, After(net, s, i)) && SettledBut(net, After(net, s, i), i)
  {
    hide Peek, TickEffect, WellWired, Coupled, GoodRes, Step;
    AfterInv(net, s, i);
    var t := After(net, s, i);
    assert t.cores.Keys == s.cores.Keys;
    forall j | j in t.cores && j != i
      ensures !Step(net, t, j).Offering?
    {
      OthersStaySettled(net, s, i, j);
    }
  }

  /** Having filled its wire, a processor waits. */
  lemma OfferedThenBlocked(net: Net, s: Sys, i: nat)
    requires Valid(net, s) && i in s.cores && Step(net, s, i).Offering?
    ensures Valid(net, After(net, s, i)) && i in After(net, s, i).cores && Step(net, After(net, s, i), i) == Blocked
  {
    hide Peek, TickEffect;
    OfferingTick(net, s, i);
    AfterValid(net, s, i);
    var k := Wants(net, i, s.cores[i]).value;
    WireTick(net, s, i, k);
    WireTick(net, After(net, s, i), i, k);
  }

  /** Only the processor that ticks can be left with something to offer, and not once it stops. */
  lemma StepSettles(net: Net, s: Sys, i: nat)
    requires Inv(net, s) && i in s.cores && SettledBut(net, s, i)
    ensures var t := After(net, s, i);
            && Valid(net, s) && Inv(net, t) && Valid(net, t) && i in t.cores && SettledBut(net, t, i)
            && (!Step(net, s, i).Progress? ==> Settled(net, t))
  {
    hide Peek, TickEffect, WellWired, Coupled, GoodRes, Step;
    OthersSettledAfter(net, s, i);
    if Step(net, s, i).Offering? {
      OfferedThenBlocked(net, s, i);
    }
  }

  lemma {:induction false} DrainSettles(net: Net, s: Sys, i: nat, fuel: nat)
    requires Inv(net, s) && i in s.cores && SettledBut(net, s, i)
    requires Drain(net, s, i, fuel).Ran?
    ensures var t := Drain(net, s, i, fuel).s; Inv(net, t) && Settled(net, t)
    decreases fuel
  {
    hide Peek, TickEffect, Inv, Step, Settled, SettledBut;
    StepSettles(net, s, i);
    if Step(net, s, i).Progress? {
      DrainSettles(net, After(net, s, i), i, fuel - 1);
    }
  }

  lemma RunProcSettles(net: Net, s: Sys, i: nat, fuel: nat)
    requires Inv(net, s) && i in s.cores && Settled(net, s)
    requires RunProc(net, s, i, fuel).Ran?
    ensures var r := RunProc(net, s, i, fuel);
            && Inv(net, r.s) && Settled(net, r.s)
            && (!r.progressed ==> r.s == s && Step(net, s, i) == Blocked)
  {
    hide Peek, TickEffect, WellWired, Coupled, GoodRes, Step;
    StepSettles(net, s, i);
    if Step(net, s, i).Progress? {
      var t := After(net, s, i);
      DrainSettles(net, t, i, fuel);
      DrainProgressed(net, t, i, fuel);
    }
  }

  lemma DrainProgressed(net: Net, s: Sys, i: nat, fuel: nat)
    requires Valid(net, s) && i in s.cores && Drain(net, s, i, fuel).Ran?
    ensures Drain(net, s, i, fuel).progressed
    decreases fuel
  {
    hide Peek, TickEffect, Step;
    if Step(net, s, i).Progress? {
      AfterValid(net, s, i);
      DrainProgressed(net, Step(net, s, i).s, i, fuel - 1);
    }
  }

  /** A sweep that reports no progress changed nothing and found every processor blocked. */
  lemma {:induction false} SweepSettles(net: Net, s: Sys, i: nat, progressed: bool, fuel: nat)
    requires Inv(net, s) && Settled(net, s) && i <= |net|
    requires Sweep(net, s, i, progressed, fuel).Ran?
    ensures var r := Sweep(net, s, i, progressed, fuel);
            && Inv(net, r.s) && Settled(net, r.s)
            && (!r.progressed ==>
                  && !progressed && r.s == s
                  && forall j :: j in s.cores && j >= i ==> Step(net, s, j) == Blocked)
    decreases |net| - i
  {
    hide Peek, TickEffect, WellWired, Coupled, GoodRes, Shaped, Linked, Settled, Step, RunProc;
    if i < |net| {
      if net[i].Proc? {
        RunProcSettles(net, s, i, fuel);
        var r := RunProc(net, s, i, fuel);
        SweepSettles(net, r.s, i + 1, progressed || r.progressed, fuel);
      } else {
        SweepSettles(net, s, i + 1, progressed, fuel);
      }
    }
  }

  lemma {:induction false} RunSettles(net: Net, s: Sys, sweeps: nat, fuel: nat)
    requires Inv(net, s) && Settled(net, s)
    requires Run(net, s, sweeps, fuel).Ran?
    ensures var t := Run(net, s, sweeps, fuel).s; Inv(net, t) && Quiescent(net, t)
    decreases sweeps
  {
    hide Peek, TickEffect, WellWired, Coupled, GoodRes, Step;
    SweepSettles(net, s, 0, false, fuel);
    var r := Sweep(net, s, 0, false, fuel);
    if r.progressed {
      RunSettles(net, r.s, sweeps - 1, fuel);
    }
  }

  /** A fresh processor has nothing to send, so `run` starts settled. */
  lemma InitialSettled(net: Net, s: Sys)
    requires Initial(net, s)
    ensures Inv(net, s) && Settled(net, s)
  {
    InitialInv(net, s);
    hide TickEffect, WellWired, GoodRes;
    forall i | i in s.cores
      ensures !Step(net, s, i).Offering?
    {
      if Step(net, s, i).Offering? {
        OfferingTick(net, s, i);
      }
    }
  }

  /** Whenever `run` returns, nothing can ever move again: every tick of every processor returns
      false and leaves the VM as it is, and no wire still waits for its acknowledgement. */
  lemma TrueQuiescence(net: Net, s: Sys, sweeps: nat, fuel: nat)
    requires Initial(net, s) && Run(net, s, sweeps, fuel).Ran?
    ensures var t := Run(net, s, sweeps, fuel).s;
            && Inv(net, t) && Quiescent(net, t)
            && forall w: nat :: WireKey(w) in t.res ==> t.res[WireKey(w)].Wire? && t.res[WireKey(w)].status != CONSUMED
  {
    hide Peek, TickEffect, WellWired, Step, Run;
    InitialSettled(net, s);
    RunSettles(net, s, sweeps, fuel);
    var t := Run(net, s, sweeps, fuel).s;
    forall w: nat | WireKey(w) in t.res
      ensures t.res[WireKey(w)].Wire? && t.res[WireKey(w)].status != CONSUMED
    {
      assert GoodRes(WireKey(w), t.res[WireKey(w)]);
      if t.res[WireKey(w)].status == CONSUMED {
        var i: nat, p: slot :| Parked(net, t, i, p, w);
        assert Step(net, t, i) == Blocked;
        WireTick(net, t, i, WireKey(w));
      }
    }
  }
}
