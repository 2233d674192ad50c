/** The order in which processors tick does not matter. */
module Confluence {
  import opened Wrappers
  import opened Machine
  import opened Network
  import opened Rendezvous
  import opened Delivery
  import opened Scheduler

  /** The VM after a tick of `i` that moves something: one that returns true, or one that fills an
      empty wire. */
  function Moved(net: Net, s: Sys, i: nat): (r: Option<Sys>)
    requires Valid(net, s) && i in s.cores
    ensures r.Some? ==> Valid(net, r.value) && r.value == After(net, s, i)
  {
    AfterValid(net, s, i);
    match Step(net, s, i)
    case Progress(t, _) => Some(t)
    case Offering(t) => Some(t)
    case Blocked => None
    case Crash => None
  }

  /** The VM after the moves of `p`, or None when one of them cannot move. */
  function Path(net: Net, s: Sys, p: seq<nat>): (r: Option<Sys>)
    requires Valid(net, s)
    ensures r.Some? ==> Valid(net, r.value)
    decreases |p|
  {
    if p == [] then Some(s)
    else if p[0] !in s.cores then None
    else match Moved(net, s, p[0])
      case None => None
      case Some(t) => Path(net, t, p[1..])
  }

  // ----- Ticks of different processors commute -----

  /** A move of `i` leaves the tick of `j` as it was, when they are not about the same resource. */
  lemma Independent(net: Net, s: Sys, i: nat, j: nat)
    requires Valid(net, s) && i in s.cores && j in s.cores && i != j
    requires Wants(net, i, s.cores[i]).None? || Wants(net, i, s.cores[i]) != Wants(net, j, s.cores[j])
    ensures var t := After(net, s, i);
            && Valid(net, t) && j in t.cores && t.cores[j] == s.cores[j]
            && Wanted(net, t, j) == Wanted(net, s, j)
  {
    hide Peek, TickEffect, GoodRes;
    AfterValid(net, s, i);
    if Wants(net, i, s.cores[i]).Some? {
      WantsLinked(net, s, i);
    }
  }

  /** Two processors about the same resource are the two ends of a wire. */
  lemma SharedIsWire(net: Net, s: Sys, i: nat, j: nat)
    requires Inv(net, s) && Exclusive(net) && i in s.cores && j in s.cores && i != j
    requires Wants(net, i, s.cores[i]).Some? && Wants(net, i, s.cores[i]) == Wants(net, j, s.cores[j])
    ensures Wants(net, i, s.cores[i]).value.WireKey?
    ensures Peek(net[i].code, s.cores[i]).Sending? <==> Peek(net[j].code, s.cores[j]).Receiving?
  {
    hide Peek, Wants, Coupled, GoodRes;
    WantsLinked(net, s, i);
    WantsLinked(net, s, j);
    var a, b := Peek(net[i].code, s.cores[i]), Peek(net[j].code, s.cores[j]);
    assert a.Sending? ==> Sends(net, i, a.port);
    assert b.Sending? ==> Sends(net, j, b.port);
    assert a.Receiving? ==> Receives(net, i, a.port);
    assert b.Receiving? ==> Receives(net, j, b.port);
  }

  /** Sender and receiver of one wire are never both able to move. */
  lemma NeverBoth(net: Net, s: Sys, i: nat, j: nat)
    requires Inv(net, s) && Exclusive(net) && i in s.cores && j in s.cores && i != j
    requires Wants(net, i, s.cores[i]).Some? && Wants(net, i, s.cores[i]) == Wants(net, j, s.cores[j])
    ensures Moved(net, s, i).None? || Step(net, s, j) == Blocked
  {
    hide Peek, Wants, TickEffect, WellWired, Coupled, GoodRes;
    SharedIsWire(net, s, i, j);
    WireTick(net, s, i, Wants(net, i, s.cores[i]).value);
    WireTick(net, s, j, Wants(net, j, s.cores[j]).value);
  }

  /** Whatever `j` was about to do, unless it waited for `i`, it still does after a move of `i`. */
  lemma MoveKeepsOthers(net: Net, s: Sys, i: nat, j: nat)
    requires Inv(net, s) && Exclusive(net) && i in s.cores && j in s.cores && i != j
    requires Moved(net, s, i).Some? && Step(net, s, j) != Blocked
    ensures Wants(net, i, s.cores[i]).None? || Wants(net, i, s.cores[i]) != Wants(net, j, s.cores[j])
    ensures var t := After(net, s, i);
            && Valid(net, t) && j in t.cores && t.cores[j] == s.cores[j]
            && Wanted(net, t, j) == Wanted(net, s, j)
  {
    hide Peek, Wants, TickEffect, WellWired, Coupled, GoodRes, Step, Moved;
    if Wants(net, i, s.cores[i]).Some? && Wants(net, i, s.cores[i]) == Wants(net, j, s.cores[j]) {
      NeverBoth(net, s, i, j);
    }
    Independent(net, s, i, j);
  }

  /** A tick's effect, as an update of one processor and of at most one resource. */
  function Applied(s: Sys, i: nat, k: Option<Key>, e: Effect): Sys {
    Sys(PutCore(s.cores, i, e), PutRes(s.res, k, e))
  }

  function PutCore(cores: map<nat, Core>, i: nat, e: Effect): map<nat, Core> {
    if e.Proceed? then cores[i := e.core] else cores
  }

  function PutRes(res: map<Key, Res>, k: Option<Key>, e: Effect): map<Key, Res> {
    if k.None? then res
    else if e.Offer? then res[k.value := e.full]
    else if e.Proceed? && e.res.Some? then res[k.value := e.res.value]
    else res
  }

  lemma AfterApplied(net: Net, s: Sys, i: nat)
    requires Valid(net, s) && i in s.cores
    ensures After(net, s, i) == Applied(s, i, Wants(net, i, s.cores[i]), TickEffect(net, i, s.cores[i], Wanted(net, s, i)))
  {
    hide Wants, TickEffect, Valid, Wanted;
  }

  lemma ApplyCommutes(s: Sys, i: nat, k: Option<Key>, e: Effect, j: nat, l: Option<Key>, f: Effect)
    requires i != j && (k.None? || k != l)
    ensures Applied(Applied(s, i, k, e), j, l, f) == Applied(Applied(s, j, l, f), i, k, e)
  {
    assert PutCore(PutCore(s.cores, i, e), j, f) == PutCore(PutCore(s.cores, j, f), i, e);
    assert PutRes(PutRes(s.res, k, e), l, f) == PutRes(PutRes(s.res, l, f), k, e);
  }

  /** Any two enabled ticks of different processors commute. */
  lemma Diamond(net: Net, s: Sys, i: nat, j: nat)
    requires Inv(net, s) && Exclusive(net) && i in s.cores && j in s.cores && i != j
    requires Moved(net, s, i).Some? && Moved(net, s, j).Some?
    ensures var a := Moved(net, s, i).value;
            var b := Moved(net, s, j).value;
            && j in a.cores && i in b.cores
            && Moved(net, a, j).Some? && Moved(net, a, j) == Moved(net, b, i)
  {
    hide Peek, Wants, TickEffect, WellWired, Coupled, GoodRes, Wanted, Applied, After;
    MoveKeepsOthers(net, s, i, j);
    MoveKeepsOthers(net, s, j, i);
    AfterApplied(net, s, i);
    AfterApplied(net, s, j);
    AfterApplied(net, After(net, s, i), j);
    AfterApplied(net, After(net, s, j), i);
    ApplyCommutes(s, i, Wants(net, i, s.cores[i]), TickEffect(net, i, s.cores[i], Wanted(net, s, i)),
                  j, Wants(net, j, s.cores[j]), TickEffect(net, j, s.cores[j], Wanted(net, s, j)));
  }

  /** A tick that is about to end the VM stays so whatever the others do. */
  lemma CrashPersists(net: Net, s: Sys, i: nat, j: nat)
    requires Inv(net, s) && Exclusive(net) && i in s.cores && j in s.cores
    requires Moved(net, s, i).Some? && Step(net, s, j) == Crash
    ensures var t := Moved(net, s, i).value; j in t.cores && Step(net, t, j) == Crash
  {
    hide Peek, Wants, TickEffect, WellWired, Coupled, GoodRes, Valid, Wanted;
    MoveKeepsOthers(net, s, i, j);
  }

  // ----- One maximal interleaving ends: all do, in the same state -----

  /** Moving `i` first shortens an interleaving that ends quiescent by one. */
  lemma {:induction false} Strip(net: Net, s: Sys, p: seq<nat>, i: nat) returns (q: seq<nat>)
    requires Inv(net, s) && Exclusive(net) && i in s.cores && Moved(net, s, i).Some?
    requires Path(net, s, p).Some? && Quiescent(net, Path(net, s, p).value)
    ensures |q| + 1 == |p|
    ensures Path(net, Moved(net, s, i).value, q) == Path(net, s, p)
    decreases |p|
  {
    hide Wants, TickEffect, Valid, WellWired, Coupled;
    if p[0] == i {
      q := p[1..];
    } else {
      var j := p[0];
      var b := Moved(net, s, j).value;
      AfterInv(net, s, j);
      Diamond(net, s, i, j);
      var q' := Strip(net, b, p[1..], i);
      q := [j] + q';
      assert q[1..] == q';
    }
  }

  /** From a state with a terminating interleaving no tick ends the VM with an error. */
  lemma {:induction false} NoCrash(net: Net, s: Sys, p: seq<nat>, i: nat)
    requires Inv(net, s) && Exclusive(net) && i in s.cores
    requires Path(net, s, p).Some? && Quiescent(net, Path(net, s, p).value)
    ensures Step(net, s, i) != Crash
    decreases |p|
  {
    hide Wants, TickEffect, Valid, WellWired, Coupled;
    if p != [] && Step(net, s, i) == Crash {
      AfterInv(net, s, p[0]);
      CrashPersists(net, s, p[0], i);
      NoCrash(net, Moved(net, s, p[0]).value, p[1..], i);
    }
  }

  lemma {:induction false} Complete(net: Net, s: Sys, p: seq<nat>, q: seq<nat>) returns (r: seq<nat>)
    requires Inv(net, s) && Exclusive(net)
    requires Path(net, s, p).Some? && Quiescent(net, Path(net, s, p).value)
    requires Path(net, s, q).Some?
    ensures |q| + |r| == |p|
    ensures Inv(net, Path(net, s, q).value)
    ensures Path(net, Path(net, s, q).value, r) == Path(net, s, p)
    decreases |q|
  {
    hide Wants, TickEffect, Valid, WellWired, Coupled, Step;
    if q == [] {
      r := p;
    } else {
      AfterInv(net, s, q[0]);
      var p' := Strip(net, s, p, q[0]);
      r := Complete(net, Moved(net, s, q[0]).value, p', q[1..]);
    }
  }

  lemma StuckPath(net: Net, u: Sys, r: seq<nat>)
    requires Valid(net, u) && Path(net, u, r).Some?
    ensures (forall i :: i in u.cores ==> Moved(net, u, i).None?) ==> r == [] && Path(net, u, r) == Some(u)
  {
    hide Wants, TickEffect, Valid, Step, Moved;
  }

  /** When each buffer, stack and IO stream belongs to one processor and some interleaving ends with
      every processor blocked or halted: any other interleaving is no longer, never runs into an
      error, and can be completed to the same final state; if nothing can move after it, it is in
      that state already. */
  lemma ScheduleIndependence(net: Net, s: Sys, p: seq<nat>, q: seq<nat>)
    requires Initial(net, s) && Exclusive(net)
    requires Path(net, s, p).Some? && Quiescent(net, Path(net, s, p).value)
    requires Path(net, s, q).Some?
    ensures |q| <= |p|
    ensures var u := Path(net, s, q).value;
            && (forall i :: i in u.cores ==> Step(net, u, i) != Crash)
            && (exists r :: |q| + |r| == |p| && Path(net, u, r) == Path(net, s, p))
            && ((forall i :: i in u.cores ==> Moved(net, u, i).None?) ==> u == Path(net, s, p).value && |q| == |p|)
  {
    hide Wants, TickEffect, WellWired, Coupled, Step, Moved, Valid;
    InitialInv(net, s);
    var r := Complete(net, s, p, q);
    var u := Path(net, s, q).value;
    StuckPath(net, u, r);
    forall i | i in u.cores
      ensures Step(net, u, i) != Crash
    {
      NoCrash(net, u, r, i);
    }
  }

  // ----- Any schedule, blocked ticks included, is a path -----

  lemma {:induction false} PathAppend(net: Net, s: Sys, p: seq<nat>, q: seq<nat>)
    requires Valid(net, s) && Path(net, s, p).Some?
    ensures Path(net, s, p + q) == Path(net, Path(net, s, p).value, q)
    decreases |p|
  {
    hide Wants, TickEffect, Valid, Step, Moved;
    if p == [] {
      assert p + q == q;
    } else {
      assert (p + q)[1..] == p[1..] + q;
      PathAppend(net, Moved(net, s, p[0]).value, p[1..], q);
    }
  }

  lemma PathOne(net: Net, s: Sys, i: nat)
    requires Valid(net, s) && i in s.cores && Moved(net, s, i).Some?
    ensures Path(net, s, [i]) == Moved(net, s, i)
  {
    hide Wants, TickEffect, Valid, Step, Moved;
    assert Path(net, Moved(net, s, i).value, []) == Moved(net, s, i);
  }

  lemma {:induction false} ExecIsPath(net: Net, s: Sys, sched: seq<nat>) returns (p: seq<nat>)
    requires Valid(net, s)
    ensures Path(net, s, p) == Some(Exec(net, s, sched).0)
    decreases |sched|
  {
    hide Wants, TickEffect, Valid;
    if sched == [] {
      p := [];
    } else {
      var q := ExecIsPath(net, s, sched[..|sched| - 1]);
      var t := Exec(net, s, sched[..|sched| - 1]).0;
      var i := sched[|sched| - 1];
      p := q;
      if i in t.cores && Moved(net, t, i).Some? {
        PathOne(net, t, i);
        PathAppend(net, s, q, [i]);
        p := q + [i];
      }
    }
  }

  // ----- `run` finds that state -----

  lemma {:induction false} DrainReaches(net: Net, s: Sys, i: nat, fuel: nat, p: seq<nat>) returns (q: seq<nat>)
    requires Inv(net, s) && Exclusive(net) && i in s.cores
    requires Path(net, s, p).Some? && Quiescent(net, Path(net, s, p).value)
    requires |p| <= fuel
    ensures Drain(net, s, i, fuel).Ran? && Inv(net, Drain(net, s, i, fuel).s)
    ensures |q| <= |p| && Path(net, Drain(net, s, i, fuel).s, q) == Path(net, s, p)
    decreases fuel
  {
    hide Wants, TickEffect, Valid, WellWired, Coupled, Path, Quiescent;
    NoCrash(net, s, p, i);
    AfterInv(net, s, i);
    q := p;
    if Moved(net, s, i).Some? {
      q := Strip(net, s, p, i);
      if Step(net, s, i).Progress? {
        q := DrainReaches(net, Step(net, s, i).s, i, fuel - 1, q);
      }
    }
  }

  lemma RunProcReaches(net: Net, s: Sys, i: nat, fuel: nat, p: seq<nat>) returns (q: seq<nat>)
    requires Inv(net, s) && Exclusive(net) && i in s.cores
    requires Path(net, s, p).Some? && Quiescent(net, Path(net, s, p).value)
    requires |p| <= fuel
    ensures RunProc(net, s, i, fuel).Ran? && Inv(net, RunProc(net, s, i, fuel).s)
    ensures |q| <= |p| && (RunProc(net, s, i, fuel).progressed ==> |q| < |p|)
    ensures Path(net, RunProc(net, s, i, fuel).s, q) == Path(net, s, p)
  {
    hide Wants, TickEffect, Valid, WellWired, Coupled, Path, Quiescent;
    NoCrash(net, s, p, i);
    AfterInv(net, s, i);
    q := p;
    if Moved(net, s, i).Some? {
      q := Strip(net, s, p, i);
      if Step(net, s, i).Progress? {
        q := DrainReaches(net, Step(net, s, i).s, i, fuel, q);
      }
    }
  }

  lemma {:induction false} SweepReaches(net: Net, s: Sys, i: nat, progressed: bool, fuel: nat, p: seq<nat>)
    returns (q: seq<nat>)
    requires Inv(net, s) && Exclusive(net) && i <= |net|
    requires Path(net, s, p).Some? && Quiescent(net, Path(net, s, p).value)
    requires |p| <= fuel
    ensures var r := Sweep(net, s, i, progressed, fuel);
            && r.Ran? && Inv(net, r.s)
            && |q| <= |p| && (r.progressed ==> progressed || |q| < |p|)
            && Path(net, r.s, q) == Path(net, s, p)
    decreases |net| - i
  {
    hide Wants, TickEffect, WellWired, Coupled, Step, RunProc, Moved, Peek, GoodRes;
    q := p;
    if i < |net| {
      if net[i].Proc? {
        q := RunProcReaches(net, s, i, fuel, p);
        var r := RunProc(net, s, i, fuel);
        q := SweepReaches(net, r.s, i + 1, progressed || r.progressed, fuel, q);
      } else {
        q := SweepReaches(net, s, i + 1, progressed, fuel, p);
      }
    }
  }

  lemma {:induction false} RunReaches(net: Net, s: Sys, sweeps: nat, fuel: nat, p: seq<nat>)
    requires Inv(net, s) && Exclusive(net) && Settled(net, s)
    requires Path(net, s, p).Some? && Quiescent(net, Path(net, s, p).value)
    requires |p| <= fuel && |p| <= sweeps
    ensures Run(net, s, sweeps, fuel) == Ran(Path(net, s, p).value, false)
    decreases sweeps
  {
    hide Wants, TickEffect, Valid, WellWired, Coupled, Step, Moved;
    var q := SweepReaches(net, s, 0, false, fuel, p);
    var r := Sweep(net, s, 0, false, fuel);
    SweepSettles(net, s, 0, false, fuel);
    if r.progressed {
      RunReaches(net, r.s, sweeps - 1, fuel, q);
    } else {
      BlockedPath(net, s, p);
    }
  }

  lemma BlockedPath(net: Net, s: Sys, p: seq<nat>)
    requires Valid(net, s) && Path(net, s, p).Some?
    requires forall i :: i in s.cores ==> Step(net, s, i) == Blocked
    ensures p == [] && Path(net, s, p) == Some(s)
  {
    hide Wants, TickEffect, Valid, Step;
  }

  lemma {:induction false} DrainIsPath(net: Net, s: Sys, i: nat, fuel: nat) returns (p: seq<nat>)
    requires Valid(net, s) && i in s.cores && Drain(net, s, i, fuel).Ran?
    ensures Path(net, s, p) == Some(Drain(net, s, i, fuel).s)
    decreases fuel
  {
    hide Wants, TickEffect, Valid;
    p := [];
    if Moved(net, s, i).Some? {
      PathOne(net, s, i);
      p := [i];
      if Step(net, s, i).Progress? {
        var q := DrainIsPath(net, Step(net, s, i).s, i, fuel - 1);
        PathAppend(net, s, [i], q);
        p := [i] + q;
      }
    }
  }

  lemma RunProcIsPath(net: Net, s: Sys, i: nat, fuel: nat) returns (p: seq<nat>)
    requires Valid(net, s) && i in s.cores && RunProc(net, s, i, fuel).Ran?
    ensures Path(net, s, p) == Some(RunProc(net, s, i, fuel).s)
  {
    hide Wants, TickEffect, Valid;
    p := [];
    if Moved(net, s, i).Some? {
      PathOne(net, s, i);
      p := [i];
      if Step(net, s, i).Progress? {
        var q := DrainIsPath(net, Step(net, s, i).s, i, fuel);
        PathAppend(net, s, [i], q);
        p := [i] + q;
      }
    }
  }

  lemma {:induction false} SweepIsPath(net: Net, s: Sys, i: nat, progressed: bool, fuel: nat) returns (p: seq<nat>)
    requires Valid(net, s) && i <= |net| && Sweep(net, s, i, progressed, fuel).Ran?
    ensures Path(net, s, p) == Some(Sweep(net, s, i, progressed, fuel).s)
    decreases |net| - i
  {
    hide Wants, TickEffect, Step, Moved, RunProc;
    p := [];
    if i < |net| {
      if net[i].Proc? {
        p := RunProcIsPath(net, s, i, fuel);
        var r := RunProc(net, s, i, fuel);
        var q := SweepIsPath(net, r.s, i + 1, progressed || r.progressed, fuel);
        PathAppend(net, s, p, q);
        p := p + q;
      } else {
        p := SweepIsPath(net, s, i + 1, progressed, fuel);
      }
    }
  }

  lemma {:induction false} RunIsPath(net: Net, s: Sys, sweeps: nat, fuel: nat) returns (p: seq<nat>)
    requires Valid(net, s) && Run(net, s, sweeps, fuel).Ran?
    ensures Path(net, s, p) == Some(Run(net, s, sweeps, fuel).s)
    decreases sweeps
  {
    hide Wants, TickEffect, Valid, Step, Moved, Sweep;
    p := SweepIsPath(net, s, 0, false, fuel);
    var r := Sweep(net, s, 0, false, fuel);
    if r.progressed {
      var q := RunIsPath(net, r.s, sweeps - 1, fuel);
      PathAppend(net, s, p, q);
      p := p + q;
    }
  }

  /** `run` returns with the final state `t`, given enough rounds, exactly when some interleaving
      ends in `t` with every processor blocked or halted. */
  lemma RunFindsTheEnd(net: Net, s: Sys, t: Sys)
    requires Initial(net, s) && Exclusive(net)
    ensures (exists sweeps: nat, fuel: nat :: Run(net, s, sweeps, fuel) == Ran(t, false))
       <==> (exists p :: Path(net, s, p) == Some(t) && Quiescent(net, t))
  {
    hide Wants, TickEffect, WellWired, Coupled, Step, Moved, Path, Run;
    InitialSettled(net, s);
    if sweeps: nat, fuel: nat :| Run(net, s, sweeps, fuel) == Ran(t, false) {
      var p := RunIsPath(net, s, sweeps, fuel);
      RunSettles(net, s, sweeps, fuel);
    }
    if p :| Path(net, s, p) == Some(t) && Quiescent(net, t) {
      RunReaches(net, s, |p|, |p|, p);
    }
  }
}
