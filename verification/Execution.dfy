/** One processor running alone against a given input: what `tick` does in many steps. Receives take
    the bytes of `ins` one by one, whatever the port, and every completed send and receive is logged. */
module Execution {
  import opened Wrappers
  import opened Bytes
  import opened Bytecode
  import opened Machine

  /** A completed port action; P is what names a port. */
  datatype Action<P> = Out(port: P, val: byte) | In(port: P, val: byte)

  datatype Mach = Mach(core: Core, ins: seq<byte>, acts: seq<Action<slot>>)

  datatype Tick = Next(m: Mach) | Halted | Starved | Stuck

  /** One tick. Starved is a receive for which there is no input; Stuck ends the VM. */
  function MTick(code: seq<byte>, m: Mach): (r: Tick)
    requires Shaped(m.core)
    ensures r.Next? ==> Shaped(r.m.core)
  {
    match Peek(code, m.core)
    case Silent(c) => Next(m.(core := c))
    case Sending(p, b) => Next(Mach(AfterSend(code, m.core), m.ins, m.acts + [Out(p, b)]))
    case Receiving(p) =>
      if m.ins == [] then Starved else
      (match AfterRecv(code, m.core, m.ins[0])
       case None => Stuck
       case Some(c) => Next(Mach(c, m.ins[1..], m.acts + [In(p, m.ins[0])])))
    case Stopped => Halted
    case Crashed => Stuck
  }

  /** `n` ticks lead from `m` to `t`. */
  predicate Runs(code: seq<byte>, m: Mach, n: nat, t: Mach)
    requires Shaped(m.core)
    decreases n
  {
    if n == 0 then m == t else MTick(code, m).Next? && Runs(code, MTick(code, m).m, n - 1, t)
  }

  ghost predicate Reaches(code: seq<byte>, m: Mach, t: Mach)
    requires Shaped(m.core)
  {
    exists n: nat :: Runs(code, m, n, t)
  }

  lemma {:induction false} RunsTransitive(code: seq<byte>, m: Mach, n: nat, t: Mach, k: nat, u: Mach)
    requires Shaped(m.core) && Shaped(t.core) && Runs(code, m, n, t) && Runs(code, t, k, u)
    ensures Runs(code, m, n + k, u)
    decreases n
  {
    hide MTick;
    if n > 0 {
      RunsTransitive(code, MTick(code, m).m, n - 1, t, k, u);
    }
  }

  lemma {:induction false} RunsShaped(code: seq<byte>, m: Mach, n: nat, t: Mach)
    requires Shaped(m.core) && Runs(code, m, n, t)
    ensures Shaped(t.core)
    decreases n
  {
    if n > 0 {
      RunsShaped(code, MTick(code, m).m, n - 1, t);
    }
  }

  lemma ReachesRefl(code: seq<byte>, m: Mach)
    requires Shaped(m.core)
    ensures Reaches(code, m, m)
  {
    assert Runs(code, m, 0, m);
  }

  lemma ReachesTransitive(code: seq<byte>, m: Mach, t: Mach, u: Mach)
    requires Shaped(m.core) && Reaches(code, m, t) && Shaped(t.core) && Reaches(code, t, u)
    ensures Reaches(code, m, u)
  {
    var n: nat :| Runs(code, m, n, t);
    var k: nat :| Runs(code, t, k, u);
    RunsTransitive(code, m, n, t, k, u);
  }

  lemma ReachesTick(code: seq<byte>, m: Mach)
    requires Shaped(m.core) && MTick(code, m).Next?
    ensures Reaches(code, m, MTick(code, m).m)
  {
    assert Runs(code, MTick(code, m).m, 0, MTick(code, m).m);
    assert Runs(code, m, 1, MTick(code, m).m);
  }

  // ----- Straight-line code, without addresses -----

  /** Everything of a machine but isp. */
  datatype Regs = Regs(stack: seq<byte>, vars: seq<byte>, ins: seq<byte>, acts: seq<Action<slot>>)

  predicate Sound(r: Regs) {
    |r.vars| == 4 && |r.stack| <= STACK_SIZE
  }

  datatype Exec = Ran(r: Regs) | StarvedAt(r: Regs) | StuckAt(r: Regs)

  predicate Straight(i: Instr) {
    !i.Jmp? && !i.FJmp? && !i.Halt?
  }

  function PushTo(r: Regs, n: nat, b: byte): (x: Exec)
    requires Sound(r) && n <= |r.stack|
    ensures x.Ran? ==> Sound(x.r)
  {
    if |r.stack| - n >= STACK_SIZE then StuckAt(r) else Ran(r.(stack := Drop(r.stack, n) + [b]))
  }

  /** One instruction other than a jump or halt. */
  function Exec1(i: Instr, r: Regs): (x: Exec)
    requires Sound(r) && Straight(i)
    ensures x.Ran? ==> Sound(x.r)
  {
    var n := |r.stack|;
    match i
    case Noop => Ran(r)
    case Push(b) => PushTo(r, 0, b)
    case Load(v) => PushTo(r, 0, r.vars[v])
    case Recv(p) =>
      if r.ins == [] then StarvedAt(r)
      else if n == STACK_SIZE then StuckAt(r)
      else Ran(Regs(r.stack + [r.ins[0]], r.vars, r.ins[1..], r.acts + [In(p, r.ins[0])]))
    case Bin(op) =>
      if n < 2 then StuckAt(r) else
      (match Apply(op, r.stack[n - 2], r.stack[n - 1])
       case None => StuckAt(r)
       case Some(b) => PushTo(r, 2, b))
    case Dup => if n == 0 then StuckAt(r) else PushTo(r, 0, r.stack[n - 1])
    case Pop => if n == 0 then StuckAt(r) else Ran(r.(stack := Drop(r.stack, 1)))
    case Neg => if n == 0 then StuckAt(r) else PushTo(r, 1, Negate(r.stack[n - 1]))
    case LNot => if n == 0 then StuckAt(r) else PushTo(r, 1, LogicalNot(r.stack[n - 1]))
    case Not => if n == 0 then StuckAt(r) else PushTo(r, 1, Complement(r.stack[n - 1]))
    case Save(v) =>
      if n == 0 then StuckAt(r) else Ran(r.(stack := Drop(r.stack, 1), vars := r.vars[v := r.stack[n - 1]]))
    case Send(p) =>
      if n == 0 then StuckAt(r) else Ran(r.(stack := Drop(r.stack, 1), acts := r.acts + [Out(p, r.stack[n - 1])]))
  }

  predicate AllStraight(prog: seq<Instr>) {
    forall k :: 0 <= k < |prog| ==> Straight(prog[k])
  }

  function ExecAll(prog: seq<Instr>, r: Regs): (x: Exec)
    requires Sound(r) && AllStraight(prog)
    ensures x.Ran? ==> Sound(x.r)
  {
    if prog == [] then Ran(r) else
    match Exec1(prog[0], r)
    case Ran(t) => ExecAll(prog[1..], t)
    case StarvedAt(t) => StarvedAt(t)
    case StuckAt(t) => StuckAt(t)
  }

  lemma {:induction false} ExecConcat(x: seq<Instr>, y: seq<Instr>, r: Regs)
    requires Sound(r) && AllStraight(x) && AllStraight(y)
    ensures AllStraight(x + y)
    ensures ExecAll(x + y, r) == if ExecAll(x, r).Ran? then ExecAll(y, ExecAll(x, r).r) else ExecAll(x, r)
    decreases |x|
  {
    hide Exec1;
    if x == [] {
      assert x + y == y;
    } else {
      assert (x + y)[1..] == x[1..] + y;
      if Exec1(x[0], r).Ran? {
        ExecConcat(x[1..], y, Exec1(x[0], r).r);
      }
    }
  }

  lemma ExecOne(i: Instr, r: Regs)
    requires Sound(r) && Straight(i)
    ensures ExecAll([i], r) == Exec1(i, r)
  {
    hide Exec1;
    assert [i][1..] == [];
  }

  lemma ExecTwo(i: Instr, j: Instr, r: Regs)
    requires Sound(r) && Straight(i) && Straight(j)
    ensures ExecAll([i, j], r) == if Exec1(i, r).Ran? then Exec1(j, Exec1(i, r).r) else Exec1(i, r)
  {
    hide Exec1;
    assert [i, j][1..] == [j];
    if Exec1(i, r).Ran? {
      ExecOne(j, Exec1(i, r).r);
    }
  }

  /** The machine at address `a`: the end of the code is its beginning. */
  function MachAt(code: seq<byte>, a: nat, r: Regs): Mach {
    Mach(Core(Advance(code, a), r.stack, r.vars), r.ins, r.acts)
  }

  lemma TickExec1(code: seq<byte>, a: nat, i: Instr, r: Regs)
    requires Sound(r) && Straight(i) && a < |code| && Decode(code, a) == Some(i)
    ensures var m := MachAt(code, a, r);
            match Exec1(i, r)
            case Ran(t) => MTick(code, m) == Next(MachAt(code, a + Len(i), t))
            case StarvedAt(t) => t == r && MTick(code, m) == Starved
            case StuckAt(t) => t == r && MTick(code, m) == Stuck
  {
    hide Decode, Apply;
    assert Drop(r.stack, 0) == r.stack;
  }

  predicate Standing(code: seq<byte>, b: nat, t: Regs, how: Tick) {
    Sound(t) && MTick(code, MachAt(code, b, t)) == how
  }

  /** The machine comes to stand, with registers `t`, at a tick that is `how`. */
  ghost predicate EndsIn(code: seq<byte>, m: Mach, t: Regs, how: Tick)
    requires Shaped(m.core)
  {
    exists b: nat :: AtEnd(code, m, b, t, how)
  }

  ghost predicate AtEnd(code: seq<byte>, m: Mach, b: nat, t: Regs, how: Tick)
    requires Shaped(m.core)
  {
    Standing(code, b, t, how) && Reaches(code, m, MachAt(code, b, t))
  }

  lemma EndsLater(code: seq<byte>, m: Mach, u: Mach, t: Regs, how: Tick)
    requires Shaped(m.core) && Shaped(u.core) && Reaches(code, m, u) && EndsIn(code, u, t, how)
    ensures EndsIn(code, m, t, how)
  {
    hide MTick, Reaches;
    var b: nat :| AtEnd(code, u, b, t, how);
    ReachesTransitive(code, m, u, MachAt(code, b, t));
    assert AtEnd(code, m, b, t, how);
  }

  /** Running straight-line code in place does what executing its instructions does: it ends behind
      the code, one tick for each instruction, or stands starved or stuck with the same registers. */
  lemma {:induction false} StraightLine(code: seq<byte>, a: nat, prog: seq<Instr>, r: Regs)
    requires Sound(r) && AllStraight(prog) && CodeAt(code, a, prog)
    ensures match ExecAll(prog, r)
            case Ran(t) => Runs(code, MachAt(code, a, r), |prog|, MachAt(code, a + Size(prog), t))
            case StarvedAt(t) => EndsIn(code, MachAt(code, a, r), t, Starved)
            case StuckAt(t) => EndsIn(code, MachAt(code, a, r), t, Stuck)
    decreases |prog|
  {
    hide Exec1, MTick, Decode, Reaches;
    var m := MachAt(code, a, r);
    ReachesRefl(code, m);
    if prog != [] {
      FetchAt(code, a, prog);
      TickExec1(code, a, prog[0], r);
      if Exec1(prog[0], r).Ran? {
        var t := Exec1(prog[0], r).r;
        var a' := a + Len(prog[0]);
        StraightLine(code, a', prog[1..], t);
        ReachesTick(code, m);
        match ExecAll(prog[1..], t)
        case Ran(u) =>
        case StarvedAt(u) => EndsLater(code, m, MachAt(code, a', t), u, Starved);
        case StuckAt(u) => EndsLater(code, m, MachAt(code, a', t), u, Stuck);
      } else {
        assert AtEnd(code, m, a, Exec1(prog[0], r).r, MTick(code, m));
      }
    }
  }
}
