/** Programs run to their end: what `run` leaves on the standard output, for every standard input. */
module Demos {
  import opened Wrappers
  import opened Bytes
  import opened Bytecode
  import opened Machine
  import opened Syntax
  import opened Assembler
  import opened Declarations
  import opened Programs
  import opened Scheduler
  import opened Network
  import Hello
  import Rendezvous
  import Startup
  import Vm
  import Wiring

  // ----- `processor report { %out <- 72; halt; } report.out -> io.out;` -----

  const HelloCode: seq<byte> := EncodeAll([Push(72), Instr.Send(0), Instr.Halt])
  const HelloWired: Net := [Io, Proc(HelloCode, [Some(Link(0, IO_OUT, 0)), None, None, None])]

  /** A wire between the IO node and the one processor. */
  lemma IoWire(code: seq<byte>, ports: seq<Option<Link>>, w: nat, p: nat, q: nat)
    requires |ports| == 4 && p < 4 && forall k :: 0 <= k < 4 && ports[k].Some? ==> ports[k].value.node < 2
    ensures var net := [Io, Proc(code, ports)];
            var wired := [Io, Proc(code, ports[p := Some(Link(0, q, w))])];
            && ValidNet(net) && ValidNet(wired)
            && Wiring.AddWire(net, w, Wiring.Joint(1, p, 0, q)) == wired
            && Wiring.AddWire(net, w, Wiring.Joint(0, q, 1, p)) == wired
  {
  }

  lemma HelloNet(input: seq<byte>)
    requires Sound(Hello.HelloBuild(input))
    ensures NetOf(Hello.HelloBuild(input)) == HelloWired && ValidNet(HelloWired)
  {
    hide Program, EncodeAll, Sound, Wiring.Build, Wiring.AddWire;
    Hello.BodyProgram();
    var b := Hello.HelloBuild(input);
    SoundNodes(b);
    assert b.nodes == [Io, Proc(HelloCode, NoPorts)] && b.joints == [Wiring.Joint(1, 0, 0, IO_OUT)];
    OneWire(b.nodes, b.joints[0]);
    IoWire(HelloCode, NoPorts, 0, 0, IO_OUT);
    assert NoPorts[0 := Some(Link(0, IO_OUT, 0))] == [Some(Link(0, IO_OUT, 0)), None, None, None];
  }

  lemma OneWire(net: Net, j: Wiring.Joint)
    requires ValidNet(net) && Wiring.ValidJoint(net, j)
    ensures Wiring.Build(net, [j]) == Wiring.AddWire(net, 0, j)
  {
    hide Wiring.AddWire;
    assert [j][..0] == [];
    assert Wiring.Build(net, []) == net;
  }

  lemma HelloFetch()
    ensures |HelloCode| == 4
    ensures Decode(HelloCode, 0) == Some(Push(72)) && Decode(HelloCode, 2) == Some(Instr.Send(0))
    ensures Decode(HelloCode, 3) == Some(Instr.Halt)
  {
    EncodeTwo(Instr.Send(0), Instr.Halt);
    var prog := [Push(72), Instr.Send(0), Instr.Halt];
    assert prog[1..] == [Instr.Send(0), Instr.Halt];
    assert EncodeAll(prog) == Encode(Push(72)) + (Encode(Instr.Send(0)) + Encode(Instr.Halt));
  }

  const Zeros: seq<byte> := [0, 0, 0, 0]

  /** The state with the one processor's registers and the standard output replaced. */
  function HelloAt(s: Sys, c: Core, written: seq<byte>): Sys {
    WithCore(s.(res := s.res[OutKey := Output(written)]), 1, c)
  }

  lemma PeekPush(code: seq<byte>, c: Core, b: byte)
    requires Shaped(c) && Decode(code, c.pc) == Some(Push(b)) && |c.stack| < 512
    ensures Peek(code, c) == Silent(Core(Advance(code, c.pc + 2), c.stack + [b], c.vars))
  {
    hide Decode;
    assert Drop(c.stack, 0) == c.stack;
  }

  lemma PeekSend(code: seq<byte>, c: Core, b: byte, p: slot)
    requires Shaped(c) && Decode(code, c.pc) == Some(Instr.Send(p)) && c.stack == [b]
    ensures Peek(code, c) == Sending(p, b) && AfterSend(code, c) == Core(Advance(code, c.pc + 1), [], c.vars)
  {
    hide Decode;
    assert Drop(c.stack, 1) == [];
  }

  lemma PeekHalt(code: seq<byte>, c: Core)
    requires Shaped(c) && Decode(code, c.pc) == Some(Instr.Halt)
    ensures Peek(code, c) == Stopped
  {
    hide Decode;
  }

  lemma HelloPeeks()
    ensures Peek(HelloCode, Core(0, [], Zeros)) == Silent(Core(2, [72], Zeros))
    ensures Peek(HelloCode, Core(2, [72], Zeros)) == Sending(0, 72)
    ensures AfterSend(HelloCode, Core(2, [72], Zeros)) == Core(3, [], Zeros)
    ensures Peek(HelloCode, Core(3, [], Zeros)) == Stopped
  {
    hide Decode, EncodeAll, Peek, AfterSend;
    HelloFetch();
    PeekPush(HelloCode, Core(0, [], Zeros), 72);
    PeekSend(HelloCode, Core(2, [72], Zeros), 72, 0);
    PeekHalt(HelloCode, Core(3, [], Zeros));
    assert [] + [72 as byte] == [72];
  }

  /** Push, send, halt. */
  lemma HelloSteps(s: Sys)
    requires Valid(HelloWired, s) && s == HelloAt(s, Fresh, [])
    ensures var s1, s2 := HelloAt(s, Core(2, [72], Zeros), []), HelloAt(s, Core(3, [], Zeros), [72]);
            && Step(HelloWired, s, 1) == Progress(s1, Quiet) && Valid(HelloWired, s1)
            && Step(HelloWired, s1, 1) == Progress(s2, Sent(OutKey, 72)) && Valid(HelloWired, s2)
            && Step(HelloWired, s2, 1) == Blocked
  {
    HelloPeeks();
    hide Peek, EncodeAll;
    var s1, s2 := HelloAt(s, Core(2, [72], Zeros), []), HelloAt(s, Core(3, [], Zeros), [72]);
    Rendezvous.AfterValid(HelloWired, s, 1);
    assert Step(HelloWired, s, 1) == Progress(s1, Quiet);
    Rendezvous.AfterValid(HelloWired, s1, 1);
    assert [] + [72 as byte] == [72];
    assert Step(HelloWired, s1, 1) == Progress(s2, Sent(OutKey, 72));
  }

  /** One processor besides the IO node: one sweep that runs it, and one that finds it blocked. */
  lemma RunOne(net: Net, s: Sys, t: Sys, sweeps: nat, fuel: nat)
    requires |net| == 2 && net[0].Io? && net[1].Proc? && Valid(net, s) && Valid(net, t)
    requires RunProc(net, t, 1, fuel) == Ran(t, false)
    requires s == t || (sweeps > 0 && RunProc(net, s, 1, fuel) == Ran(t, true))
    ensures Run(net, s, sweeps, fuel) == Ran(t, false)
  {
    hide RunProc, Valid;
    assert Sweep(net, t, 2, false, fuel) == Ran(t, false);
    assert Sweep(net, t, 1, false, fuel) == Ran(t, false);
    assert Sweep(net, t, 0, false, fuel) == Ran(t, false);
    assert Run(net, t, if s == t then sweeps else sweeps - 1, fuel) == Ran(t, false);
    if s != t {
      assert Sweep(net, t, 2, true, fuel) == Ran(t, true);
      assert Sweep(net, s, 1, false, fuel) == Ran(t, true);
      assert Sweep(net, s, 0, false, fuel) == Ran(t, true);
    }
  }

  lemma HelloRun(s: Sys, sweeps: nat, fuel: nat)
    requires Valid(HelloWired, s) && s == HelloAt(s, Fresh, []) && s.cores.Keys == {1} && sweeps > 0 && fuel > 0
    ensures var t := HelloAt(s, Core(3, [], Zeros), [72]);
            Run(HelloWired, s, sweeps, fuel) == Ran(t, false) && Valid(HelloWired, t) && Quiescent(HelloWired, t)
  {
    hide Step, Peek, EncodeAll, Run, Valid;
    HelloSteps(s);
    var s1, s2 := HelloAt(s, Core(2, [72], Zeros), []), HelloAt(s, Core(3, [], Zeros), [72]);
    assert Drain(HelloWired, s2, 1, fuel - 1) == Ran(s2, true);
    assert Drain(HelloWired, s1, 1, fuel) == Ran(s2, true);
    RunOne(HelloWired, s, s2, sweeps, fuel);
  }

  /** The program writes the byte 72 to the standard output, nothing to the standard error, reads nothing,
      and stands still. */
  lemma HelloRuns(input: seq<byte>, sweeps: nat, fuel: nat)
    requires sweeps > 0 && fuel > 0
    ensures var b := Hello.HelloBuild(input);
            && BuildAll(Begun(input), Hello.Decls) == Some(b) && Sound(b) && Valid(NetOf(b), b.sys)
            && var r := Run(NetOf(b), b.sys, sweeps, fuel);
               && r.Ran? && Quiescent(NetOf(b), r.s)
               && r.s.res == map[InKey := Input(input), OutKey := Output([72]), ErrKey := Output([]),
                                 WireKey(0) := Wire(EMPTY, 0)]
  {
    hide Sound, BuildAll, Step, Run, Valid, NetOf, Hello.HelloBuild, Quiescent;
    Hello.HelloBuilt(input);
    HelloValid(input);
    HelloState(input);
    HelloNet(input);
    HelloRun(Hello.HelloBuild(input).sys, sweeps, fuel);
  }

  lemma HelloState(input: seq<byte>)
    ensures var s := Hello.HelloBuild(input).sys;
            && s == HelloAt(s, Fresh, []) && s.cores == map[1 := Fresh]
            && s.res == map[InKey := Input(input), OutKey := Output([]), ErrKey := Output([]),
                            WireKey(0) := Wire(EMPTY, 0)]
  {
    hide Program, EncodeAll;
    var s := Hello.HelloBuild(input).sys;
    assert |Begun(input).nodes| == 1;
    assert s.cores == map[1 := Fresh];
    assert s.res[OutKey := Output([])] == s.res;
    assert s.cores[1 := Fresh] == s.cores;
  }

  lemma HelloValid(input: seq<byte>)
    ensures var b := Hello.HelloBuild(input); Sound(b) && Valid(NetOf(b), b.sys)
  {
    hide Sound, BuildAll, BuildDecl, NetOf, Startup.Started, Valid, Hello.HelloBuild, Begun;
    Hello.HelloBuilt(input);
    Startup.BegunStarted(input);
    Startup.AllStarted(Begun(input), Hello.Decls);
    Startup.StartedFacts(Hello.HelloBuild(input));
  }
}
