/** The program examples/cat.nod, from its tokens to its output: for every standard input, `run` ends with
    exactly that input on the standard output. */
module CatProgram {
  import opened Wrappers
  import opened Bytes
  import opened Bytecode
  import opened Machine
  import opened Syntax
  import opened Dict
  import opened CodeGen
  import opened Assembler
  import opened Depth
  import opened StackDepth
  import opened Declarations
  import opened Printer
  import opened Programs
  import opened Scheduler
  import opened Network
  import Confluence
  import Demos
  import Hello
  import Rendezvous
  import Startup
  import Vm
  import Wiring

  /** `processor cat { %out <- %in; } io.in -> cat.in; cat.out -> io.out;` */
  const TOKENS: seq<Token> := [
    PROCESSOR, IDENTIFIER("cat"), LBRACE, PORT("out"), SEND, PORT("in"), SEMICOLON, RBRACE,
    IDENTIFIER("io"), PERIOD, IDENTIFIER("in"), WIRE, IDENTIFIER("cat"), PERIOD, IDENTIFIER("in"), SEMICOLON,
    IDENTIFIER("cat"), PERIOD, IDENTIFIER("out"), WIRE, IDENTIFIER("io"), PERIOD, IDENTIFIER("out"), SEMICOLON]

  const Relay: Expr := Expr.Send(Expr.Port("out"), Expr.Port("in"))
  const Body: Stmt := Seq(ExprStmt(Relay), Skip)
  const Decls: seq<Decl> := [Processor("cat", Body), WireOf("io", "in", "cat", "in"), WireOf("cat", "out", "io", "out")]

  // ----- From tokens to declarations -----

  lemma BodyWritten()
    ensures PrintStmt(Body) == [LBRACE, PORT("out"), SEND, PORT("in"), SEMICOLON, RBRACE]
  {
    assert Print(Relay) == [PORT("out"), SEND, PORT("in")];
  }

  lemma Written()
    ensures PrintProgram(Decls) == TOKENS
  {
    hide PrintStmt;
    BodyWritten();
    assert Decls[1..][1..] == [Decls[2]] && [Decls[2]][1..] == [];
    assert PrintProgram([Decls[2]]) == PrintDecl(Decls[2]) + [] == PrintDecl(Decls[2]);
    assert PrintProgram(Decls[1..]) == PrintDecl(Decls[1]) + PrintDecl(Decls[2]);
  }

  lemma Parsed()
    ensures ParseProgram(TOKENS) == Some(Decls)
  {
    hide ParseProgram, PrintProgram;
    Written();
    ProgramRoundTrip(Decls);
  }

  // ----- From declarations to the VM -----

  const Names2: Env := Env([], ["out", "in"])

  lemma RelayNames()
    ensures Names(Blank, Relay) == Names2 && Legal(Relay)
    ensures EffectCode(Relay, Names2) == [Recv(1), Instr.Send(0)] && ValueHeight(Relay) == 1
  {
    assert "out"[0] != "in"[0];
    assert Names(Blank, Expr.Port("out")) == Env([], ["out"]);
    assert Names(Env([], ["out"]), Expr.Port("in")) == Names2;
    assert SlotOf(Names2.ports, "out") == 0;
    assert SlotOf(Names2.ports, "in") == 1;
    assert [] + [] + [Recv(1)] + [Instr.Send(0)] + [] == [Recv(1), Instr.Send(0)];
  }

  lemma BodyNames()
    ensures StmtNames(Blank, Body) == Names2 && Defs(Body, 0, map[]) == map[]
  {
    hide Names, Legal, ValueHeight, Height, Width;
    RelayNames();
  }

  lemma BodyProgram()
    ensures Program(Body) == [Recv(1), Instr.Send(0)] && Width(Body) == 2
  {
    hide EffectCode, Names, Legal, Asm, StmtNames, Defs, Width;
    RelayNames();
    BodyNames();
    var s := ExprStmt(Relay);
    AsmOfSeq(Body, 0, 0, 0, map[], Names2);
    ShortAsm(Width(s));
    ProgramSize(Body);
    assert [Recv(1), Instr.Send(0)] + [] == [Recv(1), Instr.Send(0)];
    SizeTwo(Recv(1), Instr.Send(0));
  }

  lemma ShortAsm(at: nat)
    ensures Asm(Skip, at, 0, 0, map[], Names2) == []
    ensures Asm(ExprStmt(Relay), 0, 0, 0, map[], Names2) == EffectCode(Relay, Names2)
  {
    hide EffectCode;
  }

  lemma BodyRunnable()
    ensures Runnable(Body)
  {
    hide Legal, ValueHeight, StmtNames, Defs, Width, Program, LegalStmt, GotosDefined, Peak;
    RelayNames();
    BodyNames();
    BodyProgram();
    Hello.LeafParts(Relay, map[]);
    Hello.SeqParts(ExprStmt(Relay), Skip, map[]);
  }

  /** What the three declarations build. */
  function CatBuild(input: seq<byte>): Built {
    var b := WithProc(Begun(input), "cat", ["out", "in"], Body);
    WithJoint(WithJoint(b, Wiring.Joint(0, IO_IN, 1, 1)), Wiring.Joint(1, 0, 0, IO_OUT))
  }

  lemma Places()
    ensures Lookup(["io", "cat"], "cat") == Some(1) && Lookup(["io", "cat"], "io") == Some(0)
    ensures Lookup(["out", "in"], "out") == Some(0) && Lookup(["out", "in"], "in") == Some(1)
    ensures Lookup(IO_PORTS, "in") == Some(IO_IN) && Lookup(IO_PORTS, "out") == Some(IO_OUT)
  {
    assert ["io", "cat"][1] == "cat";
    assert ["out", "in"][1] == "in" && IO_PORTS[1] == "out";
    assert |"io"| != |"cat"| && "in"[0] != "out"[0];
  }

  lemma Joined(b: Built)
    requires |b.rules| == 2 && b.rules[0] == Rule("io", IO_PORTS, false)
             && b.rules[1] == Rule("cat", ["out", "in"], true)
    ensures BuildDecl(b, Decls[1]) == Some(WithJoint(b, Wiring.Joint(0, IO_IN, 1, 1)))
    ensures BuildDecl(b, Decls[2]) == Some(WithJoint(b, Wiring.Joint(1, 0, 0, IO_OUT)))
  {
    hide Lookup, RuleNames, WithJoint;
    Places();
    Hello.TwoNames(b.rules);
  }

  lemma Built3(b0: Built, b1: Built, b2: Built, b3: Built)
    requires BuildDecl(b0, Decls[0]) == Some(b1) && BuildDecl(b1, Decls[1]) == Some(b2)
             && BuildDecl(b2, Decls[2]) == Some(b3)
    ensures BuildAll(b0, Decls) == Some(b3)
  {
    hide BuildDecl;
    assert Decls[1..] == [Decls[1], Decls[2]];
    Hello.TwoDecls(b1, Decls[1], b2, Decls[2], b3);
  }

  lemma CatLoaded(input: seq<byte>)
    ensures Loaded(TOKENS, input) == Some(CatBuild(input)) && Sound(CatBuild(input))
    ensures Valid(NetOf(CatBuild(input)), CatBuild(input).sys)
  {
    hide Program, EncodeAll, Compilable, StmtNames, Peak, Width, RuleNames, WithJoint, Defs, BuildAll, ParseProgram,
         Sound, Valid, NetOf, Startup.Started;
    Parsed();
    BodyRunnable();
    BodyNames();
    var b0 := Begun(input);
    var b1 := WithProc(b0, "cat", ["out", "in"], Body);
    assert BuildDecl(b0, Decls[0]) == Some(b1);
    Joined(b1);
    var b2 := WithJoint(b1, Wiring.Joint(0, IO_IN, 1, 1));
    SameRules(b1, Wiring.Joint(0, IO_IN, 1, 1));
    Joined(b2);
    Built3(b0, b1, b2, CatBuild(input));
    Startup.BegunStarted(input);
    Startup.AllStarted(b0, Decls);
    Startup.StartedFacts(CatBuild(input));
  }

  lemma SameRules(b: Built, j: Wiring.Joint)
    ensures WithJoint(b, j).rules == b.rules
  {
  }

  // ----- The run -----

  const CatCode: seq<byte> := EncodeAll([Recv(1), Instr.Send(0)])
  const CatWired: Net := [Io, Proc(CatCode, [Some(Link(0, IO_OUT, 1)), Some(Link(0, IO_IN, 0)), None, None])]

  lemma CatNodes(input: seq<byte>)
    ensures CatBuild(input).nodes == [Io, Proc(CatCode, NoPorts)]
    ensures CatBuild(input).joints == [Wiring.Joint(0, IO_IN, 1, 1), Wiring.Joint(1, 0, 0, IO_OUT)]
  {
    hide Program, EncodeAll;
    BodyProgram();
  }

  lemma CatNet(input: seq<byte>)
    requires Sound(CatBuild(input))
    ensures NetOf(CatBuild(input)) == CatWired && ValidNet(CatWired)
  {
    hide CatBuild, EncodeAll, Sound, Wiring.Build, Wiring.AddWire;
    CatNodes(input);
    var b := CatBuild(input);
    SoundNodes(b);
    TwoWires(b.nodes, Wiring.Joint(0, IO_IN, 1, 1), Wiring.Joint(1, 0, 0, IO_OUT));
    var one := NoPorts[1 := Some(Link(0, IO_IN, 0))];
    Demos.IoWire(CatCode, NoPorts, 0, 1, IO_IN);
    Demos.IoWire(CatCode, one, 1, 0, IO_OUT);
    assert one[0 := Some(Link(0, IO_OUT, 1))] == [Some(Link(0, IO_OUT, 1)), Some(Link(0, IO_IN, 0)), None, None];
  }

  lemma TwoWires(net: Net, j: Wiring.Joint, k: Wiring.Joint)
    requires ValidNet(net) && Wiring.ValidJoint(net, j) && Wiring.ValidJoint(net, k)
    ensures ValidNet(Wiring.AddWire(net, 0, j)) && Wiring.ValidJoint(Wiring.AddWire(net, 0, j), k)
    ensures Wiring.Build(net, [j, k]) == Wiring.AddWire(Wiring.AddWire(net, 0, j), 1, k)
  {
    hide Wiring.AddWire;
    Wiring.AddWireValid(net, 0, j);
    Demos.OneWire(net, j);
    assert [j, k][..1] == [j];
  }

  lemma CatFetch()
    ensures |CatCode| == 2 && Decode(CatCode, 0) == Some(Recv(1)) && Decode(CatCode, 1) == Some(Instr.Send(0))
  {
    EncodeTwo(Recv(1), Instr.Send(0));
  }

  /** The state with the one processor's registers and both streams replaced. */
  function CatAt(s: Sys, c: Core, pending: seq<byte>, written: seq<byte>): Sys {
    WithCore(s.(res := s.res[InKey := Input(pending)][OutKey := Output(written)]), 1, c)
  }

  function Holding(b: byte): Core {
    Core(1, [b], Demos.Zeros)
  }

  lemma CatPeeks(b: byte)
    ensures Peek(CatCode, Fresh) == Receiving(1) && AfterRecv(CatCode, Fresh, b) == Some(Holding(b))
    ensures Peek(CatCode, Holding(b)) == Sending(0, b) && AfterSend(CatCode, Holding(b)) == Fresh
  {
    CatFetch();
    hide Decode, EncodeAll;
    Demos.PeekSend(CatCode, Holding(b), b, 0);
    assert [] + [b] == [b];
  }

  lemma CatWaits(s: Sys, written: seq<byte>)
    requires Valid(CatWired, CatAt(s, Fresh, [], written))
    ensures Step(CatWired, CatAt(s, Fresh, [], written), 1) == Blocked
  {
    hide EncodeAll, Peek, AfterRecv, AfterSend, GoodRes, SendTo, Shaped;
    CatPeeks(0);
  }

  lemma CatTakes(s: Sys, b: byte, pending: seq<byte>, written: seq<byte>)
    requires Valid(CatWired, CatAt(s, Fresh, [b] + pending, written))
    ensures var t := CatAt(s, Holding(b), pending, written);
            && Step(CatWired, CatAt(s, Fresh, [b] + pending, written), 1) == Progress(t, Received(InKey, b))
            && Valid(CatWired, t)
  {
    hide EncodeAll, Decode, Step, Peek, AfterRecv, AfterSend, GoodRes, SendTo, Shaped;
    CatPeeks(b);
    CatFetch();
    assert ([b] + pending)[1..] == pending;
    Vm.StepAtRecv(CatWired, CatAt(s, Fresh, [b] + pending, written), 1, 1);
    Rendezvous.AfterValid(CatWired, CatAt(s, Fresh, [b] + pending, written), 1);
  }

  lemma CatGives(s: Sys, b: byte, pending: seq<byte>, written: seq<byte>)
    requires Valid(CatWired, CatAt(s, Holding(b), pending, written))
    ensures var t := CatAt(s, Fresh, pending, written + [b]);
            Step(CatWired, CatAt(s, Holding(b), pending, written), 1) == Progress(t, Sent(OutKey, b)) && Valid(CatWired, t)
  {
    hide EncodeAll, Peek, AfterRecv, AfterSend, GoodRes, RecvFrom, Shaped;
    CatPeeks(b);
    Rendezvous.AfterValid(CatWired, CatAt(s, Holding(b), pending, written), 1);
  }

  lemma {:induction false} CatDrains(s: Sys, pending: seq<byte>, written: seq<byte>, fuel: nat)
    requires Valid(CatWired, CatAt(s, Fresh, pending, written)) && fuel >= 2 * |pending|
    ensures Drain(CatWired, CatAt(s, Fresh, pending, written), 1, fuel) == Ran(CatAt(s, Fresh, [], written + pending), true)
    ensures Valid(CatWired, CatAt(s, Fresh, [], written + pending))
    decreases |pending|
  {
    hide Valid, Step, EncodeAll;
    if pending == [] {
      assert written + pending == written;
      CatWaits(s, written);
    } else {
      assert pending == [pending[0]] + pending[1..];
      CatTakes(s, pending[0], pending[1..], written);
      CatGives(s, pending[0], pending[1..], written);
      CatDrains(s, pending[1..], written + [pending[0]], fuel - 2);
      assert written + [pending[0]] + pending[1..] == written + pending;
    }
  }

  lemma CatRun(s: Sys, input: seq<byte>, sweeps: nat, fuel: nat)
    requires Valid(CatWired, s) && s == CatAt(s, Fresh, input, []) && s.cores.Keys == {1}
    requires sweeps > 0 && fuel >= 2 * |input|
    ensures var t := CatAt(s, Fresh, [], input);
            Run(CatWired, s, sweeps, fuel) == Ran(t, false) && Valid(CatWired, t) && Quiescent(CatWired, t)
  {
    hide Step, EncodeAll, Run, Valid;
    var t := CatAt(s, Fresh, [], input);
    if input == [] {
      assert t == s;
    } else {
      var b := input[0];
      assert [] + [b] == [b] && [b] + input[1..] == input;
      CatTakes(s, b, input[1..], []);
      CatGives(s, b, input[1..], []);
      CatDrains(s, input[1..], [b], fuel - 1);
    }
    assert CatAt(t, Fresh, [], input) == t;
    CatWaits(t, input);
    Demos.RunOne(CatWired, s, t, sweeps, fuel);
  }

  lemma CatState(input: seq<byte>)
    ensures var s := CatBuild(input).sys;
            && s == CatAt(s, Fresh, input, []) && s.cores == map[1 := Fresh]
            && s.res == map[InKey := Input(input), OutKey := Output([]), ErrKey := Output([]),
                            WireKey(0) := Wire(EMPTY, 0), WireKey(1) := Wire(EMPTY, 0)]
  {
    hide Program, EncodeAll;
    var s := CatBuild(input).sys;
    assert |Begun(input).nodes| == 1;
    assert s.cores == map[1 := Fresh];
    assert s.res[InKey := Input(input)] == s.res && s.res[OutKey := Output([])] == s.res;
    assert s.cores[1 := Fresh] == s.cores;
  }

  /** The program is loaded, and `run` ends, given enough rounds, with all of the standard input on the
      standard output, in order, nothing on the standard error, and nothing that can move. */
  lemma CatCopies(input: seq<byte>, sweeps: nat, fuel: nat)
    requires sweeps > 0 && fuel >= 2 * |input|
    ensures Loaded(TOKENS, input).Some?
    ensures var b := Loaded(TOKENS, input).value;
            && Sound(b) && Valid(NetOf(b), b.sys)
            && var r := Run(NetOf(b), b.sys, sweeps, fuel);
               && r.Ran? && Quiescent(NetOf(b), r.s)
               && r.s.res == map[InKey := Input([]), OutKey := Output(input), ErrKey := Output([]),
                                 WireKey(0) := Wire(EMPTY, 0), WireKey(1) := Wire(EMPTY, 0)]
  {
    hide Sound, Loaded, Step, Run, Valid, NetOf, CatBuild, Quiescent;
    CatLoaded(input);
    CatState(input);
    CatNet(input);
    CatRun(CatBuild(input).sys, input, sweeps, fuel);
  }

  // ----- Every interleaving -----

  lemma CatUses(net: Net, i: nat, p: slot)
    requires i < |net| && net[i].Proc? && net[i].code == EncodeAll(Program(Body))
    ensures !(Sends(net, i, p) && Receives(net, i, p))
  {
    hide Program, EncodeAll, Compilable, Sends, Receives, Peak;
    BodyRunnable();
    BodyProgram();
    Hello.UsesAreInstructions(net, i, p, Body);
  }

  lemma CatSingle(input: seq<byte>)
    ensures Wiring.SingleWire(CatBuild(input).nodes, CatBuild(input).joints)
    ensures forall k :: 0 <= k < 2 ==> Wiring.OneWay(CatBuild(input).nodes, CatBuild(input).joints[k])
  {
    hide CatBuild, EncodeAll, Sends, Receives;
    CatNodes(input);
  }

  lemma CatBodies(input: seq<byte>)
    ensures CatBuild(input).bodies == [None, Some(Body)]
    ensures CatBuild(input).nodes[1] == Proc(EncodeAll(Program(Body)), NoPorts)
  {
    hide Program, EncodeAll;
  }

  lemma CatWellFormed(input: seq<byte>)
    requires Sound(CatBuild(input))
    ensures WellFormed(CatBuild(input))
  {
    hide CatBuild, Program, EncodeAll, Sound, Sends, Receives, Runnable, Wiring.SingleWire, Wiring.OneWay;
    var b := CatBuild(input);
    CatNodes(input);
    CatBodies(input);
    CatSingle(input);
    BodyRunnable();
    SoundNodes(b);
    forall i: nat, p: slot | i < |b.nodes| && b.nodes[i].Proc?
      ensures !(Sends(b.nodes, i, p) && Receives(b.nodes, i, p))
    {
      CatUses(b.nodes, i, p);
    }
  }

  lemma CatExclusive()
    ensures Exclusive(CatWired)
  {
  }

  lemma CatInitial(input: seq<byte>)
    ensures var b := CatBuild(input);
            Sound(b) && NetOf(b) == CatWired && Initial(CatWired, b.sys) && Exclusive(CatWired)
  {
    hide CatBuild, Sound, Valid, Initial, Exclusive, WellFormed, NetOf;
    CatLoaded(input);
    CatNet(input);
    CatWellFormed(input);
    BuiltInitial(CatBuild(input));
    CatExclusive();
  }

  lemma CatEnds(s: Sys, input: seq<byte>) returns (p: seq<nat>)
    requires Initial(CatWired, s) && Exclusive(CatWired) && s == CatAt(s, Fresh, input, []) && s.cores.Keys == {1}
    ensures Confluence.Path(CatWired, s, p) == Some(CatAt(s, Fresh, [], input))
    ensures Valid(CatWired, CatAt(s, Fresh, [], input)) && Quiescent(CatWired, CatAt(s, Fresh, [], input))
  {
    hide WellWired, Exclusive, Confluence.Path, Run, Quiescent, CatAt;
    var t := CatAt(s, Fresh, [], input);
    CatRun(s, input, 1, 2 * |input|);
    Confluence.RunFindsTheEnd(CatWired, s, t);
    p :| Confluence.Path(CatWired, s, p) == Some(t) && Quiescent(CatWired, t);
  }

  /** Not only in the order of `run`: wherever any interleaving gets to from where nothing can move, the whole
      input is on the output. */
  lemma CatAnyOrder(input: seq<byte>, q: seq<nat>)
    requires var b := CatBuild(input);
             && Sound(b) && Valid(NetOf(b), b.sys)
             && Confluence.Path(NetOf(b), b.sys, q).Some?
             && var u := Confluence.Path(NetOf(b), b.sys, q).value;
                forall i :: i in u.cores ==> Confluence.Moved(NetOf(b), u, i).None?
    ensures Confluence.Path(NetOf(CatBuild(input)), CatBuild(input).sys, q).value.res
            == map[InKey := Input([]), OutKey := Output(input), ErrKey := Output([]),
                   WireKey(0) := Wire(EMPTY, 0), WireKey(1) := Wire(EMPTY, 0)]
  {
    hide CatBuild, Sound, Valid, NetOf, WellWired, Exclusive, Confluence.Path, Confluence.Moved, Quiescent;
    var s := CatBuild(input).sys;
    CatInitial(input);
    CatState(input);
    var p := CatEnds(s, input);
    Confluence.ScheduleIndependence(CatWired, s, p, q);
  }
}
