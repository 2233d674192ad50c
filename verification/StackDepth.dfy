/** Compiled processors at run time: in every reachable state of every interleaving the operand stack
    has the static depth of the address. */
module StackDepth {
  import opened Wrappers
  import opened Bytes
  import opened Bytecode
  import opened Machine
  import opened Syntax
  import opened Assembler
  import opened Depth
  import opened Network
  import opened Rendezvous
  import opened Delivery

  predicate AtIndex(prog: seq<Instr>, c: Core, k: nat) {
    k < |prog| && Address(prog, k) == c.pc && |c.stack| == DepthAt(prog, k)
  }

  /** isp stands on an instruction and the stack has that instruction's static depth. */
  ghost predicate AtDepth(prog: seq<Instr>, c: Core) {
    exists k: nat :: AtIndex(prog, c, k)
  }

  /** The static facts about one instruction of level code. */
  lemma LevelAt(prog: seq<Instr>, top: nat, k: nat)
    requires Level(prog, top) && k < |prog|
    ensures Need(prog[k]) <= DepthAt(prog, k) <= top
    ensures DepthAt(prog, k + 1) == DepthAt(prog, k) + Change(prog[k]) <= top
    ensures IsJump(prog[k]) ==> DepthAt(prog, k + 1) == 0
  {
    hide Need, Change, IsJump, Safe, Sum;
    LevelStep(prog, top, k);
    if k == 0 {
      assert prog[..0] == [];
      EmptySums();
    } else {
      LevelStep(prog, top, k - 1);
    }
  }

  lemma LevelStep(prog: seq<Instr>, top: nat, k: nat)
    requires Level(prog, top) && k < |prog|
    ensures Need(prog[k]) <= DepthAt(prog, k)
    ensures DepthAt(prog, k + 1) == DepthAt(prog, k) + Change(prog[k]) <= top
    ensures IsJump(prog[k]) ==> DepthAt(prog, k + 1) == 0
  {
    hide Need, Change, IsJump, Safe, Sum;
    var i := prog[k];
    assert prog == prog[..k] + ([i] + prog[k + 1..]);
    SafeConcat3(prog[..k], [i], prog[k + 1..], 0, top);
    SafeOne(i, DepthAt(prog, k), top);
    assert prog[..k + 1] == prog[..k] + [i];
    SafeConcat(prog[..k], [i], 0, top);
  }

  /** How the stack changes in a tick, and when a tick ends the VM. */
  lemma PeekDepth(code: seq<byte>, c: Core, i: Instr)
    requires Shaped(c) && Decode(code, c.pc) == Some(i)
    requires Need(i) <= |c.stack| && |c.stack| + Change(i) <= STACK_SIZE
    ensures Peek(code, c).Silent? ==> |Peek(code, c).next.stack| == |c.stack| + Change(i)
    ensures Peek(code, c).Sending? ==> |AfterSend(code, c).stack| == |c.stack| + Change(i)
    ensures forall b :: Peek(code, c).Receiving? ==>
              AfterRecv(code, c, b).Some? && |AfterRecv(code, c, b).value.stack| == |c.stack| + Change(i)
    ensures Peek(code, c).Crashed? <==> i.Bin? && Apply(i.op, c.stack[|c.stack| - 2], Top(c)).None?
  {
    hide Decode, Apply, Advance;
  }

  /** isp after the k-th instruction, wrapped at the end of the code, or after a jump. */
  lemma NextIndex(prog: seq<Instr>, top: nat, k: nat) returns (j: nat)
    requires Sturdy(prog, top) && k < |prog|
    ensures j < |prog| && Address(prog, j) == Advance(EncodeAll(prog), Address(prog, k) + Len(prog[k]))
    ensures DepthAt(prog, j) == DepthAt(prog, k + 1)
  {
    hide Level, Safe, EncodeAll, Narrow;
    AddressStep(prog, k);
    j := WrapIndex(prog, top, k + 1);
  }

  lemma WrapIndex(prog: seq<Instr>, top: nat, k: nat) returns (j: nat)
    requires Level(prog, top) && 0 < |prog| && k <= |prog|
    ensures j < |prog| && Address(prog, j) == Advance(EncodeAll(prog), Address(prog, k))
    ensures DepthAt(prog, j) == DepthAt(prog, k)
  {
    hide Safe, EncodeAll, Sum, Size;
    j := if k == |prog| then 0 else k;
    if k == |prog| {
      assert prog[..k] == prog && prog[..0] == [];
      EmptySums();
    } else {
      AddressStep(prog, k);
      SizeOne(prog[k]);
    }
  }

  lemma EmptySums()
    ensures Sum([]) == 0 && Size([]) == 0
  {
  }

  /** One tick keeps the stack at the static depth, cannot run it over or under, and ends the VM only
      at a division by zero or an oversized shift. */
  lemma TickKeepsDepth(prog: seq<Instr>, top: nat, c: Core)
    requires Sturdy(prog, top) && top <= STACK_SIZE && Shaped(c) && AtDepth(prog, c)
    ensures var code := EncodeAll(prog);
            && |c.stack| <= top
            && (Peek(code, c).Silent? ==> AtDepth(prog, Peek(code, c).next))
            && (Peek(code, c).Sending? ==> AtDepth(prog, AfterSend(code, c)))
            && (forall b :: Peek(code, c).Receiving? ==>
                  AfterRecv(code, c, b).Some? && AtDepth(prog, AfterRecv(code, c, b).value))
            && (Peek(code, c).Crashed? ==> Undefined(code, c))
  {
    hide Level, Safe, EncodeAll, Narrow, Decode, Peek, AfterSend, AfterRecv, Address, DepthAt, Need, Change, Advance,
         Undefined;
    var code := EncodeAll(prog);
    var k: nat :| AtIndex(prog, c, k);
    var i := prog[k];
    FetchIndex(prog, k);
    LevelAt(prog, top, k);
    PeekDepth(code, c, i);
    PeekPc(code, c);
    UndefinedBin(code, c, i);
    var j := NextIndex(prog, top, k);
    assert Peek(code, c).Sending? ==> AtIndex(prog, AfterSend(code, c), j);
    forall b | Peek(code, c).Receiving?
      ensures AtDepth(prog, AfterRecv(code, c, b).value)
    {
      assert AtIndex(prog, AfterRecv(code, c, b).value, j);
    }
    if Peek(code, c).Silent? {
      if Peek(code, c).next.pc == Advance(code, c.pc + Len(i)) {
        assert AtIndex(prog, Peek(code, c).next, j);
      } else {
        var l: nat :| LandsOn(prog, i.addr, l);
        var l' := WrapIndex(prog, top, l);
        assert AtIndex(prog, Peek(code, c).next, l');
      }
    }
  }

  /** The processor stands at an operation that C leaves undefined for its operands. */
  predicate Undefined(code: seq<byte>, c: Core) {
    match Decode(code, c.pc)
    case Some(Bin(op)) => |c.stack| >= 2 && Apply(op, c.stack[|c.stack| - 2], Top(c)).None?
    case _ => false
  }

  lemma UndefinedBin(code: seq<byte>, c: Core, i: Instr)
    requires Decode(code, c.pc) == Some(i) && Need(i) <= |c.stack|
    ensures i.Bin? && Apply(i.op, c.stack[|c.stack| - 2], Top(c)).None? ==> Undefined(code, c)
  {
    hide Decode, Apply;
  }

  // ----- All processors -----

  /** The bodies that each processor of a VM was compiled from; copies share theirs. */
  type Bodies = map<nat, Stmt>

  predicate Runnable(body: Stmt) {
    Compilable(body) && Width(body) > 0 && Peak(body) <= STACK_SIZE
  }

  predicate CompiledNet(net: Net, bodies: Bodies) {
    forall i: nat :: i < |net| && net[i].Proc? ==>
      i in bodies && Runnable(bodies[i]) && net[i].code == EncodeAll(Program(bodies[i]))
  }

  /** Compiled code meets the VM's demand on code. */
  lemma CompiledClosed(body: Stmt)
    requires Runnable(body)
    ensures Closed(EncodeAll(Program(body)))
  {
    hide Closed, EncodeAll, Sturdy, LegalStmt, GotosDefined, Asm, Width, Peak;
    ProgramSturdy(body);
    AsmSize(body, 0, 0, 0, Defs(body, 0, map[]), StmtNames(Blank, body));
    SturdyClosed(Program(body), Peak(body));
  }

  ghost predicate Deep(bodies: Bodies, s: Sys) {
    forall i :: i in s.cores ==> i in bodies && AtDepth(Program(bodies[i]), s.cores[i])
  }

  lemma FreshDeep(net: Net, s: Sys, bodies: Bodies)
    requires Initial(net, s) && CompiledNet(net, bodies)
    ensures Deep(bodies, s)
  {
    hide WellWired, EncodeAll, Compilable, Width, Peak, Asm;
    forall i | i in s.cores
      ensures AtDepth(Program(bodies[i]), Fresh)
    {
      var prog := Program(bodies[i]);
      AsmSize(bodies[i], 0, 0, 0, Defs(bodies[i], 0, map[]), StmtNames(Blank, bodies[i]));
      assert prog != [] by { EmptySums(); }
      assert prog[..0] == [];
      EmptySums();
      assert AtIndex(prog, Fresh, 0);
    }
  }

  /** A tick of the VM ends it, if at all, at an undefined operation or at a port that is not wired
      to something that takes part in the communication. */
  predicate PortFault(net: Net, s: Sys, i: nat)
    requires Valid(net, s) && i in s.cores
  {
    match Peek(net[i].code, s.cores[i])
    case Sending(p, b) =>
      net[i].ports[p].None? || Wanted(net, s, i).None?
      || SendTo(Wanted(net, s, i).value, net[i].ports[p].value.port, b).NoSuchPort?
    case Receiving(p) =>
      net[i].ports[p].None? || Wanted(net, s, i).None?
      || RecvFrom(Wanted(net, s, i).value, net[i].ports[p].value.port).BadPort?
    case _ => false
  }

  lemma StepDeep(net: Net, s: Sys, i: nat, bodies: Bodies)
    requires Valid(net, s) && CompiledNet(net, bodies) && Deep(bodies, s) && i in s.cores
    ensures Deep(bodies, After(net, s, i))
    ensures Step(net, s, i).Crash? ==> Undefined(net[i].code, s.cores[i]) || PortFault(net, s, i)
  {
    hide EncodeAll, Compilable, Width, Peak, Peek, AfterSend, AfterRecv, AtDepth, Program, Sturdy, Undefined, GoodRes;
    var c := s.cores[i];
    var prog := Program(bodies[i]);
    ProgramSturdy(bodies[i]);
    TickKeepsDepth(prog, Peak(bodies[i]), c);
    OneCoreMoves(net, s, i);
  }

  /** What a tick makes of its own core; the others stay. */
  lemma OneCoreMoves(net: Net, s: Sys, i: nat)
    requires Valid(net, s) && i in s.cores
    ensures var t := After(net, s, i);
            var a := Peek(net[i].code, s.cores[i]);
            && t.cores.Keys == s.cores.Keys
            && (forall j :: j in s.cores && j != i ==> t.cores[j] == s.cores[j])
            && (|| t.cores[i] == s.cores[i]
                || (a.Silent? && t.cores[i] == a.next)
                || (a.Sending? && t.cores[i] == AfterSend(net[i].code, s.cores[i]))
                || (a.Receiving? && exists b :: AfterRecv(net[i].code, s.cores[i], b) == Some(t.cores[i])))
  {
    hide Peek, AfterSend, AfterRecv, GoodRes;
  }

  lemma {:induction false} ExecDeep(net: Net, s: Sys, sched: seq<nat>, bodies: Bodies)
    requires Initial(net, s) && CompiledNet(net, bodies)
    ensures Deep(bodies, Exec(net, s, sched).0)
    decreases |sched|
  {
    hide WellWired, CompiledNet, Deep, Undefined, PortFault, Step, After, Valid;
    if sched == [] {
      FreshDeep(net, s, bodies);
    } else {
      ExecDeep(net, s, sched[..|sched| - 1], bodies);
      var t := Exec(net, s, sched[..|sched| - 1]).0;
      if sched[|sched| - 1] in t.cores {
        StepDeep(net, t, sched[|sched| - 1], bodies);
      }
    }
  }

  /** Stack-depth soundness: in every reachable state of every interleaving of compiled processors,
      each stack has the static depth of its address, which never exceeds what the expressions of the
      body need; so no tick runs a stack over or under, and a tick can end the VM only at an
      undefined operation or at a port without a partner. */
  lemma DepthSound(net: Net, s: Sys, sched: seq<nat>, bodies: Bodies, i: nat)
    requires Initial(net, s) && CompiledNet(net, bodies) && i in Exec(net, s, sched).0.cores
    ensures var t := Exec(net, s, sched).0;
            && i in bodies && AtDepth(Program(bodies[i]), t.cores[i])
            && |t.cores[i].stack| <= Peak(bodies[i]) <= STACK_SIZE
            && (t.cores[i].pc in Seams(bodies[i], 0) ==> t.cores[i].stack == [])
            && (Step(net, t, i).Crash? ==> Undefined(net[i].code, t.cores[i]) || PortFault(net, t, i))
  {
    hide WellWired, Undefined, PortFault, Step, After, Valid, Exec, Compilable, Width, Seams, Program, Peak,
         EncodeAll, AtDepth;
    ExecDeep(net, s, sched, bodies);
    var t := Exec(net, s, sched).0;
    ValidProc(net, t, i);
    StepDeep(net, t, i, bodies);
    DepthBound(net, t, i, bodies);
    if t.cores[i].pc in Seams(bodies[i], 0) {
      EmptyAtSeams(bodies[i], t.cores[i]);
    }
  }

  lemma ValidProc(net: Net, s: Sys, i: nat)
    requires Valid(net, s) && i in s.cores
    ensures i < |net| && net[i].Proc?
  {
  }

  lemma DepthBound(net: Net, s: Sys, i: nat, bodies: Bodies)
    requires Valid(net, s) && CompiledNet(net, bodies) && Deep(bodies, s) && i in s.cores
    ensures i in bodies && |s.cores[i].stack| <= Peak(bodies[i]) <= STACK_SIZE
  {
    hide EncodeAll, Compilable, Width, Peak, Peek, AfterSend, AfterRecv, AtDepth, Program, Sturdy, Undefined, GoodRes;
    ProgramSturdy(bodies[i]);
    TickKeepsDepth(Program(bodies[i]), Peak(bodies[i]), s.cores[i]);
  }

  /** Wherever a statement begins or ends, at every label, and where the code wraps around, the stack
      is empty. */
  lemma EmptyAtSeams(body: Stmt, c: Core)
    requires Runnable(body) && AtDepth(Program(body), c)
    requires c.pc in Seams(body, 0)
    ensures c.stack == []
  {
    hide Sturdy, Compilable, Seams, Asm, Size, Sum, Width, Peak, Program;
    var prog := Program(body);
    ProgramSturdy(body);
    assert Landing(prog, c.pc);
    var j: nat :| LandsOn(prog, c.pc, j);
    var k: nat :| AtIndex(prog, c, k);
    if j < k {
      AddressGrows(prog, j, k);
    } else if k < j {
      AddressGrows(prog, k, j);
    }
  }

  lemma {:induction false} AddressGrows(prog: seq<Instr>, j: nat, k: nat)
    requires j < k <= |prog|
    ensures Address(prog, j) < Address(prog, k)
    decreases k
  {
    hide Address;
    AddressStep(prog, k - 1);
    if j < k - 1 {
      AddressGrows(prog, j, k - 1);
    }
  }
}
