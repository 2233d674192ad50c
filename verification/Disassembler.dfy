/** The disassembler of nodedc (nodedc.c:14-42): the lines it prints, that they are the instructions the
    compiler emitted, and that execution never leaves the addresses it lists. */
module Disassembler {
  import opened Wrappers
  import opened Bytes
  import opened Bytecode
  import opened Syntax
  import opened Assembler
  import opened Depth
  import opened Network
  import opened Delivery
  import opened StackDepth

  /** A printed line: the address, the opcode whose name is printed, and the operand if it has one. */
  datatype Line = Line(addr: nat, op: byte, operand: Option<nat>)

  /** By how much the switch on the opcode advances. */
  function Stride(op: byte): (n: nat)
    ensures 1 <= n <= 3
  {
    if op == 2 then 2 else if op == OP_JMP || op == OP_FJMP then 3 else 1
  }

  /** opstr has a name for the opcode, and the operand bytes lie in the code. */
  predicate Printable(code: seq<byte>, addr: nat) {
    addr < |code| && code[addr] <= OP_HALT && addr + Stride(code[addr]) <= |code|
  }

  function LineAt(code: seq<byte>, addr: nat): (l: Line)
    requires Printable(code, addr)
    ensures l.addr == addr
  {
    var op := code[addr];
    Line(addr, op, if op == 2 then Some(code[addr + 1])
                   else if op == OP_JMP || op == OP_FJMP then Some(Word(code[addr + 1], code[addr + 2]))
                   else None)
  }

  /** The lines from `addr` to `size`; None when the walk reads outside the code or its tables. */
  function Lines(code: seq<byte>, size: nat, addr: nat): Option<seq<Line>>
    decreases size - addr
  {
    if addr >= size then Some([]) else
    if !Printable(code, addr) then None else
    match Lines(code, size, addr + Stride(code[addr]))
    case None => None
    case Some(rest) => Some([LineAt(code, addr)] + rest)
  }

  /** `lines` have been printed of a listing that goes on with `r`. */
  function Printed(lines: seq<Line>, r: Option<seq<Line>>): Option<seq<Line>> {
    match r
    case None => None
    case Some(rest) => Some(lines + rest)
  }

  lemma PrintedNone(lines: seq<Line>, r: Option<seq<Line>>)
    ensures Printed([], r) == r && Printed(lines, Some([])) == Some(lines)
  {
    assert lines + [] == lines;
    if r.Some? {
      assert [] + r.value == r.value;
    }
  }

  lemma PrintedMore(lines: seq<Line>, code: seq<byte>, size: nat, addr: nat)
    requires addr < size && Printable(code, addr)
    ensures Printed(lines, Lines(code, size, addr))
            == Printed(lines + [LineAt(code, addr)], Lines(code, size, addr + Stride(code[addr])))
  {
    var r := Lines(code, size, addr + Stride(code[addr]));
    if r.Some? {
      assert lines + ([LineAt(code, addr)] + r.value) == lines + [LineAt(code, addr)] + r.value;
    }
  }

  /** disasm (nodedc.c:14-42). `addr` has 16 bits, which suffice while the walk stays in the code. */
  method Disasm(code: seq<byte>, size: nat) returns (lines: seq<Line>, ok: bool)
    requires size <= |code| <= 0xFFFF
    ensures ok <==> Lines(code, size, 0).Some?
    ensures ok ==> Some(lines) == Lines(code, size, 0)
  {
    lines, ok := [], true;
    var addr := 0;
    PrintedNone([], Lines(code, size, 0));
    while addr < size
      invariant addr <= |code|
      invariant Lines(code, size, 0) == Printed(lines, Lines(code, size, addr))
      decreases size - addr
    {
      if !Printable(code, addr) {
        return [], false;
      }
      var instr := code[addr];
      var advance := 1;
      var operand: Option<nat> := None;
      if instr == 2 {
        advance := 2;
        operand := Some(code[addr + 1]);
      } else if instr == OP_JMP || instr == OP_FJMP {
        advance := 3;
        operand := Some(code[addr + 1] as int + 256 * (code[addr + 2] as int));
      }
      PrintedMore(lines, code, size, addr);
      lines := lines + [Line(addr, instr, operand)];
      addr := (addr + advance) % 0x10000;
    }
    PrintedNone(lines, None);
  }

  // ----- Opcodes and their names -----

  /** The names that opstr prints, by opcode (compiler.c:152-204). */
  const OPCODES: seq<string> := [
    "INVALID", "NOOP", "PUSH", "DUP", "POP", "NEG", "LNOT", "NOT",
    "LOR", "LAND", "OR", "XOR", "AND", "EQL", "LSS", "LTE", "SHL", "SHR", "ADD", "SUB", "MUL", "DIV", "MOD",
    "JMP", "FJMP",
    "LOAD0", "LOAD1", "LOAD2", "LOAD3", "SAVE0", "SAVE1", "SAVE2", "SAVE3",
    "SEND0", "SEND1", "SEND2", "SEND3", "RECV0", "RECV1", "RECV2", "RECV3",
    "HALT"]

  function OpName(op: BinOp): string {
    match op
    case LOr => "LOR" case LAnd => "LAND" case Or => "OR" case Xor => "XOR" case And => "AND"
    case Eql => "EQL" case Lss => "LSS" case Lte => "LTE" case Shl => "SHL" case Shr => "SHR"
    case Add => "ADD" case Sub => "SUB" case Mul => "MUL" case Div => "DIV" case Mod => "MOD"
  }

  function Numbered(name: string, v: slot): string {
    name + [if v == 0 then '0' else if v == 1 then '1' else if v == 2 then '2' else '3']
  }

  /** What an instruction is called. */
  function Mnemonic(i: Instr): string {
    match i
    case Noop => "NOOP" case Push(_) => "PUSH" case Dup => "DUP" case Pop => "POP"
    case Neg => "NEG" case LNot => "LNOT" case Not => "NOT"
    case Bin(op) => OpName(op)
    case Jmp(_) => "JMP" case FJmp(_) => "FJMP"
    case Load(v) => Numbered("LOAD", v) case Save(v) => Numbered("SAVE", v)
    case Send(p) => Numbered("SEND", p) case Recv(p) => Numbered("RECV", p)
    case Halt => "HALT"
  }

  /** Each instruction's opcode is the one that is printed by the instruction's name; its operand byte is its
      operand, and of two operand bytes the first one is the low one. */
  lemma EncodedByName(i: Instr)
    requires Narrow(i)
    ensures |OPCODES| == 42 && Encode(i)[0] < 42 && OPCODES[Encode(i)[0]] == Mnemonic(i)
    ensures i.Push? ==> Encode(i) == [Encode(i)[0], i.val]
    ensures i.Jmp? || i.FJmp? ==> |Encode(i)| == 3 && Encode(i)[1] as int + 256 * Encode(i)[2] as int == i.addr
  {
    if i.Load? || i.Save? || i.Send? || i.Recv? {
      SlotNames(i);
    } else if i.Jmp? || i.FJmp? {
      AddrBytes(i.addr);
    }
  }

  lemma SlotNames(i: Instr)
    requires i.Load? || i.Save? || i.Send? || i.Recv?
    ensures OPCODES[Encode(i)[0]] == Mnemonic(i)
  {
    assert "LOAD" + "0" == "LOAD0" && "LOAD" + "1" == "LOAD1" && "LOAD" + "2" == "LOAD2" && "LOAD" + "3" == "LOAD3";
  }

  // ----- The listing determines the code -----

  /** The bytes a line was printed from. */
  function LineBytes(l: Line): seq<byte> {
    match l.operand
    case None => [l.op]
    case Some(x) => if l.op == 2 then [l.op, x % 256] else [l.op, Lo(x), Hi(x)]
  }

  function Reassemble(lines: seq<Line>): seq<byte> {
    if lines == [] then [] else LineBytes(lines[0]) + Reassemble(lines[1..])
  }

  lemma LineKeepsBytes(code: seq<byte>, addr: nat)
    requires Printable(code, addr)
    ensures LineBytes(LineAt(code, addr)) == code[addr..addr + Stride(code[addr])]
  {
  }

  /** Whatever code the walk lists to its end, compiled or not, can be read off the lines. */
  lemma {:induction false} ReassembleListing(code: seq<byte>, addr: nat)
    requires addr <= |code| && Lines(code, |code|, addr).Some?
    ensures Reassemble(Lines(code, |code|, addr).value) == code[addr..]
    decreases |code| - addr
  {
    hide LineAt, LineBytes;
    if addr < |code| {
      var next := addr + Stride(code[addr]);
      ReassembleListing(code, next);
      LineKeepsBytes(code, addr);
      assert code[addr..] == code[addr..next] + code[next..];
    }
  }

  // ----- Compiled code -----

  function OperandOf(i: Instr): Option<nat> {
    match i
    case Push(b) => Some(b)
    case Jmp(a) => Some(a)
    case FJmp(a) => Some(a)
    case _ => None
  }

  /** The line of an instruction assembled at `addr`. */
  function LineOf(addr: nat, i: Instr): Line {
    Line(addr, Encode(i)[0], OperandOf(i))
  }

  function LinesOf(prog: seq<Instr>, addr: nat): (ls: seq<Line>)
    ensures |ls| == |prog|
  {
    if prog == [] then [] else [LineOf(addr, prog[0])] + LinesOf(prog[1..], addr + Len(prog[0]))
  }

  lemma LineOfInstr(code: seq<byte>, a: nat, i: Instr)
    requires Narrow(i) && a + Len(i) <= |code| && code[a..a + Len(i)] == Encode(i)
    ensures Printable(code, a) && Stride(code[a]) == Len(i) && LineAt(code, a) == LineOf(a, i)
  {
    var s := code[a..a + Len(i)];
    assert forall k :: 0 <= k < Len(i) ==> code[a + k] == s[k];
    assert code[a] == Encode(i)[0];
    if Len(i) > 1 {
      assert code[a + 1] == Encode(i)[1];
    }
    if Len(i) > 2 {
      assert code[a + 2] == Encode(i)[2];
      AddrBytes(i.addr);
    }
    if i.Bin? {
      BinRoundTrip(i.op);
    }
  }

  /** The walk steps from one assembled instruction to the next and ends exactly at the size. */
  lemma {:induction false} LinesOfCode(code: seq<byte>, a: nat, prog: seq<Instr>)
    requires CodeAt(code, a, prog) && a + Size(prog) == |code|
    requires forall k :: 0 <= k < |prog| ==> Narrow(prog[k])
    ensures Lines(code, |code|, a) == Some(LinesOf(prog, a))
    decreases |prog|
  {
    hide LineAt, LineOf, Printable, Stride;
    if prog != [] {
      FetchAt(code, a, prog);
      assert prog == [prog[0]] + prog[1..];
      CodeAtSplit(code, a, [prog[0]], prog[1..]);
      EncodeOne(prog[0]);
      SizeOne(prog[0]);
      LineOfInstr(code, a, prog[0]);
      LinesOfCode(code, a + Len(prog[0]), prog[1..]);
    }
  }

  /** On every body that compiles without an error, the disassembler lists exactly the instructions the
      compiler emitted, in order, each at its address. */
  lemma DisassemblyAgrees(body: Stmt)
    requires Compilable(body)
    ensures var code := EncodeAll(Program(body));
            && |code| == Width(body)
            && Lines(code, |code|, 0) == Some(LinesOf(Program(body), 0))
            && Listing(code, 0) == Some(Program(body))
  {
    hide Sturdy, Compilable, EncodeAll, Program, Narrow, LinesOf, Lines, Listing;
    ProgramSturdy(body);
    var prog := Program(body);
    var code := EncodeAll(prog);
    ProgramSize(body);
    SturdyNarrow(prog, Peak(body));
    assert code[0..0 + Size(prog)] == code;
    LinesOfCode(code, 0, prog);
    ListingOfEncoded(code, 0, prog);
  }

  lemma {:induction false} LineAddress(prog: seq<Instr>, a: nat, k: nat)
    requires k < |prog|
    ensures LinesOf(prog, a)[k] == LineOf(a + Address(prog, k), prog[k])
    decreases |prog|
  {
    hide LineOf;
    if k == 0 {
      assert prog[..0] == [];
    } else {
      LineAddress(prog[1..], a + Len(prog[0]), k - 1);
      assert prog[..k] == [prog[0]] + prog[1..][..k - 1];
    }
  }

  /** Wherever a processor of compiled bodies stands, in every reachable state of every interleaving, the
      disassembler lists the instruction it executes next. */
  lemma ReachedIsListed(net: Net, s: Sys, sched: seq<nat>, bodies: Bodies, i: nat) returns (k: nat)
    requires Initial(net, s) && CompiledNet(net, bodies) && i in Exec(net, s, sched).0.cores
    ensures i < |net| && net[i].Proc? && i in bodies
    ensures var code, pc := net[i].code, Exec(net, s, sched).0.cores[i].pc;
            && Lines(code, |code|, 0) == Some(LinesOf(Program(bodies[i]), 0))
            && k < |Program(bodies[i])|
            && Decode(code, pc) == Some(Program(bodies[i])[k])
            && LinesOf(Program(bodies[i]), 0)[k] == LineOf(pc, Program(bodies[i])[k])
  {
    hide WellWired, Exec, Compilable, Width, Program, EncodeAll, LinesOf, Lines, Peak, LineOf, Sturdy, Narrow, Decode,
         DepthAt, Address;
    var t := Exec(net, s, sched).0;
    DepthSound(net, s, sched, bodies, i);
    ReachedValid(net, s, sched, i);
    var prog := Program(bodies[i]);
    DisassemblyAgrees(bodies[i]);
    ProgramSturdy(bodies[i]);
    SturdyNarrow(prog, Peak(bodies[i]));
    k :| AtIndex(prog, t.cores[i], k);
    FetchIndex(prog, k);
    LineAddress(prog, 0, k);
  }

  lemma ReachedValid(net: Net, s: Sys, sched: seq<nat>, i: nat)
    requires Initial(net, s) && i in Exec(net, s, sched).0.cores
    ensures i < |net| && net[i].Proc?
  {
    hide WellWired, Step;
    ValidProc(net, Exec(net, s, sched).0, i);
  }

  // ----- The size as it is stored -----

  /** CodeBlock.size has 8 bits (noded.h:239) and receives the low ones of a 16-bit length
      (compiler.c:1052). */
  function StoredSize(code: seq<byte>): nat {
    |code| % 256
  }

  lemma {:induction false} LinesBelow(code: seq<byte>, size: nat, addr: nat, k: nat)
    requires Lines(code, size, addr).Some? && k < |Lines(code, size, addr).value|
    ensures addr <= Lines(code, size, addr).value[k].addr < size
    decreases size - addr
  {
    if k > 0 {
      LinesBelow(code, size, addr + Stride(code[addr]), k - 1);
    }
  }

  /** With the stored size the disassembler lists the emitted instructions exactly if there are fewer than
      256 bytes of them; from there on the last ones are missing. */
  lemma StoredSizeIff(body: Stmt)
    requires Compilable(body)
    ensures var code := EncodeAll(Program(body));
            Lines(code, StoredSize(code), 0) == Some(LinesOf(Program(body), 0)) <==> Width(body) < 256
  {
    hide Sturdy, Compilable, EncodeAll, Program, Lines, LinesOf, Address, Size;
    var prog := Program(body);
    var code := EncodeAll(prog);
    DisassemblyAgrees(body);
    ProgramSize(body);
    if Width(body) >= 256 {
      EmptySums();
      LastListed(code, StoredSize(code), prog);
      AddressStep(prog, |prog| - 1);
      assert prog[|prog|..] == [];
    }
  }

  lemma LastListed(code: seq<byte>, size: nat, prog: seq<Instr>)
    requires prog != []
    ensures Lines(code, size, 0) == Some(LinesOf(prog, 0)) ==> Address(prog, |prog| - 1) < size
  {
    hide Lines, LinesOf, Address;
    LineAddress(prog, 0, |prog| - 1);
    if Lines(code, size, 0) == Some(LinesOf(prog, 0)) {
      LinesBelow(code, size, 0, |prog| - 1);
    }
  }
}
