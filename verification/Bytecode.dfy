/** The instruction set (noded.h:126-185), its byte encoding as the compiler writes it and
    `tick` reads it, and the disassembler's walk over a code block. */
module Bytecode {
  import opened Wrappers
  import opened Bytes

  /** VAR_MAX and PORT_MAX are both 4. */
  type slot = x: int | 0 <= x < 4

  datatype Instr =
    | Noop
    | Push(val: byte) | Dup | Pop
    | Neg | LNot | Not
    | Bin(op: BinOp)
    | Jmp(addr: nat) | FJmp(addr: nat)
    | Load(v: slot) | Save(v: slot)
    | Send(p: slot) | Recv(p: slot)
    | Halt

  const OP_LOR := 8
  const OP_JMP := 23
  const OP_FJMP := 24
  const OP_LOAD0 := 25
  const OP_SAVE0 := 29
  const OP_SEND0 := 33
  const OP_RECV0 := 37
  const OP_HALT := 41

  function BinCode(op: BinOp): byte {
    match op
    case LOr => 8 case LAnd => 9 case Or => 10 case Xor => 11 case And => 12
    case Eql => 13 case Lss => 14 case Lte => 15 case Shl => 16 case Shr => 17
    case Add => 18 case Sub => 19 case Mul => 20 case Div => 21 case Mod => 22
  }

  function BinOf(b: byte): BinOp
    requires OP_LOR <= b < OP_JMP
  {
    if b == 8 then LOr else if b == 9 then LAnd else if b == 10 then Or else if b == 11 then Xor
    else if b == 12 then And else if b == 13 then Eql else if b == 14 then Lss else if b == 15 then Lte
    else if b == 16 then Shl else if b == 17 then Shr else if b == 18 then Add else if b == 19 then Sub
    else if b == 20 then Mul else if b == 21 then Div else Mod
  }

  function Lo(a: nat): byte {
    a % 256
  }

  function Hi(a: nat): byte {
    (a / 256) % 256
  }

  /** The address whose low and high bytes are given. */
  function Word(lo: byte, hi: byte): (a: nat)
    ensures a < 0x10000
  {
    lo as int + 256 * (hi as int)
  }

  /** The bytes of one instruction; jump operands are stored low byte first. */
  function Encode(i: Instr): (s: seq<byte>)
    ensures |s| == Len(i)
  {
    match i
    case Noop => [1]
    case Push(b) => [2, b]
    case Dup => [3]
    case Pop => [4]
    case Neg => [5]
    case LNot => [6]
    case Not => [7]
    case Bin(op) => [BinCode(op)]
    case Jmp(a) => [OP_JMP, Lo(a), Hi(a)]
    case FJmp(a) => [OP_FJMP, Lo(a), Hi(a)]
    case Load(v) => [OP_LOAD0 + v]
    case Save(v) => [OP_SAVE0 + v]
    case Send(p) => [OP_SEND0 + p]
    case Recv(p) => [OP_RECV0 + p]
    case Halt => [OP_HALT]
  }

  function Len(i: Instr): (n: nat)
    ensures 1 <= n <= 3
  {
    match i
    case Push(_) => 2
    case Jmp(_) => 3
    case FJmp(_) => 3
    case _ => 1
  }

  /** The instruction `tick` executes when isp is `a`: None when a byte it reads lies past the code
      or the opcode is not one of the enumeration. */
  function Decode(code: seq<byte>, a: nat): (i: Option<Instr>)
    ensures i.Some? ==> a + Len(i.value) <= |code|
    ensures i.Some? && i.value.Jmp? ==> i.value.addr < 0x10000
    ensures i.Some? && i.value.FJmp? ==> i.value.addr < 0x10000
  {
    if a >= |code| then None else
    var op := code[a];
    if op == 1 then Some(Noop)
    else if op == 2 then (if a + 1 < |code| then Some(Push(code[a + 1])) else None)
    else if op == 3 then Some(Dup)
    else if op == 4 then Some(Pop)
    else if op == 5 then Some(Neg)
    else if op == 6 then Some(LNot)
    else if op == 7 then Some(Not)
    else if OP_LOR <= op < OP_JMP then Some(Bin(BinOf(op)))
    else if op == OP_JMP then (if a + 2 < |code| then Some(Jmp(Word(code[a + 1], code[a + 2]))) else None)
    else if op == OP_FJMP then (if a + 2 < |code| then Some(FJmp(Word(code[a + 1], code[a + 2]))) else None)
    else if OP_LOAD0 <= op < OP_SAVE0 then Some(Load(op - OP_LOAD0))
    else if OP_SAVE0 <= op < OP_SEND0 then Some(Save(op - OP_SAVE0))
    else if OP_SEND0 <= op < OP_RECV0 then Some(Send(op - OP_SEND0))
    else if OP_RECV0 <= op < OP_HALT then Some(Recv(op - OP_RECV0))
    else if op == OP_HALT then Some(Halt)
    else None
  }

  /** Jump operands have 16 bits. */
  predicate Narrow(i: Instr) {
    (i.Jmp? || i.FJmp?) ==> i.addr < 0x10000
  }

  lemma AddrBytes(a: nat)
    requires a < 0x10000
    ensures Word(Lo(a), Hi(a)) == a
  {
  }

  lemma BinRoundTrip(op: BinOp)
    ensures OP_LOR <= BinCode(op) < OP_JMP && BinOf(BinCode(op)) == op
  {
  }

  /** Decoding undoes encoding, wherever in a code block the bytes stand. */
  lemma DecodeEncode(code: seq<byte>, a: nat, i: Instr)
    requires Narrow(i)
    requires a + Len(i) <= |code| && code[a..a + Len(i)] == Encode(i)
    ensures Decode(code, a) == Some(i)
  {
    var s := code[a..a + Len(i)];
    assert forall k :: 0 <= k < Len(i) ==> code[a + k] == s[k];
    assert code[a] == Encode(i)[0];
    if Len(i) > 1 {
      assert code[a + 1] == Encode(i)[1];
    }
    if Len(i) > 2 {
      assert code[a + 2] == Encode(i)[2];
      AddrBytes(i.addr);
    }
    if i.Bin? {
      BinRoundTrip(i.op);
    }
  }

  // ----- Instruction sequences -----

  function EncodeAll(prog: seq<Instr>): (s: seq<byte>)
    ensures |s| == Size(prog)
  {
    if prog == [] then [] else Encode(prog[0]) + EncodeAll(prog[1..])
  }

  function Size(prog: seq<Instr>): nat {
    if prog == [] then 0 else Len(prog[0]) + Size(prog[1..])
  }

  lemma {:induction false} SizeConcat(x: seq<Instr>, y: seq<Instr>)
    ensures Size(x + y) == Size(x) + Size(y)
  {
    if x == [] {
      assert x + y == y;
    } else {
      assert (x + y)[0] == x[0] && (x + y)[1..] == x[1..] + y;
      SizeConcat(x[1..], y);
    }
  }

  lemma {:induction false} EncodeConcat(x: seq<Instr>, y: seq<Instr>)
    ensures EncodeAll(x + y) == EncodeAll(x) + EncodeAll(y)
    ensures Size(x + y) == Size(x) + Size(y)
  {
    if x == [] {
      assert x + y == y;
    } else {
      assert (x + y)[0] == x[0] && (x + y)[1..] == x[1..] + y;
      EncodeConcat(x[1..], y);
      assert EncodeAll(x + y) == Encode(x[0]) + (EncodeAll(x[1..]) + EncodeAll(y));
    }
  }

  lemma EncodeOne(i: Instr)
    ensures EncodeAll([i]) == Encode(i)
  {
    assert [i][1..] == [];
  }

  lemma EncodeTwo(i: Instr, j: Instr)
    ensures EncodeAll([i, j]) == Encode(i) + Encode(j)
  {
    assert [i, j][1..] == [j];
    EncodeOne(j);
  }

  /** The instructions `prog` stand in `code` from address `a` on. */
  predicate CodeAt(code: seq<byte>, a: nat, prog: seq<Instr>) {
    a + Size(prog) <= |code| && code[a..a + Size(prog)] == EncodeAll(prog)
  }

  lemma SliceSplit(code: seq<byte>, a: nat, x: seq<byte>, y: seq<byte>)
    requires a + |x| + |y| <= |code| && code[a..a + |x| + |y|] == x + y
    ensures code[a..a + |x|] == x && code[a + |x|..a + |x| + |y|] == y
  {
    var s := code[a..a + |x| + |y|];
    assert code[a..a + |x|] == s[..|x|] == x;
    assert code[a + |x|..a + |x| + |y|] == s[|x|..] == y;
  }

  lemma CodeAtSplit(code: seq<byte>, a: nat, x: seq<Instr>, y: seq<Instr>)
    requires CodeAt(code, a, x + y)
    ensures CodeAt(code, a, x) && CodeAt(code, a + Size(x), y)
    ensures Size(x + y) == Size(x) + Size(y)
  {
    EncodeConcat(x, y);
    SliceSplit(code, a, EncodeAll(x), EncodeAll(y));
  }

  lemma FetchAt(code: seq<byte>, a: nat, prog: seq<Instr>)
    requires prog != [] && CodeAt(code, a, prog) && Narrow(prog[0])
    ensures Decode(code, a) == Some(prog[0])
    ensures CodeAt(code, a + Len(prog[0]), prog[1..])
    ensures a + Len(prog[0]) + Size(prog[1..]) == a + Size(prog) <= |code|
  {
    assert prog == [prog[0]] + prog[1..];
    CodeAtSplit(code, a, [prog[0]], prog[1..]);
    assert EncodeAll([prog[0]]) == Encode(prog[0]) + EncodeAll([]) == Encode(prog[0]);
    assert Size([prog[0]]) == Len(prog[0]);
    DecodeEncode(code, a, prog[0]);
  }

  // ----- The disassembler's walk -----

  /** The instructions met when walking from address `a` to the end of the code, as `disasm` does;
      None when the walk meets a byte that starts no instruction or overshoots the end. */
  function Listing(code: seq<byte>, a: nat): (l: Option<seq<Instr>>)
    requires a <= |code|
    decreases |code| - a
  {
    if a == |code| then Some([]) else
    match Decode(code, a)
    case None => None
    case Some(i) =>
      match Listing(code, a + Len(i))
      case None => None
      case Some(rest) => Some([i] + rest)
  }

  /** The walk from `from` stops at address `a`. */
  predicate Visits(code: seq<byte>, from: nat, a: nat)
    decreases |code| - from
  {
    from == a || (from < |code| && Decode(code, from).Some? && Visits(code, from + Len(Decode(code, from).value), a))
  }

  /** `a` is an instruction start strictly inside the code. */
  predicate IsStart(code: seq<byte>, a: nat) {
    a < |code| && Visits(code, 0, a)
  }

  /** The address `a` may be jumped to: an instruction start, or the end of the code, from where
      `tick` wraps around. */
  predicate IsTarget(code: seq<byte>, a: nat) {
    a == |code| || IsStart(code, a)
  }

  /** Code that execution cannot leave: every instruction start holds an instruction whose
      successors are again instruction starts, up to the wrap at the end. */
  ghost predicate Closed(code: seq<byte>) {
    && 0 < |code| <= 0xFFFF
    && forall a: nat :: IsStart(code, a) ==>
         && Decode(code, a).Some?
         && IsTarget(code, a + Len(Decode(code, a).value))
         && (Decode(code, a).value.Jmp? || Decode(code, a).value.FJmp? ==> IsTarget(code, Decode(code, a).value.addr))
  }

  lemma {:induction false} VisitsNext(code: seq<byte>, from: nat, a: nat)
    requires Visits(code, from, a) && a < |code| && Decode(code, a).Some?
    ensures Visits(code, from, a + Len(Decode(code, a).value))
    decreases |code| - from
  {
    if from != a {
      VisitsNext(code, from + Len(Decode(code, from).value), a);
    }
  }

  /** Walking over assembled instructions lists exactly those instructions and ends at the size. */
  lemma {:induction false} ListingOfEncoded(code: seq<byte>, a: nat, prog: seq<Instr>)
    requires CodeAt(code, a, prog) && a + Size(prog) == |code|
    requires forall k :: 0 <= k < |prog| ==> Narrow(prog[k])
    ensures Listing(code, a) == Some(prog)
    decreases |prog|
  {
    if prog != [] {
      FetchAt(code, a, prog);
      assert [prog[0]] + prog[1..] == prog;
      ListingOfEncoded(code, a + Len(prog[0]), prog[1..]);
    }
  }

  /** The address of the k-th of a sequence of instructions assembled from address 0. */
  function Address(prog: seq<Instr>, k: nat): nat
    requires k <= |prog|
  {
    Size(prog[..k])
  }

  lemma AddressStep(prog: seq<Instr>, k: nat)
    requires k < |prog|
    ensures Address(prog, k + 1) == Address(prog, k) + Len(prog[k])
    ensures Address(prog, k) + Len(prog[k]) + Size(prog[k + 1..]) == Size(prog)
  {
    assert prog[..k + 1] == prog[..k] + [prog[k]];
    SizeConcat(prog[..k], [prog[k]]);
    assert Size([prog[k]]) == Len(prog[k]);
    assert prog == prog[..k + 1] + prog[k + 1..];
    SizeConcat(prog[..k + 1], prog[k + 1..]);
  }

  lemma FetchIndex(prog: seq<Instr>, k: nat)
    requires k < |prog|
    requires forall j :: 0 <= j < |prog| ==> Narrow(prog[j])
    ensures Decode(EncodeAll(prog), Address(prog, k)) == Some(prog[k])
    ensures Address(prog, k) < |EncodeAll(prog)|
  {
    var code := EncodeAll(prog);
    assert code[0..0 + Size(prog)] == code;
    assert prog == prog[..k] + prog[k..];
    CodeAtSplit(code, 0, prog[..k], prog[k..]);
    FetchAt(code, Address(prog, k), prog[k..]);
  }

  /** Every address of an assembled instruction, and the end, is visited by the walk. */
  lemma {:induction false} AddressVisited(prog: seq<Instr>, k: nat)
    requires k <= |prog|
    requires forall j :: 0 <= j < |prog| ==> Narrow(prog[j])
    ensures Visits(EncodeAll(prog), 0, Address(prog, k))
    decreases k
  {
    hide Decode, EncodeAll, Narrow, Visits;
    if k > 0 {
      AddressVisited(prog, k - 1);
      FetchIndex(prog, k - 1);
      AddressStep(prog, k - 1);
      VisitsNext(EncodeAll(prog), 0, Address(prog, k - 1));
    } else {
      assert prog[..0] == [];
      VisitsSelf(EncodeAll(prog), 0);
    }
  }

  lemma VisitsSelf(code: seq<byte>, a: nat)
    ensures Visits(code, a, a)
  {
  }

  /** ... and it visits nothing else: an instruction start is the address of some instruction. */
  lemma {:induction false} VisitedIsAddress(prog: seq<Instr>, j: nat, a: nat) returns (k: nat)
    requires j <= |prog|
    requires forall j :: 0 <= j < |prog| ==> Narrow(prog[j])
    requires Visits(EncodeAll(prog), Address(prog, j), a) && a < |EncodeAll(prog)|
    ensures k < |prog| && a == Address(prog, k)
    decreases |prog| - j
  {
    hide Decode, Narrow;
    assert prog[..|prog|] == prog;
    k := j;
    if Address(prog, j) != a {
      FetchIndex(prog, j);
      AddressStep(prog, j);
      k := VisitedIsAddress(prog, j + 1, a);
    }
  }
}
