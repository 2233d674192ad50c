/** One processor on its own: what `tick` (vm.c:373-523) does to a processor's registers, with the
    send or receive it may ask for left to the outside. */
module Machine {
  import opened Wrappers
  import opened Bytes
  import opened Bytecode

  const STACK_SIZE := 512

  /** isp, stack (top last) and variables of a `ProcNode`. */
  datatype Core = Core(pc: nat, stack: seq<byte>, vars: seq<byte>)

  /** vars has VAR_MAX entries and sp stays within the stack. */
  predicate Shaped(c: Core) {
    |c.vars| == 4 && |c.stack| <= STACK_SIZE
  }

  const Fresh: Core := Core(0, [], [0, 0, 0, 0])

  /** What the next tick of a processor is about. */
  datatype Act =
    | Silent(next: Core)
    | Sending(port: slot, val: byte)
    | Receiving(port: slot)
    | Stopped
    | Crashed

  /** isp moved to `a`: the end of the code wraps to its beginning. */
  function Advance(code: seq<byte>, a: nat): nat {
    if a == |code| then 0 else a
  }

  function Top(c: Core): byte
    requires c.stack != []
  {
    c.stack[|c.stack| - 1]
  }

  function Drop(s: seq<byte>, n: nat): seq<byte>
    requires n <= |s|
  {
    s[..|s| - n]
  }

  /** The core after the instruction at pc, of `len` bytes, left `stack` and `vars`. */
  function Move(code: seq<byte>, c: Core, len: nat, stack: seq<byte>, vars: seq<byte>): Core {
    Core(Advance(code, c.pc + len), stack, vars)
  }

  /** Pop `n` values and push `b`. */
  function Replace(code: seq<byte>, c: Core, len: nat, n: nat, b: byte): Act {
    if |c.stack| < n then Crashed
    else if |c.stack| - n >= STACK_SIZE then Crashed
    else Silent(Move(code, c, len, Drop(c.stack, n) + [b], c.vars))
  }

  /** The instruction at isp, executed up to the point where a port is needed. */
  function Peek(code: seq<byte>, c: Core): (r: Act)
    requires Shaped(c)
    ensures r.Silent? ==> Shaped(r.next)
    ensures r.Sending? ==> Decode(code, c.pc) == Some(Send(r.port)) && c.stack != [] && r.val == Top(c)
    ensures r.Receiving? ==> Decode(code, c.pc) == Some(Recv(r.port))
  {
    match Decode(code, c.pc)
    case None => Crashed
    case Some(i) =>
      match i
      case Noop => Silent(Move(code, c, 1, c.stack, c.vars))
      case Push(b) => Replace(code, c, 2, 0, b)
      case Dup => if c.stack == [] then Crashed else Replace(code, c, 1, 0, Top(c))
      case Pop => if c.stack == [] then Crashed else Silent(Move(code, c, 1, Drop(c.stack, 1), c.vars))
      case Neg => if c.stack == [] then Crashed else Replace(code, c, 1, 1, Negate(Top(c)))
      case LNot => if c.stack == [] then Crashed else Replace(code, c, 1, 1, LogicalNot(Top(c)))
      case Not => if c.stack == [] then Crashed else Replace(code, c, 1, 1, Complement(Top(c)))
      case Bin(op) =>
        if |c.stack| < 2 then Crashed else
        (match Apply(op, c.stack[|c.stack| - 2], Top(c))
         case None => Crashed
         case Some(b) => Replace(code, c, 1, 2, b))
      case Jmp(a) => Silent(Core(Advance(code, a), c.stack, c.vars))
      case FJmp(a) =>
        if c.stack == [] then Crashed
        else if Top(c) == 0 then Silent(Core(Advance(code, a), Drop(c.stack, 1), c.vars))
        else Silent(Move(code, c, 3, Drop(c.stack, 1), c.vars))
      case Load(v) => Replace(code, c, 1, 0, c.vars[v])
      case Save(v) =>
        if c.stack == [] then Crashed
        else Silent(Move(code, c, 1, Drop(c.stack, 1), c.vars[v := Top(c)]))
      case Send(p) => if c.stack == [] then Crashed else Sending(p, Top(c))
      case Recv(p) => Receiving(p)
      case Halt => Stopped
  }

  /** After a send went through: the value is popped and isp moves on. */
  function AfterSend(code: seq<byte>, c: Core): Core
    requires c.stack != []
  {
    Move(code, c, 1, Drop(c.stack, 1), c.vars)
  }

  /** After a receive of `b`; pushing onto a full stack is an overflow. */
  function AfterRecv(code: seq<byte>, c: Core, b: byte): Option<Core>
    requires Shaped(c)
  {
    if |c.stack| == STACK_SIZE then None else Some(Move(code, c, 1, c.stack + [b], c.vars))
  }

  /** In closed code isp only ever stands on instruction starts (vm.c:466-522): a tick from an
      instruction start fetches an instruction and leaves isp on an instruction start, so operand
      bytes and invalid opcodes are never executed. */
  lemma StaysOnStarts(code: seq<byte>, c: Core)
    requires Closed(code) && Shaped(c) && IsStart(code, c.pc)
    ensures Decode(code, c.pc).Some?
    ensures Peek(code, c).Silent? ==> IsStart(code, Peek(code, c).next.pc) && Shaped(Peek(code, c).next)
    ensures Peek(code, c).Sending? ==> IsStart(code, AfterSend(code, c).pc) && Shaped(AfterSend(code, c))
    ensures forall b :: Peek(code, c).Receiving? && AfterRecv(code, c, b).Some?
              ==> IsStart(code, AfterRecv(code, c, b).value.pc) && Shaped(AfterRecv(code, c, b).value)
  {
    hide Peek, Decode, Closed, IsStart, AfterSend, AfterRecv;
    Successors(code, c.pc);
    PeekPc(code, c);
  }

  /** From an instruction start, isp + length and a jump's operand are, wrapped, instruction starts. */
  lemma Successors(code: seq<byte>, a: nat)
    requires Closed(code) && IsStart(code, a)
    ensures Decode(code, a).Some?
    ensures IsStart(code, Advance(code, a + Len(Decode(code, a).value)))
    ensures Decode(code, a).value.Jmp? || Decode(code, a).value.FJmp? ==> IsStart(code, Advance(code, Decode(code, a).value.addr))
  {
    assert IsStart(code, 0);
    hide Decode, Visits;
  }

  /** Where isp goes: behind the instruction, or to the operand of a jump. */
  lemma PeekPc(code: seq<byte>, c: Core)
    requires Shaped(c) && Decode(code, c.pc).Some?
    ensures var i := Decode(code, c.pc).value;
            var next := Advance(code, c.pc + Len(i));
            && (Peek(code, c).Silent? ==>
                  (Peek(code, c).next.pc == next
                   || ((i.Jmp? || i.FJmp?) && Peek(code, c).next.pc == Advance(code, i.addr))))
            && (Peek(code, c).Sending? ==> AfterSend(code, c).pc == next && Shaped(AfterSend(code, c)))
            && (Peek(code, c).Receiving? ==> forall b :: AfterRecv(code, c, b).Some? ==>
                  AfterRecv(code, c, b).value.pc == next && Shaped(AfterRecv(code, c, b).value))
  {
    hide Decode, Apply, Advance;
  }
}
