/** Code with holes: which operand bytes of a statement's code are still open when it has been
    compiled, and what filling them makes of it (compiler.c:300-410, compiler.c:1025-1037). */
module Backpatch {
  import opened Wrappers
  import opened Bytes
  import opened Bytecode
  import opened Syntax
  import opened CodeGen
  import opened Assembler

  // ----- Holes -----

  /** The positions of the operands of those breaks that leave the statement. */
  function BreakHoles(s: Stmt, at: nat): set<nat>
    decreases s
  {
    match s
    case Break => {at + 1}
    case Seq(a, b) => BreakHoles(a, at) + BreakHoles(b, at + Width(a))
    case If(e, a) => BreakHoles(a, at + ValueSize(e) + 3)
    case IfElse(e, a, b) => BreakHoles(a, at + ValueSize(e) + 3) + BreakHoles(b, at + ValueSize(e) + 3 + Width(a) + 3)
    case _ => {}
  }

  /** The positions of the operands of gotos, with the labels they go to. */
  function GotoHoles(s: Stmt, at: nat): set<(nat, string)>
    decreases s
  {
    match s
    case Goto(x) => {(at + 1, x)}
    case Seq(a, b) => GotoHoles(a, at) + GotoHoles(b, at + Width(a))
    case If(e, a) => GotoHoles(a, at + ValueSize(e) + 3)
    case IfElse(e, a, b) => GotoHoles(a, at + ValueSize(e) + 3) + GotoHoles(b, at + ValueSize(e) + 3 + Width(a) + 3)
    case While(e, a) => GotoHoles(a, at + ValueSize(e) + 3)
    case For(_, _, _, a) => GotoHoles(a, BodyAt(s, at))
    case Do(a, _) => GotoHoles(a, at)
    case _ => {}
  }

  function Places(gs: set<(nat, string)>): set<nat> {
    set g | g in gs :: g.0
  }

  /** Both bytes of each hole. */
  function Spread(hs: set<nat>): set<nat> {
    hs + set h | h in hs :: h + 1
  }

  /** The bytes of a statement's code that are open when it has been compiled. */
  function Open(s: Stmt, at: nat): set<nat> {
    Spread(BreakHoles(s, at)) + Spread(Places(GotoHoles(s, at)))
  }

  /** From position `at` on the buffer holds `want`, but for the open bytes. */
  predicate Agree(code: seq<byte>, at: nat, want: seq<byte>, open: set<nat>) {
    && at + |want| == |code|
    && forall i :: at <= i < |code| && i !in open ==> code[i] == want[i - at]
  }

  lemma AgreeConcat(c0: seq<byte>, c1: seq<byte>, at: nat, x: seq<byte>, xo: set<nat>, y: seq<byte>, yo: set<nat>)
    requires Agree(c0, at, x, xo) && Agree(c1, |c0|, y, yo) && c0 <= c1
    ensures Agree(c1, at, x + y, xo + yo)
  {
  }

  lemma AgreeMore(code: seq<byte>, at: nat, want: seq<byte>, open: set<nat>, more: set<nat>)
    requires Agree(code, at, want, open) && open <= more
    ensures Agree(code, at, want, more)
  {
  }

  /** A hole of a buffer of n bytes; positions have 16 bits. */
  predicate InBounds(n: nat, h: nat) {
    h < n && (h + 1) % 0x10000 < n
  }

  /** patch_addr (compiler.c:300-306) */
  function Patch(code: seq<byte>, h: nat, addr: nat): (r: seq<byte>)
    requires InBounds(|code|, h)
    ensures |r| == |code|
  {
    code[h := Lo(addr)][(h + 1) % 0x10000 := Hi(addr)]
  }

  /** The operand at `off` is `t`. */
  predicate OperandIs(bytes: seq<byte>, off: nat, t: nat) {
    off + 1 < |bytes| && bytes[off] == Lo(t) && bytes[off + 1] == Hi(t)
  }

  /** Filling a hole with what is wanted there closes it. */
  lemma PatchCloses(code: seq<byte>, at: nat, want: seq<byte>, h: nat, addr: nat, open: set<nat>)
    requires |code| <= 0xFFFF && at <= h && h + 1 < |code|
    requires Agree(code, at, want, {h, h + 1} + open) && OperandIs(want, h - at, addr)
    ensures Agree(Patch(code, h, addr), at, want, open)
    ensures Patch(code, h, addr)[..at] == code[..at]
  {
    assert (h + 1) % 0x10000 == h + 1;
  }

  /** Fill several holes with the same address, as pop_scope does. */
  function PatchAll(code: seq<byte>, hs: seq<nat>, addr: nat): (r: seq<byte>)
    requires forall i :: 0 <= i < |hs| ==> InBounds(|code|, hs[i])
    ensures |r| == |code|
    decreases |hs|
  {
    if hs == [] then code else PatchAll(Patch(code, hs[0], addr), hs[1..], addr)
  }

  function Elems(hs: seq<nat>): set<nat> {
    set h | h in hs
  }

  lemma ElemsSplit(hs: seq<nat>)
    requires hs != []
    ensures Elems(hs) == {hs[0]} + Elems(hs[1..])
  {
    assert hs == [hs[0]] + hs[1..];
  }

  lemma SpreadOne(h: nat, hs: set<nat>)
    ensures Spread({h} + hs) == {h, h + 1} + Spread(hs)
  {
    assert h in {h} + hs;
    assert h + 1 in Spread({h} + hs);
  }

  lemma {:induction false} PatchAllCloses(code: seq<byte>, at: nat, want: seq<byte>, hs: seq<nat>, addr: nat,
                                          open: set<nat>)
    requires |code| <= 0xFFFF
    requires forall i :: 0 <= i < |hs| ==> at <= hs[i] && hs[i] + 1 < |code| && OperandIs(want, hs[i] - at, addr)
    requires Agree(code, at, want, Spread(Elems(hs)) + open)
    ensures forall i :: 0 <= i < |hs| ==> InBounds(|code|, hs[i])
    ensures Agree(PatchAll(code, hs, addr), at, want, open)
    ensures PatchAll(code, hs, addr)[..at] == code[..at]
    decreases |hs|
  {
    hide Agree, OperandIs, Patch, Spread, Elems;
    if hs == [] {
      assert Spread(Elems(hs)) + open == open by { NoHoles(); }
    } else {
      var h := hs[0];
      ElemsSplit(hs);
      SpreadOne(h, Elems(hs[1..]));
      assert Spread(Elems(hs)) + open == {h, h + 1} + (Spread(Elems(hs[1..])) + open);
      PatchCloses(code, at, want, h, addr, Spread(Elems(hs[1..])) + open);
      PatchAllCloses(Patch(code, h, addr), at, want, hs[1..], addr, open);
    }
  }

  lemma NoHoles()
    ensures Elems([]) == {} && Spread({}) == {} && Places({}) == {}
  {
  }

  // ----- What belongs into the holes -----

  lemma OperandLeft(x: seq<byte>, y: seq<byte>, off: nat, t: nat)
    requires OperandIs(x, off, t)
    ensures OperandIs(x + y, off, t)
  {
  }

  lemma OperandRight(x: seq<byte>, y: seq<byte>, off: nat, t: nat)
    requires OperandIs(y, off, t)
    ensures OperandIs(x + y, |x| + off, t)
  {
  }

  lemma JumpOperand(t: nat)
    ensures OperandIs(EncodeAll([Jmp(t)]), 1, t) && OperandIs(EncodeAll([FJmp(t)]), 1, t)
  {
    assert [Jmp(t)][1..] == [] && [FJmp(t)][1..] == [];
    assert EncodeAll([Jmp(t)]) == Encode(Jmp(t)) && EncodeAll([FJmp(t)]) == Encode(FJmp(t));
  }

  /** An operand within the second part of assembled code. */
  lemma WithinRight(x: seq<Instr>, y: seq<Instr>, at: nat, h: nat, t: nat)
    requires at + Size(x) <= h && OperandIs(EncodeAll(y), h - at - Size(x), t)
    ensures OperandIs(EncodeAll(x + y), h - at, t)
  {
    EncodeConcat(x, y);
    OperandRight(EncodeAll(x), EncodeAll(y), h - at - Size(x), t);
  }

  lemma WithinLeft(x: seq<Instr>, y: seq<Instr>, off: nat, t: nat)
    requires OperandIs(EncodeAll(x), off, t)
    ensures OperandIs(EncodeAll(x + y), off, t)
  {
    EncodeConcat(x, y);
    OperandLeft(EncodeAll(x), EncodeAll(y), off, t);
  }

  /** Hole `h` of the statement: a break, or a goto to the given label. */
  predicate IsHole(s: Stmt, at: nat, h: nat, l: Option<string>) {
    match l
    case None => h in BreakHoles(s, at)
    case Some(x) => (h, x) in GotoHoles(s, at)
  }

  function Goal(brk: nat, lab: Labels, l: Option<string>): nat {
    match l
    case None => brk
    case Some(x) => AddrOf(lab, x)
  }

  /** The two-pass assembler has the break address, or the address of the goto's label, in the hole. */
  lemma {:induction false} HoleWants(s: Stmt, at: nat, brk: nat, cont: nat, lab: Labels, env: Env, h: nat,
                                     l: Option<string>)
    requires IsHole(s, at, h, l)
    ensures at <= h && OperandIs(EncodeAll(Asm(s, at, brk, cont, lab, env)), h - at, Goal(brk, lab, l))
    decreases s, 1
  {
    hide OperandIs, EncodeAll, Asm, IsHole, Goal;
    match s {
      case Seq(_, _) => SeqWants(s, at, brk, cont, lab, env, h, l);
      case If(_, _) => IfWants(s, at, brk, cont, lab, env, h, l);
      case IfElse(_, _, _) => IfElseWants(s, at, brk, cont, lab, env, h, l);
      case While(_, _) => WhileWants(s, at, brk, cont, lab, env, h, l);
      case For(_, _, _, _) => ForWants(s, at, brk, cont, lab, env, h, l);
      case Do(_, _) => DoWants(s, at, brk, cont, lab, env, h, l);
      case _ => JumpWants(s, at, brk, cont, lab, env, h, l);
    }
  }

  lemma JumpWants(s: Stmt, at: nat, brk: nat, cont: nat, lab: Labels, env: Env, h: nat, l: Option<string>)
    requires !s.Seq? && !s.If? && !s.IfElse? && !s.While? && !s.For? && !s.Do?
    requires IsHole(s, at, h, l)
    ensures at <= h && OperandIs(EncodeAll(Asm(s, at, brk, cont, lab, env)), h - at, Goal(brk, lab, l))
  {
    hide OperandIs, EncodeAll;
    JumpOperand(Goal(brk, lab, l));
  }

  lemma {:induction false} DoWants(s: Stmt, at: nat, brk: nat, cont: nat, lab: Labels, env: Env, h: nat,
                                   l: Option<string>)
    requires s.Do? && IsHole(s, at, h, l)
    ensures at <= h && OperandIs(EncodeAll(Asm(s, at, brk, cont, lab, env)), h - at, Goal(brk, lab, l))
    decreases s, 0
  {
    hide OperandIs, EncodeAll, Asm, Width, ValueCode;
    AsmOfDo(s, at, brk, cont, lab, env);
    var x := Asm(s.body, at, at + Width(s.body), at, lab, env);
    HoleWants(s.body, at, at + Width(s.body), at, lab, env, h, l);
    WithinLeft(x, ValueCode(s.e, env) + [Instr.LNot, FJmp(cont)], h - at, Goal(brk, lab, l));
  }

  lemma {:induction false} SeqWants(s: Stmt, at: nat, brk: nat, cont: nat, lab: Labels, env: Env, h: nat,
                                    l: Option<string>)
    requires s.Seq? && IsHole(s, at, h, l)
    ensures at <= h && OperandIs(EncodeAll(Asm(s, at, brk, cont, lab, env)), h - at, Goal(brk, lab, l))
    decreases s, 0
  {
    hide OperandIs, EncodeAll, Asm, Width, Size;
    AsmOfSeq(s, at, brk, cont, lab, env);
    var Seq(a, b) := s;
    var t := Goal(brk, lab, l);
    var x, y := Asm(a, at, brk, cont, lab, env), Asm(b, at + Width(a), brk, cont, lab, env);
    AsmSize(a, at, brk, cont, lab, env);
    if IsHole(a, at, h, l) {
      HoleWants(a, at, brk, cont, lab, env, h, l);
      WithinLeft(x, y, h - at, t);
    } else {
      HoleWants(b, at + Width(a), brk, cont, lab, env, h, l);
      WithinRight(x, y, at, h, t);
    }
  }

  /** An operand behind a condition and its jump. */
  lemma BehindTest(e: Expr, env: Env, end: nat, rest: seq<Instr>, at: nat, h: nat, t: nat)
    requires at + ValueSize(e) + 3 <= h && OperandIs(EncodeAll(rest), h - at - ValueSize(e) - 3, t)
    ensures OperandIs(EncodeAll(TestAsm(ValueCode(e, env), end, rest)), h - at, t)
  {
    hide OperandIs, EncodeAll, ValueSize, ValueCode, Size;
    ExprSizes(e, env);
    SizeOne(FJmp(end));
    WithinRight([FJmp(end)], rest, at + ValueSize(e), h, t);
    WithinRight(ValueCode(e, env), [FJmp(end)] + rest, at, h, t);
  }

  lemma {:induction false} IfWants(s: Stmt, at: nat, brk: nat, cont: nat, lab: Labels, env: Env, h: nat,
                                   l: Option<string>)
    requires s.If? && IsHole(s, at, h, l)
    ensures at <= h && OperandIs(EncodeAll(Asm(s, at, brk, cont, lab, env)), h - at, Goal(brk, lab, l))
    decreases s, 0
  {
    hide OperandIs, EncodeAll, Asm, Width, ValueSize, ValueCode, Size;
    AsmOfIf(s, at, brk, cont, lab, env);
    var inner := at + ValueSize(s.e) + 3;
    HoleWants(s.then_, inner, brk, cont, lab, env, h, l);
    BehindTest(s.e, env, at + Width(s), Asm(s.then_, inner, brk, cont, lab, env), at, h, Goal(brk, lab, l));
  }

  lemma {:induction false} WhileWants(s: Stmt, at: nat, brk: nat, cont: nat, lab: Labels, env: Env, h: nat,
                                      l: Option<string>)
    requires s.While? && IsHole(s, at, h, l)
    ensures at <= h && OperandIs(EncodeAll(Asm(s, at, brk, cont, lab, env)), h - at, Goal(brk, lab, l))
    decreases s, 0
  {
    hide OperandIs, EncodeAll, Asm, Width, ValueSize, ValueCode, Size;
    AsmOfWhile(s, at, brk, cont, lab, env);
    var t := Goal(brk, lab, l);
    var inner, end := at + ValueSize(s.e) + 3, at + Width(s);
    var x := Asm(s.body, inner, end, at, lab, env);
    HoleWants(s.body, inner, end, at, lab, env, h, l);
    WithinLeft(x, [Jmp(at)], h - inner, t);
    BehindTest(s.e, env, end, x + [Jmp(at)], at, h, t);
  }

  lemma {:induction false} IfElseWants(s: Stmt, at: nat, brk: nat, cont: nat, lab: Labels, env: Env, h: nat,
                                       l: Option<string>)
    requires s.IfElse? && IsHole(s, at, h, l)
    ensures at <= h && OperandIs(EncodeAll(Asm(s, at, brk, cont, lab, env)), h - at, Goal(brk, lab, l))
    decreases s, 0
  {
    hide OperandIs, EncodeAll, Asm, Width, ValueSize, ValueCode, Size;
    AsmOfIfElse(s, at, brk, cont, lab, env);
    var IfElse(e, a, b) := s;
    var t := Goal(brk, lab, l);
    var then_ := at + ValueSize(e) + 3;
    var els := then_ + Width(a) + 3;
    var x := Asm(a, then_, brk, cont, lab, env);
    var y := Asm(b, els, brk, cont, lab, env);
    var over := [Jmp(at + Width(s))];
    if IsHole(a, then_, h, l) {
      HoleWants(a, then_, brk, cont, lab, env, h, l);
      WithinLeft(x, over + y, h - then_, t);
    } else {
      HoleWants(b, els, brk, cont, lab, env, h, l);
      SizeOne(Jmp(at + Width(s)));
      WithinRight(over, y, els - 3, h, t);
      AsmSize(a, then_, brk, cont, lab, env);
      WithinRight(x, over + y, then_, h, t);
    }
    BehindTest(e, env, els, x + (over + y), at, h, t);
  }

  lemma {:induction false} ForWants(s: Stmt, at: nat, brk: nat, cont: nat, lab: Labels, env: Env, h: nat,
                                    l: Option<string>)
    requires s.For? && IsHole(s, at, h, l)
    ensures at <= h && OperandIs(EncodeAll(Asm(s, at, brk, cont, lab, env)), h - at, Goal(brk, lab, l))
    decreases s, 0
  {
    hide OperandIs, EncodeAll, Asm, Width, ValueSize, ValueCode, Size, Code, DropCode, CodeSize, DropSize, BodyAt,
         PostAt;
    AsmOfFor(s, at, brk, cont, lab, env);
    var For(i, c, p, a) := s;
    var t := Goal(brk, lab, l);
    var end, post, body := at + Width(s), PostAt(s, at), BodyAt(s, at);
    var x := Asm(a, body, end, post, lab, env);
    var p0 := EffectCode(p, env);
    var t0 := x + [Jmp(post)];
    var t1 := p0 + ([Jmp(post)] + t0);
    HoleWants(a, body, end, post, lab, env, h, l);
    WithinLeft(x, [Jmp(post)], h - body, t);
    SizeOne(Jmp(post));
    WithinRight([Jmp(post)], t0, body - 3, h, t);
    ExprSizes(p, env);
    WithinRight(p0, [Jmp(post)] + t0, post, h, t);
    SizeOne(Jmp(body));
    WithinRight([Jmp(body)], t1, post - 3, h, t);
    ExprSizes(i, env);
    BehindTest(c, env, end, [Jmp(body)] + t1, at + CodeSize(i) + DropSize(i), h, t);
    assert [FJmp(end), Jmp(body)] + t1 == [FJmp(end)] + ([Jmp(body)] + t1);
    WithinRight(EffectCode(i, env), TestAsm(ValueCode(c, env), end, [Jmp(body)] + t1), at, h, t);
  }

  // ----- Whole bodies -----

  /** Outside of loops no break is left open. */
  lemma {:induction false} NoBreaksOutside(s: Stmt, at: nat)
    requires LegalStmt(s, false)
    ensures BreakHoles(s, at) == {}
    decreases s
  {
    hide Width, ValueSize;
    match s {
      case Seq(a, b) => NoBreaksOutside(a, at); NoBreaksOutside(b, at + Width(a));
      case If(e, a) => NoBreaksOutside(a, at + ValueSize(e) + 3);
      case IfElse(e, a, b) =>
        NoBreaksOutside(a, at + ValueSize(e) + 3);
        NoBreaksOutside(b, at + ValueSize(e) + 3 + Width(a) + 3);
      case _ =>
    }
  }

  /** Every goto has a label exactly when every label with an open goto is defined. */
  lemma {:induction false} GotosDefinedIff(s: Stmt, at: nat, lab: Labels)
    ensures GotosDefined(s, lab) <==> forall g :: g in GotoHoles(s, at) ==> g.1 in lab
    decreases s
  {
    hide Width, ValueSize, BodyAt;
    match s {
      case Seq(a, b) => GotosDefinedIff(a, at, lab); GotosDefinedIff(b, at + Width(a), lab);
      case If(e, a) => GotosDefinedIff(a, at + ValueSize(e) + 3, lab);
      case IfElse(e, a, b) =>
        GotosDefinedIff(a, at + ValueSize(e) + 3, lab);
        GotosDefinedIff(b, at + ValueSize(e) + 3 + Width(a) + 3, lab);
      case While(e, a) => GotosDefinedIff(a, at + ValueSize(e) + 3, lab);
      case For(_, _, _, a) => GotosDefinedIff(a, BodyAt(s, at), lab);
      case Do(a, _) => GotosDefinedIff(a, at, lab);
      case Goto(x) => assert (at + 1, x) in GotoHoles(s, at);
      case _ =>
    }
  }
}
