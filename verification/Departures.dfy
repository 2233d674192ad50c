/** What `for` and `do` really compile to. Their control flow is not that of sections 6.8.5.3 and 6.8.5.2
    of ISO C99 (and of the language's own description); here is what it is instead. */
module Departures {
  import opened Wrappers
  import opened Bytes
  import opened Bytecode
  import opened Machine
  import opened Syntax
  import opened CodeGen
  import opened Execution
  import opened ExprMeaning
  import opened Assembler
  import opened StmtMeaning

  // ----- A for never tests its condition again -----

  /** isp stands on the k-th instruction of `step` at `post`, or on the jump behind it. */
  predicate OnStep(step: seq<Instr>, post: nat, pc: nat, k: nat) {
    k <= |step| && pc == post + Size(step[..k])
  }

  ghost predicate InStep(step: seq<Instr>, post: nat, pc: nat) {
    exists k: nat :: OnStep(step, post, pc, k)
  }

  /** The k-th of straight-line instructions and the jump behind them. */
  lemma StepFetched(code: seq<byte>, post: nat, step: seq<Instr>, k: nat)
    requires CodeAt(code, post, step + [Jmp(post)]) && AllStraight(step) && post < 0x10000 && k <= |step|
    ensures var i := if k < |step| then step[k] else Jmp(post);
            var a := post + Size(step[..k]);
            && Decode(code, a) == Some(i)
            && (k < |step| ==> a + Len(i) == post + Size(step[..k + 1]) < |code|)
  {
    hide Decode, CodeAt, Size;
    var all := step + [Jmp(post)];
    assert all == step[..k] + all[k..] && all[k..][0] == all[k];
    CodeAtSplit(code, post, step[..k], all[k..]);
    FetchAt(code, post + Size(step[..k]), all[k..]);
    if k < |step| {
      assert step[..k + 1] == step[..k] + [step[k]];
      SizeConcat(step[..k], [step[k]]);
      SizeOne(step[k]);
      SomethingLeft(all[k..][1..]);
    }
  }

  lemma SomethingLeft(prog: seq<Instr>)
    requires prog != []
    ensures Size(prog) > 0
  {
  }

  /** Straight-line code that ends in a jump to its own start is never left. */
  lemma {:induction false} NeverLeft(code: seq<byte>, post: nat, step: seq<Instr>, m: Mach, n: nat, t: Mach)
    requires CodeAt(code, post, step + [Jmp(post)]) && AllStraight(step) && post < 0x10000
    requires Shaped(m.core) && InStep(step, post, m.core.pc) && Runs(code, m, n, t)
    ensures InStep(step, post, t.core.pc)
    decreases n
  {
    hide Decode, CodeAt, Size, Peek, AfterSend, AfterRecv;
    if n > 0 {
      var k: nat :| OnStep(step, post, m.core.pc, k);
      StepFetched(code, post, step, k);
      TickInStep(code, post, step, m, k);
      NeverLeft(code, post, step, MTick(code, m).m, n - 1, t);
    }
  }

  lemma TickInStep(code: seq<byte>, post: nat, step: seq<Instr>, m: Mach, k: nat)
    requires Shaped(m.core) && OnStep(step, post, m.core.pc, k) && MTick(code, m).Next? && post < |code|
    requires var i := if k < |step| then step[k] else Jmp(post);
             && Decode(code, m.core.pc) == Some(i)
             && (k < |step| ==> !i.Jmp? && !i.FJmp? && m.core.pc + Len(i) == post + Size(step[..k + 1]) < |code|)
    ensures InStep(step, post, MTick(code, m).m.core.pc)
  {
    hide Decode, Size, Peek, AfterSend, AfterRecv;
    PeekPc(code, m.core);
    var pc := MTick(code, m).m.core.pc;
    if k < |step| {
      assert OnStep(step, post, pc, k + 1);
    } else {
      JumpPc(code, m.core, post);
      assert step[..0] == [];
      assert OnStep(step, post, pc, 0) by { EmptySize(); }
    }
  }

  lemma JumpPc(code: seq<byte>, c: Core, a: nat)
    requires Shaped(c) && Decode(code, c.pc) == Some(Jmp(a))
    ensures Peek(code, c).Silent? && Peek(code, c).next.pc == Advance(code, a)
  {
    hide Decode;
  }

  /** The clauses of a `for` where they stand in the code. */
  lemma ForStep(code: seq<byte>, s: Stmt, at: nat, brk: nat, cont: nat, lab: Labels, env: Env)
    requires s.For? && CodeAt(code, at, Asm(s, at, brk, cont, lab, env))
    ensures CodeAt(code, PostAt(s, at), EffectCode(s.post, env) + [Jmp(PostAt(s, at))])
    ensures PostAt(s, at) + Size(EffectCode(s.post, env)) + 3 == BodyAt(s, at) < |code|
  {
    hide CodeAt, Size, Asm, Width, EffectCode, ValueCode, CodeSize, ValueSize, DropSize;
    AsmOfFor(s, at, brk, cont, lab, env);
    var end, post, body := at + Width(s), PostAt(s, at), BodyAt(s, at);
    var p, tail := EffectCode(s.post, env), Asm(s.body, body, end, post, lab, env) + [Jmp(post)];
    var back := [Jmp(post)];
    ExprSizes(s.init, env);
    ExprSizes(s.e, env);
    ExprSizes(s.post, env);
    SizeTwo(FJmp(end), Jmp(body));
    SizeOne(Jmp(post));
    var rest := [FJmp(end), Jmp(body)] + (p + (back + tail));
    CodeAtSplit(code, at, EffectCode(s.init, env), ValueCode(s.e, env) + rest);
    CodeAtSplit(code, at + CodeSize(s.init) + DropSize(s.init), ValueCode(s.e, env), rest);
    CodeAtSplit(code, post - 6, [FJmp(end), Jmp(body)], p + (back + tail));
    assert p + (back + tail) == (p + back) + tail;
    CodeAtSplit(code, post, p + back, tail);
    SizeConcat(p, back);
    SomethingLeft(tail);
    CodeAtFits(code, body, tail);
  }

  lemma CodeAtFits(code: seq<byte>, a: nat, prog: seq<Instr>)
    requires CodeAt(code, a, prog)
    ensures a + Size(prog) <= |code|
  {
  }

  lemma StepStraight(e: Expr, env: Env)
    ensures AllStraight(EffectCode(e, env))
  {
    hide Code;
    AllStraightCode(e, env);
  }

  /** Once a `for` has come to its post clause, execution stays inside that clause for ever: it ends in a
      jump to itself (compiler.c:873-880). So the condition is tested once, and the body, which ends in a
      jump to the post clause, is run at most once each time the `for` is entered. */
  lemma ForStaysInPostClause(code: seq<byte>, s: Stmt, at: nat, brk: nat, cont: nat, lab: Labels, env: Env, m: Mach,
                             n: nat, t: Mach)
    requires s.For? && CodeAt(code, at, Asm(s, at, brk, cont, lab, env)) && |code| <= 0xFFFF
    requires Shaped(m.core) && m.core.pc == PostAt(s, at) && Runs(code, m, n, t)
    ensures PostAt(s, at) <= t.core.pc < BodyAt(s, at)
  {
    hide CodeAt, Size, Asm, EffectCode, PostAt, BodyAt, Runs;
    var post, step := PostAt(s, at), EffectCode(s.post, env);
    ForStep(code, s, at, brk, cont, lab, env);
    StepStraight(s.post, env);
    assert step[..0] == [];
    EmptySize();
    assert OnStep(step, post, m.core.pc, 0);
    NeverLeft(code, post, step, m, n, t);
    var k: nat :| OnStep(step, post, t.core.pc, k);
    assert step == step[..k] + step[k..];
    SizeConcat(step[..k], step[k..]);
  }

  // ----- A do never starts its own next round -----

  lemma DoTestCode(code: seq<byte>, s: Stmt, at: nat, brk: nat, cont: nat, lab: Labels, env: Env)
    requires s.Do? && CodeAt(code, at, Asm(s, at, brk, cont, lab, env))
    ensures var test := at + Width(s.body);
            && CodeAt(code, test, ValueCode(s.e, env))
            && CodeAt(code, test + ValueSize(s.e), [Instr.LNot])
            && CodeAt(code, test + ValueSize(s.e) + 1, [FJmp(cont)])
            && test + ValueSize(s.e) + 4 == at + Width(s)
  {
    hide CodeAt, Size, Asm, Width, ValueCode, ValueSize;
    AsmOfDo(s, at, brk, cont, lab, env);
    var x := Asm(s.body, at, at + Width(s.body), at, lab, env);
    ExprSizes(s.e, env);
    AsmSize(s.body, at, at + Width(s.body), at, lab, env);
    SizeOne(Instr.LNot);
    assert [Instr.LNot, FJmp(cont)] == [Instr.LNot] + [FJmp(cont)];
    CodeAtSplit(code, at, x, ValueCode(s.e, env) + [Instr.LNot, FJmp(cont)]);
    CodeAtSplit(code, at + Width(s.body), ValueCode(s.e, env), [Instr.LNot, FJmp(cont)]);
    CodeAtSplit(code, at + Width(s.body) + ValueSize(s.e), [Instr.LNot], [FJmp(cont)]);
  }

  /** The test of a `do` jumps to `continue` of the loop around it when its value is not 0, and falls
      through behind the `do` when it is: the scope of the `do` itself has been popped before
      (compiler.c:923-933), and nothing leads back to the body. */
  lemma DoTestLeaves(code: seq<byte>, s: Stmt, at: nat, brk: nat, cont: nat, lab: Labels, env: Env, st: Store, w: World)
    requires s.Do? && CodeAt(code, at, Asm(s, at, brk, cont, lab, env)) && cont < 0x10000
    requires LegalValue(s.e) && Known(s.e, env) && Proper(env) && ValueHeight(s.e) <= STACK_SIZE
             && Eval(s.e, st, w).Done?
    ensures var Done(v, st', w') := Eval(s.e, st, w);
            Runs(code, MachAt(code, at + Width(s.body), RegsOf(env, [], st, w)), |ValueCode(s.e, env)| + 2,
                 MachAt(code, if v != 0 then cont else at + Width(s), RegsOf(env, [], st', w')))
  {
    hide CodeAt, Size, Asm, Width, ValueCode, ValueSize, Runs, MTick, VarsOf, SlotActs, Eval, Legal, KindOf, Known,
         ValueHeight, Proper, EndsWith;
    DoTestCode(code, s, at, brk, cont, lab, env);
    ExprSizes(s.e, env);
    var test := at + Width(s.body);
    ExpressionPreserved(s.e, env, code, test, [], st, w);
    var Done(v, st', w') := Eval(s.e, st, w);
    var r := RegsOf(env, [], st', w');
    var m0 := MachAt(code, test, RegsOf(env, [], st, w));
    var m1 := MachAt(code, test + ValueSize(s.e), r.(stack := [] + [v]));
    var m2 := MachAt(code, test + ValueSize(s.e) + 1, r.(stack := [] + [LogicalNot(v)]));
    var m3 := MachAt(code, if v != 0 then cont else at + Width(s), r);
    TickLNot(code, test + ValueSize(s.e), r, v);
    OneTick(code, m1, m2);
    TickFJmp(code, test + ValueSize(s.e) + 1, cont, r, LogicalNot(v));
    OneTick(code, m2, m3);
    RunsTransitive(code, m0, |ValueCode(s.e, env)|, m1, 1, m2);
    RunsTransitive(code, m0, |ValueCode(s.e, env)| + 1, m2, 1, m3);
  }

  lemma TickLNot(code: seq<byte>, a: nat, r: Regs, v: byte)
    requires |r.vars| == 4 && r.stack == [] && CodeAt(code, a, [Instr.LNot])
    ensures MTick(code, MachAt(code, a, r.(stack := r.stack + [v])))
            == Execution.Next(MachAt(code, a + 1, r.(stack := r.stack + [LogicalNot(v)])))
  {
    hide Decode, CodeAt;
    FetchAt(code, a, [Instr.LNot]);
    assert Drop(r.stack + [v], 1) == r.stack;
  }
}
