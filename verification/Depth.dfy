/** The operand stack of compiled code: its depth at an address is known before running, it never
    runs over or under, and every jump lands on an instruction at depth 0. */
module Depth {
  import opened Bytes
  import opened Bytecode
  import opened Syntax
  import opened CodeGen
  import opened Assembler
  import opened ExprMeaning

  /** How many stack elements an instruction reads ... */
  function Need(i: Instr): nat {
    match i
    case Dup => 1
    case Pop => 1
    case Neg => 1
    case LNot => 1
    case Not => 1
    case Bin(_) => 2
    case FJmp(_) => 1
    case Save(_) => 1
    case Send(_) => 1
    case _ => 0
  }

  /** ... and by how much it changes the depth. */
  function Change(i: Instr): int {
    match i
    case Push(_) => 1
    case Dup => 1
    case Load(_) => 1
    case Recv(_) => 1
    case Pop => -1
    case Bin(_) => -1
    case FJmp(_) => -1
    case Save(_) => -1
    case Send(_) => -1
    case _ => 0
  }

  function Sum(prog: seq<Instr>): int {
    if prog == [] then 0 else Change(prog[0]) + Sum(prog[1..])
  }

  predicate IsJump(i: Instr) {
    i.Jmp? || i.FJmp?
  }

  /** From depth `d` on every instruction finds its operands, none lifts the stack above `top`, and
      jumps leave it empty. */
  predicate Safe(prog: seq<Instr>, d: int, top: int) {
    prog == [] ||
    (&& Need(prog[0]) <= d
     && d + Change(prog[0]) <= top
     && (IsJump(prog[0]) ==> d + Change(prog[0]) == 0)
     && Safe(prog[1..], d + Change(prog[0]), top))
  }

  lemma {:induction false} SafeConcat(x: seq<Instr>, y: seq<Instr>, d: int, top: int)
    ensures Safe(x + y, d, top) <==> Safe(x, d, top) && Safe(y, d + Sum(x), top)
    ensures Sum(x + y) == Sum(x) + Sum(y)
    decreases |x|
  {
    hide Need, Change, IsJump;
    if x == [] {
      assert x + y == y;
    } else {
      assert (x + y)[0] == x[0] && (x + y)[1..] == x[1..] + y;
      SafeConcat(x[1..], y, d + Change(x[0]), top);
    }
  }

  lemma SafeOne(i: Instr, d: int, top: int)
    ensures Sum([i]) == Change(i)
    ensures Safe([i], d, top) <==> Need(i) <= d && d + Change(i) <= top && (IsJump(i) ==> d + Change(i) == 0)
  {
    hide Need, Change, IsJump;
    assert [i][1..] == [];
  }

  lemma SafeTwo(i: Instr, j: Instr, d: int, top: int)
    requires Need(i) <= d && d + Change(i) <= top && (IsJump(i) ==> d + Change(i) == 0)
    requires Need(j) <= d + Change(i) && d + Change(i) + Change(j) <= top && (IsJump(j) ==> d + Change(i) + Change(j) == 0)
    ensures Safe([i, j], d, top) && Sum([i, j]) == Change(i) + Change(j)
  {
    hide Need, Change, IsJump;
    SafeOne(i, d, top);
    SafeOne(j, d + Change(i), top);
    SafeConcat([i], [j], d, top);
    assert [i] + [j] == [i, j];
  }

  // ----- Expressions -----

  function Rise(e: Expr): int {
    if KindOf(e).Normal? then 1 else 0
  }

  /** The code of a tree keeps within its height and leaves its value, or nothing. */
  lemma {:induction false} CodeSafe(e: Expr, env: Env, d: nat, top: int)
    requires Legal(e) && d + Height(e) <= top
    ensures Safe(Code(e, env), d, top) && Sum(Code(e, env)) == Rise(e)
    decreases e, 1
  {
    hide Safe, Sum, Code, Rise, Legal, Height;
    match e {
      case Num(_) => LeafSafe(e, env, d, top);
      case Char(_) => LeafSafe(e, env, d, top);
      case Var(_) => LeafSafe(e, env, d, top);
      case Port(_) => LeafSafe(e, env, d, top);
      case Unary(_, _) => UnarySafe(e, env, d, top);
      case PreStep(_, _) => StepSafe(e, env, d, top);
      case PostStep(_, _) => StepSafe(e, env, d, top);
      case Binary(_, _, _) => BinarySafe(e, env, d, top);
      case Assign(_, _, _) => AssignSafe(e, env, d, top);
      case Comma(_, _) => CommaSafe(e, env, d, top);
      case Cond(_, _, _) => CondSafe(e, env, d, top);
      case Send(_, _) => SendSafe(e, env, d, top);
    }
  }

  lemma LeafSafe(e: Expr, env: Env, d: nat, top: int)
    requires e.Num? || e.Char? || e.Var? || e.Port?
    requires d + Height(e) <= top
    ensures Safe(Code(e, env), d, top) && Sum(Code(e, env)) == Rise(e)
  {
    if e.Num? || e.Char? {
      SafeOne(Code(e, env)[0], d, top);
    }
  }

  lemma {:induction false} ValueSafe(e: Expr, env: Env, d: nat, top: int)
    requires Legal(e) && HasValue(KindOf(e)) && d + ValueHeight(e) <= top
    ensures Safe(ValueCode(e, env), d, top) && Sum(ValueCode(e, env)) == 1
    decreases e, 2
  {
    hide Code, Safe, Sum;
    CodeSafe(e, env, d, top);
    var load := LoadCode(KindOf(e), env);
    SafeConcat(Code(e, env), load, d, top);
    if KindOf(e).OfVar? {
      SafeOne(load[0], d, top);
    } else {
      assert Code(e, env) + load == Code(e, env);
    }
  }

  lemma {:induction false} UnarySafe(e: Expr, env: Env, d: nat, top: int)
    requires e.Unary? && Legal(e) && d + Height(e) <= top
    ensures Safe(Code(e, env), d, top) && Sum(Code(e, env)) == Rise(e)
    decreases e, 0
  {
    hide Safe, Sum, ValueCode;
    ValueSafe(e.e, env, d, top);
    if e.op != Posate {
      var i := match e.op case Negative => Neg case Lognot => Instr.LNot case _ => Instr.Not;
      SafeOne(i, d + 1, top);
      SafeConcat(ValueCode(e.e, env), [i], d, top);
      assert Code(e, env) == ValueCode(e.e, env) + [i];
    } else {
      assert Code(e, env) == ValueCode(e.e, env);
    }
  }

  lemma {:induction false} StepSafe(e: Expr, env: Env, d: nat, top: int)
    requires (e.PreStep? || e.PostStep?) && Legal(e) && d + Height(e) <= top
    ensures Safe(Code(e, env), d, top) && Sum(Code(e, env)) == Rise(e)
    decreases e, 0
  {
    hide Safe, Sum;
    var x := e.e;
    CodeSafe(x, env, d, top);
    var v := VarSlot(KindOf(x), env);
    if e.PreStep? {
      FourSafe(Load(v), Push(1), Bin(StepOp(e.up)), Save(v), d, top);
      SafeConcat(Code(x, env), [Load(v), Push(1), Bin(StepOp(e.up)), Save(v)], d, top);
    } else {
      SafeOne(Load(v), d, top);
      FourSafe(Dup, Push(1), Bin(StepOp(e.up)), Save(v), d + 1, top);
      SafeConcat([Load(v)], [Dup, Push(1), Bin(StepOp(e.up)), Save(v)], d, top);
      assert [Load(v)] + [Dup, Push(1), Bin(StepOp(e.up)), Save(v)] == [Load(v), Dup, Push(1), Bin(StepOp(e.up)), Save(v)];
      SafeConcat(Code(x, env), [Load(v), Dup, Push(1), Bin(StepOp(e.up)), Save(v)], d, top);
    }
  }

  lemma FourSafe(i: Instr, j: Instr, k: Instr, l: Instr, d: nat, top: int)
    requires (i.Load? || (i.Dup? && d >= 1)) && j.Push? && k.Bin? && l.Save? && d + 2 <= top
    ensures Safe([i, j, k, l], d, top) && Sum([i, j, k, l]) == 0
  {
    hide Safe, Sum;
    SafeTwo(i, j, d, top);
    SafeTwo(k, l, d + 2, top);
    SafeConcat([i, j], [k, l], d, top);
    assert [i, j] + [k, l] == [i, j, k, l];
  }

  lemma InfixSafe(op: InfixOp, d: nat, top: int)
    requires d + 2 <= top
    ensures Safe(InfixCode(op), d + 2, top) && Sum(InfixCode(op)) == -1
  {
    hide Safe, Sum;
    match op
    case Plain(o) => SafeOne(Bin(o), d + 2, top);
    case Neq => SafeTwo(Bin(Eql), Instr.LNot, d + 2, top);
    case Gtr => SafeTwo(Bin(Lte), Instr.LNot, d + 2, top);
    case Gte => SafeTwo(Bin(Lss), Instr.LNot, d + 2, top);
  }

  lemma {:induction false} BinarySafe(e: Expr, env: Env, d: nat, top: int)
    requires e.Binary? && Legal(e) && d + Height(e) <= top
    ensures Safe(Code(e, env), d, top) && Sum(Code(e, env)) == Rise(e)
    decreases e, 0
  {
    hide Safe, Sum, ValueCode, InfixCode;
    var l, r := ValueCode(e.l, env), ValueCode(e.r, env);
    ValueSafe(e.l, env, d, top);
    ValueSafe(e.r, env, d + 1, top);
    InfixSafe(e.infix, d, top);
    SafeConcat(l, r, d, top);
    SafeConcat(l + r, InfixCode(e.infix), d, top);
  }

  lemma {:induction false} AssignSafe(e: Expr, env: Env, d: nat, top: int)
    requires e.Assign? && Legal(e) && d + Height(e) <= top
    ensures Safe(Code(e, env), d, top) && Sum(Code(e, env)) == Rise(e)
    decreases e, 0
  {
    hide Safe, Sum, ValueCode, InfixCode;
    var l, r := Code(e.l, env), ValueCode(e.r, env);
    var v := VarSlot(KindOf(e.l), env);
    CodeSafe(e.l, env, d, top);
    if e.asg.None? {
      ValueSafe(e.r, env, d, top);
      SafeOne(Save(v), d + 1, top);
      SafeConcat(l, r, d, top);
      SafeConcat(l + r, [Save(v)], d, top);
    } else {
      ValueSafe(e.r, env, d + 1, top);
      SafeOne(Load(v), d, top);
      SafeTwo(Bin(e.asg.value), Save(v), d + 2, top);
      SafeConcat(l, [Load(v)], d, top);
      SafeConcat(l + [Load(v)], r, d, top);
      SafeConcat(l + [Load(v)] + r, [Bin(e.asg.value), Save(v)], d, top);
    }
  }

  lemma DropSafe(e: Expr, d: nat, top: int)
    requires d <= top
    ensures Safe(DropCode(KindOf(e)), d + Rise(e), top) && Sum(DropCode(KindOf(e))) == -Rise(e)
  {
    if KindOf(e).Normal? {
      SafeOne(Instr.Pop, d + 1, top);
    }
  }

  lemma {:induction false} CommaSafe(e: Expr, env: Env, d: nat, top: int)
    requires e.Comma? && Legal(e) && d + Height(e) <= top
    ensures Safe(Code(e, env), d, top) && Sum(Code(e, env)) == Rise(e)
    decreases e, 0
  {
    hide Safe, Sum, ValueCode, DropCode;
    CodeSafe(e.l, env, d, top);
    CodeSafe(e.r, env, d, top);
    DropSafe(e.l, d, top);
    var drop := DropCode(KindOf(e.l));
    SafeConcat(Code(e.l, env), drop, d, top);
    SafeConcat(Code(e.l, env) + drop, Code(e.r, env), d, top);
  }

  lemma {:induction false} CondSafe(e: Expr, env: Env, d: nat, top: int)
    requires e.Cond? && Legal(e) && d + Height(e) <= top
    ensures Safe(Code(e, env), d, top) && Sum(Code(e, env)) == Rise(e)
    decreases e, 0
  {
    hide Safe, Sum, ValueCode;
    var c, a, b := ValueCode(e.c0, env), ValueCode(e.a, env), ValueCode(e.b, env);
    ValueSafe(e.c0, env, d, top);
    ValueSafe(e.a, env, d + 1, top);
    ValueSafe(e.b, env, d + 1, top);
    SafeOne(Bin(LAnd), d + 2, top);
    SafeOne(Bin(LOr), d + 2, top);
    SafeConcat(c, a, d, top);
    SafeConcat(c + a, [Bin(LAnd)], d, top);
    SafeConcat(c + a + [Bin(LAnd)], b, d, top);
    SafeConcat(c + a + [Bin(LAnd)] + b, [Bin(LOr)], d, top);
  }

  /** The code of a send, grouped as it is built. */
  lemma SendCode(e: Expr, env: Env)
    requires e.Send?
    ensures var l, r := e.l, e.r;
            if KindOf(r).OfPort? then
              var last := if KindOf(l).OfVar? then Save(VarSlot(KindOf(l), env)) else Instr.Send(PortSlot(KindOf(l), env));
              Code(e, env) == Code(l, env) + Code(r, env) + [Recv(PortSlot(KindOf(r), env))] + [last]
            else
              Code(e, env) == Code(l, env) + ValueCode(r, env) + [Instr.Send(PortSlot(KindOf(l), env))]
  {
    hide ValueCode, SlotOf, VarSlot, PortSlot;
  }

  lemma {:induction false} SendSafe(e: Expr, env: Env, d: nat, top: int)
    requires e.Send? && Legal(e) && d + Height(e) <= top
    ensures Safe(Code(e, env), d, top) && Sum(Code(e, env)) == Rise(e)
    decreases e, 0
  {
    hide Safe, Sum, Code, ValueCode, VarSlot, PortSlot;
    var l, r := e.l, e.r;
    SendCode(e, env);
    CodeSafe(l, env, d, top);
    if KindOf(r).OfPort? {
      var recv := Recv(PortSlot(KindOf(r), env));
      var last := if KindOf(l).OfVar? then Save(VarSlot(KindOf(l), env)) else Instr.Send(PortSlot(KindOf(l), env));
      CodeSafe(r, env, d, top);
      SafeOne(recv, d, top);
      SafeOne(last, d + 1, top);
      SafeConcat(Code(l, env), Code(r, env), d, top);
      SafeConcat(Code(l, env) + Code(r, env), [recv], d, top);
      SafeConcat(Code(l, env) + Code(r, env) + [recv], [last], d, top);
    } else {
      var last := Instr.Send(PortSlot(KindOf(l), env));
      ValueSafe(r, env, d, top);
      SafeOne(last, d + 1, top);
      SafeConcat(Code(l, env), ValueCode(r, env), d, top);
      SafeConcat(Code(l, env) + ValueCode(r, env), [last], d, top);
    }
  }

  // ----- Statements -----

  lemma SafeConcat3(x: seq<Instr>, y: seq<Instr>, z: seq<Instr>, d: int, top: int)
    ensures Safe(x + (y + z), d, top) <==> Safe(x, d, top) && Safe(y, d + Sum(x), top) && Safe(z, d + Sum(x) + Sum(y), top)
    ensures Sum(x + (y + z)) == Sum(x) + Sum(y) + Sum(z)
  {
    hide Safe, Sum;
    SafeConcat(y, z, d + Sum(x), top);
    SafeConcat(x, y + z, d, top);
  }

  /** Code that starts and ends with an empty stack and keeps within `top` in between. */
  predicate Level(prog: seq<Instr>, top: nat) {
    Safe(prog, 0, top) && Sum(prog) == 0
  }

  lemma LevelConcat(x: seq<Instr>, y: seq<Instr>, top: nat)
    requires Level(x, top) && Level(y, top)
    ensures Level(x + y, top)
  {
    SafeConcat(x, y, 0, top);
  }

  lemma JumpLevel(t: nat, top: nat)
    ensures Level([Jmp(t)], top)
  {
    SafeOne(Jmp(t), 0, top);
  }

  lemma ExprLevel(e: Expr, env: Env, top: nat)
    requires Legal(e) && ValueHeight(e) <= top
    ensures Level(EffectCode(e, env), top)
  {
    hide Safe, Sum, Code, DropCode, Legal;
    CodeSafe(e, env, 0, top);
    DropSafe(e, 0, top);
    SafeConcat(Code(e, env), DropCode(KindOf(e)), 0, top);
  }

  /** A condition and the jump behind it, followed by level code. */
  lemma TestLevel(e: Expr, env: Env, t: nat, rest: seq<Instr>, top: nat)
    requires LegalValue(e) && ValueHeight(e) <= top && Level(rest, top)
    ensures Level(TestAsm(ValueCode(e, env), t, rest), top)
  {
    hide Safe, Sum, ValueCode, Legal, HasValue, KindOf;
    ValueSafe(e, env, 0, top);
    SafeOne(FJmp(t), 1, top);
    SafeConcat3(ValueCode(e, env), [FJmp(t)], rest, 0, top);
  }

  /** The code of a statement starts and ends with an empty stack and never needs more than its
      expressions do. */
  lemma {:induction false} StmtLevel(s: Stmt, inLoop: bool, at: nat, brk: nat, cont: nat, lab: Labels, env: Env,
                                     top: nat)
    requires LegalStmt(s, inLoop) && Peak(s) <= top
    ensures Level(Asm(s, at, brk, cont, lab, env), top)
    decreases s, 1
  {
    hide Level, Asm, LegalStmt, Peak;
    match s {
      case ExprStmt(_) => ShortLevel(s, inLoop, at, brk, cont, lab, env, top);
      case Seq(_, _) => SeqLevel(s, inLoop, at, brk, cont, lab, env, top);
      case If(_, _) => TestedLevel(s, inLoop, at, brk, cont, lab, env, top);
      case IfElse(_, _, _) => IfElseLevel(s, inLoop, at, brk, cont, lab, env, top);
      case While(_, _) => TestedLevel(s, inLoop, at, brk, cont, lab, env, top);
      case For(_, _, _, _) => ForLevel(s, inLoop, at, brk, cont, lab, env, top);
      case Do(_, _) => DoLevel(s, inLoop, at, brk, cont, lab, env, top);
      case _ => ShortLevel(s, inLoop, at, brk, cont, lab, env, top);
    }
  }

  lemma ShortLevel(s: Stmt, inLoop: bool, at: nat, brk: nat, cont: nat, lab: Labels, env: Env, top: nat)
    requires !s.Seq? && !s.If? && !s.IfElse? && !s.While? && !s.For? && !s.Do?
    requires LegalStmt(s, inLoop) && Peak(s) <= top
    ensures Level(Asm(s, at, brk, cont, lab, env), top)
  {
    hide Level, Code, DropCode, Legal, KindOf, ValueHeight;
    EmptyLevel(top);
    HaltLevel(top);
    if s.ExprStmt? {
      ExprLevel(s.e, env, top);
    } else if s.Break? || s.Continue? || s.Goto? {
      JumpLevel(Asm(s, at, brk, cont, lab, env)[0].addr, top);
    }
  }

  lemma {:induction false} SeqLevel(s: Stmt, inLoop: bool, at: nat, brk: nat, cont: nat, lab: Labels, env: Env,
                                    top: nat)
    requires s.Seq? && LegalStmt(s, inLoop) && Peak(s) <= top
    ensures Level(Asm(s, at, brk, cont, lab, env), top)
    decreases s, 0
  {
    hide Level, Asm, Width;
    AsmOfSeq(s, at, brk, cont, lab, env);
    StmtLevel(s.first, inLoop, at, brk, cont, lab, env, top);
    StmtLevel(s.rest, inLoop, at + Width(s.first), brk, cont, lab, env, top);
    LevelConcat(Asm(s.first, at, brk, cont, lab, env), Asm(s.rest, at + Width(s.first), brk, cont, lab, env), top);
  }

  lemma HaltLevel(top: nat)
    ensures Level([Instr.Halt], top)
  {
    SafeOne(Instr.Halt, 0, top);
  }

  lemma EmptyLevel(top: nat)
    ensures Level([], top)
  {
  }

  lemma {:induction false} TestedLevel(s: Stmt, inLoop: bool, at: nat, brk: nat, cont: nat, lab: Labels, env: Env,
                                       top: nat)
    requires (s.If? || s.While?) && LegalStmt(s, inLoop) && Peak(s) <= top
    ensures Level(Asm(s, at, brk, cont, lab, env), top)
    decreases s, 0
  {
    hide Level, ValueCode, Legal, KindOf, ValueHeight, HasValue, Width, ValueSize, Asm;
    var end := at + Width(s);
    var inner := at + ValueSize(s.e) + 3;
    if s.If? {
      AsmOfIf(s, at, brk, cont, lab, env);
      StmtLevel(s.then_, inLoop, inner, brk, cont, lab, env, top);
      TestLevel(s.e, env, end, Asm(s.then_, inner, brk, cont, lab, env), top);
    } else {
      AsmOfWhile(s, at, brk, cont, lab, env);
      var x := Asm(s.body, inner, end, at, lab, env);
      StmtLevel(s.body, true, inner, end, at, lab, env, top);
      JumpLevel(at, top);
      LevelConcat(x, [Jmp(at)], top);
      TestLevel(s.e, env, end, x + [Jmp(at)], top);
    }
  }

  lemma {:induction false} IfElseLevel(s: Stmt, inLoop: bool, at: nat, brk: nat, cont: nat, lab: Labels, env: Env,
                                       top: nat)
    requires s.IfElse? && LegalStmt(s, inLoop) && Peak(s) <= top
    ensures Level(Asm(s, at, brk, cont, lab, env), top)
    decreases s, 0
  {
    hide Level, Code, ValueCode, DropCode, Legal, KindOf, ValueHeight, HasValue, Width, ValueSize, Asm;
    AsmOfIfElse(s, at, brk, cont, lab, env);
    var IfElse(e, a, b) := s;
    var then_ := at + ValueSize(e) + 3;
    var els := then_ + Width(a) + 3;
    var x := Asm(a, then_, brk, cont, lab, env);
    var y := Asm(b, els, brk, cont, lab, env);
    StmtLevel(a, inLoop, then_, brk, cont, lab, env, top);
    StmtLevel(b, inLoop, els, brk, cont, lab, env, top);
    JumpLevel(at + Width(s), top);
    LevelConcat([Jmp(at + Width(s))], y, top);
    LevelConcat(x, [Jmp(at + Width(s))] + y, top);
    TestLevel(e, env, els, x + ([Jmp(at + Width(s))] + y), top);
  }

  lemma {:induction false} ForLevel(s: Stmt, inLoop: bool, at: nat, brk: nat, cont: nat, lab: Labels, env: Env,
                                    top: nat)
    requires s.For? && LegalStmt(s, inLoop) && Peak(s) <= top
    ensures Level(Asm(s, at, brk, cont, lab, env), top)
    decreases s, 0
  {
    hide Level, Code, ValueCode, DropCode, Legal, KindOf, ValueHeight, HasValue, Width, ValueSize, DropSize, CodeSize,
         BodyAt, PostAt, Asm;
    AsmOfFor(s, at, brk, cont, lab, env);
    var For(i, c, p, a) := s;
    var end, post, body := at + Width(s), PostAt(s, at), BodyAt(s, at);
    var x := Asm(a, body, end, post, lab, env);
    var p0 := EffectCode(p, env);
    var t0 := x + [Jmp(post)];
    var t1 := p0 + ([Jmp(post)] + t0);
    StmtLevel(a, true, body, end, post, lab, env, top);
    JumpLevel(post, top);
    JumpLevel(body, top);
    LevelConcat(x, [Jmp(post)], top);
    LevelConcat([Jmp(post)], t0, top);
    ExprLevel(p, env, top);
    LevelConcat(p0, [Jmp(post)] + t0, top);
    LevelConcat([Jmp(body)], t1, top);
    TestLevel(c, env, end, [Jmp(body)] + t1, top);
    assert [FJmp(end), Jmp(body)] + t1 == [FJmp(end)] + ([Jmp(body)] + t1);
    ExprLevel(i, env, top);
    LevelConcat(EffectCode(i, env), TestAsm(ValueCode(c, env), end, [Jmp(body)] + t1), top);
  }

  lemma {:induction false} DoLevel(s: Stmt, inLoop: bool, at: nat, brk: nat, cont: nat, lab: Labels, env: Env, top: nat)
    requires s.Do? && LegalStmt(s, inLoop) && Peak(s) <= top
    ensures Level(Asm(s, at, brk, cont, lab, env), top)
    decreases s, 0
  {
    hide Safe, Sum, Code, ValueCode, DropCode, Legal, KindOf, ValueHeight, HasValue, Width, ValueSize, Asm;
    AsmOfDo(s, at, brk, cont, lab, env);
    var x := Asm(s.body, at, at + Width(s.body), at, lab, env);
    StmtLevel(s.body, true, at, at + Width(s.body), at, lab, env, top);
    ValueSafe(s.e, env, 0, top);
    SafeTwo(Instr.LNot, FJmp(cont), 1, top);
    SafeConcat(ValueCode(s.e, env), [Instr.LNot, FJmp(cont)], 0, top);
    SafeConcat(x, ValueCode(s.e, env) + [Instr.LNot, FJmp(cont)], 0, top);
  }

  // ----- Positions in a program -----

  /** The static depth before the k-th instruction. */
  function DepthAt(prog: seq<Instr>, k: nat): int
    requires k <= |prog|
  {
    Sum(prog[..k])
  }

  /** Address `t` holds an instruction, or is the end, and the stack is empty there. */
  ghost predicate Landing(prog: seq<Instr>, t: nat) {
    exists j: nat :: LandsOn(prog, t, j)
  }

  predicate LandsOn(prog: seq<Instr>, t: nat, j: nat) {
    j <= |prog| && Address(prog, j) == t && DepthAt(prog, j) == 0
  }

  /** `part` is the instructions from the i-th on, at address `at` and static depth `d`. */
  predicate Piece(prog: seq<Instr>, i: nat, part: seq<Instr>, at: nat, d: int) {
    && i + |part| <= |prog| && prog[i..i + |part|] == part
    && Address(prog, i) == at && DepthAt(prog, i) == d
  }

  lemma PieceSplit(prog: seq<Instr>, i: nat, x: seq<Instr>, y: seq<Instr>, at: nat, d: int)
    requires Piece(prog, i, x + y, at, d)
    ensures Piece(prog, i, x, at, d) && Piece(prog, i + |x|, y, at + Size(x), d + Sum(x))
  {
    hide Piece, Size, Sum, Safe, Address, DepthAt;
    PieceOpen(prog, i, x, y, at, d);
    SliceParts(prog, i, x, y);
    PrefixGrows(prog, i, x);
    PieceFold(prog, i, x, at, d);
    PieceFold(prog, i + |x|, y, at + Size(x), d + Sum(x));
  }

  lemma PieceOpen(prog: seq<Instr>, i: nat, x: seq<Instr>, y: seq<Instr>, at: nat, d: int)
    requires Piece(prog, i, x + y, at, d)
    ensures i + |x| + |y| <= |prog| && prog[i..i + |x + y|] == x + y
    ensures Address(prog, i) == at && DepthAt(prog, i) == d
  {
    hide Address, DepthAt;
  }

  lemma PieceFold(prog: seq<Instr>, i: nat, x: seq<Instr>, at: nat, d: int)
    requires i + |x| <= |prog| && prog[i..i + |x|] == x
    requires Address(prog, i) == at && DepthAt(prog, i) == d
    ensures Piece(prog, i, x, at, d)
  {
    hide Address, DepthAt;
  }

  lemma PrefixGrows(prog: seq<Instr>, i: nat, x: seq<Instr>)
    requires i + |x| <= |prog| && prog[..i + |x|] == prog[..i] + x
    ensures Address(prog, i + |x|) == Address(prog, i) + Size(x)
    ensures DepthAt(prog, i + |x|) == DepthAt(prog, i) + Sum(x)
  {
    hide Size, Sum, Safe;
    SizeConcat(prog[..i], x);
    SafeConcat(prog[..i], x, 0, 0);
  }

  lemma SliceParts(prog: seq<Instr>, i: nat, x: seq<Instr>, y: seq<Instr>)
    requires i + |x| + |y| <= |prog| && prog[i..i + |x + y|] == x + y
    ensures prog[i..i + |x|] == x && prog[i + |x|..i + |x| + |y|] == y
    ensures prog[..i + |x|] == prog[..i] + x
  {
    var s := prog[i..i + |x + y|];
    assert prog[i..i + |x|] == s[..|x|];
    assert prog[i + |x|..i + |x| + |y|] == s[|x|..];
  }

  lemma PieceLands(prog: seq<Instr>, i: nat, part: seq<Instr>, at: nat)
    requires Piece(prog, i, part, at, 0) && Sum(part) == 0
    ensures Landing(prog, at) && Landing(prog, at + Size(part))
  {
    hide Size, Sum;
    assert LandsOn(prog, at, i);
    assert part + [] == part;
    PieceSplit(prog, i, part, [], at, 0);
    assert LandsOn(prog, at + Size(part), i + |part|);
  }

  // ----- Every jump lands -----

  /** The addresses within `s` at which statements begin and end; labels are among them. */
  function Seams(s: Stmt, at: nat): set<nat>
    decreases s, 1
  {
    {at, at + Width(s)} + SeamsWithin(s, at)
  }

  function SeamsWithin(s: Stmt, at: nat): set<nat>
    decreases s, 0
  {
    match s
    case Seq(a, b) => Seams(a, at) + Seams(b, at + Width(a))
    case If(e, a) => Seams(a, at + ValueSize(e) + 3)
    case IfElse(e, a, b) => Seams(a, at + ValueSize(e) + 3) + Seams(b, at + ValueSize(e) + 3 + Width(a) + 3)
    case While(e, a) => Seams(a, at + ValueSize(e) + 3)
    case For(_, _, _, a) => {PostAt(s, at)} + Seams(a, BodyAt(s, at))
    case Do(a, _) => Seams(a, at)
    case _ => {}
  }

  ghost predicate AllLand(prog: seq<Instr>, ts: set<nat>) {
    forall t :: t in ts ==> Landing(prog, t)
  }

  /** The code behind a condition and its jump. */
  lemma TestSplit(prog: seq<Instr>, i: nat, e: Expr, env: Env, t: nat, rest: seq<Instr>, at: nat)
    requires LegalValue(e) && Piece(prog, i, TestAsm(ValueCode(e, env), t, rest), at, 0)
    ensures Piece(prog, i + |ValueCode(e, env)| + 1, rest, at + ValueSize(e) + 3, 0)
  {
    hide Piece, ValueCode, Sum, Size, ValueSize, Legal, HasValue, Safe;
    var j := i + |ValueCode(e, env)|;
    ValueSafe(e, env, 0, ValueHeight(e));
    ExprSizes(e, env);
    PieceSplit(prog, i, ValueCode(e, env), [FJmp(t)] + rest, at, 0);
    SafeOne(FJmp(t), 1, 1);
    SizeOne(FJmp(t));
    PieceSplit(prog, j, [FJmp(t)], rest, at + ValueSize(e), 1);
  }

  lemma StmtSum(s: Stmt, inLoop: bool, at: nat, brk: nat, cont: nat, lab: Labels, env: Env)
    requires LegalStmt(s, inLoop)
    ensures Sum(Asm(s, at, brk, cont, lab, env)) == 0
  {
    hide LegalStmt, Asm, Sum;
    StmtLevel(s, inLoop, at, brk, cont, lab, env, Peak(s));
  }

  /** Where statements begin and end there are instructions, or the end, and the stack is empty. */
  lemma {:induction false} SeamsLand(prog: seq<Instr>, i: nat, s: Stmt, inLoop: bool, at: nat, brk: nat, cont: nat,
                                     lab: Labels, env: Env)
    requires LegalStmt(s, inLoop) && Piece(prog, i, Asm(s, at, brk, cont, lab, env), at, 0)
    ensures AllLand(prog, Seams(s, at))
    decreases s, 1
  {
    hide Asm, Seams, AllLand, Piece, ValueCode, LegalStmt, Width, ValueSize, BodyAt, PostAt, Landing, Size, Sum;
    StmtSum(s, inLoop, at, brk, cont, lab, env);
    AsmSize(s, at, brk, cont, lab, env);
    PieceLands(prog, i, Asm(s, at, brk, cont, lab, env), at);
    LegalParts(s, inLoop);
    match s {
      case Seq(a, b) =>
        AsmOfSeq(s, at, brk, cont, lab, env);
        var x := Asm(a, at, brk, cont, lab, env);
        StmtSum(a, inLoop, at, brk, cont, lab, env);
        AsmSize(a, at, brk, cont, lab, env);
        PieceSplit(prog, i, x, Asm(b, at + Width(a), brk, cont, lab, env), at, 0);
        SeamsLand(prog, i, a, inLoop, at, brk, cont, lab, env);
        SeamsLand(prog, i + |x|, b, inLoop, at + Width(a), brk, cont, lab, env);
      case If(e, a) =>
        AsmOfIf(s, at, brk, cont, lab, env);
        var x := Asm(a, at + ValueSize(e) + 3, brk, cont, lab, env);
        TestSplit(prog, i, e, env, at + Width(s), x, at);
        SeamsLand(prog, i + |ValueCode(e, env)| + 1, a, inLoop, at + ValueSize(e) + 3, brk, cont, lab, env);
      case IfElse(_, _, _) => IfElseSeamsLand(prog, i, s, inLoop, at, brk, cont, lab, env);
      case While(e, a) =>
        AsmOfWhile(s, at, brk, cont, lab, env);
        var end := at + Width(s);
        var x := Asm(a, at + ValueSize(e) + 3, end, at, lab, env);
        TestSplit(prog, i, e, env, end, x + [Jmp(at)], at);
        PieceSplit(prog, i + |ValueCode(e, env)| + 1, x, [Jmp(at)], at + ValueSize(e) + 3, 0);
        SeamsLand(prog, i + |ValueCode(e, env)| + 1, a, true, at + ValueSize(e) + 3, end, at, lab, env);
      case For(_, _, _, _) => ForSeamsLand(prog, i, s, inLoop, at, brk, cont, lab, env);
      case Do(a, e) =>
        AsmOfDo(s, at, brk, cont, lab, env);
        var x := Asm(a, at, at + Width(a), at, lab, env);
        PieceSplit(prog, i, x, ValueCode(e, env) + [Instr.LNot, FJmp(cont)], at, 0);
        SeamsLand(prog, i, a, true, at, at + Width(a), at, lab, env);
      case _ =>
    }
    SeamsFold(prog, s, at);
  }

  lemma {:induction false} IfElseSeamsLand(prog: seq<Instr>, i: nat, s: Stmt, inLoop: bool, at: nat, brk: nat,
                                           cont: nat, lab: Labels, env: Env)
    requires s.IfElse? && LegalStmt(s, inLoop) && Piece(prog, i, Asm(s, at, brk, cont, lab, env), at, 0)
    ensures AllLand(prog, Seams(s.then_, at + ValueSize(s.e) + 3))
    ensures AllLand(prog, Seams(s.else_, at + ValueSize(s.e) + 3 + Width(s.then_) + 3))
    decreases s, 0
  {
    hide Piece, Asm, LegalStmt, Width, ValueSize, Landing, LegalValue, Seams, AllLand;
    LegalParts(s, inLoop);
    var then_ := at + ValueSize(s.e) + 3;
    var els := then_ + Width(s.then_) + 3;
    var j, k := IfElsePieces(prog, i, s.e, s.then_, s.else_, inLoop, at, brk, cont, lab, env);
    SeamsLand(prog, j, s.then_, inLoop, then_, brk, cont, lab, env);
    SeamsLand(prog, k, s.else_, inLoop, els, brk, cont, lab, env);
  }

  lemma SeamsFold(prog: seq<Instr>, s: Stmt, at: nat)
    requires Landing(prog, at) && Landing(prog, at + Width(s))
    requires s.Seq? ==> AllLand(prog, Seams(s.first, at)) && AllLand(prog, Seams(s.rest, at + Width(s.first)))
    requires s.If? || s.IfElse? ==> AllLand(prog, Seams(s.then_, at + ValueSize(s.e) + 3))
    requires s.IfElse? ==> AllLand(prog, Seams(s.else_, at + ValueSize(s.e) + 3 + Width(s.then_) + 3))
    requires s.While? ==> AllLand(prog, Seams(s.body, at + ValueSize(s.e) + 3))
    requires s.For? ==> Landing(prog, PostAt(s, at)) && AllLand(prog, Seams(s.body, BodyAt(s, at)))
    requires s.Do? ==> AllLand(prog, Seams(s.body, at))
    ensures AllLand(prog, Seams(s, at))
  {
    hide AllLand, Width, ValueSize, PostAt, BodyAt, Landing;
    var ends, inner := {at, at + Width(s)}, SeamsWithin(s, at);
    EndsLand(prog, at, at + Width(s));
    if s.Seq? {
      UnionLands(prog, Seams(s.first, at), Seams(s.rest, at + Width(s.first)));
    } else if s.IfElse? {
      UnionLands(prog, Seams(s.then_, at + ValueSize(s.e) + 3), Seams(s.else_, at + ValueSize(s.e) + 3 + Width(s.then_) + 3));
    } else if s.For? {
      EndsLand(prog, PostAt(s, at), PostAt(s, at));
      UnionLands(prog, {PostAt(s, at)}, Seams(s.body, BodyAt(s, at)));
    } else {
      EmptyLands(prog);
    }
    UnionLands(prog, ends, inner);
  }

  lemma EndsLand(prog: seq<Instr>, a: nat, b: nat)
    requires Landing(prog, a) && Landing(prog, b)
    ensures AllLand(prog, {a, b})
    ensures a == b ==> AllLand(prog, {a})
  {
    hide Landing;
  }

  lemma EmptyLands(prog: seq<Instr>)
    ensures AllLand(prog, {})
  {
  }

  lemma UnionLands(prog: seq<Instr>, x: set<nat>, y: set<nat>)
    requires AllLand(prog, x) && AllLand(prog, y)
    ensures AllLand(prog, x + y)
  {
    hide Landing;
  }

  lemma IfElsePieces(prog: seq<Instr>, i: nat, e: Expr, a: Stmt, b: Stmt, inLoop: bool, at: nat, brk: nat, cont: nat,
                     lab: Labels, env: Env)
    returns (j: nat, k: nat)
    requires LegalValue(e) && LegalStmt(a, inLoop)
             && Piece(prog, i, Asm(IfElse(e, a, b), at, brk, cont, lab, env), at, 0)
    ensures var then_ := at + ValueSize(e) + 3;
            var els := then_ + Width(a) + 3;
            && Piece(prog, j, Asm(a, then_, brk, cont, lab, env), then_, 0)
            && Piece(prog, k, Asm(b, els, brk, cont, lab, env), els, 0)
  {
    hide Asm, Piece, ValueCode, LegalStmt, Width, ValueSize, Size, Sum, Safe, LegalValue;
    AsmOfIfElse(IfElse(e, a, b), at, brk, cont, lab, env);
    var then_ := at + ValueSize(e) + 3;
    var els := then_ + Width(a) + 3;
    var x := Asm(a, then_, brk, cont, lab, env);
    var y := Asm(b, els, brk, cont, lab, env);
    var over := Jmp(at + Width(IfElse(e, a, b)));
    j := i + |ValueCode(e, env)| + 1;
    k := j + |x| + 1;
    TestSplit(prog, i, e, env, els, x + ([over] + y), at);
    StmtSum(a, inLoop, then_, brk, cont, lab, env);
    AsmSize(a, then_, brk, cont, lab, env);
    PieceSplit(prog, j, x, [over] + y, then_, 0);
    JumpSum(over.addr);
    PieceSplit(prog, j + |x|, [over], y, then_ + Width(a), 0);
  }

  lemma {:induction false} ForSeamsLand(prog: seq<Instr>, i: nat, s: Stmt, inLoop: bool, at: nat, brk: nat,
                                        cont: nat, lab: Labels, env: Env)
    requires s.For? && LegalStmt(s, inLoop) && Piece(prog, i, Asm(s, at, brk, cont, lab, env), at, 0)
    ensures Landing(prog, PostAt(s, at)) && AllLand(prog, Seams(s.body, BodyAt(s, at)))
    decreases s, 0
  {
    hide Asm, Seams, AllLand, Piece, Code, ValueCode, DropCode, LegalStmt, Width, ValueSize, DropSize, CodeSize,
         Landing, Size, Sum, Level, Safe;
    AsmOfFor(s, at, brk, cont, lab, env);
    LegalParts(s, inLoop);
    var For(i0, c, p, a) := s;
    var end, post, body := at + Width(s), PostAt(s, at), BodyAt(s, at);
    var x := Asm(a, body, end, post, lab, env);
    var p0 := EffectCode(p, env);
    var first := EffectCode(i0, env);
    var rest := p0 + ([Jmp(post)] + (x + [Jmp(post)]));
    assert [FJmp(end), Jmp(body)] + rest == [FJmp(end)] + ([Jmp(body)] + rest);
    ExprSum(i0, env);
    ExprSizes(i0, env);
    PieceSplit(prog, i, first, TestAsm(ValueCode(c, env), end, [Jmp(body)] + rest), at, 0);
    var at1 := at + CodeSize(i0) + DropSize(i0);
    TestSplit(prog, i + |first|, c, env, end, [Jmp(body)] + rest, at1);
    var j := i + |first| + |ValueCode(c, env)| + 1;
    JumpSum(body);
    PieceSplit(prog, j, [Jmp(body)], rest, at1 + ValueSize(c) + 3, 0);
    ExprSum(p, env);
    ExprSizes(p, env);
    PieceSplit(prog, j + 1, p0, [Jmp(post)] + (x + [Jmp(post)]), post, 0);
    PieceLands(prog, j + 1, p0, post);
    JumpSum(post);
    PieceSplit(prog, j + 1 + |p0|, [Jmp(post)], x + [Jmp(post)], post + CodeSize(p) + DropSize(p), 0);
    PieceSplit(prog, j + 2 + |p0|, x, [Jmp(post)], body, 0);
    SeamsLand(prog, j + 2 + |p0|, a, true, body, end, post, lab, env);
  }

  lemma ExprSum(e: Expr, env: Env)
    requires Legal(e)
    ensures Sum(EffectCode(e, env)) == 0
  {
    hide Sum, Code, DropCode;
    ExprLevel(e, env, ValueHeight(e));
  }

  lemma JumpSum(t: nat)
    ensures Sum([Jmp(t)]) == 0 && Size([Jmp(t)]) == 3
  {
    SafeOne(Jmp(t), 0, 0);
    SizeOne(Jmp(t));
  }

  /** Labels stand where statements begin. */
  lemma {:induction false} LabelsAtSeams(s: Stmt, at: nat, acc: Labels, x: string)
    requires x in Defs(s, at, acc)
    ensures Defs(s, at, acc)[x] in Seams(s, at) || (x in acc && Defs(s, at, acc)[x] == acc[x])
    decreases s
  {
    hide Width, ValueSize, BodyAt;
    match s {
      case Seq(a, b) =>
        LabelsAtSeams(b, at + Width(a), Defs(a, at, acc), x);
        if x in Defs(a, at, acc) {
          LabelsAtSeams(a, at, acc, x);
        }
      case If(e, a) => LabelsAtSeams(a, at + ValueSize(e) + 3, acc, x);
      case IfElse(e, a, b) =>
        var then_ := at + ValueSize(e) + 3;
        LabelsAtSeams(b, then_ + Width(a) + 3, Defs(a, then_, acc), x);
        if x in Defs(a, then_, acc) {
          LabelsAtSeams(a, then_, acc, x);
        }
      case While(e, a) => LabelsAtSeams(a, at + ValueSize(e) + 3, acc, x);
      case For(_, _, _, a) => LabelsAtSeams(a, BodyAt(s, at), acc, x);
      case Do(a, _) => LabelsAtSeams(a, at, acc, x);
      case _ =>
    }
  }

  predicate Targets(part: seq<Instr>, ts: set<nat>) {
    forall k :: 0 <= k < |part| && IsJump(part[k]) ==> part[k].addr in ts
  }

  lemma TargetsConcat(x: seq<Instr>, y: seq<Instr>, ts: set<nat>)
    requires Targets(x, ts) && Targets(y, ts)
    ensures Targets(x + y, ts)
  {
  }

  lemma {:induction false} ExprTargets(e: Expr, env: Env, ts: set<nat>)
    ensures Targets(EffectCode(e, env), ts) && Targets(ValueCode(e, env), ts)
  {
    hide Code, ValueCode;
    AllStraightCode(e, env);
  }

  lemma LegalParts(s: Stmt, inLoop: bool)
    requires LegalStmt(s, inLoop)
    ensures s.Seq? ==> LegalStmt(s.first, inLoop) && LegalStmt(s.rest, inLoop)
    ensures s.If? || s.IfElse? ==> LegalValue(s.e) && LegalStmt(s.then_, inLoop)
    ensures s.IfElse? ==> LegalStmt(s.else_, inLoop)
    ensures s.While? || s.For? || s.Do? ==> LegalValue(s.e) && LegalStmt(s.body, true)
    ensures s.For? ==> Legal(s.init) && Legal(s.post)
    ensures s.Do? || s.Break? || s.Continue? ==> inLoop
    ensures s.ExprStmt? ==> Legal(s.e)
  {
    hide Legal, LegalValue;
  }

  lemma SeamParts(s: Stmt, at: nat, ts: set<nat>)
    requires Seams(s, at) <= ts
    ensures at in ts && at + Width(s) in ts
    ensures s.Seq? ==> Seams(s.first, at) <= ts && Seams(s.rest, at + Width(s.first)) <= ts
    ensures s.If? || s.IfElse? ==> Seams(s.then_, at + ValueSize(s.e) + 3) <= ts
    ensures s.IfElse? ==> Seams(s.else_, at + ValueSize(s.e) + 3 + Width(s.then_) + 3) <= ts
    ensures s.While? ==> Seams(s.body, at + ValueSize(s.e) + 3) <= ts
    ensures s.For? ==> Seams(s.body, BodyAt(s, at)) <= ts && PostAt(s, at) in ts
    ensures s.Do? ==> Seams(s.body, at) <= ts
  {
    hide Width, ValueSize, BodyAt, PostAt;
  }

  /** Jumps go to where statements begin and end, or to a label, or to where the enclosing loop's
      `break` and `continue` go. */
  lemma {:induction false} StmtTargets(s: Stmt, inLoop: bool, at: nat, brk: nat, cont: nat, lab: Labels, env: Env,
                                       ts: set<nat>)
    requires LegalStmt(s, inLoop) && GotosDefined(s, lab)
    requires Seams(s, at) <= ts && lab.Values <= ts && (inLoop ==> brk in ts && cont in ts)
    ensures Targets(Asm(s, at, brk, cont, lab, env), ts)
    decreases s, 1
  {
    hide Asm, LegalStmt, GotosDefined, Targets, Seams;
    match s {
      case Seq(_, _) => SeqTargets(s, inLoop, at, brk, cont, lab, env, ts);
      case If(_, _) => TestedTargets(s, inLoop, at, brk, cont, lab, env, ts);
      case IfElse(_, _, _) => IfElseTargets(s, inLoop, at, brk, cont, lab, env, ts);
      case While(_, _) => TestedTargets(s, inLoop, at, brk, cont, lab, env, ts);
      case For(_, _, _, _) => ForTargets(s, inLoop, at, brk, cont, lab, env, ts);
      case Do(_, _) => DoTargets(s, inLoop, at, brk, cont, lab, env, ts);
      case _ => ShortTargets(s, inLoop, at, brk, cont, lab, env, ts);
    }
  }

  lemma ShortTargets(s: Stmt, inLoop: bool, at: nat, brk: nat, cont: nat, lab: Labels, env: Env, ts: set<nat>)
    requires !s.Seq? && !s.If? && !s.IfElse? && !s.While? && !s.For? && !s.Do?
    requires LegalStmt(s, inLoop) && GotosDefined(s, lab)
    requires lab.Values <= ts && (inLoop ==> brk in ts && cont in ts)
    ensures Targets(Asm(s, at, brk, cont, lab, env), ts)
  {
    hide Code, DropCode, Legal, Targets;
    NoTargets(ts);
    if s.ExprStmt? {
      ExprTargets(s.e, env, ts);
    } else if s.Break? || s.Continue? || s.Goto? {
      OneTarget(Asm(s, at, brk, cont, lab, env)[0].addr, ts);
    }
  }

  lemma {:induction false} SeqTargets(s: Stmt, inLoop: bool, at: nat, brk: nat, cont: nat, lab: Labels, env: Env,
                                      ts: set<nat>)
    requires s.Seq? && LegalStmt(s, inLoop) && GotosDefined(s, lab)
    requires Seams(s, at) <= ts && lab.Values <= ts && (inLoop ==> brk in ts && cont in ts)
    ensures Targets(Asm(s, at, brk, cont, lab, env), ts)
    decreases s, 0
  {
    hide Asm, Width, Targets, Seams;
    SeamParts(s, at, ts);
    AsmOfSeq(s, at, brk, cont, lab, env);
    StmtTargets(s.first, inLoop, at, brk, cont, lab, env, ts);
    StmtTargets(s.rest, inLoop, at + Width(s.first), brk, cont, lab, env, ts);
    TargetsConcat(Asm(s.first, at, brk, cont, lab, env), Asm(s.rest, at + Width(s.first), brk, cont, lab, env), ts);
  }

  lemma OneTarget(t: nat, ts: set<nat>)
    requires t in ts
    ensures Targets([Jmp(t)], ts) && Targets([FJmp(t)], ts) && Targets([Instr.LNot, FJmp(t)], ts)
  {
  }

  lemma NoTargets(ts: set<nat>)
    ensures Targets([], ts) && Targets([Instr.Halt], ts)
  {
  }

  lemma TestTargets(e: Expr, env: Env, t: nat, rest: seq<Instr>, ts: set<nat>)
    requires t in ts && Targets(rest, ts)
    ensures Targets(TestAsm(ValueCode(e, env), t, rest), ts)
  {
    hide Targets, ValueCode;
    ExprTargets(e, env, ts);
    OneTarget(t, ts);
    TargetsConcat([FJmp(t)], rest, ts);
    TargetsConcat(ValueCode(e, env), [FJmp(t)] + rest, ts);
  }

  lemma {:induction false} TestedTargets(s: Stmt, inLoop: bool, at: nat, brk: nat, cont: nat, lab: Labels, env: Env,
                                         ts: set<nat>)
    requires (s.If? || s.While?) && LegalStmt(s, inLoop) && GotosDefined(s, lab)
    requires Seams(s, at) <= ts && lab.Values <= ts && (inLoop ==> brk in ts && cont in ts)
    ensures Targets(Asm(s, at, brk, cont, lab, env), ts)
    decreases s, 0
  {
    hide Asm, ValueCode, LegalStmt, Width, ValueSize, Targets, Seams;
    LegalParts(s, inLoop);
    SeamParts(s, at, ts);
    var end := at + Width(s);
    var inner := at + ValueSize(s.e) + 3;
    if s.If? {
      AsmOfIf(s, at, brk, cont, lab, env);
      StmtTargets(s.then_, inLoop, inner, brk, cont, lab, env, ts);
      TestTargets(s.e, env, end, Asm(s.then_, inner, brk, cont, lab, env), ts);
    } else {
      AsmOfWhile(s, at, brk, cont, lab, env);
      var x := Asm(s.body, inner, end, at, lab, env);
      StmtTargets(s.body, true, inner, end, at, lab, env, ts);
      OneTarget(at, ts);
      TargetsConcat(x, [Jmp(at)], ts);
      TestTargets(s.e, env, end, x + [Jmp(at)], ts);
    }
  }

  lemma {:induction false} IfElseTargets(s: Stmt, inLoop: bool, at: nat, brk: nat, cont: nat, lab: Labels, env: Env,
                                         ts: set<nat>)
    requires s.IfElse? && LegalStmt(s, inLoop) && GotosDefined(s, lab)
    requires Seams(s, at) <= ts && lab.Values <= ts && (inLoop ==> brk in ts && cont in ts)
    ensures Targets(Asm(s, at, brk, cont, lab, env), ts)
    decreases s, 0
  {
    hide ValueCode, LegalStmt, Width, ValueSize, Targets, Seams, Asm;
    AsmOfIfElse(s, at, brk, cont, lab, env);
    LegalParts(s, inLoop);
    SeamParts(s, at, ts);
    var IfElse(e, a, b) := s;
    var then_ := at + ValueSize(e) + 3;
    var els := then_ + Width(a) + 3;
    var x := Asm(a, then_, brk, cont, lab, env);
    var y := Asm(b, els, brk, cont, lab, env);
    var over := [Jmp(at + Width(s))];
    StmtTargets(a, inLoop, then_, brk, cont, lab, env, ts);
    StmtTargets(b, inLoop, els, brk, cont, lab, env, ts);
    OneTarget(at + Width(s), ts);
    TargetsConcat(over, y, ts);
    TargetsConcat(x, over + y, ts);
    SeamParts(b, els, ts);
    TestTargets(e, env, els, x + (over + y), ts);
  }

  lemma {:induction false} ForTargets(s: Stmt, inLoop: bool, at: nat, brk: nat, cont: nat, lab: Labels, env: Env,
                                      ts: set<nat>)
    requires s.For? && LegalStmt(s, inLoop) && GotosDefined(s, lab)
    requires Seams(s, at) <= ts && lab.Values <= ts && (inLoop ==> brk in ts && cont in ts)
    ensures Targets(Asm(s, at, brk, cont, lab, env), ts)
    decreases s, 0
  {
    hide Code, ValueCode, DropCode, LegalStmt, Width, ValueSize, BodyAt, PostAt, Targets, Seams, Asm;
    AsmOfFor(s, at, brk, cont, lab, env);
    LegalParts(s, inLoop);
    SeamParts(s, at, ts);
    var For(i, c, p, a) := s;
    var end, post, body := at + Width(s), PostAt(s, at), BodyAt(s, at);
    var x := Asm(a, body, end, post, lab, env);
    var p0 := EffectCode(p, env);
    var t0 := x + [Jmp(post)];
    var t1 := p0 + ([Jmp(post)] + t0);
    StmtTargets(a, true, body, end, post, lab, env, ts);
    OneTarget(post, ts);
    SeamParts(a, body, ts);
    OneTarget(body, ts);
    TargetsConcat(x, [Jmp(post)], ts);
    TargetsConcat([Jmp(post)], t0, ts);
    ExprTargets(p, env, ts);
    TargetsConcat(p0, [Jmp(post)] + t0, ts);
    TargetsConcat([Jmp(body)], t1, ts);
    TestTargets(c, env, end, [Jmp(body)] + t1, ts);
    assert [FJmp(end), Jmp(body)] + t1 == [FJmp(end)] + ([Jmp(body)] + t1);
    ExprTargets(i, env, ts);
    TargetsConcat(EffectCode(i, env), TestAsm(ValueCode(c, env), end, [Jmp(body)] + t1), ts);
  }

  lemma {:induction false} DoTargets(s: Stmt, inLoop: bool, at: nat, brk: nat, cont: nat, lab: Labels, env: Env,
                                     ts: set<nat>)
    requires s.Do? && LegalStmt(s, inLoop) && GotosDefined(s, lab)
    requires Seams(s, at) <= ts && lab.Values <= ts && (inLoop ==> brk in ts && cont in ts)
    ensures Targets(Asm(s, at, brk, cont, lab, env), ts)
    decreases s, 0
  {
    hide ValueCode, LegalStmt, Width, ValueSize, Targets, Seams, Asm;
    AsmOfDo(s, at, brk, cont, lab, env);
    LegalParts(s, inLoop);
    SeamParts(s, at, ts);
    var Do(a, e) := s;
    var x := Asm(a, at, at + Width(a), at, lab, env);
    SeamParts(a, at, ts);
    StmtTargets(a, true, at, at + Width(a), at, lab, env, ts);
    ExprTargets(e, env, ts);
    OneTarget(cont, ts);
    TargetsConcat(ValueCode(e, env), [Instr.LNot, FJmp(cont)], ts);
    TargetsConcat(x, ValueCode(e, env) + [Instr.LNot, FJmp(cont)], ts);
  }

  // ----- Whole programs -----

  /** Level code whose jumps all land. */
  ghost predicate Sturdy(prog: seq<Instr>, top: nat) {
    && Level(prog, top)
    && (forall k :: 0 <= k < |prog| ==> Narrow(prog[k]))
    && (forall k :: 0 <= k < |prog| && IsJump(prog[k]) ==> Landing(prog, prog[k].addr))
  }

  /** Every body that compiles without an error becomes sturdy code. */
  lemma ProgramSturdy(body: Stmt)
    requires Compilable(body)
    ensures Sturdy(Program(body), Peak(body))
    ensures AllLand(Program(body), Seams(body, 0))
  {
    hide LegalStmt, GotosDefined, Asm, Landing, Level, Width, Address;
    var prog, lab, env := Program(body), Defs(body, 0, map[]), StmtNames(Blank, body);
    var ts := Seams(body, 0);
    StmtLevel(body, false, 0, 0, 0, lab, env, Peak(body));
    assert Piece(prog, 0, prog, 0, 0) by { WholePiece(prog); }
    SeamsLand(prog, 0, body, false, 0, 0, 0, lab, env);
    forall x | x in lab
      ensures lab[x] in ts
    {
      LabelsAtSeams(body, 0, map[], x);
    }
    StmtTargets(body, false, 0, 0, 0, lab, env, ts);
    AsmSize(body, 0, 0, 0, lab, env);
    forall k | 0 <= k < |prog|
      ensures Narrow(prog[k])
    {
      if IsJump(prog[k]) {
        LandingInside(prog, prog[k].addr);
      }
    }
  }

  lemma ProgramSize(body: Stmt)
    ensures Size(Program(body)) == Width(body)
  {
    hide Asm, Width, Size;
    AsmSize(body, 0, 0, 0, Defs(body, 0, map[]), StmtNames(Blank, body));
  }

  /** What it takes to compile: no error within a statement, at most four variables and four ports, a label
      for every goto, and code whose length 16 bits can hold. */
  lemma CompilableIff(body: Stmt)
    ensures Compilable(body) <==>
              && LegalStmt(body, false)
              && |StmtNames(Blank, body).vars| <= 4 && |StmtNames(Blank, body).ports| <= 4
              && GotosDefined(body, Defs(body, 0, map[]))
              && |EncodeAll(Program(body))| <= 65535
  {
    hide Asm, Width, Size, LegalStmt, GotosDefined, Defs, Program, StmtNames;
    ProgramSize(body);
  }

  lemma SturdyNarrow(prog: seq<Instr>, top: nat)
    requires Sturdy(prog, top)
    ensures forall k :: 0 <= k < |prog| ==> Narrow(prog[k])
  {
    hide Level, Landing;
  }

  lemma WholePiece(prog: seq<Instr>)
    ensures Piece(prog, 0, prog, 0, 0)
  {
    assert prog[..0] == [];
    assert prog[0..0 + |prog|] == prog;
  }

  lemma LandingInside(prog: seq<Instr>, t: nat)
    requires Landing(prog, t)
    ensures t <= Size(prog)
  {
    var j: nat :| LandsOn(prog, t, j);
    assert prog == prog[..j] + prog[j..];
    SizeConcat(prog[..j], prog[j..]);
  }

  /** Instruction-boundary safety (compiler.c:301-330, compiler.c:1025-1054, vm.c:466-522): in the
      bytes of sturdy code every jump operand decodes to an instruction start or to the end, and
      execution cannot leave the instruction starts. */
  lemma SturdyClosed(prog: seq<Instr>, top: nat)
    requires Sturdy(prog, top) && 0 < Size(prog) <= 0xFFFF
    ensures Closed(EncodeAll(prog))
  {
    hide Level, Safe, Decode, Visits, EncodeAll, Size, Narrow;
    var code := EncodeAll(prog);
    forall a: nat | IsStart(code, a)
      ensures Decode(code, a).Some?
      ensures IsTarget(code, a + Len(Decode(code, a).value))
      ensures IsJump(Decode(code, a).value) ==> IsTarget(code, Decode(code, a).value.addr)
    {
      var k := StartIndex(prog, a);
      FetchIndex(prog, k);
      AddressStep(prog, k);
      AddressIsTarget(prog, k + 1);
      if IsJump(prog[k]) {
        var j: nat :| LandsOn(prog, prog[k].addr, j);
        AddressIsTarget(prog, j);
      }
    }
  }

  lemma StartIndex(prog: seq<Instr>, a: nat) returns (k: nat)
    requires forall k :: 0 <= k < |prog| ==> Narrow(prog[k])
    requires IsStart(EncodeAll(prog), a)
    ensures k < |prog| && a == Address(prog, k)
  {
    hide Decode, EncodeAll, Narrow;
    assert Address(prog, 0) == 0 by { assert prog[..0] == []; }
    k := VisitedIsAddress(prog, 0, a);
  }

  lemma AddressIsTarget(prog: seq<Instr>, k: nat)
    requires forall k :: 0 <= k < |prog| ==> Narrow(prog[k])
    requires k <= |prog|
    ensures IsTarget(EncodeAll(prog), Address(prog, k))
  {
    hide Decode, EncodeAll, Narrow, Visits;
    if k == |prog| {
      assert prog[..k] == prog;
    } else {
      AddressVisited(prog, k);
      FetchIndex(prog, k);
    }
  }
}
