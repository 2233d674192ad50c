/** Code emitted early stays right: entering more names moves no slot. */
module Stability {
  import opened Syntax
  import opened Dict
  import opened CodeGen
  import opened Assembler

  lemma SlotStable(names: seq<string>, more: seq<string>, x: string)
    requires names <= more && x in names && NoDuplicates(more)
    ensures SlotOf(more, x) == SlotOf(names, x)
  {
    var i := IndexOf(names, x);
    assert more[i] == x;
    assert x in more;
  }

  lemma KindStable(e: Expr, env: Env, fin: Env)
    requires Known(e, env) && Extends(env, fin) && Unique(fin)
    ensures VarSlot(KindOf(e), fin) == VarSlot(KindOf(e), env) && PortSlot(KindOf(e), fin) == PortSlot(KindOf(e), env)
    ensures LoadCode(KindOf(e), fin) == LoadCode(KindOf(e), env)
    ensures Known(e, fin)
    decreases e
  {
    hide SlotOf;
    match e {
      case Var(x) => SlotStable(env.vars, fin.vars, x); assert fin.vars[IndexOf(env.vars, x)] == x;
      case Port(x) => SlotStable(env.ports, fin.ports, x); assert fin.ports[IndexOf(env.ports, x)] == x;
      case Unary(_, x) => KindStable(x, env, fin);
      case PreStep(_, x) => KindStable(x, env, fin);
      case PostStep(x, _) => KindStable(x, env, fin);
      case Binary(l, _, r) => KindStable(l, env, fin); KindStable(r, env, fin);
      case Assign(l, _, r) => KindStable(l, env, fin); KindStable(r, env, fin);
      case Comma(l, r) => KindStable(l, env, fin); KindStable(r, env, fin);
      case Cond(c, a, b) => KindStable(c, env, fin); KindStable(a, env, fin); KindStable(b, env, fin);
      case Send(l, r) => KindStable(l, env, fin); KindStable(r, env, fin);
      case _ =>
    }
  }

  lemma {:induction false} CodeStable(e: Expr, env: Env, fin: Env)
    requires Known(e, env) && Extends(env, fin) && Unique(fin)
    ensures Code(e, fin) == Code(e, env) && ValueCode(e, fin) == ValueCode(e, env)
    decreases e
  {
    hide VarSlot, PortSlot, LoadCode, InfixCode, DropCode;
    KindStable(e, env, fin);
    match e {
      case Unary(_, x) => CodeStable(x, env, fin);
      case PreStep(_, x) => CodeStable(x, env, fin); KindStable(x, env, fin);
      case PostStep(x, _) => CodeStable(x, env, fin); KindStable(x, env, fin);
      case Binary(l, _, r) => CodeStable(l, env, fin); CodeStable(r, env, fin);
      case Assign(l, _, r) => CodeStable(l, env, fin); CodeStable(r, env, fin); KindStable(l, env, fin);
      case Comma(l, r) => CodeStable(l, env, fin); CodeStable(r, env, fin);
      case Cond(c, a, b) => CodeStable(c, env, fin); CodeStable(a, env, fin); CodeStable(b, env, fin);
      case Send(l, r) =>
        CodeStable(l, env, fin);
        CodeStable(r, env, fin);
        KindStable(l, env, fin);
        KindStable(r, env, fin);
      case _ =>
    }
  }

  /** The same for statements. */
  lemma {:induction false} AsmStable(s: Stmt, at: nat, brk: nat, cont: nat, lab: Labels, env: Env, fin: Env)
    requires StmtKnown(s, env) && Extends(env, fin) && Unique(fin)
    ensures Asm(s, at, brk, cont, lab, fin) == Asm(s, at, brk, cont, lab, env)
    decreases s, 1
  {
    hide Asm, StmtKnown, Extends, Unique;
    match s {
      case ExprStmt(_) => SimpleStable(s, at, brk, cont, lab, env, fin);
      case Seq(_, _) => SeqStable(s, at, brk, cont, lab, env, fin);
      case If(_, _) => TestedStable(s, at, brk, cont, lab, env, fin);
      case IfElse(_, _, _) => IfElseStable(s, at, brk, cont, lab, env, fin);
      case While(_, _) => TestedStable(s, at, brk, cont, lab, env, fin);
      case For(_, _, _, _) => ForStable(s, at, brk, cont, lab, env, fin);
      case Do(_, _) => SeqStable(s, at, brk, cont, lab, env, fin);
      case _ => SimpleStable(s, at, brk, cont, lab, env, fin);
    }
  }

  lemma SimpleStable(s: Stmt, at: nat, brk: nat, cont: nat, lab: Labels, env: Env, fin: Env)
    requires !s.Seq? && !s.If? && !s.IfElse? && !s.While? && !s.For? && !s.Do?
    requires StmtKnown(s, env) && Extends(env, fin) && Unique(fin)
    ensures Asm(s, at, brk, cont, lab, fin) == Asm(s, at, brk, cont, lab, env)
  {
    hide Code, DropCode, Known, Extends, Unique;
    if s.ExprStmt? {
      CodeStable(s.e, env, fin);
    }
  }

  lemma {:induction false} SeqStable(s: Stmt, at: nat, brk: nat, cont: nat, lab: Labels, env: Env, fin: Env)
    requires (s.Seq? || s.Do?) && StmtKnown(s, env) && Extends(env, fin) && Unique(fin)
    ensures Asm(s, at, brk, cont, lab, fin) == Asm(s, at, brk, cont, lab, env)
    decreases s, 0
  {
    hide Asm, Width, ValueCode, Known, Extends, Unique;
    if s.Seq? {
      AsmOfSeq(s, at, brk, cont, lab, env);
      AsmOfSeq(s, at, brk, cont, lab, fin);
      AsmStable(s.first, at, brk, cont, lab, env, fin);
      AsmStable(s.rest, at + Width(s.first), brk, cont, lab, env, fin);
    } else {
      AsmOfDo(s, at, brk, cont, lab, env);
      AsmOfDo(s, at, brk, cont, lab, fin);
      AsmStable(s.body, at, at + Width(s.body), at, lab, env, fin);
      CodeStable(s.e, env, fin);
    }
  }

  lemma {:induction false} TestedStable(s: Stmt, at: nat, brk: nat, cont: nat, lab: Labels, env: Env, fin: Env)
    requires (s.If? || s.While?) && StmtKnown(s, env) && Extends(env, fin) && Unique(fin)
    ensures Asm(s, at, brk, cont, lab, fin) == Asm(s, at, brk, cont, lab, env)
    decreases s, 0
  {
    hide Asm, ValueCode, Width, ValueSize, Known, Extends, Unique;
    CodeStable(s.e, env, fin);
    if s.If? {
      AsmOfIf(s, at, brk, cont, lab, env);
      AsmOfIf(s, at, brk, cont, lab, fin);
      AsmStable(s.then_, at + ValueSize(s.e) + 3, brk, cont, lab, env, fin);
    } else {
      AsmOfWhile(s, at, brk, cont, lab, env);
      AsmOfWhile(s, at, brk, cont, lab, fin);
      AsmStable(s.body, at + ValueSize(s.e) + 3, at + Width(s), at, lab, env, fin);
    }
  }

  lemma {:induction false} IfElseStable(s: Stmt, at: nat, brk: nat, cont: nat, lab: Labels, env: Env, fin: Env)
    requires s.IfElse? && StmtKnown(s, env) && Extends(env, fin) && Unique(fin)
    ensures Asm(s, at, brk, cont, lab, fin) == Asm(s, at, brk, cont, lab, env)
    decreases s, 0
  {
    hide Asm, ValueCode, Width, ValueSize, Known, Extends, Unique;
    AsmOfIfElse(s, at, brk, cont, lab, env);
    AsmOfIfElse(s, at, brk, cont, lab, fin);
    CodeStable(s.e, env, fin);
    AsmStable(s.then_, at + ValueSize(s.e) + 3, brk, cont, lab, env, fin);
    AsmStable(s.else_, at + ValueSize(s.e) + 3 + Width(s.then_) + 3, brk, cont, lab, env, fin);
  }

  lemma {:induction false} ForStable(s: Stmt, at: nat, brk: nat, cont: nat, lab: Labels, env: Env, fin: Env)
    requires s.For? && StmtKnown(s, env) && Extends(env, fin) && Unique(fin)
    ensures Asm(s, at, brk, cont, lab, fin) == Asm(s, at, brk, cont, lab, env)
    decreases s, 0
  {
    hide Asm, Code, ValueCode, DropCode, Width, Known, Extends, Unique, PostAt, BodyAt, ForAsm;
    AsmOfFor(s, at, brk, cont, lab, env);
    AsmOfFor(s, at, brk, cont, lab, fin);
    CodeStable(s.init, env, fin);
    CodeStable(s.e, env, fin);
    CodeStable(s.post, env, fin);
    AsmStable(s.body, BodyAt(s, at), at + Width(s), PostAt(s, at), lab, env, fin);
  }

  // ----- Errors stay errors -----

  /** Entering names never makes room. */
  lemma NamesFit(env: Env, e: Expr)
    requires Unique(env) && Fits(Names(env, e))
    ensures Fits(env)
  {
    hide Names;
    NamesExtend(env, e);
  }
}
