/** A two-pass assembler for statements: the code of a statement as a function of its tree, with all
    jump addresses known in advance. The control flow of `for` and `do` is the compiler's
    (compiler.c:846-937), which is not the documented one. */
module Assembler {
  import opened Bytes
  import opened Bytecode
  import opened Syntax
  import opened Dict
  import opened CodeGen

  const Blank: Env := Env([], [])

  /** The bytes of an expression's code; slots do not matter for it. */
  function CodeSize(e: Expr): nat {
    Size(Code(e, Blank))
  }

  function ValueSize(e: Expr): nat {
    Size(ValueCode(e, Blank))
  }

  function DropSize(e: Expr): nat {
    Size(DropCode(KindOf(e)))
  }

  /** First pass: how many bytes a statement takes. */
  function Width(s: Stmt): nat {
    match s
    case ExprStmt(e) => CodeSize(e) + DropSize(e)
    case Seq(a, b) => Width(a) + Width(b)
    case If(e, a) => ValueSize(e) + 3 + Width(a)
    case IfElse(e, a, b) => ValueSize(e) + 3 + Width(a) + 3 + Width(b)
    case While(e, a) => ValueSize(e) + 3 + Width(a) + 3
    case For(i, c, p, a) => PostAt(s, 0) + CodeSize(p) + DropSize(p) + 3 + Width(a) + 3
    case Do(a, e) => Width(a) + ValueSize(e) + 1 + 3
    case Break => 3
    case Continue => 3
    case Goto(_) => 3
    case Halt => 1
    case _ => 0
  }

  /** The address of the post clause of a `for` at address `at`. */
  function PostAt(s: Stmt, at: nat): nat
    requires s.For?
  {
    at + CodeSize(s.init) + DropSize(s.init) + ValueSize(s.e) + 3 + 3
  }

  /** The address of its body. */
  function BodyAt(s: Stmt, at: nat): nat
    requires s.For?
  {
    PostAt(s, at) + CodeSize(s.post) + DropSize(s.post) + 3
  }

  type Labels = map<string, nat>

  /** First pass: where labels stand. A label defined twice is the last of the two
      (compiler.c:394-401). */
  function Defs(s: Stmt, at: nat, acc: Labels): Labels
    decreases s
  {
    match s
    case Label(x) => acc[x := at]
    case Seq(a, b) => Defs(b, at + Width(a), Defs(a, at, acc))
    case If(e, a) => Defs(a, at + ValueSize(e) + 3, acc)
    case IfElse(e, a, b) =>
      var els := at + ValueSize(e) + 3 + Width(a) + 3;
      Defs(b, els, Defs(a, at + ValueSize(e) + 3, acc))
    case While(e, a) => Defs(a, at + ValueSize(e) + 3, acc)
    case For(_, _, _, a) => Defs(a, BodyAt(s, at), acc)
    case Do(a, _) => Defs(a, at, acc)
    case _ => acc
  }

  function AddrOf(lab: Labels, x: string): nat {
    if x in lab then lab[x] else 0
  }

  /** A condition, the jump over what it guards, and that. */
  function TestAsm(test: seq<Instr>, t: nat, x: seq<Instr>): seq<Instr> {
    test + ([FJmp(t)] + x)
  }

  /** Both branches of an if-else. */
  function ElseAsm(x: seq<Instr>, t: nat, y: seq<Instr>): seq<Instr> {
    x + ([Jmp(t)] + y)
  }

  /** The body of a loop and the jump back. */
  function BackAsm(x: seq<Instr>, t: nat): seq<Instr> {
    x + [Jmp(t)]
  }

  /** The body of a `do` and its test. */
  function DoAsm(x: seq<Instr>, test: seq<Instr>, t: nat): seq<Instr> {
    x + (test + [Instr.LNot, FJmp(t)])
  }

  /** The parts of a `for`: initial clause, condition, post clause and body. */
  function ForAsm(init: seq<Instr>, test: seq<Instr>, end: nat, body: nat, step: seq<Instr>, post: nat,
                  x: seq<Instr>): seq<Instr> {
    init + (test + ([FJmp(end), Jmp(body)] + (step + ([Jmp(post)] + (x + [Jmp(post)])))))
  }

  /** Second pass: the code of a statement at address `at`, inside a loop whose `break` and
      `continue` go to `brk` and `cont`, with labels at `lab`. */
  function Asm(s: Stmt, at: nat, brk: nat, cont: nat, lab: Labels, env: Env): seq<Instr>
    decreases s
  {
    match s
    case ExprStmt(e) => EffectCode(e, env)
    case Seq(a, b) => Asm(a, at, brk, cont, lab, env) + Asm(b, at + Width(a), brk, cont, lab, env)
    case If(e, a) => TestAsm(ValueCode(e, env), at + Width(s), Asm(a, at + ValueSize(e) + 3, brk, cont, lab, env))
    case IfElse(e, a, b) =>
      var then_ := at + ValueSize(e) + 3;
      var els := then_ + Width(a) + 3;
      TestAsm(ValueCode(e, env), els,
              ElseAsm(Asm(a, then_, brk, cont, lab, env), at + Width(s), Asm(b, els, brk, cont, lab, env)))
    case While(e, a) =>
      var end := at + Width(s);
      TestAsm(ValueCode(e, env), end, BackAsm(Asm(a, at + ValueSize(e) + 3, end, at, lab, env), at))
    case For(i, c, p, a) =>
      var end := at + Width(s);
      var post := PostAt(s, at);
      ForAsm(EffectCode(i, env), ValueCode(c, env), end, BodyAt(s, at),
             EffectCode(p, env), post, Asm(a, BodyAt(s, at), end, post, lab, env))
    case Do(a, e) => DoAsm(Asm(a, at, at + Width(a), at, lab, env), ValueCode(e, env), cont)
    case Break => [Jmp(brk)]
    case Continue => [Jmp(cont)]
    case Goto(x) => [Jmp(AddrOf(lab, x))]
    case Halt => [Instr.Halt]
    case _ => []
  }

  // ----- The two passes, one constructor at a time -----

  lemma AsmOfSeq(s: Stmt, at: nat, brk: nat, cont: nat, lab: Labels, env: Env)
    requires s.Seq?
    ensures Asm(s, at, brk, cont, lab, env)
            == Asm(s.first, at, brk, cont, lab, env) + Asm(s.rest, at + Width(s.first), brk, cont, lab, env)
    ensures Width(s) == Width(s.first) + Width(s.rest)
  {
    hide Code, ValueCode, ValueSize, EffectCode, TestAsm, ElseAsm, BackAsm, DoAsm, ForAsm;
  }

  lemma AsmOfIf(s: Stmt, at: nat, brk: nat, cont: nat, lab: Labels, env: Env)
    requires s.If?
    ensures Asm(s, at, brk, cont, lab, env)
            == TestAsm(ValueCode(s.e, env), at + Width(s), Asm(s.then_, at + ValueSize(s.e) + 3, brk, cont, lab, env))
    ensures Width(s) == ValueSize(s.e) + 3 + Width(s.then_)
  {
    hide Code, ValueCode, ValueSize, EffectCode, TestAsm, ElseAsm, BackAsm, DoAsm, ForAsm;
  }

  lemma AsmOfIfElse(s: Stmt, at: nat, brk: nat, cont: nat, lab: Labels, env: Env)
    requires s.IfElse?
    ensures var then_ := at + ValueSize(s.e) + 3;
            var els := then_ + Width(s.then_) + 3;
            Asm(s, at, brk, cont, lab, env)
            == TestAsm(ValueCode(s.e, env), els,
                       ElseAsm(Asm(s.then_, then_, brk, cont, lab, env), at + Width(s), Asm(s.else_, els, brk, cont, lab, env)))
    ensures Width(s) == ValueSize(s.e) + 3 + Width(s.then_) + 3 + Width(s.else_)
  {
    hide Code, ValueCode, ValueSize, EffectCode, TestAsm, ElseAsm, BackAsm, DoAsm, ForAsm;
  }

  lemma AsmOfWhile(s: Stmt, at: nat, brk: nat, cont: nat, lab: Labels, env: Env)
    requires s.While?
    ensures Asm(s, at, brk, cont, lab, env)
            == TestAsm(ValueCode(s.e, env), at + Width(s),
                       BackAsm(Asm(s.body, at + ValueSize(s.e) + 3, at + Width(s), at, lab, env), at))
    ensures Width(s) == ValueSize(s.e) + 3 + Width(s.body) + 3
  {
    hide Code, ValueCode, ValueSize, EffectCode, TestAsm, ElseAsm, BackAsm, DoAsm, ForAsm;
  }

  lemma AsmOfFor(s: Stmt, at: nat, brk: nat, cont: nat, lab: Labels, env: Env)
    requires s.For?
    ensures Asm(s, at, brk, cont, lab, env)
            == ForAsm(EffectCode(s.init, env), ValueCode(s.e, env), at + Width(s), BodyAt(s, at),
                      EffectCode(s.post, env), PostAt(s, at),
                      Asm(s.body, BodyAt(s, at), at + Width(s), PostAt(s, at), lab, env))
    ensures at + Width(s) == BodyAt(s, at) + Width(s.body) + 3
    ensures BodyAt(s, at) == PostAt(s, at) + CodeSize(s.post) + DropSize(s.post) + 3
    ensures PostAt(s, at) == at + CodeSize(s.init) + DropSize(s.init) + ValueSize(s.e) + 3 + 3
  {
    hide Code, ValueCode, CodeSize, ValueSize, DropSize, EffectCode, TestAsm, ElseAsm, BackAsm, DoAsm, ForAsm;
  }

  lemma AsmOfDo(s: Stmt, at: nat, brk: nat, cont: nat, lab: Labels, env: Env)
    requires s.Do?
    ensures Asm(s, at, brk, cont, lab, env)
            == DoAsm(Asm(s.body, at, at + Width(s.body), at, lab, env), ValueCode(s.e, env), cont)
    ensures Width(s) == Width(s.body) + ValueSize(s.e) + 1 + 3
  {
    hide Code, ValueCode, ValueSize, EffectCode, TestAsm, ElseAsm, BackAsm, DoAsm, ForAsm;
  }

  // ----- Names and errors -----

  function StmtNames(env: Env, s: Stmt): Env
    decreases s
  {
    match s
    case ExprStmt(e) => Names(env, e)
    case Seq(a, b) => StmtNames(StmtNames(env, a), b)
    case If(e, a) => StmtNames(Names(env, e), a)
    case IfElse(e, a, b) => StmtNames(StmtNames(Names(env, e), a), b)
    case While(e, a) => StmtNames(Names(env, e), a)
    case For(i, c, p, a) => StmtNames(Names(Names(Names(env, i), c), p), a)
    case Do(a, e) => Names(StmtNames(env, a), e)
    case _ => env
  }

  predicate StmtKnown(s: Stmt, env: Env) {
    match s
    case ExprStmt(e) => Known(e, env)
    case Seq(a, b) => StmtKnown(a, env) && StmtKnown(b, env)
    case If(e, a) => Known(e, env) && StmtKnown(a, env)
    case IfElse(e, a, b) => Known(e, env) && StmtKnown(a, env) && StmtKnown(b, env)
    case While(e, a) => Known(e, env) && StmtKnown(a, env)
    case For(i, c, p, a) => Known(i, env) && Known(c, env) && Known(p, env) && StmtKnown(a, env)
    case Do(a, e) => StmtKnown(a, env) && Known(e, env)
    case _ => true
  }

  predicate LegalValue(e: Expr) {
    Legal(e) && HasValue(KindOf(e))
  }

  /** The statement compiles without an error of its own: `break` and `continue` stand in a loop, and
      so does `do`, whose test jumps to the enclosing loop's `continue` address. */
  predicate LegalStmt(s: Stmt, inLoop: bool) {
    match s
    case ExprStmt(e) => Legal(e)
    case Seq(a, b) => LegalStmt(a, inLoop) && LegalStmt(b, inLoop)
    case If(e, a) => LegalValue(e) && LegalStmt(a, inLoop)
    case IfElse(e, a, b) => LegalValue(e) && LegalStmt(a, inLoop) && LegalStmt(b, inLoop)
    case While(e, a) => LegalValue(e) && LegalStmt(a, true)
    case For(i, c, p, a) => Legal(i) && LegalValue(c) && Legal(p) && LegalStmt(a, true)
    case Do(a, e) => LegalStmt(a, true) && LegalValue(e) && inLoop
    case Break => inLoop
    case Continue => inLoop
    case _ => true
  }

  /** Every `goto` has a label. */
  predicate GotosDefined(s: Stmt, lab: Labels) {
    match s
    case Seq(a, b) => GotosDefined(a, lab) && GotosDefined(b, lab)
    case If(_, a) => GotosDefined(a, lab)
    case IfElse(_, a, b) => GotosDefined(a, lab) && GotosDefined(b, lab)
    case While(_, a) => GotosDefined(a, lab)
    case For(_, _, _, a) => GotosDefined(a, lab)
    case Do(a, _) => GotosDefined(a, lab)
    case Goto(x) => x in lab
    case _ => true
  }

  /** The highest stack any expression of the statement needs. */
  function Peak(s: Stmt): nat {
    match s
    case ExprStmt(e) => ValueHeight(e)
    case Seq(a, b) => Max(Peak(a), Peak(b))
    case If(e, a) => Max(ValueHeight(e), Peak(a))
    case IfElse(e, a, b) => Max(ValueHeight(e), Max(Peak(a), Peak(b)))
    case While(e, a) => Max(ValueHeight(e), Peak(a))
    case For(i, c, p, a) => Max(Max(ValueHeight(i), ValueHeight(c)), Max(ValueHeight(p), Peak(a)))
    case Do(a, e) => Max(Peak(a), ValueHeight(e))
    case _ => 0
  }

  // ----- A whole body -----

  /** The assembled code of a processor's body. */
  function Program(body: Stmt): seq<Instr> {
    Asm(body, 0, 0, 0, Defs(body, 0, map[]), StmtNames(Blank, body))
  }

  /** The bodies that compile without an error (compiler.c:1016-1054). */
  predicate Compilable(body: Stmt) {
    && LegalStmt(body, false)
    && Fits(StmtNames(Blank, body))
    && GotosDefined(body, Defs(body, 0, map[]))
    && Width(body) <= 0xFFFF
  }

  predicate Unique(env: Env) {
    NoDuplicates(env.vars) && NoDuplicates(env.ports)
  }

  /** Entering the names of a statement extends the tables and keeps them free of duplicates. */
  lemma {:induction false} StmtNamesExtend(env: Env, s: Stmt)
    requires Unique(env)
    ensures Extends(env, StmtNames(env, s)) && Unique(StmtNames(env, s))
    decreases s
  {
    hide Names;
    match s {
      case ExprStmt(e) => NamesExtend(env, e);
      case Seq(a, b) =>
        StmtNamesExtend(env, a);
        StmtNamesExtend(StmtNames(env, a), b);
      case If(e, a) =>
        NamesExtend(env, e);
        StmtNamesExtend(Names(env, e), a);
      case IfElse(e, a, b) =>
        NamesExtend(env, e);
        StmtNamesExtend(Names(env, e), a);
        StmtNamesExtend(StmtNames(Names(env, e), a), b);
      case While(e, a) =>
        NamesExtend(env, e);
        StmtNamesExtend(Names(env, e), a);
      case For(i, c, p, a) =>
        NamesExtend(env, i);
        NamesExtend(Names(env, i), c);
        NamesExtend(Names(Names(env, i), c), p);
        StmtNamesExtend(Names(Names(Names(env, i), c), p), a);
      case Do(a, e) =>
        StmtNamesExtend(env, a);
        NamesExtend(StmtNames(env, a), e);
      case _ =>
    }
  }

  /** ... and makes every name of the statement known. */
  lemma {:induction false} StmtNamesKnown(env: Env, s: Stmt, fin: Env)
    requires Unique(env) && Extends(StmtNames(env, s), fin)
    ensures StmtKnown(s, fin)
    decreases s
  {
    hide Names, Known;
    StmtNamesExtend(env, s);
    match s {
      case ExprStmt(e) => NamesKnown(env, e, fin);
      case Seq(a, b) =>
        StmtNamesExtend(env, a);
        StmtNamesExtend(StmtNames(env, a), b);
        StmtNamesKnown(env, a, fin);
        StmtNamesKnown(StmtNames(env, a), b, fin);
      case If(e, a) =>
        NamesExtend(env, e);
        StmtNamesExtend(Names(env, e), a);
        NamesKnown(env, e, fin);
        StmtNamesKnown(Names(env, e), a, fin);
      case IfElse(e, a, b) =>
        var env1 := Names(env, e);
        NamesExtend(env, e);
        StmtNamesExtend(env1, a);
        StmtNamesExtend(StmtNames(env1, a), b);
        NamesKnown(env, e, fin);
        StmtNamesKnown(env1, a, fin);
        StmtNamesKnown(StmtNames(env1, a), b, fin);
      case While(e, a) =>
        NamesExtend(env, e);
        StmtNamesExtend(Names(env, e), a);
        NamesKnown(env, e, fin);
        StmtNamesKnown(Names(env, e), a, fin);
      case For(i, c, p, a) =>
        var env1 := Names(env, i);
        var env2 := Names(env1, c);
        NamesExtend(env, i);
        NamesExtend(env1, c);
        NamesExtend(env2, p);
        StmtNamesExtend(Names(env2, p), a);
        NamesKnown(env, i, fin);
        NamesKnown(env1, c, fin);
        NamesKnown(env2, p, fin);
        StmtNamesKnown(Names(env2, p), a, fin);
      case Do(a, e) =>
        StmtNamesExtend(env, a);
        NamesExtend(StmtNames(env, a), e);
        StmtNamesKnown(env, a, fin);
        NamesKnown(StmtNames(env, a), e, fin);
      case _ =>
    }
  }

  // ----- Both passes agree -----

  predicate SameShape(x: seq<Instr>, y: seq<Instr>) {
    |x| == |y| && forall k :: 0 <= k < |x| ==> Len(x[k]) == Len(y[k])
  }

  lemma {:induction false} SameShapeSameSize(x: seq<Instr>, y: seq<Instr>)
    requires SameShape(x, y)
    ensures Size(x) == Size(y)
  {
    if x != [] {
      SameShapeSameSize(x[1..], y[1..]);
    }
  }

  lemma ShapeConcat(x: seq<Instr>, y: seq<Instr>, x': seq<Instr>, y': seq<Instr>)
    requires SameShape(x, x') && SameShape(y, y')
    ensures SameShape(x + y, x' + y')
  {
  }

  /** The slots of a tree's names do not show in the shape of its code. */
  lemma {:induction false} CodeShape(e: Expr, env: Env)
    ensures SameShape(Code(e, env), Code(e, Blank)) && SameShape(ValueCode(e, env), ValueCode(e, Blank))
    decreases e, 1
  {
    hide SameShape, Code;
    match e {
      case Binary(l, op, r) =>
        CodeShape(l, env);
        CodeShape(r, env);
        BinaryShape(e, env);
      case Assign(l, _, r) =>
        CodeShape(l, env);
        CodeShape(r, env);
        AssignShape(e, env);
      case Comma(l, r) =>
        CodeShape(l, env);
        CodeShape(r, env);
        BinaryShape(e, env);
      case Cond(c, a, b) =>
        CodeShape(c, env);
        CodeShape(a, env);
        CodeShape(b, env);
        CondShape(e, env);
      case Send(l, r) =>
        CodeShape(l, env);
        CodeShape(r, env);
        SendShape(e, env);
      case Unary(_, x) =>
        CodeShape(x, env);
        OneShape(e, env);
      case PreStep(_, x) =>
        CodeShape(x, env);
        OneShape(e, env);
      case PostStep(x, _) =>
        CodeShape(x, env);
        OneShape(e, env);
      case _ => OneShape(e, env);
    }
    LoadShape(e, env);
  }

  predicate Alike(e: Expr, env: Env) {
    SameShape(Code(e, env), Code(e, Blank)) && SameShape(ValueCode(e, env), ValueCode(e, Blank))
  }

  lemma LoadShape(e: Expr, env: Env)
    requires SameShape(Code(e, env), Code(e, Blank))
    ensures SameShape(ValueCode(e, env), ValueCode(e, Blank))
  {
    hide Code;
    ShapeConcat(Code(e, env), LoadCode(KindOf(e), env), Code(e, Blank), LoadCode(KindOf(e), Blank));
  }

  lemma OneShape(e: Expr, env: Env)
    requires e.Num? || e.Char? || e.Var? || e.Port? || e.Unary? || e.PreStep? || e.PostStep?
    requires e.Unary? || e.PreStep? || e.PostStep? ==> Alike(e.e, env)
    ensures SameShape(Code(e, env), Code(e, Blank))
  {
    hide ValueCode;
    if e.PreStep? || e.PostStep? {
      hide SlotOf;
    }
  }

  lemma BinaryShape(e: Expr, env: Env)
    requires e.Binary? || e.Comma?
    requires Alike(e.l, env) && Alike(e.r, env)
    ensures SameShape(Code(e, env), Code(e, Blank))
  {
    hide ValueCode, SameShape;
    if e.Binary? {
      ShapeConcat(ValueCode(e.l, env), ValueCode(e.r, env), ValueCode(e.l, Blank), ValueCode(e.r, Blank));
      Reflexive(InfixCode(e.infix));
      ShapeConcat(ValueCode(e.l, env) + ValueCode(e.r, env), InfixCode(e.infix),
                  ValueCode(e.l, Blank) + ValueCode(e.r, Blank), InfixCode(e.infix));
    } else {
      var drop := DropCode(KindOf(e.l));
      Reflexive(drop);
      ShapeConcat(Code(e.l, env), drop, Code(e.l, Blank), drop);
      ShapeConcat(Code(e.l, env) + drop, Code(e.r, env), Code(e.l, Blank) + drop, Code(e.r, Blank));
    }
  }

  lemma Reflexive(x: seq<Instr>)
    ensures SameShape(x, x)
  {
  }

  lemma AssignShape(e: Expr, env: Env)
    requires e.Assign? && Alike(e.l, env) && Alike(e.r, env)
    ensures SameShape(Code(e, env), Code(e, Blank))
  {
    hide ValueCode, SlotOf;
    var v, v' := VarSlot(KindOf(e.l), env), VarSlot(KindOf(e.l), Blank);
    if e.asg.None? {
      ShapeConcat(Code(e.l, env), ValueCode(e.r, env), Code(e.l, Blank), ValueCode(e.r, Blank));
    } else {
      ShapeConcat(Code(e.l, env), [Load(v)], Code(e.l, Blank), [Load(v')]);
      ShapeConcat(Code(e.l, env) + [Load(v)], ValueCode(e.r, env), Code(e.l, Blank) + [Load(v')], ValueCode(e.r, Blank));
    }
  }

  lemma CondShape(e: Expr, env: Env)
    requires e.Cond? && Alike(e.c0, env) && Alike(e.a, env) && Alike(e.b, env)
    ensures SameShape(Code(e, env), Code(e, Blank))
  {
    hide ValueCode, SameShape;
    var c, a, b := ValueCode(e.c0, env), ValueCode(e.a, env), ValueCode(e.b, env);
    var c', a', b' := ValueCode(e.c0, Blank), ValueCode(e.a, Blank), ValueCode(e.b, Blank);
    Reflexive([Bin(LAnd)]);
    Reflexive([Bin(LOr)]);
    ShapeConcat(c, a, c', a');
    ShapeConcat(c + a, [Bin(LAnd)], c' + a', [Bin(LAnd)]);
    ShapeConcat(c + a + [Bin(LAnd)], b, c' + a' + [Bin(LAnd)], b');
    ShapeConcat(c + a + [Bin(LAnd)] + b, [Bin(LOr)], c' + a' + [Bin(LAnd)] + b', [Bin(LOr)]);
  }

  lemma SendShape(e: Expr, env: Env)
    requires e.Send? && Alike(e.l, env) && Alike(e.r, env)
    ensures SameShape(Code(e, env), Code(e, Blank))
  {
    hide ValueCode, SlotOf;
    ShapeConcat(Code(e.l, env), Code(e.r, env), Code(e.l, Blank), Code(e.r, Blank));
    ShapeConcat(Code(e.l, env), ValueCode(e.r, env), Code(e.l, Blank), ValueCode(e.r, Blank));
  }

  lemma ExprSizes(e: Expr, env: Env)
    ensures Size(Code(e, env)) == CodeSize(e) && Size(ValueCode(e, env)) == ValueSize(e)
    ensures Size(EffectCode(e, env)) == CodeSize(e) + DropSize(e)
  {
    CodeShape(e, env);
    SameShapeSameSize(Code(e, env), Code(e, Blank));
    SameShapeSameSize(ValueCode(e, env), ValueCode(e, Blank));
    SizeConcat(Code(e, env), DropCode(KindOf(e)));
  }

  lemma SizeOne(i: Instr)
    ensures Size([i]) == Len(i)
  {
    assert [i][1..] == [];
  }

  lemma SizeTwo(i: Instr, j: Instr)
    ensures Size([i, j]) == Len(i) + Len(j)
  {
    assert [i, j][1..] == [j];
    SizeOne(j);
  }

  lemma SizeConcat3(x: seq<Instr>, y: seq<Instr>, z: seq<Instr>)
    ensures Size(x + (y + z)) == Size(x) + Size(y) + Size(z)
  {
    SizeConcat(y, z);
    SizeConcat(x, y + z);
  }

  /** The second pass emits as many bytes as the first pass counted. */
  lemma {:induction false} AsmSize(s: Stmt, at: nat, brk: nat, cont: nat, lab: Labels, env: Env)
    ensures Size(Asm(s, at, brk, cont, lab, env)) == Width(s)
    decreases s, 1
  {
    hide Size, Asm, Width;
    match s {
      case ExprStmt(_) => ExprStmtSize(s, at, brk, cont, lab, env);
      case Seq(_, _) => SeqSize(s, at, brk, cont, lab, env);
      case If(_, _) => IfSize(s, at, brk, cont, lab, env);
      case IfElse(_, _, _) => IfElseSize(s, at, brk, cont, lab, env);
      case While(_, _) => LoopSize(s, at, brk, cont, lab, env);
      case For(_, _, _, _) => ForSize(s, at, brk, cont, lab, env);
      case Do(_, _) => LoopSize(s, at, brk, cont, lab, env);
      case _ => ShortSize(s, at, brk, cont, lab, env);
    }
  }

  lemma ExprStmtSize(s: Stmt, at: nat, brk: nat, cont: nat, lab: Labels, env: Env)
    requires s.ExprStmt?
    ensures Size(Asm(s, at, brk, cont, lab, env)) == Width(s)
  {
    hide Size, CodeSize, DropSize, Code, DropCode;
    ExprSizes(s.e, env);
  }

  lemma ShortSize(s: Stmt, at: nat, brk: nat, cont: nat, lab: Labels, env: Env)
    requires s.Break? || s.Continue? || s.Goto? || s.Halt? || s.Empty? || s.Label? || s.Skip?
    ensures Size(Asm(s, at, brk, cont, lab, env)) == Width(s)
  {
    hide Size;
    EmptySize();
    if s.Break? || s.Continue? || s.Goto? || s.Halt? {
      SizeOne(Asm(s, at, brk, cont, lab, env)[0]);
    }
  }

  lemma {:induction false} SeqSize(s: Stmt, at: nat, brk: nat, cont: nat, lab: Labels, env: Env)
    requires s.Seq?
    ensures Size(Asm(s, at, brk, cont, lab, env)) == Width(s)
    decreases s, 0
  {
    hide Size, Asm, Width;
    AsmOfSeq(s, at, brk, cont, lab, env);
    AsmSize(s.first, at, brk, cont, lab, env);
    AsmSize(s.rest, at + Width(s.first), brk, cont, lab, env);
    SizeConcat(Asm(s.first, at, brk, cont, lab, env), Asm(s.rest, at + Width(s.first), brk, cont, lab, env));
  }

  lemma EmptySize()
    ensures Size([]) == 0
  {
  }

  lemma {:induction false} IfSize(s: Stmt, at: nat, brk: nat, cont: nat, lab: Labels, env: Env)
    requires s.If?
    ensures Size(Asm(s, at, brk, cont, lab, env)) == Width(s)
    decreases s, 0
  {
    hide Size, Asm, Width, ValueSize, ValueCode;
    AsmOfIf(s, at, brk, cont, lab, env);
    ExprSizes(s.e, env);
    var x := Asm(s.then_, at + ValueSize(s.e) + 3, brk, cont, lab, env);
    AsmSize(s.then_, at + ValueSize(s.e) + 3, brk, cont, lab, env);
    SizeOne(FJmp(at + Width(s)));
    SizeConcat3(ValueCode(s.e, env), [FJmp(at + Width(s))], x);
  }

  lemma {:induction false} IfElseSize(s: Stmt, at: nat, brk: nat, cont: nat, lab: Labels, env: Env)
    requires s.IfElse?
    ensures Size(Asm(s, at, brk, cont, lab, env)) == Width(s)
    decreases s, 0
  {
    hide Size, Asm, Width, ValueSize, ValueCode;
    AsmOfIfElse(s, at, brk, cont, lab, env);
    var then_ := at + ValueSize(s.e) + 3;
    var els := then_ + Width(s.then_) + 3;
    var x, y := Asm(s.then_, then_, brk, cont, lab, env), Asm(s.else_, els, brk, cont, lab, env);
    var over := [Jmp(at + Width(s))];
    AsmSize(s.then_, then_, brk, cont, lab, env);
    AsmSize(s.else_, els, brk, cont, lab, env);
    ExprSizes(s.e, env);
    SizeOne(FJmp(els));
    SizeOne(over[0]);
    SizeConcat3(x, over, y);
    SizeConcat3(ValueCode(s.e, env), [FJmp(els)], x + (over + y));
  }

  lemma {:induction false} LoopSize(s: Stmt, at: nat, brk: nat, cont: nat, lab: Labels, env: Env)
    requires s.While? || s.Do?
    ensures Size(Asm(s, at, brk, cont, lab, env)) == Width(s)
    decreases s, 0
  {
    hide Size, Asm, Width, ValueSize, ValueCode;
    ExprSizes(s.e, env);
    if s.While? {
      AsmOfWhile(s, at, brk, cont, lab, env);
      var end := at + Width(s);
      var x := Asm(s.body, at + ValueSize(s.e) + 3, end, at, lab, env);
      AsmSize(s.body, at + ValueSize(s.e) + 3, end, at, lab, env);
      SizeOne(FJmp(end));
      SizeOne(Jmp(at));
      SizeConcat(x, [Jmp(at)]);
      SizeConcat3(ValueCode(s.e, env), [FJmp(end)], x + [Jmp(at)]);
    } else {
      AsmOfDo(s, at, brk, cont, lab, env);
      var x := Asm(s.body, at, at + Width(s.body), at, lab, env);
      AsmSize(s.body, at, at + Width(s.body), at, lab, env);
      SizeTwo(Instr.LNot, FJmp(cont));
      SizeConcat3(x, ValueCode(s.e, env), [Instr.LNot, FJmp(cont)]);
    }
  }

  lemma {:induction false} ForSize(s: Stmt, at: nat, brk: nat, cont: nat, lab: Labels, env: Env)
    requires s.For?
    ensures Size(Asm(s, at, brk, cont, lab, env)) == Width(s)
    decreases s, 0
  {
    hide Size, Asm, Width, CodeSize, ValueSize, DropSize, Code, ValueCode, DropCode, PostAt, BodyAt;
    AsmOfFor(s, at, brk, cont, lab, env);
    var end, post, body := at + Width(s), PostAt(s, at), BodyAt(s, at);
    var x := Asm(s.body, body, end, post, lab, env);
    ExprSizes(s.init, env);
    ExprSizes(s.e, env);
    ExprSizes(s.post, env);
    AsmSize(s.body, body, end, post, lab, env);
    SizeTwo(FJmp(end), Jmp(body));
    SizeOne(Jmp(post));
    var p0 := EffectCode(s.post, env);
    var t0 := x + [Jmp(post)];
    var t1 := p0 + ([Jmp(post)] + t0);
    SizeConcat(x, [Jmp(post)]);
    SizeConcat3(p0, [Jmp(post)], t0);
    SizeConcat([FJmp(end), Jmp(body)], t1);
    SizeConcat3(EffectCode(s.init, env), ValueCode(s.e, env), [FJmp(end), Jmp(body)] + t1);
  }

  // ----- The parts of a statement's code in a code block -----

  lemma SeqCode(code: seq<byte>, a: Stmt, b: Stmt, at: nat, brk: nat, cont: nat, lab: Labels, env: Env)
    requires CodeAt(code, at, Asm(Seq(a, b), at, brk, cont, lab, env))
    ensures CodeAt(code, at, Asm(a, at, brk, cont, lab, env))
    ensures CodeAt(code, at + Width(a), Asm(b, at + Width(a), brk, cont, lab, env))
  {
    hide Size, CodeAt, Asm, Width;
    AsmOfSeq(Seq(a, b), at, brk, cont, lab, env);
    AsmSize(a, at, brk, cont, lab, env);
    CodeAtSplit(code, at, Asm(a, at, brk, cont, lab, env), Asm(b, at + Width(a), brk, cont, lab, env));
  }

  lemma IfCode(code: seq<byte>, e: Expr, a: Stmt, at: nat, brk: nat, cont: nat, lab: Labels, env: Env)
    requires CodeAt(code, at, Asm(If(e, a), at, brk, cont, lab, env))
    ensures CodeAt(code, at, ValueCode(e, env))
    ensures CodeAt(code, at + ValueSize(e), [FJmp(at + Width(If(e, a)))])
    ensures CodeAt(code, at + ValueSize(e) + 3, Asm(a, at + ValueSize(e) + 3, brk, cont, lab, env))
  {
    hide Size, ValueSize, ValueCode, CodeAt, Asm, Width;
    AsmOfIf(If(e, a), at, brk, cont, lab, env);
    var end := at + Width(If(e, a));
    var x := Asm(a, at + ValueSize(e) + 3, brk, cont, lab, env);
    ExprSizes(e, env);
    SizeOne(FJmp(end));
    CodeAtSplit(code, at, ValueCode(e, env), [FJmp(end)] + x);
    CodeAtSplit(code, at + ValueSize(e), [FJmp(end)], x);
  }

  lemma IfElseCode(code: seq<byte>, e: Expr, a: Stmt, b: Stmt, at: nat, brk: nat, cont: nat, lab: Labels, env: Env)
    requires CodeAt(code, at, Asm(IfElse(e, a, b), at, brk, cont, lab, env))
    ensures var then_ := at + ValueSize(e) + 3;
            var els := then_ + Width(a) + 3;
            && CodeAt(code, at, ValueCode(e, env))
            && CodeAt(code, at + ValueSize(e), [FJmp(els)])
            && CodeAt(code, then_, Asm(a, then_, brk, cont, lab, env))
            && CodeAt(code, then_ + Width(a), [Jmp(at + Width(IfElse(e, a, b)))])
            && CodeAt(code, els, Asm(b, els, brk, cont, lab, env))
  {
    hide Size, ValueSize, ValueCode, CodeAt, Asm, Width;
    AsmOfIfElse(IfElse(e, a, b), at, brk, cont, lab, env);
    var then_ := at + ValueSize(e) + 3;
    var els := then_ + Width(a) + 3;
    ExprSizes(e, env);
    AsmSize(a, then_, brk, cont, lab, env);
    IfElseSplit(code, at, ValueCode(e, env), FJmp(els), Asm(a, then_, brk, cont, lab, env), Jmp(at + Width(IfElse(e, a, b))),
                Asm(b, els, brk, cont, lab, env));
  }

  lemma IfElseSplit(code: seq<byte>, at: nat, v: seq<Instr>, i: Instr, x: seq<Instr>, j: Instr, y: seq<Instr>)
    requires CodeAt(code, at, v + ([i] + (x + ([j] + y)))) && Len(i) == 3 && Len(j) == 3
    ensures CodeAt(code, at, v) && CodeAt(code, at + Size(v), [i]) && CodeAt(code, at + Size(v) + 3, x)
    ensures CodeAt(code, at + Size(v) + 3 + Size(x), [j]) && CodeAt(code, at + Size(v) + 3 + Size(x) + 3, y)
  {
    hide Size, CodeAt;
    SizeOne(i);
    SizeOne(j);
    CodeAtSplit(code, at, v, [i] + (x + ([j] + y)));
    CodeAtSplit(code, at + Size(v), [i], x + ([j] + y));
    CodeAtSplit(code, at + Size(v) + 3, x, [j] + y);
    CodeAtSplit(code, at + Size(v) + 3 + Size(x), [j], y);
  }

  lemma WhileCode(code: seq<byte>, e: Expr, a: Stmt, at: nat, brk: nat, cont: nat, lab: Labels, env: Env)
    requires CodeAt(code, at, Asm(While(e, a), at, brk, cont, lab, env))
    ensures var body := at + ValueSize(e) + 3;
            var end := at + Width(While(e, a));
            && CodeAt(code, at, ValueCode(e, env))
            && CodeAt(code, at + ValueSize(e), [FJmp(end)])
            && CodeAt(code, body, Asm(a, body, end, at, lab, env))
            && CodeAt(code, body + Width(a), [Jmp(at)])
  {
    hide Size, ValueSize, ValueCode, CodeAt, Asm, Width;
    AsmOfWhile(While(e, a), at, brk, cont, lab, env);
    var body := at + ValueSize(e) + 3;
    var end := at + Width(While(e, a));
    var x := Asm(a, body, end, at, lab, env);
    ExprSizes(e, env);
    SizeOne(FJmp(end));
    AsmSize(a, body, end, at, lab, env);
    CodeAtSplit(code, at, ValueCode(e, env), [FJmp(end)] + (x + [Jmp(at)]));
    CodeAtSplit(code, at + ValueSize(e), [FJmp(end)], x + [Jmp(at)]);
    CodeAtSplit(code, body, x, [Jmp(at)]);
  }
}
