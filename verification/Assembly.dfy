/** What a statement's compilation does to the compiler's state: code with holes, the open breaks of
    the innermost loop, labels and gotos. */
module Assembly {
  import opened Wrappers
  import opened Bytes
  import opened Bytecode
  import opened Syntax
  import opened CodeGen
  import opened Assembler
  import opened Backpatch
  import opened Stability
  import opened Emission

  const CODE_MAX := 0xFFFF

  /** A loop being compiled: the open breaks, and where `continue` goes. */
  datatype Scope = Scope(breaks: seq<nat>, continueAddr: nat)

  // ----- Code -----

  /** Behind `c0` the assembled form of `prog` has been added, but for the open bytes. Once the code
      is too long for 16-bit addresses nothing is claimed: compile reports that at its end. */
  predicate Grown(c0: seq<byte>, c1: seq<byte>, prog: seq<Instr>, open: set<nat>) {
    && |c1| == |c0| + Size(prog)
    && (|c1| <= CODE_MAX ==> c1[..|c0|] == c0 && Agree(c1, |c0|, EncodeAll(prog), open))
  }

  lemma GrownCode(c0: seq<byte>, c1: seq<byte>, prog: seq<Instr>)
    requires c1 == c0 + EncodeAll(prog)
    ensures Grown(c0, c1, prog, {})
  {
    hide EncodeAll, Size;
  }

  lemma GrownConcat(c0: seq<byte>, c1: seq<byte>, c2: seq<byte>, x: seq<Instr>, xo: set<nat>, y: seq<Instr>,
                    yo: set<nat>)
    requires Grown(c0, c1, x, xo) && Grown(c1, c2, y, yo)
    ensures Grown(c0, c2, x + y, xo + yo)
  {
    hide EncodeAll, Size, Agree;
    EncodeConcat(x, y);
    if |c2| <= CODE_MAX {
      assert c1 <= c2;
      assert c2[..|c0|] == c2[..|c1|][..|c0|];
      AgreeConcat(c1, c2, |c0|, EncodeAll(x), xo, EncodeAll(y), yo);
    }
  }

  lemma GrownConcat3(c0: seq<byte>, c1: seq<byte>, c2: seq<byte>, c3: seq<byte>,
                     x: seq<Instr>, xo: set<nat>, y: seq<Instr>, yo: set<nat>, z: seq<Instr>, zo: set<nat>)
    requires Grown(c0, c1, x, xo) && Grown(c1, c2, y, yo) && Grown(c2, c3, z, zo)
    ensures Grown(c0, c3, x + (y + z), xo + (yo + zo))
  {
    hide Grown;
    GrownConcat(c1, c2, c3, y, yo, z, zo);
    GrownConcat(c0, c1, c3, x, xo, y + z, yo + zo);
  }

  /** Behind `c0` comes the opcode `op`. */
  predicate Opcode(c0: seq<byte>, c1: seq<byte>, op: byte) {
    |c0| < |c1| && c1[..|c0| + 1] == c0 + [op]
  }

  function JumpOp(i: Instr): byte
    requires i.Jmp? || i.FJmp?
  {
    if i.Jmp? then OP_JMP else OP_FJMP
  }

  /** A jump whose address is known has been added. */
  predicate Jumped(c0: seq<byte>, c1: seq<byte>, i: Instr) {
    |c1| == |c0| + 3 && (|c1| <= CODE_MAX ==> c1 == c0 + Encode(i))
  }

  lemma JumpedLength(c0: seq<byte>, c1: seq<byte>, i: Instr)
    requires Jumped(c0, c1, i)
    ensures |c1| == |c0| + 3
  {
  }

  lemma GrownLength(c0: seq<byte>, c1: seq<byte>, prog: seq<Instr>, open: set<nat>)
    requires Grown(c0, c1, prog, open)
    ensures |c1| == |c0| + Size(prog)
  {
  }

  /** The opcode of a jump and two bytes of any content: the jump to anywhere, its operand open. */
  lemma GrownHole(c0: seq<byte>, c1: seq<byte>, i: Instr)
    requires i.Jmp? || i.FJmp?
    requires |c1| == |c0| + 3 && Opcode(c0, c1, JumpOp(i))
    ensures Grown(c0, c1, [i], {|c0| + 1, |c0| + 2})
  {
    assert [i][1..] == [];
    assert EncodeAll([i]) == Encode(i);
    SizeOne(i);
    assert c1[..|c0|] == c1[..|c0| + 1][..|c0|];
    assert c1[|c0|] == c1[..|c0| + 1][|c0|];
  }

  /** An operand that is no longer open. */
  lemma GrownPatch(c0: seq<byte>, c1: seq<byte>, prog: seq<Instr>, h: nat, addr: nat, open: set<nat>)
    requires Grown(c0, c1, prog, {h, h + 1} + open)
    requires |c0| <= h && InBounds(|c1|, h % 0x10000)
    requires |c1| <= CODE_MAX ==> h + 1 < |c1| && OperandIs(EncodeAll(prog), h - |c0|, addr)
    ensures Grown(c0, Patch(c1, h % 0x10000, addr % 0x10000), prog, open)
  {
    hide EncodeAll, Size, Agree, OperandIs;
    if |c1| <= CODE_MAX {
      assert h % 0x10000 == h;
      Truncated(c1, h, addr);
      PatchCloses(c1, |c0|, EncodeAll(prog), h, addr, open);
    }
  }

  /** Addresses are stored in two bytes; more of them would not show. */
  lemma Truncated(c: seq<byte>, h: nat, addr: nat)
    requires InBounds(|c|, h)
    ensures Patch(c, h, addr % 0x10000) == Patch(c, h, addr)
  {
    hide Lo, Hi;
    TruncatedBytes(addr);
  }

  lemma TruncatedBytes(addr: nat)
    ensures Lo(addr % 0x10000) == Lo(addr) && Hi(addr % 0x10000) == Hi(addr)
  {
    var q, r := addr / 0x10000, addr % 0x10000;
    var m := r / 256;
    assert addr == 256 * (256 * q + m) + r % 256;
    assert addr / 256 == 256 * q + m;
  }

  // ----- The state -----

  datatype Snap = Snap(env: Env, code: seq<byte>, scopes: seq<Scope>, defs: Labels, gotos: set<(nat, string)>)

  function ContinueOf(scopes: seq<Scope>): nat {
    if scopes == [] then 0 else scopes[|scopes| - 1].continueAddr
  }

  function BreaksOf(scopes: seq<Scope>): set<nat> {
    if scopes == [] then {} else Elems(scopes[|scopes| - 1].breaks)
  }

  /** The same loops, perhaps with more open breaks in the innermost one. */
  predicate SameLoops(a: seq<Scope>, b: seq<Scope>) {
    && |a| == |b|
    && (a != [] ==> a[..|a| - 1] == b[..|a| - 1] && a[|a| - 1].continueAddr == b[|a| - 1].continueAddr)
  }

  lemma SameContinue(a: seq<Scope>, b: seq<Scope>)
    requires SameLoops(a, b)
    ensures ContinueOf(a) == ContinueOf(b)
  {
  }

  lemma SameLoopsTransitive(a: seq<Scope>, b: seq<Scope>, c: seq<Scope>)
    requires SameLoops(a, b) && SameLoops(b, c)
    ensures SameLoops(a, c) && |a| == |b| == |c|
  {
  }

  /** Compiling `s` led from `a` to `b`. */
  predicate After(s: Stmt, a: Snap, b: Snap, brk: nat, lab: Labels) {
    && LegalStmt(s, a.scopes != []) && StmtKnown(s, b.env) && b.env == StmtNames(a.env, s)
    && SameLoops(a.scopes, b.scopes)
    && Grown(a.code, b.code, Asm(s, |a.code|, brk, ContinueOf(a.scopes), lab, b.env), Open(s, |a.code|))
    && (|b.code| <= CODE_MAX ==> Marked(s, a, b))
  }

  /** The holes and labels of `s` have been recorded. */
  predicate Marked(s: Stmt, a: Snap, b: Snap) {
    && BreaksOf(b.scopes) == BreaksOf(a.scopes) + BreakHoles(s, |a.code|)
    && b.defs == Defs(s, |a.code|, a.defs)
    && b.gotos == a.gotos + GotoHoles(s, |a.code|)
  }

  lemma AfterWidth(s: Stmt, a: Snap, b: Snap, brk: nat, lab: Labels)
    requires After(s, a, b, brk, lab)
    ensures |b.code| == |a.code| + Width(s)
    ensures |b.code| <= CODE_MAX ==> b.code[..|a.code|] == a.code
  {
    hide Asm, Size, LegalStmt, StmtKnown, Open, EncodeAll, Agree;
    AsmSize(s, |a.code|, brk, ContinueOf(a.scopes), lab, b.env);
  }

  lemma AfterFacts(s: Stmt, a: Snap, b: Snap, brk: nat, lab: Labels)
    requires After(s, a, b, brk, lab)
    ensures LegalStmt(s, a.scopes != []) && b.env == StmtNames(a.env, s)
    ensures SameLoops(a.scopes, b.scopes) && |b.scopes| == |a.scopes|
    ensures |b.code| == |a.code| + Width(s)
  {
    hide Asm, LegalStmt, StmtKnown, StmtNames, Width;
    AfterWidth(s, a, b, brk, lab);
  }

  lemma OpenUnion(x: set<nat>, y: set<nat>, g: set<(nat, string)>, h: set<(nat, string)>)
    ensures Spread(x + y) == Spread(x) + Spread(y)
    ensures Places(g + h) == Places(g) + Places(h)
  {
    assert forall g0 :: g0 in g ==> g0 in g + h;
    assert forall g0 :: g0 in h ==> g0 in g + h;
  }

  // ----- One lemma for each statement -----

  /** A statement that emits nothing and records nothing. */
  lemma EmptyAfter(s: Stmt, a: Snap, brk: nat, lab: Labels)
    requires s.Empty? || s.Skip?
    ensures After(s, a, a, brk, lab)
  {
    GrownCode(a.code, a.code, []);
    NoHoles();
  }

  lemma LabelAfter(x: string, a: Snap, b: Snap, brk: nat, lab: Labels)
    requires b == a.(defs := b.defs) && (|a.code| <= CODE_MAX ==> b.defs == a.defs[x := |a.code|])
    ensures After(Label(x), a, b, brk, lab)
  {
    GrownCode(a.code, a.code, []);
    NoHoles();
  }

  lemma HaltAfter(a: Snap, b: Snap, brk: nat, lab: Labels)
    requires b == a.(code := a.code + Encode(Instr.Halt))
    ensures After(Stmt.Halt, a, b, brk, lab)
  {
    assert [Instr.Halt][1..] == [];
    GrownCode(a.code, b.code, [Instr.Halt]);
    NoHoles();
  }

  lemma ExprAfter(e: Expr, a: Snap, b: Snap, brk: nat, lab: Labels)
    requires Legal(e) && Known(e, b.env) && b.env == Names(a.env, e)
    requires b == a.(env := b.env, code := a.code + EncodeAll(EffectCode(e, b.env)))
    ensures After(ExprStmt(e), a, b, brk, lab)
  {
    hide EncodeAll, Size, Code, DropCode, Legal, Known, Names, Grown;
    GrownCode(a.code, b.code, EffectCode(e, b.env));
    NoHoles();
  }

  lemma SeqAfter(s: Stmt, t: Stmt, a: Snap, b: Snap, c: Snap, brk: nat, lab: Labels)
    requires After(s, a, b, brk, lab) && After(t, b, c, brk, lab)
    requires Extends(b.env, c.env) && Unique(c.env)
    ensures After(Seq(s, t), a, c, brk, lab)
  {
    AfterWidth(s, a, b, brk, lab);
    AfterWidth(t, b, c, brk, lab);
    StmtKnownLater(s, b.env, c.env);
    AsmStable(s, |a.code|, brk, ContinueOf(a.scopes), lab, b.env, c.env);
    SeqGrown(s, t, a, b, c, brk, lab);
    hide Grown, Width, Asm, Open, LegalStmt, StmtKnown, StmtNames, BreakHoles, GotoHoles, Defs;
    SeqMarked(s, t, a, b, c, brk, lab);
    SeqStatic(s, t, a, b, c);
  }

  lemma SeqGrown(s: Stmt, t: Stmt, a: Snap, b: Snap, c: Snap, brk: nat, lab: Labels)
    requires SameLoops(a.scopes, b.scopes) && |b.code| == |a.code| + Width(s)
    requires Grown(a.code, b.code, Asm(s, |a.code|, brk, ContinueOf(a.scopes), lab, c.env), Open(s, |a.code|))
    requires Grown(b.code, c.code, Asm(t, |b.code|, brk, ContinueOf(b.scopes), lab, c.env), Open(t, |b.code|))
    ensures Grown(a.code, c.code, Asm(Seq(s, t), |a.code|, brk, ContinueOf(a.scopes), lab, c.env), Open(Seq(s, t), |a.code|))
  {
    hide Asm, Grown, Width, Spread, Places;
    AsmOfSeq(Seq(s, t), |a.code|, brk, ContinueOf(a.scopes), lab, c.env);
    var cont := ContinueOf(a.scopes);
    GrownConcat(a.code, b.code, c.code, Asm(s, |a.code|, brk, cont, lab, c.env), Open(s, |a.code|),
                Asm(t, |b.code|, brk, cont, lab, c.env), Open(t, |b.code|));
    OpenUnion(BreakHoles(s, |a.code|), BreakHoles(t, |b.code|), GotoHoles(s, |a.code|), GotoHoles(t, |b.code|));
    OpenUnion(Places(GotoHoles(s, |a.code|)), Places(GotoHoles(t, |b.code|)), {}, {});
    assert Open(Seq(s, t), |a.code|) == Open(s, |a.code|) + Open(t, |b.code|);
  }

  lemma SeqMarked(s: Stmt, t: Stmt, a: Snap, b: Snap, c: Snap, brk: nat, lab: Labels)
    requires |b.code| == |a.code| + Width(s) && |b.code| <= |c.code|
    requires |b.code| <= CODE_MAX ==> Marked(s, a, b)
    requires |c.code| <= CODE_MAX ==> Marked(t, b, c)
    ensures |c.code| <= CODE_MAX ==> Marked(Seq(s, t), a, c)
  {
    hide Width, ValueSize, Elems;
    var n := |a.code|;
    assert BreakHoles(Seq(s, t), n) == BreakHoles(s, n) + BreakHoles(t, n + Width(s));
    assert GotoHoles(Seq(s, t), n) == GotoHoles(s, n) + GotoHoles(t, n + Width(s));
    assert Defs(Seq(s, t), n, a.defs) == Defs(t, n + Width(s), Defs(s, n, a.defs));
    hide BreakHoles, GotoHoles, Defs;
  }

  lemma SeqStatic(s: Stmt, t: Stmt, a: Snap, b: Snap, c: Snap)
    requires LegalStmt(s, a.scopes != []) && StmtKnown(s, c.env) && b.env == StmtNames(a.env, s)
    requires LegalStmt(t, b.scopes != []) && StmtKnown(t, c.env) && c.env == StmtNames(b.env, t)
    requires SameLoops(a.scopes, b.scopes) && SameLoops(b.scopes, c.scopes)
    ensures LegalStmt(Seq(s, t), a.scopes != []) && StmtKnown(Seq(s, t), c.env) && c.env == StmtNames(a.env, Seq(s, t))
    ensures SameLoops(a.scopes, c.scopes)
  {
  }

  lemma {:induction false} StmtKnownLater(s: Stmt, env: Env, fin: Env)
    requires StmtKnown(s, env) && Extends(env, fin) && Unique(fin)
    ensures StmtKnown(s, fin)
    decreases s
  {
    hide Known, Extends, Unique;
    match s {
      case ExprStmt(e) => KindStable(e, env, fin);
      case Seq(a, b) => StmtKnownLater(a, env, fin); StmtKnownLater(b, env, fin);
      case If(e, a) => KindStable(e, env, fin); StmtKnownLater(a, env, fin);
      case IfElse(e, a, b) => KindStable(e, env, fin); StmtKnownLater(a, env, fin); StmtKnownLater(b, env, fin);
      case While(e, a) => KindStable(e, env, fin); StmtKnownLater(a, env, fin);
      case For(i, c, p, a) =>
        KindStable(i, env, fin);
        KindStable(c, env, fin);
        KindStable(p, env, fin);
        StmtKnownLater(a, env, fin);
      case Do(a, e) => StmtKnownLater(a, env, fin); KindStable(e, env, fin);
      case _ =>
    }
  }

  /** `break`, `continue` and `goto`: a jump, its operand open or known. */
  lemma BreakAfter(a: Snap, b: Snap, brk: nat, lab: Labels)
    requires a.scopes != [] && SameLoops(a.scopes, b.scopes)
    requires b == a.(code := b.code, scopes := b.scopes)
    requires |b.code| == |a.code| + 3 && Opcode(a.code, b.code, OP_JMP)
    requires |b.code| <= CODE_MAX ==> BreaksOf(b.scopes) == BreaksOf(a.scopes) + {|a.code| + 1}
    ensures After(Break, a, b, brk, lab)
  {
    GrownHole(a.code, b.code, Jmp(brk));
    NoHoles();
    assert Spread({|a.code| + 1}) == {|a.code| + 1, |a.code| + 2} by {
      assert |a.code| + 1 in {|a.code| + 1};
    }
    assert Open(Break, |a.code|) == {|a.code| + 1, |a.code| + 2};
  }

  lemma GotoAfter(x: string, a: Snap, b: Snap, brk: nat, lab: Labels)
    requires b == a.(code := b.code, gotos := b.gotos)
    requires |b.code| == |a.code| + 3 && Opcode(a.code, b.code, OP_JMP)
    requires |b.code| <= CODE_MAX ==> b.gotos == a.gotos + {(|a.code| + 1, x)}
    ensures After(Goto(x), a, b, brk, lab)
  {
    GrownHole(a.code, b.code, Jmp(AddrOf(lab, x)));
    NoHoles();
    var g := (|a.code| + 1, x);
    assert Places({g}) == {g.0} by { assert g in {g}; }
    assert Spread({g.0}) == {g.0, g.0 + 1} by { assert g.0 in {g.0}; }
    assert Open(Goto(x), |a.code|) == {g.0, g.0 + 1};
  }

  lemma ContinueAfter(a: Snap, b: Snap, brk: nat, lab: Labels)
    requires a.scopes != []
    requires b == a.(code := b.code)
    requires Jumped(a.code, b.code, Jmp(ContinueOf(a.scopes)))
    ensures After(Continue, a, b, brk, lab)
  {
    var i := Jmp(ContinueOf(a.scopes));
    assert [i][1..] == [];
    assert EncodeAll([i]) == Encode(i);
    SizeOne(i);
    NoHoles();
  }

  // ----- Branches -----

  lemma HoleInside(n: nat, h: nat)
    requires h + 1 < n
    ensures InBounds(n, h % 0x10000)
  {
  }

  /** The code of a condition, a jump with an open operand, and what follows. */
  lemma TestGrown(e: Expr, env: Env, t: nat, c0: seq<byte>, c1: seq<byte>, c2: seq<byte>, c3: seq<byte>,
                  rest: seq<Instr>, open: set<nat>)
    requires c1 == c0 + EncodeAll(ValueCode(e, env))
    requires |c2| == |c1| + 3 && Opcode(c1, c2, OP_FJMP)
    requires Grown(c2, c3, rest, open)
    ensures |c1| == |c0| + ValueSize(e) && |c3| >= |c1| + 3
    ensures var prog := TestAsm(ValueCode(e, env), t, rest);
            && Grown(c0, c3, prog, {|c1| + 1, |c1| + 2} + open)
            && OperandIs(EncodeAll(prog), ValueSize(e) + 1, t)
  {
    hide EncodeAll, ValueCode, ValueSize, OperandIs, Agree;
    var v := ValueCode(e, env);
    ExprSizes(e, env);
    GrownCode(c0, c1, v);
    GrownHole(c1, c2, FJmp(t));
    GrownConcat3(c0, c1, c2, c3, v, {}, [FJmp(t)], {|c1| + 1, |c1| + 2}, rest, open);
    assert {} + ({|c1| + 1, |c1| + 2} + open) == {|c1| + 1, |c1| + 2} + open;
    JumpOperand(t);
    WithinLeft([FJmp(t)], rest, 1, t);
    WithinRight(v, [FJmp(t)] + rest, 0, Size(v) + 1, t);
  }

  /** a: before a condition; c1: behind it; b: behind its jump; m: behind the statement it guards. */
  predicate Tested(e: Expr, t: Stmt, a: Snap, c1: seq<byte>, b: Snap, m: Snap, brk: nat, lab: Labels) {
    && ValueEmitted(e, a.env, a.code, b.env, c1)
    && |b.code| == |c1| + 3 && Opcode(c1, b.code, OP_FJMP)
    && b == a.(env := b.env, code := b.code)
    && After(t, b, m, brk, lab) && Extends(b.env, m.env)
  }

  lemma TestedFacts(e: Expr, t: Stmt, a: Snap, c1: seq<byte>, b: Snap, m: Snap, brk: nat, lab: Labels)
    requires Tested(e, t, a, c1, b, m, brk, lab)
    ensures LegalValue(e) && LegalStmt(t, a.scopes != []) && m.env == StmtNames(Names(a.env, e), t)
            && |m.scopes| == |a.scopes|
    ensures |m.code| >= |c1| + 3
  {
    hide After, LegalStmt, StmtNames, Names, LegalValue, Known;
    AfterFacts(t, b, m, brk, lab);
  }

  lemma IfGrown(e: Expr, c0: seq<byte>, c1: seq<byte>, cb: seq<byte>, cm: seq<byte>, x: seq<Instr>, xo: set<nat>,
                env: Env)
    requires c1 == c0 + EncodeAll(ValueCode(e, env))
    requires |cb| == |c1| + 3 && Opcode(c1, cb, OP_FJMP)
    requires Grown(cb, cm, x, xo) && InBounds(|cm|, (|c1| + 1) % 0x10000)
    ensures Grown(c0, Patch(cm, (|c1| + 1) % 0x10000, |cm| % 0x10000), TestAsm(ValueCode(e, env), |cm|, x), xo)
  {
    hide EncodeAll, ValueCode, ValueSize, OperandIs, Agree, Grown, Encode, Patch, Size, TestAsm;
    TestGrown(e, env, |cm|, c0, c1, cb, cm, x, xo);
    ExprSizes(e, env);
    GrownPatch(c0, cm, TestAsm(ValueCode(e, env), |cm|, x), |c1| + 1, |cm|, xo);
  }

  lemma IfAfter(e: Expr, t: Stmt, a: Snap, c1: seq<byte>, b: Snap, m: Snap, n: Snap, brk: nat, lab: Labels)
    requires Tested(e, t, a, c1, b, m, brk, lab) && Unique(m.env)
    requires InBounds(|m.code|, (|c1| + 1) % 0x10000)
    requires n == m.(code := Patch(m.code, (|c1| + 1) % 0x10000, |m.code| % 0x10000))
    ensures After(If(e, t), a, n, brk, lab)
  {
    hide EncodeAll, ValueCode, ValueSize, OperandIs, Agree, LegalStmt, StmtKnown, Open, Grown, Asm, Defs, BreakHoles,
         GotoHoles, StmtNames, LegalValue, Known, Names, Patch, Marked, TestAsm, Width, SameLoops, Unique, Opcode,
         InBounds;
    var at, inner := |a.code|, |b.code|;
    var x := Asm(t, inner, brk, ContinueOf(a.scopes), lab, m.env);
    ExprSizes(e, b.env);
    KindStable(e, b.env, m.env);
    CodeStable(e, b.env, m.env);
    AfterWidth(t, b, m, brk, lab);
    IfGrown(e, a.code, c1, b.code, m.code, x, Open(t, inner), m.env);
    IfStatic(e, t, a, b, m, n, brk, lab);
  }

  lemma IfStatic(e: Expr, t: Stmt, a: Snap, b: Snap, m: Snap, n: Snap, brk: nat, lab: Labels)
    requires LegalValue(e) && Known(e, m.env) && b == a.(env := Names(a.env, e), code := b.code)
    requires LegalStmt(t, b.scopes != []) && StmtKnown(t, m.env) && m.env == StmtNames(b.env, t)
             && SameLoops(b.scopes, m.scopes)
    requires |b.code| == |a.code| + ValueSize(e) + 3 && |m.code| == |b.code| + Width(t)
    requires |m.code| <= CODE_MAX ==> Marked(t, b, m)
    requires n == m.(code := n.code) && |n.code| == |m.code|
    ensures var s := If(e, t);
            && LegalStmt(s, a.scopes != []) && StmtKnown(s, n.env) && n.env == StmtNames(a.env, s) && SameLoops(a.scopes, n.scopes)
            && (|n.code| <= CODE_MAX ==> Marked(s, a, n))
            && Open(s, |a.code|) == Open(t, |b.code|)
            && Asm(s, |a.code|, brk, ContinueOf(a.scopes), lab, n.env)
               == TestAsm(ValueCode(e, n.env), |n.code|, Asm(t, |b.code|, brk, ContinueOf(a.scopes), lab, n.env))
  {
    hide ValueSize, ValueCode, Legal, KindOf, Names, Asm;
    AsmOfIf(If(e, t), |a.code|, brk, ContinueOf(a.scopes), lab, n.env);
  }

  /** The static facts about a statement that has another one behind a condition. */
  lemma IfElseAfter(e: Expr, t: Stmt, f: Stmt, a: Snap, c1: seq<byte>, b: Snap, m: Snap, c2: seq<byte>, o: Snap,
                    p: Snap, n: Snap, brk: nat, lab: Labels)
    requires Tested(e, t, a, c1, b, m, brk, lab)
    requires |c2| == |m.code| + 3 && Opcode(m.code, c2, OP_JMP)
    requires InBounds(|c2|, (|c1| + 1) % 0x10000)
    requires o == m.(code := Patch(c2, (|c1| + 1) % 0x10000, |c2| % 0x10000))
    requires After(f, o, p, brk, lab) && Extends(o.env, p.env) && Unique(p.env)
    requires InBounds(|p.code|, (|m.code| + 1) % 0x10000)
    requires n == p.(code := Patch(p.code, (|m.code| + 1) % 0x10000, |p.code| % 0x10000))
    ensures After(IfElse(e, t, f), a, n, brk, lab)
  {
    hide EncodeAll, ValueCode, ValueSize, OperandIs, Agree, LegalStmt, StmtKnown, Open, Grown, Asm, Defs, BreakHoles,
         GotoHoles, StmtNames, LegalValue, Known, Names, Encode, Patch, Opcode, InBounds, Elems, Size, Unique, Width,
         SameLoops, ContinueOf, Marked, TestAsm, ElseAsm;
    ExprSizes(e, b.env);
    KindStable(e, b.env, p.env);
    CodeStable(e, b.env, p.env);
    StmtKnownLater(t, m.env, p.env);
    AsmStable(t, |b.code|, brk, ContinueOf(a.scopes), lab, m.env, p.env);
    AfterWidth(t, b, m, brk, lab);
    AfterWidth(f, o, p, brk, lab);
    SameContinue(b.scopes, m.scopes);
    IfElseStatic(e, t, f, a, b, m, o, p, n);
    IfElseOpen(e, t, f, |a.code|);
    IfElseAsm(e, t, f, |a.code|, brk, ContinueOf(a.scopes), lab, p.env);
    IfElseGrown(e, a.code, c1, b.code, m.code, c2, o.code, p.code,
                Asm(t, |b.code|, brk, ContinueOf(a.scopes), lab, p.env), Open(t, |b.code|),
                Asm(f, |o.code|, brk, ContinueOf(a.scopes), lab, p.env), Open(f, |o.code|), p.env);
  }

  lemma IfElseGrown(e: Expr, c0: seq<byte>, c1: seq<byte>, cb: seq<byte>, cm: seq<byte>, c2: seq<byte>,
                    co: seq<byte>, cp: seq<byte>,
                    x: seq<Instr>, xo: set<nat>, y: seq<Instr>, yo: set<nat>, env: Env)
    requires c1 == c0 + EncodeAll(ValueCode(e, env))
    requires |cb| == |c1| + 3 && Opcode(c1, cb, OP_FJMP)
    requires Grown(cb, cm, x, xo)
    requires |c2| == |cm| + 3 && Opcode(cm, c2, OP_JMP)
    requires InBounds(|c2|, (|c1| + 1) % 0x10000)
    requires co == Patch(c2, (|c1| + 1) % 0x10000, |c2| % 0x10000)
    requires Grown(co, cp, y, yo)
    requires InBounds(|cp|, (|cm| + 1) % 0x10000)
    ensures Grown(c0, Patch(cp, (|cm| + 1) % 0x10000, |cp| % 0x10000),
                  TestAsm(ValueCode(e, env), |co|, ElseAsm(x, |cp|, y)), xo + yo)
  {
    hide EncodeAll, ValueCode, ValueSize, OperandIs, Agree, Grown, Encode, Patch, Size;
    var v := ValueCode(e, env);
    var over := [Jmp(|cp|)];
    var hole := {|cm| + 1, |cm| + 2};
    GrownHole(cm, c2, Jmp(|cp|));
    GrownConcat(cb, cm, c2, x, xo, over, hole);
    TestGrown(e, env, |co|, c0, c1, cb, c2, x + over, xo + hole);
    GrownPatch(c0, c2, TestAsm(v, |co|, x + over), |c1| + 1, |c2|, xo + hole);
    GrownConcat(c0, co, cp, TestAsm(v, |co|, x + over), xo + hole, y, yo);
    var prog := TestAsm(v, |co|, x + (over + y));
    assert TestAsm(v, |co|, x + over) + y == prog;
    assert xo + hole + yo == hole + (xo + yo);
    GrownLength(cb, cm, x, xo);
    GrownLength(co, cp, y, yo);
    JumpOperand(|cp|);
    WithinLeft(over, y, 1, |cp|);
    WithinRight(x, over + y, 0, Size(x) + 1, |cp|);
    SizeOne(FJmp(|co|));
    WithinRight([FJmp(|co|)], x + (over + y), 0, Size(x) + 4, |cp|);
    WithinRight(v, [FJmp(|co|)] + (x + (over + y)), 0, Size(v) + Size(x) + 4, |cp|);
    GrownPatch(c0, cp, prog, |cm| + 1, |cp|, xo + yo);
  }

  lemma IfElseStatic(e: Expr, t: Stmt, f: Stmt, a: Snap, b: Snap, m: Snap, o: Snap, p: Snap, n: Snap)
    requires LegalValue(e) && Known(e, p.env) && b == a.(env := Names(a.env, e), code := b.code)
    requires LegalStmt(t, b.scopes != []) && StmtKnown(t, p.env) && m.env == StmtNames(b.env, t)
    requires LegalStmt(f, o.scopes != []) && StmtKnown(f, p.env) && p.env == StmtNames(o.env, f)
    requires SameLoops(b.scopes, m.scopes) && o == m.(code := o.code) && SameLoops(o.scopes, p.scopes)
    requires |b.code| == |a.code| + ValueSize(e) + 3 && |m.code| == |b.code| + Width(t)
    requires |o.code| == |m.code| + 3 && |p.code| == |o.code| + Width(f)
    requires |m.code| <= CODE_MAX ==> Marked(t, b, m)
    requires |p.code| <= CODE_MAX ==> Marked(f, o, p)
    requires n == p.(code := n.code) && |n.code| == |p.code|
    ensures var s := IfElse(e, t, f);
            && LegalStmt(s, a.scopes != []) && StmtKnown(s, n.env) && n.env == StmtNames(a.env, s)
            && SameLoops(a.scopes, n.scopes)
            && (|n.code| <= CODE_MAX ==> Marked(s, a, n))
  {
    hide ValueSize, ValueCode, Legal, KindOf, Names, Open, Asm, Elems, Marked, SameLoops;
    if |p.code| <= CODE_MAX {
      IfElseMarked(e, t, f, a, b, m, o, p);
      MarkedElsewhere(IfElse(e, t, f), a, p, n);
    }
    SameLoopsTransitive(a.scopes, o.scopes, p.scopes);
    IfElseLegal(e, t, f, a.env, p.env, a.scopes != []);
    assert a.scopes == b.scopes && m.scopes == o.scopes;
    hide Width, LegalStmt, StmtKnown, StmtNames, Known, LegalValue;
  }

  /** Patching does not touch the records. */
  lemma MarkedElsewhere(s: Stmt, a: Snap, b: Snap, n: Snap)
    requires Marked(s, a, b) && n == b.(code := n.code)
    ensures Marked(s, a, n)
  {
  }

  lemma IfElseLegal(e: Expr, t: Stmt, f: Stmt, env: Env, fin: Env, inLoop: bool)
    ensures LegalStmt(IfElse(e, t, f), inLoop) <==> LegalValue(e) && LegalStmt(t, inLoop) && LegalStmt(f, inLoop)
    ensures StmtKnown(IfElse(e, t, f), fin) <==> Known(e, fin) && StmtKnown(t, fin) && StmtKnown(f, fin)
    ensures StmtNames(env, IfElse(e, t, f)) == StmtNames(StmtNames(Names(env, e), t), f)
  {
    hide LegalValue, Known, Names;
  }

  lemma IfElseMarked(e: Expr, t: Stmt, f: Stmt, a: Snap, b: Snap, m: Snap, o: Snap, p: Snap)
    requires b == a.(env := b.env, code := b.code) && o == m.(code := o.code)
    requires |b.code| == |a.code| + ValueSize(e) + 3 && |m.code| == |b.code| + Width(t) && |o.code| == |m.code| + 3
    requires Marked(t, b, m) && Marked(f, o, p)
    ensures Marked(IfElse(e, t, f), a, p)
  {
    hide ValueSize, Width, Elems;
  }

  lemma IfElseOpen(e: Expr, t: Stmt, f: Stmt, at: nat)
    ensures var then_ := at + ValueSize(e) + 3;
            Open(IfElse(e, t, f), at) == Open(t, then_) + Open(f, then_ + Width(t) + 3)
  {
    hide ValueSize, Spread, Places, Width;
    var then_ := at + ValueSize(e) + 3;
    var els := then_ + Width(t) + 3;
    OpenUnion(BreakHoles(t, then_), BreakHoles(f, els), GotoHoles(t, then_), GotoHoles(f, els));
    OpenUnion(Places(GotoHoles(t, then_)), Places(GotoHoles(f, els)), {}, {});
  }

  lemma IfElseAsm(e: Expr, t: Stmt, f: Stmt, at: nat, brk: nat, cont: nat, lab: Labels, env: Env)
    ensures var then_ := at + ValueSize(e) + 3;
            var els := then_ + Width(t) + 3;
            Asm(IfElse(e, t, f), at, brk, cont, lab, env)
            == TestAsm(ValueCode(e, env), els,
                       ElseAsm(Asm(t, then_, brk, cont, lab, env), els + Width(f), Asm(f, els, brk, cont, lab, env)))
  {
    hide Asm, ValueSize, ValueCode, Size, Width, TestAsm, ElseAsm;
    AsmOfIfElse(IfElse(e, t, f), at, brk, cont, lab, env);
  }

  // ----- Loops -----

  /** A loop's scope is entered at `at`, with `breaks` open so far. */
  function Pushed(scopes: seq<Scope>, breaks: seq<nat>, at: nat): seq<Scope> {
    scopes + [Scope(breaks, at % 0x10000)]
  }

  lemma PushedNonempty(a: seq<Scope>, hs: seq<nat>, at: nat)
    ensures Pushed(a, hs, at) != []
  {
  }

  lemma PushedLast(a: seq<Scope>, at: nat)
    ensures var s := Pushed(a, [], at); s != [] && s[|s| - 1].continueAddr == at % 0x10000
  {
  }

  lemma BreakPushed(a: seq<Scope>, at: nat, h: nat)
    ensures var s := Pushed(a, [], at);
            s[|s| - 1 := Scope(s[|s| - 1].breaks + [h], s[|s| - 1].continueAddr)] == Pushed(a, [h], at)
  {
    assert [] + [h] == [h];
  }

  lemma LoopPopped(a: seq<Scope>, hs: seq<nat>, n: nat, m: seq<Scope>)
    requires SameLoops(Pushed(a, hs, n), m)
    ensures m != [] && m[..|m| - 1] == a && m[|m| - 1].continueAddr == n % 0x10000
  {
    assert Pushed(a, hs, n)[..|a|] == a;
  }

  /** The open breaks of the innermost loop. */
  function Innermost(scopes: seq<Scope>): seq<nat> {
    if scopes == [] then [] else scopes[|scopes| - 1].breaks
  }

  predicate AllInBounds(n: nat, hs: seq<nat>) {
    forall i :: 0 <= i < |hs| ==> InBounds(n, hs[i])
  }

  /** Filling every open break of a scope with the address behind the loop. */
  lemma PopGrown(c0: seq<byte>, c1: seq<byte>, prog: seq<Instr>, hs: seq<nat>, end: nat, open: set<nat>, rest: set<nat>)
    requires Grown(c0, c1, prog, open) && AllInBounds(|c1|, hs)
    requires |c1| <= CODE_MAX ==>
               && open <= Spread(Elems(hs)) + rest
               && forall h :: h in Elems(hs) ==> |c0| <= h && h + 1 < |c1| && OperandIs(EncodeAll(prog), h - |c0|, end)
    ensures Grown(c0, PatchAll(c1, hs, end % 0x10000), prog, rest)
  {
    hide EncodeAll, Size, OperandIs, Spread, Agree, Patch;
    if |c1| <= CODE_MAX {
      AgreeMore(c1, |c0|, EncodeAll(prog), open, Spread(Elems(hs)) + rest);
      forall i | 0 <= i < |hs|
        ensures |c0| <= hs[i] && hs[i] + 1 < |c1| && OperandIs(EncodeAll(prog), hs[i] - |c0|, end)
      {
        assert hs[i] in Elems(hs);
      }
      PatchAllCloses(c1, |c0|, EncodeAll(prog), hs, end, rest);
      AllTruncated(c1, hs, end);
    }
  }

  lemma {:induction false} AllTruncated(c: seq<byte>, hs: seq<nat>, addr: nat)
    requires AllInBounds(|c|, hs)
    ensures PatchAll(c, hs, addr % 0x10000) == PatchAll(c, hs, addr)
    decreases |hs|
  {
    hide Patch;
    if hs != [] {
      Truncated(c, hs[0], addr);
      AllTruncated(Patch(c, hs[0], addr), hs[1..], addr);
    }
  }

  /** The known jump back of a loop. */
  lemma BackGrown(c0: seq<byte>, c1: seq<byte>, t: nat)
    requires Jumped(c0, c1, Jmp(t % 0x10000)) && (|c1| <= CODE_MAX ==> t <= CODE_MAX)
    ensures Grown(c0, c1, [Jmp(t)], {})
  {
    hide Encode, EncodeAll, Size, Agree;
    EncodeOne(Jmp(t));
    SizeOne(Jmp(t));
    if |c1| <= CODE_MAX {
      GrownCode(c0, c1, [Jmp(t)]);
    }
  }

  /** a: before a loop; c1: behind its condition; b: behind the condition's jump, in the new scope. */
  predicate Entered(e: Expr, a: Snap, c1: seq<byte>, b: Snap) {
    && ValueEmitted(e, a.env, a.code, b.env, c1)
    && |b.code| == |c1| + 3 && Opcode(c1, b.code, OP_FJMP)
    && b == a.(env := b.env, code := b.code, scopes := Pushed(a.scopes, [(|c1| + 1) % 0x10000], |a.code|))
  }

  lemma EnteredFacts(e: Expr, a: Snap, c1: seq<byte>, b: Snap)
    requires Entered(e, a, c1, b)
    ensures LegalValue(e) && b.env == Names(a.env, e) && b.scopes == Pushed(a.scopes, [(|c1| + 1) % 0x10000], |a.code|)
    ensures b.scopes != [] && |b.code| == |c1| + 3
  {
    hide LegalValue, Names;
  }

  /** a, c1, b: as above; m: behind the body; c3: behind the jump back; n: after the scope was popped. */
  lemma WhileAfter(e: Expr, t: Stmt, a: Snap, c1: seq<byte>, b: Snap, m: Snap, c3: seq<byte>, n: Snap, brk: nat,
                   lab: Labels)
    requires Entered(e, a, c1, b)
    requires After(t, b, m, |a.code| + Width(While(e, t)), lab) && Extends(b.env, m.env) && Unique(m.env)
    requires Jumped(m.code, c3, Jmp(|a.code| % 0x10000)) && AllInBounds(|c3|, Innermost(m.scopes))
    requires n == m.(code := PatchAll(c3, Innermost(m.scopes), |c3| % 0x10000), scopes := a.scopes)
    ensures After(While(e, t), a, n, brk, lab)
  {
    hide EncodeAll, ValueCode, ValueSize, Agree, LegalStmt, StmtKnown, Open, Grown, Asm, Marked, StmtNames,
         LegalValue, Known, Names, Encode, PatchAll, Opcode, Jumped, AllInBounds, Spread, Places, Size, Unique,
         ContinueOf;
    ExprSizes(e, b.env);
    KindStable(e, b.env, m.env);
    CodeStable(e, b.env, m.env);
    AfterWidth(t, b, m, |a.code| + Width(While(e, t)), lab);
    JumpedLength(m.code, c3, Jmp(|a.code| % 0x10000));
    WhileStatic(e, t, a, b, m, n, brk, lab);
    if |c3| <= CODE_MAX {
      WhileGrown(e, t, a, c1, b, m, c3, lab);
    } else {
      TooLong(While(e, t), a, n, brk, lab);
    }
  }

  lemma TooLong(s: Stmt, a: Snap, n: Snap, brk: nat, lab: Labels)
    requires |n.code| == |a.code| + Width(s) && |n.code| > CODE_MAX
    ensures Grown(a.code, n.code, Asm(s, |a.code|, brk, ContinueOf(a.scopes), lab, n.env), Open(s, |a.code|))
  {
    hide Size, Asm, Width, Open;
    AsmSize(s, |a.code|, brk, ContinueOf(a.scopes), lab, n.env);
  }

  lemma WhileGrown(e: Expr, t: Stmt, a: Snap, c1: seq<byte>, b: Snap, m: Snap, c3: seq<byte>, lab: Labels)
    requires |c3| <= CODE_MAX
    requires c1 == a.code + EncodeAll(ValueCode(e, m.env)) && |c1| == |a.code| + ValueSize(e)
    requires |b.code| == |c1| + 3 && Opcode(c1, b.code, OP_FJMP)
    requires b.scopes == Pushed(a.scopes, [(|c1| + 1) % 0x10000], |a.code|) && SameLoops(b.scopes, m.scopes)
    requires Grown(b.code, m.code, Asm(t, |b.code|, |c3|, ContinueOf(b.scopes), lab, m.env), Open(t, |b.code|))
    requires |m.code| <= CODE_MAX ==> Marked(t, b, m)
    requires Jumped(m.code, c3, Jmp(|a.code| % 0x10000)) && AllInBounds(|c3|, Innermost(m.scopes))
    ensures Grown(a.code, PatchAll(c3, Innermost(m.scopes), |c3| % 0x10000),
                  TestAsm(ValueCode(e, m.env), |c3|, Asm(t, |b.code|, |c3|, |a.code|, lab, m.env) + [Jmp(|a.code|)]),
                  Spread(Places(GotoHoles(t, |b.code|))))
  {
    hide EncodeAll, ValueCode, ValueSize, OperandIs, Agree, Open, Grown, Asm, Marked, SameLoops, BreakHoles,
         GotoHoles, Encode, Patch, PatchAll, Spread, Places, Elems, Innermost;
    var at, inner, end := |a.code|, |b.code|, |c3|;
    var x := Asm(t, inner, end, at, lab, m.env);
    var prog := TestAsm(ValueCode(e, m.env), end, x + [Jmp(at)]);
    GrownLength(b.code, m.code, Asm(t, |b.code|, |c3|, ContinueOf(b.scopes), lab, m.env), Open(t, |b.code|));
    assert ContinueOf(b.scopes) == at;
    BackGrown(m.code, c3, at);
    GrownConcat(b.code, m.code, c3, x, Open(t, inner), [Jmp(at)], {});
    TestGrown(e, m.env, end, a.code, c1, b.code, c3, x + [Jmp(at)], Open(t, inner) + {});
    WhileBreaks(t, |c1| + 1, a, b, m);
    forall h | h in Elems(Innermost(m.scopes))
      ensures at <= h && h + 1 < |c3| && OperandIs(EncodeAll(prog), h - at, end)
    {
      WhileOperand(e, t, at, end, lab, m.env, h);
      OperandInside(EncodeAll(prog), h - at, end);
      GrownLength(a.code, c3, prog, {|c1| + 1, |c1| + 2} + (Open(t, inner) + {}));
    }
    PopGrown(a.code, c3, prog, Innermost(m.scopes), end, {|c1| + 1, |c1| + 2} + (Open(t, inner) + {}),
             Spread(Places(GotoHoles(t, inner))));
  }

  /** The open breaks of the loop are its condition's jump and the breaks of its body ... */
  lemma WhileBreaks(t: Stmt, h0: nat, a: Snap, b: Snap, m: Snap)
    requires b.scopes == Pushed(a.scopes, [h0], |a.code|) && Marked(t, b, m) && SameLoops(b.scopes, m.scopes)
    ensures var hs := Elems(Innermost(m.scopes));
            && hs == {h0} + BreakHoles(t, |b.code|)
            && {h0, h0 + 1} + (Open(t, |b.code|) + {}) <= Spread(hs) + Spread(Places(GotoHoles(t, |b.code|)))
  {
    hide Defs, BreakHoles, GotoHoles, Places, Spread;
    assert Innermost(b.scopes) == [h0];
    OneElem(h0);
    OpenUnion({h0}, BreakHoles(t, |b.code|), {}, {});
    SpreadSingle(h0);
  }

  /** ... and all of them are to go behind the loop. */
  lemma WhileOperand(e: Expr, t: Stmt, at: nat, end: nat, lab: Labels, env: Env, h: nat)
    requires h == at + ValueSize(e) + 1 || h in BreakHoles(t, at + ValueSize(e) + 3)
    ensures var x := Asm(t, at + ValueSize(e) + 3, end, at, lab, env);
            at <= h && OperandIs(EncodeAll(TestAsm(ValueCode(e, env), end, x + [Jmp(at)])), h - at, end)
  {
    hide EncodeAll, ValueCode, ValueSize, OperandIs, Asm, BreakHoles, Size;
    var inner := at + ValueSize(e) + 3;
    var x := Asm(t, inner, end, at, lab, env);
    if h == at + ValueSize(e) + 1 {
      ExprSizes(e, env);
      JumpOperand(end);
      WithinLeft([FJmp(end)], x + [Jmp(at)], 1, end);
      WithinRight(ValueCode(e, env), [FJmp(end)] + (x + [Jmp(at)]), at, h, end);
    } else {
      HoleWants(t, inner, end, at, lab, env, h, None);
      WithinLeft(x, [Jmp(at)], h - inner, end);
      BehindTest(e, env, end, x + [Jmp(at)], at, h, end);
    }
  }

  lemma OperandInside(bytes: seq<byte>, off: nat, t: nat)
    requires OperandIs(bytes, off, t)
    ensures off + 1 < |bytes|
  {
  }

  lemma OneElem(h: nat)
    ensures Elems([h]) == {h}
  {
    assert h in [h];
  }

  lemma SpreadSingle(h: nat)
    ensures Spread({h}) == {h, h + 1}
  {
    assert h in {h};
  }

  lemma WhileStatic(e: Expr, t: Stmt, a: Snap, b: Snap, m: Snap, n: Snap, brk: nat, lab: Labels)
    requires LegalValue(e) && Known(e, n.env) && b.env == Names(a.env, e) && b.defs == a.defs && b.gotos == a.gotos
    requires LegalStmt(t, b.scopes != []) && b.scopes != [] && StmtKnown(t, n.env) && n.env == StmtNames(b.env, t)
    requires |b.code| == |a.code| + ValueSize(e) + 3 && |m.code| == |b.code| + Width(t) && |n.code| == |m.code| + 3
    requires |m.code| <= CODE_MAX ==> Marked(t, b, m)
    requires n == m.(code := n.code, scopes := a.scopes)
    ensures var s := While(e, t);
            && LegalStmt(s, a.scopes != []) && StmtKnown(s, n.env) && n.env == StmtNames(a.env, s)
            && (|n.code| <= CODE_MAX ==> Marked(s, a, n))
            && Open(s, |a.code|) == Spread(Places(GotoHoles(t, |b.code|)))
            && Asm(s, |a.code|, brk, ContinueOf(a.scopes), lab, n.env)
               == TestAsm(ValueCode(e, n.env), |n.code|, Asm(t, |b.code|, |n.code|, |a.code|, lab, n.env) + [Jmp(|a.code|)])
  {
    hide ValueSize, ValueCode, Legal, KindOf, Names, Places, Asm;
    AsmOfWhile(While(e, t), |a.code|, brk, ContinueOf(a.scopes), lab, n.env);
    assert Spread({}) == {} by { NoHoles(); }
  }

  /** a: before; b: in the new scope; m: behind the body; c1: after the scope was popped. */
  predicate Popped(t: Stmt, a: Snap, b: Snap, m: Snap, c1: seq<byte>, lab: Labels) {
    && b == a.(scopes := Pushed(a.scopes, [], |a.code|))
    && After(t, b, m, |a.code| + Width(t), lab)
    && AllInBounds(|m.code|, Innermost(m.scopes))
    && c1 == PatchAll(m.code, Innermost(m.scopes), |m.code| % 0x10000)
  }

  lemma PoppedFacts(t: Stmt, a: Snap, b: Snap, m: Snap, c1: seq<byte>, lab: Labels)
    requires Popped(t, a, b, m, c1, lab)
    ensures LegalStmt(t, true) && m.env == StmtNames(a.env, t)
  {
    hide After, LegalStmt, StmtNames, PatchAll, AllInBounds, Width, Innermost;
    PushedNonempty(a.scopes, [], |a.code|);
    AfterFacts(t, b, m, |a.code| + Width(t), lab);
  }

  /** a: before; b: in the new scope; m: behind the body; c1: after the scope was popped; n: behind the
      test, which jumps to where `continue` of the enclosing loop goes. */
  lemma DoAfter(t: Stmt, e: Expr, a: Snap, b: Snap, m: Snap, c1: seq<byte>, c2: seq<byte>, n: Snap, brk: nat,
                lab: Labels)
    requires a.scopes != [] && Popped(t, a, b, m, c1, lab) && Extends(m.env, n.env) && Unique(n.env)
    requires ValueEmitted(e, m.env, c1, n.env, c2)
    requires n == m.(env := n.env, scopes := a.scopes, code := n.code)
    requires Jumped(c2 + Encode(Instr.LNot), n.code, FJmp(ContinueOf(a.scopes)))
    ensures After(Do(t, e), a, n, brk, lab)
  {
    hide EncodeAll, ValueCode, ValueSize, Agree, LegalStmt, StmtKnown, Open, Grown, Asm, Defs, BreakHoles, GotoHoles,
         StmtNames, Legal, KindOf, Known, Names, Encode, Patch, PatchAll;
    AfterWidth(t, b, m, |a.code| + Width(t), lab);
    StmtKnownLater(t, m.env, n.env);
    DoTest(e, n.env, c1, n.code, ContinueOf(a.scopes));
    DoStatic(t, e, a, b, m, n, brk, lab);
    if |n.code| <= CODE_MAX {
      AsmStable(t, |a.code|, |m.code|, ContinueOf(b.scopes), lab, m.env, n.env);
      DoPopped(t, a, b, m, n.env, lab);
      GrownConcat(a.code, c1, n.code, Asm(t, |a.code|, |m.code|, |a.code|, lab, n.env), Spread(Places(GotoHoles(t, |a.code|))),
                  ValueCode(e, n.env) + [Instr.LNot, FJmp(ContinueOf(a.scopes))], {});
    } else {
      TooLong(Do(t, e), a, n, brk, lab);
    }
  }

  lemma DoTest(e: Expr, env: Env, c1: seq<byte>, c2: seq<byte>, cont: nat)
    requires Jumped(c1 + EncodeAll(ValueCode(e, env)) + Encode(Instr.LNot), c2, FJmp(cont))
    ensures |c2| == |c1| + ValueSize(e) + 4
    ensures Grown(c1, c2, ValueCode(e, env) + [Instr.LNot, FJmp(cont)], {})
  {
    hide EncodeAll, ValueCode, ValueSize, Size, Agree, Encode;
    EncodeTwo(Instr.LNot, FJmp(cont));
    EncodeConcat(ValueCode(e, env), [Instr.LNot, FJmp(cont)]);
    if |c2| <= CODE_MAX {
      assert c2 == c1 + EncodeAll(ValueCode(e, env) + [Instr.LNot, FJmp(cont)]);
      GrownCode(c1, c2, ValueCode(e, env) + [Instr.LNot, FJmp(cont)]);
    }
    ExprSizes(e, env);
    SizeTwo(Instr.LNot, FJmp(cont));
  }

  lemma DoPopped(t: Stmt, a: Snap, b: Snap, m: Snap, env: Env, lab: Labels)
    requires |m.code| <= CODE_MAX && |m.code| == |a.code| + Width(t)
    requires b.scopes == Pushed(a.scopes, [], |a.code|) && b.code == a.code && SameLoops(b.scopes, m.scopes)
    requires Grown(a.code, m.code, Asm(t, |a.code|, |m.code|, ContinueOf(b.scopes), lab, env), Open(t, |a.code|))
    requires Marked(t, b, m) && AllInBounds(|m.code|, Innermost(m.scopes))
    ensures Grown(a.code, PatchAll(m.code, Innermost(m.scopes), |m.code| % 0x10000),
                  Asm(t, |a.code|, |m.code|, |a.code|, lab, env), Spread(Places(GotoHoles(t, |a.code|))))
  {
    hide EncodeAll, Agree, Grown, Asm, Defs, BreakHoles, GotoHoles, Patch, PatchAll, Spread, Places, OperandIs, Size;
    var at, end := |a.code|, |m.code|;
    assert ContinueOf(b.scopes) == at;
    var x := Asm(t, at, end, at, lab, env);
    assert Innermost(b.scopes) == [];
    NoHoles();
    assert Elems(Innermost(m.scopes)) == BreakHoles(t, at);
    AsmSize(t, at, end, at, lab, env);
    forall h | h in Elems(Innermost(m.scopes))
      ensures at <= h && h + 1 < end && OperandIs(EncodeAll(x), h - at, end)
    {
      HoleWants(t, at, end, at, lab, env, h, None);
      OperandInside(EncodeAll(x), h - at, end);
    }
    PopGrown(a.code, m.code, x, Innermost(m.scopes), end, Open(t, at), Spread(Places(GotoHoles(t, at))));
  }

  lemma DoStatic(t: Stmt, e: Expr, a: Snap, b: Snap, m: Snap, n: Snap, brk: nat, lab: Labels)
    requires a.scopes != [] && LegalValue(e) && Known(e, n.env) && b == a.(scopes := b.scopes)
    requires LegalStmt(t, b.scopes != []) && b.scopes != [] && StmtKnown(t, n.env) && m.env == StmtNames(b.env, t)
             && n.env == Names(m.env, e)
    requires |m.code| == |a.code| + Width(t) && |n.code| == |m.code| + ValueSize(e) + 4
    requires |m.code| <= CODE_MAX ==> Marked(t, b, m)
    requires n == m.(env := n.env, code := n.code, scopes := a.scopes)
    ensures var s := Do(t, e);
            && LegalStmt(s, a.scopes != []) && StmtKnown(s, n.env) && n.env == StmtNames(a.env, s)
            && (|n.code| <= CODE_MAX ==> Marked(s, a, n))
            && |n.code| == |a.code| + Width(s)
            && Open(s, |a.code|) == Spread(Places(GotoHoles(t, |a.code|))) + {}
            && Asm(s, |a.code|, brk, ContinueOf(a.scopes), lab, n.env)
               == Asm(t, |a.code|, |m.code|, |a.code|, lab, n.env) + (ValueCode(e, n.env) + [Instr.LNot, FJmp(ContinueOf(a.scopes))])
  {
    hide ValueSize, ValueCode, Legal, KindOf, Names, Places, Asm;
    AsmOfDo(Do(t, e), |a.code|, brk, ContinueOf(a.scopes), lab, n.env);
    assert Spread({}) == {} by { NoHoles(); }
  }

  /** The names and the code as the clauses of a `for` are compiled: c1 behind the initial clause, c2
      behind the condition, c3 and c4 behind its two jumps, c5 behind the post clause, c6 behind its jump
      to itself, c7 with the jump to the body filled in. */
  datatype Clauses = Clauses(env1: Env, c1: seq<byte>, env2: Env, c2: seq<byte>, c3: seq<byte>, c4: seq<byte>,
                             env3: Env, c5: seq<byte>, c6: seq<byte>, c7: seq<byte>)

  predicate ForHead(s: Stmt, c0: seq<byte>, k: Clauses, env: Env)
    requires s.For?
  {
    && k.c1 == c0 + EncodeAll(EffectCode(s.init, env))
    && k.c2 == k.c1 + EncodeAll(ValueCode(s.e, env))
    && |k.c3| == |k.c2| + 3 && Opcode(k.c2, k.c3, OP_FJMP)
    && |k.c4| == |k.c3| + 3 && Opcode(k.c3, k.c4, OP_JMP)
    && k.c5 == k.c4 + EncodeAll(EffectCode(s.post, env))
    && Jumped(k.c5, k.c6, Jmp(|k.c4| % 0x10000))
    && InBounds(|k.c6|, (|k.c3| + 1) % 0x10000)
    && k.c7 == Patch(k.c6, (|k.c3| + 1) % 0x10000, |k.c6| % 0x10000)
  }

  lemma ForSizes(s: Stmt, c0: seq<byte>, k: Clauses, env: Env)
    requires s.For? && ForHead(s, c0, k, env)
    ensures |k.c1| == |c0| + CodeSize(s.init) + DropSize(s.init) && |k.c2| == |k.c1| + ValueSize(s.e)
    ensures |k.c4| == PostAt(s, |c0|) && |k.c7| == |k.c6| == BodyAt(s, |c0|)
  {
    hide EncodeAll, Code, ValueCode, DropCode, CodeSize, ValueSize, DropSize, Patch;
    ExprSizes(s.init, env);
    ExprSizes(s.e, env);
    ExprSizes(s.post, env);
  }

  /** Where the operand of the condition's jump stands within a `for`. */
  function ForHole(s: Stmt): nat
    requires s.For?
  {
    CodeSize(s.init) + DropSize(s.init) + ValueSize(s.e) + 1
  }

  /** What lies between the condition's jump and the body. */
  function ForMiddle(s: Stmt, at: nat, env: Env): seq<Instr>
    requires s.For?
  {
    [Jmp(BodyAt(s, at))] + (EffectCode(s.post, env) + [Jmp(PostAt(s, at))])
  }

  lemma ForMiddleGrown(s: Stmt, c0: seq<byte>, k: Clauses, env: Env)
    requires s.For? && ForHead(s, c0, k, env)
    ensures Grown(k.c3, k.c7, ForMiddle(s, |c0|, env), {})
  {
    hide EncodeAll, Encode, Code, DropCode, Patch, Agree, OperandIs, Size, BodyAt, PostAt;
    ForSizes(s, c0, k, env);
    var p, jump, back := EffectCode(s.post, env), Jmp(|k.c6|), Jmp(|k.c4|);
    GrownHole(k.c3, k.c4, jump);
    GrownCode(k.c4, k.c5, p);
    BackGrown(k.c5, k.c6, |k.c4|);
    GrownConcat3(k.c3, k.c4, k.c5, k.c6, [jump], {|k.c3| + 1, |k.c3| + 2}, p, {}, [back], {});
    assert {|k.c3| + 1, |k.c3| + 2} + ({} + {}) == {|k.c3| + 1, |k.c3| + 2} + {};
    JumpOperand(|k.c6|);
    WithinLeft([jump], p + [back], 1, |k.c6|);
    GrownPatch(k.c3, k.c6, [jump] + (p + [back]), |k.c3| + 1, |k.c6|, {});
  }

  /** a: before; b: in the new scope, before the body; m: behind the body; c8: behind the jump back;
      c9: after the scope was popped; n: with the condition's jump filled in. */
  lemma ForAfter(s: Stmt, a: Snap, k: Clauses, b: Snap, m: Snap, c8: seq<byte>, c9: seq<byte>, n: Snap, brk: nat,
                 lab: Labels)
    requires s.For? && Legal(s.init) && LegalValue(s.e) && Legal(s.post)
    requires Known(s.init, m.env) && Known(s.e, m.env) && Known(s.post, m.env)
    requires b.env == Names(Names(Names(a.env, s.init), s.e), s.post)
    requires ForHead(s, a.code, k, m.env) && b.code == k.c7
    requires b == a.(env := b.env, code := b.code, scopes := Pushed(a.scopes, [], |k.c4|))
    requires After(s.body, b, m, |a.code| + Width(s), lab) && Extends(b.env, m.env) && Unique(m.env)
    requires Jumped(m.code, c8, Jmp(|k.c4| % 0x10000)) && AllInBounds(|c8|, Innermost(m.scopes))
    requires c9 == PatchAll(c8, Innermost(m.scopes), |c8| % 0x10000) && InBounds(|c9|, (|k.c2| + 1) % 0x10000)
    requires n == m.(code := Patch(c9, (|k.c2| + 1) % 0x10000, |c9| % 0x10000), scopes := a.scopes)
    ensures After(s, a, n, brk, lab)
  {
    hide EncodeAll, ValueCode, ValueSize, CodeSize, DropSize, Agree, LegalStmt, StmtKnown, Open, Grown, Asm, Defs,
         BreakHoles, GotoHoles, StmtNames, Legal, KindOf, Known, Names, Encode, Patch, PatchAll, ForHead, ForMiddle,
         ForTail, PostAt;
    AfterWidth(s.body, b, m, |a.code| + Width(s), lab);
    ForSizes(s, a.code, k, m.env);
    ForStatic(s, a, b, m, n);
    if |n.code| <= CODE_MAX {
      ForMiddleGrown(s, a.code, k, m.env);
      ForTailGrown(s, a, k.c3, b, m, c8, lab);
      ForHeadGrown(s, a.code, k, c8, m.env, ForTail(s, |a.code|, lab, m.env), Open(s.body, |b.code|));
      ForPopped(s, a, k.c2, m, c8, c9, lab);
      ForShape(s, |a.code|, brk, ContinueOf(a.scopes), lab, m.env);
    } else {
      TooLong(s, a, n, brk, lab);
    }
  }

  /** What lies behind the condition's jump. */
  function ForTail(s: Stmt, at: nat, lab: Labels, env: Env): seq<Instr>
    requires s.For?
  {
    ForMiddle(s, at, env) + (Asm(s.body, BodyAt(s, at), at + Width(s), PostAt(s, at), lab, env) + [Jmp(PostAt(s, at))])
  }

  /** The assembled form of a `for`, grouped as it is compiled. */
  function ForCode(s: Stmt, at: nat, lab: Labels, env: Env): seq<Instr>
    requires s.For?
  {
    EffectCode(s.init, env)
    + (TestAsm(ValueCode(s.e, env), at + Width(s), ForTail(s, at, lab, env)))
  }

  lemma ForShape(s: Stmt, at: nat, brk: nat, cont: nat, lab: Labels, env: Env)
    requires s.For?
    ensures Asm(s, at, brk, cont, lab, env) == ForCode(s, at, lab, env)
    ensures Open(s, at) == Spread(Places(GotoHoles(s.body, BodyAt(s, at))))
  {
    hide Asm, Width, BodyAt, PostAt, Code, ValueCode, DropCode, Places;
    AsmOfFor(s, at, brk, cont, lab, env);
    assert Spread({}) == {} by { NoHoles(); }
    var end, post := at + Width(s), PostAt(s, at);
    var x := Asm(s.body, BodyAt(s, at), end, post, lab, env);
    var p := EffectCode(s.post, env);
    assert [FJmp(end), Jmp(BodyAt(s, at))] + (p + ([Jmp(post)] + (x + [Jmp(post)])))
        == [FJmp(end)] + (ForMiddle(s, at, env) + (x + [Jmp(post)]));
  }

  lemma ForTailGrown(s: Stmt, a: Snap, c3: seq<byte>, b: Snap, m: Snap, c8: seq<byte>, lab: Labels)
    requires s.For? && |b.code| == BodyAt(s, |a.code|)
    requires |c8| <= CODE_MAX && |m.code| <= |c8| && PostAt(s, |a.code|) <= |c8|
    requires b.scopes == Pushed(a.scopes, [], PostAt(s, |a.code|))
    requires Grown(c3, b.code, ForMiddle(s, |a.code|, m.env), {})
    requires Grown(b.code, m.code, Asm(s.body, |b.code|, |a.code| + Width(s), ContinueOf(b.scopes), lab, m.env),
                   Open(s.body, |b.code|))
    requires Jumped(m.code, c8, Jmp(PostAt(s, |a.code|) % 0x10000))
    ensures Grown(c3, c8, ForTail(s, |a.code|, lab, m.env), Open(s.body, |b.code|))
  {
    hide EncodeAll, Encode, Agree, Size, BodyAt, PostAt, Width, Asm, Open, Grown, ForMiddle;
    var at, post := |a.code|, PostAt(s, |a.code|);
    assert ContinueOf(b.scopes) == post;
    var x := Asm(s.body, |b.code|, at + Width(s), post, lab, m.env);
    BackGrown(m.code, c8, post);
    GrownConcat3(c3, b.code, m.code, c8, ForMiddle(s, at, m.env), {}, x, Open(s.body, |b.code|), [Jmp(post)], {});
    assert {} + (Open(s.body, |b.code|) + {}) == Open(s.body, |b.code|);
  }

  lemma ForHeadGrown(s: Stmt, c0: seq<byte>, k: Clauses, c8: seq<byte>, env: Env, rest: seq<Instr>, open: set<nat>)
    requires s.For? && ForHead(s, c0, k, env)
    requires Grown(k.c3, c8, rest, open)
    ensures var prog := EffectCode(s.init, env) + (TestAsm(ValueCode(s.e, env), |c8|, rest));
            && Grown(c0, c8, prog, {|k.c2| + 1, |k.c2| + 2} + open)
            && OperandIs(EncodeAll(prog), ForHole(s), |c8|)
  {
    hide EncodeAll, Encode, Code, ValueCode, DropCode, Agree, OperandIs, Size, ValueSize, CodeSize, DropSize, Grown,
         Patch;
    var first := EffectCode(s.init, env);
    var tail := TestAsm(ValueCode(s.e, env), |c8|, rest);
    TestGrown(s.e, env, |c8|, k.c1, k.c2, k.c3, c8, rest, open);
    GrownCode(c0, k.c1, first);
    GrownConcat(c0, k.c1, c8, first, {}, tail, {|k.c2| + 1, |k.c2| + 2} + open);
    assert {} + ({|k.c2| + 1, |k.c2| + 2} + open) == {|k.c2| + 1, |k.c2| + 2} + open;
    ExprSizes(s.init, env);
    WithinRight(first, tail, 0, ForHole(s), |c8|);
  }

  /** The breaks of the body and the condition's jump go behind the loop. */
  lemma ForPopped(s: Stmt, a: Snap, c2: seq<byte>, m: Snap, c8: seq<byte>, c9: seq<byte>, lab: Labels)
    requires s.For? && |c8| == |a.code| + Width(s) <= CODE_MAX
    requires |c2| + 1 == |a.code| + ForHole(s)
    requires Grown(a.code, c8, ForCode(s, |a.code|, lab, m.env), {|c2| + 1, |c2| + 2} + Open(s.body, BodyAt(s, |a.code|)))
    requires OperandIs(EncodeAll(ForCode(s, |a.code|, lab, m.env)), ForHole(s), |c8|)
    requires AllInBounds(|c8|, Innermost(m.scopes))
             && Elems(Innermost(m.scopes)) == BreakHoles(s.body, BodyAt(s, |a.code|))
    requires c9 == PatchAll(c8, Innermost(m.scopes), |c8| % 0x10000) && InBounds(|c9|, (|c2| + 1) % 0x10000)
    ensures Grown(a.code, Patch(c9, (|c2| + 1) % 0x10000, |c9| % 0x10000), ForCode(s, |a.code|, lab, m.env),
                  Spread(Places(GotoHoles(s.body, BodyAt(s, |a.code|)))))
  {
    hide EncodeAll, Agree, OperandIs, Size, ForHole, BodyAt, PostAt, Width, Asm, Grown, ForCode, Spread, Places,
         BreakHoles, GotoHoles, Patch, PatchAll;
    var at, body := |a.code|, BodyAt(s, |a.code|);
    var prog := ForCode(s, at, lab, m.env);
    GrownLength(a.code, c8, prog, {|c2| + 1, |c2| + 2} + Open(s.body, body));
    OperandInside(EncodeAll(prog), ForHole(s), |c8|);
    var hole, rest := {|c2| + 1, |c2| + 2}, Spread(Places(GotoHoles(s.body, body)));
    forall h | h in Elems(Innermost(m.scopes))
      ensures at <= h && h + 1 < |c8| && OperandIs(EncodeAll(prog), h - at, |c8|)
    {
      ForOperand(s, at, lab, m.env, h);
      OperandInside(EncodeAll(prog), h - at, |c8|);
    }
    PopGrown(a.code, c8, prog, Innermost(m.scopes), |c8|, hole + Open(s.body, body), hole + rest);
    GrownPatch(a.code, c9, prog, |c2| + 1, |c9|, rest);
  }

  lemma ForOperand(s: Stmt, at: nat, lab: Labels, env: Env, h: nat)
    requires s.For? && h in BreakHoles(s.body, BodyAt(s, at))
    ensures at <= h && OperandIs(EncodeAll(ForCode(s, at, lab, env)), h - at, at + Width(s))
  {
    hide EncodeAll, Code, ValueCode, DropCode, OperandIs, Size, Width, Asm, ValueSize, CodeSize, DropSize, BreakHoles;
    var end, post, body := at + Width(s), PostAt(s, at), BodyAt(s, at);
    var x := Asm(s.body, body, end, post, lab, env);
    var p := EffectCode(s.post, env);
    HoleWants(s.body, body, end, post, lab, env, h, None);
    WithinLeft(x, [Jmp(post)], h - body, end);
    ExprSizes(s.post, env);
    SizeOne(Jmp(body));
    SizeOne(Jmp(post));
    SizeConcat3([Jmp(body)], p, [Jmp(post)]);
    WithinRight(ForMiddle(s, at, env), x + [Jmp(post)], post - 3, h, end);
    var rest := ForMiddle(s, at, env) + (x + [Jmp(post)]);
    var at1 := at + CodeSize(s.init) + DropSize(s.init);
    BehindTest(s.e, env, end, rest, at1, h, end);
    ExprSizes(s.init, env);
    WithinRight(EffectCode(s.init, env), TestAsm(ValueCode(s.e, env), end, rest), at, h, end);
  }

  lemma ForStatic(s: Stmt, a: Snap, b: Snap, m: Snap, n: Snap)
    requires s.For? && Legal(s.init) && LegalValue(s.e) && Legal(s.post)
    requires Known(s.init, m.env) && Known(s.e, m.env) && Known(s.post, m.env)
    requires b.env == Names(Names(Names(a.env, s.init), s.e), s.post)
    requires b == a.(env := b.env, code := b.code, scopes := b.scopes) && Innermost(b.scopes) == []
    requires LegalStmt(s.body, b.scopes != []) && b.scopes != [] && StmtKnown(s.body, m.env)
             && m.env == StmtNames(b.env, s.body)
    requires SameLoops(b.scopes, m.scopes)
    requires |b.code| == BodyAt(s, |a.code|) && |m.code| == |b.code| + Width(s.body) && |n.code| == |m.code| + 3
    requires |m.code| <= CODE_MAX ==> Marked(s.body, b, m)
    requires n == m.(code := n.code, scopes := a.scopes)
    ensures LegalStmt(s, a.scopes != []) && StmtKnown(s, n.env) && n.env == StmtNames(a.env, s)
    ensures |n.code| <= CODE_MAX ==> Marked(s, a, n)
    ensures |n.code| == |a.code| + Width(s)
    ensures |n.code| <= CODE_MAX ==> Elems(Innermost(m.scopes)) == BreakHoles(s.body, BodyAt(s, |a.code|))
  {
    hide ValueSize, CodeSize, DropSize, Legal, KindOf, Names, Known;
    NoHoles();
  }

  // ----- Blocks -----

  /** The statements of a block, followed by `tail`. */
  function ChainOf(ss: seq<Stmt>, tail: Stmt): Stmt
    decreases |ss|
  {
    if ss == [] then tail else Seq(ss[0], ChainOf(ss[1..], tail))
  }

  function NamesOf(env: Env, ss: seq<Stmt>): Env
    decreases |ss|
  {
    if ss == [] then env else NamesOf(StmtNames(env, ss[0]), ss[1..])
  }

  lemma {:induction false} ChainTree(ss: seq<Stmt>, tail: Stmt, env: Env, inLoop: bool)
    ensures StmtNames(env, ChainOf(ss, tail)) == StmtNames(NamesOf(env, ss), tail)
    ensures LegalStmt(ChainOf(ss, tail), inLoop) ==> LegalStmt(tail, inLoop)
    decreases |ss|
  {
    if ss != [] {
      ChainTree(ss[1..], tail, StmtNames(env, ss[0]), inLoop);
    }
  }

  lemma {:induction false} ChainMore(ss: seq<Stmt>, s: Stmt, tail: Stmt, env: Env)
    ensures ChainOf(ss + [s], tail) == ChainOf(ss, Seq(s, tail))
    ensures NamesOf(env, ss + [s]) == StmtNames(NamesOf(env, ss), s)
    decreases |ss|
  {
    if ss == [] {
      assert (ss + [s])[1..] == [];
    } else {
      assert (ss + [s])[1..] == ss[1..] + [s];
      ChainMore(ss[1..], s, tail, StmtNames(env, ss[0]));
    }
  }

  /** The states between the statements of a block. */
  predicate Trace(ss: seq<Stmt>, states: seq<Snap>, brk: nat, lab: Labels) {
    && |states| == |ss| + 1
    && (forall i :: 0 <= i < |ss| ==> After(ss[i], states[i], states[i + 1], brk, lab) && Extends(states[i].env, states[i + 1].env))
    && (forall i :: 0 <= i < |states| ==> Unique(states[i].env))
  }

  lemma {:induction false} TraceAfter(ss: seq<Stmt>, states: seq<Snap>, brk: nat, lab: Labels)
    requires Trace(ss, states, brk, lab)
    ensures After(ChainOf(ss, Skip), states[0], states[|ss|], brk, lab) && Extends(states[0].env, states[|ss|].env)
    decreases |ss|
  {
    hide After;
    if ss == [] {
      EmptyAfter(Skip, states[0], brk, lab);
    } else {
      TraceAfter(ss[1..], states[1..], brk, lab);
      SeqAfter(ss[0], ChainOf(ss[1..], Skip), states[0], states[1], states[|ss|], brk, lab);
    }
  }

  lemma TraceStart(a: Snap, brk: nat, lab: Labels)
    requires Unique(a.env)
    ensures Trace([], [a], brk, lab) && NamesOf(a.env, []) == a.env
  {
  }

  lemma TraceMore(ss: seq<Stmt>, states: seq<Snap>, s: Stmt, b: Snap, brk: nat, lab: Labels)
    requires Trace(ss, states, brk, lab) && After(s, states[|ss|], b, brk, lab) && Extends(states[|ss|].env, b.env)
             && Unique(b.env)
    ensures Trace(ss + [s], states + [b], brk, lab)
  {
    hide After, Extends, Unique;
  }

  /** One more statement of a block has been compiled. */
  lemma BlockMore(ss: seq<Stmt>, states: seq<Snap>, s: Stmt, b: Snap, env: Env, brk: nat, lab: Labels)
    requires Trace(ss, states, brk, lab) && |states| == |ss| + 1 && states[|ss|].env == NamesOf(env, ss)
    requires After(s, states[|ss|], b, brk, lab) && Extends(states[|ss|].env, b.env) && Unique(b.env)
    ensures Trace(ss + [s], states + [b], brk, lab) && b.env == NamesOf(env, ss + [s])
    ensures |b.scopes| == |states[|ss|].scopes|
  {
    hide After, Extends, Unique, Trace, StmtNames, NamesOf;
    AfterFacts(s, states[|ss|], b, brk, lab);
    ChainMore(ss, s, Skip, env);
    TraceMore(ss, states, s, b, brk, lab);
  }

  // ----- Errors stay errors -----

  lemma IfTree(e: Expr, t: Stmt, env: Env, inLoop: bool)
    requires Unique(env)
    ensures LegalStmt(If(e, t), inLoop) <==> LegalValue(e) && LegalStmt(t, inLoop)
    ensures StmtNames(env, If(e, t)) == StmtNames(Names(env, e), t)
    ensures Fits(StmtNames(env, If(e, t))) ==> Fits(Names(env, e))
  {
    hide Names, LegalValue, Fits, Unique;
    NamesExtend1(env, e);
    StmtFit(Names(env, e), t);
  }

  lemma StmtFit(env: Env, s: Stmt)
    requires Unique(env)
    ensures Unique(StmtNames(env, s)) && (Fits(StmtNames(env, s)) ==> Fits(env))
  {
    hide StmtNames;
    StmtNamesExtend(env, s);
  }

  lemma IfElseTree(e: Expr, t: Stmt, f: Stmt, env: Env, inLoop: bool)
    requires Unique(env)
    ensures LegalStmt(IfElse(e, t, f), inLoop) <==> LegalValue(e) && LegalStmt(t, inLoop) && LegalStmt(f, inLoop)
    ensures StmtNames(env, IfElse(e, t, f)) == StmtNames(StmtNames(Names(env, e), t), f)
    ensures Fits(StmtNames(env, IfElse(e, t, f))) ==> Fits(Names(env, e)) && Fits(StmtNames(Names(env, e), t))
  {
    hide Names, LegalValue, Fits, Unique;
    NamesExtend1(env, e);
    StmtFit(Names(env, e), t);
    StmtFit(StmtNames(Names(env, e), t), f);
  }

  lemma WhileTree(e: Expr, t: Stmt, env: Env, inLoop: bool)
    requires Unique(env)
    ensures LegalStmt(While(e, t), inLoop) <==> LegalValue(e) && LegalStmt(t, true)
    ensures StmtNames(env, While(e, t)) == StmtNames(Names(env, e), t)
    ensures Fits(StmtNames(env, While(e, t))) ==> Fits(Names(env, e))
  {
    hide Names, LegalValue, Fits, Unique;
    NamesExtend1(env, e);
    StmtFit(Names(env, e), t);
  }

  lemma DoTree(t: Stmt, e: Expr, env: Env, inLoop: bool)
    requires Unique(env)
    ensures LegalStmt(Do(t, e), inLoop) <==> inLoop && LegalStmt(t, true) && LegalValue(e)
    ensures StmtNames(env, Do(t, e)) == Names(StmtNames(env, t), e)
    ensures Fits(StmtNames(env, Do(t, e))) ==> Fits(StmtNames(env, t))
  {
    StmtFit(env, t);
    var env1 := StmtNames(env, t);
    hide Names, LegalValue, Unique;
    NamesExtend1(env1, e);
  }

  lemma ForTree(s: Stmt, env: Env, inLoop: bool)
    requires Unique(env) && s.For?
    ensures LegalStmt(s, inLoop) <==> Legal(s.init) && LegalValue(s.e) && Legal(s.post) && LegalStmt(s.body, true)
    ensures var env1 := Names(env, s.init);
            var env2 := Names(env1, s.e);
            var env3 := Names(env2, s.post);
            && StmtNames(env, s) == StmtNames(env3, s.body)
            && (Fits(StmtNames(env, s)) ==> Fits(env1) && Fits(env2) && Fits(env3))
  {
    var env1 := Names(env, s.init);
    var env2 := Names(env1, s.e);
    hide Names, LegalValue, Unique;
    NamesExtend1(env, s.init);
    NamesExtend1(env1, s.e);
    NamesExtend1(env2, s.post);
    StmtFit(Names(env2, s.post), s.body);
  }

  // ----- The clauses of a for -----

  /** Behind the initial clause, nothing else is recorded yet. */
  function Started(env: Env, code: seq<byte>): Clauses {
    Clauses(env, code, env, [], [], [], env, [], [], [])
  }

  predicate ForStart(i: Expr, a: Snap, k: Clauses) {
    && Legal(i) && Known(i, k.env1) && k.env1 == Names(a.env, i) && Extends(a.env, k.env1) && Unique(k.env1)
    && k.c1 == a.code + EncodeAll(EffectCode(i, k.env1))
  }

  lemma ForStartFacts(i: Expr, a: Snap, k: Clauses)
    requires ForStart(i, a, k)
    ensures Legal(i) && k.env1 == Names(a.env, i) && Extends(a.env, k.env1) && Unique(k.env1)
  {
    hide Legal, Names, Unique, Extends;
  }

  predicate ForTest(c: Expr, k: Clauses) {
    && ValueEmitted(c, k.env1, k.c1, k.env2, k.c2) && Extends(k.env1, k.env2) && Unique(k.env2)
    && |k.c3| == |k.c2| + 3 && Opcode(k.c2, k.c3, OP_FJMP)
    && |k.c4| == |k.c3| + 3 && Opcode(k.c3, k.c4, OP_JMP)
  }

  lemma ForTestFacts(c: Expr, k: Clauses)
    requires ForTest(c, k)
    ensures LegalValue(c) && k.env2 == Names(k.env1, c) && Extends(k.env1, k.env2) && Unique(k.env2)
    ensures |k.c3| == |k.c2| + 3 && |k.c4| == |k.c3| + 3
  {
    hide LegalValue, Names, Unique, Extends, Opcode;
  }

  lemma ForTestRecorded(i: Expr, c: Expr, a: Snap, k: Clauses, k': Clauses)
    requires ForStart(i, a, k) && k' == k.(env2 := k'.env2, c2 := k'.c2, c3 := k'.c3, c4 := k'.c4)
    requires ValueEmitted(c, k'.env1, k'.c1, k'.env2, k'.c2) && Extends(k'.env1, k'.env2) && Unique(k'.env2)
    requires |k'.c3| == |k'.c2| + 3 && Opcode(k'.c2, k'.c3, OP_FJMP)
    requires |k'.c4| == |k'.c3| + 3 && Opcode(k'.c3, k'.c4, OP_JMP)
    ensures ForStart(i, a, k') && ForTest(c, k')
  {
    hide Legal, Known, Names, Unique, Extends, Opcode, EncodeAll, ValueEmitted;
  }

  /** What was recorded of the first two clauses stays when the third is added. */
  lemma ForRecorded(i: Expr, c: Expr, a: Snap, k: Clauses, k': Clauses)
    requires ForStart(i, a, k) && ForTest(c, k)
    requires k' == k.(env3 := k'.env3, c5 := k'.c5, c6 := k'.c6, c7 := k'.c7)
    ensures ForStart(i, a, k') && ForTest(c, k')
  {
    hide Legal, Known, Names, Unique, Extends, Opcode, EncodeAll, ValueEmitted;
  }

  predicate ForStep(p: Expr, k: Clauses) {
    && Legal(p) && Known(p, k.env3) && k.env3 == Names(k.env2, p) && Extends(k.env2, k.env3) && Unique(k.env3)
    && k.c5 == k.c4 + EncodeAll(EffectCode(p, k.env3))
    && Jumped(k.c5, k.c6, Jmp(|k.c4| % 0x10000))
    && InBounds(|k.c6|, (|k.c3| + 1) % 0x10000)
    && k.c7 == Patch(k.c6, (|k.c3| + 1) % 0x10000, |k.c6| % 0x10000)
  }

  predicate ForClauses(i: Expr, c: Expr, p: Expr, a: Snap, k: Clauses) {
    ForStart(i, a, k) && ForTest(c, k) && ForStep(p, k)
  }

  lemma ForClausesFacts(i: Expr, c: Expr, p: Expr, a: Snap, k: Clauses)
    requires ForClauses(i, c, p, a, k)
    ensures Legal(i) && LegalValue(c) && Legal(p) && k.env3 == Names(Names(Names(a.env, i), c), p)
            && Extends(a.env, k.env3) && Unique(k.env3)
    ensures |k.c2| + 6 <= |k.c7|
  {
    hide Legal, LegalValue, Names, Unique, Opcode, Jumped, InBounds, Known, EncodeAll, Patch;
    JumpedLength(k.c5, k.c6, Jmp(|k.c4| % 0x10000));
  }

  lemma ForClausesHead(s: Stmt, a: Snap, k: Clauses, fin: Env)
    requires s.For? && ForClauses(s.init, s.e, s.post, a, k) && Extends(k.env3, fin) && Unique(fin)
    ensures ForHead(s, a.code, k, fin)
    ensures Known(s.init, fin) && Known(s.e, fin) && Known(s.post, fin)
    ensures Legal(s.init) && LegalValue(s.e) && Legal(s.post)
            && k.env3 == Names(Names(Names(a.env, s.init), s.e), s.post)
  {
    hide Known, Legal, LegalValue, Names, Code, ValueCode, DropCode, EncodeAll, Opcode, Jumped, Patch, InBounds, Unique;
    CodeStable(s.init, k.env1, fin);
    KindStable(s.init, k.env1, fin);
    CodeStable(s.e, k.env2, fin);
    KindStable(s.e, k.env2, fin);
    CodeStable(s.post, k.env3, fin);
    KindStable(s.post, k.env3, fin);
  }

  /** ForAfter, from the clauses as they were compiled one by one. */
  lemma ForDone(s: Stmt, a: Snap, k: Clauses, b: Snap, m: Snap, c8: seq<byte>, c9: seq<byte>, n: Snap, brk: nat,
                lab: Labels)
    requires s.For? && ForClauses(s.init, s.e, s.post, a, k) && b.env == k.env3 && b.code == k.c7
    requires b == a.(env := b.env, code := b.code, scopes := Pushed(a.scopes, [], |k.c4|))
    requires After(s.body, b, m, |a.code| + Width(s), lab) && Extends(b.env, m.env) && Unique(m.env)
    requires Jumped(m.code, c8, Jmp(|k.c4| % 0x10000)) && AllInBounds(|c8|, Innermost(m.scopes))
    requires c9 == PatchAll(c8, Innermost(m.scopes), |c8| % 0x10000) && InBounds(|c9|, (|k.c2| + 1) % 0x10000)
    requires n == m.(code := Patch(c9, (|k.c2| + 1) % 0x10000, |c9| % 0x10000), scopes := a.scopes)
    ensures After(s, a, n, brk, lab)
  {
    hide After, ForHead, ForClauses, Known, Legal, LegalValue, Names, Jumped, AllInBounds, PatchAll, Patch, InBounds,
         Unique, Width;
    ForClausesHead(s, a, k, m.env);
    ForAfter(s, a, k, b, m, c8, c9, n, brk, lab);
  }
}
