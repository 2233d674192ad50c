/** What a processor's wiring has to look like can be read off its compiled instructions; and a program
    that meets all demands, with one processor that writes a byte to the standard output. */
module Hello {
  import opened Wrappers
  import opened Bytes
  import opened Bytecode
  import opened Syntax
  import opened CodeGen
  import opened Assembler
  import opened Depth
  import opened StackDepth
  import opened Declarations
  import opened Programs
  import N = Network
  import Wiring

  /** A compiled processor sends on a port, or receives from it, exactly if its code has the instruction
      for that. */
  lemma UsesAreInstructions(net: N.Net, i: nat, p: slot, body: Stmt)
    requires i < |net| && net[i].Proc? && Compilable(body) && net[i].code == EncodeAll(Program(body))
    ensures N.Sends(net, i, p) <==> Instr.Send(p) in Program(body)
    ensures N.Receives(net, i, p) <==> Recv(p) in Program(body)
  {
    hide Sturdy, Compilable, Program, EncodeAll, Decode, Visits, IsStart, Narrow, Address;
    var prog := Program(body);
    ProgramSturdy(body);
    SturdyNarrow(prog, Peak(body));
    forall a: nat | IsStart(net[i].code, a)
      ensures Decode(net[i].code, a).Some? && Decode(net[i].code, a).value in prog
    {
      var k := StartIndex(prog, a);
      FetchIndex(prog, k);
    }
    forall k | 0 <= k < |prog|
      ensures IsStart(net[i].code, Address(prog, k)) && Decode(net[i].code, Address(prog, k)) == Some(prog[k])
    {
      FetchIndex(prog, k);
      AddressIsTarget(prog, k);
    }
  }

  // ----- A program that meets all demands -----

  const Greeting: Expr := Expr.Send(Expr.Port("out"), Num(72))
  const Body: Stmt := Seq(ExprStmt(Greeting), Seq(Stmt.Halt, Skip))
  const Decls: seq<Decl> := [Processor("report", Body), WireOf("report", "out", "io", "out")]

  lemma GreetingNames(env: Env)
    requires env == Env([], ["out"])
    ensures Names(Blank, Greeting) == env && Legal(Greeting)
    ensures Code(Greeting, env) == [Push(72), Instr.Send(0)] && EffectCode(Greeting, env) == [Push(72), Instr.Send(0)]
    ensures ValueHeight(Greeting) == 1
  {
    assert Names(Blank, Expr.Port("out")) == env;
    assert Code(Num(72), env) == [Push(72)];
    assert ValueCode(Num(72), env) == [Push(72)];
    assert Code(Expr.Port("out"), env) == [];
    assert SlotOf(env.ports, "out") == 0;
    assert [] + [Push(72)] + [Instr.Send(0)] == [Push(72), Instr.Send(0)];
    assert [Push(72), Instr.Send(0)] + [] == [Push(72), Instr.Send(0)];
  }

  lemma BodyNames()
    ensures StmtNames(Blank, Body) == Env([], ["out"]) && Defs(Body, 0, map[]) == map[]
  {
    hide Code, EffectCode, Names, Legal, ValueHeight, Height, Width;
    GreetingNames(Env([], ["out"]));
    var s, t := ExprStmt(Greeting), Seq(Stmt.Halt, Skip);
    assert StmtNames(Env([], ["out"]), t) == Env([], ["out"]);
    assert Defs(t, Width(s), map[]) == map[];
  }

  lemma BodyProgram()
    ensures Program(Body) == [Push(72), Instr.Send(0), Instr.Halt] && Width(Body) == 4
  {
    hide Code, EffectCode, Names, Legal, Asm, StmtNames, Defs, Width;
    var env := Env([], ["out"]);
    GreetingNames(env);
    BodyNames();
    var s, t := ExprStmt(Greeting), Seq(Stmt.Halt, Skip);
    AsmOfSeq(Body, 0, 0, 0, map[], env);
    AsmOfSeq(t, Width(s), 0, 0, map[], env);
    ShortAsm(Width(s), env);
    ProgramSize(Body);
    assert [Instr.Halt] + [] == [Instr.Halt];
    assert [Push(72), Instr.Send(0)] + [Instr.Halt] == [Push(72), Instr.Send(0), Instr.Halt];
    SizeThree(Push(72), Instr.Send(0), Instr.Halt);
  }

  lemma ShortAsm(at: nat, env: Env)
    ensures Asm(Stmt.Halt, at, 0, 0, map[], env) == [Instr.Halt]
    ensures Asm(Skip, at + Width(Stmt.Halt), 0, 0, map[], env) == []
    ensures Asm(ExprStmt(Greeting), 0, 0, 0, map[], env) == EffectCode(Greeting, env)
  {
    hide EffectCode;
  }

  lemma SizeThree(i: Instr, j: Instr, k: Instr)
    ensures Size([i, j, k]) == Len(i) + Len(j) + Len(k)
  {
    assert [i, j, k][1..] == [j, k];
    SizeTwo(j, k);
  }

  lemma SeqParts(s: Stmt, t: Stmt, lab: Labels)
    ensures LegalStmt(Seq(s, t), false) == (LegalStmt(s, false) && LegalStmt(t, false))
    ensures GotosDefined(Seq(s, t), lab) == (GotosDefined(s, lab) && GotosDefined(t, lab))
    ensures Peak(Seq(s, t)) == Max(Peak(s), Peak(t))
  {
    hide Legal, ValueHeight, Max;
  }

  lemma LeafParts(e: Expr, lab: Labels)
    ensures LegalStmt(ExprStmt(e), false) == Legal(e) && GotosDefined(ExprStmt(e), lab)
    ensures Peak(ExprStmt(e)) == ValueHeight(e)
    ensures LegalStmt(Stmt.Halt, false) && GotosDefined(Stmt.Halt, lab) && Peak(Stmt.Halt) == 0
    ensures LegalStmt(Skip, false) && GotosDefined(Skip, lab) && Peak(Skip) == 0
  {
    hide Legal, ValueHeight;
  }

  lemma BodyRunnable()
    ensures Runnable(Body)
  {
    hide Legal, ValueHeight, StmtNames, Defs, Width, Program, LegalStmt, GotosDefined, Peak;
    GreetingNames(Env([], ["out"]));
    BodyNames();
    BodyProgram();
    var t := Seq(Stmt.Halt, Skip);
    LeafParts(Greeting, map[]);
    SeqParts(Stmt.Halt, Skip, map[]);
    SeqParts(ExprStmt(Greeting), t, map[]);
  }

  lemma BodyUses(net: N.Net, i: nat, p: slot)
    requires i < |net| && net[i].Proc? && net[i].code == EncodeAll(Program(Body))
    ensures !N.Receives(net, i, p)
  {
    hide Program, EncodeAll, Compilable, N.Sends, N.Receives, Peak;
    BodyRunnable();
    BodyProgram();
    UsesAreInstructions(net, i, p, Body);
  }

  /** The demands on a program can be met: the declarations
      `processor report { %out <- 72; halt; } report.out -> io.out;` build a well-formed program. */
  lemma HelloIsWellFormed(input: seq<byte>)
    ensures BuildAll(Begun(input), Decls).Some?
    ensures var b := BuildAll(Begun(input), Decls).value; Sound(b) && WellFormed(b)
  {
    hide Program, EncodeAll, Compilable, StmtNames, Peak, Width, Sound, WellFormed, BuildDecl;
    BegunSound(input);
    HelloBuilt(input);
    AllSound(Begun(input), Decls);
    HelloWired(BuildAll(Begun(input), Decls).value, input);
  }

  function HelloBuild(input: seq<byte>): Built {
    WithJoint(WithProc(Begun(input), "report", ["out"], Body), Wiring.Joint(1, 0, 0, 1))
  }

  lemma HelloBuilt(input: seq<byte>)
    ensures BuildAll(Begun(input), Decls) == Some(HelloBuild(input))
  {
    hide Program, EncodeAll, Compilable, StmtNames, Peak, Width, Lookup, RuleNames, WithJoint, Defs, BuildAll;
    BodyRunnable();
    BodyNames();
    Places();
    var b0 := Begun(input);
    var b1 := WithProc(b0, "report", ["out"], Body);
    TwoNames(b1.rules);
    assert BuildDecl(b0, Decls[0]) == Some(b1);
    assert JointOf(b1, "report", "out", "io", "out") == Some(Wiring.Joint(1, 0, 0, 1));
    assert BuildDecl(b1, Decls[1]) == Some(HelloBuild(input));
    TwoDecls(b0, Decls[0], b1, Decls[1], HelloBuild(input));
  }

  lemma TwoDecls(b0: Built, d0: Decl, b1: Built, d1: Decl, b2: Built)
    requires BuildDecl(b0, d0) == Some(b1) && BuildDecl(b1, d1) == Some(b2)
    ensures BuildAll(b0, [d0, d1]) == Some(b2)
  {
    hide BuildDecl;
    assert [d0, d1][1..] == [d1];
    assert [d1][1..] == [];
    assert BuildAll(b2, []) == Some(b2);
    assert BuildAll(b1, [d1]) == Some(b2);
  }

  lemma HelloWired(b: Built, input: seq<byte>)
    requires b == HelloBuild(input) && Sound(b)
    ensures WellFormed(b)
  {
    hide Program, EncodeAll, Runnable, Sound, N.Sends, N.Receives;
    BodyRunnable();
    SoundNodes(b);
    forall i: nat, p: slot | i < |b.nodes| && b.nodes[i].Proc?
      ensures !(N.Sends(b.nodes, i, p) && N.Receives(b.nodes, i, p))
    {
      BodyUses(b.nodes, i, p);
    }
  }

  lemma TwoNames(rules: seq<Rule>)
    requires |rules| == 2
    ensures RuleNames(rules) == [rules[0].name, rules[1].name]
  {
  }

  lemma Places()
    ensures Lookup(["io", "report"], "report") == Some(1) && Lookup(["io", "report"], "io") == Some(0)
    ensures Lookup(["out"], "out") == Some(0) && Lookup(N.IO_PORTS, "out") == Some(1)
  {
    assert ["io", "report"][1] == "report";
    assert N.IO_PORTS[1] == "out";
    assert |"io"| != |"report"| && "in"[0] != "out"[0];
  }
}
