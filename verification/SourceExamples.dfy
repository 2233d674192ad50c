/** Two of the example programs at the level of their source: examples/change-case.nod and
    examples/truth-machine.nod do what they are for, on every input. */
module SourceExamples {
  import opened Wrappers
  import opened Bytes
  import opened Syntax
  import opened Execution
  import opened ExprMeaning
  import opened StmtMeaning
  import opened Behaviour
  import opened BigStep

  function Block(s: Stmt): Stmt {
    Seq(s, Skip)
  }

  // ----- change-case.nod -----

  const Chr: Expr := Expr.Var("chr")

  /** `$chr >= lo && $chr <= hi` */
  function Within(lo: byte, hi: byte): Expr {
    Binary(Binary(Chr, Gte, Char(lo)), Plain(LAnd), Binary(Chr, Plain(Lte), Char(hi)))
  }

  /** `if (lo <= $chr && ...) { $chr -= 0x20; } else if (...) { $chr += 0x20; }` */
  const Change: Stmt :=
    IfElse(Within('a' as int, 'z' as int), Block(ExprStmt(Assign(Chr, Some(Sub), Num(0x20)))),
           If(Within('A' as int, 'Z' as int), Block(ExprStmt(Assign(Chr, Some(Add), Num(0x20))))))

  const ChangeCase: Stmt :=
    Seq(ExprStmt(Expr.Send(Chr, Expr.Port("in"))), Seq(Change, Block(ExprStmt(Expr.Send(Expr.Port("out"), Chr)))))

  /** Small letters become capital ones and the other way round. */
  function OtherCase(c: byte): byte {
    if 97 <= c <= 122 then c - 32 else if 65 <= c <= 90 then c + 32 else c
  }

  lemma WithinMeans(lo: byte, hi: byte, st: Store, w: World)
    ensures Eval(Within(lo, hi), st, w) == Done(if lo <= Get(st, "chr") <= hi then 0xFF else 0, st, w)
  {
    var c := Get(st, "chr");
    assert Eval(Chr, st, w) == Done(c, st, w);
    assert Eval(Binary(Chr, Gte, Char(lo)), st, w) == Done(Truth(c >= lo), st, w);
    assert Eval(Binary(Chr, Plain(Lte), Char(hi)), st, w) == Done(Truth(c <= hi), st, w);
  }

  lemma ChangeMeans(st: Store, w: World)
    requires "chr" in st
    ensures Effect(Change, st, w, 0) == Through(st["chr" := OtherCase(st["chr"])], w)
  {
    hide Eval, Apply;
    var c := st["chr"];
    WithinMeans('a' as int, 'z' as int, st, w);
    WithinMeans('A' as int, 'Z' as int, st, w);
    StepMeans(Sub, st, w);
    StepMeans(Add, st, w);
    assert st["chr" := c] == st;
  }

  lemma StepMeans(op: AssignOp, st: Store, w: World)
    requires "chr" in st && (op == Add || op == Sub)
    ensures var c := st["chr"];
            var v: byte := if op == Add then (c as int + 32) % 256 else (c as int - 32) % 256;
            Effect(Block(ExprStmt(Assign(Chr, Some(op), Num(0x20)))), st, w, 0) == Through(st["chr" := v], w)
  {
    hide Apply;
    AddSub(op, st["chr"]);
    assert Target(Chr) == "chr";
    assert Eval(Chr, st, w) == Done(st["chr"], st, w);
    assert Eval(Num(0x20), st, w) == Done(32, st, w);
  }

  lemma AddSub(op: AssignOp, c: byte)
    requires op == Add || op == Sub
    ensures Apply(op, c, 32) == Some(if op == Add then (c as int + 32) % 256 else (c as int - 32) % 256)
  {
  }

  lemma BlockFree(e: Expr)
    ensures GotoFree(Block(ExprStmt(e)))
  {
  }

  lemma ChangeCaseFree()
    ensures GotoFree(ChangeCase)
  {
    BlockFree(Assign(Chr, Some(Sub), Num(0x20)));
    BlockFree(Assign(Chr, Some(Add), Num(0x20)));
    BlockFree(Expr.Send(Expr.Port("out"), Chr));
    assert GotoFree(Change.else_);
    assert GotoFree(Change);
  }

  /** One round of the body. */
  lemma ChangeCaseRound(b: byte, rest: seq<byte>, st: Store, acts: seq<Action<string>>)
    ensures Effect(ChangeCase, st, World([b] + rest, acts), 0)
            == Through(st["chr" := OtherCase(b)], World(rest, acts + [In("in", b)] + [Out("out", OtherCase(b))]))
  {
    hide Eval;
    var w1 := World(rest, acts + [In("in", b)]);
    var st1 := st["chr" := b];
    ReadMeans(b, rest, st, acts);
    ChangeMeans(st1, w1);
    var st2 := st1["chr" := OtherCase(b)];
    assert st2 == st["chr" := OtherCase(b)];
    WriteMeans(st2, w1);
    var read, write := ExprStmt(Expr.Send(Chr, Expr.Port("in"))), ExprStmt(Expr.Send(Expr.Port("out"), Chr));
    var w2 := World(rest, acts + [In("in", b)] + [Out("out", OtherCase(b))]);
    assert Effect(read, st, World([b] + rest, acts), 0) == Through(st1, w1);
    assert Effect(write, st2, w1, 0) == Through(st2, w2);
    assert Effect(Block(write), st2, w1, 0) == Through(st2, w2);
    assert Effect(Seq(Change, Block(write)), st1, w1, 0) == Through(st2, w2);
  }

  lemma ReadMeans(b: byte, rest: seq<byte>, st: Store, acts: seq<Action<string>>)
    ensures Eval(Expr.Send(Chr, Expr.Port("in")), st, World([b] + rest, acts))
            == Done(b, st["chr" := b], World(rest, acts + [In("in", b)]))
  {
    assert ([b] + rest)[1..] == rest;
  }

  lemma WriteMeans(st: Store, w: World)
    requires "chr" in st
    ensures Eval(Expr.Send(Expr.Port("out"), Chr), st, w) == Done(st["chr"], st, World(w.ins, w.acts + [Out("out", st["chr"])]))
  {
  }

  /** What happens at the ports when `f` of each byte is put out as soon as the byte came in. */
  function Answers(input: seq<byte>, f: byte -> byte): seq<Action<string>> {
    if input == [] then [] else [In("in", input[0]), Out("out", f(input[0]))] + Answers(input[1..], f)
  }

  lemma {:induction false} ChangeCaseFrom(input: seq<byte>, st: Store, acts: seq<Action<string>>) returns (n: nat)
    ensures var x := State(ChangeCase, KStop, st, World(input, acts));
            var end := SourceRun(ChangeCase, x, n);
            && end.Some? && SourceStep(ChangeCase, end.value) == Waits(World([], acts + Answers(input, OtherCase)))
    decreases |input|
  {
    hide Effect, SourceStep, SourceRun, ChangeCase, GotoFree;
    ChangeCaseFree();
    var x := State(ChangeCase, KStop, st, World(input, acts));
    if input == [] {
      n := ChangeCaseWaits(st, acts);
      assert acts + Answers(input, OtherCase) == acts;
    } else {
      var b := input[0];
      assert input == [b] + input[1..];
      ChangeCaseRound(b, input[1..], st, acts);
      n := StepsReachEffect(ChangeCase, ChangeCase, KStop, st, World(input, acts), 0);
      var acts1 := acts + [In("in", b)] + [Out("out", OtherCase(b))];
      var m := ChangeCaseFrom(input[1..], st["chr" := OtherCase(b)], acts1);
      RunLonger(ChangeCase, x, n, m);
      assert acts1 + Answers(input[1..], OtherCase) == acts + Answers(input, OtherCase);
      n := n + m;
    }
  }

  lemma ChangeCaseWaits(st: Store, acts: seq<Action<string>>) returns (n: nat)
    ensures var end := SourceRun(ChangeCase, State(ChangeCase, KStop, st, World([], acts)), n);
            end.Some? && SourceStep(ChangeCase, end.value) == Waits(World([], acts))
  {
    hide SourceStep, SourceRun, GotoFree;
    ChangeCaseFree();
    assert Effect(ChangeCase, st, World([], acts), 0) == Dry(World([], acts));
    n := StepsReachEffect(ChangeCase, ChangeCase, KStop, st, World([], acts), 0);
  }

  /** For every input, the program puts out each byte in the other case, one after the other, and then waits
      for more. */
  lemma ChangeCaseAnswers(input: seq<byte>) returns (n: nat)
    ensures var end := SourceRun(ChangeCase, Begin(ChangeCase, input), n);
            end.Some? && SourceStep(ChangeCase, end.value) == Waits(World([], Answers(input, OtherCase)))
  {
    hide SourceStep, SourceRun, ChangeCase;
    n := ChangeCaseFrom(input, map[], []);
    assert [] + Answers(input, OtherCase) == Answers(input, OtherCase);
  }

  // ----- truth-machine.nod -----

  const Status: Expr := Expr.Var("status")
  const Shout: Stmt :=
    Seq(ExprStmt(Expr.Send(Expr.Port("out"), Status)), Block(ExprStmt(Expr.Send(Expr.Port("out"), Char(10)))))
  const Stop: Stmt := If(Binary(Status, Plain(Eql), Char('0' as int)), Block(Stmt.Halt))
  const TruthMachine: Stmt :=
    Seq(ExprStmt(Expr.Send(Status, Expr.Port("in"))), Seq(Stop, Block(While(Num(1), Shout))))

  /** `n` lines that hold the byte `b`. */
  function Lines(b: byte, n: nat): seq<Action<string>> {
    if n == 0 then [] else [Out("out", b), Out("out", 10)] + Lines(b, n - 1)
  }

  lemma StatusRead(b: byte, rest: seq<byte>)
    ensures Eval(Expr.Send(Status, Expr.Port("in")), map[], World([b] + rest, []))
            == Done(b, map["status" := b], World(rest, [In("in", b)]))
  {
    assert ([b] + rest)[1..] == rest;
    assert [] + [In("in", b)] == [In("in", b)];
  }

  /** After a 0 the machine halts, and nothing was put out. */
  lemma FalseHalts(rest: seq<byte>) returns (n: nat)
    ensures var end := SourceRun(TruthMachine, Begin(TruthMachine, [48] + rest), n);
            && end.Some? && SourceStep(TruthMachine, end.value) == Halts && end.value.w == World(rest, [In("in", 48)])
  {
    hide SourceStep, SourceRun, Apply;
    StatusRead(48, rest);
    var st, w := map["status" := 48 as byte], World(rest, [In("in", 48)]);
    StatusTested(48, st, w);
    assert Effect(Stop, st, w, 0) == AtHalt(w);
    assert Effect(TruthMachine, map[], World([48] + rest, []), 0) == AtHalt(w);
    n := StepsReachEffect(TruthMachine, TruthMachine, KStop, map[], World([48] + rest, []), 0);
  }

  lemma StatusTested(b: byte, st: Store, w: World)
    requires "status" in st && st["status"] == b
    ensures Eval(Binary(Status, Plain(Eql), Char('0' as int)), st, w) == Done(if b == 48 then 0xFF else 0, st, w)
  {
  }

  lemma ShoutMeans(b: byte, st: Store, ins: seq<byte>, acts: seq<Action<string>>)
    requires "status" in st && st["status"] == b
    ensures GotoFree(Shout)
    ensures Effect(Shout, st, World(ins, acts), 0) == Through(st, World(ins, acts + [Out("out", b)] + [Out("out", 10)]))
  {
    assert Eval(Expr.Send(Expr.Port("out"), Status), st, World(ins, acts)) == Done(b, st, World(ins, acts + [Out("out", b)]));
  }

  /** The endless loop, `m` times round. */
  lemma {:induction false} ShoutsOn(b: byte, st: Store, k: Cont, ins: seq<byte>, acts: seq<Action<string>>, m: nat)
    returns (n: nat)
    requires "status" in st && st["status"] == b
    ensures SourceRun(TruthMachine, State(While(Num(1), Shout), k, st, World(ins, acts)), n)
            == Some(State(While(Num(1), Shout), k, st, World(ins, acts + Lines(b, m))))
    decreases m
  {
    hide Effect, SourceRun, Shout, GotoFree;
    var loop := While(Num(1), Shout);
    var x := State(loop, k, st, World(ins, acts));
    n := 0;
    AtOnce(TruthMachine, x);
    assert acts + Lines(b, 0) == acts;
    if m > 0 {
      var acts1 := acts + [Out("out", b)] + [Out("out", 10)];
      var y := State(Shout, KLoop(Num(1), Shout, k), st, World(ins, acts));
      ShoutMeans(b, st, ins, acts);
      n := StepsReachEffect(TruthMachine, Shout, KLoop(Num(1), Shout, k), st, World(ins, acts), 0);
      var z := State(loop, k, st, World(ins, acts1));
      OneMore(TruthMachine, x, y, n, z);
      var p := ShoutsOn(b, st, k, ins, acts1, m - 1);
      RunLonger(TruthMachine, x, n + 1, p);
      assert acts1 + Lines(b, m - 1) == acts + Lines(b, m);
      n := n + 1 + p;
    }
  }

  lemma OneMore(body: Stmt, x: State, y: State, n: nat, z: State)
    requires SourceStep(body, x) == Goes(y) && SourceRun(body, y, n) == Some(z)
    ensures SourceRun(body, x, n + 1) == Some(z)
  {
    hide SourceStep;
  }

  /** The first statement of a sequence is done. */
  lemma FirstDone(body: Stmt, a: Stmt, b: Stmt, k: Cont, st: Store, w: World, st1: Store, w1: World) returns (n: nat)
    requires GotoFree(a) && Effect(a, st, w, 0) == Through(st1, w1)
    ensures SourceRun(body, State(Seq(a, b), k, st, w), n) == Some(State(b, k, st1, w1))
  {
    hide SourceRun, Effect;
    n := StepsReachEffect(body, a, KSeq(b, k), st, w, 0);
    OneMore(body, State(Seq(a, b), k, st, w), State(a, KSeq(b, k), st, w), n, State(b, k, st1, w1));
    n := n + 1;
  }

  lemma TrueMeans(b: byte, rest: seq<byte>)
    requires b != 48
    ensures var read, st, w := ExprStmt(Expr.Send(Status, Expr.Port("in"))), map["status" := b], World(rest, [In("in", b)]);
            && GotoFree(read) && Effect(read, map[], World([b] + rest, []), 0) == Through(st, w)
            && GotoFree(Stop) && Effect(Stop, st, w, 0) == Through(st, w)
  {
    hide Eval;
    StatusRead(b, rest);
    StatusTested(b, map["status" := b], World(rest, [In("in", b)]));
    assert GotoFree(Block(Stmt.Halt));
  }

  /** After any other byte the machine puts that byte out on a line of its own, over and over. */
  lemma TrueShouts(b: byte, rest: seq<byte>, m: nat) returns (n: nat)
    requires b != 48
    ensures var end := SourceRun(TruthMachine, Begin(TruthMachine, [b] + rest), n);
            end.Some? && end.value.w == World(rest, [In("in", b)] + Lines(b, m))
  {
    hide SourceStep, SourceRun, Effect, Eval, GotoFree;
    var read, st, w := ExprStmt(Expr.Send(Status, Expr.Port("in"))), map["status" := b], World(rest, [In("in", b)]);
    var loop := While(Num(1), Shout);
    TrueMeans(b, rest);
    var x0 := Begin(TruthMachine, [b] + rest);
    var n0 := FirstDone(TruthMachine, read, Seq(Stop, Block(loop)), KStop, map[], World([b] + rest, []), st, w);
    var n1 := FirstDone(TruthMachine, Stop, Block(loop), KStop, st, w, st, w);
    var n2 := ShoutsOn(b, st, KSeq(Skip, KStop), rest, [In("in", b)], m);
    LoopEntered(loop, st, w);
    OneMore(TruthMachine, State(Block(loop), KStop, st, w), State(loop, KSeq(Skip, KStop), st, w), n2,
            State(loop, KSeq(Skip, KStop), st, World(rest, [In("in", b)] + Lines(b, m))));
    RunLonger(TruthMachine, State(Seq(Stop, Block(loop)), KStop, st, w), n1, n2 + 1);
    RunLonger(TruthMachine, x0, n0, n1 + (n2 + 1));
    n := n0 + (n1 + (n2 + 1));
  }

  lemma LoopEntered(loop: Stmt, st: Store, w: World)
    ensures SourceStep(TruthMachine, State(Block(loop), KStop, st, w)) == Goes(State(loop, KSeq(Skip, KStop), st, w))
  {
  }
}
