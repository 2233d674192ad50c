/** What statements mean, as steps of a tree-walking machine with a continuation, and that the
    assembled code takes the same steps. `for` and `do` are left out: their code departs from
    the documented statements. */
module StmtMeaning {
  import opened Wrappers
  import opened Bytes
  import opened Bytecode
  import opened Machine
  import opened Syntax
  import opened CodeGen
  import opened Execution
  import opened ExprMeaning
  import opened Assembler

  // ----- The source semantics -----

  /** What is left to do behind a statement: nothing, so that the body starts over; another
      statement; leaving the first branch of an if-else; or the next round of a loop. */
  datatype Cont = KStop | KSeq(s: Stmt, k: Cont) | KElse(els: Stmt, k: Cont) | KLoop(e: Expr, body: Stmt, k: Cont)

  datatype State = State(s: Stmt, k: Cont, st: Store, w: World)

  /** A step goes on, reaches `halt`, waits for input that does not come, or meets an undefined
      operation. */
  datatype Outcome = Goes(x: State) | Halts | Waits(w: World) | Fails(w: World)

  function AfterBreak(k: Cont): Cont {
    match k
    case KSeq(_, k') => AfterBreak(k')
    case KElse(_, k') => AfterBreak(k')
    case KLoop(_, _, k') => k'
    case KStop => KStop
  }

  /** The loop that `continue` starts the next round of. */
  function Loop(k: Cont): Cont {
    match k
    case KSeq(_, k') => Loop(k')
    case KElse(_, k') => Loop(k')
    case KLoop(_, _, _) => k
    case KStop => KStop
  }

  predicate InLoop(k: Cont) {
    Loop(k) != KStop
  }

  /** What is left to do behind label `x` of a statement that is followed by `k`: of several labels
      `x` the last one counts. */
  function FindLabel(x: string, s: Stmt, k: Cont): Option<Cont>
    decreases s
  {
    match s
    case Label(y) => if x == y then Some(k) else None
    case Seq(a, b) =>
      var r := FindLabel(x, b, k);
      if r.Some? then r else FindLabel(x, a, KSeq(b, k))
    case If(_, a) => FindLabel(x, a, k)
    case IfElse(_, a, b) =>
      var r := FindLabel(x, b, k);
      if r.Some? then r else FindLabel(x, a, KElse(b, k))
    case While(e, a) => FindLabel(x, a, KLoop(e, a, k))
    case _ => None
  }

  /** Nothing is left of the current statement. */
  function Resume(body: Stmt, k: Cont, st: Store, w: World): State {
    match k
    case KStop => State(body, KStop, st, w)
    case KSeq(s, k') => State(s, k', st, w)
    case KElse(_, k') => State(Skip, k', st, w)
    case KLoop(e, a, k') => State(While(e, a), k', st, w)
  }

  /** Choose by the value of a condition. */
  function Choose(r: Result, t: Stmt, tk: Cont, f: Stmt, k: Cont): Outcome {
    match r
    case Done(v, st, w) => if v != 0 then Goes(State(t, tk, st, w)) else Goes(State(f, k, st, w))
    case Waiting(w) => Waits(w)
    case Undefined(w) => Fails(w)
  }

  /** One step of a processor with the given body. */
  function SourceStep(body: Stmt, x: State): Outcome {
    match x.s
    case ExprStmt(e) =>
      (match Eval(e, x.st, x.w)
       case Done(_, st, w) => Goes(State(Skip, x.k, st, w))
       case Waiting(w) => Waits(w)
       case Undefined(w) => Fails(w))
    case Seq(a, b) => Goes(State(a, KSeq(b, x.k), x.st, x.w))
    case If(e, a) => Choose(Eval(e, x.st, x.w), a, x.k, Skip, x.k)
    case IfElse(e, a, b) => Choose(Eval(e, x.st, x.w), a, KElse(b, x.k), b, x.k)
    case While(e, a) => Choose(Eval(e, x.st, x.w), a, KLoop(e, a, x.k), Skip, x.k)
    case Break => Goes(State(Skip, AfterBreak(x.k), x.st, x.w))
    case Continue => Goes(Resume(body, Loop(x.k), x.st, x.w))
    case Goto(l) =>
      (match FindLabel(l, body, KStop)
       case None => Fails(x.w)
       case Some(k) => Goes(State(Skip, k, x.st, x.w)))
    case Halt => Halts
    case _ => Goes(Resume(body, x.k, x.st, x.w))
  }

  predicate Structured(s: Stmt) {
    match s
    case Seq(a, b) => Structured(a) && Structured(b)
    case If(_, a) => Structured(a)
    case IfElse(_, a, b) => Structured(a) && Structured(b)
    case While(_, a) => Structured(a)
    case For(_, _, _, _) => false
    case Do(_, _) => false
    case _ => true
  }

  // ----- A state of the source at an address -----

  /** Everything fixed about a processor: its code, and what its names and labels became. */
  datatype Image = Image(code: seq<byte>, env: Env, lab: Labels)

  predicate Ready(s: Stmt, inLoop: bool, im: Image) {
    && Structured(s) && LegalStmt(s, inLoop) && StmtKnown(s, im.env)
    && GotosDefined(s, im.lab) && Peak(s) <= STACK_SIZE
  }

  /** With the continuation starting at address `a`: where `break` goes ... */
  function BreakAddr(k: Cont, a: nat): nat {
    match k
    case KStop => 0
    case KSeq(s, k') => BreakAddr(k', a + Width(s))
    case KElse(b, k') => BreakAddr(k', a + 3 + Width(b))
    case KLoop(_, _, _) => a + 3
  }

  /** ... and where `continue` goes. */
  function ContinueAddr(k: Cont, a: nat): nat {
    match k
    case KStop => 0
    case KSeq(s, k') => ContinueAddr(k', a + Width(s))
    case KElse(b, k') => ContinueAddr(k', a + 3 + Width(b))
    case KLoop(e, s, _) => TopOf(e, s, a)
  }

  /** The first address of a loop whose closing jump stands at `a`. */
  function TopOf(e: Expr, s: Stmt, a: nat): nat {
    if a >= ValueSize(e) + 3 + Width(s) then a - Width(s) - 3 - ValueSize(e) else 0
  }

  /** The assembled form of `s` stands at `a`, in the loop that `k` behind it is in. */
  predicate StmtAt(im: Image, s: Stmt, k: Cont, a: nat) {
    var a' := a + Width(s);
    && Ready(s, InLoop(k), im)
    && CodeAt(im.code, a, Asm(s, a, BreakAddr(k, a'), ContinueAddr(k, a'), im.lab, im.env))
  }

  /** Ticking on from address `a` does what is left to do according to `k`. */
  predicate ContAt(im: Image, k: Cont, a: nat) {
    match k
    case KStop => a == |im.code|
    case KSeq(s, k') => StmtAt(im, s, k', a) && ContAt(im, k', a + Width(s))
    case KElse(b, k') => CodeAt(im.code, a, [Jmp(a + 3 + Width(b))]) && ContAt(im, k', a + 3 + Width(b))
    case KLoop(e, s, k') =>
      && a >= ValueSize(e) + 3 + Width(s)
      && CodeAt(im.code, a, [Jmp(TopOf(e, s, a))])
      && StmtAt(im, While(e, s), k', TopOf(e, s, a))
      && ContAt(im, k', a + 3)
  }

  /** The state stands at address `a`. */
  predicate StateAt(im: Image, x: State, a: nat) {
    StmtAt(im, x.s, x.k, a) && ContAt(im, x.k, a + Width(x.s))
  }

  /** The machine at a state that stands at `a`: an empty operand stack. */
  function MachOf(im: Image, x: State, a: nat): (m: Mach)
    ensures Shaped(m.core)
  {
    MachAt(im.code, a, RegsOf(im.env, [], x.st, x.w))
  }

  /** The image of a body without `for` and `do` that compiles without errors. */
  predicate Loaded(body: Stmt, im: Image) {
    && im.lab == Defs(body, 0, map[])
    && im.code == EncodeAll(Asm(body, 0, 0, 0, im.lab, im.env))
    && 0 < |im.code| <= 0xFFFF
    && Proper(im.env)
    && Ready(body, false, im)
  }

  lemma LoadedStart(body: Stmt, im: Image, st: Store, w: World)
    requires Loaded(body, im)
    ensures StateAt(im, State(body, KStop, st, w), 0)
  {
    hide Ready, EncodeAll;
    AsmSize(body, 0, 0, 0, im.lab, im.env);
    assert im.code[0..|im.code|] == im.code;
  }

  // ----- Addresses of continuations -----

  lemma {:induction false} ContInside(im: Image, k: Cont, a: nat)
    requires ContAt(im, k, a)
    ensures a <= |im.code|
    ensures BreakAddr(k, a) <= |im.code| && ContinueAddr(k, a) <= |im.code|
    decreases k
  {
    hide StmtAt, CodeAt, Width, ValueSize;
    match k {
      case KStop =>
      case KSeq(s, k') => ContInside(im, k', a + Width(s));
      case KElse(b, k') => ContInside(im, k', a + 3 + Width(b));
      case KLoop(_, _, k') => ContInside(im, k', a + 3);
    }
  }

  lemma {:induction false} BreakLands(im: Image, k: Cont, a: nat)
    requires ContAt(im, k, a) && InLoop(k)
    ensures ContAt(im, AfterBreak(k), BreakAddr(k, a))
    decreases k
  {
    hide StmtAt, CodeAt, Width, ValueSize;
    match k {
      case KSeq(s, k') => BreakLands(im, k', a + Width(s));
      case KElse(b, k') => BreakLands(im, k', a + 3 + Width(b));
      case KLoop(_, _, k') =>
    }
  }

  lemma {:induction false} ContinueLands(im: Image, k: Cont, a: nat, body: Stmt, st: Store, w: World)
    requires ContAt(im, k, a) && InLoop(k)
    ensures StateAt(im, Resume(body, Loop(k), st, w), ContinueAddr(k, a))
    decreases k
  {
    hide StmtAt, CodeAt, ValueSize;
    match k {
      case KSeq(s, k') => ContinueLands(im, k', a + Width(s), body, st, w);
      case KElse(b, k') => ContinueLands(im, k', a + 3 + Width(b), body, st, w);
      case KLoop(e, s, k') => assert TopOf(e, s, a) + Width(While(e, s)) == a + 3;
    }
  }

  // ----- The parts of a statement's code -----

  lemma ReadyParts(s: Stmt, inLoop: bool, im: Image)
    requires Ready(s, inLoop, im)
    ensures s.Seq? ==> Ready(s.first, inLoop, im) && Ready(s.rest, inLoop, im)
    ensures s.If? ==> Ready(s.then_, inLoop, im)
    ensures s.IfElse? ==> Ready(s.then_, inLoop, im) && Ready(s.else_, inLoop, im)
    ensures s.While? ==> Ready(s.body, true, im)
    ensures s.If? || s.IfElse? || s.While? ==> LegalValue(s.e) && Known(s.e, im.env) && ValueHeight(s.e) <= STACK_SIZE
    ensures s.ExprStmt? ==> Legal(s.e) && Known(s.e, im.env) && ValueHeight(s.e) <= STACK_SIZE
  {
    hide Legal, Known, HasValue, ValueHeight;
  }

  lemma SeqParts(im: Image, a: Stmt, b: Stmt, k: Cont, at: nat)
    requires StmtAt(im, Seq(a, b), k, at) && ContAt(im, k, at + Width(Seq(a, b)))
    ensures StmtAt(im, a, KSeq(b, k), at) && ContAt(im, KSeq(b, k), at + Width(a))
  {
    hide CodeAt, Ready, Loop, ContAt, Asm, Width, BreakAddr, ContinueAddr;
    WidthParts(Seq(a, b));
    ReadyParts(Seq(a, b), InLoop(k), im);
    KSeqFold(im, b, k, at + Width(a));
    var end := at + Width(Seq(a, b));
    SeqCode(im.code, a, b, at, BreakAddr(k, end), ContinueAddr(k, end), im.lab, im.env);
  }

  /** A continuation that starts with a statement. */
  lemma KSeqFold(im: Image, s: Stmt, k: Cont, a: nat)
    ensures ContAt(im, KSeq(s, k), a) <==> StmtAt(im, s, k, a) && ContAt(im, k, a + Width(s))
    ensures BreakAddr(KSeq(s, k), a) == BreakAddr(k, a + Width(s))
            && ContinueAddr(KSeq(s, k), a) == ContinueAddr(k, a + Width(s))
    ensures InLoop(KSeq(s, k)) == InLoop(k)
  {
    hide StmtAt, Width;
  }

  lemma IfParts(im: Image, e: Expr, a: Stmt, k: Cont, at: nat)
    requires StmtAt(im, If(e, a), k, at)
    ensures CodeAt(im.code, at, ValueCode(e, im.env))
    ensures CodeAt(im.code, at + ValueSize(e), [FJmp(at + Width(If(e, a)))])
    ensures StmtAt(im, a, k, at + ValueSize(e) + 3)
  {
    hide CodeAt, ValueCode, ValueSize, Ready, Loop, BreakAddr, ContinueAddr, Asm;
    ReadyParts(If(e, a), InLoop(k), im);
    var end := at + Width(If(e, a));
    IfCode(im.code, e, a, at, BreakAddr(k, end), ContinueAddr(k, end), im.lab, im.env);
  }

  lemma IfElseParts(im: Image, e: Expr, a: Stmt, b: Stmt, k: Cont, at: nat)
    requires StmtAt(im, IfElse(e, a, b), k, at) && ContAt(im, k, at + Width(IfElse(e, a, b)))
    ensures var then_ := at + ValueSize(e) + 3;
            && CodeAt(im.code, at, ValueCode(e, im.env))
            && CodeAt(im.code, at + ValueSize(e), [FJmp(then_ + Width(a) + 3)])
            && StmtAt(im, a, KElse(b, k), then_) && ContAt(im, KElse(b, k), then_ + Width(a))
            && StmtAt(im, b, k, then_ + Width(a) + 3)
  {
    hide CodeAt, ValueCode, ValueSize, Ready, Asm;
    ReadyParts(IfElse(e, a, b), InLoop(k), im);
    var end := at + Width(IfElse(e, a, b));
    IfElseCode(im.code, e, a, b, at, BreakAddr(k, end), ContinueAddr(k, end), im.lab, im.env);
  }

  lemma WhileParts(im: Image, e: Expr, a: Stmt, k: Cont, at: nat)
    requires StmtAt(im, While(e, a), k, at) && ContAt(im, k, at + Width(While(e, a)))
    ensures var body := at + ValueSize(e) + 3;
            && CodeAt(im.code, at, ValueCode(e, im.env))
            && CodeAt(im.code, at + ValueSize(e), [FJmp(at + Width(While(e, a)))])
            && StmtAt(im, a, KLoop(e, a, k), body) && ContAt(im, KLoop(e, a, k), body + Width(a))
  {
    hide CodeAt, ValueCode, ValueSize, Ready, Asm;
    ReadyParts(While(e, a), InLoop(k), im);
    var end := at + Width(While(e, a));
    WhileCode(im.code, e, a, at, BreakAddr(k, end), ContinueAddr(k, end), im.lab, im.env);
    assert TopOf(e, a, at + ValueSize(e) + 3 + Width(a)) == at;
  }

  // ----- Labels -----

  /** The first pass gave label `x` the address where `r` starts; without the label it left the
      table alone. */
  predicate Found(im: Image, x: string, r: Option<Cont>, defs: Labels, acc: Labels) {
    match r
    case Some(k) => x in defs && ContAt(im, k, defs[x])
    case None => (x in defs <==> x in acc) && (x in acc ==> defs[x] == acc[x])
  }

  /** The address found for a label in the first pass is where what follows the label stands. */
  lemma {:induction false} LabelLands(im: Image, x: string, s: Stmt, k: Cont, at: nat, acc: Labels)
    requires StmtAt(im, s, k, at) && ContAt(im, k, at + Width(s))
    ensures Found(im, x, FindLabel(x, s, k), Defs(s, at, acc), acc)
    decreases s, 1
  {
    hide StmtAt, ContAt, ValueSize, Width, CodeAt;
    WidthParts(s);
    match s {
      case Seq(a, b) =>
        SeqParts(im, a, b, k, at);
        KSeqFold(im, b, k, at + Width(a));
        LabelLands(im, x, a, KSeq(b, k), at, acc);
        LabelLands(im, x, b, k, at + Width(a), Defs(a, at, acc));
      case If(e, a) =>
        IfParts(im, e, a, k, at);
        LabelLands(im, x, a, k, at + ValueSize(e) + 3, acc);
      case IfElse(_, _, _) => IfElseLabelLands(im, x, s, k, at, acc);
      case While(e, a) =>
        WhileParts(im, e, a, k, at);
        LabelLands(im, x, a, KLoop(e, a, k), at + ValueSize(e) + 3, acc);
      case For(_, _, _, _) => NotStructured(im, s, k, at);
      case Do(_, _) => NotStructured(im, s, k, at);
      case _ =>
    }
  }

  lemma {:induction false} IfElseLabelLands(im: Image, x: string, s: Stmt, k: Cont, at: nat, acc: Labels)
    requires s.IfElse? && StmtAt(im, s, k, at) && ContAt(im, k, at + Width(s))
    ensures Found(im, x, FindLabel(x, s, k), Defs(s, at, acc), acc)
    decreases s, 0
  {
    hide StmtAt, ContAt, ValueSize, Width, CodeAt;
    WidthParts(s);
    var IfElse(e, a, b) := s;
    var then_ := at + ValueSize(e) + 3;
    IfElseParts(im, e, a, b, k, at);
    LabelLands(im, x, a, KElse(b, k), then_, acc);
    LabelLands(im, x, b, k, then_ + Width(a) + 3, Defs(a, then_, acc));
  }

  lemma WidthParts(s: Stmt)
    ensures s.Seq? ==> Width(s) == Width(s.first) + Width(s.rest)
    ensures s.If? ==> Width(s) == ValueSize(s.e) + 3 + Width(s.then_)
    ensures s.IfElse? ==> Width(s) == ValueSize(s.e) + 3 + Width(s.then_) + 3 + Width(s.else_)
    ensures s.While? ==> Width(s) == ValueSize(s.e) + 3 + Width(s.body) + 3
    ensures s.Empty? || s.Label? || s.Skip? ==> Width(s) == 0
  {
    hide ValueSize;
  }

  lemma NotStructured(im: Image, s: Stmt, k: Cont, at: nat)
    requires s.For? || s.Do?
    ensures !StmtAt(im, s, k, at)
  {
  }

  // ----- Single ticks -----

  lemma TickJmp(code: seq<byte>, a: nat, t: nat, r: Regs)
    requires Sound(r) && CodeAt(code, a, [Jmp(t)]) && t < 0x10000
    ensures MTick(code, MachAt(code, a, r)) == Execution.Next(MachAt(code, t, r))
  {
    hide Decode, CodeAt;
    FetchAt(code, a, [Jmp(t)]);
  }

  lemma TickFJmp(code: seq<byte>, a: nat, t: nat, r: Regs, v: byte)
    requires |r.vars| == 4 && |r.stack| < STACK_SIZE && CodeAt(code, a, [FJmp(t)]) && t < 0x10000
    ensures MTick(code, MachAt(code, a, r.(stack := r.stack + [v])))
            == Execution.Next(MachAt(code, if v == 0 then t else a + 3, r))
  {
    hide Decode, CodeAt;
    FetchAt(code, a, [FJmp(t)]);
    assert Drop(r.stack + [v], 1) == r.stack;
  }

  lemma TickHalt(code: seq<byte>, a: nat, r: Regs)
    requires Sound(r) && CodeAt(code, a, [Instr.Halt])
    ensures MTick(code, MachAt(code, a, r)) == Halted
  {
    hide Decode, CodeAt;
    FetchAt(code, a, [Instr.Halt]);
  }

  lemma OneTick(code: seq<byte>, m: Mach, t: Mach)
    requires Shaped(m.core) && MTick(code, m) == Execution.Next(t)
    ensures Runs(code, m, 1, t)
  {
    hide MTick;
    assert Runs(code, t, 0, t);
  }

  // ----- The simulation -----

  /** The more there is left to unfold without ticking, the larger. */
  function Weight(s: Stmt): nat {
    match s
    case Seq(a, b) => Weight(a) + Weight(b) + 2
    case ExprStmt(_) => 1
    case _ => 0
  }

  function ContWeight(k: Cont): nat {
    match k
    case KSeq(s, k') => Weight(s) + 1 + ContWeight(k')
    case _ => 0
  }

  /** `y` at `b` is nearer to the next tick than `x` at `a`: the body started over, or no end was
      passed and less is left to unfold. */
  predicate Nearer(im: Image, y: State, b: nat, x: State, a: nat) {
    || (a == |im.code| && b == 0)
    || (a == b && Weight(y.s) + ContWeight(y.k) < Weight(x.s) + ContWeight(x.k))
  }

  /** `n` ticks from the machine of `x` at `a` do the source step `o`. Only steps towards the next
      tick take none. */
  ghost predicate Does(im: Image, x: State, a: nat, n: nat, o: Outcome) {
    match o
    case Goes(y) => exists b: nat :: StateAt(im, y, b) && Runs(im.code, MachOf(im, x, a), n, MachOf(im, y, b))
                                     && (n == 0 ==> Nearer(im, y, b, x, a))
    case Halts => n == 0 && MTick(im.code, MachOf(im, x, a)) == Halted
    case Waits(w) => EndsWith(im.code, MachOf(im, x, a), im.env, w, Starved)
    case Fails(w) => EndsWith(im.code, MachOf(im, x, a), im.env, w, Stuck)
  }

  /** What a loaded image keeps, body and all. */
  predicate Fixed(im: Image) {
    0 < |im.code| <= 0xFFFF && Proper(im.env)
  }

  /** A jump that stands at `a` and leads to where `y` stands. */
  lemma JumpDone(im: Image, x: State, a: nat, y: State, b: nat)
    requires Fixed(im) && CodeAt(im.code, a, [Jmp(b)]) && StateAt(im, y, b) && y.st == x.st && y.w == x.w
    ensures Does(im, x, a, 1, Goes(y))
  {
    hide MTick, Runs, StmtAt, CodeAt, VarsOf, SlotActs;
    ContInside(im, y.k, b + Width(y.s));
    TickJmp(im.code, a, b, RegsOf(im.env, [], x.st, x.w));
    OneTick(im.code, MachOf(im, x, a), MachOf(im, y, b));
  }

  /** Nothing to tick: the machine stands where `y` stands already. */
  lemma NoTickDone(im: Image, x: State, a: nat, y: State, b: nat)
    requires StateAt(im, y, b) && Nearer(im, y, b, x, a) && y.st == x.st && y.w == x.w
    requires Advance(im.code, a) == Advance(im.code, b)
    ensures Does(im, x, a, 0, Goes(y))
  {
    hide StateAt, Nearer, VarsOf, SlotActs;
    assert MachOf(im, y, b) == MachOf(im, x, a);
    ZeroTicks(im.code, MachOf(im, x, a));
  }

  lemma ResumeDone(body: Stmt, im: Image, x: State, a: nat) returns (n: nat)
    requires Loaded(body, im) && StateAt(im, x, a) && Width(x.s) == 0 && Weight(x.s) == 0
    ensures Does(im, x, a, n, Goes(Resume(body, x.k, x.st, x.w)))
  {
    hide Does, Loaded, StmtAt, CodeAt;
    var y := Resume(body, x.k, x.st, x.w);
    LoadedFixed(body, im);
    match x.k {
      case KStop =>
        n := 0;
        LoadedStart(body, im, x.st, x.w);
        NoTickDone(im, x, a, y, 0);
      case KSeq(s, k) =>
        n := 0;
        NoTickDone(im, x, a, y, a);
      case KElse(b, k) =>
        n := 1;
        SkipAt(im, k, a + 3 + Width(b), x.st, x.w);
        JumpDone(im, x, a, y, a + 3 + Width(b));
      case KLoop(e, s, k) =>
        n := 1;
        var top := TopOf(e, s, a);
        assert top + Width(While(e, s)) == a + 3;
        JumpDone(im, x, a, y, top);
    }
  }

  lemma ZeroTicks(code: seq<byte>, m: Mach)
    requires Shaped(m.core)
    ensures Runs(code, m, 0, m)
  {
  }

  lemma LoadedFixed(body: Stmt, im: Image)
    requires Loaded(body, im)
    ensures Fixed(im)
  {
  }

  /** Where a continuation starts, nothing of the current statement is left. */
  lemma SkipAt(im: Image, k: Cont, a: nat, st: Store, w: World)
    requires ContAt(im, k, a)
    ensures StateAt(im, State(Skip, k, st, w), a)
  {
    hide ContAt;
    assert Asm(Skip, a, BreakAddr(k, a), ContinueAddr(k, a), im.lab, im.env) == [];
    ContInside(im, k, a);
    EmptyAt(im.code, a);
  }

  lemma EmptyAt(code: seq<byte>, a: nat)
    requires a <= |code|
    ensures CodeAt(code, a, [])
  {
  }

  lemma ExprDone(body: Stmt, im: Image, x: State, a: nat) returns (n: nat)
    requires Fixed(im) && StateAt(im, x, a) && x.s.ExprStmt?
    ensures Does(im, x, a, n, SourceStep(body, x))
  {
    hide MTick, Runs, VarsOf, CodeAt, Ready, ContAt, Code, EndsWith, DropCode, Size;
    var e := x.s.e;
    var prog := EffectCode(e, im.env);
    ReadyParts(x.s, InLoop(x.k), im);
    ExpressionStatementPreserved(e, im.env, im.code, a, [], x.st, x.w);
    ExprSizes(e, im.env);
    n := |prog|;
    if Eval(e, x.st, x.w).Done? {
      var y := State(Skip, x.k, Eval(e, x.st, x.w).st, Eval(e, x.st, x.w).w);
      SkipAt(im, x.k, a + Size(prog), y.st, y.w);
      assert n == 0 ==> Size(prog) == 0 by { EmptySize(); }
      assert StateAt(im, y, a + Size(prog));
    }
  }

  /** The code of a condition and the jump behind it choose as the source does. */
  lemma ChooseDone(im: Image, x: State, a: nat, e: Expr, t: Stmt, tk: Cont, f: Stmt, fa: nat) returns (n: nat)
    requires Fixed(im) && LegalValue(e) && Known(e, im.env) && ValueHeight(e) <= STACK_SIZE
    requires CodeAt(im.code, a, ValueCode(e, im.env)) && CodeAt(im.code, a + ValueSize(e), [FJmp(fa)])
    requires StateAt(im, State(t, tk, x.st, x.w), a + ValueSize(e) + 3) && StateAt(im, State(f, x.k, x.st, x.w), fa)
    ensures Does(im, x, a, n, Choose(Eval(e, x.st, x.w), t, tk, f, x.k))
  {
    hide MTick, VarsOf, SlotActs, CodeAt, ContAt, StmtAt, ValueCode, EndsWith, Size, ValueSize, Eval, Legal, KindOf,
         Known, ValueHeight, Proper, Width;
    ExpressionPreserved(e, im.env, im.code, a, [], x.st, x.w);
    ExprSizes(e, im.env);
    n := |ValueCode(e, im.env)| + 1;
    var m := MachOf(im, x, a);
    if Eval(e, x.st, x.w).Done? {
      var Done(v, st, w) := Eval(e, x.st, x.w);
      var r := RegsOf(im.env, [], st, w);
      var b := if v == 0 then fa else a + ValueSize(e) + 3;
      var y := if v == 0 then State(f, x.k, st, w) else State(t, tk, st, w);
      ContInside(im, x.k, fa + Width(f));
      TickFJmp(im.code, a + ValueSize(e), fa, r, v);
      OneTick(im.code, MachAt(im.code, a + ValueSize(e), r.(stack := [] + [v])), MachOf(im, y, b));
      RunsTransitive(im.code, m, n - 1, MachAt(im.code, a + ValueSize(e), r.(stack := [] + [v])), 1, MachOf(im, y, b));
      assert StateAt(im, y, b);
    }
  }

  lemma BranchDone(body: Stmt, im: Image, x: State, a: nat) returns (n: nat)
    requires Fixed(im) && StateAt(im, x, a) && (x.s.If? || x.s.IfElse? || x.s.While?)
    ensures Does(im, x, a, n, SourceStep(body, x))
  {
    hide Does, CodeAt, Ready, Eval, ContAt, Asm, StmtAt, ValueHeight, Known, LegalValue, Resume, Width;
    WidthParts(x.s);
    StateReady(im, x, a);
    match x.s {
      case If(e, s) =>
        IfParts(im, e, s, x.k, a);
        SkipAt(im, x.k, a + Width(x.s), x.st, x.w);
        n := ChooseDone(im, x, a, e, s, x.k, Skip, a + Width(x.s));
      case IfElse(e, s, t) =>
        IfElseParts(im, e, s, t, x.k, a);
        n := ChooseDone(im, x, a, e, s, KElse(t, x.k), t, a + ValueSize(e) + 3 + Width(s) + 3);
      case While(e, s) =>
        WhileParts(im, e, s, x.k, a);
        SkipAt(im, x.k, a + Width(x.s), x.st, x.w);
        n := ChooseDone(im, x, a, e, s, KLoop(e, s, x.k), Skip, a + Width(x.s));
    }
  }

  /** Every step of the source is done by the code (compiler.c:769-844, compiler.c:893-912,
      compiler.c:939-1038, vm.c:466-522): a finite number of ticks leads to the next state, with equal
      variables, equal input and equal port actions. */
  lemma StepSimulated(body: Stmt, im: Image, x: State, a: nat) returns (n: nat)
    requires Loaded(body, im) && StateAt(im, x, a)
    ensures Does(im, x, a, n, SourceStep(body, x))
  {
    hide Does, MTick, Runs, Loaded, CodeAt, Ready, Eval, ContAt, Asm, Defs, StmtAt, ValueHeight, Known, LegalValue,
         Resume;
    LoadedFixed(body, im);
    WidthParts(x.s);
    match x.s {
      case ExprStmt(e) => n := ExprDone(body, im, x, a);
      case Seq(s, t) =>
        n := 0;
        SeqParts(im, s, t, x.k, a);
        NoTickDone(im, x, a, State(s, KSeq(t, x.k), x.st, x.w), a);
      case If(_, _) => n := BranchDone(body, im, x, a);
      case IfElse(_, _, _) => n := BranchDone(body, im, x, a);
      case While(_, _) => n := BranchDone(body, im, x, a);
      case Break => n := BreakDone(body, im, x, a);
      case Continue => n := ContinueDone(body, im, x, a);
      case Goto(l) => n := GotoDone(body, im, x, a);
      case Halt =>
        n := 0;
        HaltDone(im, x, a);
      case For(_, _, _, _) => NotStructured(im, x.s, x.k, a);
      case Do(_, _) => NotStructured(im, x.s, x.k, a);
      case _ => n := ResumeDone(body, im, x, a);
    }
  }

  lemma StateReady(im: Image, x: State, a: nat)
    requires StateAt(im, x, a) && (x.s.If? || x.s.IfElse? || x.s.While?)
    ensures LegalValue(x.s.e) && Known(x.s.e, im.env) && ValueHeight(x.s.e) <= STACK_SIZE
  {
    ReadyParts(x.s, InLoop(x.k), im);
  }

  lemma HaltDone(im: Image, x: State, a: nat)
    requires Fixed(im) && StateAt(im, x, a) && x.s.Halt?
    ensures Does(im, x, a, 0, Halts)
  {
    hide MTick, CodeAt, Ready, ContAt;
    TickHalt(im.code, a, RegsOf(im.env, [], x.st, x.w));
  }

  lemma BreakDone(body: Stmt, im: Image, x: State, a: nat) returns (n: nat)
    requires Fixed(im) && StateAt(im, x, a) && x.s.Break?
    ensures Does(im, x, a, n, SourceStep(body, x))
  {
    hide Does, CodeAt, ContAt;
    n := 1;
    BreakLands(im, x.k, a + 3);
    SkipAt(im, AfterBreak(x.k), BreakAddr(x.k, a + 3), x.st, x.w);
    JumpDone(im, x, a, State(Skip, AfterBreak(x.k), x.st, x.w), BreakAddr(x.k, a + 3));
  }

  lemma ContinueDone(body: Stmt, im: Image, x: State, a: nat) returns (n: nat)
    requires Fixed(im) && StateAt(im, x, a) && x.s.Continue?
    ensures Does(im, x, a, n, SourceStep(body, x))
  {
    hide Does, CodeAt, ContAt;
    n := 1;
    ContinueLands(im, x.k, a + 3, body, x.st, x.w);
    JumpDone(im, x, a, Resume(body, Loop(x.k), x.st, x.w), ContinueAddr(x.k, a + 3));
  }

  lemma GotoDone(body: Stmt, im: Image, x: State, a: nat) returns (n: nat)
    requires Loaded(body, im) && StateAt(im, x, a) && x.s.Goto?
    ensures Does(im, x, a, n, SourceStep(body, x))
  {
    hide Does, CodeAt, ContAt, EncodeAll;
    n := 1;
    var l := x.s.target;
    LoadedStart(body, im, x.st, x.w);
    LabelLands(im, l, body, KStop, 0, map[]);
    var k := FindLabel(l, body, KStop).value;
    SkipAt(im, k, AddrOf(im.lab, l), x.st, x.w);
    JumpDone(im, x, a, State(Skip, k, x.st, x.w), AddrOf(im.lab, l));
  }
}
