/** Whole runs of a processor: the source and its code do the same, neither less nor more. */
module Behaviour {
  import opened Wrappers
  import opened Bytes
  import opened Bytecode
  import opened Machine
  import opened Syntax
  import opened Execution
  import opened ExprMeaning
  import opened Assembler
  import opened StmtMeaning

  /** The source after `n` steps; None when it came to an end before. */
  function SourceRun(body: Stmt, x: State, n: nat): Option<State>
    decreases n
  {
    if n == 0 then Some(x) else
    match SourceStep(body, x)
    case Goes(y) => SourceRun(body, y, n - 1)
    case _ => None
  }

  /** The image that the compiler makes of a body. */
  function ImageOf(body: Stmt): Image {
    Image(EncodeAll(Program(body)), StmtNames(Blank, body), Defs(body, 0, map[]))
  }

  /** The bodies the theorems are about: they compile without an error, have no `for` and no `do`,
      emit some code, and no expression of theirs needs more than the whole operand stack. */
  predicate Covered(body: Stmt) {
    Compilable(body) && Structured(body) && Width(body) > 0 && Peak(body) <= STACK_SIZE
  }

  lemma CoveredLoaded(body: Stmt)
    requires Covered(body)
    ensures Loaded(body, ImageOf(body))
  {
    hide EncodeAll, Asm, Width, LegalStmt, GotosDefined, Defs;
    var im := ImageOf(body);
    StmtNamesExtend(Blank, body);
    StmtNamesKnown(Blank, body, im.env);
    AsmSize(body, 0, 0, 0, im.lab, im.env);
  }

  function Begin(body: Stmt, ins: seq<byte>): State {
    State(body, KStop, map[], World(ins, []))
  }

  /** A processor as the VM creates it, with the input it is going to receive. */
  function Created(ins: seq<byte>): Mach {
    Mach(Fresh, ins, [])
  }

  lemma BeginsCreated(body: Stmt, ins: seq<byte>)
    requires Covered(body)
    ensures var im := ImageOf(body);
            && Loaded(body, im) && StateAt(im, Begin(body, ins), 0) && MachOf(im, Begin(body, ins), 0) == Created(ins)
  {
    hide Loaded, StateAt;
    CoveredLoaded(body);
    LoadedStart(body, ImageOf(body), map[], World(ins, []));
    LoadedFixed(body, ImageOf(body));
  }

  // ----- The code does what the source does -----

  lemma {:induction false} RunSimulated(body: Stmt, im: Image, x: State, a: nat, n: nat) returns (b: nat, ticks: nat)
    requires Loaded(body, im) && StateAt(im, x, a) && SourceRun(body, x, n).Some?
    ensures StateAt(im, SourceRun(body, x, n).value, b)
    ensures Runs(im.code, MachOf(im, x, a), ticks, MachOf(im, SourceRun(body, x, n).value, b))
    decreases n
  {
    hide Runs, Loaded, StateAt, SourceStep;
    b, ticks := a, 0;
    ZeroTicks(im.code, MachOf(im, x, a));
    if n > 0 {
      var y := SourceStep(body, x).x;
      var k := StepSimulated(body, im, x, a);
      var c: nat :| StateAt(im, y, c) && Runs(im.code, MachOf(im, x, a), k, MachOf(im, y, c));
      b, ticks := RunSimulated(body, im, y, c, n - 1);
      RunsTransitive(im.code, MachOf(im, x, a), k, MachOf(im, y, c), ticks, MachOf(im, SourceRun(body, x, n).value, b));
      ticks := k + ticks;
    }
  }

  /** Statement compilation preserves meaning: wherever the source gets to, its code gets to in
      finitely many ticks, with an empty operand stack, equal variables, equal input left and equal
      port actions. */
  lemma CodeDoesAll(body: Stmt, ins: seq<byte>, n: nat) returns (b: nat, ticks: nat)
    requires Covered(body) && SourceRun(body, Begin(body, ins), n).Some?
    ensures var im := ImageOf(body);
            var y := SourceRun(body, Begin(body, ins), n).value;
            Runs(im.code, Created(ins), ticks, MachAt(im.code, b, RegsOf(im.env, [], y.st, y.w)))
  {
    hide Runs, Loaded, StateAt, SourceStep;
    BeginsCreated(body, ins);
    b, ticks := RunSimulated(body, ImageOf(body), Begin(body, ins), 0, n);
  }

  // ----- ... and nothing else -----

  lemma {:induction false} ActsGrow(code: seq<byte>, m: Mach, n: nat, t: Mach)
    requires Shaped(m.core) && Runs(code, m, n, t)
    ensures m.acts <= t.acts
    decreases n
  {
    hide Peek, AfterSend, AfterRecv;
    if n > 0 {
      ActsGrow(code, MTick(code, m).m, n - 1, t);
    }
  }

  /** Of two runs from one machine, the longer one passes through the end of the shorter one. */
  lemma {:induction false} OnTheWay(code: seq<byte>, m: Mach, n: nat, t: Mach, k: nat, u: Mach)
    requires Shaped(m.core) && Runs(code, m, n, t) && Runs(code, m, k, u) && n <= k
    ensures Shaped(t.core) && Runs(code, t, k - n, u)
    decreases n
  {
    hide MTick;
    if n > 0 {
      OnTheWay(code, MTick(code, m).m, n - 1, t, k - 1, u);
    }
  }

  /** `n` steps of the source account for the port actions `acts`: they were done by then, or in the
      step that comes to no end. */
  predicate Explains(body: Stmt, im: Image, x: State, n: nat, acts: seq<Action<slot>>) {
    var y := SourceRun(body, x, n);
    && y.Some?
    && (|| acts <= SlotActs(im.env, y.value.w.acts)
        || match SourceStep(body, y.value)
           case Waits(w) => acts <= SlotActs(im.env, w.acts)
           case Fails(w) => acts <= SlotActs(im.env, w.acts)
           case _ => false)
  }

  /** A machine at a standstill gets no further. */
  lemma StandsStill(code: seq<byte>, m: Mach, t: Regs, how: Tick, n: nat, u: Mach)
    requires Shaped(m.core) && EndsIn(code, m, t, how) && !how.Next? && Runs(code, m, n, u)
    ensures u.acts <= t.acts
  {
    hide MTick, Runs;
    var b: nat :| AtEnd(code, m, b, t, how);
    var e := MachAt(code, b, t);
    var k: nat :| Runs(code, m, k, e);
    if n <= k {
      OnTheWay(code, m, n, u, k, e);
      ActsGrow(code, u, k - n, e);
    } else {
      OnTheWay(code, m, k, e, n, u);
      NoMoreTicks(code, e, n - k, u);
    }
  }

  lemma NoMoreTicks(code: seq<byte>, e: Mach, n: nat, u: Mach)
    requires Shaped(e.core) && Runs(code, e, n, u) && !MTick(code, e).Next?
    ensures n == 0 && u == e
  {
  }

  lemma {:induction false} TicksExplained(body: Stmt, im: Image, x: State, a: nat, n: nat, t: Mach) returns (steps: nat)
    requires Loaded(body, im) && StateAt(im, x, a) && Runs(im.code, MachOf(im, x, a), n, t)
    ensures Explains(body, im, x, steps, t.acts)
    decreases n, a == |im.code|, Weight(x.s) + ContWeight(x.k)
  {
    hide MTick, Runs, Loaded, StateAt, SourceStep, SlotActs, VarsOf, Weight, ContWeight;
    LoadedFixed(body, im);
    var k := StepSimulated(body, im, x, a);
    steps := 0;
    if SourceStep(body, x).Goes? {
      var y := SourceStep(body, x).x;
      var b := NextAddress(im, x, a, k, y);
      if k <= n {
        OnTheWay(im.code, MachOf(im, x, a), k, MachOf(im, y, b), n, t);
        steps := TicksExplained(body, im, y, b, n - k, t);
        steps := steps + 1;
      } else {
        OnTheWay(im.code, MachOf(im, x, a), n, t, k, MachOf(im, y, b));
        ActsGrow(im.code, t, k - n, MachOf(im, y, b));
        steps := 1;
        assert SourceRun(body, y, 0) == Some(y);
      }
    } else {
      EndExplained(body, im, x, a, k, n, t);
    }
  }

  lemma NextAddress(im: Image, x: State, a: nat, k: nat, y: State) returns (b: nat)
    requires Does(im, x, a, k, Goes(y))
    ensures StateAt(im, y, b) && Runs(im.code, MachOf(im, x, a), k, MachOf(im, y, b))
    ensures k == 0 ==> Nearer(im, y, b, x, a)
  {
    hide StateAt, Runs, Nearer;
    b :| StateAt(im, y, b) && Runs(im.code, MachOf(im, x, a), k, MachOf(im, y, b)) && (k == 0 ==> Nearer(im, y, b, x, a));
  }

  lemma EndExplained(body: Stmt, im: Image, x: State, a: nat, k: nat, n: nat, t: Mach)
    requires !SourceStep(body, x).Goes? && Does(im, x, a, k, SourceStep(body, x))
    requires Runs(im.code, MachOf(im, x, a), n, t)
    ensures Explains(body, im, x, 0, t.acts)
  {
    hide MTick, Runs, SourceStep, SlotActs, VarsOf, EndsIn;
    var m := MachOf(im, x, a);
    match SourceStep(body, x) {
      case Halts => NoMoreTicks(im.code, m, n, t);
      case Waits(w) =>
        var r :| EndsIn(im.code, m, r, Starved) && r.ins == w.ins && r.acts == SlotActs(im.env, w.acts);
        StandsStill(im.code, m, r, Starved, n, t);
      case Fails(w) =>
        var r :| EndsIn(im.code, m, r, Stuck) && r.ins == w.ins && r.acts == SlotActs(im.env, w.acts);
        StandsStill(im.code, m, r, Stuck, n, t);
    }
  }

  /** The code does nothing of its own: after any number of ticks, the port actions so far are a
      beginning of the source's. */
  lemma CodeDoesNothingElse(body: Stmt, ins: seq<byte>, n: nat, t: Mach) returns (steps: nat)
    requires Covered(body) && Runs(EncodeAll(Program(body)), Created(ins), n, t)
    ensures Explains(body, ImageOf(body), Begin(body, ins), steps, t.acts)
  {
    hide Runs, Loaded, StateAt, SourceStep;
    BeginsCreated(body, ins);
    steps := TicksExplained(body, ImageOf(body), Begin(body, ins), 0, n, t);
  }
}
