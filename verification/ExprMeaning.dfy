/** What expressions mean, and that their code computes it. The evaluator works on the tree: operands
    from left to right, every operand evaluated, arithmetic on bytes. */
module ExprMeaning {
  import opened Wrappers
  import opened Bytes
  import opened Bytecode
  import opened Machine
  import opened Syntax
  import opened Dict
  import opened CodeGen
  import opened Execution

  /** The variables of a processor; all start out as 0. */
  type Store = map<string, byte>

  function Get(st: Store, x: string): byte {
    if x in st then st[x] else 0
  }

  /** The input still to come and the port actions so far, ports by name. */
  datatype World = World(ins: seq<byte>, acts: seq<Action<string>>)

  /** A value, the final variables and the final world; or waiting for input that does not come; or
      an operation that C leaves undefined. */
  datatype Result = Done(v: byte, st: Store, w: World) | Waiting(w: World) | Undefined(w: World)

  function UnaryValue(op: UnaryOp, x: byte): byte {
    match op
    case Posate => x
    case Negative => Negate(x)
    case Lognot => LogicalNot(x)
    case Bitnot => Complement(x)
  }

  /** The infix operators as they are meant; `!=`, `>` and `>=` in their own right. */
  function InfixValue(op: InfixOp, x: byte, y: byte): Option<byte> {
    match op
    case Plain(o) => Apply(o, x, y)
    case Neq => Some(Truth(x != y))
    case Gtr => Some(Truth(x > y))
    case Gte => Some(Truth(x >= y))
  }

  /** `c ? a : b` as it is compiled: (c && a) || b. */
  function CondValue(c: byte, a: byte, b: byte): byte {
    var both := if c != 0 then a else 0;
    if both != 0 then both else b
  }

  /** One more or one less, modulo 256. */
  function Stepped(up: bool, x: byte): byte {
    if up then (x + 1) % 256 else (x - 1) % 256
  }

  function Receive(x: Kind, port: string, st: Store, w: World): Result {
    if w.ins == [] then Waiting(w) else
    var b := w.ins[0];
    var w' := World(w.ins[1..], w.acts + [In(port, b)]);
    match x
    case OfVar(y) => Done(b, st[y := b], w')
    case OfPort(p) => Done(b, st, World(w'.ins, w'.acts + [Out(p, b)]))
    case _ => Done(b, st, w')
  }

  /** Run `e`; its value is meaningful when it has one. */
  function Eval(e: Expr, st: Store, w: World): Result
    decreases e
  {
    match e
    case Num(n) => Done(n % 256, st, w)
    case Char(c) => Done(c, st, w)
    case Var(x) => Done(Get(st, x), st, w)
    case Port(_) => Done(0, st, w)
    case Unary(op, x) =>
      (match Eval(x, st, w)
       case Done(v, st1, w1) => Done(UnaryValue(op, v), st1, w1)
       case r => r)
    case PreStep(up, x) =>
      (match Eval(x, st, w)
       case Done(_, st1, w1) =>
         var y := Target(x);
         var v := Stepped(up, Get(st1, y));
         Done(v, st1[y := v], w1)
       case r => r)
    case PostStep(x, up) =>
      (match Eval(x, st, w)
       case Done(_, st1, w1) =>
         var y := Target(x);
         Done(Get(st1, y), st1[y := Stepped(up, Get(st1, y))], w1)
       case r => r)
    case Binary(l, op, r) =>
      (match Eval(l, st, w)
       case Done(v1, st1, w1) =>
         (match Eval(r, st1, w1)
          case Done(v2, st2, w2) =>
            (match InfixValue(op, v1, v2)
             case None => Undefined(w2)
             case Some(v) => Done(v, st2, w2))
          case x => x)
       case x => x)
    case Assign(l, op, r) =>
      (match Eval(l, st, w)
       case Done(_, st1, w1) =>
         var y := Target(l);
         var before := Get(st1, y);
         (match Eval(r, st1, w1)
          case Done(v2, st2, w2) =>
            (match op
             case None => Done(v2, st2[y := v2], w2)
             case Some(o) =>
               match Apply(o, before, v2)
               case None => Undefined(w2)
               case Some(v) => Done(v, st2[y := v], w2))
          case x => x)
       case x => x)
    case Comma(l, r) =>
      (match Eval(l, st, w)
       case Done(_, st1, w1) => Eval(r, st1, w1)
       case x => x)
    case Cond(c, a, b) =>
      (match Eval(c, st, w)
       case Done(v1, st1, w1) =>
         (match Eval(a, st1, w1)
          case Done(v2, st2, w2) =>
            (match Eval(b, st2, w2)
             case Done(v3, st3, w3) => Done(CondValue(v1, v2, v3), st3, w3)
             case x => x)
          case x => x)
       case x => x)
    case Send(l, r) =>
      (match Eval(l, st, w)
       case Done(_, st1, w1) =>
         (match Eval(r, st1, w1)
          case Done(v2, st2, w2) =>
            if KindOf(r).OfPort? then Receive(KindOf(l), KindOf(r).name, st2, w2)
            else if KindOf(l).OfPort? then Done(v2, st2, World(w2.ins, w2.acts + [Out(KindOf(l).name, v2)]))
            else Done(v2, st2, w2)
          case x => x)
       case x => x)
  }

  /** The variable that `++`, `--` and assignments change. */
  function Target(e: Expr): string {
    if KindOf(e).OfVar? then KindOf(e).name else ""
  }

  // ----- How a machine represents variables and actions -----

  /** The variable slots; those without a name still hold 0. */
  function VarsOf(env: Env, st: Store): (v: seq<byte>)
    ensures |v| == 4
  {
    [VarAt(env, st, 0), VarAt(env, st, 1), VarAt(env, st, 2), VarAt(env, st, 3)]
  }

  function VarAt(env: Env, st: Store, i: nat): byte {
    if i < |env.vars| then Get(st, env.vars[i]) else 0
  }

  function SlotAct(env: Env, a: Action<string>): Action<slot> {
    match a
    case Out(p, b) => Out(SlotOf(env.ports, p), b)
    case In(p, b) => In(SlotOf(env.ports, p), b)
  }

  function SlotActs(env: Env, acts: seq<Action<string>>): (r: seq<Action<slot>>)
    ensures |r| == |acts|
  {
    if acts == [] then [] else SlotActs(env, acts[..|acts| - 1]) + [SlotAct(env, acts[|acts| - 1])]
  }

  lemma SlotActsAppend(env: Env, acts: seq<Action<string>>, a: Action<string>)
    ensures SlotActs(env, acts + [a]) == SlotActs(env, acts) + [SlotAct(env, a)]
  {
    assert (acts + [a])[..|acts|] == acts;
  }

  /** The registers that stand for a store and a world, above a stack. */
  function RegsOf(env: Env, stack: seq<byte>, st: Store, w: World): Regs {
    Regs(stack, VarsOf(env, st), w.ins, SlotActs(env, w.acts))
  }

  /** A variable's slot holds its value, and writing the slot writes the variable. */
  lemma SlotHolds(env: Env, st: Store, x: string, b: byte)
    requires Proper(env) && x in env.vars
    ensures VarsOf(env, st)[SlotOf(env.vars, x)] == Get(st, x)
    ensures VarsOf(env, st)[SlotOf(env.vars, x) := b] == VarsOf(env, st[x := b])
  {
    var i := IndexOf(env.vars, x);
    var v, v' := VarsOf(env, st)[i := b], VarsOf(env, st[x := b]);
    forall j | 0 <= j < 4
      ensures v[j] == v'[j]
    {
      assert v'[j] == VarAt(env, st[x := b], j);
      assert j != i ==> v[j] == VarAt(env, st, j);
      assert j != i && j < |env.vars| ==> env.vars[j] != x;
    }
  }

  lemma KindKnown(e: Expr, env: Env)
    requires Known(e, env)
    ensures KindOf(e).OfVar? ==> KindOf(e).name in env.vars
    ensures KindOf(e).OfPort? ==> KindOf(e).name in env.ports
  {
  }

  // ----- The code computes the value -----

  /** The outcome `x` of running code above the stack `stack` is what `res` says. */
  predicate Matches(x: Exec, env: Env, stack: seq<byte>, res: Result, pushed: bool) {
    match res
    case Done(v, st, w) => x == Exec.Ran(RegsOf(env, if pushed then stack + [v] else stack, st, w))
    case Waiting(w) => x.StarvedAt? && x.r.ins == w.ins && x.r.acts == SlotActs(env, w.acts)
    case Undefined(w) => x.StuckAt? && x.r.ins == w.ins && x.r.acts == SlotActs(env, w.acts)
  }

  predicate Room(stack: seq<byte>, n: nat) {
    |stack| + n <= STACK_SIZE
  }

  /** Stepping a variable that has just been evaluated. */
  lemma StepCode(env: Env, stack: seq<byte>, st: Store, w: World, y: string, up: bool)
    requires Proper(env) && y in env.vars && Room(stack, 2)
    ensures var v := SlotOf(env.vars, y);
            var r := RegsOf(env, stack, st, w);
            && AllStraight([Load(v), Push(1), Bin(StepOp(up)), Save(v)])
            && ExecAll([Load(v), Push(1), Bin(StepOp(up)), Save(v)], r)
               == Exec.Ran(RegsOf(env, stack, st[y := Stepped(up, Get(st, y))], w))
  {
    hide ExecAll, VarsOf, Get;
    var v := SlotOf(env.vars, y);
    var b := Get(st, y);
    LoadComputes(env, stack, st, w, y);
    ConstStep(env, stack, st, w, b, up);
    SaveComputes(env, stack, st, w, y, Stepped(up, b));
    ExecConcat([Push(1), Bin(StepOp(up))], [Save(v)], RegsOf(env, stack + [b], st, w));
    ExecConcat([Load(v)], [Push(1), Bin(StepOp(up))] + [Save(v)], RegsOf(env, stack, st, w));
    assert [Load(v)] + ([Push(1), Bin(StepOp(up))] + [Save(v)]) == [Load(v), Push(1), Bin(StepOp(up)), Save(v)];
  }

  lemma PostStepCode(env: Env, stack: seq<byte>, st: Store, w: World, y: string, up: bool)
    requires Proper(env) && y in env.vars && Room(stack, 3)
    ensures var v := SlotOf(env.vars, y);
            var r := RegsOf(env, stack, st, w);
            && AllStraight([Load(v), Dup, Push(1), Bin(StepOp(up)), Save(v)])
            && ExecAll([Load(v), Dup, Push(1), Bin(StepOp(up)), Save(v)], r)
               == Exec.Ran(RegsOf(env, stack + [Get(st, y)], st[y := Stepped(up, Get(st, y))], w))
  {
    hide ExecAll, VarsOf, Get;
    var v := SlotOf(env.vars, y);
    var b := Get(st, y);
    var r := RegsOf(env, stack, st, w);
    var r2 := RegsOf(env, stack + [b] + [b], st, w);
    LoadComputes(env, stack, st, w, y);
    DupComputes(env, stack, st, w, b);
    ConstStep(env, stack + [b], st, w, b, up);
    SaveComputes(env, stack + [b], st, w, y, Stepped(up, b));
    ExecConcat([Load(v)], [Dup], r);
    ExecConcat([Push(1), Bin(StepOp(up))], [Save(v)], r2);
    ExecConcat([Load(v)] + [Dup], [Push(1), Bin(StepOp(up))] + [Save(v)], r);
    assert ([Load(v)] + [Dup]) + ([Push(1), Bin(StepOp(up))] + [Save(v)]) == [Load(v), Dup, Push(1), Bin(StepOp(up)), Save(v)];
  }

  lemma DupComputes(env: Env, stack: seq<byte>, st: Store, w: World, b: byte)
    requires Room(stack, 2)
    ensures ExecAll([Dup], RegsOf(env, stack + [b], st, w)) == Exec.Ran(RegsOf(env, stack + [b] + [b], st, w))
  {
    ExecOne(Dup, RegsOf(env, stack + [b], st, w));
    assert Drop(stack + [b], 0) == stack + [b];
  }

  lemma ConstStep(env: Env, stack: seq<byte>, st: Store, w: World, b: byte, up: bool)
    requires Room(stack, 2)
    ensures ExecAll([Push(1), Bin(StepOp(up))], RegsOf(env, stack + [b], st, w)) == Exec.Ran(RegsOf(env, stack + [Stepped(up, b)], st, w))
  {
    var r := RegsOf(env, stack + [b], st, w);
    ExecTwo(Push(1), Bin(StepOp(up)), r);
    assert Drop(stack + [b], 0) == stack + [b];
    assert Drop(stack + [b] + [1], 2) == stack;
  }

  /** The operator's code replaces the two operands by the operator's value: `!=`, `>` and `>=` are
      the negations of their duals. */
  lemma InfixComputes(env: Env, op: InfixOp, x: byte, y: byte, stack: seq<byte>, st: Store, w: World)
    requires Room(stack, 2)
    ensures AllStraight(InfixCode(op))
    ensures var r := RegsOf(env, stack + [x] + [y], st, w);
            ExecAll(InfixCode(op), r) == match InfixValue(op, x, y)
                                         case None => StuckAt(r)
                                         case Some(v) => Exec.Ran(RegsOf(env, stack + [v], st, w))
  {
    hide ExecAll, Exec1, VarsOf, SlotActs;
    match op {
      case Plain(o) =>
        hide Apply;
        ExecOne(Bin(o), RegsOf(env, stack + [x] + [y], st, w));
        BinTop(env, o, stack, x, y, st, w);
      case Neq => NegatedComputes(env, Eql, x, y, stack, st, w);
      case Gtr => NegatedComputes(env, Lte, x, y, stack, st, w);
      case Gte => NegatedComputes(env, Lss, x, y, stack, st, w);
    }
  }

  lemma NegatedComputes(env: Env, o: BinOp, x: byte, y: byte, stack: seq<byte>, st: Store, w: World)
    requires Room(stack, 2) && Apply(o, x, y).Some?
    ensures ExecAll([Bin(o), Instr.LNot], RegsOf(env, stack + [x] + [y], st, w))
            == Exec.Ran(RegsOf(env, stack + [LogicalNot(Apply(o, x, y).value)], st, w))
  {
    hide ExecAll, Exec1, Apply, LogicalNot;
    ExecTwo(Bin(o), Instr.LNot, RegsOf(env, stack + [x] + [y], st, w));
    BinTop(env, o, stack, x, y, st, w);
    NotTop(env, stack, Apply(o, x, y).value, st, w);
  }

  lemma BinTop(env: Env, o: BinOp, stack: seq<byte>, x: byte, y: byte, st: Store, w: World)
    requires Room(stack, 2)
    ensures var r := RegsOf(env, stack + [x] + [y], st, w);
            Exec1(Bin(o), r) == if Apply(o, x, y).None? then StuckAt(r)
                                else Exec.Ran(RegsOf(env, stack + [Apply(o, x, y).value], st, w))
  {
    hide Apply, VarsOf, SlotActs;
    assert Drop(stack + [x] + [y], 2) == stack;
  }

  lemma NotTop(env: Env, stack: seq<byte>, x: byte, st: Store, w: World)
    requires Room(stack, 1)
    ensures Exec1(Instr.LNot, RegsOf(env, stack + [x], st, w)) == Exec.Ran(RegsOf(env, stack + [LogicalNot(x)], st, w))
  {
    hide VarsOf, SlotActs;
    assert Drop(stack + [x], 1) == stack;
  }

  /** For every tree without operand errors: its code, run above any stack with room for it, pushes
      the value, or leaves the variable for later, and makes the evaluator's changes and actions. */
  lemma {:induction false} CodeComputes(e: Expr, env: Env, stack: seq<byte>, st: Store, w: World)
    requires Legal(e) && Known(e, env) && Proper(env) && Room(stack, Height(e))
    ensures AllStraight(Code(e, env))
    ensures Matches(ExecAll(Code(e, env), RegsOf(env, stack, st, w)), env, stack, Eval(e, st, w), KindOf(e).Normal?)
    ensures KindOf(e).OfVar? && Eval(e, st, w).Done? ==> Eval(e, st, w).v == Get(Eval(e, st, w).st, KindOf(e).name)
    decreases e, 1
  {
    hide ExecAll, Matches;
    match e {
      case Num(n) => ConstComputes(e, env, stack, st, w);
      case Char(c) => ConstComputes(e, env, stack, st, w);
      case Var(x) => NothingComputes(e, env, stack, st, w);
      case Port(x) => NothingComputes(e, env, stack, st, w);
      case Unary(_, _) => UnaryComputes(e, env, stack, st, w);
      case PreStep(_, _) => PreStepComputes(e, env, stack, st, w);
      case PostStep(_, _) => PostStepComputes(e, env, stack, st, w);
      case Binary(_, _, _) => BinaryComputes(e, env, stack, st, w);
      case Assign(_, op, _) =>
        if op.None? {
          AssignComputes(e, env, stack, st, w);
        } else {
          OpAssignComputes(e, env, stack, st, w);
        }
      case Comma(_, _) => CommaComputes(e, env, stack, st, w);
      case Cond(_, _, _) => CondComputes(e, env, stack, st, w);
      case Send(_, r) =>
        if KindOf(r).OfPort? {
          RecvComputes(e, env, stack, st, w);
        } else {
          SendComputes(e, env, stack, st, w);
        }
    }
  }

  lemma ConstComputes(e: Expr, env: Env, stack: seq<byte>, st: Store, w: World)
    requires e.Num? || e.Char?
    requires Legal(e) && Known(e, env) && Proper(env) && Room(stack, Height(e))
    ensures AllStraight(Code(e, env))
    ensures Matches(ExecAll(Code(e, env), RegsOf(env, stack, st, w)), env, stack, Eval(e, st, w), KindOf(e).Normal?)
    ensures KindOf(e).OfVar? && Eval(e, st, w).Done? ==> Eval(e, st, w).v == Get(Eval(e, st, w).st, KindOf(e).name)
  {
    var b: byte := if e.Num? then e.n % 256 else e.c;
    ExecOne(Push(b), RegsOf(env, stack, st, w));
    assert Drop(stack, 0) == stack;
  }

  lemma NothingComputes(e: Expr, env: Env, stack: seq<byte>, st: Store, w: World)
    requires e.Var? || e.Port?
    requires Legal(e) && Known(e, env) && Proper(env) && Room(stack, Height(e))
    ensures AllStraight(Code(e, env))
    ensures Matches(ExecAll(Code(e, env), RegsOf(env, stack, st, w)), env, stack, Eval(e, st, w), KindOf(e).Normal?)
    ensures KindOf(e).OfVar? && Eval(e, st, w).Done? ==> Eval(e, st, w).v == Get(Eval(e, st, w).st, KindOf(e).name)
  {
  }

  /** The value code of a tree that has a value pushes it: a variable is loaded right behind its
      code, before anything else can write it. */
  lemma {:induction false} ValueComputes(e: Expr, env: Env, stack: seq<byte>, st: Store, w: World)
    requires Legal(e) && HasValue(KindOf(e)) && Known(e, env) && Proper(env) && Room(stack, ValueHeight(e))
    ensures AllStraight(ValueCode(e, env))
    ensures Matches(ExecAll(ValueCode(e, env), RegsOf(env, stack, st, w)), env, stack, Eval(e, st, w), true)
    decreases e, 2
  {
    hide ExecAll, Exec1, VarsOf, SlotActs;
    var r := RegsOf(env, stack, st, w);
    CodeComputes(e, env, stack, st, w);
    KindKnown(e, env);
    var load := LoadCode(KindOf(e), env);
    if KindOf(e).OfVar? {
      ExecConcat(Code(e, env), load, r);
      if Eval(e, st, w).Done? {
        var Done(v, st1, w1) := Eval(e, st, w);
        LoadComputes(env, stack, st1, w1, KindOf(e).name);
      }
    } else {
      assert Code(e, env) + load == Code(e, env);
    }
  }

  lemma {:induction false} UnaryComputes(e: Expr, env: Env, stack: seq<byte>, st: Store, w: World)
    requires e.Unary?
    requires Legal(e) && Known(e, env) && Proper(env) && Room(stack, Height(e))
    ensures AllStraight(Code(e, env))
    ensures Matches(ExecAll(Code(e, env), RegsOf(env, stack, st, w)), env, stack, Eval(e, st, w), KindOf(e).Normal?)
    ensures KindOf(e).OfVar? && Eval(e, st, w).Done? ==> Eval(e, st, w).v == Get(Eval(e, st, w).st, KindOf(e).name)
    decreases e, 0
  {
    hide ExecAll, Exec1, VarsOf, SlotActs;
    var Unary(op, x) := e;
    ValueComputes(x, env, stack, st, w);
    if op == Posate {
      assert Code(e, env) == ValueCode(x, env);
    } else {
      var i := match op case Negative => Neg case Lognot => Instr.LNot case _ => Instr.Not;
      assert Code(e, env) == ValueCode(x, env) + [i];
      ExecConcat(ValueCode(x, env), [i], RegsOf(env, stack, st, w));
      if Eval(x, st, w).Done? {
        var Done(v, st1, w1) := Eval(x, st, w);
        ExecOne(i, RegsOf(env, stack + [v], st1, w1));
        UnaryTop(env, i, op, stack, v, st1, w1);
      }
    }
  }

  lemma UnaryTop(env: Env, i: Instr, op: UnaryOp, stack: seq<byte>, x: byte, st: Store, w: World)
    requires Room(stack, 1) && op != Posate
    requires i == match op case Negative => Neg case Lognot => Instr.LNot case _ => Instr.Not
    ensures Exec1(i, RegsOf(env, stack + [x], st, w)) == Exec.Ran(RegsOf(env, stack + [UnaryValue(op, x)], st, w))
  {
    hide VarsOf, SlotActs;
    assert Drop(stack + [x], 1) == stack;
  }

  lemma {:induction false} PreStepComputes(e: Expr, env: Env, stack: seq<byte>, st: Store, w: World)
    requires e.PreStep?
    requires Legal(e) && Known(e, env) && Proper(env) && Room(stack, Height(e))
    ensures AllStraight(Code(e, env))
    ensures Matches(ExecAll(Code(e, env), RegsOf(env, stack, st, w)), env, stack, Eval(e, st, w), KindOf(e).Normal?)
    ensures KindOf(e).OfVar? && Eval(e, st, w).Done? ==> Eval(e, st, w).v == Get(Eval(e, st, w).st, KindOf(e).name)
    decreases e, 0
  {
    hide ExecAll, VarsOf;
    var PreStep(up, x) := e;
    CodeComputes(x, env, stack, st, w);
    KindKnown(x, env);
    var v := VarSlot(KindOf(x), env);
    ExecConcat(Code(x, env), [Load(v), Push(1), Bin(StepOp(up)), Save(v)], RegsOf(env, stack, st, w));
    if Eval(x, st, w).Done? {
      StepCode(env, stack, Eval(x, st, w).st, Eval(x, st, w).w, KindOf(x).name, up);
    }
  }

  lemma {:induction false} PostStepComputes(e: Expr, env: Env, stack: seq<byte>, st: Store, w: World)
    requires e.PostStep?
    requires Legal(e) && Known(e, env) && Proper(env) && Room(stack, Height(e))
    ensures AllStraight(Code(e, env))
    ensures Matches(ExecAll(Code(e, env), RegsOf(env, stack, st, w)), env, stack, Eval(e, st, w), KindOf(e).Normal?)
    ensures KindOf(e).OfVar? && Eval(e, st, w).Done? ==> Eval(e, st, w).v == Get(Eval(e, st, w).st, KindOf(e).name)
    decreases e, 0
  {
    hide ExecAll, VarsOf;
    var PostStep(x, up) := e;
    CodeComputes(x, env, stack, st, w);
    KindKnown(x, env);
    var v := VarSlot(KindOf(x), env);
    ExecConcat(Code(x, env), [Load(v), Dup, Push(1), Bin(StepOp(up)), Save(v)], RegsOf(env, stack, st, w));
    if Eval(x, st, w).Done? {
      PostStepCode(env, stack, Eval(x, st, w).st, Eval(x, st, w).w, KindOf(x).name, up);
    }
  }

  lemma {:induction false} BinaryComputes(e: Expr, env: Env, stack: seq<byte>, st: Store, w: World)
    requires e.Binary?
    requires Legal(e) && Known(e, env) && Proper(env) && Room(stack, Height(e))
    ensures AllStraight(Code(e, env))
    ensures Matches(ExecAll(Code(e, env), RegsOf(env, stack, st, w)), env, stack, Eval(e, st, w), KindOf(e).Normal?)
    ensures KindOf(e).OfVar? && Eval(e, st, w).Done? ==> Eval(e, st, w).v == Get(Eval(e, st, w).st, KindOf(e).name)
    decreases e, 0
  {
    hide ExecAll, VarsOf, InfixValue, InfixCode;
    var Binary(l, op, r) := e;
    var r0 := RegsOf(env, stack, st, w);
    ValueComputes(l, env, stack, st, w);
    InfixComputes(env, op, 0, 0, [], st, w);
    AllValueStraight(r, env);
    ExecConcat(ValueCode(l, env), ValueCode(r, env), r0);
    ExecConcat(ValueCode(l, env) + ValueCode(r, env), InfixCode(op), r0);
    if Eval(l, st, w).Done? {
      var Done(v1, st1, w1) := Eval(l, st, w);
      ValueComputes(r, env, stack + [v1], st1, w1);
      if Eval(r, st1, w1).Done? {
        var Done(v2, st2, w2) := Eval(r, st1, w1);
        InfixComputes(env, op, v1, v2, stack, st2, w2);
      }
    }
  }

  lemma {:induction false} AssignComputes(e: Expr, env: Env, stack: seq<byte>, st: Store, w: World)
    requires e.Assign? && e.asg.None?
    requires Legal(e) && Known(e, env) && Proper(env) && Room(stack, Height(e))
    ensures AllStraight(Code(e, env))
    ensures Matches(ExecAll(Code(e, env), RegsOf(env, stack, st, w)), env, stack, Eval(e, st, w), KindOf(e).Normal?)
    ensures KindOf(e).OfVar? && Eval(e, st, w).Done? ==> Eval(e, st, w).v == Get(Eval(e, st, w).st, KindOf(e).name)
    decreases e, 0
  {
    hide ExecAll, Exec1, VarsOf, SlotActs, SlotOf, Apply;
    var Assign(l, _, r) := e;
    var v := VarSlot(KindOf(l), env);
    var r0 := RegsOf(env, stack, st, w);
    CodeComputes(l, env, stack, st, w);
    KindKnown(l, env);
    AllValueStraight(r, env);
    ExecConcat(Code(l, env), ValueCode(r, env), r0);
    ExecConcat(Code(l, env) + ValueCode(r, env), [Save(v)], r0);
    if Eval(l, st, w).Done? {
      var Done(_, st1, w1) := Eval(l, st, w);
      ValueComputes(r, env, stack, st1, w1);
      if Eval(r, st1, w1).Done? {
        var Done(v2, st2, w2) := Eval(r, st1, w1);
        SaveComputes(env, stack, st2, w2, KindOf(l).name, v2);
      }
    }
  }

  lemma {:induction false} OpAssignComputes(e: Expr, env: Env, stack: seq<byte>, st: Store, w: World)
    requires e.Assign? && e.asg.Some?
    requires Legal(e) && Known(e, env) && Proper(env) && Room(stack, Height(e))
    ensures AllStraight(Code(e, env))
    ensures Matches(ExecAll(Code(e, env), RegsOf(env, stack, st, w)), env, stack, Eval(e, st, w), KindOf(e).Normal?)
    ensures KindOf(e).OfVar? && Eval(e, st, w).Done? ==> Eval(e, st, w).v == Get(Eval(e, st, w).st, KindOf(e).name)
    decreases e, 0
  {
    hide ExecAll, Exec1, VarsOf, SlotActs, SlotOf, Apply;
    var Assign(l, op, r) := e;
    var v := VarSlot(KindOf(l), env);
    var r0 := RegsOf(env, stack, st, w);
    CodeComputes(l, env, stack, st, w);
    KindKnown(l, env);
    AllValueStraight(r, env);
    ExecConcat(Code(l, env), [Load(v)], r0);
    ExecConcat(Code(l, env) + [Load(v)], ValueCode(r, env), r0);
    ExecConcat(Code(l, env) + [Load(v)] + ValueCode(r, env), [Bin(op.value), Save(v)], r0);
    if Eval(l, st, w).Done? {
      var Done(_, st1, w1) := Eval(l, st, w);
      var before := Get(st1, KindOf(l).name);
      LoadComputes(env, stack, st1, w1, KindOf(l).name);
      ValueComputes(r, env, stack + [before], st1, w1);
      if Eval(r, st1, w1).Done? {
        var Done(v2, st2, w2) := Eval(r, st1, w1);
        BinSaveComputes(env, op.value, stack, before, v2, st2, w2, KindOf(l).name);
      }
    }
  }

  lemma BinSaveComputes(env: Env, o: BinOp, stack: seq<byte>, a: byte, b: byte, st: Store, w: World, y: string)
    requires Proper(env) && y in env.vars && Room(stack, 2)
    ensures var r := RegsOf(env, stack + [a] + [b], st, w);
            ExecAll([Bin(o), Save(SlotOf(env.vars, y))], r)
            == if Apply(o, a, b).None? then StuckAt(r) else Exec.Ran(RegsOf(env, stack, st[y := Apply(o, a, b).value], w))
  {
    hide ExecAll, Exec1, VarsOf, SlotActs, SlotOf, Apply;
    BinTop(env, o, stack, a, b, st, w);
    ExecTwo(Bin(o), Save(SlotOf(env.vars, y)), RegsOf(env, stack + [a] + [b], st, w));
    if Apply(o, a, b).Some? {
      SaveComputes(env, stack, st, w, y, Apply(o, a, b).value);
      ExecOne(Save(SlotOf(env.vars, y)), RegsOf(env, stack + [Apply(o, a, b).value], st, w));
    }
  }

  lemma LoadComputes(env: Env, stack: seq<byte>, st: Store, w: World, y: string)
    requires Proper(env) && y in env.vars && Room(stack, 1)
    ensures ExecAll([Load(SlotOf(env.vars, y))], RegsOf(env, stack, st, w)) == Exec.Ran(RegsOf(env, stack + [Get(st, y)], st, w))
  {
    SlotHolds(env, st, y, 0);
    ExecOne(Load(SlotOf(env.vars, y)), RegsOf(env, stack, st, w));
    assert Drop(stack, 0) == stack;
  }

  lemma SaveComputes(env: Env, stack: seq<byte>, st: Store, w: World, y: string, b: byte)
    requires Proper(env) && y in env.vars && Room(stack, 1)
    ensures ExecAll([Save(SlotOf(env.vars, y))], RegsOf(env, stack + [b], st, w)) == Exec.Ran(RegsOf(env, stack, st[y := b], w))
  {
    SlotHolds(env, st, y, b);
    ExecOne(Save(SlotOf(env.vars, y)), RegsOf(env, stack + [b], st, w));
    assert Drop(stack + [b], 1) == stack;
  }

  lemma {:induction false} CommaComputes(e: Expr, env: Env, stack: seq<byte>, st: Store, w: World)
    requires e.Comma?
    requires Legal(e) && Known(e, env) && Proper(env) && Room(stack, Height(e))
    ensures AllStraight(Code(e, env))
    ensures Matches(ExecAll(Code(e, env), RegsOf(env, stack, st, w)), env, stack, Eval(e, st, w), KindOf(e).Normal?)
    ensures KindOf(e).OfVar? && Eval(e, st, w).Done? ==> Eval(e, st, w).v == Get(Eval(e, st, w).st, KindOf(e).name)
    decreases e, 0
  {
    hide ExecAll, VarsOf;
    var Comma(l, r) := e;
    var r0 := RegsOf(env, stack, st, w);
    CodeComputes(l, env, stack, st, w);
    AllStraightCode(r, env);
    var drop := DropCode(KindOf(l));
    ExecConcat(Code(l, env), drop, r0);
    ExecConcat(Code(l, env) + drop, Code(r, env), r0);
    if Eval(l, st, w).Done? {
      var Done(v1, st1, w1) := Eval(l, st, w);
      DropComputes(env, KindOf(l), stack, st1, w1, v1);
      CodeComputes(r, env, stack, st1, w1);
    }
  }

  lemma DropComputes(env: Env, k: Kind, stack: seq<byte>, st: Store, w: World, b: byte)
    requires Room(stack, if k.Normal? then 1 else 0)
    ensures AllStraight(DropCode(k))
    ensures ExecAll(DropCode(k), RegsOf(env, if k.Normal? then stack + [b] else stack, st, w)) == Exec.Ran(RegsOf(env, stack, st, w))
  {
    if k.Normal? {
      ExecOne(Instr.Pop, RegsOf(env, stack + [b], st, w));
      assert Drop(stack + [b], 1) == stack;
    }
  }

  lemma {:induction false} CondComputes(e: Expr, env: Env, stack: seq<byte>, st: Store, w: World)
    requires e.Cond?
    requires Legal(e) && Known(e, env) && Proper(env) && Room(stack, Height(e))
    ensures AllStraight(Code(e, env))
    ensures Matches(ExecAll(Code(e, env), RegsOf(env, stack, st, w)), env, stack, Eval(e, st, w), KindOf(e).Normal?)
    ensures KindOf(e).OfVar? && Eval(e, st, w).Done? ==> Eval(e, st, w).v == Get(Eval(e, st, w).st, KindOf(e).name)
    decreases e, 0
  {
    hide ExecAll, VarsOf;
    var Cond(c, a, b) := e;
    var r0 := RegsOf(env, stack, st, w);
    ValueComputes(c, env, stack, st, w);
    AllValueStraight(a, env);
    AllValueStraight(b, env);
    ExecConcat(ValueCode(c, env), ValueCode(a, env), r0);
    ExecConcat(ValueCode(c, env) + ValueCode(a, env), [Bin(LAnd)], r0);
    ExecConcat(ValueCode(c, env) + ValueCode(a, env) + [Bin(LAnd)], ValueCode(b, env), r0);
    ExecConcat(ValueCode(c, env) + ValueCode(a, env) + [Bin(LAnd)] + ValueCode(b, env), [Bin(LOr)], r0);
    if Eval(c, st, w).Done? {
      var Done(v1, st1, w1) := Eval(c, st, w);
      ValueComputes(a, env, stack + [v1], st1, w1);
      if Eval(a, st1, w1).Done? {
        var Done(v2, st2, w2) := Eval(a, st1, w1);
        InfixComputes(env, Plain(LAnd), v1, v2, stack, st2, w2);
        var both: byte := if v1 != 0 then v2 else 0;
        ValueComputes(b, env, stack + [both], st2, w2);
        if Eval(b, st2, w2).Done? {
          var Done(v3, st3, w3) := Eval(b, st2, w2);
          InfixComputes(env, Plain(LOr), both, v3, stack, st3, w3);
        }
      }
    }
  }

  lemma {:induction false} SendComputes(e: Expr, env: Env, stack: seq<byte>, st: Store, w: World)
    requires e.Send? && !KindOf(e.r).OfPort?
    requires Legal(e) && Known(e, env) && Proper(env) && Room(stack, Height(e))
    ensures AllStraight(Code(e, env))
    ensures Matches(ExecAll(Code(e, env), RegsOf(env, stack, st, w)), env, stack, Eval(e, st, w), KindOf(e).Normal?)
    ensures KindOf(e).OfVar? && Eval(e, st, w).Done? ==> Eval(e, st, w).v == Get(Eval(e, st, w).st, KindOf(e).name)
    decreases e, 0
  {
    hide ExecAll, Exec1, VarsOf, SlotActs, SlotOf, Apply;
    var Send(l, r) := e;
    var p := PortSlot(KindOf(l), env);
    var r0 := RegsOf(env, stack, st, w);
    CodeComputes(l, env, stack, st, w);
    KindKnown(l, env);
    AllValueStraight(r, env);
    ExecConcat(Code(l, env), ValueCode(r, env), r0);
    ExecConcat(Code(l, env) + ValueCode(r, env), [Instr.Send(p)], r0);
    if Eval(l, st, w).Done? {
      var Done(_, st1, w1) := Eval(l, st, w);
      ValueComputes(r, env, stack, st1, w1);
      if Eval(r, st1, w1).Done? {
        var Done(v2, st2, w2) := Eval(r, st1, w1);
        OutComputes(env, KindOf(l).name, stack, st2, w2, v2);
      }
    }
  }

  lemma {:induction false} RecvComputes(e: Expr, env: Env, stack: seq<byte>, st: Store, w: World)
    requires e.Send? && KindOf(e.r).OfPort?
    requires Legal(e) && Known(e, env) && Proper(env) && Room(stack, Height(e))
    ensures AllStraight(Code(e, env))
    ensures Matches(ExecAll(Code(e, env), RegsOf(env, stack, st, w)), env, stack, Eval(e, st, w), KindOf(e).Normal?)
    ensures KindOf(e).OfVar? && Eval(e, st, w).Done? ==> Eval(e, st, w).v == Get(Eval(e, st, w).st, KindOf(e).name)
    decreases e, 0
  {
    hide ExecAll, Exec1, VarsOf, SlotActs, SlotOf, Receive;
    var Send(l, r) := e;
    var q := PortSlot(KindOf(r), env);
    var last := if KindOf(l).OfVar? then Save(VarSlot(KindOf(l), env)) else Instr.Send(PortSlot(KindOf(l), env));
    var r0 := RegsOf(env, stack, st, w);
    CodeComputes(l, env, stack, st, w);
    KindKnown(l, env);
    KindKnown(r, env);
    AllStraightCode(r, env);
    ExecConcat(Code(l, env), Code(r, env), r0);
    ExecConcat(Code(l, env) + Code(r, env), [Recv(q)], r0);
    ExecConcat(Code(l, env) + Code(r, env) + [Recv(q)], [last], r0);
    if Eval(l, st, w).Done? {
      var Done(_, st1, w1) := Eval(l, st, w);
      CodeComputes(r, env, stack, st1, w1);
      if Eval(r, st1, w1).Done? {
        var Done(_, st2, w2) := Eval(r, st1, w1);
        ReceiveComputes(env, KindOf(l), KindOf(r).name, stack, st2, w2);
        ExecConcat([Recv(q)], [last], RegsOf(env, stack, st2, w2));
      }
    }
  }

  lemma OutComputes(env: Env, p: string, stack: seq<byte>, st: Store, w: World, b: byte)
    requires Room(stack, 1)
    ensures ExecAll([Instr.Send(SlotOf(env.ports, p))], RegsOf(env, stack + [b], st, w))
            == Exec.Ran(RegsOf(env, stack, st, World(w.ins, w.acts + [Out(p, b)])))
  {
    ExecOne(Instr.Send(SlotOf(env.ports, p)), RegsOf(env, stack + [b], st, w));
    assert Drop(stack + [b], 1) == stack;
    SlotActsAppend(env, w.acts, Out(p, b));
  }

  lemma ReceiveComputes(env: Env, k: Kind, q: string, stack: seq<byte>, st: Store, w: World)
    requires (k.OfVar? && k.name in env.vars) || k.OfPort?
    requires Proper(env) && Room(stack, 1)
    ensures var last := if k.OfVar? then Save(VarSlot(k, env)) else Instr.Send(PortSlot(k, env));
            Matches(ExecAll([Recv(SlotOf(env.ports, q))] + [last], RegsOf(env, stack, st, w)), env, stack, Receive(k, q, st, w), false)
  {
    hide VarsOf, ExecAll, SlotActs, SlotOf;
    var last := if k.OfVar? then Save(VarSlot(k, env)) else Instr.Send(PortSlot(k, env));
    var r := RegsOf(env, stack, st, w);
    var recv := Recv(SlotOf(env.ports, q));
    ExecConcat([recv], [last], r);
    ExecOne(recv, r);
    if w.ins != [] {
      var b := w.ins[0];
      var w' := World(w.ins[1..], w.acts + [In(q, b)]);
      SlotActsAppend(env, w.acts, In(q, b));
      if k.OfVar? {
        SaveComputes(env, stack, st, w', k.name, b);
      } else {
        OutComputes(env, k.name, stack, st, w', b);
      }
    }
  }

  lemma StraightConcat(x: seq<Instr>, y: seq<Instr>)
    requires AllStraight(x) && AllStraight(y)
    ensures AllStraight(x + y)
  {
  }

  lemma {:induction false} AllStraightCode(e: Expr, env: Env)
    ensures AllStraight(Code(e, env)) && AllStraight(ValueCode(e, env))
    decreases e
  {
    hide AllStraight;
    match e {
      case Unary(op, x) =>
        AllStraightCode(x, env);
        SimpleStraight(e, env);
      case PreStep(_, x) =>
        AllStraightCode(x, env);
        SimpleStraight(e, env);
      case PostStep(x, _) =>
        AllStraightCode(x, env);
        SimpleStraight(e, env);
      case Binary(l, op, r) =>
        AllStraightCode(l, env);
        AllStraightCode(r, env);
        BinaryStraight(e, env);
      case Assign(l, op, r) =>
        AllStraightCode(l, env);
        AllStraightCode(r, env);
        AssignStraight(e, env);
      case Comma(l, r) =>
        AllStraightCode(l, env);
        AllStraightCode(r, env);
        BinaryStraight(e, env);
      case Cond(c, a, b) =>
        AllStraightCode(c, env);
        AllStraightCode(a, env);
        AllStraightCode(b, env);
        CondStraight(e, env);
      case Send(l, r) =>
        AllStraightCode(l, env);
        AllStraightCode(r, env);
        SendStraight(e, env);
      case _ => SimpleStraight(e, env);
    }
    LoadStraight(e, env);
  }

  lemma LoadStraight(e: Expr, env: Env)
    requires AllStraight(Code(e, env))
    ensures AllStraight(ValueCode(e, env))
  {
    hide Code;
    StraightConcat(Code(e, env), LoadCode(KindOf(e), env));
  }

  lemma SimpleStraight(e: Expr, env: Env)
    requires e.Num? || e.Char? || e.Var? || e.Port? || e.Unary? || e.PreStep? || e.PostStep?
    requires e.Unary? ==> AllStraight(ValueCode(e.e, env))
    requires e.PreStep? || e.PostStep? ==> AllStraight(Code(e.e, env))
    ensures AllStraight(Code(e, env))
  {
    hide ValueCode;
  }

  lemma BinaryStraight(e: Expr, env: Env)
    requires e.Binary? || e.Comma?
    requires e.Binary? ==> AllStraight(ValueCode(e.l, env)) && AllStraight(ValueCode(e.r, env))
    requires e.Comma? ==> AllStraight(Code(e.l, env)) && AllStraight(Code(e.r, env))
    ensures AllStraight(Code(e, env))
  {
    hide ValueCode;
    match e {
      case Binary(l, op, r) =>
        StraightConcat(ValueCode(l, env), ValueCode(r, env));
        StraightConcat(ValueCode(l, env) + ValueCode(r, env), InfixCode(op));
      case Comma(l, r) =>
        StraightConcat(Code(l, env), DropCode(KindOf(l)));
        StraightConcat(EffectCode(l, env), Code(r, env));
    }
  }

  lemma AssignStraight(e: Expr, env: Env)
    requires e.Assign? && AllStraight(Code(e.l, env)) && AllStraight(ValueCode(e.r, env))
    ensures AllStraight(Code(e, env))
  {
    hide ValueCode;
    var Assign(l, op, r) := e;
    var v := VarSlot(KindOf(l), env);
    if op.None? {
      StraightConcat(Code(l, env), ValueCode(r, env));
      StraightConcat(Code(l, env) + ValueCode(r, env), [Save(v)]);
    } else {
      StraightConcat(Code(l, env), [Load(v)]);
      StraightConcat(Code(l, env) + [Load(v)], ValueCode(r, env));
      StraightConcat(Code(l, env) + [Load(v)] + ValueCode(r, env), [Bin(op.value), Save(v)]);
    }
  }

  lemma CondStraight(e: Expr, env: Env)
    requires e.Cond? && AllStraight(ValueCode(e.c0, env)) && AllStraight(ValueCode(e.a, env))
             && AllStraight(ValueCode(e.b, env))
    ensures AllStraight(Code(e, env))
  {
    hide ValueCode;
    var Cond(c, a, b) := e;
    StraightConcat(ValueCode(c, env), ValueCode(a, env));
    StraightConcat(ValueCode(c, env) + ValueCode(a, env), [Bin(LAnd)]);
    StraightConcat(ValueCode(c, env) + ValueCode(a, env) + [Bin(LAnd)], ValueCode(b, env));
    StraightConcat(ValueCode(c, env) + ValueCode(a, env) + [Bin(LAnd)] + ValueCode(b, env), [Bin(LOr)]);
  }

  lemma SendStraight(e: Expr, env: Env)
    requires e.Send? && AllStraight(Code(e.l, env)) && AllStraight(Code(e.r, env)) && AllStraight(ValueCode(e.r, env))
    ensures AllStraight(Code(e, env))
  {
    hide ValueCode;
    var Send(l, r) := e;
    StraightConcat(Code(l, env), Code(r, env));
    StraightConcat(Code(l, env) + Code(r, env), [Recv(PortSlot(KindOf(r), env))]);
    StraightConcat(Code(l, env), ValueCode(r, env));
  }

  lemma AllValueStraight(e: Expr, env: Env)
    ensures AllStraight(ValueCode(e, env))
  {
    AllStraightCode(e, env);
  }

  // ----- In a code block -----

  /** The ticks of `m` come to an end that is `how`; of the registers, input and actions are known. */
  ghost predicate EndsWith(code: seq<byte>, m: Mach, env: Env, w: World, how: Tick)
    requires Shaped(m.core)
  {
    exists t :: EndsIn(code, m, t, how) && t.ins == w.ins && t.acts == SlotActs(env, w.acts)
  }

  /** `n` ticks lead from `m` to address `a` with the outcome `res`: its value, if `pushed`, above the
      stack, its variables and its world; or ticking comes to stand for lack of input, or at the
      undefined operation. */
  ghost predicate Realizes(code: seq<byte>, m: Mach, n: nat, a: nat, env: Env, stack: seq<byte>, res: Result,
                           pushed: bool)
    requires Shaped(m.core)
  {
    match res
    case Done(v, st, w) => Runs(code, m, n, MachAt(code, a, RegsOf(env, if pushed then stack + [v] else stack, st, w)))
    case Waiting(w) => EndsWith(code, m, env, w, Starved)
    case Undefined(w) => EndsWith(code, m, env, w, Stuck)
  }

  /** Expression compilation preserves meaning (compiler.c:281-298, compiler.c:412-735): wherever the
      value code of a tree stands in a code block, ticking from its first byte leads behind its last
      with exactly the evaluator's value on the stack, and the evaluator's variables, input and port
      actions; or stands still for lack of input, or at the undefined operation. */
  lemma ExpressionPreserved(e: Expr, env: Env, code: seq<byte>, a: nat, stack: seq<byte>, st: Store, w: World)
    requires Legal(e) && HasValue(KindOf(e)) && Known(e, env) && Proper(env) && Room(stack, ValueHeight(e))
    requires CodeAt(code, a, ValueCode(e, env))
    ensures Realizes(code, MachAt(code, a, RegsOf(env, stack, st, w)), |ValueCode(e, env)|, a + Size(ValueCode(e, env)),
                     env, stack, Eval(e, st, w), true)
  {
    hide ExecAll, VarsOf, SlotActs, CodeAt, ValueCode, Runs, EndsIn;
    ValueComputes(e, env, stack, st, w);
    StraightLine(code, a, ValueCode(e, env), RegsOf(env, stack, st, w));
  }

  /** The same for an expression used as a statement: nothing is left on the stack. */
  lemma ExpressionStatementPreserved(e: Expr, env: Env, code: seq<byte>, a: nat, stack: seq<byte>, st: Store, w: World)
    requires Legal(e) && Known(e, env) && Proper(env) && Room(stack, ValueHeight(e))
    requires CodeAt(code, a, EffectCode(e, env))
    ensures var prog := EffectCode(e, env);
            Realizes(code, MachAt(code, a, RegsOf(env, stack, st, w)), |prog|, a + Size(prog),
                     env, stack, Eval(e, st, w), false)
  {
    hide ExecAll, VarsOf, SlotActs, CodeAt, Code, Runs, EndsIn, DropCode;
    var r := RegsOf(env, stack, st, w);
    CodeComputes(e, env, stack, st, w);
    DropComputes(env, KindOf(e), stack, st, w, 0);
    ExecConcat(Code(e, env), DropCode(KindOf(e)), r);
    if Eval(e, st, w).Done? {
      var Done(v, st1, w1) := Eval(e, st, w);
      DropComputes(env, KindOf(e), stack, st1, w1, v);
    }
    StraightLine(code, a, EffectCode(e, env), r);
  }

  // ----- The conditional -----

  /** The conditional of section 6.5.15 of ISO C99: only the chosen operand is evaluated. */
  function Conditional(c: Expr, a: Expr, b: Expr, st: Store, w: World): Result {
    match Eval(c, st, w)
    case Done(v, st1, w1) => if v != 0 then Eval(a, st1, w1) else Eval(b, st1, w1)
    case r => r
  }

  /** No operator of the tree changes a variable or uses a port. */
  predicate Effectless(e: Expr) {
    match e
    case PreStep(_, _) => false
    case PostStep(_, _) => false
    case Assign(_, _, _) => false
    case Send(_, _) => false
    case Unary(_, x) => Effectless(x)
    case Binary(l, _, r) => Effectless(l) && Effectless(r)
    case Comma(l, r) => Effectless(l) && Effectless(r)
    case Cond(c, a, b) => Effectless(c) && Effectless(a) && Effectless(b)
    case _ => true
  }

  /** Such a tree only has a value, unless it has an undefined division or shift. */
  lemma {:induction false} EffectlessEval(e: Expr, st: Store, w: World)
    requires Effectless(e)
    ensures var r := Eval(e, st, w); r == Undefined(w) || (r.Done? && r.st == st && r.w == w)
    decreases e
  {
    hide InfixValue, UnaryValue, CondValue;
    match e {
      case Unary(_, x) => EffectlessEval(x, st, w);
      case Binary(l, _, r) =>
        EffectlessEval(l, st, w);
        EffectlessEval(r, st, w);
      case Comma(l, r) =>
        EffectlessEval(l, st, w);
        EffectlessEval(r, st, w);
      case Cond(c, a, b) =>
        EffectlessEval(c, st, w);
        EffectlessEval(a, st, w);
        EffectlessEval(b, st, w);
      case _ =>
    }
  }

  /** For operands without effects, when `?:` as compiled (compiler.c:683-706) is C's conditional. With
      the three results in the store the condition leaves: if the condition is true, the second operand
      must be undefined, or the third defined and not both the second 0 and the third not; if it is
      false, an undefined second operand must not hide a defined third one. */
  lemma CondIffConditional(c: Expr, a: Expr, b: Expr, st: Store, w: World)
    requires Effectless(a) && Effectless(b)
    ensures var rc := Eval(c, st, w);
            Eval(Cond(c, a, b), st, w) == Conditional(c, a, b, st, w)
            <==> (rc.Done? ==>
                    var ra, rb := Eval(a, rc.st, rc.w), Eval(b, rc.st, rc.w);
                    if rc.v != 0 then !ra.Done? || (rb.Done? && (ra.v != 0 || rb.v == 0)) else ra.Done? || !rb.Done?)
  {
    var rc := Eval(c, st, w);
    if rc.Done? {
      EffectlessEval(a, rc.st, rc.w);
      EffectlessEval(b, rc.st, rc.w);
    }
  }

  /** Three departures: a true condition with `0` before the colon, `1 ? 0 : 2`; an operand that is not
      chosen takes effect all the same, `1 ? 2 : (x = 3)`; and it can stop the processor, as the guarded
      division `x ? 10 / x : 0` does where x is 0. */
  lemma CondDeparts(w: World)
    ensures Eval(Cond(Num(1), Num(0), Num(2)), map[], w) == Done(2, map[], w)
    ensures Conditional(Num(1), Num(0), Num(2), map[], w) == Done(0, map[], w)
    ensures Eval(Cond(Num(1), Num(2), Assign(Var("x"), None, Num(3))), map[], w) == Done(2, map["x" := 3], w)
    ensures Conditional(Num(1), Num(2), Assign(Var("x"), None, Num(3)), map[], w) == Done(2, map[], w)
    ensures Eval(Cond(Var("x"), Binary(Num(10), Plain(Div), Var("x")), Num(0)), map[], w) == Undefined(w)
    ensures Conditional(Var("x"), Binary(Num(10), Plain(Div), Var("x")), Num(0), map[], w) == Done(0, map[], w)
  {
    assert Eval(Num(2), map[], w) == Done(2, map[], w);
    assert Eval(Num(3), map[], w) == Done(3, map[], w);
    assert Eval(Assign(Var("x"), None, Num(3)), map[], w) == Done(3, map["x" := 3], w);
    assert Eval(Var("x"), map[], w) == Done(0, map[], w);
    assert Eval(Num(10), map[], w) == Done(10, map[], w);
    assert Eval(Binary(Num(10), Plain(Div), Var("x")), map[], w) == Undefined(w);
  }
}
