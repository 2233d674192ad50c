/** The code of an expression as a function of its tree: left to right, operands before operators,
    variables loaded only where their value is needed (compiler.c:281-298, compiler.c:412-735). */
module CodeGen {
  import opened Bytes
  import opened Bytecode
  import opened Syntax
  import opened Dict

  /** The names of the variables and ports of a processor, each at the index of its slot. */
  datatype Env = Env(vars: seq<string>, ports: seq<string>)

  /** The slot getvar or getport answers with; 0 when the name could not be entered. */
  function SlotOf(names: seq<string>, x: string): slot {
    if x in names && IndexOf(names, x) < 4 then IndexOf(names, x) else 0
  }

  /** The names after those of an expression were looked up, in the order of its tokens, by getvar and
      getport (compiler.c:206-250): a new name is entered at the end. */
  function Names(env: Env, e: Expr): Env
    decreases e
  {
    match e
    case Num(_) => env
    case Char(_) => env
    case Var(x) => env.(vars := Enter(env.vars, x))
    case Port(x) => env.(ports := Enter(env.ports, x))
    case Unary(_, x) => Names(env, x)
    case PreStep(_, x) => Names(env, x)
    case PostStep(x, _) => Names(env, x)
    case Binary(l, _, r) => Names(Names(env, l), r)
    case Assign(l, _, r) => Names(Names(env, l), r)
    case Comma(l, r) => Names(Names(env, l), r)
    case Cond(c, a, b) => Names(Names(Names(env, c), a), b)
    case Send(l, r) => Names(Names(env, l), r)
  }

  /** No more than VAR_MAX variables and PORT_MAX ports. */
  predicate Fits(env: Env) {
    |env.vars| <= 4 && |env.ports| <= 4
  }

  predicate Extends(env: Env, fin: Env) {
    env.vars <= fin.vars && env.ports <= fin.ports
  }

  predicate Proper(env: Env) {
    Fits(env) && NoDuplicates(env.vars) && NoDuplicates(env.ports)
  }

  /** What `Expression` records about a compiled tree: its value is on the stack, it is the value of
      a variable not yet loaded, it is a port, or it was a send. */
  datatype Kind = Normal | OfVar(name: string) | OfPort(name: string) | OfSend

  function KindOf(e: Expr): Kind {
    match e
    case Var(x) => OfVar(x)
    case Port(x) => OfPort(x)
    case PreStep(_, x) => KindOf(x)
    case Assign(l, _, _) => KindOf(l)
    case Comma(_, r) => KindOf(r)
    case Send(_, _) => OfSend
    case _ => Normal
  }

  predicate HasValue(k: Kind) {
    k.Normal? || k.OfVar?
  }

  /** The tree compiles without an error about its operands: literals are bytes, ports and sends
      are not used as values, and only variables are assigned to. */
  predicate Legal(e: Expr) {
    match e
    case Num(n) => n <= 255
    case Char(_) => true
    case Var(_) => true
    case Port(_) => true
    case Unary(_, x) => Legal(x) && HasValue(KindOf(x))
    case PreStep(_, x) => Legal(x) && KindOf(x).OfVar?
    case PostStep(x, _) => Legal(x) && KindOf(x).OfVar?
    case Binary(l, _, r) => Legal(l) && HasValue(KindOf(l)) && Legal(r) && HasValue(KindOf(r))
    case Assign(l, _, r) => Legal(l) && KindOf(l).OfVar? && Legal(r) && HasValue(KindOf(r))
    case Comma(l, r) => Legal(l) && Legal(r)
    case Cond(c, a, b) =>
      Legal(c) && HasValue(KindOf(c)) && Legal(a) && HasValue(KindOf(a)) && Legal(b) && HasValue(KindOf(b))
    case Send(l, r) =>
      Legal(l) && Legal(r)
      && if KindOf(r).OfPort? then KindOf(l).OfVar? || KindOf(l).OfPort? else KindOf(l).OfPort? && HasValue(KindOf(r))
  }

  function InfixCode(op: InfixOp): seq<Instr> {
    match op
    case Plain(o) => [Bin(o)]
    case Neq => [Bin(Eql), Instr.LNot]
    case Gtr => [Bin(Lte), Instr.LNot]
    case Gte => [Bin(Lss), Instr.LNot]
  }

  /** asm_value (compiler.c:281-298) */
  function LoadCode(k: Kind, env: Env): seq<Instr> {
    if k.OfVar? then [Load(SlotOf(env.vars, k.name))] else []
  }

  /** Pop the value of an expression that is used as a statement or left of a comma. */
  function DropCode(k: Kind): seq<Instr> {
    if k.Normal? then [Instr.Pop] else []
  }

  function VarSlot(k: Kind, env: Env): slot {
    if k.OfVar? then SlotOf(env.vars, k.name) else 0
  }

  function PortSlot(k: Kind, env: Env): slot {
    if k.OfPort? then SlotOf(env.ports, k.name) else 0
  }

  function StepOp(up: bool): BinOp {
    if up then Add else Sub
  }

  /** The instructions a tree is compiled to. */
  function Code(e: Expr, env: Env): seq<Instr>
    decreases e, 0
  {
    match e
    case Num(n) => [Push(n % 256)]
    case Char(c) => [Push(c)]
    case Var(_) => []
    case Port(_) => []
    case Unary(op, x) =>
      ValueCode(x, env)
      + (match op case Posate => [] case Negative => [Neg] case Lognot => [Instr.LNot] case Bitnot => [Instr.Not])
    case PreStep(up, x) =>
      var v := VarSlot(KindOf(x), env);
      Code(x, env) + [Load(v), Push(1), Bin(StepOp(up)), Save(v)]
    case PostStep(x, up) =>
      var v := VarSlot(KindOf(x), env);
      Code(x, env) + [Load(v), Dup, Push(1), Bin(StepOp(up)), Save(v)]
    case Binary(l, op, r) => ValueCode(l, env) + ValueCode(r, env) + InfixCode(op)
    case Assign(l, op, r) =>
      var v := VarSlot(KindOf(l), env);
      (match op
       case None => Code(l, env) + ValueCode(r, env) + [Save(v)]
       case Some(o) => Code(l, env) + [Load(v)] + ValueCode(r, env) + [Bin(o), Save(v)])
    case Comma(l, r) => Code(l, env) + DropCode(KindOf(l)) + Code(r, env)
    case Cond(c, a, b) =>
      ValueCode(c, env) + ValueCode(a, env) + [Bin(LAnd)] + ValueCode(b, env) + [Bin(LOr)]
    case Send(l, r) =>
      if KindOf(r).OfPort? then
        Code(l, env) + Code(r, env) + [Recv(PortSlot(KindOf(r), env))]
        + (if KindOf(l).OfVar? then [Save(VarSlot(KindOf(l), env))] else [Instr.Send(PortSlot(KindOf(l), env))])
      else
        Code(l, env) + ValueCode(r, env) + [Instr.Send(PortSlot(KindOf(l), env))]
  }

  /** The code of a tree whose value is needed. */
  function ValueCode(e: Expr, env: Env): seq<Instr>
    decreases e, 1
  {
    Code(e, env) + LoadCode(KindOf(e), env)
  }

  /** The code of a tree that is run for its effects only. */
  function EffectCode(e: Expr, env: Env): seq<Instr> {
    Code(e, env) + DropCode(KindOf(e))
  }

  // ----- The operand stack -----

  function Max(a: nat, b: nat): nat {
    if a >= b then a else b
  }

  /** How far a tree's code raises the stack at most; its value code, never less than 1. */
  function Height(e: Expr): nat
    decreases e, 0
  {
    match e
    case Num(_) => 1
    case Char(_) => 1
    case Var(_) => 0
    case Port(_) => 0
    case Unary(_, x) => ValueHeight(x)
    case PreStep(_, x) => Max(Height(x), 2)
    case PostStep(x, _) => Max(Height(x), 3)
    case Binary(l, _, r) => Max(ValueHeight(l), 1 + ValueHeight(r))
    case Assign(l, op, r) => Max(Height(l), (if op.Some? then 1 else 0) + ValueHeight(r))
    case Comma(l, r) => Max(Height(l), Height(r))
    case Cond(c, a, b) => Max(ValueHeight(c), Max(1 + ValueHeight(a), 1 + ValueHeight(b)))
    case Send(l, r) => Max(Height(l), ValueHeight(r))
  }

  function ValueHeight(e: Expr): (h: nat)
    ensures h >= 1
    decreases e, 1
  {
    Max(Height(e), 1)
  }

  // ----- Names -----

  /** All names of the tree have slots. */
  predicate Known(e: Expr, env: Env) {
    match e
    case Num(_) => true
    case Char(_) => true
    case Var(x) => x in env.vars
    case Port(x) => x in env.ports
    case Unary(_, x) => Known(x, env)
    case PreStep(_, x) => Known(x, env)
    case PostStep(x, _) => Known(x, env)
    case Binary(l, _, r) => Known(l, env) && Known(r, env)
    case Assign(l, _, r) => Known(l, env) && Known(r, env)
    case Comma(l, r) => Known(l, env) && Known(r, env)
    case Cond(c, a, b) => Known(c, env) && Known(a, env) && Known(b, env)
    case Send(l, r) => Known(l, env) && Known(r, env)
  }

  /** Entering the names of a tree extends the tables and keeps them free of duplicates. */
  lemma {:induction false} NamesExtend(env: Env, e: Expr)
    requires NoDuplicates(env.vars) && NoDuplicates(env.ports)
    ensures Extends(env, Names(env, e))
    ensures NoDuplicates(Names(env, e).vars) && NoDuplicates(Names(env, e).ports)
    decreases e
  {
    match e
    case Num(_) =>
    case Char(_) =>
    case Var(x) =>
    case Port(x) =>
    case Unary(_, x) => NamesExtend(env, x);
    case PreStep(_, x) => NamesExtend(env, x);
    case PostStep(x, _) => NamesExtend(env, x);
    case Binary(l, _, r) => NamesExtend(env, l); NamesExtend(Names(env, l), r);
    case Assign(l, _, r) => NamesExtend(env, l); NamesExtend(Names(env, l), r);
    case Comma(l, r) => NamesExtend(env, l); NamesExtend(Names(env, l), r);
    case Cond(c, a, b) =>
      NamesExtend(env, c);
      NamesExtend(Names(env, c), a);
      NamesExtend(Names(Names(env, c), a), b);
    case Send(l, r) => NamesExtend(env, l); NamesExtend(Names(env, l), r);
  }

  /** ... and makes every name of the tree known. */
  lemma {:induction false} NamesKnown(env: Env, e: Expr, fin: Env)
    requires NoDuplicates(env.vars) && NoDuplicates(env.ports) && Extends(Names(env, e), fin)
    ensures Known(e, fin)
    decreases e
  {
    match e
    case Num(_) =>
    case Char(_) =>
    case Var(x) => assert x == Enter(env.vars, x)[IndexOf(Enter(env.vars, x), x)];
    case Port(x) => assert x == Enter(env.ports, x)[IndexOf(Enter(env.ports, x), x)];
    case Unary(_, x) => NamesKnown(env, x, fin);
    case PreStep(_, x) => NamesKnown(env, x, fin);
    case PostStep(x, _) => NamesKnown(env, x, fin);
    case Binary(l, _, r) =>
      NamesExtend(env, l);
      NamesExtend(Names(env, l), r);
      NamesKnown(env, l, fin);
      NamesKnown(Names(env, l), r, fin);
    case Assign(l, _, r) =>
      NamesExtend(env, l);
      NamesExtend(Names(env, l), r);
      NamesKnown(env, l, fin);
      NamesKnown(Names(env, l), r, fin);
    case Comma(l, r) =>
      NamesExtend(env, l);
      NamesExtend(Names(env, l), r);
      NamesKnown(env, l, fin);
      NamesKnown(Names(env, l), r, fin);
    case Cond(c, a, b) =>
      NamesExtend(env, c);
      NamesExtend(Names(env, c), a);
      NamesExtend(Names(Names(env, c), a), b);
      NamesKnown(env, c, fin);
      NamesKnown(Names(env, c), a, fin);
      NamesKnown(Names(Names(env, c), a), b, fin);
    case Send(l, r) =>
      NamesExtend(env, l);
      NamesExtend(Names(env, l), r);
      NamesKnown(env, l, fin);
      NamesKnown(Names(env, l), r, fin);
  }
}
