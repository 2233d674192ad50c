/** The static height of an expression is exact: its code keeps within a bound if and only if the height says so. */
module Heights {
  import opened Wrappers
  import opened Bytes
  import opened Bytecode
  import opened Syntax
  import opened CodeGen
  import opened Assembler
  import opened Depth

  /** Part by part, code that keeps within `top` leaves that much room. */
  lemma {:induction false} CodeTight(e: Expr, env: Env, d: nat, top: int)
    requires Legal(e) && d <= top && Safe(Code(e, env), d, top)
    ensures d + Height(e) <= top
    decreases e, 1
  {
    hide Safe, Code, Legal;
    match e {
      case Num(_) => LeafTight(e, env, d, top);
      case Char(_) => LeafTight(e, env, d, top);
      case Var(_) =>
      case Port(_) =>
      case Unary(_, _) => UnaryTight(e, env, d, top);
      case PreStep(_, _) => StepTight(e, env, d, top);
      case PostStep(_, _) => StepTight(e, env, d, top);
      case Binary(_, _, _) => BinaryTight(e, env, d, top);
      case Assign(_, _, _) => AssignTight(e, env, d, top);
      case Comma(_, _) => CommaTight(e, env, d, top);
      case Cond(_, _, _) => CondTight(e, env, d, top);
      case Send(_, _) => SendTight(e, env, d, top);
    }
  }

  lemma LeafTight(e: Expr, env: Env, d: nat, top: int)
    requires (e.Num? || e.Char?) && Safe(Code(e, env), d, top)
    ensures d + Height(e) <= top
  {
    SafeOne(Code(e, env)[0], d, top);
  }

  /** What the code of a tree does to the depth. */
  lemma CodeSum(e: Expr, env: Env)
    requires Legal(e)
    ensures Sum(Code(e, env)) == Rise(e)
    ensures HasValue(KindOf(e)) ==> Sum(ValueCode(e, env)) == 1
  {
    hide Safe, Code, Sum, ValueCode, Legal;
    CodeSafe(e, env, 0, Height(e));
    if HasValue(KindOf(e)) {
      ValueSafe(e, env, 0, ValueHeight(e));
    }
  }

  lemma {:induction false} ValueTight(e: Expr, env: Env, d: nat, top: int)
    requires Legal(e) && HasValue(KindOf(e)) && d <= top && Safe(ValueCode(e, env), d, top)
    ensures d + ValueHeight(e) <= top
    decreases e, 2
  {
    hide Code, Safe, Sum, Legal;
    var load := LoadCode(KindOf(e), env);
    SafeConcat(Code(e, env), load, d, top);
    CodeTight(e, env, d, top);
    CodeSum(e, env);
    if KindOf(e).OfVar? {
      SafeOne(load[0], d, top);
    } else {
      NormalHeight(e);
    }
  }

  lemma NormalHeight(e: Expr)
    requires KindOf(e).Normal?
    ensures Height(e) >= 1
    decreases e
  {
    match e
    case Comma(_, r) => NormalHeight(r);
    case PreStep(_, x) =>
    case _ =>
  }

  lemma {:induction false} UnaryTight(e: Expr, env: Env, d: nat, top: int)
    requires e.Unary? && Legal(e) && d <= top && Safe(Code(e, env), d, top)
    ensures d + Height(e) <= top
    decreases e, 0
  {
    hide Safe, ValueCode;
    var i: seq<Instr> := match e.op case Posate => [] case Negative => [Neg] case Lognot => [Instr.LNot] case Bitnot => [Instr.Not];
    assert Code(e, env) == ValueCode(e.e, env) + i;
    SafeConcat(ValueCode(e.e, env), i, d, top);
    ValueTight(e.e, env, d, top);
  }

  lemma {:induction false} StepTight(e: Expr, env: Env, d: nat, top: int)
    requires (e.PreStep? || e.PostStep?) && Legal(e) && d <= top && Safe(Code(e, env), d, top)
    ensures d + Height(e) <= top
    decreases e, 0
  {
    hide Safe, Sum;
    var x := e.e;
    var v := VarSlot(KindOf(x), env);
    CodeSum(x, env);
    var last := [Bin(StepOp(e.up)), Save(v)];
    if e.PreStep? {
      PushesTight([Load(v), Push(1)], last, d, top, Code(x, env));
      assert Code(e, env) == Code(x, env) + ([Load(v), Push(1)] + last);
    } else {
      PushesTight([Load(v), Dup, Push(1)], last, d, top, Code(x, env));
      assert Code(e, env) == Code(x, env) + ([Load(v), Dup, Push(1)] + last);
    }
    CodeTight(x, env, d, top);
  }

  /** Instructions that each push one more. */
  lemma PushesTight(pushes: seq<Instr>, rest: seq<Instr>, d: nat, top: int, before: seq<Instr>)
    requires Sum(before) == 0 && pushes != [] && forall k :: 0 <= k < |pushes| ==> Change(pushes[k]) == 1
    ensures Safe(before + (pushes + rest), d, top) ==> Safe(before, d, top) && d + |pushes| <= top
  {
    hide Change, Need;
    SafeConcat(before, pushes + rest, d, top);
    SafeConcat(pushes, rest, d, top);
    if Safe(before + (pushes + rest), d, top) {
      PushesRise(pushes, d, top);
    }
  }

  lemma {:induction false} PushesRise(pushes: seq<Instr>, d: nat, top: int)
    requires pushes != [] && Safe(pushes, d, top) && forall k :: 0 <= k < |pushes| ==> Change(pushes[k]) == 1
    ensures d + |pushes| <= top
    decreases |pushes|
  {
    hide Change, Need;
    if |pushes| > 1 {
      PushesRise(pushes[1..], d + 1, top);
    }
  }

  lemma {:induction false} BinaryTight(e: Expr, env: Env, d: nat, top: int)
    requires e.Binary? && Legal(e) && d <= top && Safe(Code(e, env), d, top)
    ensures d + Height(e) <= top
    decreases e, 0
  {
    hide Safe, Sum, ValueCode, InfixCode;
    var l, r := ValueCode(e.l, env), ValueCode(e.r, env);
    SafeConcat(l + r, InfixCode(e.infix), d, top);
    SafeConcat(l, r, d, top);
    CodeSum(e.l, env);
    ValueTight(e.l, env, d, top);
    ValueTight(e.r, env, d + 1, top);
  }

  lemma {:induction false} AssignTight(e: Expr, env: Env, d: nat, top: int)
    requires e.Assign? && Legal(e) && d <= top && Safe(Code(e, env), d, top)
    ensures d + Height(e) <= top
    decreases e, 0
  {
    hide Safe, Sum, ValueCode;
    var l, r := Code(e.l, env), ValueCode(e.r, env);
    var v := VarSlot(KindOf(e.l), env);
    CodeSum(e.l, env);
    if e.asg.None? {
      SafeConcat(l + r, [Save(v)], d, top);
      SafeConcat(l, r, d, top);
      CodeTight(e.l, env, d, top);
      ValueTight(e.r, env, d, top);
    } else {
      SafeConcat(l + [Load(v)] + r, [Bin(e.asg.value), Save(v)], d, top);
      SafeConcat(l + [Load(v)], r, d, top);
      SafeConcat(l, [Load(v)], d, top);
      SafeOne(Load(v), d, top);
      CodeTight(e.l, env, d, top);
      ValueTight(e.r, env, d + 1, top);
    }
  }

  lemma {:induction false} CommaTight(e: Expr, env: Env, d: nat, top: int)
    requires e.Comma? && Legal(e) && d <= top && Safe(Code(e, env), d, top)
    ensures d + Height(e) <= top
    decreases e, 0
  {
    hide Safe, Sum, DropCode;
    var drop := DropCode(KindOf(e.l));
    SafeConcat(Code(e.l, env) + drop, Code(e.r, env), d, top);
    SafeConcat(Code(e.l, env), drop, d, top);
    CodeSum(e.l, env);
    DropSafe(e.l, d, top);
    CodeTight(e.l, env, d, top);
    CodeTight(e.r, env, d, top);
  }

  lemma {:induction false} CondTight(e: Expr, env: Env, d: nat, top: int)
    requires e.Cond? && Legal(e) && d <= top && Safe(Code(e, env), d, top)
    ensures d + Height(e) <= top
    decreases e, 0
  {
    hide Safe, Sum, ValueCode;
    var c, a, b := ValueCode(e.c0, env), ValueCode(e.a, env), ValueCode(e.b, env);
    SafeConcat(c + a + [Bin(LAnd)] + b, [Bin(LOr)], d, top);
    SafeConcat(c + a + [Bin(LAnd)], b, d, top);
    SafeConcat(c + a, [Bin(LAnd)], d, top);
    SafeConcat(c, a, d, top);
    SafeOne(Bin(LAnd), d + 2, top);
    CodeSum(e.c0, env);
    CodeSum(e.a, env);
    ValueTight(e.c0, env, d, top);
    ValueTight(e.a, env, d + 1, top);
    ValueTight(e.b, env, d + 1, top);
  }

  lemma {:induction false} SendTight(e: Expr, env: Env, d: nat, top: int)
    requires e.Send? && Legal(e) && d <= top && Safe(Code(e, env), d, top)
    ensures d + Height(e) <= top
    decreases e, 0
  {
    hide Safe, Sum, Code, ValueCode, VarSlot, PortSlot;
    var l, r := e.l, e.r;
    SendCode(e, env);
    CodeSum(l, env);
    CodeSum(r, env);
    if KindOf(r).OfPort? {
      var recv := Recv(PortSlot(KindOf(r), env));
      var last := if KindOf(l).OfVar? then Save(VarSlot(KindOf(l), env)) else Instr.Send(PortSlot(KindOf(l), env));
      SafeConcat(Code(l, env) + Code(r, env) + [recv], [last], d, top);
      SafeConcat(Code(l, env) + Code(r, env), [recv], d, top);
      SafeConcat(Code(l, env), Code(r, env), d, top);
      SafeOne(recv, d, top);
      CodeTight(l, env, d, top);
      CodeTight(r, env, d, top);
    } else {
      var last := Instr.Send(PortSlot(KindOf(l), env));
      SafeConcat(Code(l, env) + ValueCode(r, env), [last], d, top);
      SafeConcat(Code(l, env), ValueCode(r, env), d, top);
      CodeTight(l, env, d, top);
      ValueTight(r, env, d, top);
    }
  }

  /** Started at depth `d`, the code of a tree finds its operands and keeps within `top` exactly if there is
      room for its height; nothing less would do, and nothing more is asked for. */
  lemma HeightExact(e: Expr, env: Env, d: nat, top: int)
    requires Legal(e) && d <= top
    ensures Safe(Code(e, env), d, top) <==> d + Height(e) <= top
    ensures HasValue(KindOf(e)) ==> (Safe(ValueCode(e, env), d, top) <==> d + ValueHeight(e) <= top)
  {
    hide Safe, Sum, Code, ValueCode, Height, Legal;
    if Safe(Code(e, env), d, top) {
      CodeTight(e, env, d, top);
    }
    if d + Height(e) <= top {
      CodeSafe(e, env, d, top);
    }
    if HasValue(KindOf(e)) && Safe(ValueCode(e, env), d, top) {
      ValueTight(e, env, d, top);
    }
    if HasValue(KindOf(e)) && d + ValueHeight(e) <= top {
      ValueSafe(e, env, d, top);
    }
  }
}
