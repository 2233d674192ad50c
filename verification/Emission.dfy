/** What has been emitted for an expression, and how the pieces grow together. */
module Emission {
  import opened Wrappers
  import opened Bytes
  import opened Bytecode
  import opened Syntax
  import opened Pratt
  import opened Dict
  import opened CodeGen
  import opened Assembler
  import opened Stability

  datatype ExprType = EXPR_NORMAL | EXPR_PORT | EXPR_VAR | EXPR_SEND

  /** What a parselet hands back: the kind of expression, and the slot of a variable or port. */
  datatype Expression = Expression(kind: ExprType, idx: slot)

  function Represent(k: Kind, env: Env): Expression {
    match k
    case Normal => Expression(EXPR_NORMAL, 0)
    case OfVar(x) => Expression(EXPR_VAR, SlotOf(env.vars, x))
    case OfPort(x) => Expression(EXPR_PORT, SlotOf(env.ports, x))
    case OfSend => Expression(EXPR_SEND, 0)
  }

  /** The tokens were an expression that compiles without an error. */
  predicate Good(env: Env, r: Parsed<Expr>) {
    r.Some? && Legal(r.value.0) && Fits(Names(env, r.value.0))
  }

  /** `e` has been compiled: its names are entered, its code stands behind `start`. */
  predicate Emitted(e: Expr, env0: Env, start: seq<byte>, env: Env, code: seq<byte>, x: Expression) {
    && Legal(e) && Known(e, env) && env == Names(env0, e)
    && code == start + EncodeAll(Code(e, env))
    && x == Represent(KindOf(e), env)
  }

  lemma PrimaryEmitted(e: Expr, env: Env, start: seq<byte>)
    requires e.Num? || e.Char? || e.Var? || e.Port?
    ensures Emitted(e, env, start, Names(env, e), start + EncodeAll(Code(e, env)), Represent(KindOf(e), Names(env, e))) <==> Legal(e)
    ensures e.Var? || e.Port? ==> EncodeAll(Code(e, env)) == []
    ensures e.Num? && e.n <= 255 ==> EncodeAll(Code(e, env)) == Encode(Push(e.n))
    ensures e.Char? ==> EncodeAll(Code(e, env)) == Encode(Push(e.c))
  {
    assert e.Num? || e.Char? ==> Code(e, env)[1..] == [];
  }

  // ----- Growing -----

  /** The tokens were an expression that compiles to a value. */
  predicate GoodValue(env: Env, r: Parsed<Expr>) {
    Good(env, r) && HasValue(KindOf(r.value.0))
  }

  /** The code of an expression whose value is needed. */
  predicate ValueEmitted(e: Expr, env0: Env, start: seq<byte>, env: Env, code: seq<byte>) {
    && LegalValue(e) && Known(e, env) && env == Names(env0, e)
    && code == start + EncodeAll(ValueCode(e, env))
  }

  lemma Appended(start: seq<byte>, x: seq<Instr>, y: seq<Instr>)
    ensures start + EncodeAll(x) + EncodeAll(y) == start + EncodeAll(x + y)
  {
    EncodeConcat(x, y);
    hide EncodeAll;
    var a, b := EncodeAll(x), EncodeAll(y);
    assert start + a + b == start + (a + b);
  }

  lemma ValueFacts(e: Expr, env0: Env, start: seq<byte>, env: Env, code: seq<byte>)
    requires ValueEmitted(e, env0, start, env, code)
    ensures LegalValue(e) && Known(e, env) && env == Names(env0, e)
  {
    hide LegalValue, Names, Known, ValueCode, EncodeAll;
  }

  /** asm_value completes an expression to a value. */
  lemma Valued(e: Expr, env0: Env, start: seq<byte>, env: Env, code: seq<byte>, x: Expression)
    requires Emitted(e, env0, start, env, code, x) && HasValue(KindOf(e))
    ensures ValueEmitted(e, env0, start, env, code + EncodeAll(LoadCode(KindOf(e), env)))
  {
    hide Code, EncodeAll, Names, Known, Legal, KindOf, LoadCode;
    Appended(start, Code(e, env), LoadCode(KindOf(e), env));
  }

  /** More names do not change what was emitted. */
  lemma ValueLater(e: Expr, env0: Env, start: seq<byte>, env: Env, code: seq<byte>, fin: Env)
    requires ValueEmitted(e, env0, start, env, code) && Extends(env, fin) && Unique(fin)
    ensures code == start + EncodeAll(ValueCode(e, fin)) && Known(e, fin)
  {
    hide ValueCode, EncodeAll, Names, Known, LegalValue;
    CodeStable(e, env, fin);
    KindStable(e, env, fin);
  }

  lemma EmittedLater(e: Expr, env0: Env, start: seq<byte>, env: Env, code: seq<byte>, x: Expression, fin: Env)
    requires Emitted(e, env0, start, env, code, x) && Extends(env, fin) && Unique(fin)
    ensures code == start + EncodeAll(Code(e, fin)) && Known(e, fin)
    ensures KindOf(e).OfVar? ==> x.idx == VarSlot(KindOf(e), fin)
    ensures KindOf(e).OfPort? ==> x.idx == PortSlot(KindOf(e), fin)
  {
    hide Code, EncodeAll, Names, Known, Legal, KindOf;
    CodeStable(e, env, fin);
    KindStable(e, env, fin);
  }

  // ----- One lemma for each parselet -----

  lemma UnaryEmitted(op: UnaryOp, e: Expr, env0: Env, start: seq<byte>, env: Env, c1: seq<byte>, c2: seq<byte>)
    requires ValueEmitted(e, env0, start, env, c1)
    requires c2 == match op
                   case Posate => c1
                   case Negative => c1 + Encode(Neg)
                   case Lognot => c1 + Encode(Instr.LNot)
                   case Bitnot => c1 + Encode(Instr.Not)
    ensures Emitted(Unary(op, e), env0, start, env, c2, Expression(EXPR_NORMAL, 0))
  {
    hide EncodeAll, Encode, ValueCode;
    var code := ValueCode(e, env);
    if op == Posate {
      assert Code(Unary(op, e), env) == code;
    } else {
      var i := match op case Negative => Neg case Lognot => Instr.LNot case _ => Instr.Not;
      assert Code(Unary(op, e), env) == code + [i];
      Appended(start, code, [i]);
      EncodeOne(i);
    }
  }

  lemma PreStepEmitted(up: bool, e: Expr, env0: Env, start: seq<byte>, env: Env, c1: seq<byte>, x: Expression,
                       c2: seq<byte>)
    requires Emitted(e, env0, start, env, c1, x) && KindOf(e).OfVar?
    requires c2 == c1 + Encode(Load(x.idx)) + Encode(Push(1)) + Encode(Bin(StepOp(up))) + Encode(Save(x.idx))
    ensures Emitted(PreStep(up, e), env0, start, env, c2, x)
  {
    hide EncodeAll, Encode, Known, Names;
    EncodeTwo(Load(x.idx), Push(1));
    EncodeTwo(Bin(StepOp(up)), Save(x.idx));
    EncodeConcat([Load(x.idx), Push(1)], [Bin(StepOp(up)), Save(x.idx)]);
    assert [Load(x.idx), Push(1)] + [Bin(StepOp(up)), Save(x.idx)] == [Load(x.idx), Push(1), Bin(StepOp(up)), Save(x.idx)];
    Appended(start, Code(e, env), [Load(x.idx), Push(1), Bin(StepOp(up)), Save(x.idx)]);
    assert c2 == c1 + (Encode(Load(x.idx)) + Encode(Push(1)) + (Encode(Bin(StepOp(up))) + Encode(Save(x.idx))));
    assert Names(env0, PreStep(up, e)) == Names(env0, e) && Known(PreStep(up, e), env) by { StepNames(e, up, env0, env); }
  }

  lemma StepNames(e: Expr, up: bool, env0: Env, env: Env)
    ensures Names(env0, PreStep(up, e)) == Names(env0, e) == Names(env0, PostStep(e, up))
    ensures Known(PreStep(up, e), env) == Known(e, env) == Known(PostStep(e, up), env)
  {
  }

  lemma PostStepBytes(l: Instr, o: Instr, s: Instr)
    ensures EncodeAll([l, Dup, Push(1), o, s]) == Encode(l) + Encode(Dup) + Encode(Push(1)) + Encode(o) + Encode(s)
  {
    hide EncodeAll, Encode;
    EncodeTwo(l, Dup);
    EncodeTwo(o, s);
    EncodeOne(Push(1));
    EncodeConcat([l, Dup], [Push(1)]);
    EncodeConcat([l, Dup] + [Push(1)], [o, s]);
    assert [l, Dup] + [Push(1)] + [o, s] == [l, Dup, Push(1), o, s];
  }

  lemma PostStepEmitted(up: bool, e: Expr, env0: Env, start: seq<byte>, env: Env, c1: seq<byte>, x: Expression,
                        c2: seq<byte>)
    requires Emitted(e, env0, start, env, c1, x) && KindOf(e).OfVar?
    requires c2 == c1 + Encode(Load(x.idx)) + Encode(Dup) + Encode(Push(1)) + Encode(Bin(StepOp(up))) + Encode(Save(x.idx))
    ensures Emitted(PostStep(e, up), env0, start, env, c2, Expression(EXPR_NORMAL, 0))
  {
    hide EncodeAll, Encode, Known, Names, ValueCode, DropCode, LoadCode, StepOp, SlotOf;
    var l, o, s := Load(x.idx), Bin(StepOp(up)), Save(x.idx);
    PostStepBytes(l, o, s);
    Appended(start, Code(e, env), [l, Dup, Push(1), o, s]);
    assert c2 == c1 + (Encode(l) + Encode(Dup) + Encode(Push(1)) + Encode(o) + Encode(s));
    StepNames(e, up, env0, env);
  }

  lemma BinaryEmitted(l: Expr, op: InfixOp, r: Expr, env0: Env, start: seq<byte>, env1: Env, c1: seq<byte>,
                      env2: Env, c2: seq<byte>, c3: seq<byte>)
    requires ValueEmitted(l, env0, start, env1, c1) && ValueEmitted(r, env1, c1, env2, c2)
    requires Extends(env1, env2) && Unique(env2)
    requires c3 == c2 + EncodeAll(InfixCode(op))
    ensures Emitted(Binary(l, op, r), env0, start, env2, c3, Expression(EXPR_NORMAL, 0))
  {
    hide EncodeAll, ValueCode, InfixCode;
    ValueLater(l, env0, start, env1, c1, env2);
    Appended(start, ValueCode(l, env2), ValueCode(r, env2));
    Appended(start, ValueCode(l, env2) + ValueCode(r, env2), InfixCode(op));
  }

  lemma AssignEmitted(l: Expr, r: Expr, env0: Env, start: seq<byte>, env1: Env, c1: seq<byte>, x: Expression,
                      env2: Env, c2: seq<byte>, c3: seq<byte>)
    requires Emitted(l, env0, start, env1, c1, x) && KindOf(l).OfVar? && ValueEmitted(r, env1, c1, env2, c2)
    requires Extends(env1, env2) && Unique(env2)
    requires c3 == c2 + Encode(Save(x.idx))
    ensures Emitted(Assign(l, None, r), env0, start, env2, c3, x)
  {
    hide EncodeAll, Encode, ValueCode;
    EmittedLater(l, env0, start, env1, c1, x, env2);
    Appended(start, Code(l, env2), ValueCode(r, env2));
    EncodeOne(Save(x.idx));
    Appended(start, Code(l, env2) + ValueCode(r, env2), [Save(x.idx)]);
  }

  lemma OpAssignEmitted(l: Expr, op: AssignOp, r: Expr, env0: Env, start: seq<byte>, env1: Env, c0: seq<byte>,
                        x: Expression,
                        c1: seq<byte>, env2: Env, c2: seq<byte>, c3: seq<byte>)
    requires Emitted(l, env0, start, env1, c0, x) && KindOf(l).OfVar?
    requires c1 == c0 + Encode(Load(x.idx)) && ValueEmitted(r, env1, c1, env2, c2)
    requires Extends(env1, env2) && Unique(env2)
    requires c3 == c2 + Encode(Bin(op)) + Encode(Save(x.idx))
    ensures Emitted(Assign(l, Some(op), r), env0, start, env2, c3, x)
  {
    hide EncodeAll, Encode, ValueCode, SlotOf, StepOp;
    EmittedLater(l, env0, start, env1, c0, x, env2);
    EncodeOne(Load(x.idx));
    Appended(start, Code(l, env2), [Load(x.idx)]);
    Appended(start, Code(l, env2) + [Load(x.idx)], ValueCode(r, env2));
    EncodeTwo(Bin(op), Save(x.idx));
    assert c3 == c2 + (Encode(Bin(op)) + Encode(Save(x.idx)));
    Appended(start, Code(l, env2) + [Load(x.idx)] + ValueCode(r, env2), [Bin(op), Save(x.idx)]);
  }

  lemma CommaEmitted(l: Expr, r: Expr, env0: Env, start: seq<byte>, env1: Env, c0: seq<byte>, x: Expression,
                     c1: seq<byte>, env2: Env, c2: seq<byte>, y: Expression)
    requires Emitted(l, env0, start, env1, c0, x) && c1 == c0 + EncodeAll(DropCode(KindOf(l)))
    requires Emitted(r, env1, c1, env2, c2, y)
    requires Extends(env1, env2) && Unique(env2)
    ensures Emitted(Comma(l, r), env0, start, env2, c2, y)
  {
    hide EncodeAll, DropCode, SlotOf, Code, ValueCode, Known, Legal;
    EmittedLater(l, env0, start, env1, c0, x, env2);
    Appended(start, Code(l, env2), DropCode(KindOf(l)));
    Appended(start, Code(l, env2) + DropCode(KindOf(l)), Code(r, env2));
    CommaCode(l, r, env0, env2);
  }

  lemma CommaCode(l: Expr, r: Expr, env0: Env, env: Env)
    ensures Code(Comma(l, r), env) == Code(l, env) + DropCode(KindOf(l)) + Code(r, env)
    ensures Legal(Comma(l, r)) <==> Legal(l) && Legal(r)
    ensures Known(Comma(l, r), env) <==> Known(l, env) && Known(r, env)
    ensures Names(env0, Comma(l, r)) == Names(Names(env0, l), r)
  {
    hide DropCode, ValueCode, HasValue, Enter;
  }

  lemma CondEmitted(c: Expr, a: Expr, b: Expr, env0: Env, start: seq<byte>, env1: Env, c1: seq<byte>, env2: Env,
                    c2: seq<byte>,
                    c3: seq<byte>, env3: Env, c4: seq<byte>, c5: seq<byte>)
    requires ValueEmitted(c, env0, start, env1, c1) && ValueEmitted(a, env1, c1, env2, c2)
    requires c3 == c2 + Encode(Bin(LAnd)) && ValueEmitted(b, env2, c3, env3, c4)
    requires c5 == c4 + Encode(Bin(LOr))
    requires Extends(env1, env2) && Unique(env2) && Extends(env2, env3) && Unique(env3)
    ensures Emitted(Cond(c, a, b), env0, start, env3, c5, Expression(EXPR_NORMAL, 0))
  {
    hide EncodeAll, Encode, ValueCode;
    var x, y, z := ValueCode(c, env3), ValueCode(a, env3), ValueCode(b, env3);
    ValueLater(c, env0, start, env1, c1, env3);
    ValueLater(a, env1, c1, env2, c2, env3);
    EncodeOne(Bin(LAnd));
    EncodeOne(Bin(LOr));
    Appended(start, x, y);
    Appended(start, x + y, [Bin(LAnd)]);
    Appended(start, x + y + [Bin(LAnd)], z);
    Appended(start, x + y + [Bin(LAnd)] + z, [Bin(LOr)]);
  }

  lemma ReceiveEmitted(l: Expr, r: Expr, env0: Env, start: seq<byte>, env1: Env, c0: seq<byte>, x: Expression,
                       env2: Env, c1: seq<byte>, y: Expression, c2: seq<byte>)
    requires Emitted(l, env0, start, env1, c0, x) && Emitted(r, env1, c0, env2, c1, y) && KindOf(r).OfPort?
    requires Extends(env1, env2) && Unique(env2)
    requires KindOf(l).OfVar? || KindOf(l).OfPort?
    requires c2 == c1 + Encode(Recv(y.idx)) + Encode(if KindOf(l).OfVar? then Save(x.idx) else Instr.Send(x.idx))
    ensures Emitted(Expr.Send(l, r), env0, start, env2, c2, Expression(EXPR_SEND, 0))
  {
    hide EncodeAll, Encode, ValueCode, SlotOf;
    EmittedLater(l, env0, start, env1, c0, x, env2);
    var last := if KindOf(l).OfVar? then Save(x.idx) else Instr.Send(x.idx);
    EncodeOne(Recv(y.idx));
    EncodeOne(last);
    Appended(start, Code(l, env2), Code(r, env2));
    Appended(start, Code(l, env2) + Code(r, env2), [Recv(y.idx)]);
    Appended(start, Code(l, env2) + Code(r, env2) + [Recv(y.idx)], [last]);
  }

  lemma SendEmitted(l: Expr, r: Expr, env0: Env, start: seq<byte>, env1: Env, c0: seq<byte>, x: Expression,
                    env2: Env, c1: seq<byte>, c2: seq<byte>)
    requires Emitted(l, env0, start, env1, c0, x) && ValueEmitted(r, env1, c0, env2, c1) && KindOf(l).OfPort?
    requires Extends(env1, env2) && Unique(env2)
    requires c2 == c1 + Encode(Instr.Send(x.idx))
    ensures Emitted(Expr.Send(l, r), env0, start, env2, c2, Expression(EXPR_SEND, 0))
  {
    hide EncodeAll, Encode, ValueCode;
    EmittedLater(l, env0, start, env1, c0, x, env2);
    EncodeOne(Instr.Send(x.idx));
    Appended(start, Code(l, env2), ValueCode(r, env2));
    Appended(start, Code(l, env2) + ValueCode(r, env2), [Instr.Send(x.idx)]);
  }

  // ----- Errors stay errors -----

  /** Whatever the operators behind it make of it, a tree with an error is part of one. */
  lemma {:induction false} InfixesGood(left: Expr, ts: seq<Token>, prec: nat, env0: Env)
    requires Unique(env0) && Good(env0, ParseInfixes(left, ts, prec))
    ensures Legal(left) && Fits(Names(env0, left))
    decreases |ts|
  {
    hide ParseExpr, Legal, Names;
    if prec < NextPrec(ts) {
      var r := ParseInfix(left, ts);
      InfixesGood(r.value.0, r.value.1, prec, env0);
      InfixGood(left, ts, env0);
    }
  }

  lemma InfixGood(left: Expr, ts: seq<Token>, env0: Env)
    requires Unique(env0) && NextPrec(ts) > PREC_NONE && Good(env0, ParseInfix(left, ts))
    ensures Legal(left) && Fits(Names(env0, left))
  {
    hide ParseExpr, Legal, Names, KindOf, HasValue, Unique, Fits;
    var e := ParseInfix(left, ts).value.0;
    NamesExtend1(env0, left);
    match e {
      case PostStep(_, up) => PostStepTree(left, up, env0);
      case Binary(_, op, r) => BinaryTree(left, op, r, env0); NamesFit(Names(env0, left), r);
      case Assign(_, op, r) => AssignTree(left, op, r, env0); NamesFit(Names(env0, left), r);
      case Comma(_, r) => CommaTree(left, r, env0); NamesFit(Names(env0, left), r);
      case Send(_, r) => SendTree(left, r, env0); NamesFit(Names(env0, left), r);
      case Cond(_, a, b) =>
        CondTree(left, a, b, env0);
        NamesExtend1(Names(env0, left), a);
        NamesFit(Names(Names(env0, left), a), b);
        NamesFit(Names(env0, left), a);
    }
  }

  lemma NamesExtend1(env: Env, e: Expr)
    requires Unique(env)
    ensures Unique(Names(env, e)) && Extends(env, Names(env, e))
  {
    hide Names;
    NamesExtend(env, e);
  }

  lemma PostStepTree(e: Expr, up: bool, env0: Env)
    ensures Names(env0, PostStep(e, up)) == Names(env0, e)
    ensures Legal(PostStep(e, up)) <==> Legal(e) && KindOf(e).OfVar?
  {
    hide KindOf;
  }

  lemma CommaTree(l: Expr, r: Expr, env0: Env)
    ensures Names(env0, Comma(l, r)) == Names(Names(env0, l), r)
    ensures Legal(Comma(l, r)) <==> Legal(l) && Legal(r)
  {
    hide KindOf;
  }

  lemma EmittedKind(e: Expr, env0: Env, start: seq<byte>, env: Env, code: seq<byte>, x: Expression)
    requires Emitted(e, env0, start, env, code, x)
    ensures Legal(e) && x == Represent(KindOf(e), env) && env == Names(env0, e)
    ensures x.kind == EXPR_VAR <==> KindOf(e).OfVar?
    ensures x.kind == EXPR_PORT <==> KindOf(e).OfPort?
    ensures x.kind == EXPR_NORMAL <==> KindOf(e).Normal?
  {
    hide Legal, Names, Known, Code, KindOf;
  }

  /** The operator of a prefix token other than `++` and `--`. */
  function PrefixOp(tok: Token): UnaryOp {
    if tok.LNOT? then Lognot else if tok.NOT? then Bitnot else if tok == INFIX(Plain(Sub)) then Negative else Posate
  }

  /** What a prefix operator makes of its operand, and when that is an error. */
  lemma PrefixTree(tok: Token, e: Expr, env0: Env)
    requires StartsExpr(tok) && Operand(tok).None? && !tok.LPAREN?
    ensures Prefixed(tok, e) == Some(if tok.INC? || tok.DEC? then PreStep(tok.INC?, e) else Unary(PrefixOp(tok), e))
    ensures var e' := Prefixed(tok, e).value;
            && Names(env0, e') == Names(env0, e)
            && (Legal(e') <==> Legal(e) && if tok.INC? || tok.DEC? then KindOf(e).OfVar? else HasValue(KindOf(e)))
  {
  }

  lemma DropEmitted(e: Expr, c0: seq<byte>, c1: seq<byte>)
    requires c1 == if KindOf(e).Normal? then c0 + Encode(Instr.Pop) else c0
    ensures c1 == c0 + EncodeAll(DropCode(KindOf(e)))
  {
    hide Encode, KindOf;
    EncodeOne(Instr.Pop);
  }

  /** What follows the second operand of `?:`. */
  function Otherwise(c: Expr, a: Expr, rest: seq<Token>): Parsed<Expr> {
    if !Next(rest, COLON) then None else
    match Pratt.ParseExpr(rest[1..], PREC_COND - 1)
    case None => None
    case Some((b, rest')) => Some((Cond(c, a, b), rest'))
  }

  lemma CondParsed(c: Expr, ts: seq<Token>)
    ensures var ra := Pratt.ParseExpr(ts, PREC_COND - 1);
            Pratt.ParseInfix(c, [COND] + ts) == if ra.None? then None else Otherwise(c, ra.value.0, ra.value.1)
  {
    hide Pratt.ParseExpr;
    assert ([COND] + ts)[1..] == ts;
  }

  lemma CondTree(c: Expr, a: Expr, b: Expr, env0: Env)
    ensures Names(env0, Cond(c, a, b)) == Names(Names(Names(env0, c), a), b)
    ensures Legal(Cond(c, a, b)) <==> LegalValue(c) && LegalValue(a) && LegalValue(b)
  {
    hide Names, Legal, LegalValue;
    CondNames(c, a, b, env0, Names(env0, c), Names(Names(env0, c), a), Names(Names(Names(env0, c), a), b));
    CondLegal(c, a, b);
  }

  lemma CondNames(c: Expr, a: Expr, b: Expr, env0: Env, env1: Env, env2: Env, env3: Env)
    requires env1 == Names(env0, c) && env2 == Names(env1, a) && env3 == Names(env2, b)
    ensures Names(env0, Cond(c, a, b)) == env3
  {
    hide Enter;
  }

  lemma CondLegal(c: Expr, a: Expr, b: Expr)
    ensures Legal(Cond(c, a, b)) <==> LegalValue(c) && LegalValue(a) && LegalValue(b)
  {
    hide KindOf, HasValue;
  }

  lemma OtherwiseIff(c: Expr, a: Expr, ts: seq<Token>, env0: Env)
    requires LegalValue(c) && LegalValue(a)
    ensures Good(env0, Otherwise(c, a, ts)) <==>
              && Next(ts, COLON)
              && GoodValue(Names(Names(env0, c), a), Pratt.ParseExpr(ts[1..], PREC_COND - 1))
    ensures Good(env0, Otherwise(c, a, ts)) ==>
              var rb := Pratt.ParseExpr(ts[1..], PREC_COND - 1).value;
              Otherwise(c, a, ts) == Some((Cond(c, a, rb.0), rb.1))
  {
    hide Pratt.ParseExpr, Legal, Names, KindOf, HasValue;
    if Next(ts, COLON) && Pratt.ParseExpr(ts[1..], PREC_COND - 1).Some? {
      CondTree(c, a, Pratt.ParseExpr(ts[1..], PREC_COND - 1).value.0, env0);
    }
  }

  /** An error in the condition or the second operand is an error of the whole, whatever follows. */
  lemma OtherwiseGood(c: Expr, a: Expr, rest: seq<Token>, env0: Env)
    requires Unique(env0) && Good(env0, Otherwise(c, a, rest))
    ensures LegalValue(c) && LegalValue(a) && Fits(Names(Names(env0, c), a))
  {
    hide Pratt.ParseExpr, Legal, Names, LegalValue;
    var b := Otherwise(c, a, rest).value.0.b;
    CondTree(c, a, b, env0);
    NamesExtend(env0, c);
    NamesExtend(Names(env0, c), a);
    NamesFit(Names(Names(env0, c), a), b);
  }

  lemma AssignTree(l: Expr, op: Option<AssignOp>, r: Expr, env0: Env)
    ensures Names(env0, Assign(l, op, r)) == Names(Names(env0, l), r)
    ensures Legal(Assign(l, op, r)) <==> Legal(l) && KindOf(l).OfVar? && Legal(r) && HasValue(KindOf(r))
  {
  }

  lemma BinaryTree(l: Expr, op: InfixOp, r: Expr, env0: Env)
    ensures Names(env0, Binary(l, op, r)) == Names(Names(env0, l), r)
    ensures Legal(Binary(l, op, r)) <==> Legal(l) && HasValue(KindOf(l)) && Legal(r) && HasValue(KindOf(r))
  {
  }

  lemma SendTree(l: Expr, r: Expr, env0: Env)
    ensures Names(env0, Expr.Send(l, r)) == Names(Names(env0, l), r)
    ensures Legal(Expr.Send(l, r)) <==>
              && Legal(l) && Legal(r)
              && if KindOf(r).OfPort? then KindOf(l).OfVar? || KindOf(l).OfPort?
                 else KindOf(l).OfPort? && HasValue(KindOf(r))
  {
  }
}
