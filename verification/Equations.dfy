/** Equations between expressions, for all operands, effects included: what is left of the language once
    they are applied are literals, variables, ports, the machine's own operators, plain assignment, the comma
    and sends. */
module Equations {
  import opened Wrappers
  import opened Bytes
  import opened Syntax
  import opened CodeGen
  import opened ExprMeaning
  import opened Pratt
  import Arithmetic

  /** `a != b`, `a > b` and `a >= b` are `!(a == b)`, `!(a <= b)` and `!(a < b)`. */
  lemma Duals(a: Expr, b: Expr, st: Store, w: World)
    ensures Eval(Binary(a, Neq, b), st, w) == Eval(Unary(Lognot, Binary(a, Plain(Eql), b)), st, w)
    ensures Eval(Binary(a, Gtr, b), st, w) == Eval(Unary(Lognot, Binary(a, Plain(Lte), b)), st, w)
    ensures Eval(Binary(a, Gte, b), st, w) == Eval(Unary(Lognot, Binary(a, Plain(Lss), b)), st, w)
  {
    hide Receive, Target, KindOf, InfixValue, UnaryValue;
    if Eval(a, st, w).Done? && Eval(b, Eval(a, st, w).st, Eval(a, st, w).w).Done? {
      DualValues(Eval(a, st, w).v, Eval(b, Eval(a, st, w).st, Eval(a, st, w).w).v);
    }
  }

  lemma DualValues(x: byte, y: byte)
    ensures InfixValue(Plain(Eql), x, y).Some?
            && InfixValue(Neq, x, y) == Some(UnaryValue(Lognot, InfixValue(Plain(Eql), x, y).value))
    ensures InfixValue(Plain(Lte), x, y).Some?
            && InfixValue(Gtr, x, y) == Some(UnaryValue(Lognot, InfixValue(Plain(Lte), x, y).value))
    ensures InfixValue(Plain(Lss), x, y).Some?
            && InfixValue(Gte, x, y) == Some(UnaryValue(Lognot, InfixValue(Plain(Lss), x, y).value))
  {
  }

  lemma UnaryValues(x: byte)
    ensures Apply(Sub, 0, x) == Some(UnaryValue(Negative, x))
    ensures Apply(Eql, 0, x) == Some(UnaryValue(Lognot, x))
    ensures Apply(Xor, 255, x) == Some(UnaryValue(Bitnot, x))
  {
    hide BitXor;
    ComplementIsXor(x);
  }

  /** `-a`, `!a` and `~a` are `0 - a`, `0 == a` and `255 ^ a`, and `+a` is `a`. */
  lemma Signs(a: Expr, st: Store, w: World)
    ensures Eval(Unary(Negative, a), st, w) == Eval(Binary(Num(0), Plain(Sub), a), st, w)
    ensures Eval(Unary(Lognot, a), st, w) == Eval(Binary(Num(0), Plain(Eql), a), st, w)
    ensures Eval(Unary(Bitnot, a), st, w) == Eval(Binary(Num(255), Plain(Xor), a), st, w)
    ensures Eval(Unary(Posate, a), st, w) == Eval(a, st, w)
  {
    hide Receive, Target, KindOf, Apply, Negate, LogicalNot, Complement;
    if Eval(a, st, w).Done? {
      UnaryValues(Eval(a, st, w).v);
    }
  }

  lemma ComplementIsXor(x: byte)
    ensures Complement(x) == BitXor(255, x)
  {
    hide BitXor, Complement, Arithmetic.Bit;
    assert Pow2(8) == 256;
    forall k | 0 <= k < 8
      ensures Arithmetic.Bit(Complement(x), k) <==> Arithmetic.Bit(BitXor(255, x), k)
    {
      Arithmetic.BitByBit(255, x, k);
      Arithmetic.BitByBit(x, x, k);
      AllOnes(255, 8, k);
    }
    Arithmetic.BitsTell(Complement(x), BitXor(255, x), 8);
  }

  lemma {:induction false} AllOnes(x: nat, n: nat, k: nat)
    requires x + 1 == Pow2(n) && k < n
    ensures Arithmetic.Bit(x, k)
    decreases n
  {
    var p := Pow2(n - 1);
    HalfOnes(x, p);
    if k > 0 {
      AllOnes(x / 2, n - 1, k - 1);
    }
  }

  lemma HalfOnes(x: nat, p: nat)
    requires x + 1 == 2 * p
    ensures x % 2 == 1 && x / 2 + 1 == p
  {
  }

  /** `$x op= e` is `$x = $x op e`: the variable is read before `e` is run. */
  lemma CompoundAssignment(x: string, op: AssignOp, e: Expr, st: Store, w: World)
    ensures Eval(Assign(Var(x), Some(op), e), st, w) == Eval(Assign(Var(x), None, Binary(Var(x), Plain(op), e)), st, w)
  {
    hide Apply, Receive;
  }

  /** `++$x` is `$x += 1`; `$x++` does the same and yields what was there before. */
  lemma Steps(x: string, st: Store, w: World)
    ensures Eval(PreStep(true, Var(x)), st, w) == Eval(Assign(Var(x), Some(Add), Num(1)), st, w)
    ensures Eval(PreStep(false, Var(x)), st, w) == Eval(Assign(Var(x), Some(Sub), Num(1)), st, w)
    ensures forall up :: Eval(PreStep(up, Var(x)), st, w).Done?
                         && Eval(PostStep(Var(x), up), st, w) == Done(Get(st, x), Eval(PreStep(up, Var(x)), st, w).st, w)
  {
    hide BitOr, BitAnd, BitXor, ShiftRight, Pow2;
  }

  /** `c ? a : b` is `c && a || b`. */
  lemma CondIsAndOr(c: Expr, a: Expr, b: Expr, st: Store, w: World)
    ensures Eval(Cond(c, a, b), st, w) == Eval(Binary(Binary(c, Plain(LAnd), a), Plain(LOr), b), st, w)
  {
    hide Receive, Target, KindOf;
  }

  // ----- From tokens to values -----

  /** The value of an expression that is all of `ts`. */
  function ValueOf(ts: seq<Token>): Option<byte> {
    match ParseExpr(ts, PREC_NONE)
    case None => None
    case Some((e, rest)) =>
      match Eval(e, map[], World([], []))
      case Done(v, _, _) => if rest == [] then Some(v) else None
      case _ => None
  }

  /** What the prefix operators write: `!n` is 0xFF or 0, `-n` and n add up to 0, `~n` has the other bits,
      and `+n` is n. */
  lemma PrefixValues(n: byte, k: nat)
    requires k < 8
    ensures ValueOf([LNOT, NUMBER(n)]) == Some(if n == 0 then 0xFF else 0)
    ensures ValueOf([INFIX(Plain(Sub)), NUMBER(n)]).Some?
            && Arithmetic.CountUp(ValueOf([INFIX(Plain(Sub)), NUMBER(n)]).value, n) == 0
    ensures ValueOf([NOT, NUMBER(n)]).Some? && (Arithmetic.Bit(ValueOf([NOT, NUMBER(n)]).value, k) <==> !Arithmetic.Bit(n, k))
    ensures ValueOf([INFIX(Plain(Add)), NUMBER(n)]) == Some(n)
  {
    hide ParseExpr, ValueOf, Arithmetic.Bit, Arithmetic.CountUp, Negate, Complement;
    Arithmetic.Negations(n);
    Arithmetic.BitByBit(n, n, k);
    PrefixValue(LNOT, Lognot, n);
    PrefixValue(NOT, Bitnot, n);
    PrefixValue(INFIX(Plain(Sub)), Negative, n);
    PrefixValue(INFIX(Plain(Add)), Posate, n);
  }

  lemma PrefixValue(t: Token, op: UnaryOp, n: byte)
    requires Prefixed(t, Num(n)) == Some(Unary(op, Num(n)))
    ensures ValueOf([t, NUMBER(n)]) == Some(UnaryValue(op, n))
  {
    hide ParseExpr, UnaryValue;
    PrefixParsed(t, n);
    assert Eval(Num(n), map[], World([], [])) == Done(n, map[], World([], []));
  }

  lemma PrefixParsed(t: Token, n: nat)
    requires Prefixed(t, Num(n)).Some?
    ensures ParseExpr([t, NUMBER(n)], PREC_NONE) == Some((Prefixed(t, Num(n)).value, []))
  {
    assert [t, NUMBER(n)][1..] == [NUMBER(n)] && [NUMBER(n)][1..] == [];
    assert ParsePrefix([NUMBER(n)]) == Some((Num(n), []));
    assert ParseExpr([NUMBER(n)], PREC_UNARY) == Some((Num(n), []));
  }
}
