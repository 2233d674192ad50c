/** The printer's token lists have as few parentheses as any: whatever tokens are read as a tree, there are
    at least as many of them as the printer writes. */
module Shortest {
  import opened Syntax
  import opened Pratt
  import opened Printer

  /** What reading an operand leaves behind binds no tighter than `prec`. */
  lemma {:induction false} InfixesStop(left: Expr, ts: seq<Token>, prec: nat)
    requires ParseInfixes(left, ts, prec).Some?
    ensures NextPrec(ParseInfixes(left, ts, prec).value.1) <= prec
    decreases |ts|
  {
    hide ParseInfix;
    if prec < NextPrec(ts) {
      var (e, rest) := ParseInfix(left, ts).value;
      InfixesStop(e, rest, prec);
    }
  }

  lemma ExprStops(ts: seq<Token>, prec: nat)
    requires ParseExpr(ts, prec).Some?
    ensures NextPrec(ParseExpr(ts, prec).value.1) <= prec
  {
    hide ParsePrefix, ParseInfixes;
    var (left, rest) := ParsePrefix(ts).value;
    InfixesStop(left, rest, prec);
  }

  /** `n` tokens, in front of `rest`, were read as `e` at precedence `prec`: with parentheses around them,
      or as an operator that was allowed there and whose last operand ended where it had to. */
  predicate Spent(e: Expr, n: int, rest: seq<Token>, prec: nat) {
    || n >= |Print(e)| + 2
    || (n >= |Print(e)| && TopPrec(e) > prec && NextPrec(rest) <= RightPrec(e))
  }

  lemma SpentOperand(e: Expr, n: int, rest: seq<Token>, prec: nat)
    requires Spent(e, n, rest, prec)
    ensures n >= |OperandAt(e, prec)|
  {
    hide Print;
  }

  lemma SpentLeft(e: Expr, n: int, rest: seq<Token>, prec: nat)
    requires Spent(e, n, rest, prec)
    ensures n >= |LeftOperand(e, NextPrec(rest))|
  {
    hide Print;
  }

  /** The printer is optimal: an expression read at a precedence took at least as many tokens as the
      printer writes for it there. */
  lemma {:induction false} ShortestExpr(ts: seq<Token>, prec: nat)
    requires ParseExpr(ts, prec).Some? && prec <= PREC_UNARY
    ensures var (e, rest) := ParseExpr(ts, prec).value; |ts| - |rest| >= |OperandAt(e, prec)|
    decreases |ts|, 2
  {
    hide ParsePrefix, ParseInfixes, OperandAt, Spent;
    var (left, rest) := ParsePrefix(ts).value;
    ShortestPrefix(ts, prec);
    ShortestInfixes(left, rest, prec, |ts| - |rest|);
    var (e, end) := ParseInfixes(left, rest, prec).value;
    SpentOperand(e, |ts| - |end|, end, prec);
  }

  lemma {:induction false} ShortestPrefix(ts: seq<Token>, prec: nat)
    requires ParsePrefix(ts).Some? && prec <= PREC_UNARY
    ensures var (e, rest) := ParsePrefix(ts).value; Spent(e, |ts| - |rest|, rest, prec)
    decreases |ts|, 1
  {
    hide ParseExpr, OperandAt, LeftOperand, ParseInfix;
    if Operand(ts[0]).None? {
      var inner := if ts[0] == LPAREN then PREC_NONE else PREC_UNARY;
      ShortestExpr(ts[1..], inner);
      ExprStops(ts[1..], inner);
      if ts[0] == LPAREN {
        LowestOperand(ParseExpr(ts[1..], inner).value.0);
      }
    }
  }

  lemma LowestOperand(e: Expr)
    ensures OperandAt(e, PREC_NONE) == Print(e)
  {
    hide Print, TopPrec;
  }

  lemma {:induction false} ShortestInfixes(left: Expr, ts: seq<Token>, prec: nat, n: int)
    requires ParseInfixes(left, ts, prec).Some? && prec <= PREC_UNARY && Spent(left, n, ts, prec)
    ensures var (e, rest) := ParseInfixes(left, ts, prec).value; Spent(e, n + |ts| - |rest|, rest, prec)
    decreases |ts|, 1
  {
    hide ParseInfix, Spent;
    if prec < NextPrec(ts) {
      var (e, rest) := ParseInfix(left, ts).value;
      ShortestInfix(left, ts, prec, n);
      ShortestInfixes(e, rest, prec, n + |ts| - |rest|);
    }
  }

  lemma {:induction false} ShortestInfix(left: Expr, ts: seq<Token>, prec: nat, n: int)
    requires prec < NextPrec(ts) && ParseInfix(left, ts).Some? && Spent(left, n, ts, prec)
    ensures var (e, rest) := ParseInfix(left, ts).value; Spent(e, n + |ts| - |rest|, rest, prec)
    decreases |ts|, 0
  {
    hide ParseExpr, OperandAt, LeftOperand, Spent;
    SpentLeft(left, n, ts, prec);
    var (e, rest) := ParseInfix(left, ts).value;
    var t, more := ts[0], ts[1..];
    if t.COND? {
      ShortestExpr(more, PREC_COND - 1);
      var colon := ParseExpr(more, PREC_COND - 1).value.1;
      ShortestExpr(colon[1..], PREC_COND - 1);
      ExprStops(colon[1..], PREC_COND - 1);
      hide ParseInfix;
      CondSpent(e, n + |ts| - |rest|, rest, prec);
    } else {
      if !t.INC? && !t.DEC? {
        ShortestExpr(more, RightOperandPrec(t));
        ExprStops(more, RightOperandPrec(t));
      }
      InfixSpent(left, ts, prec, n);
    }
  }

  lemma CondSpent(e: Expr, n: int, rest: seq<Token>, prec: nat)
    requires e.Cond? && prec < PREC_COND && NextPrec(rest) <= PREC_COND - 1
    requires n >= |LeftOperand(e.c0, PREC_COND)| + 2 + |OperandAt(e.a, PREC_COND - 1)| + |OperandAt(e.b, PREC_COND - 1)|
    ensures Spent(e, n, rest, prec)
  {
    hide OperandAt, LeftOperand;
  }

  lemma InfixSpent(left: Expr, ts: seq<Token>, prec: nat, n: int)
    requires prec < NextPrec(ts) && ParseInfix(left, ts).Some? && !ts[0].COND? && n >= |LeftOperand(left, NextPrec(ts))|
    requires !ts[0].INC? && !ts[0].DEC? ==>
               var r := ParseExpr(ts[1..], RightOperandPrec(ts[0])).value;
               |ts[1..]| - |r.1| >= |OperandAt(r.0, RightOperandPrec(ts[0]))| && NextPrec(r.1) <= RightOperandPrec(ts[0])
    ensures var (e, rest) := ParseInfix(left, ts).value; Spent(e, n + |ts| - |rest|, rest, prec)
  {
    hide ParseExpr, OperandAt, LeftOperand;
  }
}
