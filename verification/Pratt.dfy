/** What the compiler's parser accepts (compiler.c:412-767), as functions from token lists to
    trees: the specification that the single-pass parser of Compiler is proved against. */
module Pratt {
  import opened Wrappers
  import opened Syntax

  /** A tree and the tokens behind it, or None for a syntax error. */
  type Parsed<T> = Option<(T, seq<Token>)>

  /** The tree a prefix operator makes of its operand; None for other tokens. */
  function Prefixed(t: Token, e: Expr): Option<Expr> {
    match t
    case INC => Some(PreStep(true, e))
    case DEC => Some(PreStep(false, e))
    case LNOT => Some(Unary(Lognot, e))
    case NOT => Some(Unary(Bitnot, e))
    case INFIX(Plain(Add)) => Some(Unary(Posate, e))
    case INFIX(Plain(Sub)) => Some(Unary(Negative, e))
    case _ => None
  }

  /** The tree of a one-token operand. */
  function Operand(t: Token): Option<Expr> {
    match t
    case NUMBER(n) => Some(Num(n))
    case CHAR(c) => Some(Char(c))
    case VARIABLE(x) => Some(Var(x))
    case PORT(x) => Some(Port(x))
    case _ => None
  }

  /** parse_expr (compiler.c:737-767): a prefix parselet, then infix parselets while the next token
      binds tighter than `prec`. */
  function ParseExpr(ts: seq<Token>, prec: nat): (r: Parsed<Expr>)
    ensures r.Some? ==> |r.value.1| < |ts|
    decreases |ts|, 2
  {
    match ParsePrefix(ts)
    case None => None
    case Some((left, rest)) => ParseInfixes(left, rest, prec)
  }

  /** The prefix parselets: primary, group and prefix (compiler.c:412-497). */
  function ParsePrefix(ts: seq<Token>): (r: Parsed<Expr>)
    ensures r.Some? ==> |r.value.1| < |ts|
    decreases |ts|, 1
  {
    if ts == [] then None
    else if Operand(ts[0]).Some? then Some((Operand(ts[0]).value, ts[1..]))
    else if ts[0] == LPAREN then
      match ParseExpr(ts[1..], PREC_NONE)
      case None => None
      case Some((e, rest)) => if Next(rest, RPAREN) then Some((e, rest[1..])) else None
    else
      match ParseExpr(ts[1..], PREC_UNARY)
      case None => None
      case Some((e, rest)) =>
        match Prefixed(ts[0], e)
        case None => None
        case Some(e') => Some((e', rest))
  }

  /** The loop of parse_expr (compiler.c:758-764). */
  function ParseInfixes(left: Expr, ts: seq<Token>, prec: nat): (r: Parsed<Expr>)
    ensures r.Some? ==> |r.value.1| <= |ts|
    decreases |ts|, 1
  {
    if prec >= NextPrec(ts) then Some((left, ts)) else
    match ParseInfix(left, ts)
    case None => None
    case Some((e, rest)) => ParseInfixes(e, rest, prec)
  }

  /** The infix parselets: send, comma, binary, assign, cond and postfix (compiler.c:500-735).
      Assignment and the conditional pass a precedence one lower, to associate to the right. */
  function ParseInfix(left: Expr, ts: seq<Token>): (r: Parsed<Expr>)
    requires NextPrec(ts) > PREC_NONE
    ensures r.Some? ==> |r.value.1| < |ts|
    decreases |ts|, 0
  {
    match ts[0]
    case INC => Some((PostStep(left, true), ts[1..]))
    case DEC => Some((PostStep(left, false), ts[1..]))
    case COND =>
      (match ParseExpr(ts[1..], PREC_COND - 1)
       case None => None
       case Some((a, rest)) =>
         if !Next(rest, COLON) then None else
         match ParseExpr(rest[1..], PREC_COND - 1)
         case None => None
         case Some((b, rest')) => Some((Cond(left, a, b), rest')))
    case SEND =>
      (match ParseExpr(ts[1..], PREC_SEND)
       case None => None
       case Some((right, rest)) => Some((Send(left, right), rest)))
    case COMMA =>
      (match ParseExpr(ts[1..], PREC_COMMA)
       case None => None
       case Some((right, rest)) => Some((Comma(left, right), rest)))
    case ASSIGN =>
      (match ParseExpr(ts[1..], PREC_ASSIGN - 1)
       case None => None
       case Some((right, rest)) => Some((Assign(left, None, right), rest)))
    case OPASSIGN(op) =>
      (match ParseExpr(ts[1..], PREC_ASSIGN - 1)
       case None => None
       case Some((right, rest)) => Some((Assign(left, Some(op), right), rest)))
    case INFIX(op) =>
      (match ParseExpr(ts[1..], InfixPrec(op))
       case None => None
       case Some((right, rest)) => Some((Binary(left, op, right), rest)))
  }

  /** The precedence at which an infix operator other than `?:` reads its right operand. */
  function RightOperandPrec(t: Token): nat {
    match t
    case SEND => PREC_SEND
    case COMMA => PREC_COMMA
    case INFIX(op) => InfixPrec(op)
    case _ => PREC_ASSIGN - 1
  }

  // ----- Statements (compiler.c:769-1014) -----

  predicate Next(ts: seq<Token>, t: Token) {
    ts != [] && ts[0] == t
  }

  /** An expression, at the lowest precedence, and the expected token behind it. */
  function ParseExprThen(ts: seq<Token>, t: Token): (r: Parsed<Expr>)
    ensures r.Some? ==> |r.value.1| + 1 < |ts|
  {
    match ParseExpr(ts, PREC_NONE)
    case None => None
    case Some((e, rest)) => if Next(rest, t) then Some((e, rest[1..])) else None
  }

  /** parse_stmt (compiler.c:961-1014) */
  function ParseStmt(ts: seq<Token>): (r: Parsed<Stmt>)
    ensures r.Some? ==> |r.value.1| < |ts|
    decreases |ts|, 1
  {
    if ts == [] then None else
    match ts[0]
    case BREAK => if Next(ts[1..], SEMICOLON) then Some((Break, ts[2..])) else None
    case CONTINUE => if Next(ts[1..], SEMICOLON) then Some((Continue, ts[2..])) else None
    case GOTO =>
      if |ts| >= 3 && ts[1].IDENTIFIER? && ts[2] == SEMICOLON then Some((Goto(ts[1].name), ts[3..])) else None
    case LBRACE => ParseBlock(ts[1..])
    case IF =>
      if !Next(ts[1..], LPAREN) then None else
      (match ParseExprThen(ts[2..], RPAREN)
       case None => None
       case Some((e, rest)) =>
         match ParseStmt(rest)
         case None => None
         case Some((s, rest')) =>
           if !Next(rest', ELSE) then Some((If(e, s), rest')) else
           match ParseStmt(rest'[1..])
           case None => None
           case Some((t, rest'')) => Some((IfElse(e, s, t), rest'')))
    case FOR =>
      if !Next(ts[1..], LPAREN) then None else
      (match ParseExprThen(ts[2..], SEMICOLON)
       case None => None
       case Some((i, r0)) =>
         match ParseExprThen(r0, SEMICOLON)
         case None => None
         case Some((c, r1)) =>
           match ParseExprThen(r1, RPAREN)
           case None => None
           case Some((p, r2)) =>
             match ParseStmt(r2)
             case None => None
             case Some((s, r3)) => Some((For(i, c, p, s), r3)))
    case WHILE =>
      if !Next(ts[1..], LPAREN) then None else
      (match ParseExprThen(ts[2..], RPAREN)
       case None => None
       case Some((e, rest)) =>
         match ParseStmt(rest)
         case None => None
         case Some((s, rest')) => Some((While(e, s), rest')))
    case DO =>
      (match ParseStmt(ts[1..])
       case None => None
       case Some((s, rest)) =>
         if !(Next(rest, WHILE) && Next(rest[1..], LPAREN)) then None else
         match ParseExprThen(rest[2..], RPAREN)
         case None => None
         case Some((e, rest')) => if Next(rest', SEMICOLON) then Some((Do(s, e), rest'[1..])) else None)
    case IDENTIFIER(x) => if Next(ts[1..], COLON) then Some((Label(x), ts[2..])) else None
    case SEMICOLON => Some((Empty, ts[1..]))
    case HALT => if Next(ts[1..], SEMICOLON) then Some((Halt, ts[2..])) else None
    case _ =>
      match ParseExprThen(ts, SEMICOLON)
      case None => None
      case Some((e, rest)) => Some((ExprStmt(e), rest))
  }

  /** The statements of a block up to its closing brace (compiler.c:810-813). */
  function ParseBlock(ts: seq<Token>): (r: Parsed<Stmt>)
    ensures r.Some? ==> |r.value.1| < |ts| && IsChain(r.value.0)
    decreases |ts|, 2
  {
    if Next(ts, RBRACE) then Some((Skip, ts[1..])) else
    match ParseStmt(ts)
    case None => None
    case Some((s, rest)) =>
      match ParseBlock(rest)
      case None => None
      case Some((b, rest')) => Some((Seq(s, b), rest'))
  }

  /** A processor's body (compiler.c:1023). */
  function ParseBody(ts: seq<Token>): (r: Parsed<Stmt>)
    ensures r.Some? ==> |r.value.1| < |ts| && IsChain(r.value.0)
  {
    if Next(ts, LBRACE) then ParseBlock(ts[1..]) else None
  }
}
