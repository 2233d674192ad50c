/** Tokens and syntax trees of a processor's body. */
module Syntax {
  import opened Wrappers
  import opened Bytes

  /** The infix operators: the machine's own, and the three that are compiled as the negation of
      another one (compiler.c:574-591). */
  datatype InfixOp = Plain(op: BinOp) | Neq | Gtr | Gte

  /** The operators that have an assignment form (noded.h:63-73). */
  type AssignOp = op: BinOp | op in {Or, Xor, And, Shl, Shr, Add, Sub, Mul, Div, Mod} witness Or

  /** TokenType (noded.h:33-124), each with the part of its literal that the compiler uses. */
  datatype Token =
    | NUMBER(n: nat) | CHAR(c: byte) | STRING(text: seq<byte>)
    | VARIABLE(name: string) | PORT(name: string) | IDENTIFIER(name: string)
    | LPAREN | RPAREN | LBRACE | RBRACE
    | COLON | COMMA | PERIOD | SEMICOLON | WIRE
    | SEND | ASSIGN | OPASSIGN(op: AssignOp) | COND | INFIX(infix: InfixOp)
    | INC | DEC | LNOT | NOT
    | BREAK | CONTINUE | DO | ELSE | FOR | GOTO | HALT | IF | WHILE
    | BUFFER | PROCESSOR | STACK

  // ----- Precedences (compiler.c:50-69) -----

  const PREC_NONE := 0
  const PREC_SEND := 1
  const PREC_COMMA := 2
  const PREC_ASSIGN := 3
  const PREC_COND := 4
  const PREC_UNARY := 15

  function InfixPrec(op: InfixOp): (p: nat)
    ensures PREC_COND < p < PREC_UNARY
  {
    match op
    case Plain(LOr) => 5
    case Plain(LAnd) => 6
    case Plain(Or) => 7
    case Plain(Xor) => 8
    case Plain(And) => 9
    case Plain(Eql) => 10
    case Neq => 10
    case Plain(Lss) => 11
    case Plain(Lte) => 11
    case Gtr => 11
    case Gte => 11
    case Plain(Shl) => 12
    case Plain(Shr) => 12
    case Plain(Add) => 13
    case Plain(Sub) => 13
    case Plain(Mul) => 14
    case Plain(Div) => 14
    case Plain(Mod) => 14
  }

  /** The `prec` column of the parse table (compiler.c:108-150). */
  function TokenPrec(t: Token): nat {
    match t
    case SEND => PREC_SEND
    case COMMA => PREC_COMMA
    case ASSIGN => PREC_ASSIGN
    case OPASSIGN(_) => PREC_ASSIGN
    case COND => PREC_COND
    case INFIX(op) => InfixPrec(op)
    case INC => PREC_UNARY
    case DEC => PREC_UNARY
    case _ => PREC_NONE
  }

  /** The precedence of the next token; TOK_EOF has none. */
  function NextPrec(ts: seq<Token>): nat {
    if ts == [] then PREC_NONE else TokenPrec(ts[0])
  }

  /** The `prefix` column of the parse table. */
  predicate StartsExpr(t: Token) {
    || t.NUMBER? || t.VARIABLE? || t.PORT? || t.CHAR? || t.LPAREN?
    || t == INFIX(Plain(Add)) || t == INFIX(Plain(Sub)) || t.INC? || t.DEC? || t.LNOT? || t.NOT?
  }

  // ----- Trees -----

  datatype UnaryOp = Posate | Negative | Lognot | Bitnot

  datatype Expr =
    | Num(n: nat)
    | Char(c: byte)
    | Var(name: string)
    | Port(name: string)
    | Unary(op: UnaryOp, e: Expr)
    | PreStep(up: bool, e: Expr)
    | PostStep(e: Expr, up: bool)
    | Binary(l: Expr, infix: InfixOp, r: Expr)
    | Assign(l: Expr, asg: Option<AssignOp>, r: Expr)
    | Comma(l: Expr, r: Expr)
    | Cond(c0: Expr, a: Expr, b: Expr)
    | Send(l: Expr, r: Expr)

  /** A block's statements are chained by Seq and closed by Skip. */
  datatype Stmt =
    | Empty
    | ExprStmt(e: Expr)
    | Skip
    | Seq(first: Stmt, rest: Stmt)
    | If(e: Expr, then_: Stmt)
    | IfElse(e: Expr, then_: Stmt, else_: Stmt)
    | While(e: Expr, body: Stmt)
    | For(init: Expr, e: Expr, post: Expr, body: Stmt)
    | Do(body: Stmt, e: Expr)
    | Break
    | Continue
    | Goto(target: string)
    | Label(name: string)
    | Halt

  predicate IsChain(s: Stmt) {
    match s
    case Skip => true
    case Seq(a, b) => IsChain(b)
    case _ => false
  }
}
