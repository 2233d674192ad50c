/** Writing trees as token lists with as few parentheses as the parse table allows, and the proof
    that parsing reads every such list back as the same tree. */
module Printer {
  import opened Wrappers
  import opened Bytes
  import opened Syntax
  import opened Pratt

  /** How tightly the outermost operator binds; operands and prefix operators need no protection
      from what stands on their left. */
  function TopPrec(e: Expr): (p: nat)
    ensures PREC_SEND <= p <= 16
  {
    match e
    case PostStep(_, _) => PREC_UNARY
    case Binary(_, op, _) => InfixPrec(op)
    case Cond(_, _, _) => PREC_COND
    case Assign(_, _, _) => PREC_ASSIGN
    case Comma(_, _) => PREC_COMMA
    case Send(_, _) => PREC_SEND
    case _ => 16
  }

  /** The precedence at which the tree's last operand was parsed: an operator that binds tighter
      would be taken by that operand. */
  function RightPrec(e: Expr): (p: nat)
    ensures p <= TopPrec(e) <= p + 1
  {
    match e
    case Unary(_, _) => PREC_UNARY
    case PreStep(_, _) => PREC_UNARY
    case PostStep(_, _) => PREC_UNARY
    case Cond(_, _, _) => PREC_COND - 1
    case Assign(_, _, _) => PREC_ASSIGN - 1
    case _ => TopPrec(e)
  }

  function Parens(ts: seq<Token>): seq<Token> {
    [LPAREN] + ts + [RPAREN]
  }

  /** The tree as an operand parsed at precedence `p`. */
  function OperandAt(e: Expr, p: nat): seq<Token>
    decreases e, 1
  {
    if TopPrec(e) > p then Print(e) else Parens(Print(e))
  }

  /** The tree as the left operand of an operator of precedence `q`. */
  function LeftOperand(e: Expr, q: nat): seq<Token>
    decreases e, 1
  {
    if RightPrec(e) >= q then Print(e) else Parens(Print(e))
  }

  function UnaryToken(op: UnaryOp): Token {
    match op
    case Posate => INFIX(Plain(Add))
    case Negative => INFIX(Plain(Sub))
    case Lognot => LNOT
    case Bitnot => NOT
  }

  function AssignToken(op: Option<AssignOp>): Token {
    match op
    case None => ASSIGN
    case Some(o) => OPASSIGN(o)
  }

  function Print(e: Expr): (ts: seq<Token>)
    ensures ts != []
    decreases e, 0
  {
    match e
    case Num(n) => [NUMBER(n)]
    case Char(c) => [CHAR(c)]
    case Var(x) => [VARIABLE(x)]
    case Port(x) => [PORT(x)]
    case Unary(op, x) => [UnaryToken(op)] + OperandAt(x, PREC_UNARY)
    case PreStep(up, x) => [if up then INC else DEC] + OperandAt(x, PREC_UNARY)
    case PostStep(x, up) => LeftOperand(x, PREC_UNARY) + [if up then INC else DEC]
    case Binary(l, op, r) => LeftOperand(l, InfixPrec(op)) + ([INFIX(op)] + OperandAt(r, InfixPrec(op)))
    case Assign(l, op, r) => LeftOperand(l, PREC_ASSIGN) + ([AssignToken(op)] + OperandAt(r, PREC_ASSIGN - 1))
    case Comma(l, r) => LeftOperand(l, PREC_COMMA) + ([COMMA] + OperandAt(r, PREC_COMMA))
    case Cond(c, a, b) =>
      LeftOperand(c, PREC_COND) + ([COND] + OperandAt(a, PREC_COND - 1) + ([COLON] + OperandAt(b, PREC_COND - 1)))
    case Send(l, r) => LeftOperand(l, PREC_SEND) + ([SEND] + OperandAt(r, PREC_SEND))
  }

  // ----- Reading back -----

  /** An operand printed for precedence `p` is read back whole, up to a token that binds no tighter. */
  lemma {:induction false} OperandRoundTrip(e: Expr, p: nat, rest: seq<Token>)
    requires NextPrec(rest) <= p <= PREC_UNARY
    ensures ParseExpr(OperandAt(e, p) + rest, p) == Some((e, rest))
    decreases e, 3
  {
    if TopPrec(e) > p {
      PrintThenInfixes(e, p, rest);
    } else {
      ParensRoundTrip(e, rest);
    }
  }

  /** A parenthesised tree is one operand. */
  lemma {:induction false} ParensRoundTrip(e: Expr, rest: seq<Token>)
    ensures ParsePrefix(Parens(Print(e)) + rest) == Some((e, rest))
    decreases e, 2
  {
    hide Print, ParsePrefix, ParseInfix, LeftOperand, OperandAt, RightPrec, TopPrec;
    var inner := [RPAREN] + rest;
    PrintThenInfixes(e, PREC_NONE, inner);
    hide ParseExpr;
    GroupRead(e, Print(e) + inner, rest);
    assert Parens(Print(e)) + rest == [LPAREN] + (Print(e) + inner);
  }

  lemma GroupRead(e: Expr, ts: seq<Token>, rest: seq<Token>)
    requires ParseExpr(ts, PREC_NONE) == Some((e, [RPAREN] + rest))
    ensures ParsePrefix([LPAREN] + ts) == Some((e, rest))
  {
    hide ParseExpr;
    assert ([LPAREN] + ts)[1..] == ts;
    assert ([RPAREN] + rest)[1..] == rest;
  }

  /** A left operand is read back, and parsing goes on with the operator behind it. */
  lemma {:induction false} LeftThenInfixes(l: Expr, q: nat, p: nat, tail: seq<Token>)
    requires p < q == NextPrec(tail)
    ensures ParseExpr(LeftOperand(l, q) + tail, p) == ParseInfixes(l, tail, p)
    decreases l, 3
  {
    if RightPrec(l) >= q {
      PrintThenInfixes(l, p, tail);
    } else {
      ParensRoundTrip(l, tail);
    }
  }

  /** The printed form of a tree, read at a precedence below its own operator, yields the tree and
      goes on with what follows. */
  lemma {:induction false} PrintThenInfixes(e: Expr, p: nat, rest: seq<Token>)
    requires p < TopPrec(e) && NextPrec(rest) <= RightPrec(e)
    ensures ParseExpr(Print(e) + rest, p) == ParseInfixes(e, rest, p)
    decreases e, 1
  {
    hide ParseExpr, ParsePrefix, ParseInfixes, ParseInfix, LeftOperand, OperandAt;
    match e
    case Num(n) => OneToken(NUMBER(n), p, rest);
    case Char(c) => OneToken(CHAR(c), p, rest);
    case Var(x) => OneToken(VARIABLE(x), p, rest);
    case Port(x) => OneToken(PORT(x), p, rest);
    case Unary(op, x) =>
      OperandRoundTrip(x, PREC_UNARY, rest);
      PrefixRead(UnaryToken(op), x, e, p, rest);
    case PreStep(up, x) =>
      OperandRoundTrip(x, PREC_UNARY, rest);
      PrefixRead(if up then INC else DEC, x, e, p, rest);
    case _ => InfixThenInfixes(e, p, rest);
  }

  lemma {:induction false} InfixThenInfixes(e: Expr, p: nat, rest: seq<Token>)
    requires p < TopPrec(e) <= PREC_UNARY && NextPrec(rest) <= RightPrec(e)
    ensures ParseExpr(Print(e) + rest, p) == ParseInfixes(e, rest, p)
    decreases e, 0
  {
    hide ParseExpr, ParsePrefix, ParseInfixes, ParseInfix, LeftOperand, OperandAt;
    match e {
      case PostStep(x, up) =>
        LeftThenInfixes(x, PREC_UNARY, p, [if up then INC else DEC] + rest);
        assert [] + rest == rest;
        assert [if up then INC else DEC] + [] == [if up then INC else DEC];
        InfixRead(x, if up then INC else DEC, [], e, p, rest);
      case Binary(l, op, r) =>
        LeftThenInfixes(l, InfixPrec(op), p, [INFIX(op)] + (OperandAt(r, InfixPrec(op)) + rest));
        OperandRoundTrip(r, InfixPrec(op), rest);
        InfixRead(l, INFIX(op), OperandAt(r, InfixPrec(op)), e, p, rest);
      case Assign(l, op, r) =>
        LeftThenInfixes(l, PREC_ASSIGN, p, [AssignToken(op)] + (OperandAt(r, PREC_ASSIGN - 1) + rest));
        OperandRoundTrip(r, PREC_ASSIGN - 1, rest);
        InfixRead(l, AssignToken(op), OperandAt(r, PREC_ASSIGN - 1), e, p, rest);
      case Comma(l, r) =>
        LeftThenInfixes(l, PREC_COMMA, p, [COMMA] + (OperandAt(r, PREC_COMMA) + rest));
        OperandRoundTrip(r, PREC_COMMA, rest);
        InfixRead(l, COMMA, OperandAt(r, PREC_COMMA), e, p, rest);
      case Cond(c, a, b) =>
        var between := [COLON] + (OperandAt(b, PREC_COND - 1) + rest);
        LeftThenInfixes(c, PREC_COND, p, [COND] + (OperandAt(a, PREC_COND - 1) + between));
        OperandRoundTrip(a, PREC_COND - 1, between);
        OperandRoundTrip(b, PREC_COND - 1, rest);
        CondRead(c, a, b, p, rest);
      case Send(l, r) =>
        LeftThenInfixes(l, PREC_SEND, p, [SEND] + (OperandAt(r, PREC_SEND) + rest));
        OperandRoundTrip(r, PREC_SEND, rest);
        InfixRead(l, SEND, OperandAt(r, PREC_SEND), e, p, rest);
    }
  }

  lemma OneToken(t: Token, p: nat, rest: seq<Token>)
    requires Operand(t).Some?
    ensures ParseExpr([t] + rest, p) == ParseInfixes(Operand(t).value, rest, p)
  {
    assert ([t] + rest)[1..] == rest;
  }

  lemma PrefixRead(t: Token, x: Expr, e: Expr, p: nat, rest: seq<Token>)
    requires ParseExpr(OperandAt(x, PREC_UNARY) + rest, PREC_UNARY) == Some((x, rest))
    requires Prefixed(t, x) == Some(e)
    ensures ParseExpr([t] + OperandAt(x, PREC_UNARY) + rest, p) == ParseInfixes(e, rest, p)
  {
    hide OperandAt, ParseInfixes;
    assert ([t] + OperandAt(x, PREC_UNARY) + rest)[1..] == OperandAt(x, PREC_UNARY) + rest;
  }

  /** What an infix operator with (at most) one right operand makes of it. */
  predicate Infixed(l: Expr, t: Token, r: seq<Token>, e: Expr, rest: seq<Token>) {
    match e
    case PostStep(x, up) => x == l && t == (if up then INC else DEC) && r == []
    case Binary(x, op, y) => x == l && t == INFIX(op) && ParseExpr(r + rest, InfixPrec(op)) == Some((y, rest))
    case Assign(x, op, y) => x == l && t == AssignToken(op) && ParseExpr(r + rest, PREC_ASSIGN - 1) == Some((y, rest))
    case Comma(x, y) => x == l && t == COMMA && ParseExpr(r + rest, PREC_COMMA) == Some((y, rest))
    case Send(x, y) => x == l && t == SEND && ParseExpr(r + rest, PREC_SEND) == Some((y, rest))
    case _ => false
  }

  lemma InfixRead(l: Expr, t: Token, r: seq<Token>, e: Expr, p: nat, rest: seq<Token>)
    requires Infixed(l, t, r, e, rest) && p < TokenPrec(t)
    requires ParseExpr(LeftOperand(l, TokenPrec(t)) + ([t] + (r + rest)), p) == ParseInfixes(l, [t] + (r + rest), p)
    ensures ParseExpr(LeftOperand(l, TokenPrec(t)) + ([t] + r) + rest, p) == ParseInfixes(e, rest, p)
  {
    hide ParseExpr, LeftOperand, OperandAt;
    var tail := [t] + (r + rest);
    assert LeftOperand(l, TokenPrec(t)) + ([t] + r) + rest == LeftOperand(l, TokenPrec(t)) + tail;
    assert tail[1..] == r + rest;
    assert r == [] ==> r + rest == rest;
    InfixStep(l, tail, p, e, rest);
  }

  lemma CondRead(c: Expr, a: Expr, b: Expr, p: nat, rest: seq<Token>)
    requires p < PREC_COND
    requires var q := PREC_COND - 1;
             var between := [COLON] + (OperandAt(b, q) + rest);
             && ParseExpr(OperandAt(b, q) + rest, q) == Some((b, rest))
             && ParseExpr(OperandAt(a, q) + between, q) == Some((a, between))
             && ParseExpr(LeftOperand(c, PREC_COND) + ([COND] + (OperandAt(a, q) + between)), p)
                == ParseInfixes(c, [COND] + (OperandAt(a, q) + between), p)
    ensures ParseExpr(Print(Cond(c, a, b)) + rest, p) == ParseInfixes(Cond(c, a, b), rest, p)
  {
    hide ParseExpr, LeftOperand, OperandAt;
    var q := PREC_COND - 1;
    var between := [COLON] + (OperandAt(b, q) + rest);
    var tail := [COND] + (OperandAt(a, q) + between);
    assert Print(Cond(c, a, b)) + rest == LeftOperand(c, PREC_COND) + tail;
    assert tail[1..] == OperandAt(a, q) + between;
    assert between[1..] == OperandAt(b, q) + rest;
    InfixStep(c, tail, p, Cond(c, a, b), rest);
  }

  lemma InfixStep(left: Expr, tail: seq<Token>, p: nat, e: Expr, rest: seq<Token>)
    requires p < NextPrec(tail) && ParseInfix(left, tail) == Some((e, rest))
    ensures ParseInfixes(left, tail, p) == ParseInfixes(e, rest, p)
  {
  }

  /** Reading back an expression written for the lowest precedence (compiler.c:737-767): exactly its
      tokens are consumed and exactly its tree results. */
  lemma ExprRoundTrip(e: Expr, rest: seq<Token>)
    requires NextPrec(rest) == PREC_NONE
    ensures ParseExpr(Print(e) + rest, PREC_NONE) == Some((e, rest))
  {
    OperandRoundTrip(e, PREC_NONE, rest);
  }

  // ----- Statements -----

  function PrintStmt(s: Stmt): (ts: seq<Token>)
    ensures ts != []
    decreases s, 1
  {
    match s
    case Empty => [SEMICOLON]
    case ExprStmt(e) => Print(e) + [SEMICOLON]
    case Skip => [LBRACE] + PrintChain(s)
    case Seq(_, _) => [LBRACE] + PrintChain(s)
    case If(e, a) => [IF, LPAREN] + (Print(e) + ([RPAREN] + PrintStmt(a)))
    case IfElse(e, a, b) => [IF, LPAREN] + (Print(e) + ([RPAREN] + (PrintStmt(a) + ([ELSE] + PrintStmt(b)))))
    case While(e, a) => [WHILE, LPAREN] + (Print(e) + ([RPAREN] + PrintStmt(a)))
    case For(i, c, p, a) =>
      [FOR, LPAREN] + (Print(i) + ([SEMICOLON] + (Print(c) + ([SEMICOLON] + (Print(p) + ([RPAREN] + PrintStmt(a)))))))
    case Do(a, e) => [DO] + (PrintStmt(a) + ([WHILE, LPAREN] + (Print(e) + [RPAREN, SEMICOLON])))
    case Break => [BREAK, SEMICOLON]
    case Continue => [CONTINUE, SEMICOLON]
    case Goto(x) => [GOTO, IDENTIFIER(x), SEMICOLON]
    case Label(x) => [IDENTIFIER(x), COLON]
    case Halt => [HALT, SEMICOLON]
  }

  /** The statements of a chain and the closing brace. */
  function PrintChain(s: Stmt): (ts: seq<Token>)
    ensures ts != []
    decreases s, 0
  {
    match s
    case Seq(a, b) => PrintStmt(a) + PrintChain(b)
    case _ => [RBRACE]
  }

  /** The statement ends in an `if` that would take a following `else` for itself. */
  predicate EndsOpen(s: Stmt) {
    match s
    case If(_, _) => true
    case IfElse(_, _, b) => EndsOpen(b)
    case While(_, a) => EndsOpen(a)
    case For(_, _, _, a) => EndsOpen(a)
    case _ => false
  }

  /** The trees that have a token list: blocks are chains, and the `else` of an `if` stands at the
      nearest `if`. */
  predicate Readable(s: Stmt) {
    match s
    case Seq(a, b) => Readable(a) && IsChain(b) && Readable(b)
    case If(_, a) => Readable(a)
    case IfElse(_, a, b) => Readable(a) && !EndsOpen(a) && Readable(b)
    case While(_, a) => Readable(a)
    case For(_, _, _, a) => Readable(a)
    case Do(a, _) => Readable(a)
    case _ => true
  }

  lemma {:induction false} ExprStart(e: Expr)
    ensures StartsExpr(Print(e)[0])
  {
    match e
    case PostStep(x, _) => ExprStart(x);
    case Binary(l, _, _) => ExprStart(l);
    case Assign(l, _, _) => ExprStart(l);
    case Comma(l, _) => ExprStart(l);
    case Cond(c, _, _) => ExprStart(c);
    case Send(l, _) => ExprStart(l);
    case _ =>
  }

  lemma StmtStart(s: Stmt)
    ensures PrintStmt(s)[0] != RBRACE && PrintStmt(s)[0] != ELSE
  {
    if s.ExprStmt? {
      ExprStart(s.e);
    }
  }

  /** An expression and the token expected behind it. */
  lemma ExprThen(e: Expr, t: Token, rest: seq<Token>)
    requires TokenPrec(t) == PREC_NONE
    ensures ParseExprThen(Print(e) + ([t] + rest), t) == Some((e, rest))
  {
    hide ParseExpr;
    ExprRoundTrip(e, [t] + rest);
    assert ([t] + rest)[1..] == rest;
  }

  lemma {:induction false} ChainRoundTrip(s: Stmt, rest: seq<Token>)
    requires IsChain(s) && Readable(s)
    ensures ParseBlock(PrintChain(s) + rest) == Some((s, rest))
    decreases s, 0
  {
    hide ParseStmt, PrintStmt;
    var ts := PrintChain(s) + rest;
    if s.Seq? {
      var after := PrintChain(s.rest) + rest;
      assert ts == PrintStmt(s.first) + after;
      StmtStart(s.first);
      if s.rest.Seq? {
        StmtStart(s.rest.first);
      }
      StmtRoundTrip(s.first, after);
      ChainRoundTrip(s.rest, rest);
    } else {
      assert ts[1..] == rest;
    }
  }

  lemma {:induction false} IfRoundTrip(s: Stmt, rest: seq<Token>)
    requires s.If? && Readable(s) && (EndsOpen(s) ==> !Next(rest, ELSE))
    ensures ParseStmt(PrintStmt(s) + rest) == Some((s, rest))
    decreases s, 0
  {
    hide ParseExpr, ParseExprThen, Print;
    var ts := PrintStmt(s) + rest;
    var e, a := s.e, s.then_;
    ExprThen(e, RPAREN, PrintStmt(a) + rest);
    assert ts[2..] == Print(e) + ([RPAREN] + (PrintStmt(a) + rest));
    StmtRoundTrip(a, rest);
  }

  lemma IfElsePrinted(s: Stmt, rest: seq<Token>, otherwise: seq<Token>)
    requires s.IfElse? && otherwise == [ELSE] + (PrintStmt(s.else_) + rest)
    ensures var ts := PrintStmt(s) + rest;
            |ts| > 2 && ts[0] == IF && ts[1] == LPAREN && ts[2..] == Print(s.e) + ([RPAREN] + (PrintStmt(s.then_) + otherwise))
  {
    hide Print;
  }

  lemma {:induction false} IfElseRoundTrip(s: Stmt, rest: seq<Token>)
    requires s.IfElse? && Readable(s) && (EndsOpen(s) ==> !Next(rest, ELSE))
    ensures ParseStmt(PrintStmt(s) + rest) == Some((s, rest))
    decreases s, 0
  {
    hide ParseExpr, ParseExprThen, Print;
    var ts := PrintStmt(s) + rest;
    var e, a, b := s.e, s.then_, s.else_;
    var otherwise := [ELSE] + (PrintStmt(b) + rest);
    IfElsePrinted(s, rest, otherwise);
    ExprThen(e, RPAREN, PrintStmt(a) + otherwise);
    StmtRoundTrip(a, otherwise);
    assert otherwise[1..] == PrintStmt(b) + rest;
    StmtRoundTrip(b, rest);
    hide PrintStmt, Readable, EndsOpen, ParseBlock;
  }

  lemma {:induction false} WhileRoundTrip(s: Stmt, rest: seq<Token>)
    requires s.While? && Readable(s) && (EndsOpen(s) ==> !Next(rest, ELSE))
    ensures ParseStmt(PrintStmt(s) + rest) == Some((s, rest))
    decreases s, 0
  {
    hide ParseExpr, ParseExprThen, Print;
    var ts := PrintStmt(s) + rest;
    var e, a := s.e, s.body;
    ExprThen(e, RPAREN, PrintStmt(a) + rest);
    assert ts[2..] == Print(e) + ([RPAREN] + (PrintStmt(a) + rest));
    StmtRoundTrip(a, rest);
  }

  lemma ForPrinted(s: Stmt, rest: seq<Token>, t0: seq<Token>, t1: seq<Token>, t2: seq<Token>)
    requires s.For? && t2 == PrintStmt(s.body) + rest
    requires t1 == Print(s.post) + ([RPAREN] + t2) && t0 == Print(s.e) + ([SEMICOLON] + t1)
    ensures var ts := PrintStmt(s) + rest;
            |ts| > 2 && ts[0] == FOR && ts[1] == LPAREN && ts[2..] == Print(s.init) + ([SEMICOLON] + t0)
  {
    hide Print;
  }

  lemma {:induction false} ForRoundTrip(s: Stmt, rest: seq<Token>)
    requires s.For? && Readable(s) && (EndsOpen(s) ==> !Next(rest, ELSE))
    ensures ParseStmt(PrintStmt(s) + rest) == Some((s, rest))
    decreases s, 0
  {
    hide ParseExpr, ParseExprThen, Print;
    var ts := PrintStmt(s) + rest;
    var i, c, p, a := s.init, s.e, s.post, s.body;
    var t2 := PrintStmt(a) + rest;
    var t1 := Print(p) + ([RPAREN] + t2);
    var t0 := Print(c) + ([SEMICOLON] + t1);
    ForPrinted(s, rest, t0, t1, t2);
    ExprThen(i, SEMICOLON, t0);
    ExprThen(c, SEMICOLON, t1);
    ExprThen(p, RPAREN, t2);
    StmtRoundTrip(a, rest);
    hide PrintStmt, Readable, EndsOpen;
  }

  lemma DoPrinted(s: Stmt, rest: seq<Token>, test: seq<Token>)
    requires s.Do? && test == [WHILE, LPAREN] + (Print(s.e) + ([RPAREN] + ([SEMICOLON] + rest)))
    ensures var ts := PrintStmt(s) + rest;
            ts[0] == DO && ts[1..] == PrintStmt(s.body) + test
  {
    hide Print;
  }

  lemma {:induction false} DoRoundTrip(s: Stmt, rest: seq<Token>)
    requires s.Do? && Readable(s) && (EndsOpen(s) ==> !Next(rest, ELSE))
    ensures ParseStmt(PrintStmt(s) + rest) == Some((s, rest))
    decreases s, 0
  {
    hide ParseExpr, ParseExprThen, Print;
    var ts := PrintStmt(s) + rest;
    var a, e := s.body, s.e;
    var test := [WHILE, LPAREN] + (Print(e) + ([RPAREN] + ([SEMICOLON] + rest)));
    DoPrinted(s, rest, test);
    StmtRoundTrip(a, test);
    hide PrintStmt, Readable, EndsOpen, ParseBlock;
    assert test[2..] == Print(e) + ([RPAREN] + ([SEMICOLON] + rest));
    ExprThen(e, RPAREN, [SEMICOLON] + rest);
    assert ([SEMICOLON] + rest)[1..] == rest;
  }

  lemma ExprStmtRoundTrip(s: Stmt, rest: seq<Token>)
    requires s.ExprStmt?
    ensures ParseStmt(PrintStmt(s) + rest) == Some((s, rest))
  {
    hide ParseExpr, ParseExprThen, Print;
    ExprStart(s.e);
    assert PrintStmt(s) + rest == Print(s.e) + ([SEMICOLON] + rest);
    ExprThen(s.e, SEMICOLON, rest);
  }

  lemma ShortRoundTrip(s: Stmt, rest: seq<Token>)
    requires s.Empty? || s.Break? || s.Continue? || s.Goto? || s.Label? || s.Halt?
    ensures ParseStmt(PrintStmt(s) + rest) == Some((s, rest))
  {
    hide ParseExpr, ParseExprThen, Print, ParseBlock;
    var ts := PrintStmt(s) + rest;
    assert ts[|PrintStmt(s)|..] == rest;
  }

  lemma ChainPrinted(s: Stmt)
    requires IsChain(s)
    ensures PrintStmt(s) == [LBRACE] + PrintChain(s)
  {
    hide PrintChain;
  }

  lemma {:induction false} BlockRoundTrip(s: Stmt, rest: seq<Token>)
    requires IsChain(s) && Readable(s)
    ensures ParseStmt(PrintStmt(s) + rest) == Some((s, rest))
    decreases s, 1
  {
    hide ParseExpr, ParseExprThen, Print, ParseBlock, PrintStmt, PrintChain, Readable;
    ChainPrinted(s);
    ChainRoundTrip(s, rest);
    assert (PrintStmt(s) + rest)[1..] == PrintChain(s) + rest;
  }

  /** Parsing reads every readable statement back as itself, consuming exactly its tokens. */
  lemma {:induction false} StmtRoundTrip(s: Stmt, rest: seq<Token>)
    requires Readable(s) && (EndsOpen(s) ==> !Next(rest, ELSE))
    ensures ParseStmt(PrintStmt(s) + rest) == Some((s, rest))
    decreases s, 2
  {
    hide ParseStmt, PrintStmt;
    match s {
      case ExprStmt(_) => ExprStmtRoundTrip(s, rest);
      case Skip => BlockRoundTrip(s, rest);
      case Seq(_, _) => BlockRoundTrip(s, rest);
      case If(_, _) => IfRoundTrip(s, rest);
      case IfElse(_, _, _) => IfElseRoundTrip(s, rest);
      case While(_, _) => WhileRoundTrip(s, rest);
      case For(_, _, _, _) => ForRoundTrip(s, rest);
      case Do(_, _) => DoRoundTrip(s, rest);
      case _ => ShortRoundTrip(s, rest);
    }
  }

  /** ... and whatever parses is readable: an `else` always went to the nearest `if`. */
  lemma {:induction false} ParsedIsReadable(ts: seq<Token>)
    ensures ParseStmt(ts).Some? ==>
              Readable(ParseStmt(ts).value.0) && (EndsOpen(ParseStmt(ts).value.0) ==> !Next(ParseStmt(ts).value.1, ELSE))
    decreases |ts|, 2
  {
    hide ParseExpr, ParseExprThen, ParseBlock;
    if ParseStmt(ts).Some? {
      match ts[0] {
        case LBRACE => ParsedBlockIsReadable(ts[1..]);
        case IF => ParsedIfIsReadable(ts);
        case WHILE => ParsedIsReadable(ParseExprThen(ts[2..], RPAREN).value.1);
        case FOR => ParsedForIsReadable(ts);
        case DO => ParsedIsReadable(ts[1..]);
        case _ =>
      }
    }
  }

  lemma {:induction false} ParsedIfIsReadable(ts: seq<Token>)
    requires Next(ts, IF) && ParseStmt(ts).Some?
    ensures Readable(ParseStmt(ts).value.0) && (EndsOpen(ParseStmt(ts).value.0) ==> !Next(ParseStmt(ts).value.1, ELSE))
    decreases |ts|, 0
  {
    hide ParseExpr, ParseExprThen, ParseBlock;
    var rest := ParseExprThen(ts[2..], RPAREN).value.1;
    ParsedIsReadable(rest);
    if Next(ParseStmt(rest).value.1, ELSE) {
      ParsedIsReadable(ParseStmt(rest).value.1[1..]);
    }
  }

  lemma {:induction false} ParsedForIsReadable(ts: seq<Token>)
    requires Next(ts, FOR) && ParseStmt(ts).Some?
    ensures Readable(ParseStmt(ts).value.0) && (EndsOpen(ParseStmt(ts).value.0) ==> !Next(ParseStmt(ts).value.1, ELSE))
    decreases |ts|, 0
  {
    hide ParseExpr, ParseExprThen, ParseBlock;
    var r0 := ParseExprThen(ts[2..], SEMICOLON).value.1;
    var r1 := ParseExprThen(r0, SEMICOLON).value.1;
    ParsedIsReadable(ParseExprThen(r1, RPAREN).value.1);
  }

  lemma {:induction false} ParsedBlockIsReadable(ts: seq<Token>)
    ensures ParseBlock(ts).Some? ==> Readable(ParseBlock(ts).value.0)
    decreases |ts|, 3
  {
    hide ParseStmt;
    if !Next(ts, RBRACE) && ParseStmt(ts).Some? {
      ParsedIsReadable(ts);
      ParsedBlockIsReadable(ParseStmt(ts).value.1);
    }
  }

  /** A processor body written out is read back whole (compiler.c:1023). */
  lemma BodyRoundTrip(s: Stmt, rest: seq<Token>)
    requires IsChain(s) && Readable(s)
    ensures ParseBody(PrintStmt(s) + rest) == Some((s, rest))
  {
    hide ParseBlock, ParseStmt, PrintStmt, PrintChain, Readable, IsChain;
    ChainPrinted(s);
    ChainRoundTrip(s, rest);
    assert (PrintStmt(s) + rest)[1..] == PrintChain(s) + rest;
  }
}
