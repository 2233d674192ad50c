/** A whole program as noded reads it twice: the pass that only skips declarations and counts them
    (noded.c:60-123, noded.c:314-345), and why it sees the same declarations as the pass that compiles. */
module Declarations {
  import opened Wrappers
  import opened Bytes
  import opened Syntax
  import opened Pratt
  import opened Printer

  datatype Decl =
    | Processor(name: string, body: Stmt)
    | Copy(name: string, source: string)
    | BufferOf(name: string, text: seq<byte>)
    | StackOf(name: string)
    | WireOf(node1: string, port1: string, node2: string, port2: string)

  predicate Named(ts: seq<Token>, k: nat) {
    k < |ts| && ts[k].IDENTIFIER?
  }

  predicate At(ts: seq<Token>, k: nat, t: Token) {
    k < |ts| && ts[k] == t
  }

  predicate IsCopy(ts: seq<Token>) {
    At(ts, 0, PROCESSOR) && Named(ts, 1) && At(ts, 2, ASSIGN) && Named(ts, 3) && At(ts, 4, SEMICOLON)
  }

  predicate IsBuffer(ts: seq<Token>) {
    At(ts, 0, BUFFER) && Named(ts, 1) && At(ts, 2, ASSIGN) && |ts| > 3 && ts[3].STRING? && At(ts, 4, SEMICOLON)
  }

  predicate IsStack(ts: seq<Token>) {
    At(ts, 0, STACK) && Named(ts, 1) && At(ts, 2, SEMICOLON)
  }

  predicate IsWire(ts: seq<Token>) {
    && Named(ts, 0) && At(ts, 1, PERIOD) && Named(ts, 2) && At(ts, 3, WIRE)
    && Named(ts, 4) && At(ts, 5, PERIOD) && Named(ts, 6) && At(ts, 7, SEMICOLON)
  }

  predicate IsProcessor(ts: seq<Token>) {
    At(ts, 0, PROCESSOR) && Named(ts, 1) && At(ts, 2, LBRACE)
  }

  /** One declaration and the tokens behind it. */
  function ParseDecl(ts: seq<Token>): (r: Parsed<Decl>)
    ensures r.Some? ==> |r.value.1| < |ts|
  {
    if IsProcessor(ts) then
      match ParseBody(ts[2..])
      case None => None
      case Some((body, rest)) => Some((Processor(ts[1].name, body), rest))
    else if IsCopy(ts) then Some((Copy(ts[1].name, ts[3].name), ts[5..]))
    else if IsBuffer(ts) then Some((BufferOf(ts[1].name, ts[3].text), ts[5..]))
    else if IsStack(ts) then Some((StackOf(ts[1].name), ts[3..]))
    else if IsWire(ts) then Some((WireOf(ts[0].name, ts[2].name, ts[4].name, ts[6].name), ts[8..]))
    else None
  }

  // ----- The skipping pass -----

  /** The loop of skip_processor (noded.c:72-84): how it leaves the tokens, inside `depth` braces. */
  function SkipBraces(ts: seq<Token>, depth: int): (r: Option<seq<Token>>)
    ensures r.Some? ==> |r.value| < |ts|
    decreases |ts|
  {
    if ts == [] then None else
    var d := if ts[0] == LBRACE then depth + 1 else if ts[0] == RBRACE then depth - 1 else depth;
    if d > 0 then SkipBraces(ts[1..], d) else Some(ts[1..])
  }

  function SkipDecl(ts: seq<Token>): (r: Option<seq<Token>>)
    ensures r.Some? ==> |r.value| < |ts|
  {
    if IsProcessor(ts) then SkipBraces(ts[2..], 0)
    else if IsCopy(ts) || IsBuffer(ts) then Some(ts[5..])
    else if IsStack(ts) then Some(ts[3..])
    else if IsWire(ts) then Some(ts[8..])
    else None
  }

  /** Nodes and wires. */
  datatype Counts = Counts(nodes: nat, wires: nat)

  function Counted(ts: seq<Token>, c: Counts): Counts
    requires ts != []
  {
    if ts[0].IDENTIFIER? then c.(wires := c.wires + 1) else c.(nodes := c.nodes + 1)
  }

  /** The first pass over the tokens `ts`, behind what is counted in `c`. */
  function Count(ts: seq<Token>, c: Counts): Option<Counts>
    decreases |ts|
  {
    if ts == [] then Some(c) else
    match SkipDecl(ts)
    case None => None
    case Some(rest) => Count(rest, Counted(ts, c))
  }

  lemma {:induction false} CountGrows(ts: seq<Token>, c: Counts)
    requires Count(ts, c).Some?
    ensures c.nodes <= Count(ts, c).value.nodes && c.wires <= Count(ts, c).value.wires
    decreases |ts|
  {
    hide SkipDecl;
    if ts != [] {
      CountGrows(SkipDecl(ts).value, Counted(ts, c));
    }
  }

  /** skip_processor (noded.c:60-93), behind the name, at the opening brace. */
  method SkipBlock(toks: seq<Token>) returns (ok: bool, rest: seq<Token>)
    requires toks != []
    ensures ok <==> SkipBraces(toks, 0).Some?
    ensures ok ==> Some(rest) == SkipBraces(toks, 0)
  {
    ok, rest := true, toks;
    var depth: int := 0;
    var again := true;
    while again
      invariant again ==> SkipBraces(toks, 0) == SkipBraces(rest, depth)
      invariant !again ==> SkipBraces(toks, 0) == Some(rest)
      decreases |rest|, again
    {
      if rest == [] {
        return false, [];
      }
      var tok := rest[0];
      rest := rest[1..];
      match tok {
        case LBRACE => depth := depth + 1;
        case RBRACE => depth := depth - 1;
        case _ =>
      }
      again := depth > 0;
    }
  }

  /** The first pass of main (noded.c:314-345). */
  method CountPass(toks: seq<Token>) returns (ok: bool, nnodes: nat, nwires: nat)
    ensures ok <==> Count(toks, Counts(1, 0)).Some?
    ensures ok ==> Count(toks, Counts(1, 0)) == Some(Counts(nnodes, nwires))
  {
    hide SkipBraces, IsProcessor, IsCopy, IsBuffer, IsStack, IsWire;
    nnodes, nwires := 1, 0;
    var ts := toks;
    while ts != []
      invariant Count(toks, Counts(1, 0)) == Count(ts, Counts(nnodes, nwires))
      decreases |ts|
    {
      var rest;
      ok, rest := SkipOne(ts);
      if !ok {
        return;
      }
      if ts[0].IDENTIFIER? {
        nwires := nwires + 1;
      } else {
        nnodes := nnodes + 1;
      }
      ts := rest;
    }
    ok := true;
  }

  /** skip_processor, skip_buffer, skip_stack or skip_wire (noded.c:60-123). */
  method SkipOne(toks: seq<Token>) returns (ok: bool, rest: seq<Token>)
    requires toks != []
    ensures ok <==> SkipDecl(toks).Some?
    ensures ok ==> Some(rest) == SkipDecl(toks)
  {
    hide SkipBraces;
    ok, rest := false, toks;
    match toks[0] {
      case PROCESSOR =>
        if Named(toks, 1) && At(toks, 2, ASSIGN) {
          if Named(toks, 3) && At(toks, 4, SEMICOLON) {
            ok, rest := true, toks[5..];
          }
        } else if Named(toks, 1) && At(toks, 2, LBRACE) {
          ok, rest := SkipBlock(toks[2..]);
        }
      case BUFFER =>
        if IsBuffer(toks) {
          ok, rest := true, toks[5..];
        }
      case STACK =>
        if IsStack(toks) {
          ok, rest := true, toks[3..];
        }
      case IDENTIFIER(_) =>
        if IsWire(toks) {
          ok, rest := true, toks[8..];
        }
      case _ =>
    }
  }

  // ----- Both passes see the same declarations -----

  lemma SkipNoBrace(ts: seq<Token>, d: nat)
    requires ts != [] && ts[0] != LBRACE && ts[0] != RBRACE && d > 0
    ensures SkipBraces(ts, d) == SkipBraces(ts[1..], d)
  {
  }

  /** The tokens of an expression hold no brace. */
  lemma {:induction false} ExprSkipped(ts: seq<Token>, prec: nat, d: nat)
    requires d > 0 && ParseExpr(ts, prec).Some?
    ensures SkipBraces(ts, d) == SkipBraces(ParseExpr(ts, prec).value.1, d)
    decreases |ts|, 2
  {
    hide SkipBraces, ParsePrefix, ParseInfixes;
    PrefixSkipped(ts, d);
    var (left, rest) := ParsePrefix(ts).value;
    InfixesSkipped(left, rest, prec, d);
  }

  lemma {:induction false} PrefixSkipped(ts: seq<Token>, d: nat)
    requires d > 0 && ParsePrefix(ts).Some?
    ensures SkipBraces(ts, d) == SkipBraces(ParsePrefix(ts).value.1, d)
    decreases |ts|, 1
  {
    hide SkipBraces, ParseExpr;
    SkipNoBrace(ts, d);
    if Operand(ts[0]).None? {
      if ts[0] == LPAREN {
        ExprSkipped(ts[1..], PREC_NONE, d);
        SkipNoBrace(ParseExpr(ts[1..], PREC_NONE).value.1, d);
      } else {
        ExprSkipped(ts[1..], PREC_UNARY, d);
      }
    }
  }

  lemma {:induction false} InfixesSkipped(left: Expr, ts: seq<Token>, prec: nat, d: nat)
    requires d > 0 && ParseInfixes(left, ts, prec).Some?
    ensures SkipBraces(ts, d) == SkipBraces(ParseInfixes(left, ts, prec).value.1, d)
    decreases |ts|, 1
  {
    hide SkipBraces, ParseInfix;
    if prec < NextPrec(ts) {
      InfixSkipped(left, ts, d);
      var (e, rest) := ParseInfix(left, ts).value;
      InfixesSkipped(e, rest, prec, d);
    }
  }

  lemma {:induction false} InfixSkipped(left: Expr, ts: seq<Token>, d: nat)
    requires d > 0 && NextPrec(ts) > PREC_NONE && ParseInfix(left, ts).Some?
    ensures SkipBraces(ts, d) == SkipBraces(ParseInfix(left, ts).value.1, d)
    decreases |ts|, 0
  {
    hide SkipBraces, ParseExpr;
    SkipNoBrace(ts, d);
    var t := ts[0];
    if t.COND? {
      ExprSkipped(ts[1..], PREC_COND - 1, d);
      var rest := ParseExpr(ts[1..], PREC_COND - 1).value.1;
      SkipNoBrace(rest, d);
      ExprSkipped(rest[1..], PREC_COND - 1, d);
    } else if !t.INC? && !t.DEC? {
      ExprSkipped(ts[1..], RightOperandPrec(t), d);
    }
  }

  lemma ExprThenSkipped(ts: seq<Token>, t: Token, d: nat)
    requires d > 0 && t != LBRACE && t != RBRACE && ParseExprThen(ts, t).Some?
    ensures SkipBraces(ts, d) == SkipBraces(ParseExprThen(ts, t).value.1, d)
  {
    hide SkipBraces, ParseExpr;
    ExprSkipped(ts, PREC_NONE, d);
    SkipNoBrace(ParseExpr(ts, PREC_NONE).value.1, d);
  }

  lemma SkipTwo(ts: seq<Token>, d: nat)
    requires d > 0 && |ts| >= 2
    requires ts[0] != LBRACE && ts[0] != RBRACE && ts[1] != LBRACE && ts[1] != RBRACE
    ensures SkipBraces(ts, d) == SkipBraces(ts[1..], d) == SkipBraces(ts[2..], d)
  {
    hide SkipBraces;
    SkipNoBrace(ts, d);
    SkipNoBrace(ts[1..], d);
    assert ts[1..][1..] == ts[2..];
  }

  /** The braces of a statement match, and none closes more than it opened. */
  lemma {:induction false} StmtSkipped(ts: seq<Token>, d: nat)
    requires d > 0 && ParseStmt(ts).Some?
    ensures SkipBraces(ts, d) == SkipBraces(ParseStmt(ts).value.1, d)
    decreases |ts|, 3
  {
    hide SkipBraces, ParseExpr, ParseExprThen, ParseBlock;
    var t := ts[0];
    match t {
      case LBRACE => BlockSkipped(ts, d);
      case IF => IfSkipped(ts, d);
      case FOR => ForSkipped(ts, d);
      case WHILE =>
        SkipTwo(ts, d);
        ExprThenSkipped(ts[2..], RPAREN, d);
        StmtSkipped(ParseExprThen(ts[2..], RPAREN).value.1, d);
      case DO => DoSkipped(ts, d);
      case GOTO =>
        SkipTwo(ts, d);
        SkipNoBrace(ts[2..], d);
        assert ts[2..][1..] == ts[3..];
      case SEMICOLON => SkipNoBrace(ts, d);
      case BREAK => SkipTwo(ts, d);
      case CONTINUE => SkipTwo(ts, d);
      case HALT => SkipTwo(ts, d);
      case IDENTIFIER(_) => SkipTwo(ts, d);
      case _ => ExprThenSkipped(ts, SEMICOLON, d);
    }
  }

  lemma {:induction false} IfSkipped(ts: seq<Token>, d: nat)
    requires d > 0 && ParseStmt(ts).Some? && ts[0] == IF
    ensures SkipBraces(ts, d) == SkipBraces(ParseStmt(ts).value.1, d)
    decreases |ts|, 0
  {
    hide SkipBraces, ParseExpr, ParseExprThen, ParseBlock;
    SkipTwo(ts, d);
    ExprThenSkipped(ts[2..], RPAREN, d);
    var rest := ParseExprThen(ts[2..], RPAREN).value.1;
    StmtSkipped(rest, d);
    var rest' := ParseStmt(rest).value.1;
    if Next(rest', ELSE) {
      SkipNoBrace(rest', d);
      StmtSkipped(rest'[1..], d);
    }
  }

  lemma {:induction false} ForSkipped(ts: seq<Token>, d: nat)
    requires d > 0 && ParseStmt(ts).Some? && ts[0] == FOR
    ensures SkipBraces(ts, d) == SkipBraces(ParseStmt(ts).value.1, d)
    decreases |ts|, 0
  {
    hide SkipBraces, ParseExpr, ParseExprThen, ParseBlock;
    SkipTwo(ts, d);
    var r0 := ParseExprThen(ts[2..], SEMICOLON).value.1;
    var r1 := ParseExprThen(r0, SEMICOLON).value.1;
    var r2 := ParseExprThen(r1, RPAREN).value.1;
    ExprThenSkipped(ts[2..], SEMICOLON, d);
    ExprThenSkipped(r0, SEMICOLON, d);
    ExprThenSkipped(r1, RPAREN, d);
    StmtSkipped(r2, d);
  }

  lemma {:induction false} DoSkipped(ts: seq<Token>, d: nat)
    requires d > 0 && ParseStmt(ts).Some? && ts[0] == DO
    ensures SkipBraces(ts, d) == SkipBraces(ParseStmt(ts).value.1, d)
    decreases |ts|, 0
  {
    hide SkipBraces, ParseExpr, ParseExprThen, ParseBlock;
    SkipNoBrace(ts, d);
    StmtSkipped(ts[1..], d);
    var rest := ParseStmt(ts[1..]).value.1;
    SkipTwo(rest, d);
    ExprThenSkipped(rest[2..], RPAREN, d);
    SkipNoBrace(ParseExprThen(rest[2..], RPAREN).value.1, d);
  }

  /** A block from its opening brace. */
  lemma {:induction false} BlockSkipped(ts: seq<Token>, d: nat)
    requires Next(ts, LBRACE) && ParseBlock(ts[1..]).Some?
    ensures SkipBraces(ts, d) == if d == 0 then Some(ParseBlock(ts[1..]).value.1) else SkipBraces(ParseBlock(ts[1..]).value.1, d)
    decreases |ts|, 0
  {
    hide ParseBlock;
    ChainSkipped(ts[1..], d + 1);
  }

  /** The statements of a block up to and with its closing brace. */
  lemma {:induction false} ChainSkipped(ts: seq<Token>, d: nat)
    requires d > 0 && ParseBlock(ts).Some?
    ensures SkipBraces(ts, d) == if d == 1 then Some(ParseBlock(ts).value.1) else SkipBraces(ParseBlock(ts).value.1, d - 1)
    decreases |ts|, 4
  {
    hide ParseStmt;
    if !Next(ts, RBRACE) {
      hide SkipBraces;
      StmtSkipped(ts, d);
      ChainSkipped(ParseStmt(ts).value.1, d);
    }
  }

  /** Two-pass agreement, one declaration: whatever the compiling pass accepts, the skipping pass
      accepts, and both consume the same tokens. */
  lemma DeclSkipped(ts: seq<Token>)
    requires ParseDecl(ts).Some?
    ensures SkipDecl(ts) == Some(ParseDecl(ts).value.1)
  {
    hide ParseBlock, SkipBraces;
    if IsProcessor(ts) {
      BlockSkipped(ts[2..], 0);
    }
  }

  /** The declarations of a whole program. */
  function ParseProgram(ts: seq<Token>): Option<seq<Decl>>
    decreases |ts|
  {
    if ts == [] then Some([]) else
    match ParseDecl(ts)
    case None => None
    case Some((d, rest)) =>
      match ParseProgram(rest)
      case None => None
      case Some(ds) => Some([d] + ds)
  }

  function Wires(ds: seq<Decl>): (n: nat)
    ensures n <= |ds|
  {
    if ds == [] then 0 else (if ds[0].WireOf? then 1 else 0) + Wires(ds[1..])
  }

  /** ... and a whole program: the first pass counts exactly the wires and the other declarations. */
  lemma {:induction false} ProgramCounted(ts: seq<Token>, c: Counts)
    requires ParseProgram(ts).Some?
    ensures var ds := ParseProgram(ts).value;
            Count(ts, c) == Some(Counts(c.nodes + |ds| - Wires(ds), c.wires + Wires(ds)))
    decreases |ts|
  {
    hide SkipDecl, ParseDecl;
    if ts != [] {
      DeclSkipped(ts);
      var (d, rest) := ParseDecl(ts).value;
      DeclKind(ts);
      ProgramCounted(rest, Counted(ts, c));
      var ds := ParseProgram(ts).value;
      assert ds[0] == d && ds[1..] == ParseProgram(rest).value;
    }
  }

  lemma DeclKind(ts: seq<Token>)
    requires ParseDecl(ts).Some?
    ensures ts != [] && (ParseDecl(ts).value.0.WireOf? <==> ts[0].IDENTIFIER?)
  {
    hide ParseBody;
  }

  // ----- Reading back -----

  function PrintDecl(d: Decl): (ts: seq<Token>)
    ensures ts != []
  {
    match d
    case Processor(x, body) => [PROCESSOR, IDENTIFIER(x)] + PrintStmt(body)
    case Copy(x, source) => [PROCESSOR, IDENTIFIER(x), ASSIGN, IDENTIFIER(source), SEMICOLON]
    case BufferOf(x, text) => [BUFFER, IDENTIFIER(x), ASSIGN, STRING(text), SEMICOLON]
    case StackOf(x) => [STACK, IDENTIFIER(x), SEMICOLON]
    case WireOf(n1, p1, n2, p2) =>
      [IDENTIFIER(n1), PERIOD, IDENTIFIER(p1), WIRE, IDENTIFIER(n2), PERIOD, IDENTIFIER(p2), SEMICOLON]
  }

  function PrintProgram(ds: seq<Decl>): seq<Token> {
    if ds == [] then [] else PrintDecl(ds[0]) + PrintProgram(ds[1..])
  }

  predicate ReadableDecl(d: Decl) {
    d.Processor? ==> Syntax.IsChain(d.body) && Readable(d.body)
  }

  /** Every declaration is read back as itself, name for name, from exactly its tokens. */
  lemma DeclRoundTrip(d: Decl, rest: seq<Token>)
    requires ReadableDecl(d)
    ensures ParseDecl(PrintDecl(d) + rest) == Some((d, rest))
  {
    hide ParseBody, PrintStmt, Readable;
    var ts := PrintDecl(d) + rest;
    if d.Processor? {
      ChainPrinted(d.body);
      BodyRoundTrip(d.body, rest);
      assert ts[2..] == PrintStmt(d.body) + rest;
    } else {
      assert ts[|PrintDecl(d)|..] == rest;
    }
  }

  /** ... and so is every program. */
  lemma {:induction false} ProgramRoundTrip(ds: seq<Decl>)
    requires forall k :: 0 <= k < |ds| ==> ReadableDecl(ds[k])
    ensures ParseProgram(PrintProgram(ds)) == Some(ds)
    decreases |ds|
  {
    hide ParseDecl, PrintDecl, ReadableDecl;
    if ds != [] {
      DeclRoundTrip(ds[0], PrintProgram(ds[1..]));
      ProgramRoundTrip(ds[1..]);
      assert [ds[0]] + ds[1..] == ds;
    }
  }
}
