/** The statement parser cut at the points where the compiler emits code, and why an error before a cut
    is an error of the whole statement. */
module StmtParse {
  import opened Wrappers
  import opened Syntax
  import opened Pratt
  import opened CodeGen
  import opened Assembler
  import opened Emission
  import opened Assembly

  /** The tokens were a statement that compiles without an error of its own. */
  predicate StmtGood(env: Env, inLoop: bool, r: Parsed<Stmt>) {
    r.Some? && LegalStmt(r.value.0, inLoop) && Fits(StmtNames(env, r.value.0))
  }

  // ----- break, continue, goto -----

  lemma BranchParsed(ts: seq<Token>, env: Env, inLoop: bool)
    requires ts != []
    ensures ts[0].BREAK? ==> ParseStmt(ts) == if Next(ts[1..], SEMICOLON) then Some((Break, ts[2..])) else None
    ensures ts[0].CONTINUE? ==> ParseStmt(ts) == if Next(ts[1..], SEMICOLON) then Some((Continue, ts[2..])) else None
    ensures ts[0].GOTO? ==>
              ParseStmt(ts) == if |ts| >= 3 && ts[1].IDENTIFIER? && Next(ts[2..], SEMICOLON) then Some((Goto(ts[1].name), ts[3..])) else None
    ensures forall x :: LegalStmt(Goto(x), inLoop) && StmtNames(env, Goto(x)) == env
    ensures LegalStmt(Break, inLoop) == LegalStmt(Continue, inLoop) == inLoop
    ensures StmtNames(env, Break) == StmtNames(env, Continue) == env
  {
  }

  lemma BranchGood(ts: seq<Token>, env: Env, inLoop: bool)
    requires ts != [] && Fits(env)
    ensures ts[0].BREAK? && Next(ts[1..], SEMICOLON) ==> ParseStmt(ts) == Some((Break, ts[2..]))
    ensures ts[0].CONTINUE? && Next(ts[1..], SEMICOLON) ==> ParseStmt(ts) == Some((Continue, ts[2..]))
    ensures ts[0].BREAK? || ts[0].CONTINUE? ==> (StmtGood(env, inLoop, ParseStmt(ts)) <==> inLoop && Next(ts[1..], SEMICOLON))
    ensures ts[0].GOTO? ==>
              (StmtGood(env, inLoop, ParseStmt(ts)) <==> |ts| >= 3 && ts[1].IDENTIFIER? && Next(ts[2..], SEMICOLON))
    ensures ts[0].GOTO? && |ts| >= 3 && ts[1].IDENTIFIER? && Next(ts[2..], SEMICOLON) ==>
              ParseStmt(ts) == Some((Goto(ts[1].name), ts[3..]))
  {
    BranchParsed(ts, env, inLoop);
    hide ParseStmt, LegalStmt, StmtNames, Fits;
  }

  // ----- if -----

  /** Behind the first branch. */
  function ElseRest(e: Expr, t: Stmt, rest: seq<Token>): Parsed<Stmt> {
    if !Next(rest, ELSE) then Some((If(e, t), rest)) else
    match ParseStmt(rest[1..])
    case None => None
    case Some((f, rest')) => Some((IfElse(e, t, f), rest'))
  }

  /** Behind the condition. */
  function IfRest(e: Expr, rest: seq<Token>): Parsed<Stmt> {
    if !Next(rest, RPAREN) then None else
    match ParseStmt(rest[1..])
    case None => None
    case Some((t, rest')) => ElseRest(e, t, rest')
  }

  lemma IfParsed(ts: seq<Token>)
    requires Next(ts, IF)
    ensures ParseStmt(ts) ==
            if !Next(ts[1..], LPAREN) then None else
            match ParseExpr(ts[2..], PREC_NONE)
            case None => None
            case Some((e, rest)) => IfRest(e, rest)
  {
    hide ParseExpr;
  }

  lemma ElseRestGood(env: Env, inLoop: bool, e: Expr, t: Stmt, rest: seq<Token>)
    requires Unique(env) && StmtGood(env, inLoop, ElseRest(e, t, rest))
    ensures LegalValue(e) && Fits(Names(env, e)) && StmtGood(Names(env, e), inLoop, Some((t, rest)))
  {
    hide ParseStmt, LegalStmt, StmtNames, Names, LegalValue, Unique, Fits;
    IfTree(e, t, env, inLoop);
    if Next(rest, ELSE) {
      IfElseTree(e, t, ParseStmt(rest[1..]).value.0, env, inLoop);
    }
  }

  lemma ElseRestIff(env: Env, inLoop: bool, e: Expr, t: Stmt, rest: seq<Token>)
    requires Unique(env) && LegalValue(e) && LegalStmt(t, inLoop) && Next(rest, ELSE)
    ensures var r := ParseStmt(rest[1..]);
            && (StmtGood(env, inLoop, ElseRest(e, t, rest)) <==> StmtGood(StmtNames(Names(env, e), t), inLoop, r))
            && (r.Some? ==> ElseRest(e, t, rest) == Some((IfElse(e, t, r.value.0), r.value.1)))
  {
    hide ParseStmt, LegalStmt, StmtNames, Names, LegalValue, Unique, Fits;
    if ParseStmt(rest[1..]).Some? {
      IfElseTree(e, t, ParseStmt(rest[1..]).value.0, env, inLoop);
    }
  }

  lemma IfRestGood(env: Env, inLoop: bool, e: Expr, rest: seq<Token>)
    requires Unique(env) && StmtGood(env, inLoop, IfRest(e, rest))
    ensures LegalValue(e) && Fits(Names(env, e)) && Next(rest, RPAREN)
            && StmtGood(Names(env, e), inLoop, ParseStmt(rest[1..]))
  {
    hide ParseStmt, LegalStmt, StmtNames, Names, LegalValue, Unique, Fits, ElseRest;
    var (t, rest') := ParseStmt(rest[1..]).value;
    ElseRestGood(env, inLoop, e, t, rest');
  }

  // ----- while -----

  function WhileRest(e: Expr, rest: seq<Token>): Parsed<Stmt> {
    if !Next(rest, RPAREN) then None else
    match ParseStmt(rest[1..])
    case None => None
    case Some((t, rest')) => Some((While(e, t), rest'))
  }

  lemma WhileParsed(ts: seq<Token>)
    requires Next(ts, WHILE)
    ensures ParseStmt(ts) ==
            if !Next(ts[1..], LPAREN) then None else
            match ParseExpr(ts[2..], PREC_NONE)
            case None => None
            case Some((e, rest)) => WhileRest(e, rest)
  {
    hide ParseExpr;
  }

  lemma WhileRestGood(env: Env, inLoop: bool, e: Expr, rest: seq<Token>)
    requires Unique(env)
    ensures StmtGood(env, inLoop, WhileRest(e, rest)) <==>
              LegalValue(e) && Next(rest, RPAREN) && StmtGood(Names(env, e), true, ParseStmt(rest[1..]))
    ensures StmtGood(env, inLoop, WhileRest(e, rest)) ==> Fits(Names(env, e))
  {
    hide ParseStmt, LegalStmt, StmtNames, Names, LegalValue, Unique, Fits;
    if Next(rest, RPAREN) && ParseStmt(rest[1..]).Some? {
      WhileTree(e, ParseStmt(rest[1..]).value.0, env, inLoop);
    }
  }

  lemma NoneGood(env: Env, inLoop: bool)
    ensures !StmtGood(env, inLoop, None)
  {
  }

  lemma WhileTestBad(env: Env, inLoop: bool, re: Parsed<Expr>)
    requires Unique(env) && !GoodValue(env, re)
    ensures re.Some? ==> !StmtGood(env, inLoop, WhileRest(re.value.0, re.value.1))
    ensures !StmtGood(env, inLoop, None)
  {
    hide StmtGood, WhileRest, Names, Legal, Unique, Fits;
    if re.Some? {
      WhileRestGood(env, inLoop, re.value.0, re.value.1);
    }
    NoneGood(env, inLoop);
  }

  // ----- do -----

  /** Behind the body. */
  /** The tokens behind the condition of a `do`. */
  predicate DoCloses(ts: seq<Token>) {
    |ts| >= 2 && ts[0] == RPAREN && ts[1] == SEMICOLON
  }

  function DoRest(t: Stmt, rest: seq<Token>): Parsed<Stmt> {
    if !(Next(rest, WHILE) && Next(rest[1..], LPAREN)) then None else
    match ParseExpr(rest[2..], PREC_NONE)
    case None => None
    case Some((e, rest')) =>
      if Next(rest', RPAREN) && Next(rest'[1..], SEMICOLON) then Some((Do(t, e), rest'[2..])) else None
  }

  lemma DoParsed(ts: seq<Token>)
    requires Next(ts, DO)
    ensures ParseStmt(ts) ==
            match ParseStmt(ts[1..])
            case None => None
            case Some((t, rest)) => DoRest(t, rest)
  {
    hide ParseExpr;
    if ParseStmt(ts[1..]).Some? {
      var rest := ParseStmt(ts[1..]).value.1;
      if Next(rest, WHILE) && Next(rest[1..], LPAREN) && ParseExpr(rest[2..], PREC_NONE).Some? {
        var rest' := ParseExpr(rest[2..], PREC_NONE).value.1;
        if Next(rest', RPAREN) && Next(rest'[1..], SEMICOLON) {
          assert rest'[1..][1..] == rest'[2..];
        }
      }
    }
  }

  lemma DoRestGood(env: Env, inLoop: bool, t: Stmt, rest: seq<Token>)
    requires Unique(env) && StmtGood(env, inLoop, DoRest(t, rest))
    ensures inLoop && LegalStmt(t, true) && Fits(StmtNames(env, t))
    ensures GoodValue(StmtNames(env, t), ParseExpr(rest[2..], PREC_NONE))
  {
    hide ParseExpr, LegalStmt, StmtNames, Names, Unique, Fits;
    DoTree(t, DoRest(t, rest).value.0.e, env, inLoop);
  }

  lemma DoRestIff(env: Env, inLoop: bool, t: Stmt, rest: seq<Token>)
    requires Unique(env) && LegalStmt(t, true)
    ensures StmtGood(env, inLoop, DoRest(t, rest)) <==>
              && inLoop && Next(rest, WHILE) && Next(rest[1..], LPAREN)
              && GoodValue(StmtNames(env, t), ParseExpr(rest[2..], PREC_NONE))
              && var r := ParseExpr(rest[2..], PREC_NONE).value;
                 && Next(r.1, RPAREN) && Next(r.1[1..], SEMICOLON)
    ensures StmtGood(env, inLoop, DoRest(t, rest)) ==>
              var r := ParseExpr(rest[2..], PREC_NONE).value; DoRest(t, rest) == Some((Do(t, r.0), r.1[2..]))
  {
    hide ParseExpr, LegalStmt, StmtNames, Names, Legal, KindOf, Unique, Fits;
    if Next(rest, WHILE) && Next(rest[1..], LPAREN) && ParseExpr(rest[2..], PREC_NONE).Some? {
      DoTree(t, ParseExpr(rest[2..], PREC_NONE).value.0, env, inLoop);
    }
  }

  lemma DoBodyBad(env: Env, inLoop: bool, ts: seq<Token>)
    requires Unique(env) && Next(ts, DO) && !StmtGood(env, true, ParseStmt(ts[1..]))
    ensures !StmtGood(env, inLoop, ParseStmt(ts))
  {
    DoParsed(ts);
    hide ParseStmt, LegalStmt, StmtNames, Fits, Unique, DoRest;
    if StmtGood(env, inLoop, ParseStmt(ts)) {
      var (t, rest) := ParseStmt(ts[1..]).value;
      DoRestGood(env, inLoop, t, rest);
    }
  }

  // ----- for -----

  function ForRest3(i: Expr, c: Expr, p: Expr, rest: seq<Token>): Parsed<Stmt> {
    if !Next(rest, RPAREN) then None else
    match ParseStmt(rest[1..])
    case None => None
    case Some((t, rest')) => Some((For(i, c, p, t), rest'))
  }

  function ForRest2(i: Expr, c: Expr, rest: seq<Token>): Parsed<Stmt> {
    if !Next(rest, SEMICOLON) then None else
    match ParseExpr(rest[1..], PREC_NONE)
    case None => None
    case Some((p, rest')) => ForRest3(i, c, p, rest')
  }

  function ForRest1(i: Expr, rest: seq<Token>): Parsed<Stmt> {
    if !Next(rest, SEMICOLON) then None else
    match ParseExpr(rest[1..], PREC_NONE)
    case None => None
    case Some((c, rest')) => ForRest2(i, c, rest')
  }

  lemma ForParsed(ts: seq<Token>)
    requires Next(ts, FOR)
    ensures ParseStmt(ts) ==
            if !Next(ts[1..], LPAREN) then None else
            match ParseExpr(ts[2..], PREC_NONE)
            case None => None
            case Some((i, rest)) => ForRest1(i, rest)
  {
    hide ParseExpr;
  }

  lemma ForRest3Good(env: Env, inLoop: bool, i: Expr, c: Expr, p: Expr, rest: seq<Token>)
    requires Unique(env)
    ensures StmtGood(env, inLoop, ForRest3(i, c, p, rest)) <==>
              && Legal(i) && LegalValue(c) && Legal(p) && Next(rest, RPAREN)
              && StmtGood(Names(Names(Names(env, i), c), p), true, ParseStmt(rest[1..]))
    ensures Next(rest, RPAREN) && ParseStmt(rest[1..]).Some? ==>
              ForRest3(i, c, p, rest) == Some((For(i, c, p, ParseStmt(rest[1..]).value.0), ParseStmt(rest[1..]).value.1))
    ensures StmtGood(env, inLoop, ForRest3(i, c, p, rest)) ==>
              Fits(Names(env, i)) && Fits(Names(Names(env, i), c)) && Fits(Names(Names(Names(env, i), c), p))
  {
    hide ParseStmt, LegalStmt, StmtNames, Names, Legal, LegalValue, Unique, Fits;
    if Next(rest, RPAREN) && ParseStmt(rest[1..]).Some? {
      ForTree(ForRest3(i, c, p, rest).value.0, env, inLoop);
    }
  }

  lemma ForRest2Good(env: Env, inLoop: bool, i: Expr, c: Expr, rest: seq<Token>)
    requires Unique(env) && StmtGood(env, inLoop, ForRest2(i, c, rest))
    ensures Legal(i) && LegalValue(c) && Fits(Names(env, i)) && Fits(Names(Names(env, i), c))
    ensures Next(rest, SEMICOLON) && Good(Names(Names(env, i), c), ParseExpr(rest[1..], PREC_NONE))
  {
    hide ParseExpr, StmtGood, Names, Legal, LegalValue, Unique, Fits, ForRest3;
    NotNone(ForRest2(i, c, rest), env, inLoop);
    var (p, rest') := ParseExpr(rest[1..], PREC_NONE).value;
    ForRest3Good(env, inLoop, i, c, p, rest');
  }

  lemma NotNone(r: Parsed<Stmt>, env: Env, inLoop: bool)
    requires StmtGood(env, inLoop, r)
    ensures r.Some?
  {
  }

  lemma ForRest1Good(env: Env, inLoop: bool, i: Expr, rest: seq<Token>)
    requires Unique(env) && StmtGood(env, inLoop, ForRest1(i, rest))
    ensures Legal(i) && Fits(Names(env, i))
    ensures Next(rest, SEMICOLON) && GoodValue(Names(env, i), ParseExpr(rest[1..], PREC_NONE))
  {
    hide ParseExpr, StmtGood, Names, Legal, Unique, Fits, ForRest2;
    NotNone(ForRest1(i, rest), env, inLoop);
    var (c, rest') := ParseExpr(rest[1..], PREC_NONE).value;
    ForRest2Good(env, inLoop, i, c, rest');
  }

  lemma ForRest1Next(i: Expr, rest: seq<Token>)
    requires Next(rest, SEMICOLON)
    ensures ForRest1(i, rest) == match ParseExpr(rest[1..], PREC_NONE)
                                 case None => None
                                 case Some((c, rest')) => ForRest2(i, c, rest')
  {
  }

  lemma ForRest2Next(i: Expr, c: Expr, rest: seq<Token>)
    requires Next(rest, SEMICOLON)
    ensures ForRest2(i, c, rest) == match ParseExpr(rest[1..], PREC_NONE)
                                    case None => None
                                    case Some((p, rest')) => ForRest3(i, c, p, rest')
  {
  }

  // ----- Blocks -----

  /** `ss` has been read of a block that goes on with `r`. */
  function Behind(ss: seq<Stmt>, r: Parsed<Stmt>): Parsed<Stmt> {
    match r
    case None => None
    case Some((s, rest)) => Some((ChainOf(ss, s), rest))
  }

  lemma BehindGood(env: Env, inLoop: bool, ss: seq<Stmt>, r: Parsed<Stmt>)
    requires StmtGood(env, inLoop, Behind(ss, r))
    ensures StmtGood(NamesOf(env, ss), inLoop, r)
  {
    hide LegalStmt, StmtNames, Fits;
    ChainTree(ss, r.value.0, env, inLoop);
  }

  /** One more statement of a block. */
  lemma BlockStep(ts: seq<Token>, ss: seq<Stmt>, env: Env, inLoop: bool)
    requires !Next(ts, RBRACE) && Unique(NamesOf(env, ss))
    ensures ParseStmt(ts).None? ==> ParseBlock(ts).None?
    ensures ParseStmt(ts).Some? ==>
              Behind(ss, ParseBlock(ts)) == Behind(ss + [ParseStmt(ts).value.0], ParseBlock(ParseStmt(ts).value.1))
    ensures StmtGood(env, inLoop, Behind(ss, ParseBlock(ts))) ==> StmtGood(NamesOf(env, ss), inLoop, ParseStmt(ts))
  {
    hide ParseStmt, Unique, Fits;
    if ParseStmt(ts).Some? && ParseBlock(ParseStmt(ts).value.1).Some? {
      ChainMore(ss, ParseStmt(ts).value.0, ParseBlock(ParseStmt(ts).value.1).value.0, env);
      if StmtGood(env, inLoop, Behind(ss, ParseBlock(ts))) {
        BehindGood(env, inLoop, ss, ParseBlock(ts));
        StmtFit(NamesOf(env, ss), ParseStmt(ts).value.0);
        StmtFit(StmtNames(NamesOf(env, ss), ParseStmt(ts).value.0), ParseBlock(ParseStmt(ts).value.1).value.0);
      }
    }
  }

  /** The closing brace. */
  lemma BlockEnd(ss: seq<Stmt>, ts: seq<Token>)
    requires Next(ts, RBRACE)
    ensures Behind(ss, ParseBlock(ts)) == Some((ChainOf(ss, Skip), ts[1..]))
  {
  }

  lemma BehindNone(r: Parsed<Stmt>)
    ensures Behind([], r) == r
  {
  }

  // ----- The other statements -----

  lemma ExprParsed(ts: seq<Token>, env: Env, inLoop: bool)
    requires ts != [] && StartsExpr(ts[0])
    ensures ParseStmt(ts) == match ParseExpr(ts, PREC_NONE)
                             case None => None
                             case Some((e, rest)) => if Next(rest, SEMICOLON) then Some((ExprStmt(e), rest[1..])) else None
    ensures forall e :: LegalStmt(ExprStmt(e), inLoop) == Legal(e) && StmtNames(env, ExprStmt(e)) == Names(env, e)
  {
    hide ParseExpr, Legal, Names;
  }

  lemma LabelParsed(ts: seq<Token>, env: Env, inLoop: bool)
    requires ts != [] && ts[0].IDENTIFIER?
    ensures ParseStmt(ts) == if Next(ts[1..], COLON) then Some((Label(ts[0].name), ts[2..])) else None
    ensures forall x :: LegalStmt(Label(x), inLoop) && StmtNames(env, Label(x)) == env
  {
  }

  lemma SimpleParsed(ts: seq<Token>, env: Env, inLoop: bool)
    ensures ts == [] ==> ParseStmt(ts).None?
    ensures Next(ts, LBRACE) ==> ParseStmt(ts) == ParseBody(ts)
    ensures Next(ts, SEMICOLON) ==> ParseStmt(ts) == Some((Empty, ts[1..]))
    ensures Next(ts, HALT) ==> ParseStmt(ts) == if Next(ts[1..], SEMICOLON) then Some((Stmt.Halt, ts[2..])) else None
    ensures LegalStmt(Empty, inLoop) && LegalStmt(Stmt.Halt, inLoop)
    ensures StmtNames(env, Empty) == StmtNames(env, Stmt.Halt) == env
    ensures ts != [] && !StartsExpr(ts[0]) && !StartsStmt(ts[0]) ==> ParseStmt(ts).None?
  {
    hide ParseExpr, ParseBlock;
    if ts != [] && !StartsExpr(ts[0]) {
      NoExprStart(ts);
    }
  }

  lemma NoExprStart(ts: seq<Token>)
    requires ts != [] && !StartsExpr(ts[0])
    ensures ParseExpr(ts, PREC_NONE).None?
  {
    assert ParsePrefix(ts).None?;
  }

  /** The tokens, other than those of expressions, that a statement can begin with. */
  predicate StartsStmt(t: Token) {
    || t.BREAK? || t.CONTINUE? || t.GOTO? || t.LBRACE? || t.IF? || t.FOR? || t.WHILE? || t.DO?
    || t.IDENTIFIER? || t.SEMICOLON? || t.HALT?
  }
}
