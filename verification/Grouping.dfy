/** How expressions without parentheses group (compiler.c:50-69, compiler.c:108-150), told from a table of
    levels alone: an expression splits at its loosest operator, and both sides split again. */
module Grouping {
  import opened Wrappers
  import opened Bytes
  import opened Syntax
  import opened Pratt
  import opened Printer

  /** The operators between operands, the loosest level first. */
  const LEVELS: seq<set<Token>> := [
    {SEND},
    {COMMA},
    {ASSIGN, OPASSIGN(Or), OPASSIGN(Xor), OPASSIGN(And), OPASSIGN(Shl), OPASSIGN(Shr), OPASSIGN(Add), OPASSIGN(Sub),
     OPASSIGN(Mul), OPASSIGN(Div), OPASSIGN(Mod)},
    {COND},
    {INFIX(Plain(LOr))},
    {INFIX(Plain(LAnd))},
    {INFIX(Plain(Or))},
    {INFIX(Plain(Xor))},
    {INFIX(Plain(And))},
    {INFIX(Plain(Eql)), INFIX(Neq)},
    {INFIX(Plain(Lss)), INFIX(Plain(Lte)), INFIX(Gtr), INFIX(Gte)},
    {INFIX(Plain(Shl)), INFIX(Plain(Shr))},
    {INFIX(Plain(Add)), INFIX(Plain(Sub))},
    {INFIX(Plain(Mul)), INFIX(Plain(Div)), INFIX(Plain(Mod))}]

  /** The levels that group to the right: assignment and `?:`. */
  const RIGHTWARD: set<nat> := {2, 3}

  const SUFFIXES: set<Token> := {INC, DEC}

  /** The place of the first set with `t` in it; their number if there is none. */
  function LevelIn(t: Token, levels: seq<set<Token>>): nat {
    if levels == [] || t in levels[0] then 0 else 1 + LevelIn(t, levels[1..])
  }

  function Level(t: Token): nat {
    LevelIn(t, LEVELS)
  }

  lemma {:induction false} LevelFound(t: Token, levels: seq<set<Token>>)
    ensures LevelIn(t, levels) <= |levels|
    ensures LevelIn(t, levels) < |levels| ==> t in levels[LevelIn(t, levels)]
    ensures forall k :: 0 <= k < LevelIn(t, levels) ==> t !in levels[k]
  {
    if levels != [] && t !in levels[0] {
      LevelFound(t, levels[1..]);
    }
  }

  lemma LooseLevels(t: Token, k: nat)
    requires k < 4
    ensures |LEVELS| == 14 && (t in LEVELS[k] <==> TokenPrec(t) == k + 1)
  {
  }

  lemma MiddleLevels(t: Token, k: nat)
    requires 4 <= k < 10
    ensures |LEVELS| == 14 && (t in LEVELS[k] <==> TokenPrec(t) == k + 1)
  {
  }

  lemma TightLevels(t: Token, k: nat)
    requires 10 <= k < 14
    ensures |LEVELS| == 14 && (t in LEVELS[k] <==> TokenPrec(t) == k + 1)
  {
  }

  /** A token is on level `k` exactly if the parse table gives it that place, and so on one level only. */
  lemma OnLevel(t: Token, k: nat)
    requires k < 14
    ensures |LEVELS| == 14 && (t in LEVELS[k] <==> TokenPrec(t) == k + 1)
  {
    hide TokenPrec;
    if k < 4 {
      LooseLevels(t, k);
    } else if k < 10 {
      MiddleLevels(t, k);
    } else {
      TightLevels(t, k);
    }
  }

  predicate Between(t: Token) {
    Level(t) < |LEVELS|
  }

  lemma LevelPrec(t: Token)
    ensures |LEVELS| == 14
    ensures Between(t) ==> TokenPrec(t) == Level(t) + 1
    ensures t !in SUFFIXES && !Between(t) ==> TokenPrec(t) == PREC_NONE
  {
    hide LevelIn;
    LevelFound(t, LEVELS);
    OnLevel(t, 0);
    if Between(t) {
      OnLevel(t, Level(t));
    } else if TokenPrec(t) != PREC_NONE && t !in SUFFIXES {
      TablePrec(t);
      OnLevel(t, TokenPrec(t) - 1);
    }
  }

  lemma TablePrec(t: Token)
    ensures t in SUFFIXES || TokenPrec(t) < PREC_UNARY == 15
  {
  }

  // ----- Chains of operands and operators -----

  /** An operand: one token, with prefix operators in front and suffix operators behind. */
  datatype Term = Term(pre: seq<Token>, core: Token, post: seq<Token>)

  /** What stands between two operands: a token, or `? mid :`. */
  datatype Op = Infix(t: Token) | Query(mid: Term)

  predicate IsTerm(x: Term) {
    && Operand(x.core).Some?
    && (forall k :: 0 <= k < |x.pre| ==> Prefixed(x.pre[k], Num(0)).Some?)
    && forall k :: 0 <= k < |x.post| ==> x.post[k] in SUFFIXES
  }

  function Sign(o: Op): Token {
    match o
    case Infix(t) => t
    case Query(_) => COND
  }

  predicate IsOp(o: Op) {
    match o
    case Infix(t) => Between(t) && t != COND
    case Query(mid) => IsTerm(mid)
  }

  predicate ProperChain(xs: seq<Term>, os: seq<Op>) {
    && |xs| == |os| + 1
    && (forall k :: 0 <= k < |xs| ==> IsTerm(xs[k]))
    && forall k :: 0 <= k < |os| ==> IsOp(os[k])
  }

  function TermTokens(x: Term): seq<Token> {
    x.pre + [x.core] + x.post
  }

  function OpTokens(o: Op): seq<Token> {
    match o
    case Infix(t) => [t]
    case Query(mid) => [COND] + TermTokens(mid) + [COLON]
  }

  function Tokens(xs: seq<Term>, os: seq<Op>): seq<Token>
    requires |xs| == |os| + 1
  {
    if os == [] then TermTokens(xs[0]) else TermTokens(xs[0]) + OpTokens(os[0]) + Tokens(xs[1..], os[1..])
  }

  // ----- What they mean -----

  /** Suffix operators act last, on what the prefix operators made: `-$a++` is `(-$a)++`. */
  function TermTree(x: Term): Expr
    requires IsTerm(x)
    decreases |x.pre| + |x.post|
  {
    if x.post != [] then
      var n := |x.post| - 1;
      PostStep(TermTree(x.(post := x.post[..n])), x.post[n] == INC)
    else if x.pre != [] then Prefix(x.pre[0], TermTree(x.(pre := x.pre[1..])))
    else Operand(x.core).value
  }

  function Prefix(t: Token, e: Expr): Expr {
    match Prefixed(t, e)
    case Some(p) => p
    case None => e
  }

  function Node(l: Expr, o: Op, r: Expr): Expr
    requires IsOp(o)
  {
    match o
    case Query(mid) => Cond(l, TermTree(mid), r)
    case Infix(t) =>
      match t
      case SEND => Send(l, r)
      case COMMA => Comma(l, r)
      case OPASSIGN(op) => Assign(l, Some(op), r)
      case INFIX(op) => Binary(l, op, r)
      case _ => Assign(l, None, r)
  }

  /** Where a chain splits: at its loosest operator; of several the first one if they group to the right,
      and the last one otherwise. */
  function Split(os: seq<Op>): (k: nat)
    requires os != []
    ensures k < |os|
    ensures forall j :: 0 <= j < |os| && j != k ==> Level(Sign(os[j])) >= Level(Sign(os[k]))
    ensures forall j :: 0 <= j < |os| && Level(Sign(os[j])) == Level(Sign(os[k])) ==>
                          if Level(Sign(os[k])) in RIGHTWARD then k <= j else j <= k
  {
    if |os| == 1 then 0 else
    var k := 1 + Split(os[1..]);
    var first, best := Level(Sign(os[0])), Level(Sign(os[k]));
    if first < best || (first == best && best in RIGHTWARD) then 0 else k
  }

  function Tree(xs: seq<Term>, os: seq<Op>): Expr
    requires ProperChain(xs, os)
    decreases |os|
  {
    if os == [] then TermTree(xs[0]) else
    var k := Split(os);
    Node(Tree(xs[..k + 1], os[..k]), os[k], Tree(xs[k + 1..], os[k + 1..]))
  }

  // ----- The printer writes the chain -----

  lemma {:induction false} TokensSplit(xs: seq<Term>, os: seq<Op>, k: nat)
    requires |xs| == |os| + 1 && k < |os|
    ensures Tokens(xs, os) == Tokens(xs[..k + 1], os[..k]) + OpTokens(os[k]) + Tokens(xs[k + 1..], os[k + 1..])
    decreases k
  {
    hide TermTokens, OpTokens;
    if k > 0 {
      assert xs[1..][..k] == xs[..k + 1][1..] && os[1..][..k - 1] == os[..k][1..];
      assert xs[1..][k..] == xs[k + 1..] && os[1..][k..] == os[k + 1..];
      TokensSplit(xs[1..], os[1..], k - 1);
      var head := TermTokens(xs[0]) + OpTokens(os[0]);
      assert Tokens(xs[..k + 1], os[..k]) == head + Tokens(xs[1..][..k], os[1..][..k - 1]);
    } else {
      assert xs[..1] == [xs[0]];
    }
  }

  lemma {:induction false} TermPrinted(x: Term)
    requires IsTerm(x)
    ensures Print(TermTree(x)) == TermTokens(x)
    ensures TopPrec(TermTree(x)) >= PREC_UNARY && RightPrec(TermTree(x)) >= PREC_UNARY
    ensures x.post == [] ==> TopPrec(TermTree(x)) > PREC_UNARY
    decreases |x.pre| + |x.post|
  {
    hide Prefixed, Print, TopPrec, RightPrec;
    if x.post != [] {
      var n := |x.post| - 1;
      var y := x.(post := x.post[..n]);
      TermPrinted(y);
      assert TermTokens(x) == TermTokens(y) + [x.post[n]];
      SuffixPrinted(TermTree(y), x.post[n]);
    } else if x.pre != [] {
      var y := x.(pre := x.pre[1..]);
      TermPrinted(y);
      assert TermTokens(x) == [x.pre[0]] + TermTokens(y);
      PrefixPrinted(x.pre[0], TermTree(y));
    } else {
      assert TermTokens(x) == [x.core];
      CorePrinted(x.core);
    }
  }

  lemma SuffixPrinted(e: Expr, t: Token)
    requires t in SUFFIXES && RightPrec(e) >= PREC_UNARY
    ensures var p := PostStep(e, t == INC); Print(p) == Print(e) + [t] && TopPrec(p) == RightPrec(p) == PREC_UNARY
  {
  }

  lemma CorePrinted(t: Token)
    requires Operand(t).Some?
    ensures var e := Operand(t).value; Print(e) == [t] && TopPrec(e) > PREC_UNARY && RightPrec(e) >= PREC_UNARY
  {
  }

  lemma PrefixPrinted(t: Token, e: Expr)
    requires Prefixed(t, Num(0)).Some? && TopPrec(e) > PREC_UNARY
    ensures Print(Prefix(t, e)) == [t] + Print(e)
    ensures TopPrec(Prefix(t, e)) > PREC_UNARY && RightPrec(Prefix(t, e)) >= PREC_UNARY
  {
  }

  /** The precedence up to which the operators of a level leave what stands behind them alone. */
  function Hold(level: nat): nat {
    if level in RIGHTWARD then level else level + 1
  }

  lemma AssignLevel(t: Token)
    requires Between(t)
    ensures Level(t) == 2 <==> t.ASSIGN? || t.OPASSIGN?
    ensures Level(t) == 3 <==> t == COND
    ensures TokenPrec(t) == Level(t) + 1
  {
    hide Level;
    LevelPrec(t);
  }

  lemma QueryPrinted(l: Expr, mid: Term, r: Expr)
    requires IsTerm(mid) && RightPrec(l) >= PREC_COND && TopPrec(r) >= PREC_COND
    ensures Print(Cond(l, TermTree(mid), r)) == Print(l) + OpTokens(Query(mid)) + Print(r)
  {
    hide TermTree, TermTokens, TopPrec, RightPrec;
    TermPrinted(mid);
  }

  lemma BareOperands(l: Expr, q: nat, r: Expr, p: nat, sign: seq<Token>)
    requires RightPrec(l) >= q && TopPrec(r) > p
    ensures LeftOperand(l, q) + (sign + OperandAt(r, p)) == Print(l) + sign + Print(r)
  {
    hide Print, RightPrec, TopPrec;
  }

  /** The printed form of an operator between two operands. */
  predicate WrittenAs(e: Expr, l: Expr, t: Token, r: Expr) {
    && Print(e) == LeftOperand(l, TokenPrec(t)) + ([t] + OperandAt(r, RightOperandPrec(t)))
    && TopPrec(e) == TokenPrec(t) && RightPrec(e) == RightOperandPrec(t)
  }

  lemma PrintOperators(l: Expr, op: InfixOp, asg: Option<AssignOp>, r: Expr)
    ensures WrittenAs(Send(l, r), l, SEND, r)
    ensures WrittenAs(Comma(l, r), l, COMMA, r)
    ensures WrittenAs(Assign(l, asg, r), l, AssignToken(asg), r)
    ensures WrittenAs(Binary(l, op, r), l, INFIX(op), r)
  {
    hide LeftOperand, OperandAt, InfixPrec;
  }

  lemma PrintInfix(l: Expr, t: Token, r: Expr)
    requires IsOp(Infix(t))
    ensures WrittenAs(Node(l, Infix(t), r), l, t, r)
  {
    hide Between, WrittenAs;
    NotSuffix(t);
    PrintOperators(l, if t.INFIX? then t.infix else Neq, if t.OPASSIGN? then Some(t.op) else None, r);
  }

  lemma InfixPrinted(l: Expr, t: Token, r: Expr)
    requires IsOp(Infix(t))
    requires RightPrec(l) >= TokenPrec(t) && TopPrec(r) > RightOperandPrec(t)
    ensures var e := Node(l, Infix(t), r);
            && Print(e) == Print(l) + [t] + Print(r) && TopPrec(e) == TokenPrec(t) && RightPrec(e) == RightOperandPrec(t)
  {
    hide Print, RightPrec, TopPrec, Node, IsOp, LeftOperand, OperandAt, TokenPrec;
    PrintInfix(l, t, r);
    BareOperands(l, TokenPrec(t), r, RightOperandPrec(t), [t]);
  }

  lemma NotSuffix(t: Token)
    requires Between(t)
    ensures t.SEND? || t.COMMA? || t.ASSIGN? || t.OPASSIGN? || t.COND? || t.INFIX?
  {
    hide Level;
    LevelPrec(t);
  }

  lemma NodePrinted(l: Expr, o: Op, r: Expr)
    requires IsOp(o)
    requires RightPrec(l) > Level(Sign(o)) && TopPrec(r) > Hold(Level(Sign(o)))
    ensures var e := Node(l, o, r);
            && Print(e) == Print(l) + OpTokens(o) + Print(r)
            && TopPrec(e) == Level(Sign(o)) + 1 && RightPrec(e) == Hold(Level(Sign(o)))
  {
    hide Level, TermTree, TermTokens, Print;
    match o {
      case Query(mid) =>
        LevelPrec(COND);
        OnLevel(COND, 3);
        OpLevel(o);
        QueryPrinted(l, mid, r);
      case Infix(t) =>
        AssignLevel(t);
        hide Node, TopPrec, RightPrec;
        InfixPrinted(l, t, r);
    }
  }

  /** The printed form of the tree is the chain itself, without any parenthesis. */
  lemma {:induction false} ChainPrinted(xs: seq<Term>, os: seq<Op>)
    requires ProperChain(xs, os)
    ensures Print(Tree(xs, os)) == Tokens(xs, os)
    ensures var e := Tree(xs, os);
            if os == [] then TopPrec(e) >= PREC_UNARY && RightPrec(e) >= PREC_UNARY else
            var level := Level(Sign(os[Split(os)]));
            level < 14 && TopPrec(e) == level + 1 && RightPrec(e) == Hold(level)
    decreases |os|
  {
    hide TermTree, TermTokens, TopPrec, RightPrec, Print, Level, OpTokens, IsTerm, Split;
    if os == [] {
      TermPrinted(xs[0]);
    } else {
      var k := Split(os);
      ChainPrinted(xs[..k + 1], os[..k]);
      ChainPrinted(xs[k + 1..], os[k + 1..]);
      TokensSplit(xs, os, k);
      assert IsOp(os[k]);
      OpLevel(os[k]);
      NodePrinted(Tree(xs[..k + 1], os[..k]), os[k], Tree(xs[k + 1..], os[k + 1..]));
    }
  }

  lemma OpLevel(o: Op)
    requires IsOp(o)
    ensures Level(Sign(o)) < 14
  {
    hide LevelIn;
    LevelPrec(COND);
    OnLevel(COND, 3);
    LevelPrec(Sign(o));
    LevelFound(COND, LEVELS);
  }

  /** The tokens that end an expression. */
  predicate Ends(rest: seq<Token>) {
    rest == [] || (rest[0] !in SUFFIXES && !Between(rest[0]))
  }

  /** The parser groups every expression without parentheses as the table of levels says: it reads exactly
      the chain and makes the tree that splits at the loosest operator, and so on within both parts. */
  lemma ChainGroups(xs: seq<Term>, os: seq<Op>, rest: seq<Token>)
    requires ProperChain(xs, os) && Ends(rest)
    ensures ParseExpr(Tokens(xs, os) + rest, PREC_NONE) == Some((Tree(xs, os), rest))
  {
    hide ParseExpr, Print, Tree, Tokens, ProperChain, Level;
    ChainPrinted(xs, os);
    if rest != [] {
      LevelPrec(rest[0]);
    }
    ExprRoundTrip(Tree(xs, os), rest);
  }

  // ----- Two neighbouring operators -----

  /** Whether `a o1 b o2 c` is `a o1 (b o2 c)`: the second operator is tighter, or both group to the right. */
  predicate GroupsRight(o1: Op, o2: Op) {
    Level(Sign(o2)) > Level(Sign(o1)) || (Level(Sign(o2)) == Level(Sign(o1)) && Level(Sign(o1)) in RIGHTWARD)
  }

  /** Any two neighbouring operators, `?:` included, group as their levels say. */
  lemma ThreeOperands(a: Term, o1: Op, b: Term, o2: Op, c: Term, rest: seq<Token>)
    requires IsTerm(a) && IsTerm(b) && IsTerm(c) && IsOp(o1) && IsOp(o2) && Ends(rest)
    ensures ParseExpr(TermTokens(a) + OpTokens(o1) + TermTokens(b) + OpTokens(o2) + TermTokens(c) + rest, PREC_NONE)
            == Some((if GroupsRight(o1, o2) then Node(TermTree(a), o1, Node(TermTree(b), o2, TermTree(c)))
                     else Node(Node(TermTree(a), o1, TermTree(b)), o2, TermTree(c)), rest))
  {
    hide ParseExpr, Level, IsTerm, IsOp, TermTokens, OpTokens, TermTree, Node;
    var xs, os := [a, b, c], [o1, o2];
    ChainGroups(xs, os, rest);
    assert xs[1..] == [b, c] && os[1..] == [o2] && [b, c][1..] == [c] && [o2][1..] == [];
    assert Tokens([b, c], [o2]) == TermTokens(b) + OpTokens(o2) + TermTokens(c);
    assert Tokens(xs, os) + rest == TermTokens(a) + OpTokens(o1) + TermTokens(b) + OpTokens(o2) + TermTokens(c) + rest;
    TreeOfThree(a, o1, b, o2, c);
  }

  lemma TreeOfThree(a: Term, o1: Op, b: Term, o2: Op, c: Term)
    requires IsTerm(a) && IsTerm(b) && IsTerm(c) && IsOp(o1) && IsOp(o2)
    ensures Tree([a, b, c], [o1, o2])
            == if GroupsRight(o1, o2) then Node(TermTree(a), o1, Node(TermTree(b), o2, TermTree(c)))
               else Node(Node(TermTree(a), o1, TermTree(b)), o2, TermTree(c))
  {
    hide Level, IsTerm, IsOp, TermTree, Node;
    var xs, os := [a, b, c], [o1, o2];
    TreeOfTwo(a, o1, b);
    TreeOfTwo(b, o2, c);
    assert Tree([a], []) == TermTree(a) && Tree([c], []) == TermTree(c);
    assert xs[..1] == [a] && xs[1..] == [b, c] && xs[..2] == [a, b] && xs[2..] == [c];
    assert os[..0] == [] && os[1..] == [o2] && os[..1] == [o1] && os[2..] == [];
  }

  lemma TreeOfTwo(a: Term, o: Op, b: Term)
    requires IsTerm(a) && IsTerm(b) && IsOp(o)
    ensures Tree([a, b], [o]) == Node(TermTree(a), o, TermTree(b))
  {
    hide IsTerm, IsOp, TermTree, Node;
    assert [a, b][..1] == [a] && [a, b][1..] == [b] && [o][..0] == [] && [o][1..] == [];
    assert Tree([a], []) == TermTree(a) && Tree([b], []) == TermTree(b);
  }

  // ----- Between `?` and `:` -----

  /** The first operator of a chain that is looser than `?:`; their number if there is none. */
  function FirstLoose(os: seq<Op>): (k: nat)
    ensures k <= |os| && (k < |os| ==> Level(Sign(os[k])) < Level(COND))
    ensures forall j :: 0 <= j < k ==> Level(Sign(os[j])) >= Level(COND)
  {
    if os == [] || Level(Sign(os[0])) < Level(COND) then 0 else 1 + FirstLoose(os[1..])
  }

  lemma CondLevel()
    ensures Level(COND) == 3 && Between(COND) && !Between(COLON) && COLON !in SUFFIXES
  {
    hide LevelIn;
    OpLevel(Query(Term([], NUMBER(0), [])));
    OnLevel(COND, 3);
    LevelPrec(COND);
    LevelPrec(COLON);
  }

  /** An operand of `?:` stops at the first looser operator. */
  lemma OperandStops(xs: seq<Term>, os: seq<Op>, rest: seq<Token>)
    requires ProperChain(xs, os) && FirstLoose(os) == |os|
    requires NextPrec(rest) < PREC_COND
    ensures ParseExpr(Tokens(xs, os) + rest, PREC_COND - 1) == Some((Tree(xs, os), rest))
  {
    hide ParseExpr, Print, Tree, Tokens, Level, IsTerm;
    ChainPrinted(xs, os);
    CondLevel();
    if os != [] {
      assert Level(Sign(os[Split(os)])) >= Level(COND);
    }
    OperandRoundTrip(Tree(xs, os), PREC_COND - 1, rest);
  }

  /** What stands between `?` and `:` may have operators as loose as `?:` itself; with a looser one, such
      as an assignment, the expression is an error, whatever follows. */
  lemma QueryMiddle(a: Term, xs: seq<Term>, os: seq<Op>, d: Term, rest: seq<Token>)
    requires IsTerm(a) && ProperChain(xs, os) && IsTerm(d) && Ends(rest)
    ensures var ts := TermTokens(a) + [COND] + Tokens(xs, os) + [COLON] + TermTokens(d) + rest;
            ParseExpr(ts, PREC_NONE)
            == if forall k :: 0 <= k < |os| ==> Level(Sign(os[k])) >= Level(COND)
               then Some((Cond(TermTree(a), Tree(xs, os), TermTree(d)), rest)) else None
  {
    hide ParseExpr, ParseInfixes, ParseInfix, Level, IsTerm, IsOp, TermTokens, Tokens, TermTree, Tree, Print, TopPrec,
         RightPrec;
    var end := [COLON] + TermTokens(d) + rest;
    var tail := [COND] + (Tokens(xs, os) + end);
    assert TermTokens(a) + [COND] + Tokens(xs, os) + [COLON] + TermTokens(d) + rest == TermTokens(a) + tail;
    TermPrinted(a);
    PrintThenInfixes(TermTree(a), PREC_NONE, tail);
    var k := FirstLoose(os);
    if k == |os| {
      MiddleRead(TermTree(a), xs, os, d, rest);
    } else {
      MiddleRefused(TermTree(a), xs, os, end);
    }
  }

  lemma MiddleRead(c: Expr, xs: seq<Term>, os: seq<Op>, d: Term, rest: seq<Token>)
    requires ProperChain(xs, os) && IsTerm(d) && Ends(rest) && FirstLoose(os) == |os|
    ensures ParseInfixes(c, [COND] + (Tokens(xs, os) + ([COLON] + TermTokens(d) + rest)), PREC_NONE)
            == Some((Cond(c, Tree(xs, os), TermTree(d)), rest))
  {
    hide ParseExpr, Level, IsTerm, TermTokens, Tokens, TermTree, Tree;
    var end := [COLON] + TermTokens(d) + rest;
    OperandStops(xs, os, end);
    assert end[1..] == TermTokens(d) + rest;
    assert ([COND] + (Tokens(xs, os) + end))[1..] == Tokens(xs, os) + end;
    EndsPrec(rest);
    OneTerm(d);
    OperandStops([d], [], rest);
  }

  lemma EndsPrec(rest: seq<Token>)
    requires Ends(rest)
    ensures NextPrec(rest) == PREC_NONE
  {
    hide Level;
    if rest != [] {
      LevelPrec(rest[0]);
    }
  }

  lemma OneTerm(d: Term)
    requires IsTerm(d)
    ensures ProperChain([d], []) && Tokens([d], []) == TermTokens(d) && Tree([d], []) == TermTree(d)
            && FirstLoose([]) == 0
  {
  }

  lemma MiddleRefused(c: Expr, xs: seq<Term>, os: seq<Op>, end: seq<Token>)
    requires ProperChain(xs, os) && FirstLoose(os) < |os|
    ensures ParseInfixes(c, [COND] + (Tokens(xs, os) + end), PREC_NONE) == None
  {
    hide ParseExpr, Level, IsTerm, TermTokens, Tokens, TermTree, Tree;
    var k := FirstLoose(os);
    LooseTail(xs, os, k);
    var more := OpTokens(os[k]) + Tokens(xs[k + 1..], os[k + 1..]) + end;
    var front := Tokens(xs[..k + 1], os[..k]);
    assert Tokens(xs, os) + end == front + more;
    OperandStops(xs[..k + 1], os[..k], more);
    assert ([COND] + (Tokens(xs, os) + end))[1..] == front + more;
  }

  lemma LooseTail(xs: seq<Term>, os: seq<Op>, k: nat)
    requires ProperChain(xs, os) && k == FirstLoose(os) < |os|
    ensures ProperChain(xs[..k + 1], os[..k]) && FirstLoose(os[..k]) == k
    ensures Tokens(xs, os) == Tokens(xs[..k + 1], os[..k]) + OpTokens(os[k]) + Tokens(xs[k + 1..], os[k + 1..])
    ensures var t := OpTokens(os[k])[0]; t != COLON && TokenPrec(t) < PREC_COND
  {
    hide Level, IsTerm, TermTokens, Tokens, OpTokens;
    TokensSplit(xs, os, k);
    LooseSign(os[k]);
    FirstLooseKept(os, k);
  }

  lemma FirstLooseKept(os: seq<Op>, k: nat)
    requires k <= FirstLoose(os)
    ensures FirstLoose(os[..k]) == k
  {
    hide Level;
  }

  lemma LooseSign(o: Op)
    requires IsOp(o) && Level(Sign(o)) < Level(COND)
    ensures var t := OpTokens(o)[0]; t != COLON && TokenPrec(t) < PREC_COND
  {
    hide Level;
    CondLevel();
    LevelPrec(Sign(o));
  }
}
