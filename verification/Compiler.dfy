/** The single-pass compiler (compiler.c), proved against the parser of Pratt and the two-pass
    assembler of Assembler. An error ends the compilation: recovery is not modelled. */
module Compiler {
  import opened Wrappers
  import opened Bytes
  import opened Bytecode
  import opened Syntax
  import opened Pratt
  import opened Dict
  import opened CodeGen
  import opened Assembler
  import opened Backpatch
  import opened Emission
  import opened Assembly
  import opened StmtParse
  import opened Resolve

  // ----- The symbol tables -----

  predicate Tabled(ids: seq<nat>, names: seq<string>, syms: seq<string>) {
    |ids| == |names| && forall i :: 0 <= i < |ids| ==> ids[i] < |syms| && syms[ids[i]] == names[i]
  }

  lemma TabledLater(ids: seq<nat>, names: seq<string>, syms: seq<string>, more: seq<string>)
    requires Tabled(ids, names, syms) && syms <= more
    ensures Tabled(ids, names, more)
  {
  }

  lemma TabledMore(ids: seq<nat>, names: seq<string>, syms: seq<string>, id: nat)
    requires Tabled(ids, names, syms) && NoDuplicates(names) && id < |syms| && syms[id] !in names && |ids| < 4
    ensures var more := names + [syms[id]];
            && Tabled(ids + [id], more, syms) && NoDuplicates(more)
            && Enter(names, syms[id]) == more && SlotOf(more, syms[id]) == |ids|
  {
    assert (names + [syms[id]])[|ids|] == syms[id];
  }

  /** All open holes lie in the buffer. */
  predicate HolesInside(scopes: seq<Scope>, labels: seq<LabelEntry>, n: nat) {
    && (forall i, k :: 0 <= i < |scopes| && 0 <= k < |scopes[i].breaks| ==> InBounds(n, scopes[i].breaks[k]))
    && (forall i, k :: 0 <= i < |labels| && 0 <= k < |labels[i].gotos| ==> InBounds(n, labels[i].gotos[k]))
  }

  lemma HolesInsideLater(scopes: seq<Scope>, labels: seq<LabelEntry>, n: nat, m: nat)
    requires HolesInside(scopes, labels, n) && n <= m
    ensures HolesInside(scopes, labels, m)
  {
  }

  class Context {
    /** The tokens that the scanner still has to deliver; none is TOK_EOF. */
    var toks: seq<Token>
    const dict: SymDict
    /** Innermost scope last. */
    var scopes: seq<Scope>
    var ports: seq<nat>
    var vars: seq<nat>
    var labels: seq<LabelEntry>
    var code: seq<byte>
    /** No error was sent. */
    var ok: bool

    /** The symbols that were known before. */
    ghost const base: seq<string>
    /** The names behind the symbol numbers of vars and ports ... */
    ghost var env: Env
    /** ... and of the labels. */
    ghost var defs: Labels
    ghost var gotos: set<(nat, string)>

    ghost predicate Valid()
      reads `vars, `ports, `env, `labels, `defs, `gotos, `scopes, `code, dict
    {
      && dict.Valid() && base <= dict.syms
      && Tabled(vars, env.vars, dict.syms) && Tabled(ports, env.ports, dict.syms)
      && Unique(env) && Fits(env)
      && LabelsMatch(labels, dict.syms, defs, gotos) && Used(labels, |labels|)
      && HolesInside(scopes, labels, |code|)
    }

    /** Valid, but for a label that has just been looked up. */
    ghost predicate ValidBut(k: nat)
      reads `vars, `ports, `env, `labels, `defs, `gotos, `scopes, `code, dict
    {
      && dict.Valid() && base <= dict.syms
      && Tabled(vars, env.vars, dict.syms) && Tabled(ports, env.ports, dict.syms)
      && Unique(env) && Fits(env)
      && LabelsMatch(labels, dict.syms, defs, gotos) && Used(labels, k)
      && HolesInside(scopes, labels, |code|)
    }

    constructor (toks: seq<Token>, dict: SymDict)
      requires dict.Valid()
      ensures Valid() && ok
      ensures this.toks == toks && this.dict == dict && base == dict.syms && code == [] && scopes == [] && labels == []
      ensures env == Blank && defs == map[] && gotos == {}
    {
      this.toks, this.dict, base := toks, dict, dict.syms;
      scopes, ports, vars, labels, code, ok := [], [], [], [], [], true;
      env, defs, gotos := Blank, map[], {};
    }

    // ----- Emitting bytes -----

    /** asm_op (compiler.c:264-269) for an opcode without operand. */
    method AsmOp(i: Instr)
      requires Valid() && Len(i) == 1
      modifies `code
      ensures Valid() && code == old(code) + Encode(i)
    {
      code := code + Encode(i);
      HolesInsideLater(scopes, labels, |old(code)|, |code|);
    }

    /** asm_push (compiler.c:271-277) */
    method AsmPush(val: byte)
      requires Valid()
      modifies `code
      ensures Valid() && code == old(code) + Encode(Push(val))
    {
      code := code + [2];
      code := code + [val];
      HolesInsideLater(scopes, labels, |old(code)|, |code|);
    }

    /** asm_value (compiler.c:279-298); `k` is the kind of the tree that `x` stands for. */
    method AsmValue(x: Expression, ghost k: Kind)
      requires Valid() && ok && x == Represent(k, env)
      modifies `code, `ok
      ensures Valid() && (ok <==> HasValue(k))
      ensures ok ==> code == old(code) + EncodeAll(LoadCode(k, env))
    {
      match x.kind
      case EXPR_NORMAL =>
      case EXPR_VAR =>
        AsmOp(Load(x.idx));
        assert [Load(x.idx)][1..] == [];
        assert EncodeAll([Load(x.idx)]) == Encode(Load(x.idx));
      case EXPR_PORT => ok := false;
      case EXPR_SEND => ok := false;
    }

    /** The operators that are compiled as the negation of another (compiler.c:574-591). */
    method AsmInfix(op: InfixOp)
      requires Valid()
      modifies `code
      ensures Valid() && code == old(code) + EncodeAll(InfixCode(op))
    {
      hide Valid, Encode, EncodeAll;
      match op {
        case Plain(o) =>
          AsmOp(Bin(o));
          EncodeOne(Bin(o));
        case Neq =>
          AsmOp(Bin(Eql));
          AsmOp(Instr.LNot);
          EncodeTwo(Bin(Eql), Instr.LNot);
        case Gtr =>
          AsmOp(Bin(Lte));
          AsmOp(Instr.LNot);
          EncodeTwo(Bin(Lte), Instr.LNot);
        case Gte =>
          AsmOp(Bin(Lss));
          AsmOp(Instr.LNot);
          EncodeTwo(Bin(Lss), Instr.LNot);
      }
    }

    // ----- Names -----

    /** getvar (compiler.c:229-250) */
    method GetVar(name: string) returns (idx: slot)
      requires Valid() && ok
      modifies `vars, `env, `ok, dict
      ensures ok <==> |Enter(old(env).vars, name)| <= 4
      ensures ok ==> Valid() && env == old(env).(vars := Enter(old(env).vars, name)) && idx == SlotOf(env.vars, name)
      ensures old(dict.syms) <= dict.syms
    {
      hide Tabled, LabelsMatch, HolesInside, NoDuplicates, SlotOf;
      var id := dict.SymId(name);
      LabelsMatchLater(labels, old(dict.syms), dict.syms, defs, gotos);
      TabledLater(vars, env.vars, old(dict.syms), dict.syms);
      TabledLater(ports, env.ports, old(dict.syms), dict.syms);
      var i := 0;
      while i < |vars|
        invariant 0 <= i <= |vars|
        invariant forall j :: 0 <= j < i ==> vars[j] != id
      {
        if vars[i] == id {
          FoundAt(vars, env.vars, dict.syms, i, id);
          return i;
        }
        i := i + 1;
      }
      NotFound(vars, env.vars, dict.syms, id);
      if |vars| == 4 {
        ok := false;
        return 0;
      }
      TabledMore(vars, env.vars, dict.syms, id);
      env := env.(vars := env.vars + [name]);
      vars := vars + [id];
      return |vars| - 1;
    }

    /** getport (compiler.c:206-227) */
    method GetPort(name: string) returns (idx: slot)
      requires Valid() && ok
      modifies `ports, `env, `ok, dict
      ensures ok <==> |Enter(old(env).ports, name)| <= 4
      ensures ok ==> Valid() && env == old(env).(ports := Enter(old(env).ports, name)) && idx == SlotOf(env.ports, name)
      ensures old(dict.syms) <= dict.syms
    {
      hide Tabled, LabelsMatch, HolesInside, NoDuplicates, SlotOf;
      var id := dict.SymId(name);
      LabelsMatchLater(labels, old(dict.syms), dict.syms, defs, gotos);
      TabledLater(vars, env.vars, old(dict.syms), dict.syms);
      TabledLater(ports, env.ports, old(dict.syms), dict.syms);
      var i := 0;
      while i < |ports|
        invariant 0 <= i <= |ports|
        invariant forall j :: 0 <= j < i ==> ports[j] != id
      {
        if ports[i] == id {
          FoundAt(ports, env.ports, dict.syms, i, id);
          return i;
        }
        i := i + 1;
      }
      NotFound(ports, env.ports, dict.syms, id);
      if |ports| == 4 {
        ok := false;
        return 0;
      }
      TabledMore(ports, env.ports, dict.syms, id);
      env := env.(ports := env.ports + [name]);
      ports := ports + [id];
      return |ports| - 1;
    }

    // ----- Expressions -----

    /** The result of a parselet: the rest of the tokens, and the code of the tree. */
    ghost predicate Done(r: Parsed<Expr>, env0: Env, start: seq<byte>, x: Expression)
      reads `toks, `env, `code
    {
      r.Some? && toks == r.value.1 && Emitted(r.value.0, env0, start, env, code, x)
    }

    method Scan() returns (t: Token)
      requires toks != []
      modifies `toks
      ensures t == old(toks)[0] && toks == old(toks)[1..]
    {
      t := toks[0];
      toks := toks[1..];
    }

    method Expect(t: Token)
      requires ok
      modifies `toks, `ok
      ensures ok <==> Next(old(toks), t)
      ensures ok ==> toks == old(toks)[1..]
    {
      if toks != [] && toks[0] == t {
        toks := toks[1..];
      } else {
        ok := false;
      }
    }

    /** primary (compiler.c:412-431); NUMBER is the case of parse_int's range check. */
    method Primary(tok: Token) returns (x: Expression)
      requires Valid() && ok && Operand(tok).Some?
      modifies `code, `vars, `ports, `env, `ok, dict
      ensures ok <==> Good(old(env), Some((Operand(tok).value, old(toks))))
      ensures ok ==> Valid() && Extends(old(env), env) && Done(Some((Operand(tok).value, old(toks))), old(env), old(code), x)
    {
      hide Valid, SlotOf;
      x := Expression(EXPR_NORMAL, 0);
      PrimaryEmitted(Operand(tok).value, env, code);
      FitsNow();
      match tok {
        case NUMBER(n) =>
          if n > 255 {
            ok := false;
            return;
          }
          AsmPush(n);
        case CHAR(c) => AsmPush(c);
        case VARIABLE(name) =>
          var i := GetVar(name);
          x := Expression(EXPR_VAR, i);
        case PORT(name) =>
          var i := GetPort(name);
          x := Expression(EXPR_PORT, i);
      }
    }

    /** parse_expr (compiler.c:737-767) */
    method ParseExpr(prec: nat) returns (x: Expression)
      requires Valid() && ok
      modifies `toks, `code, `vars, `ports, `env, `ok, dict
      ensures ok <==> Good(old(env), Pratt.ParseExpr(old(toks), prec))
      ensures ok ==> Valid() && Extends(old(env), env) && Done(Pratt.ParseExpr(old(toks), prec), old(env), old(code), x)
      decreases |toks|, 1
    {
      hide Valid, Emitted, Names, Legal, Known;
      ghost var env0, start, ts := env, code, toks;
      x := Expression(EXPR_NORMAL, 0);
      FitsNow();
      if toks == [] {
        ok := false;
        return;
      }
      x := PrefixParselet();
      if !ok {
        if Pratt.ParsePrefix(ts).Some? {
          var (le, rest) := Pratt.ParsePrefix(ts).value;
          if Good(env0, Pratt.ParseInfixes(le, rest, prec)) {
            InfixesGood(le, rest, prec, env0);
          }
        }
        return;
      }
      ghost var le := Pratt.ParsePrefix(ts).value.0;
      while prec < NextPrec(toks)
        invariant ok && Valid() && Extends(env0, env) && Emitted(le, env0, start, env, code, x)
        invariant |toks| < |ts|
        invariant Pratt.ParseExpr(ts, prec) == Pratt.ParseInfixes(le, toks, prec)
        decreases |toks|
      {
        ghost var r := Pratt.ParseInfix(le, toks);
        x := InfixParselet(x, le, env0, start);
        if !ok {
          if r.Some? && Good(env0, Pratt.ParseInfixes(r.value.0, r.value.1, prec)) {
            InfixesGood(r.value.0, r.value.1, prec, env0);
          }
          return;
        }
        le := r.value.0;
      }
      EmittedKind(le, env0, start, env, code, x);
      FitsNow();
    }

    /** parse_expr and asm_value, one after the other as for every operand. */
    method ParseValue(prec: nat)
      requires Valid() && ok
      modifies `toks, `code, `vars, `ports, `env, `ok, dict
      ensures ok <==> GoodValue(old(env), Pratt.ParseExpr(old(toks), prec))
      ensures ok ==> Valid() && Extends(old(env), env)
      ensures ok ==> var r := Pratt.ParseExpr(old(toks), prec);
                     r.Some? && toks == r.value.1 && ValueEmitted(r.value.0, old(env), old(code), env, code)
      decreases |toks|, 2
    {
      hide Valid, Emitted, ValueEmitted, KindOf, HasValue, Represent, Pratt.ParseExpr, Names, Legal, EncodeAll;
      ghost var env0, start, ts := env, code, toks;
      var x := ParseExpr(prec);
      if ok {
        ghost var e, c := Pratt.ParseExpr(ts, prec).value.0, code;
        EmittedKind(e, env0, start, env, code, x);
        AsmValue(x, KindOf(e));
        if ok {
          Valued(e, env0, start, env, c, x);
        }
      }
    }

    /** The prefix column of the parse table (compiler.c:108-150). */
    method PrefixParselet() returns (x: Expression)
      requires Valid() && ok && toks != []
      modifies `toks, `code, `vars, `ports, `env, `ok, dict
      ensures ok <==> Good(old(env), Pratt.ParsePrefix(old(toks)))
      ensures ok ==> Valid() && Extends(old(env), env) && Done(Pratt.ParsePrefix(old(toks)), old(env), old(code), x)
      decreases |toks|, 0
    {
      hide Valid, Emitted, Names, Legal, Known, Pratt.ParseExpr;
      ghost var ts := toks;
      x := Expression(EXPR_NORMAL, 0);
      var tok := Scan();
      assert [tok] + toks == ts;
      if tok.NUMBER? || tok.CHAR? || tok.VARIABLE? || tok.PORT? {
        x := Primary(tok);
      } else if tok.LPAREN? {
        x := Group();
      } else if StartsExpr(tok) {
        x := Prefix(tok);
      } else {
        ok := false;
      }
    }

    /** The infix column of the parse table. */
    method InfixParselet(left: Expression, ghost le: Expr, ghost env0: Env, ghost start: seq<byte>)
      returns (x: Expression)
      requires Valid() && ok && Emitted(le, env0, start, env, code, left) && Unique(env0) && NextPrec(toks) > PREC_NONE
      modifies `toks, `code, `vars, `ports, `env, `ok, dict
      ensures ok <==> Good(env0, Pratt.ParseInfix(le, old(toks)))
      ensures ok ==> Valid() && Extends(old(env), env) && Done(Pratt.ParseInfix(le, old(toks)), env0, start, x)
      decreases |toks|, 0
    {
      hide Valid, Emitted, Names, Legal, Known, Pratt.ParseInfix;
      ghost var ts := toks;
      var tok := Scan();
      assert [tok] + toks == ts;
      match tok {
        case SEND => x := SendP(left, le, env0, start);
        case COMMA => x := CommaP(left, le, env0, start);
        case ASSIGN => x := AssignP(left, le, env0, start);
        case OPASSIGN(op) => x := OpAssignP(left, op, le, env0, start);
        case COND => x := CondP(left, le, env0, start);
        case INFIX(op) => x := BinaryP(left, op, le, env0, start);
        case INC => x := PostfixP(left, true, le, env0, start);
        case DEC => x := PostfixP(left, false, le, env0, start);
      }
    }

    /** group (compiler.c:433-443) */
    method Group() returns (x: Expression)
      requires Valid() && ok
      modifies `toks, `code, `vars, `ports, `env, `ok, dict
      ensures ok <==> Good(old(env), Pratt.ParsePrefix([LPAREN] + old(toks)))
      ensures ok ==> Valid() && Extends(old(env), env) && Done(Pratt.ParsePrefix([LPAREN] + old(toks)), old(env), old(code), x)
      decreases |toks|, 3
    {
      hide Valid, Emitted, Names, Legal, Known, Pratt.ParseExpr;
      ghost var ts := toks;
      assert ([LPAREN] + ts)[1..] == ts;
      x := ParseExpr(PREC_NONE);
      if !ok {
        return;
      }
      Expect(RPAREN);
    }

    /** prefix (compiler.c:445-497) */
    method Prefix(tok: Token) returns (x: Expression)
      requires Valid() && ok && StartsExpr(tok) && Operand(tok).None? && !tok.LPAREN?
      modifies `toks, `code, `vars, `ports, `env, `ok, dict
      ensures ok <==> Good(old(env), Pratt.ParsePrefix([tok] + old(toks)))
      ensures ok ==> Valid() && Extends(old(env), env) && Done(Pratt.ParsePrefix([tok] + old(toks)), old(env), old(code), x)
      decreases |toks|, 3
    {
      hide Valid, Emitted, ValueEmitted, Legal, Known, Names, KindOf, HasValue, EncodeAll, Encode, Represent,
           Pratt.ParseExpr, Prefixed;
      ghost var ts, env0, start := toks, env, code;
      assert ([tok] + ts)[1..] == ts;
      ghost var r := Pratt.ParseExpr(ts, PREC_UNARY);
      if r.Some? {
        PrefixTree(tok, r.value.0, env0);
      }
      x := ParseExpr(PREC_UNARY);
      if !ok {
        return;
      }
      ghost var e, c1 := r.value.0, code;
      EmittedKind(e, env0, start, env, code, x);
      FitsNow();
      if tok.INC? || tok.DEC? {
        if x.kind != EXPR_VAR {
          ok := false;
          return;
        }
        AsmOp(Load(x.idx));
        AsmPush(1);
        AsmOp(Bin(StepOp(tok.INC?)));
        AsmOp(Save(x.idx));
        PreStepEmitted(tok.INC?, e, env0, start, env, c1, x, code);
      } else {
        AsmValue(x, KindOf(e));
        if !ok {
          return;
        }
        Valued(e, env0, start, env, c1, x);
        c1 := code;
        match PrefixOp(tok) {
          case Posate =>
          case Negative => AsmOp(Neg);
          case Lognot => AsmOp(Instr.LNot);
          case Bitnot => AsmOp(Instr.Not);
        }
        UnaryEmitted(PrefixOp(tok), e, env0, start, env, c1, code);
        x := Expression(EXPR_NORMAL, 0);
      }
    }

    /** binary (compiler.c:546-619) */
    method BinaryP(left: Expression, op: InfixOp, ghost le: Expr, ghost env0: Env, ghost start: seq<byte>)
      returns (x: Expression)
      requires Valid() && ok && Emitted(le, env0, start, env, code, left) && Unique(env0)
      modifies `toks, `code, `vars, `ports, `env, `ok, dict
      ensures ok <==> Good(env0, Pratt.ParseInfix(le, [INFIX(op)] + old(toks)))
      ensures ok ==> Valid() && Extends(old(env), env) && Done(Pratt.ParseInfix(le, [INFIX(op)] + old(toks)), env0, start, x)
      decreases |toks|, 3
    {
      hide Valid, Emitted, ValueEmitted, Known, KindOf, HasValue, EncodeAll, Encode, Represent, Pratt.ParseExpr,
           Legal, Names;
      ghost var ts, env1 := toks, env;
      assert ([INFIX(op)] + ts)[1..] == ts;
      x := Expression(EXPR_NORMAL, 0);
      if Pratt.ParseExpr(ts, InfixPrec(op)).Some? {
        BinaryTree(le, op, Pratt.ParseExpr(ts, InfixPrec(op)).value.0, env0);
      }
      EmittedKind(le, env0, start, env, code, left);
      ghost var c0 := code;
      AsmValue(left, KindOf(le));
      if !ok {
        return;
      }
      Valued(le, env0, start, env, c0, left);
      ghost var c1 := code;
      ParseValue(InfixPrec(op));
      if !ok {
        return;
      }
      ghost var r, c2 := Pratt.ParseExpr(ts, InfixPrec(op)).value.0, code;
      FitsNow();
      AsmInfix(op);
      BinaryEmitted(le, op, r, env0, start, env1, c1, env, c2, code);
    }

    /** assign (compiler.c:621-634), for ASSIGN. */
    method AssignP(left: Expression, ghost le: Expr, ghost env0: Env, ghost start: seq<byte>) returns (x: Expression)
      requires Valid() && ok && Emitted(le, env0, start, env, code, left) && Unique(env0)
      modifies `toks, `code, `vars, `ports, `env, `ok, dict
      ensures ok <==> Good(env0, Pratt.ParseInfix(le, [ASSIGN] + old(toks)))
      ensures ok ==> Valid() && Extends(old(env), env) && Done(Pratt.ParseInfix(le, [ASSIGN] + old(toks)), env0, start, x)
      decreases |toks|, 3
    {
      hide Valid, Emitted, ValueEmitted, Known, KindOf, HasValue, EncodeAll, Encode, Represent, Pratt.ParseExpr,
           Legal, Names, StepOp;
      ghost var ts, env1, c0 := toks, env, code;
      assert ([ASSIGN] + ts)[1..] == ts;
      EmittedKind(le, env0, start, env, code, left);
      if Pratt.ParseExpr(ts, PREC_ASSIGN - 1).Some? {
        AssignTree(le, None, Pratt.ParseExpr(ts, PREC_ASSIGN - 1).value.0, env0);
      }
      x := left;
      if left.kind != EXPR_VAR {
        ok := false;
        return;
      }
      ParseValue(PREC_ASSIGN - 1);
      if !ok {
        return;
      }
      ghost var r, c1 := Pratt.ParseExpr(ts, PREC_ASSIGN - 1).value.0, code;
      FitsNow();
      AsmOp(Save(left.idx));
      AssignEmitted(le, r, env0, start, env1, c0, left, env, c1, code);
    }

    /** assign (compiler.c:635-680), for the other assignment operators. */
    method OpAssignP(left: Expression, op: AssignOp, ghost le: Expr, ghost env0: Env, ghost start: seq<byte>)
      returns (x: Expression)
      requires Valid() && ok && Emitted(le, env0, start, env, code, left) && Unique(env0)
      modifies `toks, `code, `vars, `ports, `env, `ok, dict
      ensures ok <==> Good(env0, Pratt.ParseInfix(le, [OPASSIGN(op)] + old(toks)))
      ensures ok ==> Valid() && Extends(old(env), env) && Done(Pratt.ParseInfix(le, [OPASSIGN(op)] + old(toks)), env0, start, x)
      decreases |toks|, 3
    {
      hide Valid, Emitted, ValueEmitted, Known, KindOf, HasValue, EncodeAll, Encode, Represent, Pratt.ParseExpr,
           Legal, Names, StepOp;
      ghost var ts, env1, c0 := toks, env, code;
      assert ([OPASSIGN(op)] + ts)[1..] == ts;
      EmittedKind(le, env0, start, env, code, left);
      if Pratt.ParseExpr(ts, PREC_ASSIGN - 1).Some? {
        AssignTree(le, Some(op), Pratt.ParseExpr(ts, PREC_ASSIGN - 1).value.0, env0);
      }
      x := left;
      if left.kind != EXPR_VAR {
        ok := false;
        return;
      }
      AsmOp(Load(left.idx));
      ghost var c1 := code;
      ParseValue(PREC_ASSIGN - 1);
      if !ok {
        return;
      }
      ghost var r, c2 := Pratt.ParseExpr(ts, PREC_ASSIGN - 1).value.0, code;
      FitsNow();
      AsmOp(Bin(op));
      AsmOp(Save(left.idx));
      OpAssignEmitted(le, op, r, env0, start, env1, c0, left, c1, env, c2, code);
    }

    /** comma (compiler.c:536-544) */
    method CommaP(left: Expression, ghost le: Expr, ghost env0: Env, ghost start: seq<byte>) returns (x: Expression)
      requires Valid() && ok && Emitted(le, env0, start, env, code, left) && Unique(env0)
      modifies `toks, `code, `vars, `ports, `env, `ok, dict
      ensures ok <==> Good(env0, Pratt.ParseInfix(le, [COMMA] + old(toks)))
      ensures ok ==> Valid() && Extends(old(env), env) && Done(Pratt.ParseInfix(le, [COMMA] + old(toks)), env0, start, x)
      decreases |toks|, 3
    {
      hide Valid, Emitted, ValueEmitted, Known, KindOf, HasValue, EncodeAll, Encode, Represent, Pratt.ParseExpr,
           Legal, Names, DropCode;
      ghost var ts, env1, c0 := toks, env, code;
      assert ([COMMA] + ts)[1..] == ts;
      EmittedKind(le, env0, start, env, code, left);
      if Pratt.ParseExpr(ts, PREC_COMMA).Some? {
        CommaTree(le, Pratt.ParseExpr(ts, PREC_COMMA).value.0, env0);
      }
      if left.kind == EXPR_NORMAL {
        AsmOp(Instr.Pop);
      }
      DropEmitted(le, c0, code);
      ghost var c1 := code;
      x := ParseExpr(PREC_COMMA);
      if !ok {
        return;
      }
      ghost var r := Pratt.ParseExpr(ts, PREC_COMMA).value.0;
      EmittedKind(r, env1, c1, env, code, x);
      FitsNow();
      CommaEmitted(le, r, env0, start, env1, c0, left, c1, env, code, x);
    }

    /** postfix (compiler.c:709-735) */
    method PostfixP(left: Expression, up: bool, ghost le: Expr, ghost env0: Env, ghost start: seq<byte>)
      returns (x: Expression)
      requires Valid() && ok && Emitted(le, env0, start, env, code, left) && Unique(env0)
      modifies `toks, `code, `vars, `ports, `env, `ok, dict
      ensures ok <==> Good(env0, Pratt.ParseInfix(le, [if up then INC else DEC] + old(toks)))
      ensures ok ==> Valid() && Extends(old(env), env) && Done(Pratt.ParseInfix(le, [if up then INC else DEC] + old(toks)), env0, start, x)
      decreases |toks|, 3
    {
      hide Valid, Emitted, ValueEmitted, Known, KindOf, HasValue, EncodeAll, Encode, Represent, Pratt.ParseExpr,
           Legal, Names, StepOp;
      ghost var ts, env1, c0 := toks, env, code;
      assert ([if up then INC else DEC] + ts)[1..] == ts;
      EmittedKind(le, env0, start, env, code, left);
      PostStepTree(le, up, env0);
      x := Expression(EXPR_NORMAL, 0);
      FitsNow();
      if left.kind != EXPR_VAR {
        ok := false;
        return;
      }
      AsmOp(Load(left.idx));
      AsmOp(Dup);
      AsmPush(1);
      AsmOp(Bin(StepOp(up)));
      AsmOp(Save(left.idx));
      PostStepEmitted(up, le, env0, start, env, c0, left, code);
    }

    /** send (compiler.c:499-534) */
    method SendP(left: Expression, ghost le: Expr, ghost env0: Env, ghost start: seq<byte>) returns (x: Expression)
      requires Valid() && ok && Emitted(le, env0, start, env, code, left) && Unique(env0)
      modifies `toks, `code, `vars, `ports, `env, `ok, dict
      ensures ok <==> Good(env0, Pratt.ParseInfix(le, [SEND] + old(toks)))
      ensures ok ==> Valid() && Extends(old(env), env) && Done(Pratt.ParseInfix(le, [SEND] + old(toks)), env0, start, x)
      decreases |toks|, 3
    {
      hide Valid, Emitted, ValueEmitted, Known, KindOf, HasValue, EncodeAll, Encode, Represent, Pratt.ParseExpr,
           Legal, Names, StepOp;
      ghost var ts, env1, c0 := toks, env, code;
      assert ([SEND] + ts)[1..] == ts;
      EmittedKind(le, env0, start, env, code, left);
      if Pratt.ParseExpr(ts, PREC_SEND).Some? {
        SendTree(le, Pratt.ParseExpr(ts, PREC_SEND).value.0, env0);
      }
      x := Expression(EXPR_SEND, 0);
      var right := ParseExpr(PREC_SEND);
      if !ok {
        return;
      }
      ghost var r, c1 := Pratt.ParseExpr(ts, PREC_SEND).value.0, code;
      EmittedKind(r, env1, c0, env, code, right);
      FitsNow();
      if right.kind == EXPR_PORT {
        AsmOp(Recv(right.idx));
        if left.kind == EXPR_VAR {
          AsmOp(Save(left.idx));
        } else if left.kind == EXPR_PORT {
          AsmOp(Instr.Send(left.idx));
        } else {
          ok := false;
          return;
        }
        ReceiveEmitted(le, r, env0, start, env1, c0, left, env, c1, right, code);
      } else if left.kind == EXPR_PORT {
        AsmValue(right, KindOf(r));
        if !ok {
          return;
        }
        Valued(r, env1, c0, env, c1, right);
        c1 := code;
        AsmOp(Instr.Send(left.idx));
        SendEmitted(le, r, env0, start, env1, c0, left, env, c1, code);
      } else {
        ok := false;
      }
    }

    /** cond (compiler.c:683-697), up to the colon. */
    method CondP(left: Expression, ghost le: Expr, ghost env0: Env, ghost start: seq<byte>) returns (x: Expression)
      requires Valid() && ok && Emitted(le, env0, start, env, code, left) && Unique(env0)
      modifies `toks, `code, `vars, `ports, `env, `ok, dict
      ensures ok <==> Good(env0, Pratt.ParseInfix(le, [COND] + old(toks)))
      ensures ok ==> Valid() && Extends(old(env), env) && Done(Pratt.ParseInfix(le, [COND] + old(toks)), env0, start, x)
      decreases |toks|, 3
    {
      hide Valid, Emitted, ValueEmitted, KindOf, HasValue, EncodeAll, Encode, Represent, Pratt.ParseExpr,
           Pratt.ParseInfix, Otherwise, Names;
      ghost var ts, env1, c0 := toks, env, code;
      ghost var ra := Pratt.ParseExpr(ts, PREC_COND - 1);
      CondParsed(le, ts);
      if ra.Some? && Good(env0, Otherwise(le, ra.value.0, ra.value.1)) {
        OtherwiseGood(le, ra.value.0, ra.value.1, env0);
      }
      EmittedKind(le, env0, start, env, code, left);
      x := left;
      AsmValue(left, KindOf(le));
      if !ok {
        return;
      }
      Valued(le, env0, start, env, c0, left);
      ghost var c1 := code;
      ParseValue(PREC_COND - 1);
      if !ok {
        return;
      }
      x := CondOtherwise(le, ra.value.0, env0, start, env1, c1);
    }

    /** cond (compiler.c:697-706), behind the second operand. */
    method CondOtherwise(ghost c: Expr, ghost a: Expr, ghost env0: Env, ghost start: seq<byte>, ghost env1: Env,
                         ghost c1: seq<byte>)
      returns (x: Expression)
      requires Valid() && ok && Unique(env0) && Extends(env1, env)
      requires ValueEmitted(c, env0, start, env1, c1) && ValueEmitted(a, env1, c1, env, code)
      modifies `toks, `code, `vars, `ports, `env, `ok, dict
      ensures ok <==> Good(env0, Otherwise(c, a, old(toks)))
      ensures ok ==> Valid() && Extends(old(env), env) && Done(Otherwise(c, a, old(toks)), env0, start, x)
      decreases |toks|, 3
    {
      hide Valid, Emitted, ValueEmitted, KindOf, HasValue, EncodeAll, Encode, Represent, Pratt.ParseExpr, Names,
           Legal, LegalValue, Known, Good, GoodValue, Otherwise;
      ghost var env2, c2, ts := env, code, toks;
      ValueFacts(c, env0, start, env1, c1);
      ValueFacts(a, env1, c1, env2, c2);
      OtherwiseIff(c, a, ts, env0);
      x := Expression(EXPR_NORMAL, 0);
      AsmOp(Bin(LAnd));
      ghost var c3 := code;
      Expect(COLON);
      if !ok {
        return;
      }
      ParseValue(PREC_COND - 1);
      if !ok {
        return;
      }
      ghost var b, c4 := Pratt.ParseExpr(ts[1..], PREC_COND - 1).value.0, code;
      FitsNow();
      AsmOp(Bin(LOr));
      CondEmitted(c, a, b, env0, start, env1, c1, env2, c2, c3, env, c4, code);
    }

    lemma FitsNow()
      requires Valid()
      ensures Fits(env) && Unique(env)
    {
    }

    // ----- Jumps, scopes and labels -----

    ghost function State(): Snap
      reads `env, `code, `scopes, `defs, `gotos
    {
      Snap(env, code, scopes, defs, gotos)
    }

    /** here (compiler.c:258-262): 16 bits of the length. */
    function Here(): (a: nat)
      reads `code
      ensures a < 0x10000
    {
      |code| % 0x10000
    }

    /** patch_addr (compiler.c:300-306) */
    method PatchAddr(idx: nat, addr: nat)
      requires Valid() && InBounds(|code|, idx)
      modifies `code
      ensures Valid() && code == Patch(old(code), idx, addr)
    {
      code := code[idx := Lo(addr)];
      code := code[(idx + 1) % 0x10000 := Hi(addr)];
    }

    /** patch_here (compiler.c:308-313) */
    method PatchHere(idx: nat)
      requires Valid() && InBounds(|code|, idx)
      modifies `code
      ensures Valid() && code == Patch(old(code), idx, |old(code)| % 0x10000)
    {
      PatchAddr(idx, Here());
    }

    /** asm_jump2 (compiler.c:323-330): the two reserved bytes may hold anything. */
    method AsmJump2(op: byte) returns (idx: nat)
      requires Valid()
      modifies `code
      ensures Valid() && |code| == |old(code)| + 3 && Opcode(old(code), code, op)
      ensures idx == (|old(code)| + 1) % 0x10000 && InBounds(|code|, idx)
    {
      code := code + [op];
      idx := |code| % 0x10000;
      var b0: byte := *;
      var b1: byte := *;
      code := code + [b0, b1];
      HolesInsideLater(scopes, labels, |old(code)|, |code|);
      HoleInside(|code|, |old(code)| + 1);
    }

    /** asm_jump (compiler.c:315-321) */
    method AsmJump(i: Instr)
      requires Valid() && (i.Jmp? || i.FJmp?)
      modifies `code
      ensures Valid() && Jumped(old(code), code, i)
    {
      var idx := AsmJump2(JumpOp(i));
      ghost var c := code;
      PatchAddr(idx, i.addr);
      assert |code| <= CODE_MAX ==> code == old(code) + Encode(i) by {
        if |code| <= CODE_MAX {
          assert code == c[..|old(code)| + 1] + [Lo(i.addr), Hi(i.addr)];
        }
      }
    }

    /** push_scope (compiler.c:332-341) */
    method PushScope()
      requires Valid()
      modifies `scopes
      ensures Valid() && scopes == Pushed(old(scopes), [], |code|)
    {
      scopes := scopes + [Scope([], Here())];
    }

    /** asm_break (compiler.c:343-349) */
    method AsmBreak(op: byte)
      requires Valid() && scopes != []
      modifies `code, `scopes
      ensures Valid() && |code| == |old(code)| + 3 && Opcode(old(code), code, op)
      ensures var n := |old(scopes)| - 1;
              scopes == old(scopes)[n := Scope(old(scopes)[n].breaks + [(|old(code)| + 1) % 0x10000], old(scopes)[n].continueAddr)]
    {
      var idx := AsmJump2(op);
      var scope := scopes[|scopes| - 1];
      scopes := scopes[|scopes| - 1 := Scope(scope.breaks + [idx], scope.continueAddr)];
    }

    /** pop_scope (compiler.c:358-372): all breaks of the innermost loop go here. A repair: the C code
        frees the enclosing scope instead of the popped one (compiler.c:370-371), so that behind a loop
        inside a loop, as in `while (a) { while (b) ; break; }`, it goes on with freed memory. */
    method PopScope()
      requires Valid() && scopes != []
      modifies `code, `scopes
      ensures Valid() && AllInBounds(|old(code)|, Innermost(old(scopes)))
      ensures code == PatchAll(old(code), Innermost(old(scopes)), |old(code)| % 0x10000)
      ensures scopes == old(scopes)[..|old(scopes)| - 1]
    {
      var breaks := scopes[|scopes| - 1].breaks;
      var i := 0;
      assert AllInBounds(|code|, breaks);
      while i < |breaks|
        invariant 0 <= i <= |breaks|
        invariant Valid() && |code| == |old(code)| && AllInBounds(|code|, breaks)
        invariant PatchAll(code, breaks[i..], Here()) == PatchAll(old(code), breaks, |old(code)| % 0x10000)
        modifies `code
      {
        assert breaks[i..][0] == breaks[i] && breaks[i..][1..] == breaks[i + 1..];
        PatchHere(breaks[i]);
        i := i + 1;
      }
      scopes := scopes[..|scopes| - 1];
    }

    /** find_label (compiler.c:374-392). A repair: here a new label is undefined and has no gotos; in the
        C code those fields of it are never set (compiler.c:383-391), so that any body with a label or a
        goto, as `{ l: goto l; }`, reads indeterminate data. */
    method FindLabel(id: nat) returns (k: nat)
      requires Valid() && id < |dict.syms|
      modifies `labels
      ensures ValidBut(k) && k < |labels| && labels[k].id == id
    {
      hide LabelsMatch, Tabled, NoDuplicates;
      k := 0;
      while k < |labels|
        invariant 0 <= k <= |labels|
        invariant forall j :: 0 <= j < k ==> labels[j].id != id
      {
        if labels[k].id == id {
          return;
        }
        k := k + 1;
      }
      FreshLabel(labels, dict.syms, id, defs, gotos);
      labels := labels + [LabelEntry(id, false, 0, [])];
    }

    method LookUp(name: string) returns (id: nat)
      requires Valid()
      modifies dict
      ensures Valid() && id < |dict.syms| && dict.syms[id] == name
    {
      hide LabelsMatch, Tabled, NoDuplicates, HolesInside;
      id := dict.SymId(name);
      LabelsMatchLater(labels, old(dict.syms), dict.syms, defs, gotos);
      TabledLater(vars, env.vars, old(dict.syms), dict.syms);
      TabledLater(ports, env.ports, old(dict.syms), dict.syms);
    }

    /** add_label_here (compiler.c:394-401): of several definitions the last one counts. */
    method AddLabelHere(name: string)
      requires Valid()
      modifies `labels, `defs, dict
      ensures Valid() && defs == old(defs)[name := |code| % 0x10000]
    {
      hide LabelsMatch, Tabled, NoDuplicates;
      var id := LookUp(name);
      var k := FindLabel(id);
      DefinedLabel(labels, dict.syms, k, Here(), defs, gotos);
      labels := labels[k := labels[k].(defined := true, addr := Here())];
      defs := defs[name := Here()];
    }

    /** asm_goto (compiler.c:403-410) */
    method AsmGoto(name: string)
      requires Valid()
      modifies `labels, `gotos, `code, dict
      ensures Valid() && |code| == |old(code)| + 3 && Opcode(old(code), code, OP_JMP)
      ensures gotos == old(gotos) + {((|old(code)| + 1) % 0x10000, name)}
    {
      hide LabelsMatch, Tabled, NoDuplicates;
      var id := LookUp(name);
      var idx := AsmJump2(OP_JMP);
      var k := FindLabel(id);
      OneMoreGoto(labels, dict.syms, k, idx, defs, gotos);
      labels := labels[k := labels[k].(gotos := labels[k].gotos + [idx])];
      gotos := gotos + {(idx, name)};
    }

    // ----- Statements -----

    /** The result of a statement parser, started in state `a`. */
    ghost predicate StmtDone(r: Parsed<Stmt>, a: Snap, brk: nat, lab: Labels)
      reads `toks, `env, `code, `scopes, `defs, `gotos
    {
      r.Some? && toks == r.value.1 && After(r.value.0, a, State(), brk, lab)
    }

    /** What was compiled without an error is error-free. */
    lemma DoneIsGood(r: Parsed<Stmt>, a: Snap, brk: nat, lab: Labels)
      requires Valid() && StmtDone(r, a, brk, lab)
      ensures StmtGood(a.env, a.scopes != [], r)
    {
      hide LegalStmt, StmtNames, Grown, Marked, StmtKnown, Asm, Open;
      FitsNow();
    }

    /** An expression whose value, if it leaves one, is popped. */
    method ParseDropped()
      requires Valid() && ok
      modifies `toks, `code, `vars, `ports, `env, `ok, dict
      ensures ok <==> Good(old(env), Pratt.ParseExpr(old(toks), PREC_NONE))
      ensures ok ==> Valid() && Extends(old(env), env)
      ensures ok ==> var r := Pratt.ParseExpr(old(toks), PREC_NONE).value;
                     && toks == r.1 && Legal(r.0) && Known(r.0, env) && env == Names(old(env), r.0)
                     && code == old(code) + EncodeAll(EffectCode(r.0, env))
    {
      hide Valid, KindOf, HasValue, Represent, Pratt.ParseExpr, Names, Legal, EncodeAll, Encode, Known, Code, DropCode;
      ghost var env0, start, ts := env, code, toks;
      var x := ParseExpr(PREC_NONE);
      if !ok {
        return;
      }
      ghost var e, c := Pratt.ParseExpr(ts, PREC_NONE).value.0, code;
      EmittedKind(e, env0, start, env, code, x);
      if x.kind == EXPR_NORMAL {
        AsmOp(Instr.Pop);
      }
      DropEmitted(e, c, code);
      Appended(start, Code(e, env), DropCode(KindOf(e)));
    }

    /** parse_branch_stmt (compiler.c:769-802) */
    method ParseBranchStmt(ghost brk: nat, ghost lab: Labels)
      requires Valid() && ok && toks != [] && (toks[0].BREAK? || toks[0].CONTINUE? || toks[0].GOTO?)
      modifies this, dict
      ensures ok <==> StmtGood(old(env), old(scopes) != [], Pratt.ParseStmt(old(toks)))
      ensures ok ==> Valid() && Extends(old(env), env) && StmtDone(Pratt.ParseStmt(old(toks)), old(State()), brk, lab)
      decreases |toks|, 0
    {
      hide Valid, After, Pratt.ParseStmt, LegalStmt, StmtNames, Fits, StmtGood, Unique;
      ghost var ts, a := toks, State();
      FitsNow();
      BranchGood(ts, env, scopes != []);
      var cmd := Scan();
      match cmd {
        case BREAK => BreakJump(a, brk, lab);
        case CONTINUE => ContinueJump(a, brk, lab);
        case GOTO =>
          if toks == [] || !toks[0].IDENTIFIER? {
            ok := false;
            return;
          }
          var target := Scan();
          GotoJump(target.name, a, brk, lab);
      }
      if !ok {
        return;
      }
      Expect(SEMICOLON);
    }

    /** parse_branch_stmt (compiler.c:777-784) */
    method BreakJump(ghost a: Snap, ghost brk: nat, ghost lab: Labels)
      requires Valid() && ok && State() == a
      modifies `code, `scopes, `ok
      ensures ok <==> old(scopes) != []
      ensures ok ==> Valid() && After(Break, a, State(), brk, lab)
    {
      hide Valid, After, BreaksOf, SameLoops, Opcode, InBounds;
      if scopes == [] {
        ok := false;
        return;
      }
      AsmBreak(OP_JMP);
      BreakMarked(a.scopes, |a.code|, scopes);
      BreakAfter(a, State(), brk, lab);
    }

    /** parse_branch_stmt (compiler.c:785-792) */
    method ContinueJump(ghost a: Snap, ghost brk: nat, ghost lab: Labels)
      requires Valid() && ok && State() == a
      modifies `code, `ok
      ensures ok <==> old(scopes) != []
      ensures ok ==> Valid() && After(Continue, a, State(), brk, lab)
    {
      hide Valid, After, Jumped;
      if scopes == [] {
        ok := false;
        return;
      }
      AsmJump(Jmp(scopes[|scopes| - 1].continueAddr));
      ContinueAfter(a, State(), brk, lab);
    }

    /** parse_branch_stmt (compiler.c:793-796) */
    method GotoJump(name: string, ghost a: Snap, ghost brk: nat, ghost lab: Labels)
      requires Valid() && State() == a
      modifies `labels, `gotos, `code, dict
      ensures Valid() && After(Goto(name), a, State(), brk, lab)
    {
      hide Valid, After, Opcode;
      AsmGoto(name);
      GotoAfter(name, a, State(), brk, lab);
    }

    /** parse_if_stmt (compiler.c:816-844) */
    method ParseIfStmt(ghost brk: nat, ghost lab: Labels)
      requires Valid() && ok && Next(toks, IF)
      modifies this, dict
      ensures ok <==> StmtGood(old(env), old(scopes) != [], Pratt.ParseStmt(old(toks)))
      ensures ok ==> Valid() && Extends(old(env), env) && StmtDone(Pratt.ParseStmt(old(toks)), old(State()), brk, lab)
      decreases |toks|, 0
    {
      hide Valid, Emitted, ValueEmitted, After, LegalStmt, StmtNames, Names, Legal, Known, KindOf, HasValue,
           EncodeAll, Encode, Pratt.ParseExpr, Pratt.ParseStmt, Patch, ValueCode, IfRest, ElseRest;
      ghost var ts, a, inLoop := toks, State(), scopes != [];
      IfParsed(ts);
      FitsNow();
      var tok := Scan();
      Expect(LPAREN);
      if !ok {
        return;
      }
      ghost var re := Pratt.ParseExpr(ts[2..], PREC_NONE);
      if re.Some? && StmtGood(a.env, inLoop, IfRest(re.value.0, re.value.1)) {
        IfRestGood(a.env, inLoop, re.value.0, re.value.1);
      }
      ParseValue(PREC_NONE);
      if !ok {
        return;
      }
      IfBranches(re.value.0, a, brk, lab);
    }

    /** parse_if_stmt (compiler.c:828-843), behind the condition. */
    method IfBranches(ghost e: Expr, ghost a: Snap, ghost brk: nat, ghost lab: Labels)
      requires Valid() && ok && Unique(a.env) && Extends(a.env, env)
      requires ValueEmitted(e, a.env, a.code, env, code) && State() == a.(env := env, code := code)
      modifies this, dict
      ensures ok <==> StmtGood(a.env, a.scopes != [], IfRest(e, old(toks)))
      ensures ok ==> Valid() && Extends(a.env, env) && StmtDone(IfRest(e, old(toks)), a, brk, lab)
      decreases |toks|, 0
    {
      hide Valid, After, LegalStmt, StmtNames, Names, Legal, LegalValue, Known, EncodeAll, Encode, Pratt.ParseStmt,
           Patch, ValueCode, ElseRest;
      ghost var ts, c1, inLoop := toks, code, scopes != [];
      if StmtGood(a.env, inLoop, IfRest(e, ts)) {
        IfRestGood(a.env, inLoop, e, ts);
      }
      Expect(RPAREN);
      if !ok {
        return;
      }
      var jmpfalse := AsmJump2(OP_FJMP);
      ghost var b := State();
      ParseStmt(brk, lab);
      if !ok {
        return;
      }
      IfTail(e, Pratt.ParseStmt(ts[1..]).value.0, a, c1, b, State(), jmpfalse, brk, lab);
    }

    /** parse_if_stmt (compiler.c:832-843), behind the first branch. */
    method IfTail(ghost e: Expr, ghost t: Stmt, ghost a: Snap, ghost c1: seq<byte>, ghost b: Snap, ghost m: Snap,
                  jmpfalse: nat,
                  ghost brk: nat, ghost lab: Labels)
      requires Valid() && ok && State() == m && Unique(a.env) && Extends(a.env, m.env)
      requires Tested(e, t, a, c1, b, m, brk, lab) && jmpfalse == (|c1| + 1) % 0x10000
      modifies this, dict
      ensures ok <==> StmtGood(a.env, a.scopes != [], ElseRest(e, t, old(toks)))
      ensures ok ==> Valid() && Extends(a.env, env) && StmtDone(ElseRest(e, t, old(toks)), a, brk, lab)
      decreases |toks|, 1
    {
      hide Valid, After, LegalStmt, StmtNames, Names, Legal, LegalValue, Known, EncodeAll, Encode, Pratt.ParseStmt,
           Patch, ValueCode, Fits, Tested;
      ghost var ts := toks;
      if toks != [] && toks[0] == ELSE {
        ElseTail(e, t, a, c1, b, m, jmpfalse, brk, lab);
      } else {
        FitsNow();
        TestedFacts(e, t, a, c1, b, m, brk, lab);
        HoleInside(|code|, |c1| + 1);
        PatchHere(jmpfalse);
        IfAfter(e, t, a, c1, b, m, State(), brk, lab);
        DoneIsGood(ElseRest(e, t, ts), a, brk, lab);
      }
    }

    /** parse_if_stmt (compiler.c:833-840), the else branch. */
    method ElseTail(ghost e: Expr, ghost t: Stmt, ghost a: Snap, ghost c1: seq<byte>, ghost b: Snap, ghost m: Snap,
                    jmpfalse: nat,
                    ghost brk: nat, ghost lab: Labels)
      requires Next(toks, ELSE)
      requires Valid() && ok && State() == m && Unique(a.env) && Extends(a.env, m.env)
      requires Tested(e, t, a, c1, b, m, brk, lab) && jmpfalse == (|c1| + 1) % 0x10000
      modifies this, dict
      ensures ok <==> StmtGood(a.env, a.scopes != [], ElseRest(e, t, old(toks)))
      ensures ok ==> Valid() && Extends(a.env, env) && StmtDone(ElseRest(e, t, old(toks)), a, brk, lab)
      decreases |toks|, 0
    {
      hide Valid, After, LegalStmt, StmtNames, Names, Legal, LegalValue, Known, EncodeAll, Encode, Pratt.ParseStmt,
           Patch, ValueCode, Fits, InBounds, Unique, Opcode, ElseRest, StmtGood, Tested;
      ghost var ts := toks;
      TestedFacts(e, t, a, c1, b, m, brk, lab);
      ElseRestIff(a.env, a.scopes != [], e, t, ts);
      var jmpend := AsmJump2(OP_JMP);
      ghost var c2 := code;
      var tok := Scan();
      HoleInside(|code|, |c1| + 1);
      PatchHere(jmpfalse);
      ghost var o := State();
      ParseStmt(brk, lab);
      if !ok {
        return;
      }
      ghost var f := Pratt.ParseStmt(ts[1..]).value.0;
      ElseEnd(e, t, f, a, c1, b, m, c2, o, jmpend, brk, lab);
      DoneIsGood(ElseRest(e, t, ts), a, brk, lab);
    }

    /** parse_if_stmt (compiler.c:839), behind the second branch. */
    method ElseEnd(ghost e: Expr, ghost t: Stmt, ghost f: Stmt, ghost a: Snap, ghost c1: seq<byte>, ghost b: Snap,
                   ghost m: Snap,
                   ghost c2: seq<byte>, ghost o: Snap, jmpend: nat, ghost brk: nat, ghost lab: Labels)
      requires Valid() && Tested(e, t, a, c1, b, m, brk, lab)
      requires |c2| == |m.code| + 3 && Opcode(m.code, c2, OP_JMP) && InBounds(|c2|, (|c1| + 1) % 0x10000)
      requires o == m.(code := Patch(c2, (|c1| + 1) % 0x10000, |c2| % 0x10000))
      requires After(f, o, State(), brk, lab) && Extends(o.env, env) && jmpend == (|m.code| + 1) % 0x10000
      modifies `code
      ensures Valid() && After(IfElse(e, t, f), a, State(), brk, lab)
    {
      hide Valid, After, Patch, InBounds, Unique, Opcode, Tested, Extends, Fits;
      ghost var p := State();
      AfterFacts(f, o, p, brk, lab);
      FitsNow();
      HoleInside(|code|, |m.code| + 1);
      PatchHere(jmpend);
      IfElseAfter(e, t, f, a, c1, b, m, c2, o, p, State(), brk, lab);
    }

    /** parse_while_stmt (compiler.c:893-912) */
    method ParseWhileStmt(ghost brk: nat, ghost lab: Labels)
      requires Valid() && ok && Next(toks, WHILE)
      modifies this, dict
      ensures ok <==> StmtGood(old(env), old(scopes) != [], Pratt.ParseStmt(old(toks)))
      ensures ok ==> Valid() && Extends(old(env), env) && StmtDone(Pratt.ParseStmt(old(toks)), old(State()), brk, lab)
      decreases |toks|, 0
    {
      hide Valid, After, LegalStmt, StmtNames, Names, Legal, LegalValue, Known, KindOf, HasValue, EncodeAll, Encode,
           Pratt.ParseExpr, Pratt.ParseStmt, ValueCode, Fits, Unique, Opcode, ValueEmitted, StmtGood, WhileRest;
      ghost var ts, a, inLoop := toks, State(), scopes != [];
      WhileParsed(ts);
      NoneGood(a.env, inLoop);
      FitsNow();
      PushScope();
      var tok := Scan();
      Expect(LPAREN);
      if !ok {
        return;
      }
      ghost var re := Pratt.ParseExpr(ts[2..], PREC_NONE);
      ParseValue(PREC_NONE);
      if !ok {
        WhileTestBad(a.env, inLoop, re);
        return;
      }
      ghost var c1 := code;
      AsmBreak(OP_FJMP);
      BreakPushed(a.scopes, |a.code|, (|c1| + 1) % 0x10000);
      WhileTail(re.value.0, a, c1, brk, lab);
    }

    /** parse_while_stmt (compiler.c:906-911), behind the condition. */
    method WhileTail(ghost e: Expr, ghost a: Snap, ghost c1: seq<byte>, ghost brk: nat, ghost lab: Labels)
      requires Valid() && ok && Entered(e, a, c1, State()) && Unique(a.env) && Extends(a.env, env)
      modifies this, dict
      ensures ok <==> StmtGood(a.env, a.scopes != [], WhileRest(e, old(toks)))
      ensures ok ==> Valid() && Extends(a.env, env) && StmtDone(WhileRest(e, old(toks)), a, brk, lab)
      decreases |toks|, 0
    {
      hide Valid, After, LegalStmt, StmtNames, Names, Legal, LegalValue, EncodeAll, Encode, Pratt.ParseStmt, PatchAll,
           Fits, Unique, Opcode, Jumped, AllInBounds, StmtGood, Entered, Width, Pushed;
      ghost var ts, b := toks, State();
      EnteredFacts(e, a, c1, b);
      WhileRestGood(a.env, a.scopes != [], e, ts);
      Expect(RPAREN);
      if !ok {
        return;
      }
      ghost var rt := Pratt.ParseStmt(toks);
      ghost var end := if rt.Some? then |a.code| + Width(While(e, rt.value.0)) else 0;
      ParseStmt(end, lab);
      if !ok {
        return;
      }
      ghost var m := State();
      AfterFacts(rt.value.0, b, m, end, lab);
      LoopPopped(a.scopes, [(|c1| + 1) % 0x10000], |a.code|, scopes);
      AsmJump(Jmp(scopes[|scopes| - 1].continueAddr));
      ghost var c3 := code;
      PopScope();
      FitsNow();
      WhileAfter(e, rt.value.0, a, c1, b, m, c3, State(), brk, lab);
    }

    /** parse_do_stmt (compiler.c:914-937) */
    method ParseDoStmt(ghost brk: nat, ghost lab: Labels)
      requires Valid() && ok && Next(toks, DO)
      modifies this, dict
      ensures ok <==> StmtGood(old(env), old(scopes) != [], Pratt.ParseStmt(old(toks)))
      ensures ok ==> Valid() && Extends(old(env), env) && StmtDone(Pratt.ParseStmt(old(toks)), old(State()), brk, lab)
      decreases |toks|, 0
    {
      hide Valid, After, LegalStmt, StmtNames, Names, Legal, LegalValue, Known, EncodeAll, Encode, Pratt.ParseExpr,
           Pratt.ParseStmt, Patch, PatchAll, Code, ValueCode, EffectCode, Fits, Unique, Opcode, Jumped, AllInBounds,
           InBounds, Width, StmtGood, DoRest, Pushed;
      ghost var ts, a, inLoop := toks, State(), scopes != [];
      FitsNow();
      DoParsed(ts);
      var tok := Scan();
      PushScope();
      ghost var b, rt := State(), Pratt.ParseStmt(toks);
      ghost var end := if rt.Some? then |a.code| + Width(rt.value.0) else 0;
      PushedNonempty(a.scopes, [], |a.code|);
      ParseStmt(end, lab);
      if !ok {
        DoBodyBad(a.env, inLoop, ts);
        return;
      }
      ghost var m := State();
      AfterFacts(rt.value.0, b, m, end, lab);
      LoopPopped(a.scopes, [], |a.code|, scopes);
      PopScope();
      DoTail(rt.value.0, a, b, m, brk, lab);
    }

    /** parse_do_stmt (compiler.c:927-936), behind the body. By now the scope of this loop is popped, so
        the test goes to the enclosing one; where there is none, the C code follows a null pointer. */
    method DoTail(ghost t: Stmt, ghost a: Snap, ghost b: Snap, ghost m: Snap, ghost brk: nat, ghost lab: Labels)
      requires Valid() && ok && Popped(t, a, b, m, code, lab) && State() == m.(code := code, scopes := a.scopes)
      requires Unique(a.env) && Extends(a.env, m.env)
      modifies this, dict
      ensures ok <==> StmtGood(a.env, a.scopes != [], DoRest(t, old(toks)))
      ensures ok ==> Valid() && Extends(a.env, env) && StmtDone(DoRest(t, old(toks)), a, brk, lab)
      decreases |toks|, 1
    {
      hide Valid, After, LegalStmt, StmtNames, Names, Legal, LegalValue, Known, EncodeAll, Encode, Pratt.ParseExpr,
           Pratt.ParseStmt, Patch, PatchAll, Code, ValueCode, EffectCode, Fits, Unique, Opcode, Jumped, AllInBounds,
           InBounds, Width, StmtGood, DoRest, Popped, ValueEmitted, Good, GoodValue;
      ghost var ts, c1, inLoop := toks, code, a.scopes != [];
      PoppedFacts(t, a, b, m, c1, lab);
      DoRestIff(a.env, inLoop, t, ts);
      Expect(WHILE);
      if !ok {
        return;
      }
      Expect(LPAREN);
      if !ok {
        return;
      }
      ParseValue(PREC_NONE);
      if !ok {
        return;
      }
      DoTest(t, Pratt.ParseExpr(ts[2..], PREC_NONE).value.0, a, b, m, c1, brk, lab);
    }

    /** parse_do_stmt (compiler.c:929-936), behind the condition. */
    method DoTest(ghost t: Stmt, ghost e: Expr, ghost a: Snap, ghost b: Snap, ghost m: Snap, ghost c1: seq<byte>,
                  ghost brk: nat, ghost lab: Labels)
      requires Valid() && ok && Popped(t, a, b, m, c1, lab) && ValueEmitted(e, m.env, c1, env, code)
      requires State() == m.(env := env, code := code, scopes := a.scopes) && Extends(m.env, env)
      modifies `toks, `code, `ok
      ensures ok <==> a.scopes != [] && DoCloses(old(toks))
      ensures ok ==> Valid() && toks == old(toks)[2..] && After(Do(t, e), a, State(), brk, lab)
    {
      hide Valid, After, ValueEmitted, Popped, Encode, Jumped, Fits, Unique, Extends;
      ghost var c2 := code;
      DoJump();
      if !ok {
        return;
      }
      DoAfter(t, e, a, b, m, c1, c2, State(), brk, lab);
      Expect(RPAREN);
      if !ok {
        return;
      }
      Expect(SEMICOLON);
    }

    /** parse_do_stmt (compiler.c:929-933): the negated test and its jump. */
    method DoJump()
      requires Valid() && ok
      modifies `code, `ok
      ensures ok <==> scopes != []
      ensures ok ==> Valid() && Unique(env) && Fits(env)
      ensures ok ==> Jumped(old(code) + Encode(Instr.LNot), code, FJmp(scopes[|scopes| - 1].continueAddr))
    {
      hide Valid, Encode, Unique, Fits;
      AsmOp(Instr.LNot);
      if scopes == [] {
        ok := false;
        return;
      }
      AsmJump(FJmp(scopes[|scopes| - 1].continueAddr));
      FitsNow();
    }

    /** parse_for_stmt (compiler.c:846-862), up to the first semicolon. */
    method ParseForStmt(ghost brk: nat, ghost lab: Labels)
      requires Valid() && ok && Next(toks, FOR)
      modifies this, dict
      ensures ok <==> StmtGood(old(env), old(scopes) != [], Pratt.ParseStmt(old(toks)))
      ensures ok ==> Valid() && Extends(old(env), env) && StmtDone(Pratt.ParseStmt(old(toks)), old(State()), brk, lab)
      decreases |toks|, 0
    {
      hide Valid, After, LegalStmt, StmtNames, Names, Legal, LegalValue, Known, EncodeAll, Encode, Pratt.ParseExpr,
           Pratt.ParseStmt, Patch, PatchAll, Code, ValueCode, EffectCode, Fits, Unique, Opcode, Jumped, AllInBounds,
           InBounds, Width, StmtGood, ForRest1;
      ghost var ts, a, inLoop := toks, State(), scopes != [];
      FitsNow();
      ForParsed(ts);
      NoneGood(a.env, inLoop);
      var tok := Scan();
      Expect(LPAREN);
      if !ok {
        return;
      }
      ghost var ri := Pratt.ParseExpr(ts[2..], PREC_NONE);
      if ri.Some? && StmtGood(a.env, inLoop, ForRest1(ri.value.0, ri.value.1)) {
        ForRest1Good(a.env, inLoop, ri.value.0, ri.value.1);
      }
      ParseDropped();
      if !ok {
        return;
      }
      FitsNow();
      ForCondition(ri.value.0, a, brk, lab);
    }

    /** parse_for_stmt (compiler.c:862-869): the condition and its two jumps. */
    method ForCondition(ghost i: Expr, ghost a: Snap, ghost brk: nat, ghost lab: Labels)
      requires Valid() && ok && State() == a.(env := env, code := code) && Unique(a.env) && Extends(a.env, env)
      requires ForStart(i, a, Started(env, code))
      modifies this, dict
      ensures ok <==> StmtGood(a.env, a.scopes != [], ForRest1(i, old(toks)))
      ensures ok ==> Valid() && Extends(a.env, env) && StmtDone(ForRest1(i, old(toks)), a, brk, lab)
      decreases |toks|, 3
    {
      hide Valid, After, LegalStmt, StmtNames, Names, Legal, LegalValue, Known, EncodeAll, Encode, Pratt.ParseExpr,
           Pratt.ParseStmt, Patch, PatchAll, Code, ValueCode, EffectCode, Fits, Unique, Opcode, Jumped, AllInBounds,
           InBounds, Width, StmtGood, ForStart, ForTest, ForRest1, ForRest2, ValueEmitted;
      ghost var ts, k, inLoop := toks, Started(env, code), a.scopes != [];
      ForStartFacts(i, a, k);
      if StmtGood(a.env, inLoop, ForRest1(i, ts)) {
        ForRest1Good(a.env, inLoop, i, ts);
      }
      Expect(SEMICOLON);
      if !ok {
        return;
      }
      ghost var rc := Pratt.ParseExpr(ts[1..], PREC_NONE);
      ForRest1Next(i, ts);
      ParseValue(PREC_NONE);
      if !ok {
        return;
      }
      FitsNow();
      ghost var c2 := code;
      var endJump := AsmJump2(OP_FJMP);
      ghost var c3 := code;
      var bodyJump := AsmJump2(OP_JMP);
      ghost var k' := k.(env2 := env, c2 := c2, c3 := c3, c4 := code);
      ForTestRecorded(i, rc.value.0, a, k, k');
      ForPostClause(i, rc.value.0, a, k', endJump, bodyJump, brk, lab);
    }

    /** parse_for_stmt (compiler.c:870-880): the post clause, which ends in a jump to itself. */
    method ForPostClause(ghost i: Expr, ghost c: Expr, ghost a: Snap, ghost k: Clauses, endJump: nat, bodyJump: nat,
                         ghost brk: nat, ghost lab: Labels)
      requires Valid() && ok && State() == a.(env := k.env2, code := k.c4) && Unique(a.env) && Extends(a.env, env)
      requires ForStart(i, a, k) && ForTest(c, k)
      requires endJump == (|k.c2| + 1) % 0x10000 && bodyJump == (|k.c3| + 1) % 0x10000
      modifies this, dict
      ensures ok <==> StmtGood(a.env, a.scopes != [], ForRest2(i, c, old(toks)))
      ensures ok ==> Valid() && Extends(a.env, env) && StmtDone(ForRest2(i, c, old(toks)), a, brk, lab)
      decreases |toks|, 2
    {
      hide Valid, After, LegalStmt, StmtNames, Names, Legal, LegalValue, Known, EncodeAll, Encode, Pratt.ParseExpr,
           Pratt.ParseStmt, Patch, PatchAll, Code, ValueCode, EffectCode, Fits, Unique, Opcode, Jumped, AllInBounds,
           InBounds, Width, StmtGood, ForStart, ForTest, ForRest2, ForRest3, Pushed, Good;
      ghost var ts, inLoop := toks, a.scopes != [];
      ForStartFacts(i, a, k);
      ForTestFacts(c, k);
      if StmtGood(a.env, inLoop, ForRest2(i, c, ts)) {
        ForRest2Good(a.env, inLoop, i, c, ts);
      }
      Expect(SEMICOLON);
      if !ok {
        return;
      }
      ghost var rp := Pratt.ParseExpr(ts[1..], PREC_NONE);
      ForRest2Next(i, c, ts);
      var postAddr := PostCode();
      if !ok {
        return;
      }
      ghost var k' := k.(env3 := env, c5 := k.c4 + EncodeAll(EffectCode(rp.value.0, env)), c6 := code);
      ForRecorded(i, c, a, k, k');
      ForBody(i, c, rp.value.0, a, k', endJump, bodyJump, postAddr, brk, lab);
    }

    /** parse_for_stmt (compiler.c:873-880): an expression that is run over and over. */
    method PostCode() returns (postAddr: nat)
      requires Valid() && ok
      modifies `toks, `scopes, `code, `vars, `ports, `env, `ok, dict
      ensures ok <==> Good(old(env), Pratt.ParseExpr(old(toks), PREC_NONE))
      ensures ok ==> Valid() && Extends(old(env), env) && Unique(env)
      ensures ok ==> scopes == Pushed(old(scopes), [], |old(code)|) && postAddr == |old(code)| % 0x10000
      ensures ok ==> Pratt.ParseExpr(old(toks), PREC_NONE).Some?
      ensures ok ==> var r := Pratt.ParseExpr(old(toks), PREC_NONE).value;
                     && toks == r.1 && Legal(r.0) && Known(r.0, env) && env == Names(old(env), r.0)
                     && Jumped(old(code) + EncodeAll(EffectCode(r.0, env)), code, Jmp(|old(code)| % 0x10000))
    {
      hide Valid, Names, Legal, Known, EncodeAll, Pratt.ParseExpr, EffectCode, Fits, Unique, Jumped, Pushed;
      ghost var start, loops := code, scopes;
      PushScope();
      postAddr := Here();
      ParseDropped();
      if !ok {
        return;
      }
      FitsNow();
      PushedLast(loops, |start|);
      AsmJump(Jmp(scopes[|scopes| - 1].continueAddr));
    }

    /** parse_for_stmt (compiler.c:881-884): the end of the post clause. */
    method ForBody(ghost i: Expr, ghost c: Expr, ghost p: Expr, ghost a: Snap, ghost k: Clauses, endJump: nat,
                   bodyJump: nat, postAddr: nat,
                   ghost brk: nat, ghost lab: Labels)
      requires Valid() && ok && State() == a.(env := k.env3, code := k.c6, scopes := Pushed(a.scopes, [], |k.c4|))
      requires Unique(a.env) && Extends(a.env, env)
      requires ForStart(i, a, k) && ForTest(c, k)
      requires Legal(p) && Known(p, env) && env == Names(k.env2, p) && Extends(k.env2, env)
      requires k.c5 == k.c4 + EncodeAll(EffectCode(p, env)) && Jumped(k.c5, code, Jmp(|k.c4| % 0x10000))
      requires endJump == (|k.c2| + 1) % 0x10000 && bodyJump == (|k.c3| + 1) % 0x10000 && postAddr == |k.c4| % 0x10000
      modifies this, dict
      ensures ok <==> StmtGood(a.env, a.scopes != [], ForRest3(i, c, p, old(toks)))
      ensures ok ==> Valid() && Extends(a.env, env) && StmtDone(ForRest3(i, c, p, old(toks)), a, brk, lab)
      decreases |toks|, 1
    {
      hide Valid, After, LegalStmt, StmtNames, Names, Legal, LegalValue, Known, EncodeAll, Encode, Pratt.ParseExpr,
           Pratt.ParseStmt, Patch, PatchAll, Code, ValueCode, EffectCode, Fits, Unique, Opcode, Jumped, AllInBounds,
           InBounds, Width, StmtGood, ForStart, ForTest, ForRest3, Pushed, Tabled;
      ghost var ts := toks;
      ForStartFacts(i, a, k);
      ForTestFacts(c, k);
      ForRest3Good(a.env, a.scopes != [], i, c, p, ts);
      JumpedLength(k.c5, k.c6, Jmp(|k.c4| % 0x10000));
      FitsNow();
      Expect(RPAREN);
      if !ok {
        return;
      }
      HoleInside(|code|, |k.c3| + 1);
      PatchHere(bodyJump);
      ghost var k' := k.(c7 := code);
      ForRecorded(i, c, a, k, k');
      assert ForClauses(i, c, p, a, k');
      ForEnd(i, c, p, a, k', endJump, postAddr, brk, lab);
    }

    /** parse_for_stmt (compiler.c:885-890): the body, followed by a jump to the post clause. */
    method ForEnd(ghost i: Expr, ghost c: Expr, ghost p: Expr, ghost a: Snap, ghost k: Clauses, endJump: nat,
                  postAddr: nat, ghost brk: nat, ghost lab: Labels)
      requires Valid() && ok && State() == a.(env := k.env3, code := k.c7, scopes := Pushed(a.scopes, [], |k.c4|))
      requires ForClauses(i, c, p, a, k)
      requires endJump == (|k.c2| + 1) % 0x10000 && postAddr == |k.c4| % 0x10000
      modifies this, dict
      ensures var r := Pratt.ParseStmt(old(toks));
              && (ok <==> StmtGood(Names(Names(Names(a.env, i), c), p), true, r))
              && (ok ==> r.Some? && Valid() && Extends(a.env, env) && StmtDone(Some((For(i, c, p, r.value.0), r.value.1)), a, brk, lab))
      decreases |toks|, 5
    {
      hide Valid, After, LegalStmt, StmtNames, Names, Legal, LegalValue, Known, EncodeAll, Encode, Pratt.ParseExpr,
           Pratt.ParseStmt, Patch, PatchAll, Code, ValueCode, EffectCode, Fits, Unique, Opcode, Jumped, AllInBounds,
           InBounds, Width, StmtGood, ForClauses, Pushed;
      ghost var b, rt := State(), Pratt.ParseStmt(toks);
      ghost var end := if rt.Some? then |a.code| + Width(For(i, c, p, rt.value.0)) else 0;
      ForClausesFacts(i, c, p, a, k);
      PushedNonempty(a.scopes, [], |k.c4|);
      ParseStmt(end, lab);
      if !ok {
        return;
      }
      ghost var m, s := State(), For(i, c, p, rt.value.0);
      AfterFacts(rt.value.0, b, m, end, lab);
      FitsNow();
      LoopPopped(a.scopes, [], |k.c4|, scopes);
      AsmJump(Jmp(postAddr));
      ghost var c8 := code;
      JumpedLength(m.code, c8, Jmp(postAddr));
      PopScope();
      ghost var c9 := code;
      HoleInside(|code|, |k.c2| + 1);
      PatchHere(endJump);
      ForDone(s, a, k, b, m, c8, c9, State(), brk, lab);
    }

    /** parse_expr_stmt (compiler.c:950-959) */
    method ParseExprStmt(ghost brk: nat, ghost lab: Labels)
      requires Valid() && ok && toks != [] && StartsExpr(toks[0])
      modifies this, dict
      ensures ok <==> StmtGood(old(env), old(scopes) != [], Pratt.ParseStmt(old(toks)))
      ensures ok ==> Valid() && Extends(old(env), env) && StmtDone(Pratt.ParseStmt(old(toks)), old(State()), brk, lab)
      decreases |toks|, 3
    {
      hide Valid, After, LegalStmt, StmtNames, Names, Legal, Known, EncodeAll, Encode, Pratt.ParseExpr,
           Pratt.ParseStmt, Code, DropCode, Fits, Unique;
      ghost var ts, a := toks, State();
      FitsNow();
      ExprParsed(ts, a.env, scopes != []);
      ParseDropped();
      if !ok {
        return;
      }
      FitsNow();
      ExprAfter(Pratt.ParseExpr(ts, PREC_NONE).value.0, a, State(), brk, lab);
      Expect(SEMICOLON);
    }

    /** parse_labeled_stmt (compiler.c:939-948) */
    method ParseLabeledStmt(ghost brk: nat, ghost lab: Labels)
      requires Valid() && ok && toks != [] && toks[0].IDENTIFIER?
      modifies this, dict
      ensures ok <==> StmtGood(old(env), old(scopes) != [], Pratt.ParseStmt(old(toks)))
      ensures ok ==> Valid() && Extends(old(env), env) && StmtDone(Pratt.ParseStmt(old(toks)), old(State()), brk, lab)
      decreases |toks|, 0
    {
      hide Valid, After, LegalStmt, StmtNames, Names, Legal, Known, EncodeAll, Encode, Pratt.ParseExpr,
           Pratt.ParseStmt, Code, DropCode, Fits, Unique;
      ghost var ts, a := toks, State();
      FitsNow();
      LabelParsed(ts, a.env, scopes != []);
      var name := Scan();
      Expect(COLON);
      if !ok {
        return;
      }
      AddLabelHere(name.name);
      LabelAfter(name.name, a, State(), brk, lab);
    }

    /** Of a block that started in state `a` with the tokens `ts`, the statements `ss` are compiled. */
    ghost predicate InBlock(ss: seq<Stmt>, states: seq<Snap>, a: Snap, ts: seq<Token>, brk: nat, lab: Labels)
      reads `toks, `env, `code, `scopes, `defs, `gotos
    {
      && Trace(ss, states, brk, lab) && |states| == |ss| + 1 && states[0] == a && states[|ss|] == State()
      && Unique(a.env) && Extends(a.env, env) && env == NamesOf(a.env, ss) && (scopes != []) == (a.scopes != [])
      && Pratt.ParseBlock(ts) == Behind(ss, Pratt.ParseBlock(toks))
    }

    /** parse_block_stmt (compiler.c:804-814) */
    method ParseBlockStmt(ghost brk: nat, ghost lab: Labels)
      requires Valid() && ok
      modifies this, dict
      ensures ok <==> StmtGood(old(env), old(scopes) != [], Pratt.ParseBody(old(toks)))
      ensures ok ==> Valid() && Extends(old(env), env) && StmtDone(Pratt.ParseBody(old(toks)), old(State()), brk, lab)
      decreases |toks|, 3
    {
      hide Valid, After, LegalStmt, StmtNames, Fits, Unique, StmtGood, Trace, Pratt.ParseBlock, Behind, NamesOf,
           ChainOf;
      ghost var a := State();
      FitsNow();
      NoneGood(a.env, a.scopes != []);
      Expect(LBRACE);
      if !ok {
        return;
      }
      ghost var ts, ss, states := toks, [], [a];
      TraceStart(a, brk, lab);
      BehindNone(Pratt.ParseBlock(ts));
      while !(toks != [] && toks[0] == RBRACE)
        invariant ok && Valid() && InBlock(ss, states, a, ts, brk, lab) && |toks| <= |ts|
        decreases |toks|
      {
        ss, states := ParseItem(ss, states, a, ts, brk, lab);
        if !ok {
          return;
        }
      }
      TraceAfter(ss, states, brk, lab);
      BlockEnd(ss, toks);
      var close := Scan();
      DoneIsGood(Pratt.ParseBlock(ts), a, brk, lab);
    }

    /** One more statement of a block (compiler.c:811). */
    method ParseItem(ghost ss: seq<Stmt>, ghost states: seq<Snap>, ghost a: Snap, ghost ts: seq<Token>,
                     ghost brk: nat, ghost lab: Labels)
      returns (ghost more: seq<Stmt>, ghost later: seq<Snap>)
      requires Valid() && ok && InBlock(ss, states, a, ts, brk, lab) && !Next(toks, RBRACE)
      modifies this, dict
      ensures !ok ==> !StmtGood(a.env, a.scopes != [], Pratt.ParseBlock(ts))
      ensures ok ==> Valid() && InBlock(more, later, a, ts, brk, lab) && |toks| < |old(toks)|
      decreases |toks|, 5
    {
      hide Valid, After, LegalStmt, StmtNames, Fits, Unique, StmtGood, Trace, Pratt.ParseBlock, Pratt.ParseStmt,
           Behind, NamesOf;
      more, later := ss, states;
      ghost var t0 := toks;
      FitsNow();
      BlockStep(t0, ss, a.env, a.scopes != []);
      ParseStmt(brk, lab);
      if !ok {
        return;
      }
      ghost var s := Pratt.ParseStmt(t0).value.0;
      FitsNow();
      BlockMore(ss, states, s, State(), a.env, brk, lab);
      more, later := ss + [s], states + [State()];
    }

    /** parse_stmt (compiler.c:991-999): the empty statement and halt. */
    method ParseShortStmt(ghost brk: nat, ghost lab: Labels)
      requires Valid() && ok && (Next(toks, SEMICOLON) || Next(toks, HALT))
      modifies this, dict
      ensures ok <==> StmtGood(old(env), old(scopes) != [], Pratt.ParseStmt(old(toks)))
      ensures ok ==> Valid() && Extends(old(env), env) && StmtDone(Pratt.ParseStmt(old(toks)), old(State()), brk, lab)
      decreases |toks|, 0
    {
      hide Valid, After, LegalStmt, StmtNames, Encode, Pratt.ParseStmt, Fits, Unique;
      ghost var ts, a := toks, State();
      SimpleParsed(ts, a.env, scopes != []);
      FitsNow();
      var tok := Scan();
      if tok == SEMICOLON {
        EmptyAfter(Empty, a, brk, lab);
      } else {
        Expect(SEMICOLON);
        if !ok {
          return;
        }
        AsmOp(Instr.Halt);
        HaltAfter(a, State(), brk, lab);
      }
    }

    /** parse_stmt (compiler.c:961-1014) */
    method ParseStmt(ghost brk: nat, ghost lab: Labels)
      requires Valid() && ok
      modifies this, dict
      ensures ok <==> StmtGood(old(env), old(scopes) != [], Pratt.ParseStmt(old(toks)))
      ensures ok ==> Valid() && Extends(old(env), env) && StmtDone(Pratt.ParseStmt(old(toks)), old(State()), brk, lab)
      decreases |toks|, 4
    {
      hide Valid, After, LegalStmt, StmtNames, Names, Legal, Known, EncodeAll, Encode, Pratt.ParseExpr,
           Pratt.ParseStmt, Code, DropCode, Fits, Unique, StmtGood, StmtDone, StartsExpr;
      SimpleParsed(toks, env, scopes != []);
      NoneGood(env, scopes != []);
      if toks == [] {
        ok := false;
        return;
      }
      match toks[0] {
        case BREAK => ParseBranchStmt(brk, lab);
        case CONTINUE => ParseBranchStmt(brk, lab);
        case GOTO => ParseBranchStmt(brk, lab);
        case LBRACE => ParseBlockStmt(brk, lab);
        case IF => ParseIfStmt(brk, lab);
        case FOR => ParseForStmt(brk, lab);
        case WHILE => ParseWhileStmt(brk, lab);
        case DO => ParseDoStmt(brk, lab);
        case IDENTIFIER(_) => ParseLabeledStmt(brk, lab);
        case SEMICOLON => ParseShortStmt(brk, lab);
        case HALT => ParseShortStmt(brk, lab);
        case _ =>
          if StartsExpr(toks[0]) {
            ParseExprStmt(brk, lab);
          } else {
            ok := false;
          }
      }
    }

    /** The loop of compile over all labels (compiler.c:1025-1037). */
    method ResolveGotos()
      requires Valid() && ok
      modifies `code, `ok
      ensures ok <==> forall i :: 0 <= i < |labels| ==> labels[i].defined
      ensures GotosInside(labels, |old(code)|)
      ensures ok ==> code == ResolveAll(old(code), labels)
    {
      hide LabelsMatch, Tabled, NoDuplicates, Patch, PatchAll;
      var i := 0;
      assert GotosInside(labels, |code|);
      while i < |labels|
        invariant 0 <= i <= |labels| && |code| == |old(code)| && GotosInside(labels[i..], |code|)
        invariant ok <==> forall j :: 0 <= j < i ==> labels[j].defined
        invariant ok ==> ResolveAll(code, labels[i..]) == ResolveAll(old(code), labels)
        modifies `code, `ok
      {
        assert labels[i..][0] == labels[i] && labels[i..][1..] == labels[i + 1..];
        TailInside(labels, i, |code|);
        if labels[i].defined {
          PatchGotos(labels[i].gotos, labels[i].addr);
        } else {
          ok := false;
        }
        i := i + 1;
      }
    }

    method PatchGotos(gotos: seq<nat>, addr: nat)
      requires AllInBounds(|code|, gotos)
      modifies `code
      ensures |code| == |old(code)| && code == PatchAll(old(code), gotos, addr)
    {
      var j := 0;
      while j < |gotos|
        invariant 0 <= j <= |gotos| && |code| == |old(code)|
        invariant PatchAll(code, gotos[j..], addr) == PatchAll(old(code), gotos, addr)
        modifies `code
      {
        assert gotos[j..][0] == gotos[j] && gotos[j..][1..] == gotos[j + 1..];
        code := Patch(code, gotos[j], addr);
        j := j + 1;
      }
    }
  }

  lemma TailInside(labels: seq<LabelEntry>, i: nat, n: nat)
    requires i < |labels| && GotosInside(labels[i..], n)
    ensures GotosInside(labels[i + 1..], n) && AllInBounds(n, labels[i].gotos)
  {
    assert labels[i..][0] == labels[i];
    var rest := labels[i + 1..];
    forall j, k | 0 <= j < |rest| && 0 <= k < |rest[j].gotos|
      ensures InBounds(n, rest[j].gotos[k])
    {
      assert rest[j] == labels[i..][j + 1];
    }
    forall k | 0 <= k < |labels[i].gotos|
      ensures InBounds(n, labels[i].gotos[k])
    {
      assert labels[i..][0].gotos[k] == labels[i].gotos[k];
    }
  }

  /** A break recorded in the innermost scope. */
  lemma BreakMarked(a: seq<Scope>, n: nat, b: seq<Scope>)
    requires a != []
    requires b == a[|a| - 1 := Scope(a[|a| - 1].breaks + [(n + 1) % 0x10000], a[|a| - 1].continueAddr)]
    ensures SameLoops(a, b)
    ensures n + 3 <= CODE_MAX ==> BreaksOf(b) == BreaksOf(a) + {n + 1}
  {
  }

  /** A table that holds the symbol holds the name, at the same index. */
  lemma FoundAt(ids: seq<nat>, names: seq<string>, syms: seq<string>, i: nat, id: nat)
    requires Tabled(ids, names, syms) && NoDuplicates(names) && |names| <= 4
    requires i < |ids| && ids[i] == id
    ensures syms[id] in names && SlotOf(names, syms[id]) == i
    ensures |names| == |ids|
  {
    assert names[i] == syms[id];
  }

  lemma NotFound(ids: seq<nat>, names: seq<string>, syms: seq<string>, id: nat)
    requires Tabled(ids, names, syms) && NoDuplicates(syms) && id < |syms|
    requires forall j :: 0 <= j < |ids| ==> ids[j] != id
    ensures syms[id] !in names && |names| == |ids|
  {
  }

  /** CodeBlock (noded.h:236-243), its size being that of `code`. A repair: the C code stores the size in
      8 bits (noded.h:239), so that a block of 256 bytes or more, say of 86 statements `break;` in a loop,
      is cut down to its length modulo 256; Disassembler.StoredSizeIff says when it is not. */
  datatype CodeBlock = CodeBlock(code: seq<byte>, ports: seq<nat>)

  /** compile (compiler.c:1016-1054). A body compiles exactly when its tokens are a block that has no
      error of its own and fits 16-bit addresses; and what the one pass with all its patching leaves in
      the buffer is what the two-pass assembler makes of the tree. This is the compiler with the three
      repairs of PopScope, FindLabel and CodeBlock: the C code does the same on bodies without a loop in a
      loop, without labels and gotos, and with less than 256 bytes of code. */
  method Compile(toks: seq<Token>, dict: SymDict) returns (ok: bool, rest: seq<Token>, block: CodeBlock)
    requires dict.Valid()
    modifies dict
    ensures ok <==> Pratt.ParseBody(toks).Some? && Compilable(Pratt.ParseBody(toks).value.0)
    ensures ok ==> var (body, r) := Pratt.ParseBody(toks).value;
                   && rest == r
                   && block.code == EncodeAll(Program(body))
                   && dict.Valid() && old(dict.syms) <= dict.syms
                   && Tabled(block.ports, StmtNames(Blank, body).ports, dict.syms)
  {
    hide Tabled, LabelsMatch, LegalStmt, StmtNames, Defs, Asm, EncodeAll, Width, Fits, Unique, GotoHoles, Agree, Open,
         After;
    ok, rest, block := false, toks, CodeBlock([], []);
    var ctx := new Context(toks, dict);
    ghost var r := Pratt.ParseBody(toks);
    ghost var lab := if r.Some? then Defs(r.value.0, 0, map[]) else map[];
    ghost var a := ctx.State();
    ctx.ParseBlockStmt(0, lab);
    if !ctx.ok {
      return;
    }
    ghost var body, b := r.value.0, ctx.State();
    BodyDone(body, a, b, lab);
    GotosDefinedIff(body, 0, lab);
    AllDefinedIff(ctx.labels, ctx.dict.syms, ctx.defs, ctx.gotos);
    ctx.ResolveGotos();
    if !ctx.ok {
      return;
    }
    if |ctx.code| > 0xFFFF {
      return;
    }
    Resolved(body, b.code, b.env, ctx.labels, ctx.dict.syms, b.defs, b.gotos);
    ok, rest, block := true, ctx.toks, CodeBlock(ctx.code, ctx.ports);
  }

  lemma BodyDone(body: Stmt, a: Snap, b: Snap, lab: Labels)
    requires After(body, a, b, 0, lab) && a == Snap(Blank, [], [], map[], {})
    ensures LegalStmt(body, false) && b.env == StmtNames(Blank, body) && |b.code| == Width(body)
    ensures |b.code| <= CODE_MAX ==>
              && b.defs == Defs(body, 0, map[]) && b.gotos == GotoHoles(body, 0)
              && Agree(b.code, 0, EncodeAll(Asm(body, 0, 0, 0, lab, b.env)), Open(body, 0))
  {
    hide LegalStmt, StmtNames, Defs, Asm, EncodeAll, Width, GotoHoles, Agree, Open;
    AfterFacts(body, a, b, 0, lab);
  }
}
