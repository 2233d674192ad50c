/** noded's second pass (noded.c:132-281, noded.c:351-399): declarations fill the rules array and the VM by
    index, and then the VM runs. */
module Loader {
  import opened Wrappers
  import opened Bytes
  import opened Bytecode
  import opened Syntax
  import opened Dict
  import opened Pratt
  import opened Assembler
  import opened Declarations
  import opened Programs
  import Compiler
  import Literal
  import Network
  import Scheduler
  import Wiring
  import Vm

  /** A NodeRule: symbol numbers of the node and its ports. */
  datatype NodeRule = NodeRule(id: nat, ports: seq<nat>, isProc: bool)

  predicate RuleTabled(r: NodeRule, q: Rule, syms: seq<string>) {
    r.id < |syms| && syms[r.id] == q.name && Compiler.Tabled(r.ports, q.ports, syms) && r.isProc == q.isProc
  }

  predicate RulesTabled(rs: seq<NodeRule>, qs: seq<Rule>, syms: seq<string>) {
    |qs| <= |rs| && forall i :: 0 <= i < |qs| ==> RuleTabled(rs[i], qs[i], syms)
  }

  lemma RulesTabledLater(rs: seq<NodeRule>, qs: seq<Rule>, syms: seq<string>, more: seq<string>)
    requires RulesTabled(rs, qs, syms) && syms <= more
    ensures RulesTabled(rs, qs, more)
  {
    hide Compiler.Tabled;
    forall i | 0 <= i < |qs|
      ensures RuleTabled(rs[i], qs[i], more)
    {
      Compiler.TabledLater(rs[i].ports, qs[i].ports, syms, more);
    }
  }

  // ----- Searching -----

  /** find_rule (noded.c:30-41) */
  method FindRule(rules: array<NodeRule>, nrules: nat, id: nat) returns (idx: Option<nat>)
    requires nrules <= rules.Length
    ensures idx.None? ==> forall i :: 0 <= i < nrules ==> rules[i].id != id
    ensures idx.Some? ==> idx.value < nrules && rules[idx.value].id == id && forall i :: 0 <= i < idx.value ==> rules[i].id != id
  {
    var i := 0;
    while i < nrules
      invariant i <= nrules && forall j :: 0 <= j < i ==> rules[j].id != id
    {
      if rules[i].id == id {
        return Some(i);
      }
      i := i + 1;
    }
    idx := None;
  }

  /** find_port (noded.c:43-52) */
  method FindPort(rule: NodeRule, id: nat) returns (idx: Option<nat>)
    ensures idx.None? ==> forall i :: 0 <= i < |rule.ports| ==> rule.ports[i] != id
    ensures idx.Some? ==> idx.value < |rule.ports| && rule.ports[idx.value] == id
                          && forall i :: 0 <= i < idx.value ==> rule.ports[i] != id
  {
    var i := 0;
    while i < |rule.ports|
      invariant i <= |rule.ports| && forall j :: 0 <= j < i ==> rule.ports[j] != id
    {
      if rule.ports[i] == id {
        return Some(i);
      }
      i := i + 1;
    }
    idx := None;
  }

  /** Searching the numbers is searching the names. */
  lemma FirstPlace(names: seq<string>, x: string, i: nat)
    requires i < |names| && names[i] == x && forall j :: 0 <= j < i ==> names[j] != x
    ensures Lookup(names, x) == Some(i)
  {
  }

  lemma RuleFound(rs: seq<NodeRule>, qs: seq<Rule>, syms: seq<string>, id: nat, idx: Option<nat>)
    requires RulesTabled(rs, qs, syms) && NoDuplicates(syms) && id < |syms|
    requires idx.None? ==> forall i :: 0 <= i < |qs| ==> rs[i].id != id
    requires idx.Some? ==> idx.value < |qs| && rs[idx.value].id == id && forall i :: 0 <= i < idx.value ==> rs[i].id != id
    ensures idx == Lookup(RuleNames(qs), syms[id])
  {
    hide Compiler.Tabled;
    var names := RuleNames(qs);
    assert forall i :: 0 <= i < |qs| ==> RuleTabled(rs[i], qs[i], syms) && names[i] == syms[rs[i].id];
    if idx.Some? {
      FirstPlace(names, syms[id], idx.value);
    }
  }

  lemma PortFound(ports: seq<nat>, names: seq<string>, syms: seq<string>, id: nat, idx: Option<nat>)
    requires Compiler.Tabled(ports, names, syms) && NoDuplicates(syms) && id < |syms|
    requires idx.None? ==> forall i :: 0 <= i < |ports| ==> ports[i] != id
    requires idx.Some? ==> idx.value < |ports| && ports[idx.value] == id && forall i :: 0 <= i < idx.value ==> ports[i] != id
    ensures idx == Lookup(names, syms[id])
  {
    assert forall i :: 0 <= i < |names| ==> names[i] == syms[ports[i]];
    if idx.Some? {
      FirstPlace(names, syms[id], idx.value);
    }
  }

  // ----- The state of the second pass -----

  /** The dictionary, the VM and the rules array hold what `b` says. */
  ghost predicate Holds(b: Built, dict: SymDict, vm: Vm.Vm, rules: array<NodeRule>)
    reads dict, vm, vm.Repr(), rules
  {
    && dict.Valid() && vm.Valid() && dict !in vm.Repr() && rules !in vm.Repr()
    && Sound(b) && vm.net == NetOf(b) && vm.sys == b.sys && |vm.nodes| == |b.nodes| == |b.rules| && |vm.wires| == |b.joints|
    && RulesTabled(rules[..], b.rules, dict.syms)
  }

  /** The counted capacities are exactly what is still to come. */
  predicate Roomy(b: Built, nnodes: nat, nwires: nat, toks: seq<Token>) {
    Count(toks, Counts(|b.nodes|, |b.joints|)) == Some(Counts(nnodes, nwires))
  }

  lemma RoomForOne(b: Built, nnodes: nat, nwires: nat, toks: seq<Token>)
    requires Sound(b) && Roomy(b, nnodes, nwires, toks) && toks != []
    ensures |b.rules| == |b.nodes|
    ensures if toks[0].IDENTIFIER? then |b.joints| < nwires else |b.nodes| < nnodes
  {
    hide SkipDecl, Sound;
    SoundLengths(b);
    CountGrows(SkipDecl(toks).value, Counted(toks, Counts(|b.nodes|, |b.joints|)));
  }

  /** A new rule behind the others. */
  lemma RuleAdded(rs: seq<NodeRule>, qs: seq<Rule>, syms: seq<string>, more: seq<string>, r: NodeRule, q: Rule)
    requires RulesTabled(rs, qs, syms) && syms <= more && |qs| < |rs| && RuleTabled(r, q, more)
    ensures RulesTabled(rs[|qs| := r], qs + [q], more)
  {
    hide Compiler.Tabled;
    RulesTabledLater(rs, qs, syms, more);
  }

  /** sym_id, which changes nothing but the dictionary. */
  method Intern(sym: string, dict: SymDict, vm: Vm.Vm, rules: array<NodeRule>, ghost b: Built) returns (id: nat)
    requires Holds(b, dict, vm, rules)
    modifies dict
    ensures Holds(b, dict, vm, rules) && old(dict.syms) <= dict.syms && id < |dict.syms| && dict.syms[id] == sym
  {
    hide Vm.Vm.Valid, Sound, RulesTabled, NoDuplicates;
    id := dict.SymId(sym);
    RulesTabledLater(rules[..], b.rules, old(dict.syms), dict.syms);
  }

  /** The VM is one node ahead of the rules array. */
  ghost predicate Ahead(b: Built, c: Built, dict: SymDict, vm: Vm.Vm, rules: array<NodeRule>)
    reads dict, vm, vm.Repr(), rules
  {
    && dict.Valid() && vm.Valid() && dict !in vm.Repr() && rules !in vm.Repr()
    && Sound(c) && vm.net == NetOf(c) && vm.sys == c.sys && |vm.nodes| == |c.nodes| == |c.rules| && |vm.wires| == |c.joints|
    && |c.rules| == |b.rules| + 1 && c.rules[..|b.rules|] == b.rules && RulesTabled(rules[..], b.rules, dict.syms)
  }

  method InternAhead(sym: string, dict: SymDict, vm: Vm.Vm, rules: array<NodeRule>, ghost b: Built, ghost c: Built)
    returns (id: nat)
    requires Ahead(b, c, dict, vm, rules)
    modifies dict
    ensures Ahead(b, c, dict, vm, rules) && old(dict.syms) <= dict.syms && id < |dict.syms| && dict.syms[id] == sym
  {
    hide Vm.Vm.Valid, Sound, RulesTabled, NoDuplicates;
    id := dict.SymId(sym);
    RulesTabledLater(rules[..], b.rules, old(dict.syms), dict.syms);
  }

  /** The rule of the node just added. */
  method Record(r: NodeRule, dict: SymDict, vm: Vm.Vm, rules: array<NodeRule>, nrules: nat, ghost b: Built,
                ghost c: Built)
    requires Ahead(b, c, dict, vm, rules) && nrules == |b.rules| < rules.Length
             && RuleTabled(r, c.rules[nrules], dict.syms)
    modifies rules
    ensures Holds(c, dict, vm, rules)
  {
    hide Vm.Vm.Valid, Sound, RulesTabled, RuleTabled, NoDuplicates;
    rules[nrules] := r;
    assert rules[..] == old(rules[..])[nrules := r];
    assert c.rules == b.rules + [c.rules[nrules]];
    RuleAdded(old(rules[..]), b.rules, dict.syms, dict.syms, r, c.rules[nrules]);
  }

  /** The symbol of the node just added, and its rule. */
  method NameNode(name: string, ports: seq<nat>, isProc: bool, dict: SymDict, vm: Vm.Vm, rules: array<NodeRule>,
                  nrules: nat,
                  ghost b: Built, ghost c: Built)
    requires Ahead(b, c, dict, vm, rules) && nrules == |b.rules| < rules.Length && nrules < |c.rules|
             && c.rules[nrules].name == name
    requires c.rules[nrules].isProc == isProc && Compiler.Tabled(ports, c.rules[nrules].ports, dict.syms)
    modifies dict, rules
    ensures Holds(c, dict, vm, rules)
  {
    hide Holds, Ahead, Vm.Vm.Valid, Compiler.Tabled;
    ghost var syms := dict.syms;
    var id := InternAhead(name, dict, vm, rules, b, c);
    Compiler.TabledLater(ports, c.rules[nrules].ports, syms, dict.syms);
    Record(NodeRule(id, ports, isProc), dict, vm, rules, nrules, b, c);
  }

  /** add_stack_node for a declaration. */
  method AddStack(dict: SymDict, vm: Vm.Vm, rules: array<NodeRule>, name: string, ghost b: Built)
    requires Holds(b, dict, vm, rules) && |b.nodes| < vm.nnodes
    modifies vm.Repr()
    ensures Ahead(b, WithStack(b, name), dict, vm, rules) && fresh(vm.Repr() - old(vm.Repr()))
    ensures vm.nnodes == old(vm.nnodes) && vm.nwires == old(vm.nwires)
  {
    hide Vm.Vm.Valid, Sound, RulesTabled, NoDuplicates;
    ghost var c := WithStack(b, name);
    StackSound(b, name);
    NodeNet(b, c.rules[|b.rules|], None, Network.Stack, c.sys);
    SoundLengths(c);
    var added := vm.AddStackNode();
    assert added;
  }

  lemma StackSound(b: Built, name: string)
    requires Sound(b)
    ensures Sound(WithStack(b, name))
  {
    hide Describes;
    DeclSound(b, StackOf(name));
  }

  lemma BufferSound(b: Built, name: string, text: seq<byte>)
    requires Sound(b) && Literal.Decode(text, 0).ok
    ensures Sound(WithBuffer(b, name, Literal.Padded(Literal.Decode(text, 0).bytes)))
  {
    hide Describes;
    DeclSound(b, BufferOf(name, text));
  }

  method Decoded(text: seq<byte>) returns (ok: bool, data: seq<byte>)
    ensures ok == Literal.Decode(text, 0).ok && data == Literal.Padded(Literal.Decode(text, 0).bytes)
  {
    var dat := new byte[256];
    ok := Literal.ParseString(dat, text);
    data := dat[..];
  }

  /** add_buf_node for a declaration. */
  method AddBuffer(dict: SymDict, vm: Vm.Vm, rules: array<NodeRule>, name: string, data: seq<byte>,
                   ghost text: seq<byte>, ghost b: Built)
    requires Holds(b, dict, vm, rules) && |b.nodes| < vm.nnodes
    requires Literal.Decode(text, 0).ok && data == Literal.Padded(Literal.Decode(text, 0).bytes)
    modifies vm.Repr()
    ensures Ahead(b, WithBuffer(b, name, data), dict, vm, rules) && fresh(vm.Repr() - old(vm.Repr()))
    ensures vm.nnodes == old(vm.nnodes) && vm.nwires == old(vm.nwires)
  {
    hide Vm.Vm.Valid, Sound, RulesTabled, NoDuplicates, Literal.Decode, Literal.Padded;
    ghost var c := WithBuffer(b, name, data);
    BufferSound(b, name, text);
    NodeNet(b, c.rules[|b.rules|], None, Network.Buffer, c.sys);
    SoundLengths(c);
    var added := vm.AddBufNode(data);
    assert added;
  }

  /** add_proc_node for a compiled body (noded.c:145-147); `code` with its size kept at 16 bits. */
  method AddProcessor(dict: SymDict, vm: Vm.Vm, rules: array<NodeRule>, name: string, code: seq<byte>,
                      ghost body: Stmt, ghost b: Built)
    requires Holds(b, dict, vm, rules) && |b.nodes| < vm.nnodes && Compilable(body) && code == EncodeAll(Program(body))
    modifies vm.Repr()
    ensures Ahead(b, WithProc(b, name, StmtNames(Blank, body).ports, body), dict, vm, rules)
            && fresh(vm.Repr() - old(vm.Repr()))
    ensures vm.nnodes == old(vm.nnodes) && vm.nwires == old(vm.nwires)
  {
    hide Vm.Vm.Valid, Sound, RulesTabled, NoDuplicates, Compilable, EncodeAll, Program, StmtNames;
    ghost var c := WithProc(b, name, StmtNames(Blank, body).ports, body);
    ProcSound(b, name, StmtNames(Blank, body).ports, body);
    NodeNet(b, c.rules[|b.rules|], Some(body), c.nodes[|b.nodes|], c.sys);
    SoundLengths(c);
    var added := vm.AddProcNode(code);
    assert added;
  }

  lemma SourceNode(b: Built, n: nat)
    requires Sound(b) && n < |b.nodes|
    ensures |b.rules| == |b.bodies| == |b.nodes| == |NetOf(b)|
    ensures b.rules[n].isProc <==> b.bodies[n].Some?
    ensures b.rules[n].isProc <==> NetOf(b)[n].Proc?
    ensures b.rules[n].isProc ==>
              && Compilable(b.bodies[n].value) && b.rules[n].ports == StmtNames(Blank, b.bodies[n].value).ports
              && NetOf(b)[n].code == EncodeAll(Program(b.bodies[n].value))
  {
    hide Compilable, EncodeAll, Program, StmtNames, FreshState, Wiring.Build, Network.ValidNet;
    SoundNodes(b);
    assert Describes(b.rules[n], b.bodies[n], b.nodes[n]);
  }

  /** copy_proc_node for a declaration (noded.c:161-166). */
  method CopyProcessor(dict: SymDict, vm: Vm.Vm, rules: array<NodeRule>, name: string, source: nat, ghost b: Built)
    requires Holds(b, dict, vm, rules) && |b.nodes| < vm.nnodes && source < |b.rules| && b.rules[source].isProc
    modifies vm.Repr()
    ensures source < |b.bodies| && b.bodies[source].Some?
    ensures Ahead(b, WithProc(b, name, b.rules[source].ports, b.bodies[source].value), dict, vm, rules)
    ensures fresh(vm.Repr() - old(vm.Repr())) && vm.nnodes == old(vm.nnodes) && vm.nwires == old(vm.nwires)
  {
    hide Vm.Vm.Valid, Sound, RulesTabled, NoDuplicates, Compilable, EncodeAll, Program, StmtNames;
    SoundLengths(b);
    SourceNode(b, source);
    ghost var body := b.bodies[source].value;
    ghost var c := WithProc(b, name, b.rules[source].ports, body);
    ProcSound(b, name, b.rules[source].ports, body);
    NodeNet(b, c.rules[|b.rules|], Some(body), c.nodes[|b.nodes|], c.sys);
    SoundLengths(c);
    vm.ValidFacts();
    var added := vm.CopyProcNode(source);
    assert added;
  }

  // ----- The scan_*() procedures -----

  /** The next declaration can be read and built, and leaves `rest` and `c`. */
  predicate Loads(b: Built, toks: seq<Token>, rest: seq<Token>, c: Built) {
    ParseDecl(toks).Some? && ParseDecl(toks).value.1 == rest && BuildDecl(b, ParseDecl(toks).value.0) == Some(c)
  }

  predicate Loadable(b: Built, toks: seq<Token>) {
    ParseDecl(toks).Some? && BuildDecl(b, ParseDecl(toks).value.0).Some?
  }

  lemma StackLoads(b: Built, toks: seq<Token>)
    requires Next(toks, STACK)
    ensures Loadable(b, toks) <==> IsStack(toks)
    ensures IsStack(toks) ==> Loads(b, toks, toks[3..], WithStack(b, toks[1].name))
  {
    hide ParseBody, JointOf, RuleNames, Lookup, Compilable, WithProc, WithStack;
  }

  lemma BufferLoads(b: Built, toks: seq<Token>)
    requires Next(toks, BUFFER)
    ensures Loadable(b, toks) <==> IsBuffer(toks) && Literal.Decode(toks[3].text, 0).ok
    ensures IsBuffer(toks) && Literal.Decode(toks[3].text, 0).ok ==>
              Loads(b, toks, toks[5..], WithBuffer(b, toks[1].name, Literal.Padded(Literal.Decode(toks[3].text, 0).bytes)))
  {
    hide ParseBody, Literal.Decode, Literal.Padded, JointOf, RuleNames, Lookup, Compilable, WithProc, WithBuffer;
  }

  /** scan_stack (noded.c:203-227) */
  method ScanStack(toks: seq<Token>, dict: SymDict, vm: Vm.Vm, rules: array<NodeRule>, nrules: nat, ghost b: Built)
    returns (ok: bool, rest: seq<Token>, ghost c: Built)
    requires Holds(b, dict, vm, rules) && nrules == |b.rules| == |b.nodes| < rules.Length == vm.nnodes
             && Next(toks, STACK)
    modifies dict, vm.Repr(), rules
    ensures ok <==> Loadable(b, toks)
    ensures ok ==> Loads(b, toks, rest, c) && Holds(c, dict, vm, rules)
    ensures ok ==> fresh(vm.Repr() - old(vm.Repr())) && vm.nnodes == old(vm.nnodes) && vm.nwires == old(vm.nwires)
  {
    hide Holds, Ahead, Vm.Vm.Valid, Loads, Loadable;
    ok, rest, c := false, toks, b;
    StackLoads(b, toks);
    var elm := Intern("elm", dict, vm, rules, b);
    if !IsStack(toks) {
      return;
    }
    AddStack(dict, vm, rules, toks[1].name, b);
    c := WithStack(b, toks[1].name);
    NameNode(toks[1].name, [elm], false, dict, vm, rules, nrules, b, c);
    ok, rest := true, toks[3..];
  }

  /** scan_buffer (noded.c:172-201) */
  method ScanBuffer(toks: seq<Token>, dict: SymDict, vm: Vm.Vm, rules: array<NodeRule>, nrules: nat, ghost b: Built)
    returns (ok: bool, rest: seq<Token>, ghost c: Built)
    requires Holds(b, dict, vm, rules) && nrules == |b.rules| == |b.nodes| < rules.Length == vm.nnodes
             && Next(toks, BUFFER)
    modifies dict, vm.Repr(), rules
    ensures ok <==> Loadable(b, toks)
    ensures ok ==> Loads(b, toks, rest, c) && Holds(c, dict, vm, rules)
    ensures ok ==> fresh(vm.Repr() - old(vm.Repr())) && vm.nnodes == old(vm.nnodes) && vm.nwires == old(vm.nwires)
  {
    hide Holds, Ahead, Vm.Vm.Valid, Loads, Loadable, Literal.Decode, Literal.Padded;
    ok, rest, c := false, toks, b;
    BufferLoads(b, toks);
    var elm := Intern("elm", dict, vm, rules, b);
    var idx := Intern("idx", dict, vm, rules, b);
    if !IsBuffer(toks) {
      return;
    }
    var valid, data := Decoded(toks[3].text);
    if !valid {
      return;
    }
    AddBuffer(dict, vm, rules, toks[1].name, data, toks[3].text, b);
    c := WithBuffer(b, toks[1].name, data);
    NameNode(toks[1].name, [elm, idx], false, dict, vm, rules, nrules, b, c);
    ok, rest := true, toks[5..];
  }

  /** compile, on the side of a VM. */
  method CompileBody(toks: seq<Token>, dict: SymDict, vm: Vm.Vm, rules: array<NodeRule>, ghost b: Built)
    returns (ok: bool, rest: seq<Token>, block: Compiler.CodeBlock, ghost body: Stmt)
    requires Holds(b, dict, vm, rules)
    modifies dict
    ensures ok <==> ParseBody(toks).Some? && Compilable(ParseBody(toks).value.0)
    ensures ok ==> ParseBody(toks) == Some((body, rest)) && Holds(b, dict, vm, rules)
    ensures ok ==> block.code == EncodeAll(Program(body)) && Compiler.Tabled(block.ports, StmtNames(Blank, body).ports, dict.syms)
  {
    hide Vm.Vm.Valid, Sound, RulesTabled, NoDuplicates, Compiler.Tabled, ParseBody, EncodeAll, Program, StmtNames,
         Compilable;
    ok, rest, block := Compiler.Compile(toks, dict);
    body := Skip;
    if ok {
      body := ParseBody(toks).value.0;
      RulesTabledLater(rules[..], b.rules, old(dict.syms), dict.syms);
    }
  }

  lemma ProcessorLoads(b: Built, toks: seq<Token>)
    requires Next(toks, PROCESSOR)
    ensures Loadable(b, toks) <==>
              || (IsProcessor(toks) && ParseBody(toks[2..]).Some? && Compilable(ParseBody(toks[2..]).value.0))
              || (IsCopy(toks) && CopyOf(b, toks[3].name).Some?)
    ensures IsProcessor(toks) && ParseBody(toks[2..]).Some? && Compilable(ParseBody(toks[2..]).value.0) ==>
              var (body, rest) := ParseBody(toks[2..]).value;
              Loads(b, toks, rest, WithProc(b, toks[1].name, StmtNames(Blank, body).ports, body))
    ensures IsCopy(toks) && CopyOf(b, toks[3].name).Some? ==>
              var n := CopyOf(b, toks[3].name).value;
              Loads(b, toks, toks[5..], WithProc(b, toks[1].name, b.rules[n].ports, b.bodies[n].value))
  {
    hide ParseBody, Compilable, EncodeAll, Program, StmtNames, IndexOf, RuleNames;
  }

  /** The node that a copy is made of. */
  function CopyOf(b: Built, source: string): (n: Option<nat>)
    ensures n.Some? ==> n.value < |b.rules| && n.value < |b.bodies| && b.bodies[n.value].Some?
  {
    var n := Lookup(RuleNames(b.rules), source);
    if n.None? || n.value >= |b.bodies| || b.bodies[n.value].None? then None else n
  }

  /** find_rule, by the symbol of a name. */
  method FindNode(id: nat, dict: SymDict, vm: Vm.Vm, rules: array<NodeRule>, nrules: nat, ghost b: Built)
    returns (idx: Option<nat>)
    requires Holds(b, dict, vm, rules) && nrules == |b.rules| && id < |dict.syms|
    ensures Holds(b, dict, vm, rules) && nrules <= rules.Length && idx == Lookup(RuleNames(b.rules), dict.syms[id])
    ensures idx.Some? ==> idx.value < nrules && RuleTabled(rules[idx.value], b.rules[idx.value], dict.syms)
  {
    hide Vm.Vm.Valid, Sound, RuleTabled;
    idx := FindRule(rules, nrules, id);
    RuleFound(rules[..], b.rules, dict.syms, id, idx);
  }

  /** A processor and its rule. */
  method NewProcessor(name: string, block: Compiler.CodeBlock, dict: SymDict, vm: Vm.Vm, rules: array<NodeRule>,
                      nrules: nat,
                      ghost body: Stmt, ghost b: Built)
    requires Holds(b, dict, vm, rules) && nrules == |b.rules| == |b.nodes| < rules.Length == vm.nnodes
    requires Compilable(body) && block.code == EncodeAll(Program(body))
    requires Compiler.Tabled(block.ports, StmtNames(Blank, body).ports, dict.syms)
    modifies dict, vm.Repr(), rules
    ensures Holds(WithProc(b, name, StmtNames(Blank, body).ports, body), dict, vm, rules)
    ensures fresh(vm.Repr() - old(vm.Repr())) && vm.nnodes == old(vm.nnodes) && vm.nwires == old(vm.nwires)
  {
    hide Holds, Ahead, Vm.Vm.Valid, Compiler.Tabled, EncodeAll, Program, StmtNames, Compilable;
    AddProcessor(dict, vm, rules, name, block.code, body, b);
    NameNode(name, block.ports, true, dict, vm, rules, nrules, b, WithProc(b, name, StmtNames(Blank, body).ports, body));
  }

  /** A copy and its rule. */
  method NewCopy(name: string, source: nat, dict: SymDict, vm: Vm.Vm, rules: array<NodeRule>, nrules: nat,
                 ghost b: Built)
    requires Holds(b, dict, vm, rules) && nrules == |b.rules| == |b.nodes| < rules.Length == vm.nnodes
    requires source < nrules && b.rules[source].isProc && RuleTabled(rules[source], b.rules[source], dict.syms)
    modifies dict, vm.Repr(), rules
    ensures source < |b.bodies| && b.bodies[source].Some?
    ensures Holds(WithProc(b, name, b.rules[source].ports, b.bodies[source].value), dict, vm, rules)
    ensures fresh(vm.Repr() - old(vm.Repr())) && vm.nnodes == old(vm.nnodes) && vm.nwires == old(vm.nwires)
  {
    hide Holds, Ahead, Vm.Vm.Valid, Compiler.Tabled, EncodeAll, Program, StmtNames, Compilable;
    var ports := rules[source].ports;
    CopyProcessor(dict, vm, rules, name, source, b);
    NameNode(name, ports, true, dict, vm, rules, nrules, b, WithProc(b, name, b.rules[source].ports, b.bodies[source].value));
  }

  /** scan_processor (noded.c:132-170), a declaration with a body. */
  method ScanBody(toks: seq<Token>, dict: SymDict, vm: Vm.Vm, rules: array<NodeRule>, nrules: nat, ghost b: Built)
    returns (ok: bool, rest: seq<Token>, ghost c: Built)
    requires Holds(b, dict, vm, rules) && nrules == |b.rules| == |b.nodes| < rules.Length == vm.nnodes
             && IsProcessor(toks)
    modifies dict, vm.Repr(), rules
    ensures ok <==> Loadable(b, toks)
    ensures ok ==> Loads(b, toks, rest, c) && Holds(c, dict, vm, rules)
    ensures ok ==> fresh(vm.Repr() - old(vm.Repr())) && vm.nnodes == old(vm.nnodes) && vm.nwires == old(vm.nwires)
  {
    hide Holds, Vm.Vm.Valid, Loads, Loadable, Compiler.Tabled, ParseBody, EncodeAll, Program, StmtNames, Compilable,
         CopyOf, WithProc;
    c := b;
    ProcessorLoads(b, toks);
    var block;
    ghost var body;
    ok, rest, block, body := CompileBody(toks[2..], dict, vm, rules, b);
    if !ok {
      return;
    }
    NewProcessor(toks[1].name, block, dict, vm, rules, nrules, body, b);
    c := WithProc(b, toks[1].name, StmtNames(Blank, body).ports, body);
  }

  /** The source of a copy (noded.c:159-161); it has to be a processor. */
  method FindSource(name: string, dict: SymDict, vm: Vm.Vm, rules: array<NodeRule>, nrules: nat, ghost b: Built)
    returns (source: Option<nat>)
    requires Holds(b, dict, vm, rules) && nrules == |b.rules|
    modifies dict
    ensures Holds(b, dict, vm, rules) && nrules <= rules.Length && source == CopyOf(b, name)
    ensures source.Some? ==> b.rules[source.value].isProc && RuleTabled(rules[source.value], b.rules[source.value], dict.syms)
  {
    hide Holds, Vm.Vm.Valid, Compiler.Tabled, EncodeAll, Program, StmtNames, Compilable, RuleNames, IndexOf, Sound,
         NetOf;
    var id := Intern(name, dict, vm, rules, b);
    source := FindNode(id, dict, vm, rules, nrules, b);
    if source.Some? {
      HoldsSound(b, dict, vm, rules);
      SoundLengths(b);
      SourceNode(b, source.value);
      if !rules[source.value].isProc {
        source := None;
      }
    }
  }

  /** scan_processor (noded.c:154-170), a copy. */
  method ScanCopy(toks: seq<Token>, dict: SymDict, vm: Vm.Vm, rules: array<NodeRule>, nrules: nat, ghost b: Built)
    returns (ok: bool, rest: seq<Token>, ghost c: Built)
    requires Holds(b, dict, vm, rules) && nrules == |b.rules| == |b.nodes| < rules.Length == vm.nnodes && IsCopy(toks)
    modifies dict, vm.Repr(), rules
    ensures ok <==> Loadable(b, toks)
    ensures ok ==> Loads(b, toks, rest, c) && Holds(c, dict, vm, rules)
    ensures ok ==> fresh(vm.Repr() - old(vm.Repr())) && vm.nnodes == old(vm.nnodes) && vm.nwires == old(vm.nwires)
  {
    hide Holds, Vm.Vm.Valid, Loads, Loadable, RuleTabled, ParseBody, StmtNames, Compilable, WithProc, CopyOf;
    ok, rest, c := false, toks, b;
    ProcessorLoads(b, toks);
    var source := FindSource(toks[3].name, dict, vm, rules, nrules, b);
    if source.None? {
      return;
    }
    NewCopy(toks[1].name, source.value, dict, vm, rules, nrules, b);
    c := WithProc(b, toks[1].name, b.rules[source.value].ports, b.bodies[source.value].value);
    ok, rest := true, toks[5..];
  }

  lemma HoldsSound(b: Built, dict: SymDict, vm: Vm.Vm, rules: array<NodeRule>)
    requires Holds(b, dict, vm, rules)
    ensures Sound(b)
  {
  }

  // ----- Wires -----

  /** One end of a wire: its node and port number. */
  datatype End = End(node: nat, port: nat, isProc: bool)

  function EndOf(b: Built, node: string, port: string): (e: Option<End>)
    ensures e.Some? ==> e.value.node < |b.rules|
  {
    var n := Lookup(RuleNames(b.rules), node);
    if n.None? then None else
    var p := Lookup(b.rules[n.value].ports, port);
    if p.None? then None else Some(End(n.value, p.value, b.rules[n.value].isProc))
  }

  /** The search for one end (noded.c:252-260, noded.c:262-270). */
  method FindEnd(id: nat, port: string, dict: SymDict, vm: Vm.Vm, rules: array<NodeRule>, nrules: nat, ghost b: Built)
    returns (e: Option<End>)
    requires Holds(b, dict, vm, rules) && nrules == |b.rules| && id < |dict.syms|
    modifies dict
    ensures Holds(b, dict, vm, rules) && old(dict.syms) <= dict.syms && e == EndOf(b, old(dict.syms[id]), port)
  {
    hide Holds, Vm.Vm.Valid, Compiler.Tabled, RuleNames, IndexOf, Lookup;
    var idx := FindNode(id, dict, vm, rules, nrules, b);
    if idx.None? {
      return None;
    }
    ghost var syms := dict.syms;
    var rule := rules[idx.value];
    var portId := Intern(port, dict, vm, rules, b);
    Compiler.TabledLater(rule.ports, b.rules[idx.value].ports, syms, dict.syms);
    var p := FindNamedPort(rule, portId, dict, vm, rules, b, b.rules[idx.value]);
    if p.None? {
      return None;
    }
    e := Some(End(idx.value, p.value, rule.isProc));
  }

  /** find_port, by the symbol of a name. */
  method FindNamedPort(rule: NodeRule, id: nat, dict: SymDict, vm: Vm.Vm, rules: array<NodeRule>, ghost b: Built,
                       ghost q: Rule)
    returns (p: Option<nat>)
    requires Holds(b, dict, vm, rules) && Compiler.Tabled(rule.ports, q.ports, dict.syms) && id < |dict.syms|
    ensures Holds(b, dict, vm, rules) && p == Lookup(q.ports, dict.syms[id])
  {
    hide Vm.Vm.Valid, Sound, RulesTabled;
    p := FindPort(rule, id);
    PortFound(rule.ports, q.ports, dict.syms, id, p);
  }

  lemma NoWire(b: Built, toks: seq<Token>)
    requires toks != [] && toks[0].IDENTIFIER? && !IsWire(toks)
    ensures !Loadable(b, toks)
  {
    hide ParseBody;
  }

  lemma WireLoads(b: Built, toks: seq<Token>)
    requires IsWire(toks)
    ensures var e1, e2 := EndOf(b, toks[0].name, toks[2].name), EndOf(b, toks[4].name, toks[6].name);
            var good := e1.Some? && e2.Some? && (e1.value.isProc || e2.value.isProc);
            && (Loadable(b, toks) <==> good)
            && (good ==> JointOf(b, toks[0].name, toks[2].name, toks[4].name, toks[6].name) == Some(Between(e1.value, e2.value)))
            && (good ==> Loads(b, toks, toks[8..], WithJoint(b, Between(e1.value, e2.value))))
  {
    WireParsed(toks);
    JointOfEnds(b, toks[0].name, toks[2].name, toks[4].name, toks[6].name);
    hide JointOf, EndOf, WithJoint, Between, ParseDecl;
  }

  lemma JointOfEnds(b: Built, node1: string, port1: string, node2: string, port2: string)
    ensures var e1, e2 := EndOf(b, node1, port1), EndOf(b, node2, port2);
            JointOf(b, node1, port1, node2, port2)
            == if e1.Some? && e2.Some? && (e1.value.isProc || e2.value.isProc) then Some(Between(e1.value, e2.value)) else None
  {
    hide RuleNames, Lookup;
  }

  lemma WireParsed(toks: seq<Token>)
    requires IsWire(toks)
    ensures ParseDecl(toks) == Some((WireOf(toks[0].name, toks[2].name, toks[4].name, toks[6].name), toks[8..]))
  {
    hide ParseBody;
  }

  function Between(e1: End, e2: End): Wiring.Joint {
    Wiring.Joint(e1.node, e1.port, e2.node, e2.port)
  }

  /** add_wire for a declaration. */
  method AddJoint(dict: SymDict, vm: Vm.Vm, rules: array<NodeRule>, j: Wiring.Joint, ghost b: Built)
    requires Holds(b, dict, vm, rules) && |b.joints| < vm.nwires && Sound(WithJoint(b, j))
    modifies vm.Repr()
    ensures Holds(WithJoint(b, j), dict, vm, rules) && fresh(vm.Repr() - old(vm.Repr()))
    ensures vm.nnodes == old(vm.nnodes) && vm.nwires == old(vm.nwires)
  {
    hide Vm.Vm.Valid, Sound, RulesTabled, NoDuplicates;
    JointNet(b, j, WithJoint(b, j).sys);
    var added := vm.AddWire(j);
    assert added;
  }

  lemma WireSound(b: Built, node1: string, port1: string, node2: string, port2: string)
    requires Sound(b) && JointOf(b, node1, port1, node2, port2).Some?
    ensures Sound(WithJoint(b, JointOf(b, node1, port1, node2, port2).value))
  {
    hide Sound, JointOf;
    DeclSound(b, WireOf(node1, port1, node2, port2));
  }

  /** scan_wire (noded.c:229-281) */
  method ScanWire(toks: seq<Token>, dict: SymDict, vm: Vm.Vm, rules: array<NodeRule>, nrules: nat, ghost b: Built)
    returns (ok: bool, rest: seq<Token>, ghost c: Built)
    requires Holds(b, dict, vm, rules) && nrules == |b.rules| && |b.joints| < vm.nwires && toks != []
             && toks[0].IDENTIFIER?
    modifies dict, vm.Repr()
    ensures ok <==> Loadable(b, toks)
    ensures ok ==> Loads(b, toks, rest, c) && Holds(c, dict, vm, rules)
    ensures ok ==> fresh(vm.Repr() - old(vm.Repr())) && vm.nnodes == old(vm.nnodes) && vm.nwires == old(vm.nwires)
  {
    hide Holds, Vm.Vm.Valid, Loads, Loadable, EndOf, JointOf, WithJoint, Sound, Between, NetOf;
    ok, rest, c := false, toks, b;
    if !IsWire(toks) {
      NoWire(b, toks);
      return;
    }
    WireLoads(b, toks);
    var joint := FindJoint(toks, dict, vm, rules, nrules, b);
    if joint.None? {
      return;
    }
    HoldsSound(b, dict, vm, rules);
    WireSound(b, toks[0].name, toks[2].name, toks[4].name, toks[6].name);
    AddJoint(dict, vm, rules, joint.value, b);
    c := WithJoint(b, joint.value);
    ok, rest := true, toks[8..];
  }

  /** The joint of a wire declaration (noded.c:247-278). */
  method FindJoint(toks: seq<Token>, dict: SymDict, vm: Vm.Vm, rules: array<NodeRule>, nrules: nat, ghost b: Built)
    returns (j: Option<Wiring.Joint>)
    requires Holds(b, dict, vm, rules) && nrules == |b.rules| && IsWire(toks)
    modifies dict
    ensures Holds(b, dict, vm, rules)
    ensures j == var e1, e2 := EndOf(b, toks[0].name, toks[2].name), EndOf(b, toks[4].name, toks[6].name);
                 if e1.Some? && e2.Some? && (e1.value.isProc || e2.value.isProc) then Some(Between(e1.value, e2.value)) else None
  {
    hide Holds, Vm.Vm.Valid, EndOf;
    var id1 := Intern(toks[0].name, dict, vm, rules, b);
    var id2 := Intern(toks[4].name, dict, vm, rules, b);
    var end1 := FindEnd(id1, toks[2].name, dict, vm, rules, nrules, b);
    var end2 := FindEnd(id2, toks[6].name, dict, vm, rules, nrules, b);
    if end1.Some? && end2.Some? && (end1.value.isProc || end2.value.isProc) {
      j := Some(Between(end1.value, end2.value));
    } else {
      j := None;
    }
  }

  // ----- main -----

  /** The next declaration of the second pass (noded.c:375-394). */
  method ScanOne(toks: seq<Token>, dict: SymDict, vm: Vm.Vm, rules: array<NodeRule>, nrules: nat, ghost b: Built)
    returns (ok: bool, rest: seq<Token>, ghost c: Built)
    requires Holds(b, dict, vm, rules) && nrules == |b.rules| && toks != []
    requires Roomy(b, vm.nnodes, vm.nwires, toks) && rules.Length == vm.nnodes
    modifies dict, vm.Repr(), rules
    ensures ok <==> Loadable(b, toks)
    ensures ok ==> Loads(b, toks, rest, c) && Holds(c, dict, vm, rules)
    ensures ok ==> fresh(vm.Repr() - old(vm.Repr())) && vm.nnodes == old(vm.nnodes) && vm.nwires == old(vm.nwires)
  {
    hide Holds, Vm.Vm.Valid, Loads, Roomy, Sound, BuildDecl;
    HoldsSound(b, dict, vm, rules);
    RoomForOne(b, vm.nnodes, vm.nwires, toks);
    ok, rest, c := false, toks, b;
    match toks[0] {
      case PROCESSOR =>
        if IsProcessor(toks) {
          ok, rest, c := ScanBody(toks, dict, vm, rules, nrules, b);
        } else if IsCopy(toks) {
          ok, rest, c := ScanCopy(toks, dict, vm, rules, nrules, b);
        }
      case BUFFER => ok, rest, c := ScanBuffer(toks, dict, vm, rules, nrules, b);
      case STACK => ok, rest, c := ScanStack(toks, dict, vm, rules, nrules, b);
      case IDENTIFIER(_) => ok, rest, c := ScanWire(toks, dict, vm, rules, nrules, b);
      case _ =>
    }
  }

  /** Counting stays in step with building. */
  lemma StillRoomy(b: Built, nnodes: nat, nwires: nat, toks: seq<Token>, rest: seq<Token>, c: Built)
    requires Roomy(b, nnodes, nwires, toks) && toks != [] && Loads(b, toks, rest, c)
    ensures Roomy(c, nnodes, nwires, rest) && BuildFrom(b, toks) == BuildFrom(c, rest) && |rest| < |toks|
    ensures |c.rules| == |b.rules| + (if toks[0].IDENTIFIER? then 0 else 1)
  {
    hide SkipDecl, ParseDecl, BuildDecl;
    DeclSkipped(toks);
    DeclKind(toks);
    DeclAdds(b, ParseDecl(toks).value.0);
    RuleForNode(b, ParseDecl(toks).value.0);
  }

  lemma RuleForNode(b: Built, d: Decl)
    requires BuildDecl(b, d).Some?
    ensures |BuildDecl(b, d).value.rules| == |b.rules| + (if d.WireOf? then 0 else 1)
  {
    hide Compilable, Program, EncodeAll, StmtNames, IndexOf, Literal.Decode, Literal.Padded, RuleNames, JointOf;
  }

  /** The second pass (noded.c:374-395). The capacities counted by the first one always suffice. */
  method BuildPass(toks: seq<Token>, dict: SymDict, vm: Vm.Vm, rules: array<NodeRule>, ghost b: Built)
    returns (ok: bool, ghost c: Built)
    requires Holds(b, dict, vm, rules) && |b.rules| == 1
    requires Roomy(b, vm.nnodes, vm.nwires, toks) && rules.Length == vm.nnodes
    modifies dict, vm.Repr(), rules
    ensures ok <==> BuildFrom(b, toks).Some?
    ensures ok ==> BuildFrom(b, toks) == Some(c) && Holds(c, dict, vm, rules) && fresh(vm.Repr() - old(vm.Repr()))
  {
    hide Holds, Vm.Vm.Valid, Loads, Loadable, Roomy, Sound, BuildDecl;
    ok, c := true, b;
    var ts, nodesParsed := toks, 1;
    while ts != []
      invariant Holds(c, dict, vm, rules) && nodesParsed == |c.rules|
      invariant Roomy(c, vm.nnodes, vm.nwires, ts) && rules.Length == vm.nnodes
      invariant BuildFrom(b, toks) == BuildFrom(c, ts)
      invariant fresh(vm.Repr() - old(vm.Repr()))
      decreases |ts|
    {
      ghost var before := c;
      var rest;
      var wire := ts[0].IDENTIFIER?;
      ok, rest, c := ScanOne(ts, dict, vm, rules, nodesParsed, c);
      if !ok {
        NotLoadable(before, ts);
        return;
      }
      StillRoomy(before, vm.nnodes, vm.nwires, ts, rest, c);
      if !wire {
        nodesParsed := nodesParsed + 1;
      }
      ts := rest;
    }
  }

  lemma NotLoadable(b: Built, toks: seq<Token>)
    requires toks != [] && !Loadable(b, toks)
    ensures BuildFrom(b, toks).None?
  {
    hide ParseDecl, BuildDecl;
  }

  /** A new VM and an empty dictionary hold nothing. */
  lemma HoldsNothing(dict: SymDict, vm: Vm.Vm, rules: array<NodeRule>, input: seq<byte>)
    requires dict.Valid() && vm.Valid() && dict !in vm.Repr() && rules !in vm.Repr()
    requires vm.nodes == [] && vm.wires == [] && vm.net == [] && vm.sys == Nothing(input).sys
    ensures Holds(Nothing(input), dict, vm, rules)
  {
    hide Vm.Vm.Valid, NoDuplicates, Sound, NetOf;
    BegunSound(input);
  }

  /** add_io_node */
  method AddIoNode(dict: SymDict, vm: Vm.Vm, rules: array<NodeRule>, ghost input: seq<byte>)
    requires Holds(Nothing(input), dict, vm, rules) && 0 < vm.nnodes
    modifies vm.Repr()
    ensures Ahead(Nothing(input), Begun(input), dict, vm, rules) && fresh(vm.Repr() - old(vm.Repr()))
    ensures vm.nnodes == old(vm.nnodes) && vm.nwires == old(vm.nwires)
  {
    hide Vm.Vm.Valid, Sound, RulesTabled, NoDuplicates;
    ghost var b, c := Nothing(input), Begun(input);
    BegunSound(input);
    NodeNet(b, c.rules[0], None, Network.Io, b.sys);
    SoundLengths(c);
    var added := vm.AddIoNode();
    assert added;
  }

  /** The IO node and its rule (noded.c:359-372). */
  method AddIo(dict: SymDict, vm: Vm.Vm, rules: array<NodeRule>, ghost input: seq<byte>)
    requires Holds(Nothing(input), dict, vm, rules) && 0 < vm.nnodes == rules.Length
    modifies dict, vm.Repr(), rules
    ensures Holds(Begun(input), dict, vm, rules) && fresh(vm.Repr() - old(vm.Repr()))
    ensures vm.nnodes == old(vm.nnodes) && vm.nwires == old(vm.nwires)
  {
    hide Holds, Ahead, Vm.Vm.Valid;
    ghost var b := Nothing(input);
    var portIn := Intern("in", dict, vm, rules, b);
    var portOut := Intern("out", dict, vm, rules, b);
    var portErr := Intern("err", dict, vm, rules, b);
    AddIoNode(dict, vm, rules, input);
    NameNode("io", [portIn, portOut, portErr], false, dict, vm, rules, 0, b, Begun(input));
  }

  /** The part of main in front of `run` (noded.c:283-397): both passes over the same tokens. A program is
      accepted exactly when its declarations can be built, and the VM is then what they say. */
  method Load(toks: seq<Token>, input: seq<byte>) returns (ok: bool, vm: Vm.Vm)
    ensures fresh(vm) && (ok <==> Loaded(toks, input).Some?)
    ensures ok ==> vm.Valid() && fresh(vm.Repr()) && Sound(Loaded(toks, input).value)
    ensures ok ==> vm.net == NetOf(Loaded(toks, input).value) && vm.sys == Loaded(toks, input).value.sys
  {
    hide Vm.Vm.Valid, Holds, Sound, Count, BuildAll, ParseProgram, BuildFrom;
    var nnodes, nwires;
    ok, nnodes, nwires := CountPass(toks);
    BuildFromAll(Begun(input), toks);
    if !ok {
      Rejected(toks, input);
      vm := new Vm.Vm(0, 0, input);
      return;
    }
    CountGrows(toks, Counts(1, 0));
    vm := new Vm.Vm(nnodes, nwires, input);
    var dict := new SymDict();
    var rules := new NodeRule[nnodes](_ => NodeRule(0, [], false));
    HoldsNothing(dict, vm, rules, input);
    AddIo(dict, vm, rules, input);
    ghost var b;
    ok, b := BuildPass(toks, dict, vm, rules, Begun(input));
    if ok {
      HoldsFacts(b, dict, vm, rules);
    }
  }

  lemma Rejected(toks: seq<Token>, input: seq<byte>)
    requires Count(toks, Counts(1, 0)).None?
    ensures Loaded(toks, input).None?
  {
    hide BuildAll;
    if Loaded(toks, input).Some? {
      PassesAgree(toks, input);
    }
  }

  lemma HoldsFacts(b: Built, dict: SymDict, vm: Vm.Vm, rules: array<NodeRule>)
    requires Holds(b, dict, vm, rules)
    ensures vm.Valid() && Sound(b) && vm.net == NetOf(b) && vm.sys == b.sys
  {
  }

  /** The whole program (noded.c:283-399), `run` cut off after so many rounds: when the program is well
      formed and `run` returns, the VM truly stands still. */
  method Noded(toks: seq<Token>, input: seq<byte>, sweeps: nat, fuel: nat)
    returns (loaded: bool, r: Vm.Ended, vm: Vm.Vm)
    ensures loaded <==> Loaded(toks, input).Some?
    ensures loaded ==> var b := Loaded(toks, input).value;
                       && Sound(b)
                       && (WellFormed(b) && r.Returned? ==> Network.Inv(NetOf(b), vm.sys) && Scheduler.Quiescent(NetOf(b), vm.sys))
  {
    hide Vm.Vm.Valid, Sound, Loaded, Scheduler.Run, Scheduler.Quiescent;
    r := Vm.Exited;
    loaded, vm := Load(toks, input);
    if !loaded {
      return;
    }
    ghost var b := Loaded(toks, input).value;
    vm.ValidFacts();
    if WellFormed(b) {
      BuiltInitial(b);
    }
    r := vm.Run(sweeps, fuel);
    if WellFormed(b) && r.Returned? {
      Scheduler.TrueQuiescence(NetOf(b), b.sys, sweeps, fuel);
    }
  }
}
