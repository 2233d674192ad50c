/** What a program's declarations build (noded.c:132-281, noded.c:351-388): the node rules, the nodes, the
    wires and the state that `run` starts from. */
module Programs {
  import opened Wrappers
  import opened Bytes
  import opened Bytecode
  import opened Machine
  import opened Syntax
  import opened Dict
  import opened CodeGen
  import opened Assembler
  import opened StackDepth
  import opened Declarations
  import opened Wiring
  import N = Network
  import Literal

  const NoPorts: seq<Option<N.Link>> := [None, None, None, None]

  /** A NodeRule (noded.c:17-23), with the names behind the symbol numbers. */
  datatype Rule = Rule(name: string, ports: seq<string>, isProc: bool)

  /** Nodes as they are before any wire, the `add_wire` calls, and the bodies of processors. */
  datatype Built = Built(rules: seq<Rule>, bodies: seq<Option<Stmt>>, nodes: N.Net, joints: seq<Joint>, sys: N.Sys)

  function RuleNames(rules: seq<Rule>): (names: seq<string>)
    ensures |names| == |rules| && forall i :: 0 <= i < |rules| ==> names[i] == rules[i].name
  {
    if rules == [] then [] else [rules[0].name] + RuleNames(rules[1..])
  }

  /** The first place of `x`, as find_rule and find_port search for it. */
  function Lookup(names: seq<string>, x: string): (r: Option<nat>)
    ensures r.Some? <==> x in names
    ensures r.Some? ==> r.value < |names| && names[r.value] == x
  {
    if x in names then Some(IndexOf(names, x)) else None
  }

  function WithNode(b: Built, rule: Rule, body: Option<Stmt>, node: N.Node, sys: N.Sys): Built {
    Built(b.rules + [rule], b.bodies + [body], b.nodes + [node], b.joints, sys)
  }

  /** vm_init (noded.c:351-352). */
  function Nothing(input: seq<byte>): Built {
    Built([], [], [], [], N.Sys(map[], map[N.InKey := N.Input(input), N.OutKey := N.Output([]), N.ErrKey := N.Output([])]))
  }

  /** ... and the IO node (noded.c:359-372). */
  function Begun(input: seq<byte>): Built {
    WithNode(Nothing(input), Rule("io", N.IO_PORTS, false), None, N.Io, Nothing(input).sys)
  }

  function WithProc(b: Built, name: string, ports: seq<string>, body: Stmt): Built {
    WithNode(b, Rule(name, ports, true), Some(body), N.Proc(EncodeAll(Program(body)), NoPorts), N.WithCore(b.sys, |b.nodes|, Fresh))
  }

  function WithBuffer(b: Built, name: string, data: seq<byte>): Built {
    WithNode(b, Rule(name, N.BUFFER_PORTS, false), None, N.Buffer, b.sys.(res := b.sys.res[N.NodeKey(|b.nodes|) := N.Cells(0, data)]))
  }

  function WithStack(b: Built, name: string): Built {
    WithNode(b, Rule(name, N.STACK_PORTS, false), None, N.Stack, b.sys.(res := b.sys.res[N.NodeKey(|b.nodes|) := N.Items([])]))
  }

  function WithJoint(b: Built, j: Joint): Built {
    b.(joints := b.joints + [j], sys := b.sys.(res := b.sys.res[N.WireKey(|b.joints|) := N.Wire(N.EMPTY, 0)]))
  }

  /** The joint of a wire declaration, when both ends exist and one of them is a processor. */
  function JointOf(b: Built, node1: string, port1: string, node2: string, port2: string): Option<Joint> {
    var n1, n2 := Lookup(RuleNames(b.rules), node1), Lookup(RuleNames(b.rules), node2);
    if n1.None? || n2.None? then None else
    var r1, r2 := b.rules[n1.value], b.rules[n2.value];
    var p1, p2 := Lookup(r1.ports, port1), Lookup(r2.ports, port2);
    if p1.None? || p2.None? || !(r1.isProc || r2.isProc) then None
    else Some(Joint(n1.value, p1.value, n2.value, p2.value))
  }

  /** One declaration; None for an error. Copying a node that is no processor is one: the C code takes
      the node's data for a processor's. */
  function BuildDecl(b: Built, d: Decl): Option<Built> {
    match d
    case Processor(name, body) =>
      if Compilable(body) then Some(WithProc(b, name, StmtNames(Blank, body).ports, body)) else None
    case Copy(name, source) =>
      var n := Lookup(RuleNames(b.rules), source);
      if n.None? || n.value >= |b.bodies| || b.bodies[n.value].None? then None
      else Some(WithProc(b, name, b.rules[n.value].ports, b.bodies[n.value].value))
    case BufferOf(name, text) =>
      var data := Literal.Decode(text, 0);
      if data.ok then Some(WithBuffer(b, name, Literal.Padded(data.bytes))) else None
    case StackOf(name) => Some(WithStack(b, name))
    case WireOf(node1, port1, node2, port2) =>
      match JointOf(b, node1, port1, node2, port2)
      case None => None
      case Some(j) => Some(WithJoint(b, j))
  }

  function BuildAll(b: Built, ds: seq<Decl>): Option<Built>
    decreases |ds|
  {
    if ds == [] then Some(b) else
    match BuildDecl(b, ds[0])
    case None => None
    case Some(b') => BuildAll(b', ds[1..])
  }

  /** What a whole program builds; None when one of its declarations is an error. */
  function Loaded(toks: seq<Token>, input: seq<byte>): Option<Built> {
    if ParseProgram(toks).None? then None else BuildAll(Begun(input), ParseProgram(toks).value)
  }

  /** The second pass, one declaration after the other. */
  function BuildFrom(b: Built, ts: seq<Token>): Option<Built>
    decreases |ts|
  {
    if ts == [] then Some(b) else
    match ParseDecl(ts)
    case None => None
    case Some((d, rest)) =>
      match BuildDecl(b, d)
      case None => None
      case Some(c) => BuildFrom(c, rest)
  }

  lemma {:induction false} BuildFromAll(b: Built, ts: seq<Token>)
    ensures BuildFrom(b, ts) == if ParseProgram(ts).None? then None else BuildAll(b, ParseProgram(ts).value)
    decreases |ts|
  {
    hide ParseDecl, BuildDecl;
    if ts != [] && ParseDecl(ts).Some? {
      var (d, rest) := ParseDecl(ts).value;
      if BuildDecl(b, d).Some? {
        BuildFromAll(BuildDecl(b, d).value, rest);
      }
      if ParseProgram(rest).Some? {
        assert ([d] + ParseProgram(rest).value)[1..] == ParseProgram(rest).value;
      }
    }
  }

  // ----- rules[i] describes nodes[i] -----

  predicate Describes(rule: Rule, body: Option<Stmt>, node: N.Node) {
    match node
    case Proc(code, ports) =>
      && rule.isProc && body.Some? && Compilable(body.value) && ports == NoPorts
      && code == EncodeAll(Program(body.value)) && rule.ports == StmtNames(Blank, body.value).ports
    case Io => !rule.isProc && body.None? && rule.ports == N.IO_PORTS
    case Buffer => !rule.isProc && body.None? && rule.ports == N.BUFFER_PORTS
    case Stack => !rule.isProc && body.None? && rule.ports == N.STACK_PORTS
  }

  predicate Described(b: Built) {
    && |b.rules| == |b.bodies| == |b.nodes|
    && forall i :: 0 <= i < |b.nodes| ==> Describes(b.rules[i], b.bodies[i], b.nodes[i])
  }

  ghost predicate FreshState(s: N.Sys) {
    && (forall i :: i in s.cores ==> s.cores[i] == Fresh)
    && (forall w: nat :: N.WireKey(w) in s.res ==> s.res[N.WireKey(w)] == N.Wire(N.EMPTY, 0))
  }

  predicate Joined(b: Built) {
    forall k :: 0 <= k < |b.joints| ==> ValidJoint(b.nodes, b.joints[k])
  }

  ghost predicate Sound(b: Built) {
    Described(b) && Joined(b) && FreshState(b.sys)
  }

  lemma BegunSound(input: seq<byte>)
    ensures Sound(Nothing(input)) && Sound(Begun(input))
    ensures NetOf(Nothing(input)) == []
  {
    hide Compilable, Program, EncodeAll;
  }

  /** At most PORT_MAX ports. */
  lemma FewPorts(rule: Rule, body: Option<Stmt>, node: N.Node)
    requires Describes(rule, body, node)
    ensures |rule.ports| <= 4 && (node.Proc? <==> rule.isProc)
  {
    hide LegalStmt, GotosDefined, Width, Defs, Program, EncodeAll, StmtNames;
  }

  lemma NodeSound(b: Built, rule: Rule, body: Option<Stmt>, node: N.Node, sys: N.Sys)
    requires Sound(b) && Describes(rule, body, node) && FreshState(sys)
    ensures Sound(WithNode(b, rule, body, node, sys))
  {
    hide Describes, FreshState;
  }

  lemma JointSound(b: Built, node1: string, port1: string, node2: string, port2: string)
    requires Sound(b) && JointOf(b, node1, port1, node2, port2).Some?
    ensures ValidJoint(b.nodes, JointOf(b, node1, port1, node2, port2).value)
  {
    hide Describes, FreshState, IndexOf;
    var j := JointOf(b, node1, port1, node2, port2).value;
    FewPorts(b.rules[j.node1], b.bodies[j.node1], b.nodes[j.node1]);
    FewPorts(b.rules[j.node2], b.bodies[j.node2], b.nodes[j.node2]);
  }

  /** Every declaration keeps the rules in step with the nodes, copies included. */
  lemma DeclSound(b: Built, d: Decl)
    requires Sound(b) && BuildDecl(b, d).Some?
    ensures Sound(BuildDecl(b, d).value)
  {
    hide Compilable, Program, EncodeAll, StmtNames, IndexOf, Literal.Decode, Literal.Padded, RuleNames, JointOf;
    var c := BuildDecl(b, d).value;
    match d {
      case Processor(name, body) => ProcSound(b, name, StmtNames(Blank, body).ports, body);
      case Copy(name, source) =>
        var n := Lookup(RuleNames(b.rules), source).value;
        assert Describes(b.rules[n], b.bodies[n], b.nodes[n]);
        ProcSound(b, name, b.rules[n].ports, b.bodies[n].value);
      case BufferOf(_, _) => NodeSound(b, c.rules[|b.rules|], None, N.Buffer, c.sys);
      case StackOf(_) => NodeSound(b, c.rules[|b.rules|], None, N.Stack, c.sys);
      case WireOf(n1, p1, n2, p2) => JointSound(b, n1, p1, n2, p2);
    }
  }

  lemma ProcSound(b: Built, name: string, ports: seq<string>, body: Stmt)
    requires Sound(b) && Compilable(body) && ports == StmtNames(Blank, body).ports
    ensures Sound(WithProc(b, name, ports, body))
  {
    hide Compilable, Program, EncodeAll, StmtNames;
    var c := WithProc(b, name, ports, body);
    NodeSound(b, c.rules[|b.rules|], Some(body), c.nodes[|b.nodes|], c.sys);
  }

  lemma {:induction false} AllSound(b: Built, ds: seq<Decl>)
    requires Sound(b) && BuildAll(b, ds).Some?
    ensures Sound(BuildAll(b, ds).value)
    decreases |ds|
  {
    hide Sound, BuildDecl;
    if ds != [] {
      DeclSound(b, ds[0]);
      AllSound(BuildDecl(b, ds[0]).value, ds[1..]);
    }
  }

  // ----- The two passes -----

  lemma DeclAdds(b: Built, d: Decl)
    requires BuildDecl(b, d).Some?
    ensures var c := BuildDecl(b, d).value;
            && |c.nodes| == |b.nodes| + (if d.WireOf? then 0 else 1)
            && |c.joints| == |b.joints| + (if d.WireOf? then 1 else 0)
  {
    hide Compilable, Program, EncodeAll, StmtNames, IndexOf, Literal.Decode, Literal.Padded, RuleNames, JointOf;
  }

  lemma {:induction false} AllAdd(b: Built, ds: seq<Decl>)
    requires BuildAll(b, ds).Some?
    ensures var c := BuildAll(b, ds).value;
            |c.nodes| == |b.nodes| + |ds| - Wires(ds) && |c.joints| == |b.joints| + Wires(ds)
    decreases |ds|
  {
    hide BuildDecl;
    if ds != [] {
      DeclAdds(b, ds[0]);
      AllAdd(BuildDecl(b, ds[0]).value, ds[1..]);
    }
  }

  /** Two-pass agreement: on a program that is built without an error, the first pass counted exactly the
      nodes and wires that the second one adds. */
  lemma PassesAgree(toks: seq<Token>, input: seq<byte>)
    requires ParseProgram(toks).Some? && BuildAll(Begun(input), ParseProgram(toks).value).Some?
    ensures var b := BuildAll(Begun(input), ParseProgram(toks).value).value;
            && Count(toks, Counts(1, 0)) == Some(Counts(|b.nodes|, |b.joints|))
            && |b.rules| == |b.nodes| && Sound(b)
  {
    hide Sound, BuildDecl, ParseDecl, SkipDecl;
    var ds := ParseProgram(toks).value;
    ProgramCounted(toks, Counts(1, 0));
    AllAdd(Begun(input), ds);
    BegunSound(input);
    AllSound(Begun(input), ds);
    SoundLengths(BuildAll(Begun(input), ds).value);
  }

  lemma SoundLengths(b: Built)
    requires Sound(b)
    ensures |b.rules| == |b.bodies| == |b.nodes|
  {
    hide Describes, FreshState, Joined;
  }

  // ----- Names -----

  /** Within a processor two names of a kind share a slot exactly when they are equal, and no name's slot
      is out of range. */
  lemma SlotsAreNames(body: Stmt, x: string, y: string)
    requires Compilable(body)
    ensures var env := StmtNames(Blank, body);
            && (x in env.vars && y in env.vars ==> (SlotOf(env.vars, x) == SlotOf(env.vars, y) <==> x == y))
            && (x in env.ports && y in env.ports ==> (SlotOf(env.ports, x) == SlotOf(env.ports, y) <==> x == y))
  {
    hide LegalStmt, GotosDefined, Width, Defs, StmtNames;
    var env := StmtNames(Blank, body);
    StmtNamesExtend(Blank, body);
    SlotIsPlace(env.vars, x, y);
    SlotIsPlace(env.ports, x, y);
  }

  lemma SlotIsPlace(names: seq<string>, x: string, y: string)
    requires |names| <= 4
    ensures x in names ==> SlotOf(names, x) == IndexOf(names, x) && names[SlotOf(names, x)] == x
    ensures x in names && y in names ==> (SlotOf(names, x) == SlotOf(names, y) <==> x == y)
  {
  }

  /** What find_port finds for a processor, be it compiled or copied, is the slot in the processor's SEND
      and RECV instructions for that port. */
  lemma FoundPortIsEmitted(b: Built, i: nat, x: string)
    requires Sound(b) && i < |b.nodes| && b.nodes[i].Proc?
    ensures |b.rules| == |b.bodies| == |b.nodes| && b.bodies[i].Some?
    ensures var env := StmtNames(Blank, b.bodies[i].value);
            && b.nodes[i].code == EncodeAll(Program(b.bodies[i].value))
            && (Lookup(b.rules[i].ports, x).Some? <==> x in env.ports)
            && (x in env.ports ==> Lookup(b.rules[i].ports, x) == Some(PortSlot(OfPort(x), env)))
  {
    hide Program, EncodeAll, StmtNames, LegalStmt, GotosDefined, Width, Defs, FreshState;
    assert Describes(b.rules[i], b.bodies[i], b.nodes[i]);
    SlotIsPlace(StmtNames(Blank, b.bodies[i].value).ports, x, x);
  }

  // ----- Wires and nodes -----

  /** A node added after some wires is a node added before them. */
  lemma AddWireGrown(net: N.Net, n: N.Node, w: nat, j: Joint)
    requires N.ValidNet(net) && N.ValidNet(net + [n]) && ValidJoint(net, j)
    ensures ValidJoint(net + [n], j) && AddWire(net + [n], w, j) == AddWire(net, w, j) + [n]
  {
    hide N.ValidNet;
    AddWireValid(net, w, j);
    AddWireValid(net + [n], w, j);
  }

  lemma {:induction false} BuildGrown(net: N.Net, n: N.Node, js: seq<Joint>)
    requires N.ValidNet(net) && (n.Proc? ==> n.ports == NoPorts)
    requires forall k :: 0 <= k < |js| ==> ValidJoint(net, js[k])
    ensures N.ValidNet(net + [n]) && (forall k :: 0 <= k < |js| ==> ValidJoint(net + [n], js[k]))
    ensures Build(net + [n], js) == Build(net, js) + [n]
    decreases |js|
  {
    hide AddWire;
    GrownValid(net, n);
    if js != [] {
      var k := |js| - 1;
      BuildGrown(net, n, js[..k]);
      var m := Build(net, js[..k]);
      JointStaysValid(net, m, js[k]);
      GrownValid(m, n);
      AddWireGrown(m, n, k, js[k]);
    }
  }

  lemma GrownValid(net: N.Net, n: N.Node)
    requires N.ValidNet(net) && (n.Proc? ==> n.ports == NoPorts)
    ensures N.ValidNet(net + [n])
  {
  }

  lemma SoundNodes(b: Built)
    requires Sound(b)
    ensures N.ValidNet(b.nodes) && Unwired(b.nodes) && forall k :: 0 <= k < |b.joints| ==> ValidJoint(b.nodes, b.joints[k])
  {
    hide Compilable, Program, EncodeAll, StmtNames, FreshState;
    forall i | 0 <= i < |b.nodes| && b.nodes[i].Proc?
      ensures b.nodes[i].ports == NoPorts
    {
      assert Describes(b.rules[i], b.bodies[i], b.nodes[i]);
    }
  }

  /** The wired nodes. */
  ghost function NetOf(b: Built): N.Net
    requires Sound(b)
  {
    SoundNodes(b);
    Build(b.nodes, b.joints)
  }

  lemma NodeNet(b: Built, rule: Rule, body: Option<Stmt>, node: N.Node, sys: N.Sys)
    requires Sound(b) && Describes(rule, body, node) && Sound(WithNode(b, rule, body, node, sys))
    ensures NetOf(WithNode(b, rule, body, node, sys)) == NetOf(b) + [node]
  {
    hide Sound, Build;
    SoundNodes(b);
    BuildGrown(b.nodes, node, b.joints);
  }

  lemma JointNet(b: Built, j: Joint, sys: N.Sys)
    requires Sound(b) && Sound(b.(joints := b.joints + [j], sys := sys))
    ensures ValidJoint(NetOf(b), j) && N.ValidNet(NetOf(b)) && |NetOf(b)| == |b.nodes|
    ensures NetOf(b.(joints := b.joints + [j], sys := sys)) == AddWire(NetOf(b), |b.joints|, j)
  {
    hide Sound;
    var c := b.(joints := b.joints + [j], sys := sys);
    SoundNodes(b);
    SoundNodes(c);
    assert c.joints[|b.joints|] == j && c.joints[..|b.joints|] == b.joints;
    JointStaysValid(b.nodes, NetOf(b), j);
  }

  // ----- The state that run starts from -----

  /** What the wiring of a program must be like, and its bodies: not empty, and within the stack. */
  ghost predicate WellFormed(b: Built)
    requires Sound(b)
  {
    SoundNodes(b);
    && (forall i :: 0 <= i < |b.bodies| && b.bodies[i].Some? ==> Runnable(b.bodies[i].value))
    && SingleWire(b.nodes, b.joints)
    && (forall i: nat, p: slot :: i < |b.nodes| && b.nodes[i].Proc? ==> !(N.Sends(b.nodes, i, p) && N.Receives(b.nodes, i, p)))
    && (forall k :: 0 <= k < |b.joints| ==> OneWay(b.nodes, b.joints[k]))
  }

  /** The bodies by node. */
  function BodiesOf(b: Built): Bodies {
    map i | 0 <= i < |b.bodies| && b.bodies[i].Some? :: b.bodies[i].value
  }

  /** A program of runnable bodies on single, one-way wires starts in a state that meets the demands of
      every theorem about the VM, and every processor runs the code of its body. */
  lemma BuiltInitial(b: Built)
    requires Sound(b) && WellFormed(b) && N.Valid(NetOf(b), b.sys)
    ensures N.Initial(NetOf(b), b.sys) && CompiledNet(NetOf(b), BodiesOf(b))
  {
    hide Program, EncodeAll, StmtNames, Compilable, Width, Peak, SingleWire, OneWay, Closed, Build, N.Sends,
         N.Receives, N.ValidNet, Unwired, N.WellWired, N.Valid;
    SoundNodes(b);
    forall i | 0 <= i < |b.nodes| && b.nodes[i].Proc?
      ensures Closed(b.nodes[i].code)
    {
      assert Describes(b.rules[i], b.bodies[i], b.nodes[i]);
      CompiledClosed(b.bodies[i].value);
    }
    BuildsWellWired(b.nodes, b.joints);
    CompiledNodes(b);
  }

  lemma CompiledNodes(b: Built)
    requires Sound(b) && WellFormed(b)
    ensures CompiledNet(NetOf(b), BodiesOf(b))
  {
    SoundNodes(b);
    hide Program, EncodeAll, StmtNames, Compilable, Width, Peak, SingleWire, OneWay, Build, N.Sends, N.Receives,
         N.ValidNet, Unwired;
    var net := NetOf(b);
    forall i: nat | i < |net| && net[i].Proc?
      ensures i in BodiesOf(b) && Runnable(BodiesOf(b)[i]) && net[i].code == EncodeAll(Program(BodiesOf(b)[i]))
    {
      assert Describes(b.rules[i], b.bodies[i], b.nodes[i]);
    }
  }
}
