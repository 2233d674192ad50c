/** Wires and nodes by their names: what the declarations of a program say is what its VM has, link for link
    and node for node (noded.c:131-281, noded.c:351-395). */
module Wires {
  import opened Wrappers
  import opened Bytes
  import opened Bytecode
  import opened Syntax
  import opened Dict
  import opened CodeGen
  import opened Assembler
  import opened Declarations
  import opened Programs
  import opened Wiring
  import N = Network
  import Devices
  import Literal

  // ----- Names -----

  /** `n` is the first node called `node`, and `p` its first port called `port`. */
  predicate Means(rules: seq<Rule>, n: nat, node: string, p: nat, port: string) {
    && n < |rules| && rules[n].name == node && (forall i :: 0 <= i < n ==> rules[i].name != node)
    && p < |rules[n].ports| && rules[n].ports[p] == port && (forall q :: 0 <= q < p ==> rules[n].ports[q] != port)
  }

  /** The joint has the ends that the wire declaration names, one of them a processor. */
  predicate Joins(rules: seq<Rule>, j: Joint, d: Decl)
    requires d.WireOf?
  {
    && Means(rules, j.node1, d.node1, j.port1, d.port1) && Means(rules, j.node2, d.node2, j.port2, d.port2)
    && (rules[j.node1].isProc || rules[j.node2].isProc)
  }

  lemma LookupFirst(names: seq<string>, x: string)
    ensures match Lookup(names, x)
            case None => forall i :: 0 <= i < |names| ==> names[i] != x
            case Some(k) => k < |names| && names[k] == x && forall i :: 0 <= i < k ==> names[i] != x
  {
    hide IndexOf;
  }

  /** A wire declaration makes the joint of the two ends that it names, each with its own port. */
  lemma JointJoins(b: Built, d: Decl)
    requires d.WireOf? && JointOf(b, d.node1, d.port1, d.node2, d.port2).Some?
    ensures Joins(b.rules, JointOf(b, d.node1, d.port1, d.node2, d.port2).value, d)
  {
    hide Lookup, IndexOf;
    var j := JointOf(b, d.node1, d.port1, d.node2, d.port2).value;
    LookupFirst(RuleNames(b.rules), d.node1);
    LookupFirst(RuleNames(b.rules), d.node2);
    LookupFirst(b.rules[j.node1].ports, d.port1);
    LookupFirst(b.rules[j.node2].ports, d.port2);
  }

  /** ... and it is an error only when there is no such joint. */
  lemma JoinsIsJoint(b: Built, d: Decl, j: Joint)
    requires d.WireOf? && Joins(b.rules, j, d)
    ensures JointOf(b, d.node1, d.port1, d.node2, d.port2) == Some(j)
  {
    hide Lookup, IndexOf;
    FirstIsLookup(RuleNames(b.rules), d.node1, j.node1);
    FirstIsLookup(RuleNames(b.rules), d.node2, j.node2);
    FirstIsLookup(b.rules[j.node1].ports, d.port1, j.port1);
    FirstIsLookup(b.rules[j.node2].ports, d.port2, j.port2);
  }

  lemma FirstIsLookup(names: seq<string>, x: string, p: nat)
    requires p < |names| && names[p] == x && forall q :: 0 <= q < p ==> names[q] != x
    ensures Lookup(names, x) == Some(p)
  {
  }

  // ----- Declarations only add -----

  /** `c` has all that `b` has, in the same places. */
  predicate Keeps(b: Built, c: Built) {
    && b.rules <= c.rules && b.bodies <= c.bodies && b.nodes <= c.nodes && b.joints <= c.joints
    && forall k :: k in b.sys.res && !k.WireKey? && (k.NodeKey? ==> k.n < |b.nodes|) ==>
         k in c.sys.res && c.sys.res[k] == b.sys.res[k]
  }

  lemma DeclKeeps(b: Built, d: Decl)
    requires BuildDecl(b, d).Some?
    ensures Keeps(b, BuildDecl(b, d).value)
  {
    hide Compilable, Program, EncodeAll, StmtNames, IndexOf, Literal.Decode, Literal.Padded, RuleNames, JointOf;
  }

  lemma {:induction false} AllKeep(b: Built, ds: seq<Decl>)
    requires BuildAll(b, ds).Some?
    ensures Keeps(b, BuildAll(b, ds).value)
    decreases |ds|
  {
    hide BuildDecl;
    if ds != [] {
      DeclKeeps(b, ds[0]);
      AllKeep(BuildDecl(b, ds[0]).value, ds[1..]);
    }
  }

  /** The state before the `k`-th declaration, and the one behind it. */
  lemma {:induction false} BeforeDecl(b: Built, ds: seq<Decl>, k: nat) returns (m: Built)
    requires BuildAll(b, ds).Some? && k < |ds|
    ensures BuildDecl(m, ds[k]).Some? && Keeps(BuildDecl(m, ds[k]).value, BuildAll(b, ds).value)
    ensures |m.nodes| == |b.nodes| + k - Wires(ds[..k]) && |m.joints| == |b.joints| + Wires(ds[..k])
    ensures Even(b) ==> Even(m)
    decreases k
  {
    hide BuildDecl, Keeps, Even;
    var b1 := BuildDecl(b, ds[0]).value;
    if k == 0 {
      m := b;
      AllKeep(b1, ds[1..]);
    } else {
      assert ds[1..][..k - 1] == ds[..k][1..];
      DeclAdds(b, ds[0]);
      DeclLengths(b, ds[0]);
      m := BeforeDecl(b1, ds[1..], k - 1);
    }
  }

  /** One rule and one body, if only an absent one, for each node. */
  predicate Even(b: Built) {
    |b.rules| == |b.nodes| == |b.bodies|
  }

  lemma DeclLengths(b: Built, d: Decl)
    requires BuildDecl(b, d).Some?
    ensures Even(b) ==> Even(BuildDecl(b, d).value)
  {
    hide Compilable, Program, EncodeAll, StmtNames, IndexOf, Literal.Decode, Literal.Padded, RuleNames, JointOf;
  }

  // ----- Wires -----

  /** The `k`-th declaration, if it is a wire, is the joint that comes behind those of the wires before it. */
  lemma DeclaredWire(b: Built, ds: seq<Decl>, k: nat) returns (w: nat)
    requires BuildAll(b, ds).Some? && k < |ds| && ds[k].WireOf?
    ensures w == |b.joints| + Wires(ds[..k])
    ensures var c := BuildAll(b, ds).value; w < |c.joints| && Joins(c.rules, c.joints[w], ds[k])
  {
    hide BuildAll, JointOf, Joins;
    var m := BeforeDecl(b, ds, k);
    w := |m.joints|;
    JointJoins(m, ds[k]);
    JoinsKept(m.rules, BuildAll(b, ds).value.rules, BuildAll(b, ds).value.joints[w], ds[k]);
  }

  lemma JoinsKept(rules: seq<Rule>, more: seq<Rule>, j: Joint, d: Decl)
    requires rules <= more && d.WireOf? && Joins(rules, j, d)
    ensures Joins(more, j, d)
  {
  }

  /** There is no other joint. */
  lemma {:induction false} WireDeclared(b: Built, ds: seq<Decl>, w: nat) returns (k: nat)
    requires BuildAll(b, ds).Some? && |b.joints| <= w < |BuildAll(b, ds).value.joints|
    ensures k < |ds| && ds[k].WireOf? && w == |b.joints| + Wires(ds[..k])
    decreases |ds|
  {
    hide BuildDecl;
    var c := BuildDecl(b, ds[0]).value;
    DeclAdds(b, ds[0]);
    k := 0;
    if w >= |c.joints| {
      k := WireDeclared(c, ds[1..], w);
      assert ds[1..][..k] == ds[..k + 1][1..];
      k := k + 1;
    }
  }

  // ----- Nodes -----

  /** The bytes of a buffer as declared. */
  function BufferBytes(text: seq<byte>): seq<byte> {
    Literal.Padded(Literal.Decode(text, 0).bytes)
  }

  /** Node `n` has the code, the body and the ports of node `m`, the first one called `source`. */
  predicate CopyOf(b: Built, n: nat, m: nat, source: string) {
    && m < n < |b.nodes| && Even(b)
    && b.rules[m].name == source && (forall i :: 0 <= i < m ==> b.rules[i].name != source)
    && b.bodies[m].Some? && b.bodies[n] == b.bodies[m] && b.rules[n].ports == b.rules[m].ports
    && b.nodes[n] == N.Proc(EncodeAll(Program(b.bodies[m].value)), NoPorts)
  }

  /** Node `n` is what the declaration says: a processor with the code of its body, or with the code and the
      ports of the first node of its source's name; a buffer with the bytes of its text; an empty stack. */
  ghost predicate DeclaredAs(b: Built, n: nat, d: Decl)
    requires !d.WireOf?
  {
    && Even(b) && n < |b.nodes| && b.rules[n].name == d.name
    && match d
       case Processor(_, body) =>
         b.nodes[n] == N.Proc(EncodeAll(Program(body)), NoPorts) && b.rules[n].ports == StmtNames(Blank, body).ports
       case Copy(_, source) => exists m: nat :: CopyOf(b, n, m, source)
       case BufferOf(_, text) =>
         b.nodes[n] == N.Buffer && N.NodeKey(n) in b.sys.res && b.sys.res[N.NodeKey(n)] == N.Cells(0, BufferBytes(text))
       case StackOf(_) => b.nodes[n] == N.Stack && N.NodeKey(n) in b.sys.res && b.sys.res[N.NodeKey(n)] == N.Items([])
       case _ => false
  }

  lemma DeclAddsNode(b: Built, d: Decl)
    requires Even(b) && !d.WireOf? && BuildDecl(b, d).Some?
    ensures DeclaredAs(BuildDecl(b, d).value, |b.nodes|, d)
  {
    hide Compilable, Program, EncodeAll, StmtNames, IndexOf, Literal.Decode, Literal.Padded, Lookup;
    if d.Copy? {
      var m := Lookup(RuleNames(b.rules), d.source).value;
      LookupFirst(RuleNames(b.rules), d.source);
      assert CopyOf(BuildDecl(b, d).value, |b.nodes|, m, d.source);
    }
  }

  lemma DeclaredKept(b: Built, c: Built, n: nat, d: Decl)
    requires !d.WireOf? && DeclaredAs(b, n, d) && Keeps(b, c) && Even(c)
    ensures DeclaredAs(c, n, d)
  {
    hide Compilable, Program, EncodeAll, StmtNames, Literal.Decode, Literal.Padded;
    if d.Copy? {
      var m: nat :| CopyOf(b, n, m, d.source);
      assert CopyOf(c, n, m, d.source);
    }
  }

  lemma {:induction false} AllEven(b: Built, ds: seq<Decl>)
    requires Even(b) && BuildAll(b, ds).Some?
    ensures Even(BuildAll(b, ds).value)
    decreases |ds|
  {
    hide BuildDecl, Even;
    if ds != [] {
      DeclLengths(b, ds[0]);
      AllEven(BuildDecl(b, ds[0]).value, ds[1..]);
    }
  }

  /** The `k`-th declaration, if it is no wire, is the node that comes behind those of the nodes before it,
      and that node is what the declaration says. */
  lemma DeclaredNode(b: Built, ds: seq<Decl>, k: nat) returns (n: nat)
    requires Even(b) && BuildAll(b, ds).Some? && k < |ds| && !ds[k].WireOf?
    ensures n == |b.nodes| + k - Wires(ds[..k]) && DeclaredAs(BuildAll(b, ds).value, n, ds[k])
  {
    hide BuildAll, BuildDecl, Even, DeclaredAs, Keeps;
    var m := BeforeDecl(b, ds, k);
    n := |m.nodes|;
    DeclAddsNode(m, ds[k]);
    AllEven(b, ds);
    DeclaredKept(BuildDecl(m, ds[k]).value, BuildAll(b, ds).value, n, ds[k]);
  }

  // ----- Links -----

  /** The number of port `x` in the SEND and RECV instructions of processor `n`. */
  function CodeSlot(b: Built, n: nat, x: string): slot
    requires n < |b.bodies| && b.bodies[n].Some?
  {
    PortSlot(OfPort(x), StmtNames(Blank, b.bodies[n].value))
  }

  /** The port that a name means is the one that the processor's instructions use for the name. */
  lemma MeansSlot(b: Built, n: nat, node: string, p: nat, port: string)
    requires Sound(b) && Means(b.rules, n, node, p, port) && n < |b.nodes| && b.nodes[n].Proc?
    ensures n < |b.bodies| && b.bodies[n].Some? && CodeSlot(b, n, port) == p
  {
    hide Sound, Lookup, StmtNames, PortSlot, EncodeAll, Program;
    FoundPortIsEmitted(b, n, port);
    FirstIsLookup(b.rules[n].ports, port, p);
  }

  /** If node `n` is a processor, its instructions for port `x` use slot `p`, and that slot is linked to `l`. */
  ghost predicate SlotLinked(b: Built, n: nat, x: string, p: nat, l: N.Link)
    requires Sound(b) && n < |b.nodes|
  {
    b.nodes[n].Proc? ==>
      && n < |b.bodies| && b.bodies[n].Some? && CodeSlot(b, n, x) == p
      && n < |NetOf(b)| && NetOf(b)[n].Proc? && p < |NetOf(b)[n].ports| && NetOf(b)[n].ports[p] == Some(l)
  }

  lemma EndLinked(b: Built, w: nat, n: nat, node: string, p: nat, x: string, l: N.Link)
    requires Sound(b) && SingleWire(b.nodes, b.joints) && w < |b.joints| && n < |b.nodes|
    requires b.nodes[n].Proc? && Means(b.rules, n, node, p, x) && IsEnd(b.nodes, b.joints[w], n, p)
             && Opposite(b.joints[w], w, n, p) == l
    ensures SlotLinked(b, n, x, p, l)
  {
    hide Sound, Means, CodeSlot, SingleWire, IsEnd, Opposite, Build;
    SoundNodes(b);
    MeansSlot(b, n, node, p, x);
    PortsFollowJoints(b.nodes, b.joints, n, p);
  }

  lemma JointEnds(b: Built, w: nat, d: Decl)
    requires Sound(b) && SingleWire(b.nodes, b.joints) && w < |b.joints| && d.WireOf? && Joins(b.rules, b.joints[w], d)
    ensures var j := b.joints[w];
            && j.node1 < |b.nodes| && j.node2 < |b.nodes|
            && SlotLinked(b, j.node1, d.port1, j.port1, N.Link(j.node2, j.port2, w))
            && SlotLinked(b, j.node2, d.port2, j.port2, N.Link(j.node1, j.port1, w))
  {
    hide Sound, Means, SlotLinked;
    SoundNodes(b);
    var j := b.joints[w];
    assert j.node1 != j.node2;
    if b.nodes[j.node1].Proc? {
      EndLinked(b, w, j.node1, d.node1, j.port1, d.port1, N.Link(j.node2, j.port2, w));
    } else {
      NoSlot(b, j.node1, d.port1, j.port1, N.Link(j.node2, j.port2, w));
    }
    if b.nodes[j.node2].Proc? {
      EndLinked(b, w, j.node2, d.node2, j.port2, d.port2, N.Link(j.node1, j.port1, w));
    } else {
      NoSlot(b, j.node2, d.port2, j.port2, N.Link(j.node1, j.port1, w));
    }
  }

  lemma NoSlot(b: Built, n: nat, x: string, p: nat, l: N.Link)
    requires Sound(b) && n < |b.nodes| && !b.nodes[n].Proc?
    ensures SlotLinked(b, n, x, p, l)
  {
  }

  /** What a program says with `a.p -> b.q;` is what its VM has: the slot that a's instructions for p use is
      linked to b, at the slot that b's instructions for q use, and the other way round, by one wire. */
  lemma WiredAsDeclared(toks: seq<Token>, input: seq<byte>, k: nat) returns (w: nat)
    requires Loaded(toks, input).Some?
    requires SingleWire(Loaded(toks, input).value.nodes, Loaded(toks, input).value.joints)
    requires k < |ParseProgram(toks).value| && ParseProgram(toks).value[k].WireOf?
    ensures var b, d := Loaded(toks, input).value, ParseProgram(toks).value[k];
            && Sound(b) && w == Wires(ParseProgram(toks).value[..k]) < |b.joints|
            && var j := b.joints[w];
               && Joins(b.rules, j, d) && j.node1 < |b.nodes| && j.node2 < |b.nodes|
               && SlotLinked(b, j.node1, d.port1, j.port1, N.Link(j.node2, j.port2, w))
               && SlotLinked(b, j.node2, d.port2, j.port2, N.Link(j.node1, j.port1, w))
  {
    hide Sound, BuildAll, SingleWire, SlotLinked, Means, Begun;
    var ds := ParseProgram(toks).value;
    BegunSound(input);
    AllSound(Begun(input), ds);
    w := DeclaredWire(Begun(input), ds, k);
    BegunEmpty(input);
    JointEnds(Loaded(toks, input).value, w, ds[k]);
  }

  lemma BegunEmpty(input: seq<byte>)
    ensures var b := Begun(input);
            b.joints == [] && Even(b) && b.nodes == [N.Io] && |b.rules| == 1 && b.rules[0].name == "io"
  {
  }

  /** ... and no more: every link of a processor is one end of a declared wire. */
  lemma LinksAreDeclared(toks: seq<Token>, input: seq<byte>, n: nat, p: nat) returns (k: nat)
    requires Loaded(toks, input).Some?
    requires var b := Loaded(toks, input).value;
             && SingleWire(b.nodes, b.joints) && Sound(b) && n < |NetOf(b)| && NetOf(b)[n].Proc?
             && p < |NetOf(b)[n].ports| && NetOf(b)[n].ports[p].Some?
    ensures k < |ParseProgram(toks).value| && ParseProgram(toks).value[k].WireOf?
    ensures var b, d := Loaded(toks, input).value, ParseProgram(toks).value[k];
            var l := NetOf(b)[n].ports[p].value;
            && l.wire < |b.joints| && Joins(b.rules, b.joints[l.wire], d)
            && var j := b.joints[l.wire];
               (j == Joint(n, p, l.node, l.port) || j == Joint(l.node, l.port, n, p))
  {
    hide Sound, BuildAll, SingleWire, Means, Begun, Build;
    var b, ds := Loaded(toks, input).value, ParseProgram(toks).value;
    SoundNodes(b);
    ProcPorts(b, n);
    PortsFollowJoints(b.nodes, b.joints, n, p);
    var w :| 0 <= w < |b.joints| && IsEnd(b.nodes, b.joints[w], n, p);
    BegunEmpty(input);
    k := WireDeclared(Begun(input), ds, w);
    var v := DeclaredWire(Begun(input), ds, k);
  }

  lemma ProcPorts(b: Built, n: nat)
    requires Sound(b) && n < |NetOf(b)| && NetOf(b)[n].Proc?
    ensures n < |b.nodes| && b.nodes[n].Proc? && |NetOf(b)[n].ports| == 4
  {
    hide Sound, Build;
    SoundNodes(b);
  }

  // ----- Devices by name -----

  /** The stream that a port of the IO node is. */
  function StreamKey(port: string): N.Key {
    if port == "in" then N.InKey else if port == "out" then N.OutKey else N.ErrKey
  }

  lemma StreamNames()
    ensures "in"[0] == 'i' && "out"[0] == 'o' && "err"[0] == 'e'
  {
  }

  /** `io` is the first node, its ports are `in`, `out` and `err`, and a link to one of them reaches the
      standard input, the standard output or the standard error. */
  lemma IoEnd(toks: seq<Token>, input: seq<byte>, n: nat, p: nat, port: string, w: nat)
    requires Loaded(toks, input).Some? && Means(Loaded(toks, input).value.rules, n, "io", p, port)
    ensures var b := Loaded(toks, input).value;
            && Sound(b) && n == 0 < |NetOf(b)| && !b.rules[n].isProc
            && port in {"in", "out", "err"} && p < 3 && N.IO_PORTS[p] == port
            && N.KeyOf(NetOf(b), N.Link(n, p, w)) == StreamKey(port)
  {
    hide Sound, BuildAll, Begun, Build;
    var b, ds := Loaded(toks, input).value, ParseProgram(toks).value;
    BegunSound(input);
    AllSound(Begun(input), ds);
    BegunEmpty(input);
    AllKeep(Begun(input), ds);
    SoundNodes(b);
    assert b.nodes[0] == N.Io && b.rules[0].name == "io";
    NodePorts(b, 0);
    StreamNames();
  }

  /** The port names of devices. */
  lemma NodePorts(b: Built, n: nat)
    requires Sound(b) && n < |b.nodes|
    ensures |b.rules| == |b.nodes| && (b.rules[n].isProc <==> b.nodes[n].Proc?)
    ensures b.nodes[n].Io? ==> b.rules[n].ports == N.IO_PORTS
    ensures b.nodes[n].Buffer? ==> b.rules[n].ports == N.BUFFER_PORTS
    ensures b.nodes[n].Stack? ==> b.rules[n].ports == N.STACK_PORTS
  {
    hide Compilable, Program, EncodeAll, StmtNames, FreshState;
    assert Describes(b.rules[n], b.bodies[n], b.nodes[n]);
  }

  /** A link to a buffer or a stack reaches that node's data, at the port of the given name. */
  lemma StoreEnd(b: Built, n: nat, node: string, p: nat, port: string, w: nat)
    requires Sound(b) && n < |b.nodes| && Means(b.rules, n, node, p, port)
    ensures n < |NetOf(b)|
    ensures b.nodes[n].Buffer? ==>
              N.KeyOf(NetOf(b), N.Link(n, p, w)) == N.NodeKey(n) && p < |N.BUFFER_PORTS| && N.BUFFER_PORTS[p] == port
    ensures b.nodes[n].Stack? ==> N.KeyOf(NetOf(b), N.Link(n, p, w)) == N.NodeKey(n) && port == "elm"
  {
    hide Sound, Build;
    SoundNodes(b);
    NodePorts(b, n);
  }

  /** Through its ports `idx` and `elm` a declared buffer shows the bytes that its text spells, cell by cell,
      and zeros behind them. */
  lemma BufferShows(xs: seq<Literal.Spelled>, elm: nat, idx: nat, j: byte)
    requires Literal.Writable(xs) && |xs| <= 256 && Devices.ByName(elm, idx)
    ensures var r := N.Cells(0, BufferBytes(Literal.Text(xs)));
            && Devices.IsBuffer(r) && Devices.CellAt(r, elm, idx, j) == Some(if j < |xs| then xs[j].b else 0)
  {
    hide Literal.Decode, Literal.Text, Devices.CellAt, Devices.StoreAt, Devices.ByName;
    Literal.TextDecoded(xs, 0);
    var r := N.Cells(0, BufferBytes(Literal.Text(xs)));
    Devices.BufferIsMemory(r, elm, idx, j, j, 0);
    SpelledAt(xs, j);
  }

  lemma {:induction false} SpelledAt(xs: seq<Literal.Spelled>, j: nat)
    ensures j < |xs| ==> Literal.BytesOf(xs)[j] == xs[j].b
    decreases |xs|
  {
    if 0 < j < |xs| {
      SpelledAt(xs[1..], j - 1);
    }
  }

  /** The streams as `run` finds them. */
  lemma StreamsStart(toks: seq<Token>, input: seq<byte>)
    requires Loaded(toks, input).Some?
    ensures var r := Loaded(toks, input).value.sys.res;
            && {N.InKey, N.OutKey, N.ErrKey} <= r.Keys
            && r[N.InKey] == N.Input(input) && r[N.OutKey] == N.Output([]) && r[N.ErrKey] == N.Output([])
  {
    hide BuildAll, ParseProgram;
    AllKeep(Begun(input), ParseProgram(toks).value);
    var r := Begun(input).sys.res;
    assert N.InKey in r && N.OutKey in r && N.ErrKey in r;
  }

  /** Node `n` is a processor, and its slot for port `x` is linked to the stream called `stream`. */
  ghost predicate SlotReaches(b: Built, n: nat, x: string, stream: string)
    requires Sound(b)
  {
    && stream in {"in", "out", "err"} && n < |b.bodies| && b.bodies[n].Some?
    && N.Linked(NetOf(b), n, CodeSlot(b, n, x), StreamKey(stream))
  }

  lemma StreamReached(b: Built, n: nat, x: string, p: nat, l: N.Link, stream: string)
    requires Sound(b) && n < |b.nodes| && |b.rules| == |b.nodes| && b.rules[n].isProc && SlotLinked(b, n, x, p, l)
    requires l.node < |NetOf(b)| && N.KeyOf(NetOf(b), l) == StreamKey(stream) && stream in {"in", "out", "err"}
    ensures SlotReaches(b, n, x, stream)
  {
    hide Sound, NetOf, CodeSlot;
    NodePorts(b, n);
  }

  /** A processor wired to `io.in`, `io.out` or `io.err` has its slot for that port linked to the standard
      input, output or error; no other port of `io` can be wired. */
  lemma StreamWired(toks: seq<Token>, input: seq<byte>, k: nat) returns (w: nat)
    requires Loaded(toks, input).Some?
    requires SingleWire(Loaded(toks, input).value.nodes, Loaded(toks, input).value.joints)
    requires k < |ParseProgram(toks).value| && ParseProgram(toks).value[k].WireOf?
    ensures var b, d := Loaded(toks, input).value, ParseProgram(toks).value[k];
            && Sound(b) && w < |b.joints|
            && (d.node2 == "io" ==> SlotReaches(b, b.joints[w].node1, d.port1, d.port2))
            && (d.node1 == "io" ==> SlotReaches(b, b.joints[w].node2, d.port2, d.port1))
  {
    hide BuildAll, ParseProgram, Sound, SingleWire, SlotLinked, Means, SlotReaches, Build;
    w := WiredAsDeclared(toks, input, k);
    var b, d := Loaded(toks, input).value, ParseProgram(toks).value[k];
    var j := b.joints[w];
    SoundLengths(b);
    if d.node2 == "io" {
      IoEnd(toks, input, j.node2, j.port2, d.port2, w);
      StreamReached(b, j.node1, d.port1, j.port1, N.Link(j.node2, j.port2, w), d.port2);
    }
    if d.node1 == "io" {
      IoEnd(toks, input, j.node1, j.port1, d.port1, w);
      StreamReached(b, j.node2, d.port2, j.port2, N.Link(j.node1, j.port1, w), d.port1);
    }
  }
}
