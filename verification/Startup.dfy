/** Programs that can be built start in a state that meets every demand of the theorems about the VM. */
module Startup {
  import opened Wrappers
  import opened Bytes
  import opened Bytecode
  import opened Machine
  import opened Syntax
  import opened Assembler
  import opened StackDepth
  import opened Declarations
  import opened Programs
  import N = Network
  import Behaviour
  import Literal
  import Processors
  import StmtMeaning
  import Wiring
  import Vm

  /** The streams are there, and every buffer and stack has its data. */
  predicate Equipped(b: Built) {
    && {N.InKey, N.OutKey, N.ErrKey} <= b.sys.res.Keys
    && forall i :: 0 <= i < |b.nodes| && (b.nodes[i].Buffer? || b.nodes[i].Stack?) ==> N.NodeKey(i) in b.sys.res
  }

  ghost predicate Started(b: Built) {
    Sound(b) && N.Valid(NetOf(b), b.sys) && Equipped(b)
  }

  lemma NothingStarted(input: seq<byte>)
    ensures Started(Nothing(input))
  {
    hide Sound, NetOf;
    BegunSound(input);
  }

  lemma NetShape(b: Built)
    requires Sound(b)
    ensures Wiring.SameNodes(b.nodes, NetOf(b))
  {
    hide Sound;
    SoundNodes(b);
  }

  /** The state for a new node: a fresh core, or its data. */
  predicate Extended(b: Built, node: N.Node, sys: N.Sys) {
    && sys.cores == (if node.Proc? then b.sys.cores[|b.nodes| := Fresh] else b.sys.cores)
    && b.sys.res.Keys <= sys.res.Keys
    && (forall k :: k in sys.res ==> (k in b.sys.res && b.sys.res[k] == sys.res[k]) || N.GoodRes(k, sys.res[k]))
    && (node.Buffer? || node.Stack? ==> N.NodeKey(|b.nodes|) in sys.res)
  }

  lemma NodeStarted(b: Built, rule: Rule, body: Option<Stmt>, node: N.Node, sys: N.Sys)
    requires Started(b) && Describes(rule, body, node) && Sound(WithNode(b, rule, body, node, sys))
    requires Extended(b, node, sys) && (node.Proc? ==> node.ports == NoPorts)
    ensures Started(WithNode(b, rule, body, node, sys))
  {
    hide Sound, Describes, N.Valid, N.GoodRes, NetOf;
    NetShape(b);
    NodeNet(b, rule, body, node, sys);
    Vm.GrowValid(NetOf(b), b.sys, node, sys);
  }

  /** What a link leads to is there. */
  lemma LinkKey(b: Built, l: N.Link, sys: N.Sys)
    requires Sound(b) && Equipped(b) && l.node < |b.nodes| && b.sys.res.Keys <= sys.res.Keys
             && N.WireKey(l.wire) in sys.res
    ensures l.node < |NetOf(b)| && N.KeyOf(NetOf(b), l) in sys.res
  {
    hide Sound, NetOf;
    NetShape(b);
  }

  lemma JointStarted(b: Built, j: Wiring.Joint)
    requires Started(b) && Sound(WithJoint(b, j))
    ensures Started(WithJoint(b, j))
  {
    hide Sound, NetOf, N.KeyOf, N.Valid, Wiring.SetPort;
    var c, w := WithJoint(b, j), |b.joints|;
    JointNet(b, j, c.sys);
    var net, l1, l2 := NetOf(b), N.Link(j.node2, j.port2, w), N.Link(j.node1, j.port1, w);
    Vm.WireValid(net, b.sys, w);
    LinkKey(b, l1, c.sys);
    LinkKey(b, l2, c.sys);
    Vm.LinkValid(net, c.sys, j.node1, j.port1, l1);
    SetPortKeys(net, j.node1, j.port1, l1, j.node2, j.port2, l2);
    Vm.LinkValid(Wiring.SetPort(net, j.node1, j.port1, l1), c.sys, j.node2, j.port2, l2);
  }

  /** Linking a port changes no node's kind. */
  lemma SetPortKeys(net: N.Net, n: nat, p: nat, l: N.Link, m: nat, q: nat, k: N.Link)
    requires N.ValidNet(net) && n < |net| && (net[n].Proc? ==> p < 4) && m < |net| && (net[m].Proc? ==> q < 4) && k.node < |net|
    ensures var one := Wiring.SetPort(net, n, p, l);
            |one| == |net| && (one[m].Proc? <==> net[m].Proc?) && N.KeyOf(one, k) == N.KeyOf(net, k)
  {
  }

  lemma DeclStarted(b: Built, d: Decl)
    requires Started(b) && BuildDecl(b, d).Some?
    ensures Started(BuildDecl(b, d).value)
  {
    hide Sound, Started, Describes, Extended, Literal.Decode, Literal.Padded, Program, Compilable, EncodeAll,
         StmtNames, JointOf;
    assert Sound(b) by { StartedSound(b); }
    DeclSound(b, d);
    var c := BuildDecl(b, d).value;
    if d.WireOf? {
      JointStarted(b, JointOf(b, d.node1, d.port1, d.node2, d.port2).value);
    } else {
      var n := |b.nodes|;
      assert Sound(c);
      LastDescribed(b, d);
      NodeStarted(b, c.rules[n], c.bodies[n], c.nodes[n], c.sys);
    }
  }

  lemma StartedSound(b: Built)
    requires Started(b)
    ensures Sound(b)
  {
  }

  /** The node that a declaration adds. */
  lemma LastDescribed(b: Built, d: Decl)
    requires Sound(b) && BuildDecl(b, d).Some? && !d.WireOf? && Sound(BuildDecl(b, d).value)
    ensures var c, n := BuildDecl(b, d).value, |b.nodes|;
            && |b.rules| == |b.bodies| == n && |c.rules| == |c.bodies| == |c.nodes| == n + 1
            && c == WithNode(b, c.rules[n], c.bodies[n], c.nodes[n], c.sys)
            && Describes(c.rules[n], c.bodies[n], c.nodes[n]) && Extended(b, c.nodes[n], c.sys)
            && (c.nodes[n].Proc? ==> c.nodes[n].ports == NoPorts)
  {
    hide FreshState, Literal.Decode, Literal.Padded, Program, Compilable, EncodeAll, StmtNames, RuleNames, Lookup;
  }

  lemma {:induction false} AllStarted(b: Built, ds: seq<Decl>)
    requires Started(b) && BuildAll(b, ds).Some?
    ensures Started(BuildAll(b, ds).value)
    decreases |ds|
  {
    hide Started, BuildDecl;
    if ds != [] {
      DeclStarted(b, ds[0]);
      AllStarted(BuildDecl(b, ds[0]).value, ds[1..]);
    }
  }

  lemma BegunStarted(input: seq<byte>)
    ensures Started(Begun(input))
  {
    hide Sound, Started;
    NothingStarted(input);
    BegunSound(input);
    var c := Begun(input);
    assert Describes(c.rules[0], None, N.Io);
    NodeStarted(Nothing(input), c.rules[0], None, N.Io, c.sys);
  }

  /** Every program that can be built, on single one-way wires and with runnable bodies, starts in a
      state that meets the demands of the theorems about the VM, each processor with its body's code. */
  lemma ProgramInitial(toks: seq<Token>, input: seq<byte>)
    requires Loaded(toks, input).Some?
    ensures var b := Loaded(toks, input).value;
            && Sound(b) && N.Valid(NetOf(b), b.sys)
            && (WellFormed(b) ==> N.Initial(NetOf(b), b.sys) && CompiledNet(NetOf(b), BodiesOf(b)))
  {
    hide Started, BuildAll, ParseProgram, WellFormed, N.Initial, CompiledNet;
    var b := Loaded(toks, input).value;
    BegunStarted(input);
    AllStarted(Begun(input), ParseProgram(toks).value);
    StartedFacts(b);
    if WellFormed(b) {
      BuiltInitial(b);
    }
  }

  lemma StartedFacts(b: Built)
    requires Started(b)
    ensures Sound(b) && N.Valid(NetOf(b), b.sys)
  {
  }

  /** From program text to port actions: in every interleaving of a program that can be built, every
      processor whose body has no `for` and no `do` does what that body means on the bytes it received, and
      is at no time ahead of it. Copies mean the body they were copied from. */
  lemma ProgramMeansItsSources(toks: seq<Token>, input: seq<byte>, sched: seq<nat>, i: nat) returns (steps: nat)
    requires Loaded(toks, input).Some?
    requires var b := Loaded(toks, input).value;
             Sound(b) && WellFormed(b) && i < |b.bodies| && b.bodies[i].Some? && StmtMeaning.Structured(b.bodies[i].value)
    ensures var b := Loaded(toks, input).value;
            && N.Valid(NetOf(b), b.sys)
            && var body := b.bodies[i].value;
               var acts := Processors.ActsOf(NetOf(b), b.sys, sched, i);
               Behaviour.Explains(body, Behaviour.ImageOf(body), Behaviour.Begin(body, Processors.Inputs(acts)), steps, acts)
  {
    hide Loaded, Sound, N.WellWired, N.Valid, NetOf, Behaviour.Explains, Processors.ActsOf, Processors.Inputs,
         StmtMeaning.Structured, Compilable, Program, EncodeAll;
    ProgramInitial(toks, input);
    var b := Loaded(toks, input).value;
    ProcessorNode(b, i);
    steps := Processors.ProcessorsMeanTheirSource(NetOf(b), b.sys, sched, i, b.bodies[i].value);
  }

  lemma ProcessorNode(b: Built, i: nat)
    requires Sound(b) && N.Valid(NetOf(b), b.sys) && i < |b.bodies| && b.bodies[i].Some?
    ensures i in b.sys.cores && i < |NetOf(b)| && NetOf(b)[i].Proc?
    ensures NetOf(b)[i].code == EncodeAll(Program(b.bodies[i].value))
  {
    hide Program, EncodeAll, Compilable, StmtNames, NetOf, FreshState;
    NetShape(b);
    assert Describes(b.rules[i], b.bodies[i], b.nodes[i]);
  }
}
