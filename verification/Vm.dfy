/** vm.c as it is: processors, wires, buffers and stacks are objects updated in place, and every
    operation is tied to the step functions of Network and Scheduler. */
module Vm {
  import opened Wrappers
  import opened Bytes
  import opened Bytecode
  import opened Machine
  import opened Network
  import opened Scheduler
  import Wiring

  class WireCell {
    var status: Status
    var buf: byte

    constructor ()
      ensures status == EMPTY && buf == 0
    {
      status, buf := EMPTY, 0;
    }

    function View(): Res
      reads this
    {
      Wire(status, buf)
    }

    /** send_proc (vm.c:190-209) */
    method Send(dat: byte) returns (r: bool)
      modifies this
      ensures match SendTo(old(View()), 0, dat)
              case Taken(w) => r && View() == w
              case Offered(w) => !r && View() == w
              case Refused => !r && View() == old(View())
              case NoSuchPort => false
    {
      match status
      case EMPTY =>
        status := FULL;
        buf := dat;
        return false;
      case FULL =>
        return false;
      case CONSUMED =>
        status := EMPTY;
        return true;
    }

    /** recv_proc (vm.c:211-228) */
    method Recv() returns (r: Option<byte>)
      modifies this
      ensures match RecvFrom(old(View()), 0)
              case Got(b, w) => r == Some(b) && View() == w
              case Nothing => r == None && View() == old(View())
              case BadPort => false
    {
      if status == FULL {
        status := CONSUMED;
        return Some(buf);
      }
      return None;
    }
  }

  class BufNode {
    var idx: byte
    const data: array<byte>

    constructor (init: seq<byte>)
      requires |init| == 256
      ensures Valid() && fresh(data) && View() == Cells(0, init)
    {
      idx := 0;
      data := new byte[256](i requires 0 <= i < 256 => init[i]);
    }

    predicate Valid() {
      data.Length == 256
    }

    function View(): Res
      reads this, data
    {
      Cells(idx, data[..])
    }

    /** send_buf (vm.c:269-286) */
    method Send(port: nat, dat: byte) returns (ok: bool)
      requires Valid()
      modifies this, data
      ensures match SendTo(old(View()), port, dat)
              case Taken(r) => ok && View() == r
              case NoSuchPort => !ok
              case _ => false
    {
      ok := true;
      if port == BUFFER_IDX {
        idx := dat;
      } else if port == BUFFER_ELM {
        data[idx] := dat;
      } else {
        ok := false;
      }
    }

    /** recv_buf (vm.c:288-305) */
    method Recv(port: nat) returns (r: Option<byte>)
      requires Valid()
      ensures match RecvFrom(View(), port)
              case Got(b, w) => r == Some(b) && w == View()
              case BadPort => r == None
              case Nothing => false
    {
      if port == BUFFER_IDX {
        r := Some(idx);
      } else if port == BUFFER_ELM {
        r := Some(data[idx]);
      } else {
        r := None;
      }
    }
  }

  class StackNode {
    var items: seq<byte>

    constructor ()
      ensures items == []
    {
      items := [];
    }

    /** send_stack (vm.c:307-315) */
    method Send(dat: byte)
      modifies this
      ensures items == old(items) + [dat]
      ensures SendTo(Items(old(items)), 0, dat) == Taken(Items(items))
    {
      items := items + [dat];
    }

    /** recv_stack (vm.c:317-329) */
    method Recv() returns (r: Option<byte>)
      modifies this
      ensures if r.Some? then items + [r.value] == old(items) else items == old(items) == []
      ensures match RecvFrom(Items(old(items)), 0)
              case Got(b, w) => r == Some(b) && w == Items(items)
              case Nothing => r == None && items == old(items)
              case BadPort => false
    {
      if |items| > 0 {
        r := Some(items[|items| - 1]);
        items := items[..|items| - 1];
      } else {
        r := None;
      }
    }
  }

  class ProcNode {
    const code: seq<byte>
    var isp: nat
    var ports: seq<Option<Link>>
    const vars: array<byte>
    const stack: array<byte>
    var sp: nat

    ghost predicate Valid()
      reads this
    {
      vars.Length == 4 && stack.Length == STACK_SIZE && sp <= STACK_SIZE && |ports| == 4 && vars != stack
    }

    ghost function View(): (c: Core)
      requires Valid()
      reads this, vars, stack
      ensures Shaped(c)
    {
      Core(isp, stack[..sp], vars[..])
    }

    /** add_proc_node (vm.c:120-132) */
    constructor (code: seq<byte>)
      ensures Valid() && fresh(vars) && fresh(stack)
      ensures View() == Fresh && this.code == code && ports == [None, None, None, None]
    {
      this.code := code;
      isp := 0;
      ports := [None, None, None, None];
      vars := new byte[4](_ => 0);
      stack := new byte[STACK_SIZE](_ => 0);
      sp := 0;
    }

    /** push (vm.c:346-353); a full stack ends the program */
    method Push(dat: byte) returns (ok: bool)
      requires Valid()
      modifies this`sp, stack
      ensures Valid()
      ensures ok <==> |old(View().stack)| < 512
      ensures ok ==> View() == old(View()).(stack := old(View().stack) + [dat])
    {
      if sp == STACK_SIZE {
        return false;
      }
      stack[sp] := dat;
      sp := sp + 1;
      return true;
    }

    /** pop (vm.c:355-362); None is the underflow that ends the program */
    method Pop() returns (r: Option<byte>)
      requires Valid()
      modifies this`sp
      ensures Valid()
      ensures r.Some? <==> old(View().stack) != []
      ensures r.Some? ==> r.value == Top(old(View())) && View() == old(View()).(stack := Drop(old(View().stack), 1))
    {
      if sp == 0 {
        return None;
      }
      sp := sp - 1;
      return Some(stack[sp]);
    }

    /** peekproc (vm.c:364-371) */
    function PeekTop(): (r: Option<byte>)
      requires Valid()
      reads this, stack, vars
      ensures r.Some? <==> View().stack != []
      ensures r.Some? ==> r.value == Top(View())
    {
      if sp == 0 then None else Some(stack[sp - 1])
    }

    /** Pop two, apply, push (vm.c:403-465). */
    method Operate(op: BinOp) returns (ok: bool)
      requires Valid()
      modifies this`sp, stack
      ensures Valid()
      ensures ok <==> |old(View().stack)| >= 2
                      && Apply(op, old(View().stack)[|old(View().stack)| - 2], Top(old(View()))).Some?
      ensures ok ==> View() == old(View()).(stack := Drop(old(View().stack), 2)
                       + [Apply(op, old(View().stack)[|old(View().stack)| - 2], Top(old(View()))).value])
    {
      hide Apply;
      var arg2 := Pop();
      if arg2.None? { return false; }
      var arg1 := Pop();
      if arg1.None? { return false; }
      var b := Apply(op, arg1.value, arg2.value);
      if b.None? { return false; }
      ok := Push(b.value);
    }

    /** Pop one, apply a unary operator, push (vm.c:394-402). */
    method OperateUnary(i: Instr) returns (ok: bool)
      requires Valid() && (i.Neg? || i.LNot? || i.Not?)
      modifies this`sp, stack
      ensures Valid()
      ensures ok <==> old(View().stack) != []
      ensures ok ==> View() == old(View()).(stack := Drop(old(View().stack), 1)
                       + [var b := Top(old(View())); if i.Neg? then Negate(b) else if i.LNot? then LogicalNot(b) else Complement(b)])
    {
      var arg := Pop();
      if arg.None? { return false; }
      ok := Push(if i.Neg? then Negate(arg.value) else if i.LNot? then LogicalNot(arg.value) else Complement(arg.value));
    }

    /** Set isp, wrapping to the beginning at the end of the code (vm.c:518-522). */
    method Jump(a: nat)
      requires Valid()
      modifies this`isp
      ensures Valid() && View() == old(View()).(pc := Advance(code, a))
    {
      isp := if a == |code| then 0 else a;
    }

    /** Pop what was sent and go on (vm.c:497, vm.c:518-522). */
    method PopNext()
      requires Valid() && View().stack != []
      modifies this`isp, this`sp
      ensures Valid() && View() == AfterSend(code, old(View()))
    {
      var b := Pop();
      Jump(isp + 1);
    }

    /** Push what was received and go on; an overflow ends the program (vm.c:507, vm.c:518-522). */
    method PushNext(b: byte) returns (ok: bool)
      requires Valid()
      modifies this`isp, this`sp, stack
      ensures match AfterRecv(code, old(View()), b)
              case Some(c) => ok && Valid() && View() == c
              case None => !ok
    {
      ok := Push(b);
      if ok {
        Jump(isp + 1);
      }
    }

    /** The instructions that only rewrite the stack and the variables (vm.c:383-465, vm.c:480-491). */
    method Rewrite(i: Instr) returns (ok: bool)
      requires Valid() && Decode(code, isp) == Some(i)
      requires !i.Noop? && !i.Jmp? && !i.FJmp? && !i.Send? && !i.Recv? && !i.Halt?
      modifies this`sp, stack, vars
      ensures Valid()
      ensures Peek(code, old(View())) == if ok then Silent(View().(pc := Advance(code, isp + Len(i)))) else Crashed
    {
      hide Decode, Apply, Negate, LogicalNot, Complement, Advance;
      assert Drop(View().stack, 0) == View().stack;
      match i {
        case Push(b) => ok := Push(b);
        case Dup =>
          var b := PeekTop();
          if b.None? { return false; }
          ok := Push(b.value);
        case Pop =>
          var b := Pop();
          ok := b.Some?;
        case Neg => ok := OperateUnary(i);
        case LNot => ok := OperateUnary(i);
        case Not => ok := OperateUnary(i);
        case Bin(op) => ok := Operate(op);
        case Load(v) => ok := Push(vars[v]);
        case Save(v) =>
          var b := Pop();
          ok := b.Some?;
          if ok {
            vars[v] := b.value;
            assert vars[..] == old(vars[..])[v := b.value];
          }
      }
    }

    /** The instructions that need no port (vm.c:380-491). */
    method Execute(i: Instr) returns (ok: bool)
      requires Valid() && Decode(code, isp) == Some(i)
      requires !i.Send? && !i.Recv? && !i.Halt?
      modifies this`isp, this`sp, stack, vars
      ensures Valid()
      ensures Peek(code, old(View())) == if ok then Silent(View()) else Crashed
    {
      hide Decode, Advance;
      var next := isp + Len(i);
      ok := true;
      if i.Jmp? {
        next := i.addr;
      } else if i.FJmp? {
        var b := Pop();
        ok := b.Some?;
        if b == Some(0) { next := i.addr; }
      } else if !i.Noop? {
        hide Peek;
        ok := Rewrite(i);
      }
      Jump(next);
    }
  }

  datatype NodeRef = IoRef | ProcRef(proc: ProcNode) | BufRef(buf: BufNode) | StackRef(stk: StackNode)

  function Objects(n: NodeRef): set<object> {
    match n
    case ProcRef(p) => {p, p.vars, p.stack}
    case BufRef(b) => {b, b.data}
    case StackRef(s) => {s}
    case IoRef => {}
  }

  /** The objects of a node hold the state that `n` and `s` give to node `i`. */
  ghost predicate TiedAs(r: NodeRef, n: Node, s: Sys, i: nat)
    reads Objects(r)
  {
    match r
    case IoRef => n == Io
    case ProcRef(p) => p.Valid() && n == Proc(p.code, p.ports) && i in s.cores && s.cores[i] == p.View()
    case BufRef(b) => b.Valid() && n == Buffer && NodeKey(i) in s.res && s.res[NodeKey(i)] == b.View()
    case StackRef(k) => n == Stack && NodeKey(i) in s.res && s.res[NodeKey(i)] == Items(k.items)
  }

  lemma FootprintNode(nodes: seq<NodeRef>, wires: seq<WireCell>, r: NodeRef)
    ensures Footprint(nodes + [r], wires) == Footprint(nodes, wires) + Objects(r)
  {
    var all := nodes + [r];
    forall o: object | o in Footprint(nodes, wires) + Objects(r)
      ensures o in Footprint(all, wires)
    {
      if o in Objects(r) {
        assert all[|nodes|] == r;
      } else if i :| 0 <= i < |nodes| && o in Objects(nodes[i]) {
        assert all[i] == nodes[i];
      }
    }
  }

  /** No two nodes share an object, and no two wires are the same. */
  ghost predicate Apart(nodes: seq<NodeRef>, wires: seq<WireCell>) {
    && (forall i, j :: 0 <= i < j < |nodes| ==> Objects(nodes[i]) !! Objects(nodes[j]))
    && (forall i, j :: 0 <= i < j < |wires| ==> wires[i] != wires[j])
  }

  lemma ApartNode(nodes: seq<NodeRef>, wires: seq<WireCell>, r: NodeRef)
    requires Apart(nodes, wires) && Objects(r) !! Footprint(nodes, wires)
    ensures Apart(nodes + [r], wires)
  {
    forall i | 0 <= i < |nodes|
      ensures Objects(nodes[i]) !! Objects(r)
    {
      assert Objects(nodes[i]) <= Footprint(nodes, wires);
    }
  }

  ghost function Footprint(nodes: seq<NodeRef>, wires: seq<WireCell>): set<object> {
    (set i, o: object | 0 <= i < |nodes| && o in Objects(nodes[i]) :: o)
    + (set i | 0 <= i < |wires| :: wires[i] as object)
  }

  /** tick returned true, returned false, or ended the program. */
  datatype Answer = Yes | No | Died

  /** The tick of a processor that stands at a send. */
  lemma StepAtSend(net: Net, s: Sys, i: nat, q: slot)
    requires Network.Valid(net, s) && i in s.cores && Decode(net[i].code, s.cores[i].pc) == Some(Instr.Send(q))
    ensures if s.cores[i].stack == [] || net[i].ports[q].None? then Step(net, s, i) == Crash else
            var l := net[i].ports[q].value;
            var k := KeyOf(net, l);
            && k in s.res && GoodRes(k, s.res[k])
            && match SendTo(s.res[k], l.port, Top(s.cores[i]))
               case Taken(x) => Step(net, s, i) ==
                  Progress(WithCore(s.(res := s.res[k := x]), i, AfterSend(net[i].code, s.cores[i])),
                           Sent(k, Top(s.cores[i])))
               case Offered(x) => Step(net, s, i) == Offering(s.(res := s.res[k := x]))
               case Refused => Step(net, s, i) == Blocked
               case NoSuchPort => Step(net, s, i) == Crash
  {
    hide Decode, SendTo, GoodRes, AfterSend;
    if net[i].ports[q].Some? {
      assert Linked(net, i, q, KeyOf(net, net[i].ports[q].value));
    }
  }

  /** The tick of a processor that stands at a receive. */
  lemma StepAtRecv(net: Net, s: Sys, i: nat, q: slot)
    requires Network.Valid(net, s) && i in s.cores && Decode(net[i].code, s.cores[i].pc) == Some(Instr.Recv(q))
    ensures if net[i].ports[q].None? then Step(net, s, i) == Crash else
            var l := net[i].ports[q].value;
            var k := KeyOf(net, l);
            && k in s.res && GoodRes(k, s.res[k])
            && match RecvFrom(s.res[k], l.port)
               case Got(b, x) =>
                 (match AfterRecv(net[i].code, s.cores[i], b)
                  case Some(c) => Step(net, s, i) == Progress(WithCore(s.(res := s.res[k := x]), i, c), Received(k, b))
                  case None => Step(net, s, i) == Crash)
               case Nothing => Step(net, s, i) == Blocked
               case BadPort => Step(net, s, i) == Crash
  {
    hide Decode, RecvFrom, GoodRes, AfterRecv;
    if net[i].ports[q].Some? {
      assert Linked(net, i, q, KeyOf(net, net[i].ports[q].value));
    }
  }

  lemma StepAtRest(net: Net, s: Sys, i: nat)
    requires Network.Valid(net, s) && i in s.cores
    ensures Decode(net[i].code, s.cores[i].pc) == None ==> Step(net, s, i) == Crash
    ensures Decode(net[i].code, s.cores[i].pc) == Some(Halt) ==> Step(net, s, i) == Blocked
  {
    hide Decode;
  }

  /** Adding an unwired node keeps the VM well formed. */
  lemma GrowValid(net: Net, s: Sys, n: Node, t: Sys)
    requires Network.Valid(net, s) && (n.Proc? ==> n.ports == [None, None, None, None])
    requires t.cores == if n.Proc? then s.cores[|net| := Fresh] else s.cores
    requires s.res.Keys <= t.res.Keys
    requires forall k :: k in t.res ==> (k in s.res && s.res[k] == t.res[k]) || GoodRes(k, t.res[k])
    ensures Network.Valid(net + [n], t)
  {
    var m := net + [n];
    forall i, p, k | Linked(m, i, p, k)
      ensures k in t.res
    {
      assert Linked(net, i, p, k);
    }
  }

  lemma LinkValid(net: Net, s: Sys, n: nat, p: nat, l: Link)
    requires Network.Valid(net, s) && n < |net| && (net[n].Proc? ==> p < 4)
    requires l.node < |net| && KeyOf(net, l) in s.res
    ensures Network.Valid(Wiring.SetPort(net, n, p, l), s)
  {
    Wiring.SetPortValid(net, n, p, l);
    var m := Wiring.SetPort(net, n, p, l);
    forall i, q, k | Linked(m, i, q, k)
      ensures k in s.res
    {
      assert (i == n && q == p && net[n].Proc?) || Linked(net, i, q, k);
    }
  }

  lemma CoreValid(net: Net, s: Sys, i: nat, c: Core)
    requires Network.Valid(net, s) && i in s.cores && Shaped(c)
    ensures Network.Valid(net, WithCore(s, i, c))
  {
  }

  lemma WireValid(net: Net, s: Sys, w: nat)
    requires Network.Valid(net, s)
    ensures Network.Valid(net, s.(res := s.res[WireKey(w) := Wire(EMPTY, 0)]))
  {
  }

  /** A node stays tied when the state of another node changes. */
  lemma OtherTied(r: NodeRef, n: Node, s: Sys, t: Sys, i: nat, j: nat)
    requires TiedAs(r, n, s, i) && i != j
    requires i in s.cores ==> i in t.cores && t.cores[i] == s.cores[i]
    requires NodeKey(i) in s.res ==> NodeKey(i) in t.res && t.res[NodeKey(i)] == s.res[NodeKey(i)]
    ensures TiedAs(r, n, t, i)
  {
  }

  /** A loop of the scheduler returned, was cut off, or a tick ended the program. */
  datatype Ended = Returned(progressed: bool) | Running | Exited

  class Vm {
    var nodes: seq<NodeRef>
    var wires: seq<WireCell>
    /** The sizes of the arrays that vm_init allocates. */
    var nnodes: nat
    var nwires: nat
    var stdin: seq<byte>
    var stdout: seq<byte>
    var stderr: seq<byte>

    /** What the objects below stand for. */
    ghost var net: Net
    ghost var sys: Sys

    ghost function Repr(): set<object>
      reads this
    {
      {this} + Footprint(nodes, wires)
    }

    ghost predicate NodeTied(i: nat)
      requires i < |nodes| && |net| == |nodes|
      reads this, Objects(nodes[i])
    {
      TiedAs(nodes[i], net[i], sys, i)
    }

    ghost predicate StreamsTied()
      reads this
    {
      && InKey in sys.res && sys.res[InKey] == Input(stdin)
      && OutKey in sys.res && sys.res[OutKey] == Output(stdout)
      && ErrKey in sys.res && sys.res[ErrKey] == Output(stderr)
    }

    ghost predicate Tied()
      reads Repr()
    {
      && |net| == |nodes|
      && (forall i :: 0 <= i < |nodes| ==> NodeTied(i))
      && (forall w :: 0 <= w < |wires| ==> WireKey(w) in sys.res && sys.res[WireKey(w)] == wires[w].View())
      && (forall w: nat :: WireKey(w) in sys.res ==> w < |wires|)
      && StreamsTied()
    }

    ghost predicate Valid()
      reads Repr()
    {
      Apart(nodes, wires) && Tied() && Network.Valid(net, sys)
    }

    /** vm_init (vm.c:90-100), with the standard input still to be read */
    constructor (nnodes: nat, nwires: nat, input: seq<byte>)
      ensures Valid() && fresh(Repr())
      ensures this.nnodes == nnodes && this.nwires == nwires && nodes == [] && wires == [] && net == []
      ensures sys == Sys(map[], map[InKey := Input(input), OutKey := Output([]), ErrKey := Output([])])
    {
      this.nnodes, this.nwires := nnodes, nwires;
      nodes, wires := [], [];
      stdin, stdout, stderr := input, [], [];
      net := [];
      sys := Sys(map[], map[InKey := Input(input), OutKey := Output([]), ErrKey := Output([])]);
    }

    /** What holds once a node is added. */
    lemma Grown(r: NodeRef, n: Node, t: Sys)
      requires Valid() && Objects(r) !! Repr()
      requires TiedAs(r, n, t, |nodes|) && (n.Proc? ==> n.ports == [None, None, None, None])
      requires t.cores == if n.Proc? then sys.cores[|nodes| := Fresh] else sys.cores
      requires sys.res.Keys <= t.res.Keys <= sys.res.Keys + {NodeKey(|nodes|)}
      requires forall k :: k in t.res ==> (k in sys.res && t.res[k] == sys.res[k]) || (k == NodeKey(|nodes|) && GoodRes(k, t.res[k]))
      ensures Apart(nodes + [r], wires) && Network.Valid(net + [n], t)
      ensures Footprint(nodes + [r], wires) == Footprint(nodes, wires) + Objects(r)
      ensures forall i :: 0 <= i < |nodes| ==> TiedAs(nodes[i], net[i], t, i)
      ensures forall w :: 0 <= w < |wires| ==> WireKey(w) in t.res && t.res[WireKey(w)] == wires[w].View()
    {
      hide Network.Valid, Footprint, Apart, Objects, GoodRes;
      GrowValid(net, sys, n, t);
      FootprintNode(nodes, wires, r);
      ApartNode(nodes, wires, r);
      forall i | 0 <= i < |nodes|
        ensures TiedAs(nodes[i], net[i], t, i)
      {
        assert NodeTied(i);
        OtherTied(nodes[i], net[i], sys, t, i, |nodes|);
      }
    }

    /** add_node (vm.c:102-112), with the new node's objects at hand */
    method Attach(r: NodeRef, ghost n: Node, ghost t: Sys)
      requires Valid() && |nodes| < nnodes && Objects(r) !! Repr()
      requires TiedAs(r, n, t, |nodes|) && (n.Proc? ==> n.ports == [None, None, None, None])
      requires t.cores == if n.Proc? then sys.cores[|nodes| := Fresh] else sys.cores
      requires sys.res.Keys <= t.res.Keys <= sys.res.Keys + {NodeKey(|nodes|)}
      requires forall k :: k in t.res ==> (k in sys.res && t.res[k] == sys.res[k]) || (k == NodeKey(|nodes|) && GoodRes(k, t.res[k]))
      modifies this
      ensures Valid() && wires == old(wires) && Repr() == old(Repr()) + Objects(r)
      ensures nnodes == old(nnodes) && nwires == old(nwires)
      ensures nodes == old(nodes) + [r] && net == old(net) + [n] && sys == t
    {
      hide Network.Valid, Footprint, Apart, Objects, GoodRes;
      Grown(r, n, t);
      nodes := nodes + [r];
      net := net + [n];
      sys := t;
      assert forall i :: 0 <= i < |nodes| ==> NodeTied(i);
    }

    /** add_io_node (vm.c:114-118); add_node ends the program when the counted capacity is exceeded */
    method AddIoNode() returns (ok: bool)
      requires Valid()
      modifies this
      ensures Valid() && wires == old(wires) && fresh(Repr() - old(Repr()))
      ensures nnodes == old(nnodes) && nwires == old(nwires)
      ensures ok <==> old(|nodes|) < nnodes
      ensures ok ==> |nodes| == old(|nodes|) + 1 && net == old(net) + [Io]
      ensures ok ==> sys == old(sys)
      ensures !ok ==> nodes == old(nodes) && net == old(net) && sys == old(sys)
    {
      hide Network.Valid, Footprint, Apart;
      if |nodes| >= nnodes { return false; }
      Attach(IoRef, Io, sys);
      ok := true;
    }

    /** add_proc_node (vm.c:120-132) */
    method AddProcNode(code: seq<byte>) returns (ok: bool)
      requires Valid()
      modifies this
      ensures Valid() && wires == old(wires) && fresh(Repr() - old(Repr()))
      ensures nnodes == old(nnodes) && nwires == old(nwires)
      ensures ok <==> old(|nodes|) < nnodes
      ensures ok ==> |nodes| == old(|nodes|) + 1 && net == old(net) + [Proc(code, [None, None, None, None])]
      ensures ok ==> sys == WithCore(old(sys), old(|net|), Fresh)
      ensures !ok ==> nodes == old(nodes) && net == old(net) && sys == old(sys)
    {
      hide Network.Valid;
      if |nodes| >= nnodes { return false; }
      ghost var before := Repr();
      var proc := new ProcNode(code);
      forall i | 0 <= i < |nodes|
        ensures NodeTied(i)
      {
        assert old(NodeTied(i));
      }
      assert Objects(ProcRef(proc)) !! before;
      Attach(ProcRef(proc), Proc(code, [None, None, None, None]), WithCore(sys, |net|, Fresh));
      ok := true;
    }

    /** copy_proc_node (vm.c:134-140) */
    method CopyProcNode(source: nat) returns (ok: bool)
      requires Valid() && source < |nodes| && nodes[source].ProcRef? && net[source].Proc?
      modifies this
      ensures Valid() && wires == old(wires) && fresh(Repr() - old(Repr()))
      ensures nnodes == old(nnodes) && nwires == old(nwires)
      ensures ok <==> old(|nodes|) < nnodes
      ensures ok ==> |nodes| == old(|nodes|) + 1 && net == old(net) + [Proc(old(net)[source].code, [None, None, None, None])]
      ensures ok ==> sys == WithCore(old(sys), old(|net|), Fresh)
      ensures !ok ==> nodes == old(nodes) && net == old(net) && sys == old(sys)
    {
      hide Network.Valid, Footprint, Apart;
      assert NodeTied(source);
      ok := AddProcNode(nodes[source].proc.code);
    }

    /** add_buf_node (vm.c:142-150) */
    method AddBufNode(data: seq<byte>) returns (ok: bool)
      requires Valid() && |data| == 256
      modifies this
      ensures Valid() && wires == old(wires) && fresh(Repr() - old(Repr()))
      ensures nnodes == old(nnodes) && nwires == old(nwires)
      ensures ok <==> old(|nodes|) < nnodes
      ensures ok ==> |nodes| == old(|nodes|) + 1 && net == old(net) + [Buffer]
      ensures ok ==> sys == old(sys).(res := old(sys).res[NodeKey(old(|net|)) := Cells(0, data)])
      ensures !ok ==> nodes == old(nodes) && net == old(net) && sys == old(sys)
    {
      hide Network.Valid;
      if |nodes| >= nnodes { return false; }
      ghost var before := Repr();
      var buf := new BufNode(data);
      forall i | 0 <= i < |nodes|
        ensures NodeTied(i)
      {
        assert old(NodeTied(i));
      }
      assert Objects(BufRef(buf)) !! before;
      Attach(BufRef(buf), Buffer, sys.(res := sys.res[NodeKey(|net|) := Cells(0, data)]));
      ok := true;
    }

    /** add_stack_node (vm.c:152-158) */
    method AddStackNode() returns (ok: bool)
      requires Valid()
      modifies this
      ensures Valid() && wires == old(wires) && fresh(Repr() - old(Repr()))
      ensures nnodes == old(nnodes) && nwires == old(nwires)
      ensures ok <==> old(|nodes|) < nnodes
      ensures ok ==> |nodes| == old(|nodes|) + 1 && net == old(net) + [Stack]
      ensures ok ==> sys == old(sys).(res := old(sys).res[NodeKey(old(|net|)) := Items([])])
      ensures !ok ==> nodes == old(nodes) && net == old(net) && sys == old(sys)
    {
      hide Network.Valid;
      if |nodes| >= nnodes { return false; }
      ghost var before := Repr();
      var stk := new StackNode();
      forall i | 0 <= i < |nodes|
        ensures NodeTied(i)
      {
        assert old(NodeTied(i));
      }
      assert Objects(StackRef(stk)) !! before;
      Attach(StackRef(stk), Stack, sys.(res := sys.res[NodeKey(|net|) := Items([])]));
      ok := true;
    }

    /** add_wire_to_port (vm.c:160-166), for a processor's port */
    method LinkPort(n: nat, p: nat, l: Link)
      requires Valid() && n < |nodes| && (net[n].Proc? ==> p < 4)
      requires l.node < |net| && KeyOf(net, l) in sys.res
      modifies this`net, (if nodes[n].ProcRef? then {nodes[n].proc} else {})
      ensures Valid()
      ensures net == Wiring.SetPort(old(net), n, p, l)
    {
      assert NodeTied(n);
      LinkValid(net, sys, n, p, l);
      if nodes[n].ProcRef? {
        var proc := nodes[n].proc;
        proc.ports := proc.ports[p := Some(l)];
      }
      net := Wiring.SetPort(net, n, p, l);
      forall i | 0 <= i < |nodes|
        ensures NodeTied(i)
      {
        assert old(NodeTied(i));
      }
    }

    /** add_wire (vm.c:168-188); false when the counted capacity is exceeded */
    method AddWire(j: Wiring.Joint) returns (ok: bool)
      requires Valid() && Wiring.ValidJoint(net, j)
      modifies Repr()
      ensures Valid() && fresh(Repr() - old(Repr()))
      ensures nodes == old(nodes) && nnodes == old(nnodes) && nwires == old(nwires)
      ensures ok <==> old(|wires|) < nwires
      ensures ok ==> |wires| == old(|wires|) + 1 && net == Wiring.AddWire(old(net), old(|wires|), j)
      ensures ok ==> sys == old(sys).(res := old(sys).res[WireKey(old(|wires|)) := Wire(EMPTY, 0)])
      ensures !ok ==> wires == old(wires) && net == old(net) && sys == old(sys)
    {
      hide Network.Valid, Valid;
      if |wires| >= nwires { return false; }
      var w := |wires|;
      NewWire();
      ValidFacts();
      Wiring.AddWireValid(net, w, j);
      Reachable(Link(j.node2, j.port2, w));
      assert forall n :: 0 <= n < |nodes| ==> Objects(nodes[n]) <= Repr();
      LinkPort(j.node1, j.port1, Link(j.node2, j.port2, w));
      Reachable(Link(j.node1, j.port1, w));
      LinkPort(j.node2, j.port2, Link(j.node1, j.port1, w));
      ok := true;
    }

    /** Take the next wire off the array; it is empty. */
    method NewWire()
      requires Valid()
      modifies this`wires, this`sys
      ensures Valid() && fresh(Repr() - old(Repr())) && net == old(net)
      ensures |wires| == old(|wires|) + 1
      ensures sys == old(sys).(res := old(sys).res[WireKey(old(|wires|)) := Wire(EMPTY, 0)])
    {
      hide Network.Valid;
      var cell := new WireCell();
      WireValid(net, sys, |wires|);
      sys := sys.(res := sys.res[WireKey(|wires|) := Wire(EMPTY, 0)]);
      wires := wires + [cell];
      forall i | 0 <= i < |nodes|
        ensures NodeTied(i)
      {
        assert old(NodeTied(i));
      }
    }

    lemma Reachable(l: Link)
      requires Valid() && l.node < |nodes| && l.wire < |wires|
      ensures l.node < |net| && KeyOf(net, l) in sys.res
    {
      assert NodeTied(l.node);
    }

    /** send_proc on wire `w` */
    method SendProc(w: nat, dat: byte) returns (r: bool)
      requires Valid() && w < |wires|
      modifies this, wires[w]
      ensures Valid()
      ensures nodes == old(nodes) && wires == old(wires) && net == old(net)
      ensures match SendTo(old(wires[w].View()), 0, dat)
              case Taken(x) => r && sys == old(sys).(res := old(sys).res[WireKey(w) := x])
              case Offered(x) => !r && sys == old(sys).(res := old(sys).res[WireKey(w) := x])
              case Refused => !r && sys == old(sys)
              case NoSuchPort => false
    {
      r := wires[w].Send(dat);
      sys := sys.(res := sys.res[WireKey(w) := wires[w].View()]);
      forall i | 0 <= i < |nodes|
        ensures NodeTied(i)
      {
        assert old(NodeTied(i));
      }
    }

    /** recv_proc on wire `w` */
    method RecvProc(w: nat) returns (r: Option<byte>)
      requires Valid() && w < |wires|
      modifies this, wires[w]
      ensures Valid()
      ensures nodes == old(nodes) && wires == old(wires) && net == old(net)
      ensures match RecvFrom(old(wires[w].View()), 0)
              case Got(b, x) => r == Some(b) && sys == old(sys).(res := old(sys).res[WireKey(w) := x])
              case Nothing => r == None && sys == old(sys)
              case BadPort => false
    {
      r := wires[w].Recv();
      sys := sys.(res := sys.res[WireKey(w) := wires[w].View()]);
      forall i | 0 <= i < |nodes|
        ensures NodeTied(i)
      {
        assert old(NodeTied(i));
      }
    }

    /** send_io (vm.c:230-248); false is the invalid port that ends the program */
    method SendIo(port: nat, dat: byte) returns (ok: bool)
      requires Valid()
      modifies this
      ensures Valid()
      ensures nodes == old(nodes) && wires == old(wires) && net == old(net)
      ensures ok <==> port == IO_OUT || port == IO_ERR
      ensures port == IO_OUT ==> sys == old(sys).(res := old(sys).res[OutKey := Output(old(stdout) + [dat])])
      ensures port == IO_ERR ==> sys == old(sys).(res := old(sys).res[ErrKey := Output(old(stderr) + [dat])])
    {
      ok := true;
      if port == IO_OUT {
        stdout := stdout + [dat];
        sys := sys.(res := sys.res[OutKey := Output(stdout)]);
      } else if port == IO_ERR {
        stderr := stderr + [dat];
        sys := sys.(res := sys.res[ErrKey := Output(stderr)]);
      } else {
        ok := false;
      }
      forall i | 0 <= i < |nodes|
        ensures NodeTied(i)
      {
        assert old(NodeTied(i));
      }
    }

    /** recv_io from the input port (vm.c:250-267); None is the end of the input */
    method RecvIo() returns (r: Option<byte>)
      requires Valid()
      modifies this
      ensures Valid()
      ensures nodes == old(nodes) && wires == old(wires) && net == old(net)
      ensures match RecvFrom(Input(old(stdin)), IO_IN)
              case Got(b, x) => r == Some(b) && sys == old(sys).(res := old(sys).res[InKey := x])
              case Nothing => r == None && sys == old(sys)
              case BadPort => false
    {
      if stdin == [] {
        return None;
      }
      r := Some(stdin[0]);
      stdin := stdin[1..];
      sys := sys.(res := sys.res[InKey := Input(stdin)]);
      forall i | 0 <= i < |nodes|
        ensures NodeTied(i)
      {
        assert old(NodeTied(i));
      }
    }

    method SendBuf(n: nat, port: nat, dat: byte) returns (ok: bool)
      requires Valid() && n < |nodes| && nodes[n].BufRef? && nodes[n].buf.Valid()
      modifies this, nodes[n].buf, nodes[n].buf.data
      ensures Valid()
      ensures nodes == old(nodes) && wires == old(wires) && net == old(net)
      ensures match SendTo(old(nodes[n].buf.View()), port, dat)
              case Taken(x) => ok && sys == old(sys).(res := old(sys).res[NodeKey(n) := x])
              case NoSuchPort => !ok
              case _ => false
    {
      assert NodeTied(n);
      var b := nodes[n].buf;
      ok := b.Send(port, dat);
      sys := sys.(res := sys.res[NodeKey(n) := b.View()]);
      forall i | 0 <= i < |nodes|
        ensures NodeTied(i)
      {
        assert old(NodeTied(i));
      }
    }

    method SendStack(n: nat, dat: byte)
      requires Valid() && n < |nodes| && nodes[n].StackRef?
      modifies this, nodes[n].stk
      ensures Valid()
      ensures nodes == old(nodes) && wires == old(wires) && net == old(net)
      ensures sys == old(sys).(res := old(sys).res[NodeKey(n) := Items(old(nodes[n].stk.items) + [dat])])
    {
      assert NodeTied(n);
      var k := nodes[n].stk;
      k.Send(dat);
      sys := sys.(res := sys.res[NodeKey(n) := Items(k.items)]);
      forall i | 0 <= i < |nodes|
        ensures NodeTied(i)
      {
        assert old(NodeTied(i));
      }
    }

    method RecvStack(n: nat) returns (r: Option<byte>)
      requires Valid() && n < |nodes| && nodes[n].StackRef?
      modifies this, nodes[n].stk
      ensures Valid()
      ensures nodes == old(nodes) && wires == old(wires) && net == old(net)
      ensures match RecvFrom(Items(old(nodes[n].stk.items)), 0)
              case Got(b, x) => r == Some(b) && sys == old(sys).(res := old(sys).res[NodeKey(n) := x])
              case Nothing => r == None && sys == old(sys)
              case BadPort => false
    {
      assert NodeTied(n);
      var k := nodes[n].stk;
      r := k.Recv();
      sys := sys.(res := sys.res[NodeKey(n) := Items(k.items)]);
      forall i | 0 <= i < |nodes|
        ensures NodeTied(i)
      {
        assert old(NodeTied(i));
      }
    }

    /** The objects a link reaches. */
    ghost function Reach(l: Link): set<object>
      requires l.node < |nodes|
      reads this
    {
      match nodes[l.node]
      case ProcRef(_) => if l.wire < |wires| then {wires[l.wire]} else {}
      case IoRef => {}
      case BufRef(b) => {b, b.data}
      case StackRef(s) => {s}
    }

    /** The dispatch of `send` through the port table (vm.c:332-337). */
    method SendPort(l: Link, dat: byte) returns (r: Answer)
      requires Valid() && l.node < |nodes| && KeyOf(net, l) in sys.res
      modifies this, Reach(l)
      ensures Valid()
      ensures nodes == old(nodes) && wires == old(wires) && net == old(net)
      ensures match SendTo(old(sys.res[KeyOf(net, l)]), l.port, dat)
              case Taken(x) => r == Yes && sys == old(sys).(res := old(sys).res[KeyOf(net, l) := x])
              case Offered(x) => r == No && sys == old(sys).(res := old(sys).res[KeyOf(net, l) := x])
              case Refused => r == No && sys == old(sys)
              case NoSuchPort => r == Died
    {
      assert NodeTied(l.node);
      match nodes[l.node] {
        case ProcRef(_) =>
          var taken := SendProc(l.wire, dat);
          r := if taken then Yes else No;
        case IoRef =>
          var ok := SendIo(l.port, dat);
          r := if ok then Yes else Died;
        case BufRef(_) =>
          var ok := SendBuf(l.node, l.port, dat);
          r := if ok then Yes else Died;
        case StackRef(_) =>
          SendStack(l.node, dat);
          r := Yes;
      }
    }

    /** The dispatch of `recv` through the port table (vm.c:339-344). */
    method RecvPort(l: Link) returns (r: Answer, b: byte)
      requires Valid() && l.node < |nodes| && KeyOf(net, l) in sys.res
      modifies this, Reach(l)
      ensures Valid()
      ensures nodes == old(nodes) && wires == old(wires) && net == old(net)
      ensures match RecvFrom(old(sys.res[KeyOf(net, l)]), l.port)
              case Got(c, x) => r == Yes && b == c && sys == old(sys).(res := old(sys).res[KeyOf(net, l) := x])
              case Nothing => r == No && sys == old(sys)
              case BadPort => r == Died
    {
      assert NodeTied(l.node);
      var got := None;
      b := 0;
      match nodes[l.node] {
        case ProcRef(_) => got := RecvProc(l.wire);
        case IoRef =>
          if l.port != IO_IN {
            return Died, 0;
          }
          got := RecvIo();
        case BufRef(buf) =>
          got := buf.Recv(l.port);
          assert sys.res[NodeKey(l.node) := buf.View()] == sys.res;
          forall i | 0 <= i < |nodes|
            ensures NodeTied(i)
          {
            assert old(NodeTied(i));
          }
          if got.None? {
            return Died, 0;
          }
        case StackRef(_) => got := RecvStack(l.node);
      }
      r := No;
      if got.Some? {
        r, b := Yes, got.value;
      }
    }

    /** A tick at an instruction without a port. */
    method TickSilent(i: nat, op: Instr) returns (r: Answer)
      requires Valid() && i in sys.cores && nodes[i].ProcRef? && nodes[i].proc.Valid()
      requires Decode(nodes[i].proc.code, nodes[i].proc.isp) == Some(op)
      requires !op.Send? && !op.Recv? && !op.Halt?
      modifies this, nodes[i].proc, nodes[i].proc.stack, nodes[i].proc.vars
      ensures nodes == old(nodes) && wires == old(wires) && net == old(net)
      ensures r != Died ==> Valid() && sys.cores.Keys == old(sys.cores.Keys)
      ensures match Step(old(net), old(sys), i)
              case Progress(s, _) => r == Yes && sys == s
              case Offering(s) => r == No && sys == s
              case Blocked => r == No && sys == old(sys)
              case Crash => r == Died
    {
      hide Decode, Peek;
      assert NodeTied(i);
      var p := nodes[i].proc;
      var ok := p.Execute(op);
      if !ok {
        return Died;
      }
      r := Yes;
      sys := sys.(cores := sys.cores[i := p.View()]);
      forall j | 0 <= j < |nodes|
        ensures NodeTied(j)
      {
        assert old(NodeTied(j));
      }
    }

    /** The value is taken: pop it and move on. */
    method FinishSend(i: nat)
      requires Valid() && i in sys.cores && nodes[i].ProcRef? && nodes[i].proc.Valid() && sys.cores[i].stack != []
      modifies this`sys, nodes[i].proc
      ensures Valid()
      ensures nodes == old(nodes) && wires == old(wires) && net == old(net)
      ensures sys == WithCore(old(sys), i, AfterSend(net[i].code, old(sys).cores[i]))
    {
      assert i < |nodes|;
      hide Network.Valid, AfterSend;
      assert NodeTied(i);
      var p := nodes[i].proc;
      p.PopNext();
      CoreValid(net, sys, i, p.View());
      sys := sys.(cores := sys.cores[i := p.View()]);
      forall j | 0 <= j < |nodes|
        ensures NodeTied(j)
      {
        assert old(NodeTied(j));
      }
    }

    /** A value arrived: push it and move on; an overflow ends the program. */
    method FinishRecv(i: nat, b: byte) returns (ok: bool)
      requires Valid() && i in sys.cores && nodes[i].ProcRef? && nodes[i].proc.Valid()
      modifies this`sys, nodes[i].proc, nodes[i].proc.stack
      ensures nodes == old(nodes) && wires == old(wires) && net == old(net)
      ensures match AfterRecv(net[i].code, old(sys).cores[i], b)
              case Some(c) => ok && Valid() && sys == WithCore(old(sys), i, c)
              case None => !ok
    {
      assert NodeTied(i);
      var p := nodes[i].proc;
      ok := p.PushNext(b);
      if !ok {
        return;
      }
      CoreValid(net, sys, i, p.View());
      sys := sys.(cores := sys.cores[i := p.View()]);
      forall j | 0 <= j < |nodes|
        ensures NodeTied(j)
      {
        assert old(NodeTied(j));
      }
    }

    /** A tick at a send (vm.c:492-501). */
    method TickSend(i: nat, q: slot) returns (r: Answer)
      requires Valid() && i in sys.cores && nodes[i].ProcRef? && nodes[i].proc.Valid()
      requires Decode(nodes[i].proc.code, nodes[i].proc.isp) == Some(Instr.Send(q))
      modifies this, nodes[i].proc
      modifies if nodes[i].proc.ports[q].Some? && nodes[i].proc.ports[q].value.node < |nodes|
               then Reach(nodes[i].proc.ports[q].value) else {}
      ensures nodes == old(nodes) && wires == old(wires) && net == old(net)
      ensures r != Died ==> Valid() && sys.cores.Keys == old(sys.cores.Keys)
      ensures match Step(old(net), old(sys), i)
              case Progress(s, _) => r == Yes && sys == s
              case Offering(s) => r == No && sys == s
              case Blocked => r == No && sys == old(sys)
              case Crash => r == Died
    {
      hide Decode, SendTo, GoodRes, Step, Peek, NodeTied;
      TiedProc(i);
      StepAtSend(net, sys, i, q);
      var p := nodes[i].proc;
      var dat := p.PeekTop();
      if dat.None? || p.ports[q].None? {
        return Died;
      }
      r := SendPort(p.ports[q].value, dat.value);
      if r == Yes {
        FinishSend(i);
      }
    }

    /** A tick at a receive (vm.c:502-511). */
    method TickRecv(i: nat, q: slot) returns (r: Answer)
      requires Valid() && i in sys.cores && nodes[i].ProcRef? && nodes[i].proc.Valid()
      requires Decode(nodes[i].proc.code, nodes[i].proc.isp) == Some(Instr.Recv(q))
      modifies this, nodes[i].proc, nodes[i].proc.stack
      modifies if nodes[i].proc.ports[q].Some? && nodes[i].proc.ports[q].value.node < |nodes|
               then Reach(nodes[i].proc.ports[q].value) else {}
      ensures nodes == old(nodes) && wires == old(wires) && net == old(net)
      ensures r != Died ==> Valid() && sys.cores.Keys == old(sys.cores.Keys)
      ensures match Step(old(net), old(sys), i)
              case Progress(s, _) => r == Yes && sys == s
              case Offering(s) => r == No && sys == s
              case Blocked => r == No && sys == old(sys)
              case Crash => r == Died
    {
      hide Decode, RecvFrom, GoodRes, Step, Peek, NodeTied;
      TiedProc(i);
      StepAtRecv(net, sys, i, q);
      if nodes[i].proc.ports[q].None? {
        return Died;
      }
      var b;
      r, b := RecvPort(nodes[i].proc.ports[q].value);
      if r == Yes {
        var ok := FinishRecv(i, b);
        if !ok {
          return Died;
        }
      }
    }

    lemma ValidFacts()
      requires Valid()
      ensures Network.Valid(net, sys) && ValidNet(net) && |net| == |nodes|
      ensures forall i: nat :: i < |nodes| ==> (net[i].Proc? <==> nodes[i].ProcRef?)
      ensures forall i: nat :: i in sys.cores <==> i < |nodes| && nodes[i].ProcRef?
    {
      forall i: nat | i < |nodes|
        ensures net[i].Proc? <==> nodes[i].ProcRef?
      {
        assert NodeTied(i);
      }
    }

    lemma TiedProc(i: nat)
      requires Valid() && i in sys.cores
      ensures Network.Valid(net, sys)
      ensures i < |nodes| && nodes[i].ProcRef? && NodeTied(i) && nodes[i].proc.Valid()
      ensures net[i] == Proc(nodes[i].proc.code, nodes[i].proc.ports) && i in sys.cores
              && sys.cores[i] == nodes[i].proc.View()
    {
      assert NodeTied(i);
    }

    lemma ReachInRepr(i: nat)
      requires Valid() && i < |nodes|
      ensures Objects(nodes[i]) <= Repr()
      ensures nodes[i].ProcRef? ==> nodes[i].proc.Valid() && forall q :: 0 <= q < 4 && nodes[i].proc.ports[q].Some? ==>
                nodes[i].proc.ports[q].value.node < |nodes| && Reach(nodes[i].proc.ports[q].value) <= Repr()
    {
      assert NodeTied(i);
      if nodes[i].ProcRef? {
        forall q | 0 <= q < 4 && nodes[i].proc.ports[q].Some?
          ensures nodes[i].proc.ports[q].value.node < |nodes| && Reach(nodes[i].proc.ports[q].value) <= Repr()
        {
          assert net[i].ports[q].value.node < |net|;
          var l := nodes[i].proc.ports[q].value;
          assert Reach(l) <= Objects(nodes[l.node]) + (set i | 0 <= i < |wires| :: wires[i] as object);
        }
      }
    }

    /** `tick` (vm.c:373-523) on processor `i`. */
    method Tick(i: nat) returns (r: Answer)
      requires Valid() && i in sys.cores
      modifies Repr()
      ensures Repr() == old(Repr())
      ensures nodes == old(nodes) && wires == old(wires) && net == old(net)
      ensures r != Died ==> Valid() && sys.cores.Keys == old(sys.cores.Keys)
      ensures match Step(old(net), old(sys), i)
              case Progress(s, _) => r == Yes && sys == s
              case Offering(s) => r == No && sys == s
              case Blocked => r == No && sys == old(sys)
              case Crash => r == Died
    {
      hide Step, Peek, NodeTied, Decode, Valid, Apart, Tied, Network.Valid, Footprint;
      TiedProc(i);
      ReachInRepr(i);
      StepAtRest(net, sys, i);
      var p := nodes[i].proc;
      var op := Decode(p.code, p.isp);
      if op.None? {
        return Died;
      }
      match op.value {
        case Halt => r := No;
        case Send(q) => r := TickSend(i, q);
        case Recv(q) => r := TickRecv(i, q);
        case _ => r := TickSilent(i, op.value);
      }
    }

    /** `run_proc` (vm.c:525-530), its loop cut off after `fuel` further ticks; None when cut off. */
    method RunProc(i: nat, fuel: nat) returns (r: Ended)
      requires Valid() && i in sys.cores
      modifies Repr()
      ensures Repr() == old(Repr()) && nodes == old(nodes) && net == old(net)
      ensures r.Returned? ==> Valid()
      ensures match Scheduler.RunProc(old(net), old(sys), i, fuel)
              case Ran(s, p) => r == Returned(p) && sys == s
              case CutOff => r == Running
              case Failed => r == Exited
    {
      hide Step, Valid, Footprint, Network.Valid;
      ValidFacts();
      var a := Tick(i);
      if a == Died { return Exited; }
      if a == No { return Returned(false); }
      ValidFacts();
      var n := fuel;
      while true
        invariant Repr() == old(Repr()) && nodes == old(nodes) && net == old(net)
        invariant Valid() && Network.Valid(net, sys) && i in sys.cores
        invariant Drain(net, sys, i, n) == Scheduler.RunProc(old(net), old(sys), i, fuel)
        decreases n
      {
        a := Tick(i);
        if a == Died { return Exited; }
        if a == No { return Returned(true); }
        if n == 0 { return Running; }
        n := n - 1;
        ValidFacts();
      }
    }

    /** `run` (vm.c:532-542), cut off after `sweeps` sweeps that made progress. */
    method Run(sweeps: nat, fuel: nat) returns (r: Ended)
      requires Valid()
      modifies Repr()
      ensures match Scheduler.Run(old(net), old(sys), sweeps, fuel)
              case Ran(s, _) => r == Returned(false) && sys == s && Valid()
              case CutOff => r == Running
              case Failed => r == Exited
    {
      hide Step, Valid, Footprint, Network.Valid, Scheduler.RunProc;
      ValidFacts();
      var n := sweeps;
      while true
        invariant Repr() == old(Repr()) && nodes == old(nodes) && net == old(net)
        invariant Valid() && Network.Valid(net, sys) && |net| == |nodes|
        invariant Scheduler.Run(net, sys, n, fuel) == Scheduler.Run(old(net), old(sys), sweeps, fuel)
        decreases n
      {
        ghost var start := sys;
        var progressed := false;
        var i := 0;
        while i < |nodes|
          invariant 0 <= i <= |nodes|
          invariant Repr() == old(Repr()) && nodes == old(nodes) && net == old(net)
          invariant Valid() && Network.Valid(net, sys) && |net| == |nodes|
          invariant Sweep(net, sys, i, progressed, fuel) == Sweep(net, start, 0, false, fuel)
        {
          ValidFacts();
          if nodes[i].ProcRef? {
            var e := RunProc(i, fuel);
            if !e.Returned? { return e; }
            progressed := progressed || e.progressed;
            ValidFacts();
          }
          i := i + 1;
        }
        if !progressed { return Returned(false); }
        if n == 0 { return Running; }
        n := n - 1;
      }
    }
  }
}
