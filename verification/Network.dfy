/** All processors together: wires, devices, and the tick of one processor within the whole VM
    (vm.c:160-371, vm.c:492-511). */
module Network {
  import opened Wrappers
  import opened Bytes
  import opened Bytecode
  import opened Machine

  // ----- What is fixed once the VM is built -----

  /** A `Port`: the node and port at the other end, and the wire. */
  datatype Link = Link(node: nat, port: nat, wire: nat)

  datatype Node =
    | Io
    | Proc(code: seq<byte>, ports: seq<Option<Link>>)
    | Buffer
    | Stack

  type Net = seq<Node>

  const IO_IN := 0
  const IO_OUT := 1
  const IO_ERR := 2
  const BUFFER_ELM := 0
  const BUFFER_IDX := 1

  /** The names of these ports, in the order of their numbers (noded.c:185-188, noded.c:360-364). */
  const IO_PORTS: seq<string> := ["in", "out", "err"]
  const BUFFER_PORTS: seq<string> := ["elm", "idx"]
  const STACK_PORTS: seq<string> := ["elm"]

  // ----- What runs -----

  datatype Status = EMPTY | FULL | CONSUMED

  /** A thing a port can talk to: the wire to another processor, a buffer or stack node, or one of
      the three streams of the IO node. Standard input is the finite sequence still to come. */
  datatype Res =
    | Wire(status: Status, buf: byte)
    | Cells(idx: byte, data: seq<byte>)
    | Items(items: seq<byte>)
    | Input(pending: seq<byte>)
    | Output(written: seq<byte>)

  datatype Key = WireKey(w: nat) | NodeKey(n: nat) | InKey | OutKey | ErrKey

  datatype Sys = Sys(cores: map<nat, Core>, res: map<Key, Res>)

  /** The port table (vm.c:83-88): what a link reaches is decided by the type of its node. */
  function KeyOf(net: Net, l: Link): Key
    requires l.node < |net|
  {
    match net[l.node]
    case Io => if l.port == IO_IN then InKey else if l.port == IO_OUT then OutKey else ErrKey
    case Proc(_, _) => WireKey(l.wire)
    case Buffer => NodeKey(l.node)
    case Stack => NodeKey(l.node)
  }

  predicate GoodRes(k: Key, r: Res) {
    match k
    case WireKey(_) => r.Wire?
    case NodeKey(_) => (r.Cells? && |r.data| == 256) || r.Items?
    case InKey => r.Input?
    case OutKey => r.Output?
    case ErrKey => r.Output?
  }

  /** Port `p` of processor `i` is wired, to the resource `k`. */
  predicate Linked(net: Net, i: nat, p: nat, k: Key) {
    && i < |net| && net[i].Proc?
    && p < |net[i].ports| && net[i].ports[p].Some?
    && net[i].ports[p].value.node < |net|
    && KeyOf(net, net[i].ports[p].value) == k
  }

  predicate ValidNet(net: Net) {
    forall i :: 0 <= i < |net| && net[i].Proc? ==>
      && |net[i].ports| == 4
      && forall p :: 0 <= p < 4 && net[i].ports[p].Some? ==> net[i].ports[p].value.node < |net|
  }

  ghost predicate Valid(net: Net, s: Sys) {
    && ValidNet(net)
    && (forall i: nat :: i in s.cores <==> i < |net| && net[i].Proc?)
    && (forall i :: i in s.cores ==> Shaped(s.cores[i]))
    && (forall k :: k in s.res ==> GoodRes(k, s.res[k]))
    && (forall i, p, k :: Linked(net, i, p, k) ==> k in s.res)
  }

  // ----- Sending to and receiving from a resource -----

  datatype SendOutcome = Taken(r: Res) | Offered(r: Res) | Refused | NoSuchPort

  /** send_proc, send_io, send_buf and send_stack (vm.c:190-315); `port` is the number of the port
      at the other end. */
  function SendTo(r: Res, port: nat, b: byte): SendOutcome
    requires r.Cells? ==> |r.data| == 256
  {
    match r
    case Wire(EMPTY, _) => Offered(Wire(FULL, b))
    case Wire(FULL, _) => Refused
    case Wire(CONSUMED, buf) => Taken(Wire(EMPTY, buf))
    case Cells(idx, data) =>
      if port == BUFFER_IDX then Taken(Cells(b, data))
      else if port == BUFFER_ELM then Taken(Cells(idx, data[idx := b]))
      else NoSuchPort
    case Items(items) => Taken(Items(items + [b]))
    case Output(written) =>
      if port == IO_OUT || port == IO_ERR then Taken(Output(written + [b])) else NoSuchPort
    case Input(_) => NoSuchPort
  }

  datatype RecvOutcome = Got(b: byte, r: Res) | Nothing | BadPort

  /** recv_proc, recv_io, recv_buf and recv_stack (vm.c:211-329). */
  function RecvFrom(r: Res, port: nat): RecvOutcome
    requires r.Cells? ==> |r.data| == 256
  {
    match r
    case Wire(FULL, buf) => Got(buf, Wire(CONSUMED, buf))
    case Wire(_, _) => Nothing
    case Cells(idx, data) =>
      if port == BUFFER_IDX then Got(idx, r)
      else if port == BUFFER_ELM then Got(data[idx], r)
      else BadPort
    case Items(items) =>
      if items == [] then Nothing else Got(items[|items| - 1], Items(items[..|items| - 1]))
    case Input(pending) =>
      if port != IO_IN then BadPort
      else if pending == [] then Nothing
      else Got(pending[0], Input(pending[1..]))
    case Output(_) => BadPort
  }

  // ----- One tick -----

  datatype Event = Quiet | Sent(k: Key, b: byte) | Received(k: Key, b: byte)

  /** The resource the next tick of processor `i` is about, if it is about a wired port. */
  function Wants(net: Net, i: nat, c: Core): Option<Key>
    requires ValidNet(net) && i < |net| && net[i].Proc? && Shaped(c)
  {
    match Peek(net[i].code, c)
    case Sending(p, _) => if net[i].ports[p].None? then None else Some(KeyOf(net, net[i].ports[p].value))
    case Receiving(p) => if net[i].ports[p].None? then None else Some(KeyOf(net, net[i].ports[p].value))
    case _ => None
  }

  /** What a tick does to its processor and to the resource it wants. `Proceed` is a tick that
      returns true; `Offer` and `Wait` are ticks that return false, the former after filling an
      empty wire; `Fault` is the end of the whole VM. */
  datatype Effect =
    | Proceed(core: Core, res: Option<Res>, ev: Event)
    | Offer(full: Res)
    | Wait
    | Fault

  function TickEffect(net: Net, i: nat, c: Core, r: Option<Res>): (e: Effect)
    requires ValidNet(net) && i < |net| && net[i].Proc? && Shaped(c)
    requires r.Some? && r.value.Cells? ==> |r.value.data| == 256
    ensures e.Proceed? ==> Shaped(e.core)
    ensures r.None? ==> !e.Offer? && (e.Proceed? ==> e.res.None?)
  {
    match Peek(net[i].code, c)
    case Silent(next) => Proceed(next, None, Quiet)
    case Stopped => Wait
    case Crashed => Fault
    case Sending(p, b) =>
      (match net[i].ports[p]
       case None => Fault
       case Some(l) =>
         if r.None? then Fault else
         match SendTo(r.value, l.port, b)
         case Taken(r') => Proceed(AfterSend(net[i].code, c), Some(r'), Sent(KeyOf(net, l), b))
         case Offered(r') => Offer(r')
         case Refused => Wait
         case NoSuchPort => Fault)
    case Receiving(p) =>
      (match net[i].ports[p]
       case None => Fault
       case Some(l) =>
         if r.None? then Fault else
         match RecvFrom(r.value, l.port)
         case Nothing => Wait
         case BadPort => Fault
         case Got(b, r') =>
           match AfterRecv(net[i].code, c, b)
           case None => Fault
           case Some(c') => Proceed(c', Some(r'), Received(KeyOf(net, l), b)))
  }

  /** The wanted resource as it stands. */
  function Wanted(net: Net, s: Sys, i: nat): (r: Option<Res>)
    requires Valid(net, s) && i in s.cores
    ensures r.Some? && r.value.Cells? ==> |r.value.data| == 256
  {
    var k := Wants(net, i, s.cores[i]);
    if k.Some? && k.value in s.res then
      assert GoodRes(k.value, s.res[k.value]);
      Some(s.res[k.value])
    else None
  }

  datatype Outcome = Progress(s: Sys, ev: Event) | Offering(s: Sys) | Blocked | Crash

  function WithCore(s: Sys, i: nat, c: Core): Sys {
    s.(cores := s.cores[i := c])
  }

  function WithRes(s: Sys, k: Option<Key>, r: Option<Res>): Sys {
    if k.Some? && r.Some? then s.(res := s.res[k.value := r.value]) else s
  }

  /** `tick` on processor `i` (vm.c:373-523). It returns true exactly for Progress. */
  function Step(net: Net, s: Sys, i: nat): Outcome
    requires Valid(net, s) && i in s.cores
  {
    var k := Wants(net, i, s.cores[i]);
    match TickEffect(net, i, s.cores[i], Wanted(net, s, i))
    case Proceed(c, r, ev) => Progress(WithRes(WithCore(s, i, c), k, r), ev)
    case Offer(r) => Offering(WithRes(s, k, Some(r)))
    case Wait => Blocked
    case Fault => Crash
  }

  // ----- Preconditions on the wiring -----

  ghost predicate Sends(net: Net, i: nat, p: slot)
    requires i < |net| && net[i].Proc?
  {
    exists a: nat :: IsStart(net[i].code, a) && Decode(net[i].code, a) == Some(Send(p))
  }

  ghost predicate Receives(net: Net, i: nat, p: slot)
    requires i < |net| && net[i].Proc?
  {
    exists a: nat :: IsStart(net[i].code, a) && Decode(net[i].code, a) == Some(Recv(p))
  }

  /** A wire between processors joins two different processors and carries data one way only; no
      port is both read from and written to; and execution cannot leave a processor's code. */
  ghost predicate WellWired(net: Net) {
    && ValidNet(net)
    && (forall i :: 0 <= i < |net| && net[i].Proc? ==> Closed(net[i].code))
    && (forall i: nat, p: slot, k :: Linked(net, i, p, k) && k.WireKey? ==> !(Sends(net, i, p) && Receives(net, i, p)))
    && (forall i: nat, p: slot, j: nat, q: slot, k ::
          Linked(net, i, p, k) && Linked(net, j, q, k) && k.WireKey? && (i, p) != (j, q) ==>
            && i != j
            && !(Sends(net, i, p) && Sends(net, j, q))
            && !(Receives(net, i, p) && Receives(net, j, q)))
  }

  /** Each buffer, each stack and each IO stream belongs to one processor. */
  ghost predicate Exclusive(net: Net) {
    forall i: nat, p: nat, j: nat, q: nat, k ::
      Linked(net, i, p, k) && Linked(net, j, q, k) && i != j ==> k.WireKey?
  }

  // ----- The invariant of every interleaving -----

  /** Processor `i` stands at the send that filled wire `w`, the value still on top of its stack. */
  predicate Parked(net: Net, s: Sys, i: nat, p: slot, w: nat)
    requires Valid(net, s)
  {
    && i in s.cores && Linked(net, i, p, WireKey(w)) && WireKey(w) in s.res
    && GoodRes(WireKey(w), s.res[WireKey(w)])
    && Peek(net[i].code, s.cores[i]) == Sending(p, s.res[WireKey(w)].buf)
  }

  ghost predicate Coupled(net: Net, s: Sys)
    requires Valid(net, s)
  {
    forall w: nat :: WireKey(w) in s.res && s.res[WireKey(w)] != Wire(EMPTY, s.res[WireKey(w)].buf) ==>
      exists i: nat, p: slot :: Parked(net, s, i, p, w)
  }

  ghost predicate Inv(net: Net, s: Sys) {
    && WellWired(net)
    && Valid(net, s)
    && (forall i :: i in s.cores ==> IsStart(net[i].code, s.cores[i].pc))
    && Coupled(net, s)
  }

  /** The VM as `noded` hands it to `run`: fresh processors and empty wires. */
  ghost predicate Initial(net: Net, s: Sys) {
    && WellWired(net)
    && Valid(net, s)
    && (forall i :: i in s.cores ==> s.cores[i] == Fresh)
    && (forall w: nat :: WireKey(w) in s.res ==> s.res[WireKey(w)] == Wire(EMPTY, 0))
  }
}
