/** Building the VM's wires (vm.c:160-188): after any sequence of `add_wire` calls that wires each
    processor port once, linked ports point at each other and share their wire with nobody else. */
module Wiring {
  import opened Wrappers
  import opened Bytecode
  import opened Network

  /** One `add_wire` call: two nodes and their ports. */
  datatype Joint = Joint(node1: nat, port1: nat, node2: nat, port2: nat)

  predicate ValidJoint(net: Net, j: Joint) {
    && j.node1 < |net| && j.node2 < |net|
    && (net[j.node1].Proc? ==> j.port1 < 4)
    && (net[j.node2].Proc? ==> j.port2 < 4)
  }

  /** add_wire_to_port, for ports of processors only. */
  function SetPort(net: Net, n: nat, p: nat, l: Link): Net
    requires ValidNet(net) && n < |net| && (net[n].Proc? ==> p < 4)
  {
    if net[n].Proc? then net[n := Proc(net[n].code, net[n].ports[p := Some(l)])] else net
  }

  lemma SetPortValid(net: Net, n: nat, p: nat, l: Link)
    requires ValidNet(net) && n < |net| && (net[n].Proc? ==> p < 4) && l.node < |net|
    ensures ValidNet(SetPort(net, n, p, l))
  {
    var m := SetPort(net, n, p, l);
    forall i | 0 <= i < |m| && m[i].Proc?
      ensures |m[i].ports| == 4
      ensures forall q :: 0 <= q < 4 && m[i].ports[q].Some? ==> m[i].ports[q].value.node < |m|
    {
      assert net[i].Proc?;
    }
  }

  /** `add_wire`, taking wire `w` off the VM's array. */
  function AddWire(net: Net, w: nat, j: Joint): Net
    requires ValidNet(net) && ValidJoint(net, j)
  {
    SetPortValid(net, j.node1, j.port1, Link(j.node2, j.port2, w));
    SetPort(SetPort(net, j.node1, j.port1, Link(j.node2, j.port2, w)), j.node2, j.port2, Link(j.node1, j.port1, w))
  }

  predicate SameNodes(net: Net, m: Net) {
    |net| == |m| && forall i :: 0 <= i < |net| ==>
      (net[i].Proc? <==> m[i].Proc?) && (if net[i].Proc? then net[i].code == m[i].code else net[i] == m[i])
  }

  lemma AddWireValid(net: Net, w: nat, j: Joint)
    requires ValidNet(net) && ValidJoint(net, j)
    ensures ValidNet(AddWire(net, w, j)) && SameNodes(net, AddWire(net, w, j))
  {
    SetPortValid(net, j.node1, j.port1, Link(j.node2, j.port2, w));
    SetPortValid(SetPort(net, j.node1, j.port1, Link(j.node2, j.port2, w)), j.node2, j.port2, Link(j.node1, j.port1, w));
  }

  lemma JointStaysValid(net: Net, m: Net, j: Joint)
    requires SameNodes(net, m) && ValidJoint(net, j)
    ensures ValidJoint(m, j)
  {
  }

  /** The network after a sequence of `add_wire` calls; the k-th call takes wire k. */
  function Build(net: Net, js: seq<Joint>): (m: Net)
    requires ValidNet(net) && forall k :: 0 <= k < |js| ==> ValidJoint(net, js[k])
    ensures ValidNet(m) && SameNodes(net, m)
  {
    if js == [] then net else
    var k := |js| - 1;
    var m := Build(net, js[..k]);
    JointStaysValid(net, m, js[k]);
    AddWireValid(m, k, js[k]);
    AddWire(m, k, js[k])
  }

  /** `(n, p)` is an end of the joint and a processor's port. */
  predicate IsEnd(net: Net, j: Joint, n: nat, p: nat) {
    n < |net| && net[n].Proc? && ((j.node1 == n && j.port1 == p) || (j.node2 == n && j.port2 == p))
  }

  /** Each processor port is on at most one wire, and no wire joins a node to itself. */
  ghost predicate SingleWire(net: Net, js: seq<Joint>) {
    && (forall k :: 0 <= k < |js| ==> js[k].node1 != js[k].node2)
    && (forall k, l, n: nat, p: nat :: 0 <= k < l < |js| && IsEnd(net, js[k], n, p) ==> !IsEnd(net, js[l], n, p))
  }

  predicate Unwired(net: Net) {
    forall i :: 0 <= i < |net| && net[i].Proc? ==> net[i].ports == [None, None, None, None]
  }

  /** What the other end of `(n, p)` on joint `k` looks like. */
  function Opposite(j: Joint, k: nat, n: nat, p: nat): Link {
    if j.node1 == n && j.port1 == p then Link(j.node2, j.port2, k) else Link(j.node1, j.port1, k)
  }

  lemma AddWirePorts(net: Net, w: nat, j: Joint, n: nat, p: nat)
    requires ValidNet(net) && ValidJoint(net, j) && j.node1 != j.node2
    requires n < |net| && net[n].Proc? && p < 4
    ensures var m := AddWire(net, w, j);
            && n < |m| && m[n].Proc? && |m[n].ports| == 4
            && m[n].ports[p] == if IsEnd(net, j, n, p) then Some(Opposite(j, w, n, p)) else net[n].ports[p]
  {
    AddWireValid(net, w, j);
  }

  /** Every port is linked exactly as the one joint it is on says, and not at all if on none. */
  lemma {:induction false} PortsFollowJoints(net: Net, js: seq<Joint>, n: nat, p: nat)
    requires ValidNet(net) && Unwired(net) && (forall k :: 0 <= k < |js| ==> ValidJoint(net, js[k]))
    requires SingleWire(net, js)
    requires n < |net| && net[n].Proc? && p < 4
    ensures var m := Build(net, js);
            && (forall k :: 0 <= k < |js| && IsEnd(net, js[k], n, p) ==> m[n].ports[p] == Some(Opposite(js[k], k, n, p)))
            && ((forall k :: 0 <= k < |js| ==> !IsEnd(net, js[k], n, p)) ==> m[n].ports[p] == None)
    decreases |js|
  {
    hide AddWire, Opposite, IsEnd;
    if js != [] {
      var k := |js| - 1;
      assert forall i :: 0 <= i < k ==> js[..k][i] == js[i];
      PortsFollowJoints(net, js[..k], n, p);
      var m := Build(net, js[..k]);
      AddWirePorts(m, k, js[k], n, p);
      assert IsEnd(m, js[k], n, p) <==> IsEnd(net, js[k], n, p) by {
        EndStays(net, m, js[k], n, p);
      }
    }
  }

  lemma EndStays(net: Net, m: Net, j: Joint, n: nat, p: nat)
    requires SameNodes(net, m)
    ensures IsEnd(m, j, n, p) <==> IsEnd(net, j, n, p)
  {
  }

  /** Two linked processor ports point at each other and at one wire, and no third port is on it. */
  lemma SymmetricAndAliasFree(net: Net, js: seq<Joint>, n: nat, p: nat)
    requires ValidNet(net) && Unwired(net) && (forall k :: 0 <= k < |js| ==> ValidJoint(net, js[k]))
    requires SingleWire(net, js)
    requires n < |net| && net[n].Proc? && p < 4 && Build(net, js)[n].ports[p].Some?
    ensures var m := Build(net, js);
            var l := m[n].ports[p].value;
            && l.wire < |js| && l.node < |m| && l.node != n
            && (m[l.node].Proc? ==> l.port < 4 && m[l.node].ports[l.port] == Some(Link(n, p, l.wire)))
            && (forall i: nat, q: nat :: i < |m| && m[i].Proc? && q < 4 && m[i].ports[q].Some? && m[i].ports[q].value.wire == l.wire
                  ==> (i, q) == (n, p) || (i, q) == (l.node, l.port))
  {
    hide Build, Unwired;
    var m := Build(net, js);
    PortsFollowJoints(net, js, n, p);
    var k :| 0 <= k < |js| && IsEnd(net, js[k], n, p);
    var l := m[n].ports[p].value;
    if m[l.node].Proc? {
      PortsFollowJoints(net, js, l.node, l.port);
      assert IsEnd(net, js[k], l.node, l.port);
    }
    forall i: nat, q: nat | i < |m| && m[i].Proc? && q < 4 && m[i].ports[q].Some? && m[i].ports[q].value.wire == l.wire
      ensures (i, q) == (n, p) || (i, q) == (l.node, l.port)
    {
      PortsFollowJoints(net, js, i, q);
      var k' :| 0 <= k' < |js| && IsEnd(net, js[k'], i, q);
    }
  }

  /** A joint of two processors is sent on from one end and received from at the other. */
  ghost predicate OneWay(net: Net, j: Joint) {
    ValidJoint(net, j) && net[j.node1].Proc? && net[j.node2].Proc? ==>
      && !(Sends(net, j.node1, j.port1) && Sends(net, j.node2, j.port2))
      && !(Receives(net, j.node1, j.port1) && Receives(net, j.node2, j.port2))
  }

  lemma UseStays(net: Net, m: Net, i: nat, p: slot)
    requires SameNodes(net, m) && i < |net| && net[i].Proc?
    ensures (Sends(m, i, p) <==> Sends(net, i, p)) && (Receives(m, i, p) <==> Receives(net, i, p))
  {
    assert m[i].code == net[i].code;
  }

  lemma OneUse(net: Net, m: Net, i: nat, p: slot, k: Key)
    requires SameNodes(net, m) && Linked(m, i, p, k)
    requires forall i: nat, p: slot :: i < |net| && net[i].Proc? ==> !(Sends(net, i, p) && Receives(net, i, p))
    ensures !(Sends(m, i, p) && Receives(m, i, p))
  {
    hide Sends, Receives;
    UseStays(net, m, i, p);
  }

  /** Wires used in one direction, on top of single wiring and code that execution cannot leave, are
      all that Network.WellWired asks for. */
  lemma BuildsWellWired(net: Net, js: seq<Joint>)
    requires ValidNet(net) && Unwired(net) && (forall k :: 0 <= k < |js| ==> ValidJoint(net, js[k]))
    requires SingleWire(net, js)
    requires forall i :: 0 <= i < |net| && net[i].Proc? ==> Closed(net[i].code)
    requires forall i: nat, p: slot :: i < |net| && net[i].Proc? ==> !(Sends(net, i, p) && Receives(net, i, p))
    requires forall k :: 0 <= k < |js| ==> OneWay(net, js[k])
    ensures WellWired(Build(net, js))
  {
    hide Closed, Build, Sends, Receives, SingleWire, Unwired, OneWay;
    var m := Build(net, js);
    forall i: nat, p: slot, k | Linked(m, i, p, k)
      ensures !(Sends(m, i, p) && Receives(m, i, p))
    {
      OneUse(net, m, i, p, k);
    }
    forall i: nat, p: slot, j: nat, q: slot, k |
      Linked(m, i, p, k) && Linked(m, j, q, k) && k.WireKey? && (i, p) != (j, q)
      ensures i != j && !(Sends(m, i, p) && Sends(m, j, q)) && !(Receives(m, i, p) && Receives(m, j, q))
    {
      TwoEnds(net, js, i, p, j, q, k);
    }
  }

  /** Two linked ports on the same wire are the two ends of its joint. */
  lemma TwoEnds(net: Net, js: seq<Joint>, i: nat, p: slot, j: nat, q: slot, k: Key)
    requires ValidNet(net) && Unwired(net) && (forall k :: 0 <= k < |js| ==> ValidJoint(net, js[k]))
    requires SingleWire(net, js)
    requires forall k :: 0 <= k < |js| ==> OneWay(net, js[k])
    requires var m := Build(net, js);
             Linked(m, i, p, k) && Linked(m, j, q, k) && k.WireKey? && (i, p) != (j, q)
    ensures var m := Build(net, js);
            i != j && !(Sends(m, i, p) && Sends(m, j, q)) && !(Receives(m, i, p) && Receives(m, j, q))
  {
    hide Decode, Visits, Build, Sends, Receives;
    SymmetricAndAliasFree(net, js, i, p);
    PortsFollowJoints(net, js, i, p);
    PortsFollowJoints(net, js, j, q);
    var x :| 0 <= x < |js| && IsEnd(net, js[x], i, p);
    assert OneWay(net, js[x]);
    UseStays(net, Build(net, js), i, p);
    UseStays(net, Build(net, js), j, q);
  }
}
