/** A network of honest nodes on point-to-point interfaces, with packets in flight. */
module Network {
  import opened Base
  import opened Crypto
  import opened Packets
  import opened PathTables
  import opened Transports
  import opened Nodes
  import Links

  /** A packet on its way to interface `iface` of node `to`. */
  datatype Flight = Flight(to: nat, iface: nat, bytes: Bytes)

  datatype Net = Net(nodes: map<nat, Node>, wire: multiset<Flight>)

  /** Which (node, interface) each (node, interface) is wired to. */
  type Topology = map<(nat, nat), (nat, nat)>

  ghost predicate PointToPoint(topo: Topology, net: Net) {
    && (forall e | e in topo :: topo[e] in topo && topo[topo[e]] == e)
    && (forall e | e in topo :: e.0 in net.nodes)
  }

  /** The node at the other end of an interface. */
  function Peer(topo: Topology, x: nat, iface: nat): nat
    requires (x, iface) in topo
  {
    topo[(x, iface)].0
  }

  /** Put queued packets on the wire; what leaves on an unwired interface is lost. */
  function Launch(topo: Topology, x: nat, out: seq<(nat, Bytes)>): (r: multiset<Flight>)
    ensures forall f | f in r :: exists i :: (x, i) in topo && topo[(x, i)] == (f.to, f.iface) && (i, f.bytes) in out
  {
    if out == [] then multiset{} else
      (if (x, out[0].0) in topo then
         var e := topo[(x, out[0].0)];
         multiset{Flight(e.0, e.1, out[0].1)}
       else multiset{})
      + Launch(topo, x, out[1..])
  }

  /** One step: an API call, a tick or foreign traffic at a node, or something that happens to a
      packet in flight. */
  datatype Step =
    | Do(x: nat, call: Call)
    | Receive(f: Flight, now: nat, rng: Option<Links.Entropy>)
    | Lose(f: Flight)
    | Duplicate(f: Flight)

  /** The call a node executes in this step. */
  function CallOf(s: Step): Call
    requires s.Do? || s.Receive?
  {
    if s.Do? then s.call else Inbound(s.f.bytes, s.f.iface, s.now, s.rng)
  }

  function NodeOf(s: Step): nat {
    if s.Do? then s.x else s.f.to
  }

  ghost predicate Unexpired(t: Transport, now: nat) {
    forall d | d in t.paths :: t.paths[d].expiresAt > now
  }

  /** No path of this node is expired at the clock reading the call makes, if it makes one. */
  ghost predicate InTime(n: Node, call: Call) {
    match call
    case Inbound(_, _, now, _) => Unexpired(n.t, now)
    case SendTo(_, _, _, _, _, now) => Unexpired(n.t, now)
    case EstablishLink(_, _, _, now) => Unexpired(n.t, now)
    case _ => true
  }

  predicate IsAnnounce(bytes: Bytes) {
    Decode(bytes).Ok? && Decode(bytes).value.packetType == ANNOUNCE
  }

  /** Sizes fixed by the source's types. */
  predicate Typed(call: Call) {
    match call
    case Announce(dest, _, random, _) => |dest| == 16 && |random| == 10
    case _ => true
  }

  /** The hypotheses on a run: transport is never switched off, no path expires, and announces
      come from nodes.  Any other traffic may be injected anywhere. */
  ghost predicate Allowed(net: Net, s: Step) {
    match s
    case Do(x, call) =>
      && x in net.nodes && InTime(net.nodes[x], call) && Typed(call)
      && call != EnableTransport(false)
      && (call.Inbound? ==> !IsAnnounce(call.bytes))
    case Receive(f, now, _) => f in net.wire && f.to in net.nodes && Unexpired(net.nodes[f.to].t, now)
    case Lose(f) => f in net.wire
    case Duplicate(f) => f in net.wire
  }

  function Apply(c: Suite, topo: Topology, net: Net, s: Step): Net
    requires s.Do? || s.Receive? ==> NodeOf(s) in net.nodes
  {
    match s
    case Lose(f) => net.(wire := net.wire - multiset{f})
    case Duplicate(f) => net.(wire := net.wire + multiset{f})
    case _ =>
      var x := NodeOf(s);
      var e := Exec(c, net.nodes[x], CallOf(s));
      var wire := if s.Receive? then net.wire - multiset{s.f} else net.wire;
      Net(net.nodes[x := e.st], wire + Launch(topo, x, e.out))
  }

  /** `run` starts at a fresh network and takes one allowed step after another. */
  ghost predicate IsRun(c: Suite, topo: Topology, start: Net, steps: seq<Step>, run: seq<Net>) {
    && |run| == |steps| + 1
    && run[0] == start
    && forall i | 0 <= i < |steps| :: Allowed(run[i], steps[i]) && run[i + 1] == Apply(c, topo, run[i], steps[i])
  }

  /** Nothing learned, nothing in flight. */
  ghost predicate Fresh(net: Net) {
    && net.wire == multiset{}
    && forall x | x in net.nodes :: net.nodes[x].t.paths == map[] && net.nodes[x].t.cached == map[]
  }
}
