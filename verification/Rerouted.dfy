/** A run in which a message is dropped although nothing is lost: its sender learns a shorter route while the message
    is in flight, and the relay it is heading to turns its own route back to the sender. */
module Rerouted {
  import opened Base
  import opened Crypto
  import opened Packets
  import opened PathTables
  import opened Transports
  import opened Nodes
  import opened Links
  import opened Network
  import opened LoopFreedom
  import opened Delivery
  import opened Arrival
  import opened Discovery
  import Announces

  // ------------------------------------------------------------------ what is known of a node

  /** A node with interfaces 0 and 1: its routes, and bounds on what it has seen. */
  datatype View = View(identity: Identity, locals: seq<Local>, enabled: bool, paths: Table,
                       announces: set<(Bytes, Bytes)>, packets: set<Bytes>)

  ghost predicate Shows(n: Node, v: View) {
    && n.t.identity == v.identity && n.t.locals == v.locals && n.t.interfaces == [0, 1] && n.t.enabled == v.enabled
    && n.t.paths == v.paths && n.t.seenAnnounces.Keys <= v.announces && n.t.seenPackets.Keys <= v.packets
  }

  ghost predicate Scene(net: Net, views: map<nat, View>, wire: multiset<Flight>) {
    && net.nodes.Keys == views.Keys && net.wire == wire
    && forall i | i in views :: Shows(net.nodes[i], views[i])
  }

  predicate Live(t: Table, now: nat) {
    forall d | d in t :: t[d].expiresAt > now
  }

  // ------------------------------------------------------------------ an announce reaches a node

  /** One announce: who makes it, for what, with which random hash. */
  datatype Ad = Ad(id: Identity, dest: Bytes, name: Bytes, random: Bytes, appData: Bytes)

  ghost predicate Sound(a: Ad) {
    |a.dest| == 16 && |a.name| == 10 && |a.random| == 10
  }

  /** The announce as its host sends it. */
  function First(c: Suite, a: Ad): Packet {
    AnnouncePacket(c, a.id, a.dest, a.name, a.random, a.appData, NO_CONTEXT)
  }

  /** `p` is a copy of the announce, first-hand or relayed. */
  ghost predicate CopyOf(c: Suite, p: Packet, a: Ad) {
    && WellFormed(p) && p.packetType == ANNOUNCE && !p.contextFlag && p.dest == a.dest && p.context == NO_CONTEXT
    && p.destType == SINGLE && p.data == First(c, a).data
  }

  /** The copy that relay `id` passes on. */
  function Copied(c: Suite, id: Identity, p: Packet): Packet
    requires p.hops < 255
  {
    p.(headerType := HEADER_2, propagation := TRANSPORT, transportId := Some(IdentityHash(c, id)), hops := p.hops + 1)
  }

  lemma CopyStays(c: Suite, id: Identity, p: Packet, a: Ad)
    requires Sized(c) && CopyOf(c, p, a) && p.hops < 255
    ensures CopyOf(c, Copied(c, id, p), a)
  {
    hide First, IdentityHash;
    HashSize(c, id);
  }

  lemma CopyDecodes(c: Suite, p: Packet, a: Ad)
    requires CopyOf(c, p, a)
    ensures Decode(Encode(p)) == Ok(p)
  {
    hide First, Encode, Decode;
    DecodeEncode(p);
  }

  lemma CopyHash(c: Suite, p: Packet, a: Ad)
    requires CopyOf(c, p, a)
    ensures PacketHash(c, p) == PacketHash(c, First(c, a))
  {
    hide Announces.Build, Announces.Payload;
    assert HashablePart(p) == HashablePart(First(c, a));
  }

  lemma FirstIsCopy(c: Suite, a: Ad)
    requires Sound(a)
    ensures CopyOf(c, First(c, a), a) && First(c, a).hops == 0
  {
    hide Announces.Build, Announces.Payload;
  }

  function Heard(c: Suite, v: View, a: Ad, p: Packet, iface: nat, now: nat): View
    requires |a.random| == 10 && p.hops < 255
  {
    v.(paths := v.paths[a.dest := RouteOf(c, a.id, p.(hops := p.hops + 1), a.random, iface, now)],
       announces := v.announces + {(a.dest, a.random)}, packets := v.packets + {PacketHash(c, First(c, a))})
  }

  lemma BroadcastOther(interfaces: seq<nat>, iface: nat, other: nat, bytes: Bytes)
    requires interfaces == [0, 1] && iface + other == 1
    ensures Broadcast(interfaces, Some(iface), bytes) == [(other, bytes)]
  {
    var last, none: seq<nat> := interfaces[1..], [];
    assert last == [1] && last[1..] == none;
    assert Broadcast(last, Some(iface), bytes) == if iface == 1 then [] else [(1, bytes)];
  }

  /** A relay that prefers the route and has not heard the announce. */
  predicate Ready(c: Suite, v: View, a: Ad, p: Packet, iface: nat, now: nat) {
    && |a.random| == 10 && p.hops < 100 && iface < 2 && v.enabled && Live(v.paths, now)
    && FindLocal(v.locals, a.dest).None? && (a.dest, a.random) !in v.announces
    && PacketHash(c, First(c, a)) !in v.packets
    && Prefers(v.paths, a.dest, RouteOf(c, a.id, p.(hops := p.hops + 1), a.random, iface, now), now)
  }

  /** Such a relay learns the route and passes the announce on. */
  lemma NodeHears(c: Suite, n: Node, v: View, a: Ad, p: Packet, iface: nat, other: nat, now: nat)
    requires Lawful(c) && Sound(a) && CopyOf(c, p, a) && Shows(n, v) && Ready(c, v, a, p, iface, now) && iface + other == 1
    ensures var e := Exec(c, n, Inbound(Encode(p), iface, now, None));
            Shows(e.st, Heard(c, v, a, p, iface, now)) && e.out == [(other, Encode(Copied(c, v.identity, p)))]
  {
    hide Decode, Encode, Exec, RouteOf, First, IdentityHash, PacketHash, Broadcast, CopyOf, Copied, Prefers, FindLocal, Relayed;
    NodeTakes(c, n, v, a, p, iface, now);
    CopyHash(c, p, a);
    CopyFields(c, p, a);
    CopiedIsRelayed(c, n.t, p);
    BroadcastOther(n.t.interfaces, iface, other, Encode(Copied(c, v.identity, p)));
  }

  lemma NodeTakes(c: Suite, n: Node, v: View, a: Ad, p: Packet, iface: nat, now: nat)
    requires Lawful(c) && Sound(a) && CopyOf(c, p, a) && Shows(n, v) && Ready(c, v, a, p, iface, now)
    ensures var q := p.(hops := p.hops + 1);
            var e := Exec(c, n, Inbound(Encode(p), iface, now, None));
            && e.st.t.paths == n.t.paths[a.dest := RouteOf(c, a.id, q, a.random, iface, now)]
            && e.out == Broadcast(n.t.interfaces, Some(iface), Encode(Relayed(c, n.t, q)))
            && e.st.t.identity == n.t.identity && e.st.t.locals == n.t.locals && e.st.t.interfaces == n.t.interfaces
            && e.st.t.enabled == n.t.enabled
            && e.st.t.seenPackets.Keys <= n.t.seenPackets.Keys + {PacketHash(c, p)}
            && e.st.t.seenAnnounces.Keys <= n.t.seenAnnounces.Keys + {(a.dest, a.random)}
  {
    hide Decode, Encode, Exec, Seen, RouteOf, Prefers, First, Announces.Build, Announces.Payload, IdentityHash, FindLocal,
         PacketHash, Broadcast, Lawful, CopyOf, Relayed;
    CopyDecodes(c, p, a);
    CopyHash(c, p, a);
    UnseenPasses(c, n.t, p, now);
    CopyFields(c, p, a);
    AnnounceTaken(c, n, Encode(p), p, a.id, a.name, a.random, a.appData, iface, now, None);
  }

  lemma CopyFields(c: Suite, p: Packet, a: Ad)
    requires CopyOf(c, p, a)
    ensures p.packetType == ANNOUNCE && !p.contextFlag && p.dest == a.dest && p.context == NO_CONTEXT
    ensures p.data == Announces.Payload(Announces.Build(c, a.id, a.dest, a.name, a.random, a.appData))
  {
    hide Announces.Build, Announces.Payload;
  }

  lemma CopiedIsRelayed(c: Suite, t: Transport, p: Packet)
    requires p.hops < 255
    ensures Copied(c, t.identity, p) == Relayed(c, t, p.(hops := p.hops + 1))
  {
    hide IdentityHash;
  }

  // ------------------------------------------------------------------ the network

  /** The packet node `x` puts on this interface. */
  function Across(topo: Topology, x: nat, iface: nat, bytes: Bytes): Flight
    requires (x, iface) in topo
  {
    Flight(topo[(x, iface)].0, topo[(x, iface)].1, bytes)
  }

  lemma HearStep(c: Suite, topo: Topology, net: Net, views: map<nat, View>, wire: multiset<Flight>, a: Ad, p: Packet,
                 f: Flight, other: nat, now: nat)
    requires Lawful(c) && Sound(a) && CopyOf(c, p, a) && Scene(net, views, wire)
    requires f in wire && f.bytes == Encode(p) && f.to in views && f.to in net.nodes
    requires Ready(c, views[f.to], a, p, f.iface, now) && f.iface + other == 1 && (f.to, other) in topo
    ensures var q := Copied(c, views[f.to].identity, p);
            && Allowed(net, Receive(f, now, None)) && CopyOf(c, q, a)
            && Scene(Apply(c, topo, net, Receive(f, now, None)), views[f.to := Heard(c, views[f.to], a, p, f.iface, now)],
                     wire - multiset{f} + multiset{Across(topo, f.to, other, Encode(q))})
            && Exec(c, net.nodes[f.to], Inbound(f.bytes, f.iface, now, None)).out == [(other, Encode(q))]
  {
    hide Encode, Decode, Exec, FindLocal, Prefers, RouteOf, PacketHash, CopyOf, Lawful, Heard, Apply, Announces.Build,
         Announces.Payload, First, Sound, IdentityHash;
    var s := Receive(f, now, None);
    assert Shows(net.nodes[f.to], views[f.to]);
    LawfulSized(c);
    CopyStays(c, views[f.to].identity, p, a);
    NodeHears(c, net.nodes[f.to], views[f.to], a, p, f.iface, other, now);
    ApplyOne(c, topo, net, s, (other, Encode(Copied(c, views[f.to].identity, p))));
  }

  lemma LawfulSized(c: Suite)
    requires Lawful(c)
    ensures Sized(c)
  {
  }

  // ------------------------------------------------------------------ a host announces

  lemma FirstStep(c: Suite, topo: Topology, net: Net, views: map<nat, View>, wire: multiset<Flight>, a: Ad, local: Local,
                  x: nat, iface: nat)
    requires Sound(a) && Scene(net, views, wire) && x in views && x in net.nodes && (x, iface) in topo
    requires views[x].identity == a.id && views[x].locals == [local] && local.dest == a.dest && local.name == a.name
    requires local.kind.Single?
    ensures var s := Do(x, Call.Announce(a.dest, a.appData, a.random, iface));
            && Allowed(net, s)
            && Scene(Apply(c, topo, net, s), views, wire + multiset{Across(topo, x, iface, Encode(First(c, a)))})
            && Exec(c, net.nodes[x], s.call).out == [(iface, Encode(First(c, a)))]
  {
    hide Exec, Encode, Apply, AnnouncePacket;
    var s := Do(x, Call.Announce(a.dest, a.appData, a.random, iface));
    assert Shows(net.nodes[x], views[x]);
    assert FindSingle([local], a.dest) == Some(local);
    AnnounceSent(c, net.nodes[x], local, a.random, a.appData, iface);
    ApplyOne(c, topo, net, s, (iface, Encode(First(c, a))));
  }

  // ------------------------------------------------------------------ a message is sent, and dropped

  /** The packet of a message on a route of several hops. */
  lemma MessageStep(c: Suite, topo: Topology, net: Net, views: map<nat, View>, wire: multiset<Flight>, m: Parcel, x: nat,
                    ephemeral: Bytes, iv: Bytes, receipt: bool, now: nat)
    requires Scene(net, views, wire) && x in views && x in net.nodes && Live(views[x].paths, now)
    requires m.dest in views[x].paths && views[x].paths[m.dest].nextHop.Some?
    requires m.data == Encrypt(c, views[x].paths[m.dest].public, m.plaintext, ephemeral, iv)
    requires (x, views[x].paths[m.dest].iface) in topo
    ensures var s := Do(x, SendTo(m.dest, m.plaintext, ephemeral, iv, receipt, now)); var path := views[x].paths[m.dest];
            && Allowed(net, s)
            && Scene(Apply(c, topo, net, s), views,
                     wire + multiset{Across(topo, x, path.iface,
                                            Encode(MessagePacket(c, m.dest, path, m.plaintext, ephemeral, iv)))})
  {
    hide Exec, Encode, Encrypt, MessagePacket, Apply, SendMessage, ParcelHash;
    var s := Do(x, SendTo(m.dest, m.plaintext, ephemeral, iv, receipt, now));
    var path := views[x].paths[m.dest];
    assert Shows(net.nodes[x], views[x]);
    SendShape(c, net.nodes[x].t, m, ephemeral, iv, receipt, now);
    SendExec(c, net.nodes[x], s.call);
    ApplyOne(c, topo, net, s, (path.iface, Encode(MessagePacket(c, m.dest, path, m.plaintext, ephemeral, iv))));
  }

  lemma SendExec(c: Suite, n: Node, call: Call)
    requires call.SendTo?
    ensures Exec(c, n, call)
            == OnTransport(n, SendMessage(c, n.t, call.dest, call.plaintext, call.ephemeral, call.iv, call.receipt, call.now).0)
  {
    hide SendMessage;
  }

  /** A relay whose route leads back to the arriving interface drops the message. */
  lemma NodeDrops(c: Suite, n: Node, bytes: Bytes, p: Packet, iface: nat, now: nat)
    requires Decode(bytes) == Ok(p) && p.packetType == DATA && p.destType == SINGLE && p.headerType == HEADER_2
    requires p.hops < 100 && !Seen(c, n.t, p, now) && FindLocal(n.t.locals, p.dest).None? && Unexpired(n.t, now)
    requires p.dest in n.t.paths && n.t.paths[p.dest].iface == iface
    ensures var e := Exec(c, n, Inbound(bytes, iface, now, None));
            e.out == [] && e.events == [] && e.st == n.(t := Noted(c, n.t, p, now))
  {
    hide Decode, Exec, Seen, Noted, IdentityHash, FindLocal, HandleData;
    var q := p.(hops := p.hops + 1);
    InboundData(c, n, bytes, p, iface, now, None);
    NotedShortens(c, n.t, p, now);
    DataKeeps(c, Noted(c, n.t, p, now), q, iface, now);
    DataDropped(c, Noted(c, n.t, p, now), q, iface, now);
  }

  lemma DataDropped(c: Suite, t: Transport, p: Packet, iface: nat, now: nat)
    requires p.headerType == HEADER_2 && FindLocal(t.locals, p.dest).None? && p.dest in t.paths
    requires t.paths[p.dest].iface == iface
    ensures HandleData(c, t, p, iface, now).out == [] && HandleData(c, t, p, iface, now).events == []
  {
    hide Encode, IdentityHash, FindLocal;
  }

  lemma NodeStillShows(c: Suite, n: Node, v: View, p: Packet, now: nat)
    requires Shows(n, v)
    ensures Shows(n.(t := Noted(c, n.t, p, now)), v.(packets := v.packets + {PacketHash(c, p)}))
  {
    hide PacketHash, Noted;
    NotedRoutes(c, n.t, p, now);
  }

  lemma DropStep(c: Suite, topo: Topology, net: Net, views: map<nat, View>, wire: multiset<Flight>, p: Packet, f: Flight,
                 now: nat)
    requires Scene(net, views, wire) && f in wire && f.to in views && f.to in net.nodes && Decode(f.bytes) == Ok(p)
    requires p.packetType == DATA && p.destType == SINGLE && p.headerType == HEADER_2 && p.hops < 100
    requires var v := views[f.to];
             && PacketHash(c, p) !in v.packets && FindLocal(v.locals, p.dest).None? && Live(v.paths, now)
             && p.dest in v.paths && v.paths[p.dest].iface == f.iface
    ensures var s := Receive(f, now, None); var v := views[f.to];
            && Allowed(net, s)
            && Scene(Apply(c, topo, net, s), views[f.to := v.(packets := v.packets + {PacketHash(c, p)})], wire - multiset{f})
            && Exec(c, net.nodes[f.to], CallOf(s)).events == []
  {
    hide Exec, Decode, Seen, Noted, FindLocal, PacketHash;
    assert Shows(net.nodes[f.to], views[f.to]);
    var n := net.nodes[f.to];
    UnseenPasses(c, n.t, p, now);
    NodeDrops(c, n, f.bytes, p, f.iface, now);
    NodeStillShows(c, n, views[f.to], p, now);
    hide Shows, Seen;
  }

  // ------------------------------------------------------------------ the run

  /** The other end of an interface in a ring of four nodes: interface 1 leads on, interface 0 back. */
  function AcrossRing(x: nat, iface: nat): (nat, nat) {
    if iface == 1 then (if x == 3 then 0 else x + 1, 0) else (if x == 0 then 3 else x - 1, 1)
  }

  /** Nodes 0 - 1 - 2 - 3 - 0. */
  function Ring(): Topology {
    map x: nat, i: nat | x < 4 && i < 2 :: (x, i) := AcrossRing(x, i)
  }

  /** Node 0 hosts `dest` and announces it twice; nodes 1 to 3 are relays; node 3 sends the message. */
  datatype Setup = Setup(host: Identity, q: Identity, y: Identity, x: Identity, dest: Bytes, name: Bytes, prove: bool,
                         r1: Bytes, r2: Bytes, appData: Bytes, plaintext: Bytes, ephemeral: Bytes, iv: Bytes, now: nat)

  function Ad1(u: Setup): Ad {
    Ad(u.host, u.dest, u.name, u.r1, u.appData)
  }

  function Ad2(u: Setup): Ad {
    Ad(u.host, u.dest, u.name, u.r2, u.appData)
  }

  function HostNode(u: Setup): Node {
    Node(NewTransport(u.host).(locals := [Local(u.name, u.dest, Single(u.prove))], interfaces := [0, 1]), map[], [])
  }

  function RelayNode(id: Identity): Node {
    Node(NewTransport(id).(interfaces := [0, 1], enabled := true), map[], [])
  }

  function Start(u: Setup): Net {
    Net(map[0 := HostNode(u), 1 := RelayNode(u.q), 2 := RelayNode(u.y), 3 := RelayNode(u.x)], multiset{})
  }

  // The first announce on its way 0 - 1 - 2 - 3 and on to 0, the second one 0 - 3 - 2 - 1.
  function P1(c: Suite, u: Setup): Packet { Copied(c, u.q, First(c, Ad1(u))) }
  function P2(c: Suite, u: Setup): Packet { Copied(c, u.y, P1(c, u)) }
  function P3(c: Suite, u: Setup): Packet { Copied(c, u.x, P2(c, u)) }
  function R1(c: Suite, u: Setup): Packet { Copied(c, u.x, First(c, Ad2(u))) }
  function R2(c: Suite, u: Setup): Packet { Copied(c, u.y, R1(c, u)) }

  function HostView(u: Setup): View {
    View(u.host, [Local(u.name, u.dest, Single(u.prove))], false, map[], {}, {})
  }

  function RelayView(id: Identity): View {
    View(id, [], true, map[], {}, {})
  }

  predicate Proper(u: Setup) {
    && |u.dest| == 16 && |u.name| == 10 && |u.r1| == 10 && |u.r2| == 10
    && Announces.Timestamp(u.r1) < Announces.Timestamp(u.r2)
  }

  function Q1(c: Suite, u: Setup): View requires Proper(u) {
    Heard(c, RelayView(u.q), Ad1(u), First(c, Ad1(u)), 0, u.now)
  }

  function Y1(c: Suite, u: Setup): View requires Proper(u) {
    Heard(c, RelayView(u.y), Ad1(u), P1(c, u), 0, u.now)
  }

  function X1(c: Suite, u: Setup): View requires Proper(u) {
    Heard(c, RelayView(u.x), Ad1(u), P2(c, u), 0, u.now)
  }

  function X2(c: Suite, u: Setup): View requires Proper(u) {
    Heard(c, X1(c, u), Ad2(u), First(c, Ad2(u)), 1, u.now)
  }

  function Y2(c: Suite, u: Setup): View requires Proper(u) {
    Heard(c, Y1(c, u), Ad2(u), R1(c, u), 1, u.now)
  }

  function Y3(c: Suite, u: Setup): View requires Proper(u) {
    Y2(c, u).(packets := Y2(c, u).packets + {ParcelKey(c, Message(c, u))})
  }

  function Message(c: Suite, u: Setup): Parcel {
    Parcel(u.dest, 0, Encrypt(c, Public(c, u.host), u.plaintext, u.ephemeral, u.iv), u.plaintext)
  }

  function Mail(c: Suite, u: Setup): Packet requires Proper(u) {
    MessagePacket(c, u.dest, RouteOf(c, u.host, P2(c, u).(hops := 3), u.r1, 0, u.now), u.plaintext, u.ephemeral, u.iv)
  }

  /** The announces and the message have different hashes. */
  predicate Apart(c: Suite, u: Setup) {
    && PacketHash(c, First(c, Ad1(u))) != PacketHash(c, First(c, Ad2(u)))
    && ParcelKey(c, Message(c, u)) != PacketHash(c, First(c, Ad1(u)))
    && ParcelKey(c, Message(c, u)) != PacketHash(c, First(c, Ad2(u)))
  }

  // What is known of the nodes at the start, after the first announce reached nodes 1, 2 and 3, and after the second
  // one reached nodes 3 and 2.
  function V0(u: Setup): map<nat, View> {
    map[0 := HostView(u), 1 := RelayView(u.q), 2 := RelayView(u.y), 3 := RelayView(u.x)]
  }
  function V1(c: Suite, u: Setup): map<nat, View> requires Proper(u) { V0(u)[1 := Q1(c, u)] }
  function V2(c: Suite, u: Setup): map<nat, View> requires Proper(u) { V1(c, u)[2 := Y1(c, u)] }
  function V3(c: Suite, u: Setup): map<nat, View> requires Proper(u) { V2(c, u)[3 := X1(c, u)] }
  function V4(c: Suite, u: Setup): map<nat, View> requires Proper(u) { V3(c, u)[3 := X2(c, u)] }
  function V5(c: Suite, u: Setup): map<nat, View> requires Proper(u) { V4(c, u)[2 := Y2(c, u)] }
  function V6(c: Suite, u: Setup): map<nat, View> requires Proper(u) { V5(c, u)[2 := Y3(c, u)] }

  lemma Chain(c: Suite, u: Setup)
    requires Sized(c) && Proper(u)
    ensures CopyOf(c, First(c, Ad1(u)), Ad1(u)) && CopyOf(c, P1(c, u), Ad1(u)) && CopyOf(c, P2(c, u), Ad1(u))
    ensures CopyOf(c, P3(c, u), Ad1(u))
    ensures CopyOf(c, First(c, Ad2(u)), Ad2(u)) && CopyOf(c, R1(c, u), Ad2(u)) && CopyOf(c, R2(c, u), Ad2(u))
    ensures First(c, Ad1(u)).hops == 0 && P1(c, u).hops == 1 && P2(c, u).hops == 2 && P3(c, u).hops == 3
    ensures First(c, Ad2(u)).hops == 0 && R1(c, u).hops == 1 && R2(c, u).hops == 2
    ensures P2(c, u).headerType == HEADER_2 && P2(c, u).transportId == Some(IdentityHash(c, u.y))
  {
    hide First, CopyOf, IdentityHash;
    FirstIsCopy(c, Ad1(u));
    FirstIsCopy(c, Ad2(u));
    CopyStays(c, u.q, First(c, Ad1(u)), Ad1(u));
    CopyStays(c, u.y, P1(c, u), Ad1(u));
    CopyStays(c, u.x, P2(c, u), Ad1(u));
    CopyStays(c, u.x, First(c, Ad2(u)), Ad2(u));
    CopyStays(c, u.y, R1(c, u), Ad2(u));
  }

  lemma FreshReady(c: Suite, id: Identity, a: Ad, p: Packet, iface: nat, now: nat)
    requires Sound(a) && p.hops < 100 && iface < 2
    ensures Ready(c, RelayView(id), a, p, iface, now)
  {
    hide First, RouteOf, PacketHash;
  }

  /** The second announce finds node 3 with a longer route. */
  lemma ShorterReady(c: Suite, u: Setup)
    requires Sized(c) && Proper(u) && Apart(c, u)
    ensures Ready(c, X1(c, u), Ad2(u), First(c, Ad2(u)), 1, u.now)
  {
    Chain(c, u);
    hide First, PacketHash, CopyOf, IdentityHash, P2, Public;
  }

  /** It finds node 2 with a route as long and an older announce. */
  lemma NewerReady(c: Suite, u: Setup)
    requires Sized(c) && Proper(u) && Apart(c, u)
    ensures Ready(c, Y1(c, u), Ad2(u), R1(c, u), 1, u.now)
  {
    Chain(c, u);
    hide First, PacketHash, CopyOf, IdentityHash, P1, R1, Public;
  }

  // ------------------------------------------------------------------ its nine steps

  // The packets in flight: the first announce, the second, the message.
  function ToQ(c: Suite, u: Setup): Flight { Flight(1, 0, Encode(First(c, Ad1(u)))) }
  function ToY(c: Suite, u: Setup): Flight { Flight(2, 0, Encode(P1(c, u))) }
  function ToX(c: Suite, u: Setup): Flight { Flight(3, 0, Encode(P2(c, u))) }
  function Round(c: Suite, u: Setup): Flight { Flight(0, 0, Encode(P3(c, u))) }
  function BackToX(c: Suite, u: Setup): Flight { Flight(3, 1, Encode(First(c, Ad2(u)))) }
  function BackToY(c: Suite, u: Setup): Flight { Flight(2, 1, Encode(R1(c, u))) }
  function BackToQ(c: Suite, u: Setup): Flight { Flight(1, 1, Encode(R2(c, u))) }
  function Letter(c: Suite, u: Setup): Flight requires Proper(u) { Flight(2, 1, Encode(Mail(c, u))) }

  function Tell(u: Setup, random: Bytes, iface: nat): Step {
    Do(0, Call.Announce(u.dest, u.appData, random, iface))
  }

  function Write(u: Setup): Step {
    Do(3, SendTo(u.dest, u.plaintext, u.ephemeral, u.iv, false, u.now))
  }

  /** The announce goes 0 - 1 - 2 - 3; node 3 sends the message; the second announce goes 0 - 3 - 2; and only now
      the message reaches node 2. */
  function Steps(c: Suite, u: Setup): seq<Step>
    requires Proper(u)
  {
    [Tell(u, u.r1, 1), Receive(ToQ(c, u), u.now, None), Receive(ToY(c, u), u.now, None), Receive(ToX(c, u), u.now, None),
     Write(u), Tell(u, u.r2, 0), Receive(BackToX(c, u), u.now, None), Receive(BackToY(c, u), u.now, None),
     Receive(Letter(c, u), u.now, None)]
  }

  ghost predicate Goes(c: Suite, a: Net, s: Step, b: Net) {
    Allowed(a, s) && b == Apply(c, Ring(), a, s)
  }

  /** Whatever the step queues are these bytes. */
  ghost predicate Queues(c: Suite, net: Net, s: Step, bytes: Bytes) {
    && (s.Do? || s.Receive?) && NodeOf(s) in net.nodes
    && forall o | o in Exec(c, net.nodes[NodeOf(s)], CallOf(s)).out :: o.1 == bytes
  }

  lemma RingAt(x: nat, i: nat)
    requires x < 4 && i < 2
    ensures (x, i) in Ring() && Ring()[(x, i)] == AcrossRing(x, i)
  {
    hide AcrossRing;
  }

  lemma InRing(e: (nat, nat))
    requires e in Ring()
    ensures e.0 < 4 && e.1 < 2
  {
    hide AcrossRing;
  }

  lemma Wired()
    ensures (0, 1) in Ring() && Ring()[(0, 1)] == (1, 0) && (1, 1) in Ring() && Ring()[(1, 1)] == (2, 0)
    ensures (2, 1) in Ring() && Ring()[(2, 1)] == (3, 0) && (3, 1) in Ring() && Ring()[(3, 1)] == (0, 0)
    ensures (0, 0) in Ring() && Ring()[(0, 0)] == (3, 1) && (3, 0) in Ring() && Ring()[(3, 0)] == (2, 1)
    ensures (2, 0) in Ring() && Ring()[(2, 0)] == (1, 1)
  {
    hide Ring;
    RingAt(0, 0);
    RingAt(0, 1);
    RingAt(1, 1);
    RingAt(2, 0);
    RingAt(2, 1);
    RingAt(3, 0);
    RingAt(3, 1);
  }

  /** A relay hears an announce, and nothing else happens. */
  lemma HearGoes(c: Suite, net: Net, views: map<nat, View>, wire: multiset<Flight>, a: Ad, p: Packet, x: nat, iface: nat,
                 other: nat, now: nat) returns (net': Net)
    requires Lawful(c) && Sound(a) && CopyOf(c, p, a) && Scene(net, views, wire) && x in views
    requires Flight(x, iface, Encode(p)) in wire && iface + other == 1 && (x, other) in Ring()
    requires Ready(c, views[x], a, p, iface, now)
    ensures var f := Flight(x, iface, Encode(p)); var e := Ring()[(x, other)]; var q := Copied(c, views[x].identity, p);
            && Goes(c, net, Receive(f, now, None), net')
            && Scene(net', views[x := Heard(c, views[x], a, p, iface, now)],
                     wire - multiset{f} + multiset{Flight(e.0, e.1, Encode(q))})
            && Queues(c, net, Receive(f, now, None), Encode(q))
  {
    hide Encode, Apply, Exec, Ring, First, CopyOf, Heard, Lawful, Copied, Shows, PacketHash, RouteOf, FindLocal, Prefers,
         Allowed;
    var f := Flight(x, iface, Encode(p));
    HearStep(c, Ring(), net, views, wire, a, p, f, other, now);
    net' := Apply(c, Ring(), net, Receive(f, now, None));
  }

  lemma Sounds(u: Setup)
    requires Proper(u)
    ensures Sound(Ad1(u)) && Sound(Ad2(u))
  {
  }

  /** The host announces. */
  lemma TellGoes(c: Suite, u: Setup, net: Net, views: map<nat, View>, wire: multiset<Flight>, a: Ad, iface: nat)
    returns (net': Net)
    requires Scene(net, views, wire) && 0 in views && views[0] == HostView(u) && (0, iface) in Ring() && Sound(a)
    requires a == Ad(u.host, u.dest, u.name, a.random, u.appData)
    ensures var e := Ring()[(0, iface)];
            && Goes(c, net, Tell(u, a.random, iface), net')
            && Scene(net', views, wire + multiset{Flight(e.0, e.1, Encode(First(c, a)))})
            && Queues(c, net, Tell(u, a.random, iface), Encode(First(c, a)))
  {
    hide Encode, Apply, Exec, Ring, First, Shows;
    FirstStep(c, Ring(), net, views, wire, a, Local(u.name, u.dest, Single(u.prove)), 0, iface);
    net' := Apply(c, Ring(), net, Tell(u, a.random, iface));
  }

  lemma HostTells(c: Suite, u: Setup) returns (n: Net)
    requires Proper(u)
    ensures Goes(c, Start(u), Tell(u, u.r1, 1), n) && Scene(n, V0(u), multiset{ToQ(c, u)})
  {
    hide Encode, Apply, Exec, Ring, First, Goes, Tell, Start, HostView, RelayView, Sound, Scene;
    Wired();
    Sounds(u);
    StartScene(u);
    var none: multiset<Flight> := multiset{};
    n := TellGoes(c, u, Start(u), V0(u), none, Ad1(u), 1);
    assert none + multiset{ToQ(c, u)} == multiset{ToQ(c, u)};
  }

  lemma QHears(c: Suite, u: Setup, net: Net) returns (n: Net)
    requires Lawful(c) && Proper(u) && Scene(net, V0(u), multiset{ToQ(c, u)})
    ensures Goes(c, net, Receive(ToQ(c, u), u.now, None), n) && Scene(n, V1(c, u), multiset{ToY(c, u)})
  {
    hide Encode, Apply, Exec, Ring, First, Goes, Shows, Ready, Heard, Copied, CopyOf, Lawful, Sound, Scene;
    Wired();
    Sounds(u);
    LawfulSized(c);
    Chain(c, u);
    FreshReady(c, u.q, Ad1(u), First(c, Ad1(u)), 0, u.now);
    n := HearGoes(c, net, V0(u), multiset{ToQ(c, u)}, Ad1(u), First(c, Ad1(u)), 1, 0, 1, u.now);
    assert multiset{ToQ(c, u)} - multiset{ToQ(c, u)} + multiset{ToY(c, u)} == multiset{ToY(c, u)};
  }

  lemma YHears(c: Suite, u: Setup, net: Net) returns (n: Net)
    requires Lawful(c) && Proper(u) && Scene(net, V1(c, u), multiset{ToY(c, u)})
    ensures Goes(c, net, Receive(ToY(c, u), u.now, None), n) && Scene(n, V2(c, u), multiset{ToX(c, u)})
  {
    hide Encode, Apply, Exec, Ring, First, Goes, Shows, Ready, Heard, Copied, CopyOf, Lawful, Sound, Scene, P1, Q1;
    Wired();
    Sounds(u);
    LawfulSized(c);
    Chain(c, u);
    FreshReady(c, u.y, Ad1(u), P1(c, u), 0, u.now);
    n := HearGoes(c, net, V1(c, u), multiset{ToY(c, u)}, Ad1(u), P1(c, u), 2, 0, 1, u.now);
    assert multiset{ToY(c, u)} - multiset{ToY(c, u)} + multiset{ToX(c, u)} == multiset{ToX(c, u)};
  }

  lemma XHears(c: Suite, u: Setup, net: Net) returns (n: Net)
    requires Lawful(c) && Proper(u) && Scene(net, V2(c, u), multiset{ToX(c, u)})
    ensures Goes(c, net, Receive(ToX(c, u), u.now, None), n) && Scene(n, V3(c, u), multiset{Round(c, u)})
  {
    hide Encode, Apply, Exec, Ring, First, Goes, Shows, Ready, Heard, Copied, CopyOf, Lawful, Sound, Scene, P2, Q1, Y1;
    Wired();
    Sounds(u);
    LawfulSized(c);
    Chain(c, u);
    FreshReady(c, u.x, Ad1(u), P2(c, u), 0, u.now);
    n := HearGoes(c, net, V2(c, u), multiset{ToX(c, u)}, Ad1(u), P2(c, u), 3, 0, 1, u.now);
    assert multiset{ToX(c, u)} - multiset{ToX(c, u)} + multiset{Round(c, u)} == multiset{Round(c, u)};
  }

  lemma XRoute(c: Suite, u: Setup)
    requires Sized(c) && Proper(u)
    ensures u.dest in X1(c, u).paths && Live(X1(c, u).paths, u.now)
    ensures var path := X1(c, u).paths[u.dest];
            && path == RouteOf(c, u.host, P2(c, u).(hops := 3), u.r1, 0, u.now)
            && path.iface == 0 && path.nextHop == Some(IdentityHash(c, u.y)) && path.public == Public(c, u.host) && path.hops == 3
  {
    Chain(c, u);
    hide First, CopyOf, IdentityHash, Public, P2, P1, PacketHash;
  }

  /** Node 3 sends the message on its route of three hops. */
  lemma XWrites(c: Suite, u: Setup, net: Net) returns (n: Net)
    requires Lawful(c) && Proper(u) && Scene(net, V3(c, u), multiset{Round(c, u)})
    ensures Goes(c, net, Write(u), n) && Scene(n, V3(c, u), multiset{Round(c, u), Letter(c, u)})
  {
    hide Encode, Apply, Exec, Ring, First, CopyOf, Lawful, P2, Q1, Y1, X1, Encrypt, MessagePacket, IdentityHash, Public,
         RouteOf, Shows, Allowed, Round;
    Wired();
    LawfulSized(c);
    XRoute(c, u);
    MessageStep(c, Ring(), net, V3(c, u), multiset{Round(c, u)}, Message(c, u), 3, u.ephemeral, u.iv, false, u.now);
    n := Apply(c, Ring(), net, Write(u));
    assert multiset{Round(c, u)} + multiset{Letter(c, u)} == multiset{Round(c, u), Letter(c, u)};
  }

  /** The host announces again, on its other interface. */
  lemma HostTellsAgain(c: Suite, u: Setup, net: Net) returns (n: Net)
    requires Proper(u) && Scene(net, V3(c, u), multiset{Round(c, u), Letter(c, u)})
    ensures Goes(c, net, Tell(u, u.r2, 0), n)
    ensures Scene(n, V3(c, u), multiset{Round(c, u), Letter(c, u), BackToX(c, u)})
    ensures Queues(c, net, Tell(u, u.r2, 0), BackToX(c, u).bytes)
  {
    hide Encode, Apply, Exec, Ring, First, Goes, Shows, Tell, Q1, Y1, X1, Letter, Round, Sound;
    Wired();
    Sounds(u);
    n := TellGoes(c, u, net, V3(c, u), multiset{Round(c, u), Letter(c, u)}, Ad2(u), 0);
    assert multiset{Round(c, u), Letter(c, u)} + multiset{BackToX(c, u)}
           == multiset{Round(c, u), Letter(c, u), BackToX(c, u)};
  }

  /** Node 3 learns the direct route and passes the announce to node 2. */
  lemma XHearsAgain(c: Suite, u: Setup, net: Net) returns (n: Net)
    requires Lawful(c) && Proper(u) && Apart(c, u)
    requires Scene(net, V3(c, u), multiset{Round(c, u), Letter(c, u), BackToX(c, u)})
    ensures Goes(c, net, Receive(BackToX(c, u), u.now, None), n)
    ensures Scene(n, V4(c, u), multiset{Round(c, u), Letter(c, u), BackToY(c, u)})
    ensures Queues(c, net, Receive(BackToX(c, u), u.now, None), BackToY(c, u).bytes)
  {
    hide Encode, Apply, Exec, Ring, First, Goes, Shows, Ready, Heard, Copied, CopyOf, Lawful, Sound, Scene, Q1, Y1, Letter, Round,
         Apart;
    Wired();
    Sounds(u);
    LawfulSized(c);
    Chain(c, u);
    ShorterReady(c, u);
    XIdentity(c, u);
    var wire := multiset{Round(c, u), Letter(c, u), BackToX(c, u)};
    n := HearGoes(c, net, V3(c, u), wire, Ad2(u), First(c, Ad2(u)), 3, 1, 0, u.now);
    assert wire - multiset{BackToX(c, u)} + multiset{BackToY(c, u)}
           == multiset{Round(c, u), Letter(c, u), BackToY(c, u)};
  }

  lemma XIdentity(c: Suite, u: Setup)
    requires Proper(u)
    ensures X1(c, u).identity == u.x && Y1(c, u).identity == u.y
  {
    hide RouteOf, First, P1, P2, PacketHash;
  }

  /** Node 2 takes the newer announce of equal length: its route turns to node 3. */
  lemma YHearsAgain(c: Suite, u: Setup, net: Net) returns (n: Net)
    requires Lawful(c) && Proper(u) && Apart(c, u)
    requires Scene(net, V4(c, u), multiset{Round(c, u), Letter(c, u), BackToY(c, u)})
    ensures Goes(c, net, Receive(BackToY(c, u), u.now, None), n)
    ensures Scene(n, V5(c, u), multiset{Round(c, u), Letter(c, u), BackToQ(c, u)})
    ensures Queues(c, net, Receive(BackToY(c, u), u.now, None), BackToQ(c, u).bytes)
  {
    hide Encode, Apply, Exec, Ring, First, Goes, Shows, Ready, Heard, Copied, CopyOf, Lawful, Sound, Scene, Q1, Y1, X1, X2, R1,
         Letter, Round, Apart;
    Wired();
    Sounds(u);
    LawfulSized(c);
    Chain(c, u);
    NewerReady(c, u);
    XIdentity(c, u);
    var wire := multiset{Round(c, u), Letter(c, u), BackToY(c, u)};
    n := HearGoes(c, net, V4(c, u), wire, Ad2(u), R1(c, u), 2, 1, 0, u.now);
    assert wire - multiset{BackToY(c, u)} + multiset{BackToQ(c, u)}
           == multiset{Round(c, u), Letter(c, u), BackToQ(c, u)};
  }

  /** The message as node 2 reads it, and node 2's route. */
  lemma MailReads(c: Suite, u: Setup)
    requires Sized(c) && Proper(u)
    ensures var p := Mail(c, u);
            && Decode(Letter(c, u).bytes) == Ok(p) && Carries(p, Message(c, u)) && p.headerType == HEADER_2 && p.hops == 0
            && PacketHash(c, p) == ParcelKey(c, Message(c, u)) && IsParcel(c, Message(c, u), Letter(c, u).bytes)
  {
    hide Encode, Decode, Encrypt, Public, PacketHash, ParcelHash, First, Announces.Timestamp, P1;
    Chain(c, u);
    HashSize(c, u.y);
    var p := Mail(c, u);
    DecodeEncode(p);
    CarriedHash(c, p, Message(c, u));
  }

  lemma YRoute(c: Suite, u: Setup)
    requires Proper(u)
    ensures var v := Y2(c, u);
            && u.dest in v.paths && v.paths[u.dest].iface == 1 && Live(v.paths, u.now) && v.locals == []
            && v.packets == {PacketHash(c, First(c, Ad1(u))), PacketHash(c, First(c, Ad2(u)))}
  {
    hide First, P1, R1, PacketHash, Public;
  }

  /** The message reaches node 2 on the interface its route leads to, and is dropped. */
  lemma YDrops(c: Suite, u: Setup, net: Net) returns (n: Net)
    requires Lawful(c) && Proper(u) && Apart(c, u)
    requires Scene(net, V5(c, u), multiset{Round(c, u), Letter(c, u), BackToQ(c, u)})
    ensures Goes(c, net, Receive(Letter(c, u), u.now, None), n)
    ensures n.wire == multiset{Round(c, u), BackToQ(c, u)} && n.nodes.Keys == net.nodes.Keys
    ensures Scene(n, V6(c, u), n.wire)
  {
    hide Encode, Decode, Apply, Exec, Ring, First, Shows, Lawful, Q1, Y2, X2, Mail, Round, BackToQ, PacketHash, ParcelKey,
         Encrypt, Carries, IsParcel, Allowed;
    LawfulSized(c);
    MailReads(c, u);
    YRoute(c, u);
    var wire := multiset{Round(c, u), Letter(c, u), BackToQ(c, u)};
    MailFields(c, u);
    DropStep(c, Ring(), net, V5(c, u), wire, Mail(c, u), Letter(c, u), u.now);
    n := Apply(c, Ring(), net, Receive(Letter(c, u), u.now, None));
    assert wire - multiset{Letter(c, u)} == multiset{Round(c, u), BackToQ(c, u)};
  }

  lemma MailFields(c: Suite, u: Setup)
    requires Proper(u)
    ensures Mail(c, u).packetType == DATA && Mail(c, u).destType == SINGLE && Mail(c, u).dest == u.dest
  {
    hide Encrypt, RouteOf;
  }

  // ------------------------------------------------------------------ what the run shows

  /** What is known of the nodes after `i` steps. */
  function KnownAt(c: Suite, u: Setup, i: nat): map<nat, View>
    requires Proper(u)
  {
    if i <= 1 then V0(u) else if i == 2 then V1(c, u) else if i == 3 then V2(c, u)
    else if i <= 6 then V3(c, u) else if i == 7 then V4(c, u) else if i == 8 then V5(c, u) else V6(c, u)
  }

  /** The bytes a node queues in the steps after the message was sent. */
  function QueuedIn(c: Suite, u: Setup, i: nat): Bytes {
    if i == 5 then BackToX(c, u).bytes else if i == 6 then BackToY(c, u).bytes else BackToQ(c, u).bytes
  }

  /** The states of the run. */
  ghost predicate Played(c: Suite, u: Setup, run: seq<Net>) {
    && Proper(u) && |run| == 10 && run[0] == Start(u)
    && (forall i | 0 <= i < 9 :: Goes(c, run[i], Steps(c, u)[i], run[i + 1]))
    && (forall i | 0 <= i < 10 :: Scene(run[i], KnownAt(c, u, i), run[i].wire))
    && run[4].wire == multiset{Round(c, u)} && run[9].wire == multiset{Round(c, u), BackToQ(c, u)}
    && (forall i | 5 <= i < 8 :: Queues(c, run[i], Steps(c, u)[i], QueuedIn(c, u, i)))
  }

  lemma SceneWire(net: Net, views: map<nat, View>, wire: multiset<Flight>)
    requires Scene(net, views, wire)
    ensures net.wire == wire && Scene(net, views, net.wire)
  {
  }

  lemma StartScene(u: Setup)
    ensures Scene(Start(u), V0(u), multiset{})
  {
  }

  lemma Scenes(c: Suite, u: Setup, n0: Net, n1: Net, n2: Net, n3: Net, n4: Net, n5: Net, n6: Net, n7: Net, n8: Net, n9: Net)
    requires Proper(u)
    requires Scene(n0, V0(u), n0.wire) && Scene(n1, V0(u), n1.wire) && Scene(n2, V1(c, u), n2.wire)
    requires Scene(n3, V2(c, u), n3.wire) && Scene(n4, V3(c, u), n4.wire) && Scene(n5, V3(c, u), n5.wire)
    requires Scene(n6, V3(c, u), n6.wire) && Scene(n7, V4(c, u), n7.wire) && Scene(n8, V5(c, u), n8.wire)
    requires Scene(n9, V6(c, u), n9.wire)
    ensures var run := [n0, n1, n2, n3, n4, n5, n6, n7, n8, n9];
            forall i | 0 <= i < 10 :: Scene(run[i], KnownAt(c, u, i), run[i].wire)
  {
    hide Scene, V0, V1, V2, V3, V4, V5, V6;
  }

  lemma Going(c: Suite, u: Setup, n0: Net, n1: Net, n2: Net, n3: Net, n4: Net, n5: Net, n6: Net, n7: Net, n8: Net, n9: Net)
    requires Proper(u) && Goes(c, n0, Tell(u, u.r1, 1), n1) && Goes(c, n1, Receive(ToQ(c, u), u.now, None), n2)
    requires Goes(c, n2, Receive(ToY(c, u), u.now, None), n3) && Goes(c, n3, Receive(ToX(c, u), u.now, None), n4)
    requires Goes(c, n4, Write(u), n5) && Goes(c, n5, Tell(u, u.r2, 0), n6)
    requires Goes(c, n6, Receive(BackToX(c, u), u.now, None), n7) && Goes(c, n7, Receive(BackToY(c, u), u.now, None), n8)
    requires Goes(c, n8, Receive(Letter(c, u), u.now, None), n9)
    ensures var run := [n0, n1, n2, n3, n4, n5, n6, n7, n8, n9];
            forall i | 0 <= i < 9 :: Goes(c, run[i], Steps(c, u)[i], run[i + 1])
  {
    hide Goes, Tell, Write, ToQ, ToY, ToX, BackToX, BackToY, Letter;
  }

  /** Up to the sending of the message. */
  lemma Opening(c: Suite, u: Setup) returns (n1: Net, n2: Net, n3: Net, n4: Net, n5: Net)
    requires Lawful(c) && Proper(u)
    ensures Goes(c, Start(u), Tell(u, u.r1, 1), n1) && Goes(c, n1, Receive(ToQ(c, u), u.now, None), n2)
    ensures Goes(c, n2, Receive(ToY(c, u), u.now, None), n3) && Goes(c, n3, Receive(ToX(c, u), u.now, None), n4)
    ensures Goes(c, n4, Write(u), n5)
    ensures Scene(Start(u), V0(u), Start(u).wire) && Scene(n1, V0(u), n1.wire) && Scene(n2, V1(c, u), n2.wire)
    ensures Scene(n3, V2(c, u), n3.wire) && Scene(n4, V3(c, u), n4.wire) && n4.wire == multiset{Round(c, u)}
    ensures Scene(n5, V3(c, u), multiset{Round(c, u), Letter(c, u)})
  {
    hide Encode, Apply, Exec, Goes, Scene, Lawful, Start, First, V0, V1, V2, V3, ToQ, ToY, ToX, Round, Letter, Tell, Write, Proper;
    StartScene(u);
    SceneWire(Start(u), V0(u), multiset{});
    n1 := HostTells(c, u);
    SceneWire(n1, V0(u), multiset{ToQ(c, u)});
    n2 := QHears(c, u, n1);
    SceneWire(n2, V1(c, u), multiset{ToY(c, u)});
    n3 := YHears(c, u, n2);
    SceneWire(n3, V2(c, u), multiset{ToX(c, u)});
    n4 := XHears(c, u, n3);
    SceneWire(n4, V3(c, u), multiset{Round(c, u)});
    n5 := XWrites(c, u, n4);
  }

  /** From there on. */
  lemma Closing(c: Suite, u: Setup, n5: Net) returns (n6: Net, n7: Net, n8: Net, n9: Net)
    requires Lawful(c) && Proper(u) && Apart(c, u) && Scene(n5, V3(c, u), multiset{Round(c, u), Letter(c, u)})
    ensures Goes(c, n5, Tell(u, u.r2, 0), n6)
    ensures Goes(c, n6, Receive(BackToX(c, u), u.now, None), n7) && Goes(c, n7, Receive(BackToY(c, u), u.now, None), n8)
    ensures Goes(c, n8, Receive(Letter(c, u), u.now, None), n9)
    ensures Scene(n5, V3(c, u), n5.wire) && Scene(n6, V3(c, u), n6.wire) && Scene(n7, V4(c, u), n7.wire)
    ensures Scene(n8, V5(c, u), n8.wire) && Scene(n9, V6(c, u), n9.wire)
    ensures n9.wire == multiset{Round(c, u), BackToQ(c, u)} && Queues(c, n5, Tell(u, u.r2, 0), BackToX(c, u).bytes)
    ensures Queues(c, n6, Receive(BackToX(c, u), u.now, None), BackToY(c, u).bytes)
    ensures Queues(c, n7, Receive(BackToY(c, u), u.now, None), BackToQ(c, u).bytes)
  {
    hide Encode, Apply, Exec, Goes, Scene, Lawful, Apart, First, V3, V4, V5, V6, Round, BackToX, BackToY, BackToQ, Letter, Queues,
         Tell, Proper;
    SceneWire(n5, V3(c, u), multiset{Round(c, u), Letter(c, u)});
    n6 := HostTellsAgain(c, u, n5);
    SceneWire(n6, V3(c, u), multiset{Round(c, u), Letter(c, u), BackToX(c, u)});
    n7 := XHearsAgain(c, u, n6);
    SceneWire(n7, V4(c, u), multiset{Round(c, u), Letter(c, u), BackToY(c, u)});
    n8 := YHearsAgain(c, u, n7);
    SceneWire(n8, V5(c, u), multiset{Round(c, u), Letter(c, u), BackToQ(c, u)});
    n9 := YDrops(c, u, n8);
  }

  lemma Play(c: Suite, u: Setup) returns (run: seq<Net>)
    requires Lawful(c) && Proper(u) && Apart(c, u)
    ensures Played(c, u, run)
  {
    hide Encode, Apply, Exec, Goes, Scene, Lawful, Apart, Start, First, V0, V1, V2, V3, V4, V5, V6, ToQ, ToY, ToX, Round, BackToX,
         BackToY, BackToQ, Letter, Queues, Tell, Write, KnownAt, Proper;
    var n1, n2, n3, n4, n5 := Opening(c, u);
    var n6, n7, n8, n9 := Closing(c, u, n5);
    Scenes(c, u, Start(u), n1, n2, n3, n4, n5, n6, n7, n8, n9);
    Going(c, u, Start(u), n1, n2, n3, n4, n5, n6, n7, n8, n9);
    run := [Start(u), n1, n2, n3, n4, n5, n6, n7, n8, n9];
    Queuing(c, u, run);
  }

  lemma Queuing(c: Suite, u: Setup, run: seq<Net>)
    requires Proper(u) && |run| == 10 && Queues(c, run[5], Tell(u, u.r2, 0), BackToX(c, u).bytes)
    requires Queues(c, run[6], Receive(BackToX(c, u), u.now, None), BackToY(c, u).bytes)
    requires Queues(c, run[7], Receive(BackToY(c, u), u.now, None), BackToQ(c, u).bytes)
    ensures forall i | 5 <= i < 8 :: Queues(c, run[i], Steps(c, u)[i], QueuedIn(c, u, i))
  {
    hide Queues, Tell, Write, ToQ, ToY, ToX, BackToX, BackToY, BackToQ, Letter;
  }

  // ------------------------------------------------------------------ what it shows

  lemma RingIsMutual(e: (nat, nat))
    requires e in Ring()
    ensures e.0 < 4 && Ring()[e] in Ring() && Ring()[Ring()[e]] == e
  {
    hide Ring;
    InRing(e);
    RingAt(e.0, e.1);
    var d := AcrossRing(e.0, e.1);
    RingAt(d.0, d.1);
  }

  lemma StartNodes(u: Setup, x: nat)
    requires x < 4
    ensures x in Start(u).nodes
  {
  }

  lemma StartIsFresh(u: Setup)
    ensures PointToPoint(Ring(), Start(u))
    ensures Fresh(Start(u))
  {
    hide Ring, Start;
    forall e | e in Ring() ensures e.0 in Start(u).nodes && Ring()[e] in Ring() && Ring()[Ring()[e]] == e {
      RingIsMutual(e);
      StartNodes(u, e.0);
    }
    StartLearnedNothing(u);
  }

  lemma StartLearnedNothing(u: Setup)
    ensures Fresh(Start(u))
  {
  }

  lemma Went(c: Suite, a: Net, s: Step, b: Net)
    requires Goes(c, a, s, b)
    ensures Allowed(a, s) && b == Apply(c, Ring(), a, s)
  {
  }

  lemma PlayedIsRun(c: Suite, u: Setup, run: seq<Net>)
    requires Played(c, u, run)
    ensures IsRun(c, Ring(), Start(u), Steps(c, u), run) && |Steps(c, u)| == 9
  {
    hide Apply, Scene, Ring, Start, KnownAt, Tell, Write, ToQ, ToY, ToX, BackToX, BackToY, Letter, Queues, Goes, InTime,
         Unexpired, Typed, IsAnnounce;
    forall i | 0 <= i < 9
      ensures Allowed(run[i], Steps(c, u)[i]) && run[i + 1] == Apply(c, Ring(), run[i], Steps(c, u)[i])
    {
      Went(c, run[i], Steps(c, u)[i], run[i + 1]);
    }
  }

  /** Node 0 hosts the destination, the others host nothing. */
  ghost predicate Roles(u: Setup, views: map<nat, View>) {
    views.Keys == {0, 1, 2, 3} && views[0] == HostView(u) && views[1].locals == views[2].locals == views[3].locals == []
  }

  lemma KnownRoles(c: Suite, u: Setup, i: nat)
    requires Proper(u)
    ensures Roles(u, KnownAt(c, u, i))
  {
    hide RouteOf, First, P1, P2, R1, PacketHash, ParcelKey, Message;
  }

  lemma RolesSole(u: Setup, net: Net, views: map<nat, View>)
    requires Roles(u, views) && Scene(net, views, net.wire)
    ensures SoleHost(net, 0, u.dest)
  {
    var l := Local(u.name, u.dest, Single(u.prove));
    assert Shows(net.nodes[0], views[0]) && FindLocal([l], u.dest) == Some(l);
    forall y | Hosts(net, y, u.dest) ensures y == 0 {
      assert Shows(net.nodes[y], views[y]);
    }
  }

  lemma HostAlone(c: Suite, u: Setup, run: seq<Net>, i: nat)
    requires Played(c, u, run) && i < 10
    ensures SoleHost(run[i], 0, u.dest)
  {
    hide Goes, Scene, Queues, KnownAt, Roles, SoleHost;
    KnownRoles(c, u, i);
    RolesSole(u, run[i], KnownAt(c, u, i));
  }

  /** No copy of the announces is taken for the message. */
  lemma AdNotParcel(c: Suite, u: Setup, a: Ad, p: Packet)
    requires CopyOf(c, p, a) && ParcelKey(c, Message(c, u)) != PacketHash(c, First(c, a))
    ensures !IsParcel(c, Message(c, u), Encode(p))
  {
    CopyDecodes(c, p, a);
    CopyHash(c, p, a);
    hide First, CopyOf, Decode, Encode, PacketHash, ParcelHash;
  }

  lemma AdsNotParcel(c: Suite, u: Setup)
    requires Lawful(c) && Proper(u) && Apart(c, u)
    ensures var m := Message(c, u);
            && !IsParcel(c, m, Round(c, u).bytes) && !IsParcel(c, m, BackToX(c, u).bytes)
            && !IsParcel(c, m, BackToY(c, u).bytes) && !IsParcel(c, m, BackToQ(c, u).bytes)
  {
    hide First, CopyOf, Encode, IsParcel, PacketHash, ParcelKey, P3, R1, R2, Message, Lawful;
    LawfulSized(c);
    Chain(c, u);
    AdNotParcel(c, u, Ad1(u), P3(c, u));
    AdNotParcel(c, u, Ad2(u), First(c, Ad2(u)));
    AdNotParcel(c, u, Ad2(u), R1(c, u));
    AdNotParcel(c, u, Ad2(u), R2(c, u));
  }

  lemma KnownPackets(c: Suite, u: Setup)
    requires Proper(u)
    ensures forall y | y in V3(c, u) :: V3(c, u)[y].packets <= {PacketHash(c, First(c, Ad1(u)))}
    ensures V3(c, u)[3] == X1(c, u) && X1(c, u).locals == []
  {
    hide First, P1, P2, PacketHash, RouteOf;
  }

  lemma SceneUnseen(net: Net, views: map<nat, View>, key: Bytes)
    requires Scene(net, views, net.wire) && forall y | y in views :: key !in views[y].packets
    ensures forall y | y in net.nodes :: key !in net.nodes[y].t.seenPackets
  {
    forall y | y in net.nodes ensures key !in net.nodes[y].t.seenPackets {
      assert Shows(net.nodes[y], views[y]);
    }
  }

  /** The message is new when node 3 sends it. */
  lemma NewMessage(c: Suite, u: Setup, run: seq<Net>)
    requires Lawful(c) && Proper(u) && Apart(c, u) && Played(c, u, run)
    ensures NeverSeen(c, run[4], Message(c, u))
  {
    hide Goes, Queues, First, IsParcel, PacketHash, ParcelKey, Lawful, Round, Scene, V3, Message;
    AdsNotParcel(c, u);
    KnownPackets(c, u);
    assert Scene(run[4], V3(c, u), run[4].wire);
    SceneUnseen(run[4], V3(c, u), ParcelKey(c, Message(c, u)));
  }

  lemma SendsIt(c: Suite, u: Setup, run: seq<Net>)
    requires Sized(c) && Played(c, u, run)
    ensures Sends(c, run[4], Message(c, u), 3, Steps(c, u)[4])
  {
    hide Goes, Queues, First, X1, V3, Shows, PacketHash, Encrypt, Public, Round, Sends, Message, ToQ, ToY, ToX, BackToX, BackToY,
         Letter, Write;
    KnownPackets(c, u);
    KeysOfV3(c, u);
    assert Scene(run[4], V3(c, u), run[4].wire);
    assert Shows(run[4].nodes[3], X1(c, u));
    WriteSends(c, u, run[4]);
  }

  lemma WriteSends(c: Suite, u: Setup, net: Net)
    requires Sized(c) && Proper(u) && 3 in net.nodes && Shows(net.nodes[3], X1(c, u)) && X1(c, u).locals == []
    ensures Sends(c, net, Message(c, u), 3, Write(u))
  {
    hide X1, Encrypt, Public, FindLocal, RouteOf, IdentityHash;
    XRoute(c, u);
    NoLocal(net.nodes[3].t, u.dest);
  }

  lemma KeysOfV3(c: Suite, u: Setup)
    requires Proper(u)
    ensures 3 in V3(c, u)
  {
  }

  lemma NoLocal(t: Transport, dest: Bytes)
    requires t.locals == []
    ensures !IsLocal(t, dest)
  {
  }

  /** No step after the sending forges, resends or loses the message, and none before its arrival is about it. */
  lemma NothingTampered(c: Suite, u: Setup, run: seq<Net>, i: nat, had: set<nat>)
    requires Lawful(c) && Apart(c, u) && Played(c, u, run) && 5 <= i < 9
    ensures Untampered(c, run[i], Message(c, u), had, Steps(c, u)[i])
    ensures i < 8 ==> !Moves(c, Message(c, u), Steps(c, u)[i])
  {
    hide Exec, Scene, KnownAt, First, IsParcel, Lawful, Apart, Message, R1, R2, Encode, Mail, Goes;
    AdsNotParcel(c, u);
    assert Goes(c, run[i], Steps(c, u)[i], run[i + 1]);
    LetterIsParcel(c, u);
    if i < 8 {
      assert Queues(c, run[i], Steps(c, u)[i], QueuedIn(c, u, i));
    } else {
      GoesAt(c, run[8], Letter(c, u), u.now, run[9]);
    }
  }

  lemma GoesAt(c: Suite, a: Net, f: Flight, now: nat, b: Net)
    requires Goes(c, a, Receive(f, now, None), b)
    ensures f.to in a.nodes
  {
  }

  lemma LetterIsParcel(c: Suite, u: Setup)
    requires Lawful(c) && Proper(u)
    ensures IsParcel(c, Message(c, u), Letter(c, u).bytes)
  {
    hide Lawful, IsParcel, Letter, Message, Mail;
    LawfulSized(c);
    MailReads(c, u);
  }

  lemma HadAfterSending(c: Suite, u: Setup, run: seq<Net>, i: nat)
    requires Lawful(c) && Apart(c, u) && Played(c, u, run) && 5 <= i < 9
    ensures HadAt(c, Message(c, u), 3, Steps(c, u), 5, i) == {3}
    decreases i
  {
    hide Played, Lawful, Apart, Message, Moves, Untampered, Steps;
    StepCount(c, u, run);
    if i > 5 {
      HadAfterSending(c, u, run, i - 1);
      NothingTampered(c, u, run, i - 1, {});
    }
  }

  lemma StepCount(c: Suite, u: Setup, run: seq<Net>)
    requires Played(c, u, run)
    ensures |Steps(c, u)| == 9 && |run| == 10
  {
    hide Goes, Scene, Queues, KnownAt;
  }

  /** Node 3, which had the message, comes closer in the one step in which it hears the second announce. */
  lemma OneUnsteady(c: Suite, u: Setup, run: seq<Net>, i: nat)
    requires Lawful(c) && Played(c, u, run) && 5 <= i < 9
    ensures Steady(run[i], run[i + 1], Message(c, u), {3}) <==> i != 6
  {
    hide Goes, Queues, KnownAt, Scene, Lawful, FindLocal, Message, Steady, Routes, Hops;
    KnownHops(c, u, i);
    KnownHops(c, u, i + 1);
    SceneHops(u, run[i], KnownAt(c, u, i));
    SceneHops(u, run[i + 1], KnownAt(c, u, i + 1));
    MessageDest(c, u);
    UnsteadyIfShorter(run[i], run[i + 1], Message(c, u), 3);
  }

  lemma UnsteadyIfShorter(a: Net, b: Net, m: Parcel, v: nat)
    requires Routes(a, v, m.dest) && Routes(b, v, m.dest)
    ensures Steady(a, b, m, {v}) <==> Hops(a, v, m.dest) <= Hops(b, v, m.dest)
  {
    hide Routes, Hops;
  }

  lemma MessageDest(c: Suite, u: Setup)
    ensures Message(c, u).dest == u.dest
  {
    hide Encrypt;
  }

  lemma KnownHops(c: Suite, u: Setup, i: nat)
    requires Lawful(c) && Proper(u) && 5 <= i < 10
    ensures var views := KnownAt(c, u, i);
            && 3 in views && views[3].locals == [] && u.dest in views[3].paths
            && views[3].paths[u.dest].hops == if i <= 6 then 3 else 1
  {
    hide First, P1, P2, R1, PacketHash, Lawful, Message, ParcelKey, Public;
    LawfulSized(c);
    Chain(c, u);
  }

  lemma SceneHops(u: Setup, net: Net, views: map<nat, View>)
    requires Scene(net, views, net.wire) && 3 in views && views[3].locals == [] && u.dest in views[3].paths
    ensures Routes(net, 3, u.dest) && Hops(net, 3, u.dest) == views[3].paths[u.dest].hops
  {
    assert Shows(net.nodes[3], views[3]);
    NoLocal(net.nodes[3].t, u.dest);
  }

  lemma NeverReported(c: Suite, u: Setup, run: seq<Net>)
    requires Played(c, u, run)
    ensures forall i | 0 <= i < 9 ::
              && !Reports(c, run[i], Message(c, u), Steps(c, u)[i])
              && !Steps(c, u)[i].Lose? && !Steps(c, u)[i].Duplicate?
  {
    hide Exec, Goes, Queues, KnownAt, Scene, IsParcel, Encode, First, Mail, P1, P2, R1, Encrypt;
  }

  /** What node 3 had learned does not carry its message: in this run from a fresh network one host stays alone,
      every step is allowed, the message is new when it is sent on a route of three hops, and nothing is lost, copied
      or forged; all that ever happens to those that had the message is that node 3 once comes closer to the host.
      Yet no step reports the message, and in the end no copy of it is in flight. */
  lemma DroppedWithoutLoss(c: Suite, u: Setup) returns (run: seq<Net>)
    requires Lawful(c) && Proper(u) && Apart(c, u)
    ensures PointToPoint(Ring(), Start(u)) && Fresh(Start(u)) && |Steps(c, u)| == 9
    ensures IsRun(c, Ring(), Start(u), Steps(c, u), run)
    ensures forall i | 0 <= i < 9 :: !Steps(c, u)[i].Lose? && !Steps(c, u)[i].Duplicate?
    ensures forall i | 0 <= i < 10 :: SoleHost(run[i], 0, u.dest)
    ensures Sends(c, run[4], Message(c, u), 3, Steps(c, u)[4]) && NeverSeen(c, run[4], Message(c, u))
    ensures forall i | 5 <= i < 9 ::
              && HadAt(c, Message(c, u), 3, Steps(c, u), 5, i) == {3}
              && Untampered(c, run[i], Message(c, u), {3}, Steps(c, u)[i])
              && (Steady(run[i], run[i + 1], Message(c, u), {3}) <==> i != 6)
    ensures forall i | 0 <= i < 9 :: !Reports(c, run[i], Message(c, u), Steps(c, u)[i])
    ensures forall g | g in run[9].wire :: !IsParcel(c, Message(c, u), g.bytes)
  {
    hide Lawful, Apart, Message, Steps, Start, Ring, Untampered, Steady, Reports, Sends, NeverSeen, SoleHost, HadAt, IsParcel,
         Round, BackToQ, Goes, Scene, Queues, KnownAt;
    LawfulSized(c);
    StartIsFresh(u);
    run := Play(c, u);
    PlayedIsRun(c, u, run);
    NeverReported(c, u, run);
    SendsIt(c, u, run);
    NewMessage(c, u, run);
    AdsNotParcel(c, u);
    forall i | 0 <= i < 10 ensures SoleHost(run[i], 0, u.dest) {
      HostAlone(c, u, run, i);
    }
    forall i | 5 <= i < 9
      ensures HadAt(c, Message(c, u), 3, Steps(c, u), 5, i) == {3}
      ensures Untampered(c, run[i], Message(c, u), {3}, Steps(c, u)[i])
      ensures Steady(run[i], run[i + 1], Message(c, u), {3}) <==> i != 6
    {
      HadAfterSending(c, u, run, i);
      NothingTampered(c, u, run, i, {3});
      OneUnsteady(c, u, run, i);
    }
  }

  // ------------------------------------------------------------------ such a run exists

  /** What tells announces apart in the digest below: the first byte of their random hash. */
  function Tag(m: Bytes): Byte {
    if |m| > 92 && m[0] == 1 then m[92] else 0
  }

  const TAGGING_SUITE: Suite :=
    Suite(m => [Tag(m)] + Zeros(31), _ => Zeros(32), _ => Zeros(32), (_, _) => Zeros(64), (_, _) => Zeros(64),
          (_, _) => Zeros(64), (_, _, _) => true, (_, m, _) => Zeros(64) + m, (_, sealed) => PlainOpen(sealed))

  lemma TaggingIsLawful()
    ensures Lawful(TAGGING_SUITE)
  {
    hide Zeros, PlainOpen, Tag;
    forall m: Bytes ensures PlainOpen(Zeros(64) + m) == Ok(m) {
      PlainOpens(m);
    }
  }

  function RandomHash(k: Byte): Bytes {
    [k, 0, 0, 0, 0, 0, 0, 0, 0, k]
  }

  lemma RandomTime(k: Byte)
    ensures Announces.Timestamp(RandomHash(k)) == k
  {
    var t: Bytes := RandomHash(k)[5..];
    var t4, t3, t2, t1: Bytes := [0, 0, 0, 0], [0, 0, 0], [0, 0], [0];
    assert t[..4] == t4 && t4[..3] == t3 && t3[..2] == t2 && t2[..1] == t1 && t1[..0] == [];
    assert BigEndian(t1) == 0;
    assert BigEndian(t2) == 0;
    assert BigEndian(t3) == 0;
    assert BigEndian(t4) == 0;
  }

  lemma AdTag(a: Ad)
    requires Sound(a)
    ensures |PacketHash(TAGGING_SUITE, First(TAGGING_SUITE, a))| == 16
    ensures PacketHash(TAGGING_SUITE, First(TAGGING_SUITE, a))[0] == a.random[0]
  {
    var c := TAGGING_SUITE;
    TaggingIsLawful();
    PublicHalves(c, a.id);
    var p := First(c, a);
    var h := HashablePart(p);
    var b := Announces.Build(c, a.id, a.dest, a.name, a.random, a.appData);
    assert h[18..] == p.data && p.data[74..84] == a.random;
    assert h[92] == p.data[74] == a.random[0];
    hide Zeros, Public;
  }

  lemma MessageTag(u: Setup)
    requires Proper(u)
    ensures |ParcelKey(TAGGING_SUITE, Message(TAGGING_SUITE, u))| == 16
    ensures ParcelKey(TAGGING_SUITE, Message(TAGGING_SUITE, u))[0] == 0
  {
    hide Encrypt, Public, Zeros;
    var c := TAGGING_SUITE;
    var h := HashablePart(Header1(SINGLE, DATA, u.dest, NO_CONTEXT, Message(c, u).data));
    assert h[0] == 0;
    assert ParcelHash(c, Message(c, u)) == [Tag(h)] + Zeros(31);
  }

  /** The hypotheses of the run can be met. */
  lemma HypothesesMet() returns (c: Suite, u: Setup)
    ensures Lawful(c) && Proper(u) && Apart(c, u)
  {
    hide First, Message, Zeros, Lawful, PacketHash, ParcelKey, Announces.Timestamp;
    c := TAGGING_SUITE;
    var id := Identity([], []);
    u := Setup(id, id, id, id, Zeros(16), Zeros(10), false, RandomHash(1), RandomHash(2), [], [], [], [], 0);
    TaggingIsLawful();
    RandomTime(1);
    RandomTime(2);
    AdTag(Ad1(u));
    AdTag(Ad2(u));
    MessageTag(u);
  }
}
