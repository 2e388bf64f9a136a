/** One hop of a message on a learned path: what its sender, a relay and its host do with it. */
module Delivery {
  import opened Base
  import opened Crypto
  import opened Packets
  import opened PathTables
  import opened Transports
  import opened Nodes
  import opened Links
  import opened Network
  import opened LoopFreedom
  import opened Authenticity
  import Announces

  /** `host` alone hosts `dest`, as a SINGLE destination. */
  ghost predicate SoleHost(net: Net, host: nat, dest: Bytes) {
    && host in net.nodes
    && FindLocal(net.nodes[host].t.locals, dest).Some? && FindLocal(net.nodes[host].t.locals, dest).value.kind.Single?
    && forall y | Hosts(net, y, dest) :: y == host
  }

  /** The message under way: what the packet carries, its hash, and what its host reads in it. */
  datatype Parcel = Parcel(dest: Bytes, host: nat, data: Bytes, plaintext: Bytes)

  function ParcelHash(c: Suite, m: Parcel): Bytes {
    FullPacketHash(c, Header1(SINGLE, DATA, m.dest, NO_CONTEXT, m.data))
  }

  /** The dedup key of a byte string that decodes. */
  function DedupKey(c: Suite, bytes: Bytes): Option<Bytes> {
    if Decode(bytes).Ok? then Some(PacketHash(c, Decode(bytes).value)) else None
  }

  ghost predicate Carries(p: Packet, m: Parcel) {
    p.packetType == DATA && p.destType == SINGLE && p.dest == m.dest && p.context == NO_CONTEXT && p.data == m.data
  }

  ghost predicate Readable(c: Suite, net: Net, m: Parcel) {
    m.host in net.nodes && Decrypt(c, net.nodes[m.host].t.identity, m.data) == Ok(m.plaintext)
  }

  /** `f` is the parcel as node `x` would send it on its current route, within the hop limit. */
  ghost predicate SentBy(topo: Topology, net: Net, m: Parcel, x: nat, f: Flight) {
    && Routes(net, x, m.dest)
    && var path := net.nodes[x].t.paths[m.dest];
    && (x, path.iface) in topo && topo[(x, path.iface)] == (f.to, f.iface)
    && Decode(f.bytes).Ok?
    && var p := Decode(f.bytes).value;
    && Carries(p, m) && p.hops + path.hops <= MAX_HOPS
    && (path.hops == 1 ==> p.headerType == HEADER_1)
    && (path.hops > 1 ==> p.headerType == HEADER_2 && p.transportId == path.nextHop)
  }

  /** The node that put `g` on its wire. */
  function Sender(topo: Topology, g: Flight): nat {
    if (g.to, g.iface) in topo then Peer(topo, g.to, g.iface) else 0
  }

  /** Node `y` is less than `h` hops from `dest` and is the node `p` is addressed to. */
  ghost predicate Takes(c: Suite, net: Net, dest: Bytes, y: nat, p: Packet, h: nat) {
    && (Hosts(net, y, dest) || (Routes(net, y, dest) && Hops(net, y, dest) < h))
    && (p.headerType == HEADER_1 ==> Hosts(net, y, dest))
    && (p.headerType == HEADER_2 ==>
          net.nodes[y].t.enabled && p.transportId == Some(IdentityHash(c, net.nodes[y].t.identity)))
  }

  /** `g` is a copy of the parcel on its way from a node with a route to a strictly closer one, within the
      hop limit.  The sender's route may have changed since; its hop count counts. */
  ghost predicate Heading(c: Suite, topo: Topology, net: Net, m: Parcel, g: Flight) {
    && (g.to, g.iface) in topo && g.to in net.nodes && Routes(net, Sender(topo, g), m.dest)
    && Decode(g.bytes).Ok?
    && var p := Decode(g.bytes).value;
    && Carries(p, m) && p.hops + Hops(net, Sender(topo, g), m.dest) <= MAX_HOPS && 1 <= Hops(net, Sender(topo, g), m.dest)
    && Takes(c, net, m.dest, g.to, p, Hops(net, Sender(topo, g), m.dest))
  }

  lemma CarriedHash(c: Suite, p: Packet, m: Parcel)
    requires Carries(p, m)
    ensures FullPacketHash(c, p) == ParcelHash(c, m) && PacketHash(c, p) == Truncate(ParcelHash(c, m))
  {
  }

  lemma UnseenPasses(c: Suite, t: Transport, p: Packet, now: nat)
    requires PacketHash(c, p) !in t.seenPackets
    ensures !Seen(c, t, p, now)
  {
  }

  lemma ToDataHandler(c: Suite, p: Packet, m: Parcel)
    requires Carries(p, m)
    ensures Route(c, p) == ToData
  {
  }

  // ------------------------------------------------------------------ one hop

  /** The host decrypts the parcel and reports the message. */
  lemma HostReads(c: Suite, t: Transport, p: Packet, m: Parcel, iface: nat, now: nat)
    requires Carries(p, m) && FindLocal(t.locals, m.dest).Some? && FindLocal(t.locals, m.dest).value.kind.Single?
    requires Decrypt(c, t.identity, m.data) == Ok(m.plaintext)
    requires p.headerType == HEADER_2 ==> t.enabled && p.transportId == Some(IdentityHash(c, t.identity))
    ensures var e := HandleData(c, t, p, iface, now);
            && e.st == t && e.events == [Message(m.dest, m.plaintext)]
            && e.out == if FindLocal(t.locals, m.dest).value.kind.prove then
                          [(iface, Encode(ProofPacket(c, t.identity, ParcelHash(c, m))))]
                        else []
  {
    CarriedHash(c, p, m);
    hide Encode, Decrypt, FindLocal, IdentityHash, ProofPacket, ParcelHash, FullPacketHash;
  }

  /** Everything the relay's checks ask for. */
  ghost predicate RelayReady(c: Suite, t: Transport, p: Packet, m: Parcel, iface: nat, now: nat) {
    && Carries(p, m) && p.headerType == HEADER_2 && p.hops < MAX_HOPS && !IsLocal(t, m.dest)
    && t.enabled && p.transportId == Some(IdentityHash(c, t.identity))
    && Unexpired(t, now) && m.dest in t.paths && t.paths[m.dest].iface != iface
    && (t.paths[m.dest].hops > 1 ==> t.paths[m.dest].nextHop.Some?)
  }

  /** The packet a relay with this route sends on. */
  function PassedOn(path: PathEntry, p: Packet): Packet {
    if path.hops <= 1 then Direct(p) else p.(transportId := path.nextHop)
  }

  /** A relay passes the parcel on along its own route. */
  lemma RelayPasses(c: Suite, t: Transport, p: Packet, m: Parcel, iface: nat, now: nat)
    requires RelayReady(c, t, p, m, iface, now)
    ensures var e := HandleData(c, t, p, iface, now);
            e.st == t && e.events == [] && e.out == [(t.paths[m.dest].iface, Encode(PassedOn(t.paths[m.dest], p)))]
  {
    NothingPruned(t, now);
    hide Encode, FindLocal, IdentityHash;
  }

  /** A parcel sent on a current route is heading to a node that will take it. */
  lemma NextStop(c: Suite, topo: Topology, net: Net, m: Parcel, x: nat, f: Flight)
    requires Inv(c, topo, net) && SentBy(topo, net, m, x, f)
    ensures Sender(topo, f) == x && Heading(c, topo, net, m, f)
  {
    assert NodeOk(c, topo, net, x);
    assert Backed(c, topo, net, x, m.dest, net.nodes[x].t.paths[m.dest]);
    hide Decode, IdentityHash, FindLocal;
    var y := NextHop(c, topo, net, m.dest, x);
    assert Decode(f.bytes).Ok?;
    HeaderKinds(f.bytes);
  }

  lemma HeaderKinds(b: Bytes)
    requires Decode(b).Ok?
    ensures Decode(b).value.headerType in {HEADER_1, HEADER_2}
  {
    EncodeDecode(b);
    hide Encode, Decode;
  }

  /** A relay's route never leads back to the interface the parcel came in on. */
  lemma NotBack(c: Suite, topo: Topology, net: Net, m: Parcel, g: Flight)
    requires Inv(c, topo, net) && Heading(c, topo, net, m, g) && Routes(net, g.to, m.dest)
    ensures net.nodes[g.to].t.paths[m.dest].iface != g.iface
  {
    hide Decode, FindLocal, IdentityHash, Carries;
    var y := NextHop(c, topo, net, m.dest, g.to);
  }

  /** An unseen data packet goes through the dedup straight to the data handler. */
  lemma InboundData(c: Suite, n: Node, bytes: Bytes, p: Packet, iface: nat, now: nat, rng: Option<Entropy>)
    requires Decode(bytes) == Ok(p) && p.hops < MAX_HOPS && !Seen(c, n.t, p, now)
    requires Route(c, p.(hops := p.hops + 1)) == ToData
    ensures var t := Noted(c, n.t, p, now);
            Exec(c, n, Inbound(bytes, iface, now, rng))
            == OnTransport(n.(t := t), HandleData(c, t, p.(hops := p.hops + 1), iface, now))
  {
    hide HandleData, Decode, Noted, Seen, Route;
  }

  /** A heading parcel goes to the data handler, its hop count below the limit. */
  lemma HeadingIsData(c: Suite, topo: Topology, net: Net, m: Parcel, g: Flight)
    requires Heading(c, topo, net, m, g)
    ensures g.to in net.nodes && Decode(g.bytes).Ok?
    ensures var p := Decode(g.bytes).value;
            p.hops < MAX_HOPS && Route(c, p.(hops := p.hops + 1)) == ToData
  {
    hide Decode, FindLocal, Route, IdentityHash;
    var p := Decode(g.bytes).value;
    ToDataHandler(c, p.(hops := p.hops + 1), m);
  }

  lemma HostInbound(c: Suite, n: Node, bytes: Bytes, p: Packet, m: Parcel, iface: nat, now: nat, rng: Option<Entropy>)
    requires Decode(bytes) == Ok(p) && p.hops < MAX_HOPS && !Seen(c, n.t, p, now)
    requires Route(c, p.(hops := p.hops + 1)) == ToData && Carries(p, m)
    requires FindLocal(n.t.locals, m.dest).Some? && FindLocal(n.t.locals, m.dest).value.kind.Single?
    requires Decrypt(c, n.t.identity, m.data) == Ok(m.plaintext)
    requires p.headerType == HEADER_2 ==> n.t.enabled && p.transportId == Some(IdentityHash(c, n.t.identity))
    ensures var e := Exec(c, n, Inbound(bytes, iface, now, rng));
            && e.st.t == Noted(c, n.t, p, now) && e.events == [Message(m.dest, m.plaintext)]
            && e.out == if FindLocal(n.t.locals, m.dest).value.kind.prove then
                          [(iface, Encode(ProofPacket(c, n.t.identity, ParcelHash(c, m))))]
                        else []
  {
    hide Exec, Decode, Noted, Seen, Route, IdentityHash, HandleData, FindLocal, ParcelHash, Encode, ProofPacket, Decrypt;
    InboundData(c, n, bytes, p, iface, now, rng);
    NotedShortens(c, n.t, p, now);
    HostReads(c, Noted(c, n.t, p, now), p.(hops := p.hops + 1), m, iface, now);
  }

  /** The node that hosts the destination reports the message, and proves it if asked to. */
  lemma ReceivedByHost(c: Suite, topo: Topology, net: Net, m: Parcel, g: Flight, now: nat, rng: Option<Entropy>)
    requires Heading(c, topo, net, m, g) && !Seen(c, net.nodes[g.to].t, Decode(g.bytes).value, now)
    requires SoleHost(net, m.host, m.dest) && Readable(c, net, m) && Hosts(net, g.to, m.dest)
    ensures g.to == m.host
    ensures var e := Exec(c, net.nodes[g.to], Inbound(g.bytes, g.iface, now, rng));
            && e.events == [Message(m.dest, m.plaintext)]
            && e.st.t == Noted(c, net.nodes[g.to].t, Decode(g.bytes).value, now)
            && e.out == if FindLocal(net.nodes[m.host].t.locals, m.dest).value.kind.prove then
                          [(g.iface, Encode(ProofPacket(c, net.nodes[m.host].t.identity, ParcelHash(c, m))))]
                        else []
  {
    hide Exec, Decode, Noted, Seen, Route, IdentityHash, FindLocal, ParcelHash, Encode, ProofPacket, Decrypt;
    HeadingIsData(c, topo, net, m, g);
    assert g.to == m.host;
    HostInbound(c, net.nodes[m.host], g.bytes, Decode(g.bytes).value, m, g.iface, now, rng);
  }

  lemma RelayIsReady(c: Suite, topo: Topology, net: Net, m: Parcel, g: Flight, now: nat)
    requires Inv(c, topo, net) && Heading(c, topo, net, m, g)
    requires Unexpired(net.nodes[g.to].t, now) && !Hosts(net, g.to, m.dest)
    ensures var p := Decode(g.bytes).value;
            && Routes(net, g.to, m.dest) && p.headerType == HEADER_2 && p.hops < MAX_HOPS
            && RelayReady(c, Noted(c, net.nodes[g.to].t, p, now), p.(hops := p.hops + 1), m, g.iface, now)
  {
    var p := Decode(g.bytes).value;
    HeaderKinds(g.bytes);
    hide Decode, Noted, IdentityHash, Inv, FindLocal;
    NotedShortens(c, net.nodes[g.to].t, p, now);
    NotBack(c, topo, net, m, g);
    NextHopKnown(c, topo, net, m.dest, g.to);
    HopRoom(c, topo, net, m, g);
  }

  lemma RelayInbound(c: Suite, n: Node, bytes: Bytes, p: Packet, m: Parcel, iface: nat, now: nat, rng: Option<Entropy>)
    requires Decode(bytes) == Ok(p) && p.hops < MAX_HOPS && !Seen(c, n.t, p, now)
    requires RelayReady(c, Noted(c, n.t, p, now), p.(hops := p.hops + 1), m, iface, now)
    ensures m.dest in n.t.paths
    ensures var e := Exec(c, n, Inbound(bytes, iface, now, rng));
            && e.st.t == Noted(c, n.t, p, now) && e.events == []
            && e.out == [(n.t.paths[m.dest].iface, Encode(PassedOn(n.t.paths[m.dest], p.(hops := p.hops + 1))))]
  {
    hide Exec, Decode, Noted, Seen, HandleData, Encode, PassedOn, Unexpired, IdentityHash, FindLocal;
    NotedShortens(c, n.t, p, now);
    ToDataHandler(c, p.(hops := p.hops + 1), m);
    InboundData(c, n, bytes, p, iface, now, rng);
    RelayPasses(c, Noted(c, n.t, p, now), p.(hops := p.hops + 1), m, iface, now);
  }

  /** A relay passes the parcel on along its own route, and only its dedup state changes. */
  lemma ReceivedByRelay(c: Suite, topo: Topology, net: Net, m: Parcel, g: Flight, now: nat, rng: Option<Entropy>)
    requires Inv(c, topo, net) && Heading(c, topo, net, m, g)
    requires !Seen(c, net.nodes[g.to].t, Decode(g.bytes).value, now)
    requires Unexpired(net.nodes[g.to].t, now) && !Hosts(net, g.to, m.dest)
    ensures var n := net.nodes[g.to];
            var e := Exec(c, n, Inbound(g.bytes, g.iface, now, rng));
            var p := Decode(g.bytes).value;
            && e.st.t == Noted(c, n.t, p, now) && e.events == []
            && Routes(net, g.to, m.dest) && p.headerType == HEADER_2 && p.hops < MAX_HOPS
            && e.out == [(n.t.paths[m.dest].iface, Encode(PassedOn(n.t.paths[m.dest], p.(hops := p.hops + 1))))]
  {
    hide Exec, Noted, Seen, Inv, FindLocal, Encode, PassedOn, RelayReady, Unexpired, Takes;
    RelayIsReady(c, topo, net, m, g, now);
    RelayInbound(c, net.nodes[g.to], g.bytes, Decode(g.bytes).value, m, g.iface, now, rng);
    hide Decode;
  }

  /** A relay on the way is reached before the hop limit. */
  lemma HopRoom(c: Suite, topo: Topology, net: Net, m: Parcel, g: Flight)
    requires Inv(c, topo, net) && Heading(c, topo, net, m, g) && Routes(net, g.to, m.dest)
    ensures Decode(g.bytes).value.hops + 1 + Hops(net, g.to, m.dest) <= MAX_HOPS
    ensures Hops(net, g.to, m.dest) >= 1
  {
    hide Decode, FindLocal, IdentityHash, Carries;
    var y := NextHop(c, topo, net, m.dest, g.to);
  }

  lemma NextHopKnown(c: Suite, topo: Topology, net: Net, dest: Bytes, x: nat)
    requires Inv(c, topo, net) && Routes(net, x, dest)
    ensures net.nodes[x].t.paths[dest].hops > 1 ==> net.nodes[x].t.paths[dest].nextHop.Some?
  {
    assert NodeOk(c, topo, net, x);
    assert Backed(c, topo, net, x, dest, net.nodes[x].t.paths[dest]);
    hide FindLocal;
  }

  // ------------------------------------------------------------------ copies of the parcel

  /** A packet the dedup takes for the parcel. */
  ghost predicate IsParcel(c: Suite, m: Parcel, bytes: Bytes) {
    DedupKey(c, bytes) == Some(Truncate(ParcelHash(c, m)))
  }

  lemma CarriesIsParcel(c: Suite, m: Parcel, bytes: Bytes)
    requires Decode(bytes).Ok? && Carries(Decode(bytes).value, m)
    ensures IsParcel(c, m, bytes)
  {
    CarriedHash(c, Decode(bytes).value, m);
    hide Decode, PacketHash, ParcelHash, Carries;
  }

  /** A call can only make a node remember the packet it received. */
  lemma RemembersOnly(c: Suite, n: Node, call: Call, key: Bytes)
    requires call.Inbound? ==> DedupKey(c, call.bytes) != Some(key)
    requires InTime(n, call) && key in Exec(c, n, call).st.t.seenPackets
    ensures key in n.t.seenPackets
  {
    hide Encode, Links.Tick, FindSingle, Dispatch;
    if call.Inbound? {
      var d := Decode(call.bytes);
      if d.Ok? && d.value.hops < MAX_HOPS && !Seen(c, n.t, d.value, call.now) {
        var noted := n.(t := Noted(c, n.t, d.value, call.now));
        NotedShortens(c, n.t, d.value, call.now);
        DispatchShortens(c, noted, d.value.(hops := d.value.hops + 1), call.iface, call.now, call.rng);
      }
      hide Decode, PacketHash;
    }
  }

  lemma PassedOnDecodes(path: PathEntry, p: Packet)
    requires WellFormed(p) && p.headerType == HEADER_2
    requires path.hops > 1 ==> path.nextHop.Some? && |path.nextHop.value| == 16
    ensures Decode(Encode(PassedOn(path, p))) == Ok(PassedOn(path, p))
  {
    DecodeEncode(PassedOn(path, p));
    hide Decode, Encode;
  }

  /** What a relay sends fits into the hop limit and is addressed to its next hop. */
  lemma PassedOnFits(topo: Topology, net: Net, m: Parcel, w: nat, p: Packet, bytes: Bytes)
    requires Routes(net, w, m.dest) && (w, net.nodes[w].t.paths[m.dest].iface) in topo
    requires Carries(p, m) && p.headerType == HEADER_2 && p.hops + 1 + Hops(net, w, m.dest) <= MAX_HOPS
    requires Hops(net, w, m.dest) >= 1
    requires Decode(bytes) == Ok(PassedOn(net.nodes[w].t.paths[m.dest], p.(hops := p.hops + 1)))
    ensures var e := topo[(w, net.nodes[w].t.paths[m.dest].iface)];
            SentBy(topo, net, m, w, Flight(e.0, e.1, bytes))
  {
    hide Decode, FindLocal;
  }

  /** What the relay puts on the wire is again the parcel, as sent on the relay's own route. */
  lemma PassedOnIsSent(c: Suite, topo: Topology, net: Net, m: Parcel, g: Flight)
    requires Sized(c) && Inv(c, topo, net) && Heading(c, topo, net, m, g) && Routes(net, g.to, m.dest)
    requires Decode(g.bytes).value.headerType == HEADER_2 && Decode(g.bytes).value.hops < MAX_HOPS
    ensures var path := net.nodes[g.to].t.paths[m.dest];
            var p := Decode(g.bytes).value;
            && (g.to, path.iface) in topo
            && var e := topo[(g.to, path.iface)];
            SentBy(topo, net, m, g.to, Flight(e.0, e.1, Encode(PassedOn(path, p.(hops := p.hops + 1)))))
  {
    hide Decode, Encode, FindLocal, Inv, PassedOn, Takes, IdentityHash, SentBy, WellFormed;
    var path := net.nodes[g.to].t.paths[m.dest];
    var p := Decode(g.bytes).value;
    PassedOnOnWire(c, topo, net, m, g);
    HopRoom(c, topo, net, m, g);
    var y := NextHop(c, topo, net, m.dest, g.to);
    PassedOnFits(topo, net, m, g.to, p, Encode(PassedOn(path, p.(hops := p.hops + 1))));
  }

  lemma PassedOnOnWire(c: Suite, topo: Topology, net: Net, m: Parcel, g: Flight)
    requires Sized(c) && Inv(c, topo, net) && Routes(net, g.to, m.dest) && Decode(g.bytes).Ok?
    requires Decode(g.bytes).value.headerType == HEADER_2 && Decode(g.bytes).value.hops < MAX_HOPS
    ensures var path := net.nodes[g.to].t.paths[m.dest];
            var p := Decode(g.bytes).value;
            Decode(Encode(PassedOn(path, p.(hops := p.hops + 1)))) == Ok(PassedOn(path, p.(hops := p.hops + 1)))
  {
    var p := Decode(g.bytes).value;
    EncodeDecode(g.bytes);
    hide Decode, Encode, FindLocal, Inv;
    NextHopSize(c, topo, net, m.dest, g.to);
    PassedOnDecodes(net.nodes[g.to].t.paths[m.dest], p.(hops := p.hops + 1));
  }

  lemma NextHopSize(c: Suite, topo: Topology, net: Net, dest: Bytes, x: nat)
    requires Sized(c) && Inv(c, topo, net) && Routes(net, x, dest)
    ensures net.nodes[x].t.paths[dest].hops > 1 ==>
              net.nodes[x].t.paths[dest].nextHop.Some? && |net.nodes[x].t.paths[dest].nextHop.value| == 16
  {
    assert NodeOk(c, topo, net, x);
    assert Backed(c, topo, net, x, dest, net.nodes[x].t.paths[dest]);
    HashSize(c, net.nodes[Peer(topo, x, net.nodes[x].t.paths[dest].iface)].t.identity);
    hide FindLocal, IdentityHash;
  }

  lemma LaunchOne(topo: Topology, x: nat, o: (nat, Bytes))
    requires (x, o.0) in topo
    ensures Launch(topo, x, [o]) == multiset{Flight(topo[(x, o.0)].0, topo[(x, o.0)].1, o.1)}
  {
    assert [o][1..] == [];
  }

  /** A call that queues one packet, seen from the network. */
  lemma ApplyOne(c: Suite, topo: Topology, net: Net, s: Step, o: (nat, Bytes))
    requires (s.Do? || s.Receive?) && NodeOf(s) in net.nodes && (NodeOf(s), o.0) in topo
    requires Exec(c, net.nodes[NodeOf(s)], CallOf(s)).out == [o]
    ensures var net' := Apply(c, topo, net, s); var x := NodeOf(s); var e := topo[(x, o.0)];
            && net'.wire == (if s.Receive? then net.wire - multiset{s.f} else net.wire) + multiset{Flight(e.0, e.1, o.1)}
            && net'.nodes == net.nodes[x := Exec(c, net.nodes[x], CallOf(s)).st]
  {
    hide Exec;
    LaunchOne(topo, NodeOf(s), o);
  }

  // ------------------------------------------------------------------ sending

  /** The key on every route to a destination with one host is that host's key. */
  lemma KeyOfSoleHost(c: Suite, net: Net, x: nat, host: nat, dest: Bytes)
    requires Auth(c, net) && SoleHost(net, host, dest) && x in net.nodes && dest in net.nodes[x].t.paths
    ensures net.nodes[x].t.paths[dest].public == Public(c, net.nodes[host].t.identity)
  {
    var key := net.nodes[x].t.paths[dest].public;
    assert KnowsFrom(net.nodes[x].t, GenuineKeys(c, net));
    assert (dest, key) in GenuineKeys(c, net);
    assert Genuine(c, net, dest, key);
    hide FindSingle, FindLocal, Asserted, IsAnnounce, Public;
    var y :| y in net.nodes && SingleHost(net.nodes[y].t, dest) && key == Public(c, net.nodes[y].t.identity);
    assert Hosts(net, y, dest) by { SinglesAreLocal(net.nodes[y].t, dest); }
  }

  lemma SinglesAreLocal(t: Transport, dest: Bytes)
    requires SingleHost(t, dest)
    ensures IsLocal(t, dest)
  {
  }

  lemma MessageWellFormed(c: Suite, topo: Topology, net: Net, x: nat, dest: Bytes, plaintext: Bytes, ephemeral: Bytes,
                          iv: Bytes)
    requires Sized(c) && Inv(c, topo, net) && Routes(net, x, dest) && |dest| == 16
    ensures var p := MessagePacket(c, dest, net.nodes[x].t.paths[dest], plaintext, ephemeral, iv);
            Decode(Encode(p)) == Ok(p)
  {
    NextHopSize(c, topo, net, dest, x);
    hide Encrypt, Encode, Decode, Inv, FindLocal;
    DecodeEncode(MessagePacket(c, dest, net.nodes[x].t.paths[dest], plaintext, ephemeral, iv));
  }

  lemma MessageCarries(c: Suite, m: Parcel, path: PathEntry, ephemeral: Bytes, iv: Bytes)
    requires m.data == Encrypt(c, path.public, m.plaintext, ephemeral, iv)
    ensures var p := MessagePacket(c, m.dest, path, m.plaintext, ephemeral, iv);
            Carries(p, m) && FullPacketHash(c, p) == ParcelHash(c, m)
  {
    CarriedHash(c, MessagePacket(c, m.dest, path, m.plaintext, ephemeral, iv), m);
    hide Encrypt;
  }

  /** What the call queues, and the receipt it leaves under the hash the host will see. */
  lemma SendShape(c: Suite, t: Transport, m: Parcel, ephemeral: Bytes, iv: Bytes, receipt: bool, now: nat)
    requires Unexpired(t, now) && m.dest in t.paths
    requires t.paths[m.dest].hops > 1 ==> t.paths[m.dest].nextHop.Some?
    requires m.data == Encrypt(c, t.paths[m.dest].public, m.plaintext, ephemeral, iv)
    ensures var path := t.paths[m.dest];
            var e := SendMessage(c, t, m.dest, m.plaintext, ephemeral, iv, receipt, now).0;
            && e.out == [(path.iface, Encode(MessagePacket(c, m.dest, path, m.plaintext, ephemeral, iv)))]
            && e.st == if receipt then
                         t.(receipts := t.receipts[ParcelHash(c, m) := Receipt(path.public, now + RECEIPT_TIMEOUT)])
                       else t
  {
    NothingPruned(t, now);
    MessageCarries(c, m, t.paths[m.dest], ephemeral, iv);
    hide Encrypt, Encode, MessagePacket, FullPacketHash, ParcelHash;
  }

  /** The queued packet is the parcel as `x` sends it on its route. */
  lemma SendSent(c: Suite, topo: Topology, net: Net, x: nat, m: Parcel, ephemeral: Bytes, iv: Bytes) returns (f: Flight)
    requires Sized(c) && Inv(c, topo, net) && Routes(net, x, m.dest) && |m.dest| == 16
    requires m.data == Encrypt(c, net.nodes[x].t.paths[m.dest].public, m.plaintext, ephemeral, iv)
    ensures var path := net.nodes[x].t.paths[m.dest];
            && (x, path.iface) in topo
            && var e := topo[(x, path.iface)];
            f == Flight(e.0, e.1, Encode(MessagePacket(c, m.dest, path, m.plaintext, ephemeral, iv)))
    ensures SentBy(topo, net, m, x, f)
  {
    var path := net.nodes[x].t.paths[m.dest];
    MessageWellFormed(c, topo, net, x, m.dest, m.plaintext, ephemeral, iv);
    MessageCarries(c, m, path, ephemeral, iv);
    hide Encrypt, Encode, Decode, Inv, FindLocal;
    var y := NextHop(c, topo, net, m.dest, x);
    HopsBounded(c, topo, net, m.dest, x);
    var e := topo[(x, path.iface)];
    f := Flight(e.0, e.1, Encode(MessagePacket(c, m.dest, path, m.plaintext, ephemeral, iv)));
  }

  /** The step that sends the parcel. */
  ghost predicate Sends(c: Suite, net: Net, m: Parcel, x: nat, s: Step) {
    && s.Do? && s.x == x && s.call.SendTo? && s.call.dest == m.dest && s.call.plaintext == m.plaintext
    && Routes(net, x, m.dest)
    && m.data == Encrypt(c, net.nodes[x].t.paths[m.dest].public, m.plaintext, s.call.ephemeral, s.call.iv)
  }

  lemma SendApplied(c: Suite, topo: Topology, net: Net, m: Parcel, x: nat, s: Step) returns (f: Flight)
    requires Sized(c) && Inv(c, topo, net) && Allowed(net, s) && Sends(c, net, m, x, s) && |m.dest| == 16
    ensures SentBy(topo, net, m, x, f)
    ensures var net' := Apply(c, topo, net, s);
            && net'.wire == net.wire + multiset{f}
            && x in net'.nodes && net'.nodes == net.nodes[x := net'.nodes[x]]
            && var a, b := net.nodes[x].t, net'.nodes[x].t;
            && b.paths == a.paths && b.locals == a.locals && b.seenPackets == a.seenPackets
            && (s.call.receipt ==>
                  && ParcelHash(c, m) in b.receipts
                  && b.receipts[ParcelHash(c, m)] == Receipt(a.paths[m.dest].public, s.call.now + RECEIPT_TIMEOUT))
  {
    hide Encrypt, Encode, Decode, Inv, FindLocal, SentBy, MessagePacket, ParcelHash, SendMessage, Apply, Sized, Typed,
         Unexpired, IsAnnounce;
    var call := s.call;
    var path := net.nodes[x].t.paths[m.dest];
    NextHopKnown(c, topo, net, m.dest, x);
    f := SendSent(c, topo, net, x, m, call.ephemeral, call.iv);
    SendShape(c, net.nodes[x].t, m, call.ephemeral, call.iv, call.receipt, call.now);
    ApplyOne(c, topo, net, s, (path.iface, f.bytes));
  }

  lemma HopsBounded(c: Suite, topo: Topology, net: Net, dest: Bytes, x: nat)
    requires Inv(c, topo, net) && Routes(net, x, dest)
    ensures Hops(net, x, dest) <= MAX_HOPS
  {
    assert NodeOk(c, topo, net, x);
    assert Backed(c, topo, net, x, dest, net.nodes[x].t.paths[dest]);
    hide FindLocal;
  }

  /** The parcel a call makes is readable by the sole host of its destination, whose key the path
      carries. */
  lemma SentParcelReadable(c: Suite, topo: Topology, start: Net, steps: seq<Step>, run: seq<Net>, m: Parcel, x: nat, a: nat)
    requires Lawful(c) && PointToPoint(topo, start) && Fresh(start) && IsRun(c, topo, start, steps, run)
    requires a < |steps| && Sends(c, run[a], m, x, steps[a]) && SoleHost(run[a], m.host, m.dest)
    ensures Readable(c, run[a], m)
    ensures run[a].nodes[x].t.paths[m.dest].public == Public(c, run[a].nodes[m.host].t.identity)
  {
    KeysGenuine(c, topo, start, steps, run, a);
    KeyOfSoleHost(c, run[a], x, m.host, m.dest);
    DecryptUndoesEncrypt(c, run[a].nodes[m.host].t.identity, m.plaintext, steps[a].call.ephemeral, steps[a].call.iv);
    hide Encrypt, Decrypt, FindLocal, Public, Auth, Inv;
  }

  /** When a relay passes a HEADER_2 data packet on at all: a route back to the interface it came
      from, an expired or missing route, or a spent hop count drops it. */
  lemma RelayForwardsExactly(c: Suite, t: Transport, p: Packet, iface: nat, now: nat)
    requires p.headerType == HEADER_2 && !IsLocal(t, p.dest)
    ensures HandleData(c, t, p, iface, now).out != [] <==>
            && t.enabled && p.transportId == Some(IdentityHash(c, t.identity)) && p.hops < MAX_HOPS
            && p.dest in t.paths && t.paths[p.dest].expiresAt > now && t.paths[p.dest].iface != iface
            && (t.paths[p.dest].hops > 1 ==> t.paths[p.dest].nextHop.Some?)
  {
    hide Encode, IdentityHash, FindLocal;
  }

  /** `g` is a copy of the parcel addressed to the relay it reaches, its hop count below the limit. */
  ghost predicate Addressed(c: Suite, topo: Topology, net: Net, m: Parcel, g: Flight) {
    && (g.to, g.iface) in topo && g.to in net.nodes && Decode(g.bytes).Ok?
    && var p := Decode(g.bytes).value;
    && Carries(p, m) && p.hops + 1 < MAX_HOPS && p.headerType == HEADER_2
    && net.nodes[g.to].t.enabled && p.transportId == Some(IdentityHash(c, net.nodes[g.to].t.identity))
  }

  /** In every reachable state a relay with a route passes a new copy on exactly if its route leads out on another
      interface than the copy came in on; and it does not only if the neighbour the copy came from is closer to the
      host than the relay is. */
  lemma PassedOnExactly(c: Suite, topo: Topology, net: Net, m: Parcel, g: Flight, now: nat, rng: Option<Entropy>)
    requires Inv(c, topo, net) && Addressed(c, topo, net, m, g) && Routes(net, g.to, m.dest)
    requires Unexpired(net.nodes[g.to].t, now) && !Seen(c, net.nodes[g.to].t, Decode(g.bytes).value, now)
    ensures Exec(c, net.nodes[g.to], Inbound(g.bytes, g.iface, now, rng)).out != []
            <==> net.nodes[g.to].t.paths[m.dest].iface != g.iface
    ensures net.nodes[g.to].t.paths[m.dest].iface == g.iface ==>
              || Hosts(net, Sender(topo, g), m.dest)
              || (Routes(net, Sender(topo, g), m.dest) && Hops(net, Sender(topo, g), m.dest) < Hops(net, g.to, m.dest))
  {
    hide Decode, FindLocal, IdentityHash, Exec, Seen, Noted, HandleData, Route, Inv;
    var n, p := net.nodes[g.to], Decode(g.bytes).value;
    var q := p.(hops := p.hops + 1);
    ToDataHandler(c, q, m);
    InboundData(c, n, g.bytes, p, g.iface, now, rng);
    NotedShortens(c, n.t, p, now);
    NextHopKnown(c, topo, net, m.dest, g.to);
    RelayForwardsExactly(c, Noted(c, n.t, p, now), q, g.iface, now);
    var y := NextHop(c, topo, net, m.dest, g.to);
  }
}
