/** Loop freedom of the routes a network learns. */
module LoopFreedom {
  import opened Base
  import opened Crypto
  import opened Packets
  import opened PathTables
  import opened Transports
  import opened Nodes
  import opened Network
  import Announces
  import Discovery
  import opened Links
  import Order

  // ------------------------------------------------------------------ the invariant

  /** What a node vouches for when it emits this announce: it hosts the destination, or it relays
      for it and is itself at most that many hops away. */
  ghost predicate Vouches(c: Suite, t: Transport, p: Packet) {
    && (p.hops == 0 ==> IsLocal(t, p.dest))
    && (p.hops > 0 ==>
          && t.enabled && p.transportId == Some(IdentityHash(c, t.identity)) && p.headerType == HEADER_2
          && p.dest in t.paths && t.paths[p.dest].hops <= p.hops)
  }

  /** A route is backed by the node it leads to. */
  ghost predicate Backed(c: Suite, topo: Topology, net: Net, x: nat, dest: Bytes, e: PathEntry) {
    && (x, e.iface) in topo && Peer(topo, x, e.iface) in net.nodes
    && var next := net.nodes[Peer(topo, x, e.iface)].t;
    && 1 <= e.hops <= MAX_HOPS
    && (e.hops == 1 ==> IsLocal(next, dest))
    && (e.hops > 1 ==>
          && next.enabled && e.nextHop == Some(IdentityHash(c, next.identity))
          && dest in next.paths && next.paths[dest].hops <= e.hops - 1)
  }

  ghost predicate FlightOk(c: Suite, topo: Topology, net: Net, f: Flight) {
    && (f.to, f.iface) in topo && Peer(topo, f.to, f.iface) in net.nodes
    && (IsAnnounce(f.bytes) ==>
          Vouches(c, net.nodes[Peer(topo, f.to, f.iface)].t, Decode(f.bytes).value))
  }

  /** Cached announces are announces for their key. */
  ghost predicate CacheOk(t: Transport) {
    forall d | d in t.cached :: WellFormed(t.cached[d]) && t.cached[d].packetType == ANNOUNCE && t.cached[d].dest == d
  }

  ghost predicate NodeOk(c: Suite, topo: Topology, net: Net, x: nat)
    requires x in net.nodes
  {
    && CacheOk(net.nodes[x].t)
    && forall d | d in net.nodes[x].t.paths :: Backed(c, topo, net, x, d, net.nodes[x].t.paths[d])
  }

  ghost predicate Inv(c: Suite, topo: Topology, net: Net) {
    && PointToPoint(topo, net)
    && (forall x | x in net.nodes :: NodeOk(c, topo, net, x))
    && (forall f | f in net.wire :: FlightOk(c, topo, net, f))
  }

  // ------------------------------------------------------------------ nodes only improve

  /** Identity kept, transport and local destinations kept, no route lost or lengthened. */
  ghost predicate Improves(a: Transport, b: Transport) {
    && b.identity == a.identity
    && (a.enabled ==> b.enabled)
    && (forall d | IsLocal(a, d) :: IsLocal(b, d))
    && (forall d | d in a.paths :: d in b.paths && b.paths[d].hops <= a.paths[d].hops)
  }

  lemma {:induction false} MoreLocals(locals: seq<Local>, l: Local, dest: Bytes)
    requires FindLocal(locals, dest).Some?
    ensures FindLocal(locals + [l], dest) == FindLocal(locals, dest)
  {
    if locals[0].dest != dest {
      MoreLocals(locals[1..], l, dest);
      assert (locals + [l])[1..] == locals[1..] + [l];
    }
  }

  lemma {:induction false} SameLocals(locals: seq<Local>, d: Bytes, prove: bool, dest: Bytes)
    ensures FindLocal(SetProving(locals, d, prove), dest).Some? == FindLocal(locals, dest).Some?
  {
    if locals != [] {
      SameLocals(locals[1..], d, prove, dest);
    }
  }

  lemma NothingPruned(t: Transport, now: nat)
    requires Unexpired(t, now)
    ensures Pruned(t.paths, now) == t.paths
  {
  }

  /** Same identity, role and destinations; no route lost or lengthened. */
  ghost predicate Shortens(a: Transport, b: Transport) {
    && b.identity == a.identity && b.enabled == a.enabled && b.locals == a.locals
    && forall d | d in a.paths :: d in b.paths && b.paths[d].hops <= a.paths[d].hops
  }

  lemma AnnounceShortens(c: Suite, t: Transport, p: Packet, iface: nat, now: nat)
    requires Unexpired(t, now)
    ensures Shortens(t, HandleAnnounce(c, t, p, iface, now).st)
    ensures HandleAnnounce(c, t, p, iface, now).st.seenPackets == t.seenPackets
  {
    hide HandleAnnounce, Encode, Relayed, Broadcast, Announces.Parse, Announces.Verified, FindLocal;
    Discovery.BindsExactly(c, t, p, iface, now);
    Discovery.AnnounceLeaves(c, t, p, iface, now);
  }

  lemma DataKeeps(c: Suite, t: Transport, p: Packet, iface: nat, now: nat)
    requires Unexpired(t, now)
    ensures HandleData(c, t, p, iface, now).st == t
  {
    NothingPruned(t, now);
  }

  lemma LinkShortens(c: Suite, n: Node, p: Packet, iface: nat, now: nat)
    ensures Shortens(n.t, HandleLink(c, n, p, iface, now).st.t)
    ensures HandleLink(c, n, p, iface, now).st.t.seenPackets == n.t.seenPackets
  {
    hide HandleLinkData, AsksClose, Links.Tick, Links.Close;
  }

  lemma RequestShortens(c: Suite, t: Transport, p: Packet, iface: nat, now: nat)
    ensures Shortens(t, HandlePathRequest(c, t, p, iface, now).st)
    ensures HandlePathRequest(c, t, p, iface, now).st.seenPackets == t.seenPackets
  {
    hide Encode, PathResponse, FindLocal;
  }

  lemma ProofShortens(c: Suite, t: Transport, p: Packet)
    ensures Shortens(t, HandleProof(c, t, p).st) && HandleProof(c, t, p).st.seenPackets == t.seenPackets
  {
    hide ProofValid;
  }

  lemma ShortensSelf(t: Transport)
    ensures Shortens(t, t)
  {
  }

  lemma OthersShorten(c: Suite, n: Node, p: Packet, iface: nat, now: nat, rng: Option<Entropy>)
    requires Route(c, p) != ToAnnounce && Route(c, p) != ToData
    ensures Shortens(n.t, Dispatch(c, n, p, iface, now, rng).st.t)
    ensures Dispatch(c, n, p, iface, now, rng).st.t.seenPackets == n.t.seenPackets
  {
    hide Route, HandleLink, HandlePathRequest, HandleRequest, HandleLinkProof, HandleProof, HandleAnnounce, HandleData, Shortens;
    LinkShortens(c, n, p, iface, now);
    RequestShortens(c, n.t, p, iface, now);
    ProofShortens(c, n.t, p);
    ShortensSelf(n.t);
  }

  lemma DispatchShortens(c: Suite, n: Node, p: Packet, iface: nat, now: nat, rng: Option<Entropy>)
    requires Unexpired(n.t, now)
    ensures Shortens(n.t, Dispatch(c, n, p, iface, now, rng).st.t)
    ensures Dispatch(c, n, p, iface, now, rng).st.t.seenPackets == n.t.seenPackets
  {
    if Route(c, p) == ToAnnounce {
      AnnounceShortens(c, n.t, p, iface, now);
    } else if Route(c, p) == ToData {
      DataKeeps(c, n.t, p, iface, now);
    } else {
      OthersShorten(c, n, p, iface, now, rng);
      hide Dispatch;
    }
    hide Route, HandleAnnounce, HandleData;
  }

  lemma NotedShortens(c: Suite, t: Transport, p: Packet, now: nat)
    ensures Shortens(t, MaybePrune(t, now)) && Shortens(t, Noted(c, t, p, now))
    ensures Noted(c, t, p, now).paths == t.paths
  {
    hide Expire, PacketHash;
  }

  lemma InboundShortens(c: Suite, n: Node, bytes: Bytes, iface: nat, now: nat, rng: Option<Entropy>)
    requires Unexpired(n.t, now)
    ensures Shortens(n.t, HandleInbound(c, n, bytes, iface, now, rng).st.t)
  {
    hide Dispatch, Decode, Noted, MaybePrune, Seen;
    var decoded := Decode(bytes);
    if decoded.Ok? {
      var p := decoded.value;
      NotedShortens(c, n.t, p, now);
      if p.hops < MAX_HOPS && !Seen(c, n.t, p, now) {
        DispatchShortens(c, n.(t := Noted(c, n.t, p, now)), p.(hops := p.hops + 1), iface, now, rng);
      }
    }
  }

  lemma ExecImproves(c: Suite, n: Node, call: Call)
    requires InTime(n, call) && call != EnableTransport(false)
    ensures Improves(n.t, Exec(c, n, call).st.t)
  {
    hide HandleInbound, Encode, FindSingle, Links.Tick, SendMessage, Establish;
    match call
    case Inbound(bytes, iface, now, rng) => InboundShortens(c, n, bytes, iface, now, rng);
    case Register(l) =>
      forall d | IsLocal(n.t, d) ensures FindLocal(n.t.locals + [l], d).Some? { MoreLocals(n.t.locals, l, d); }
    case SetProve(dest, prove) =>
      forall d | IsLocal(n.t, d) ensures FindLocal(SetProving(n.t.locals, dest, prove), d).Some? {
        SameLocals(n.t.locals, dest, prove, d);
      }
    case SendTo(dest, m, eph, iv, receipt, now) => SendKeeps(c, n.t, dest, m, eph, iv, receipt, now);
    case EstablishLink(_, _, _, now) => NothingPruned(n.t, now);
    case _ =>
  }

  lemma SendKeeps(c: Suite, t: Transport, dest: Bytes, m: Bytes, eph: Bytes, iv: Bytes, receipt: bool, now: nat)
    requires Unexpired(t, now)
    ensures Shortens(t, SendMessage(c, t, dest, m, eph, iv, receipt, now).0.st)
  {
    NothingPruned(t, now);
  }

  // ------------------------------------------------------------------ what a handler emits and learns

  ghost predicate EmitsOnly(c: Suite, t: Transport, out: seq<(nat, Bytes)>) {
    forall o | o in out && IsAnnounce(o.1) :: Vouches(c, t, Decode(o.1).value)
  }

  /** Every route of `b` is one of `a`, or was taken from the announce `p` heard on `iface`. */
  ghost predicate LearnsFrom(a: Transport, b: Transport, p: Packet, iface: nat) {
    forall d | d in b.paths ::
      || (d in a.paths && b.paths[d] == a.paths[d])
      || (&& p.packetType == ANNOUNCE && d == p.dest && b.paths[d].iface == iface && b.paths[d].hops == p.hops
          && b.paths[d].nextHop == if p.headerType == HEADER_2 then p.transportId else None)
  }

  lemma TypeOnWire(p: Packet)
    requires p.packetType < 4
    ensures Decode(Encode(p)).Ok? ==> Decode(Encode(p)).value.packetType == p.packetType
  {
    FlagsType(p);
    hide Flags, TypeBits, HeaderBit, DestBits, PropagationBit, ContextBit, IfacBit;
    assert Encode(p)[0] == Flags(p);
  }

  lemma NotAnAnnounce(p: Packet)
    requires p.packetType < 4 && p.packetType != ANNOUNCE
    ensures !IsAnnounce(Encode(p))
  {
    TypeOnWire(p);
  }

  lemma HashSize(c: Suite, id: Identity)
    requires Sized(c)
    ensures |IdentityHash(c, id)| == 16
  {
  }

  lemma RelayedVouched(c: Suite, t: Transport, p: Packet)
    requires Sized(c) && WellFormed(p) && t.enabled && p.hops > 0
    requires p.dest in t.paths && t.paths[p.dest].hops <= p.hops
    ensures Decode(Encode(Relayed(c, t, p))) == Ok(Relayed(c, t, p))
    ensures Vouches(c, t, Relayed(c, t, p))
  {
    HashSize(c, t.identity);
    DecodeEncode(Relayed(c, t, p));
  }

  lemma AnnounceEmits(c: Suite, t: Transport, p: Packet, iface: nat, now: nat)
    requires Sized(c) && WellFormed(p) && p.packetType == ANNOUNCE && p.hops > 0 && CacheOk(t)
    ensures var e := HandleAnnounce(c, t, p, iface, now);
            CacheOk(e.st) && EmitsOnly(c, e.st, e.out) && LearnsFrom(t, e.st, p, iface)
  {
    hide HandleAnnounce, Encode, Relayed, Announces.Parse, Announces.Verified, Announces.Timestamp, FindLocal, Vouches,
         IsAnnounce, Broadcast, Prefers;
    var e := HandleAnnounce(c, t, p, iface, now);
    Discovery.BindsExactly(c, t, p, iface, now);
    Discovery.AnnounceLeaves(c, t, p, iface, now);
    if e.out != [] {
      RelayedVouched(c, e.st, p);
      assert Relayed(c, e.st, p) == Relayed(c, t, p) by { SameRelay(c, t, e.st, p); }
    }
  }

  lemma SameRelay(c: Suite, a: Transport, b: Transport, p: Packet)
    requires a.identity == b.identity
    ensures Relayed(c, a, p) == Relayed(c, b, p)
  {
  }

  lemma RequestEmits(c: Suite, t: Transport, p: Packet, iface: nat, now: nat)
    requires Sized(c) && CacheOk(t) && forall d | d in t.paths :: t.paths[d].hops >= 1
    ensures var e := HandlePathRequest(c, t, p, iface, now);
            CacheOk(e.st) && EmitsOnly(c, e.st, e.out) && e.st.paths == t.paths
  {
    var e := HandlePathRequest(c, t, p, iface, now);
    if e.out != [] {
      var target := p.data[..16];
      var r := PathResponse(c, t, target, t.cached[target]);
      assert e.out == [(iface, Encode(r))];
      if IsLocal(t, target) {
        DecodeEncode(r);
      } else {
        RelayedVouched(c, e.st, t.cached[target].(context := PATH_RESPONSE, hops := t.paths[target].hops));
      }
    }
  }

  lemma ForwardEmits(t: Transport, p: Packet, iface: nat, now: nat)
    requires p.packetType == DATA
    ensures forall o | o in Forward(t, p, iface, now).out :: !IsAnnounce(o.1)
  {
    NotAnAnnounce(Direct(p));
    if p.dest in t.paths {
      NotAnAnnounce(p.(transportId := t.paths[p.dest].nextHop));
    }
    hide Encode, IsAnnounce, Direct;
  }

  lemma ProofType(c: Suite, t: Transport, p: Packet)
    ensures ProofPacket(c, t.identity, FullPacketHash(c, p)).packetType == PROOF
  {
  }

  lemma DataEmits(c: Suite, t: Transport, p: Packet, iface: nat, now: nat)
    requires p.packetType == DATA
    ensures forall o | o in HandleData(c, t, p, iface, now).out :: !IsAnnounce(o.1)
  {
    hide Encode, IsAnnounce, FindLocal, ProofPacket, Forward, Decrypt, IdentityHash, FullPacketHash;
    ForwardEmits(t, p, iface, now);
    assert ProofPacket(c, t.identity, FullPacketHash(c, p)).packetType == PROOF by { ProofType(c, t, p); }
    NotAnAnnounce(ProofPacket(c, t.identity, FullPacketHash(c, p)));
  }

  lemma {:induction false} KeepalivesEmit(r: Registry, ids: seq<Bytes>, now: nat)
    requires forall id | id in ids :: id in r
    ensures forall o | o in Keepalives(r, ids, now) :: !IsAnnounce(o.1)
  {
    if ids != [] {
      NotAnAnnounce(LinkPacket(ids[0], KEEPALIVE, [0xFF]));
      KeepalivesEmit(r, ids[1..], now);
    }
  }

  lemma TickEmits(n: Node, now: nat)
    ensures forall o | o in Nodes.Tick(n, now).out :: !IsAnnounce(o.1)
  {
    KeepalivesEmit(n.links, Order.Sorted(n.links.Keys), now);
  }
  lemma LinkEmits(c: Suite, n: Node, p: Packet, iface: nat, now: nat)
    ensures forall o | o in HandleLink(c, n, p, iface, now).out :: !IsAnnounce(o.1)
  {
    NotAnAnnounce(LinkPacket(p.dest, KEEPALIVE, [0xFE]));
    if AsksClose(c, n.links, p, iface) {
      TickEmits(Nodes.Close(OnLinks(n, HandleLinkData(c, n.links, p, iface, now)).st, p.dest), now);
    }
    hide Encode, IsAnnounce, AsksClose, Nodes.Tick, LinkPacket;
  }

  lemma LinkKeeps(c: Suite, n: Node, p: Packet, iface: nat, now: nat)
    ensures HandleLink(c, n, p, iface, now).st.t.paths == n.t.paths
    ensures HandleLink(c, n, p, iface, now).st.t.cached == n.t.cached
  {
    hide HandleLinkData, AsksClose, Links.Tick, Links.Close;
  }

  lemma HandshakeEmits(c: Suite, n: Node, p: Packet, iface: nat, now: nat, rng: Option<Entropy>)
    ensures rng.Some? ==> forall o | o in HandleRequest(c, n.t, n.links, p, iface, now, rng.value).out :: !IsAnnounce(o.1)
    ensures forall o | o in HandleLinkProof(c, n.links, p, now, rng).out :: !IsAnnounce(o.1)
  {
    var link := LinkIdOf(c, p);
    if rng.Some? {
      NotAnAnnounce(Header1(LINK, PROOF, link, LRPROOF, LinkProof(c, n.t.identity, link, rng.value.first)));
    }
    if HandleLinkProof(c, n.links, p, now, rng).out != [] {
      var peer := VerifyLinkProof(c, n.links[p.dest].public.value, p.dest, p.data).value;
      var key := LinkKey(c, n.links[p.dest].xprv, peer, p.dest);
      NotAnAnnounce(LinkPacket(p.dest, LRRTT, c.seal(key, RTT_REPORT, rng.value.first)));
    }
    hide Encode, IsAnnounce, FindSingle, LinkIdOf, LinkProof, LinkKey, VerifyLinkProof, LinkPacket;
  }

  /** Traffic other than announces and path requests leaves routes and caches alone and puts no
      announce on the wire. */
  lemma OthersEmit(c: Suite, n: Node, p: Packet, iface: nat, now: nat, rng: Option<Entropy>)
    requires Unexpired(n.t, now) && Route(c, p) != ToPathRequest && Route(c, p) != ToAnnounce
    ensures var e := Dispatch(c, n, p, iface, now, rng);
            && e.st.t.paths == n.t.paths && e.st.t.cached == n.t.cached
            && forall o | o in e.out :: !IsAnnounce(o.1)
  {
    hide HandleAnnounce, HandlePathRequest, HandleData, HandleLinkData, HandleRequest, HandleLinkProof;
    hide Encode, IsAnnounce, ProofValid, AsksClose, HandleLink;
    match Route(c, p) {
      case ToLinkRequest => HandshakeEmits(c, n, p, iface, now, rng);
      case ToLinkProof => HandshakeEmits(c, n, p, iface, now, rng);
      case ToLink => LinkEmits(c, n, p, iface, now); LinkKeeps(c, n, p, iface, now);
      case ToData => DataEmits(c, n.t, p, iface, now); DataKeeps(c, n.t, p, iface, now);
      case _ =>
    }
  }

  /** What a dispatched packet does to routes, caches and the wire. */
  lemma DispatchEmits(c: Suite, n: Node, p: Packet, iface: nat, now: nat, rng: Option<Entropy>)
    requires Sized(c) && WellFormed(p) && p.hops > 0 && CacheOk(n.t) && Unexpired(n.t, now)
    requires forall d | d in n.t.paths :: n.t.paths[d].hops >= 1
    ensures var e := Dispatch(c, n, p, iface, now, rng);
            CacheOk(e.st.t) && EmitsOnly(c, e.st.t, e.out) && LearnsFrom(n.t, e.st.t, p, iface)
  {
    if Route(c, p) == ToPathRequest {
      RequestEmits(c, n.t, p, iface, now);
    } else if Route(c, p) == ToAnnounce {
      AnnounceEmits(c, n.t, p, iface, now);
    } else {
      OthersEmit(c, n, p, iface, now, rng);
      hide Dispatch;
    }
    hide HandleAnnounce, HandlePathRequest, HandleData, HandleLink, HandleRequest, HandleLinkProof, HandleProof;
    hide IsAnnounce, Vouches;
  }

  /** The announce a call hears, if any, with its hop count already incremented. */
  function Heard(call: Call): Option<Packet> {
    if call.Inbound? && Decode(call.bytes).Ok? && Decode(call.bytes).value.hops < MAX_HOPS then
      Some(Decode(call.bytes).value.(hops := Decode(call.bytes).value.hops + 1))
    else None
  }

  ghost predicate Learns(a: Transport, b: Transport, call: Call) {
    if call.Inbound? && Heard(call).Some? then LearnsFrom(a, b, Heard(call).value, call.iface) else a.paths == b.paths
  }

  lemma SendAnnounceEmits(c: Suite, t: Transport, dest: Bytes, app: Bytes, random: Bytes, iface: nat)
    requires |dest| == 16 && CacheOk(t)
    ensures var e := SendAnnounce(c, t, dest, app, random, iface);
            CacheOk(e.st) && EmitsOnly(c, e.st, e.out) && e.st.paths == t.paths
  {
    var local := FindSingle(t.locals, dest);
    if local.Some? {
      var a := Announces.Build(c, t.identity, dest, local.value.name, random, app);
      DecodeEncode(Header1(SINGLE, ANNOUNCE, dest, NO_CONTEXT, Announces.Payload(a)));
      assert IsLocal(t, dest);
    }
    hide Encode, Decode;
  }

  lemma MessageEmits(c: Suite, t: Transport, dest: Bytes, m: Bytes, eph: Bytes, iv: Bytes, receipt: bool, now: nat)
    requires Unexpired(t, now)
    ensures var e := SendMessage(c, t, dest, m, eph, iv, receipt, now).0;
            && e.st.paths == t.paths && e.st.cached == t.cached
            && forall o | o in e.out :: !IsAnnounce(o.1)
  {
    NothingPruned(t, now);
    if dest in t.paths {
      NotAnAnnounce(MessagePacket(c, dest, t.paths[dest], m, eph, iv));
    }
    hide Encode, IsAnnounce, Encrypt;
  }

  lemma StartLinkEmits(c: Suite, n: Node, dest: Bytes, xprv: Bytes, eprv: Bytes, now: nat)
    requires Unexpired(n.t, now)
    ensures var e := StartLink(c, n, dest, xprv, eprv, now);
            && e.st.t.paths == n.t.paths && e.st.t.cached == n.t.cached
            && forall o | o in e.out :: !IsAnnounce(o.1)
  {
    NothingPruned(n.t, now);
    var p := RequestPacket(c, dest, xprv, eprv);
    NotAnAnnounce(p);
    if dest in n.t.paths {
      NotAnAnnounce(p.(headerType := HEADER_2, propagation := TRANSPORT, transportId := n.t.paths[dest].nextHop));
    }
    hide Encode, IsAnnounce, LinkIdOf;
  }

  lemma CallEmits(c: Suite, n: Node, call: Call)
    requires !call.Inbound? && !call.Announce? && InTime(n, call)
    ensures var e := Exec(c, n, call);
            && e.st.t.paths == n.t.paths && e.st.t.cached == n.t.cached
            && forall o | o in e.out :: !IsAnnounce(o.1)
  {
    hide Encode, IsAnnounce, SendMessage, StartLink, Links.Tick, Unexpired, HandleInbound, SendAnnounce;
    match call
    case AskPath(dest, tag) =>
      var requester := if n.t.enabled then IdentityHash(c, n.t.identity) else [];
      NotAnAnnounce(Header1(PLAIN, DATA, PathRequestDest(c), NO_CONTEXT, dest + requester + tag));
    case SendTo(dest, m, eph, iv, receipt, now) => MessageEmits(c, n.t, dest, m, eph, iv, receipt, now);
    case EstablishLink(dest, xprv, eprv, now) => StartLinkEmits(c, n, dest, xprv, eprv, now);
    case LinkSend(link, m, iv, now) =>
      if Usable(n.links, link) { NotAnAnnounce(LinkPacket(link, NO_CONTEXT, c.seal(n.links[link].key.value, m, iv))); }
    case TickAt(now) => TickEmits(n, now);
    case _ =>
  }

  lemma ExecEmits(c: Suite, n: Node, call: Call)
    requires Sized(c) && Typed(call) && InTime(n, call) && CacheOk(n.t)
    requires forall d | d in n.t.paths :: n.t.paths[d].hops >= 1
    ensures var e := Exec(c, n, call);
            CacheOk(e.st.t) && EmitsOnly(c, e.st.t, e.out) && Learns(n.t, e.st.t, call)
  {
    if call.Inbound? {
      if Heard(call).Some? && !Seen(c, n.t, Decode(call.bytes).value, call.now) {
        var p := Decode(call.bytes).value;
        EncodeDecode(call.bytes);
        DispatchEmits(c, n.(t := Noted(c, n.t, p, call.now)), p.(hops := p.hops + 1), call.iface, call.now, call.rng);
      }
    } else if call.Announce? {
      SendAnnounceEmits(c, n.t, call.dest, call.appData, call.random, call.iface);
    } else {
      CallEmits(c, n, call);
    }
    hide Dispatch, SendAnnounce, Encode, Decode, Vouches;
  }

  // ------------------------------------------------------------------ the network keeps the invariant

  ghost predicate NetImproves(a: Net, b: Net) {
    a.nodes.Keys == b.nodes.Keys && forall x | x in a.nodes :: Improves(a.nodes[x].t, b.nodes[x].t)
  }

  lemma BackedStays(c: Suite, topo: Topology, a: Net, b: Net, x: nat, d: Bytes, e: PathEntry)
    requires NetImproves(a, b) && Backed(c, topo, a, x, d, e)
    ensures Backed(c, topo, b, x, d, e)
  {
  }

  lemma FlightStays(c: Suite, topo: Topology, a: Net, b: Net, f: Flight)
    requires NetImproves(a, b) && FlightOk(c, topo, a, f)
    ensures FlightOk(c, topo, b, f)
  {
  }

  /** A route learned from a packet in flight is backed by the packet's sender. */
  lemma LearnedBacked(c: Suite, topo: Topology, net: Net, f: Flight, p: Packet, e: PathEntry)
    requires FlightOk(c, topo, net, f) && IsAnnounce(f.bytes)
    requires p == Decode(f.bytes).value && p.hops < MAX_HOPS
    requires e.iface == f.iface && e.hops == p.hops + 1
    requires e.nextHop == if p.headerType == HEADER_2 then p.transportId else None
    ensures Backed(c, topo, net, f.to, p.dest, e)
  {
  }

  /** The routes of one node after a step. */
  lemma RoutesStay(c: Suite, topo: Topology, a: Net, b: Net, s: Step, y: nat)
    requires NetImproves(a, b) && Allowed(a, s) && (s.Do? || s.Receive?) && y in a.nodes
    requires NodeOk(c, topo, a, y) && CacheOk(b.nodes[y].t)
    requires if y == NodeOf(s) then Learns(a.nodes[y].t, b.nodes[y].t, CallOf(s)) else b.nodes[y] == a.nodes[y]
    requires s.Receive? ==> FlightOk(c, topo, a, s.f)
    ensures NodeOk(c, topo, b, y)
  {
    hide Backed, Decode, CacheOk, FlightOk;
    forall d | d in b.nodes[y].t.paths
      ensures Backed(c, topo, b, y, d, b.nodes[y].t.paths[d])
    {
      var route := b.nodes[y].t.paths[d];
      if d !in a.nodes[y].t.paths || a.nodes[y].t.paths[d] != route {
        LearnedBacked(c, topo, a, s.f, Decode(s.f.bytes).value, route);
      }
      BackedStays(c, topo, a, b, y, d, route);
    }
  }

  /** The packets in flight after a step. */
  lemma FlightsStay(c: Suite, topo: Topology, a: Net, b: Net, x: nat, out: seq<(nat, Bytes)>, f: Flight)
    requires NetImproves(a, b) && PointToPoint(topo, a) && x in a.nodes
    requires EmitsOnly(c, b.nodes[x].t, out)
    requires if f in a.wire then FlightOk(c, topo, a, f) else f in Launch(topo, x, out)
    ensures FlightOk(c, topo, b, f)
  {
    if f in a.wire {
      FlightStays(c, topo, a, b, f);
    }
  }

  /** What a call does to the node that executes it. */
  ghost predicate SoundCall(c: Suite, a: Transport, b: Transport, call: Call, out: seq<(nat, Bytes)>) {
    Improves(a, b) && Learns(a, b, call) && CacheOk(b) && EmitsOnly(c, b, out)
  }

  lemma CallInTime(net: Net, s: Step)
    requires Allowed(net, s) && (s.Do? || s.Receive?)
    ensures NodeOf(s) in net.nodes && InTime(net.nodes[NodeOf(s)], CallOf(s)) && CallOf(s) != EnableTransport(false)
  {
    hide Unexpired, Typed, IsAnnounce;
  }

  lemma CallIsSound(c: Suite, topo: Topology, net: Net, s: Step)
    requires Sized(c) && Inv(c, topo, net) && Allowed(net, s) && (s.Do? || s.Receive?)
    ensures var n := net.nodes[NodeOf(s)];
            SoundCall(c, n.t, Exec(c, n, CallOf(s)).st.t, CallOf(s), Exec(c, n, CallOf(s)).out)
  {
    var n := net.nodes[NodeOf(s)];
    assert NodeOk(c, topo, net, NodeOf(s));
    assert forall d | d in n.t.paths :: Backed(c, topo, net, NodeOf(s), d, n.t.paths[d]);
    ExecImproves(c, n, CallOf(s));
    ExecEmits(c, n, CallOf(s));
    hide Exec, Improves, Learns, EmitsOnly, CacheOk, FlightOk, IsLocal;
  }

  /** A sound call at one node, seen from the network. */
  lemma SoundCallKeeps(c: Suite, topo: Topology, a: Net, b: Net, s: Step, out: seq<(nat, Bytes)>)
    requires Inv(c, topo, a) && Allowed(a, s) && (s.Do? || s.Receive?)
    requires NodeOf(s) in b.nodes && b.nodes == a.nodes[NodeOf(s) := b.nodes[NodeOf(s)]]
    requires SoundCall(c, a.nodes[NodeOf(s)].t, b.nodes[NodeOf(s)].t, CallOf(s), out)
    requires forall f | f in b.wire :: f in a.wire || f in Launch(topo, NodeOf(s), out)
    ensures Inv(c, topo, b)
  {
    hide Improves, Learns, EmitsOnly, CacheOk, Backed, FlightOk, Launch, InTime, Unexpired, Typed, IsAnnounce;
    forall y | y in a.nodes ensures Improves(a.nodes[y].t, b.nodes[y].t) {
      ImprovesSelf(a.nodes[y].t);
    }
    forall y | y in b.nodes ensures NodeOk(c, topo, b, y) {
      assert NodeOk(c, topo, a, y);
      RoutesStay(c, topo, a, b, s, y);
    }
    forall f | f in b.wire ensures FlightOk(c, topo, b, f) {
      FlightsStay(c, topo, a, b, NodeOf(s), out, f);
    }
  }

  lemma NodeStepKeeps(c: Suite, topo: Topology, net: Net, s: Step)
    requires Sized(c) && Inv(c, topo, net) && Allowed(net, s) && (s.Do? || s.Receive?)
    ensures Inv(c, topo, Apply(c, topo, net, s))
  {
    CallIsSound(c, topo, net, s);
    hide Inv, Allowed, SoundCall, Launch, CallOf;
    SoundCallKeeps(c, topo, net, Apply(c, topo, net, s), s, Exec(c, net.nodes[NodeOf(s)], CallOf(s)).out);
  }

  lemma ImprovesSelf(t: Transport)
    ensures Improves(t, t)
  {
  }

  lemma StepKeeps(c: Suite, topo: Topology, net: Net, s: Step)
    requires Sized(c) && Inv(c, topo, net) && Allowed(net, s)
    ensures Inv(c, topo, Apply(c, topo, net, s))
  {
    if s.Do? || s.Receive? {
      NodeStepKeeps(c, topo, net, s);
    }
  }

  /** In every state a network of honest nodes can reach, every route is backed by the node it
      leads to, under loss, duplication, reordering and injected non-announce traffic. */
  lemma {:induction false} RoutesBacked(c: Suite, topo: Topology, start: Net, steps: seq<Step>, run: seq<Net>, k: nat)
    requires Sized(c) && PointToPoint(topo, start) && Fresh(start)
    requires IsRun(c, topo, start, steps, run) && k < |run|
    ensures Inv(c, topo, run[k])
  {
    if k > 0 {
      RoutesBacked(c, topo, start, steps, run, k - 1);
      StepKeeps(c, topo, run[k - 1], steps[k - 1]);
    }
  }

  // ------------------------------------------------------------------ next-hop chains

  /** `x` is not a host of `dest` and has a route to it. */
  predicate Routes(net: Net, x: nat, dest: Bytes) {
    x in net.nodes && !IsLocal(net.nodes[x].t, dest) && dest in net.nodes[x].t.paths
  }

  predicate Hosts(net: Net, x: nat, dest: Bytes) {
    x in net.nodes && IsLocal(net.nodes[x].t, dest)
  }

  function Hops(net: Net, x: nat, dest: Bytes): nat
    requires Routes(net, x, dest)
  {
    net.nodes[x].t.paths[dest].hops
  }

  /** `w` follows next hops toward `dest`, one node after another, up to the first host. */
  ghost predicate IsWalk(topo: Topology, net: Net, dest: Bytes, w: seq<nat>) {
    && w != []
    && forall i | 0 <= i < |w| - 1 ::
         && Routes(net, w[i], dest)
         && (w[i], net.nodes[w[i]].t.paths[dest].iface) in topo
         && w[i + 1] == Peer(topo, w[i], net.nodes[w[i]].t.paths[dest].iface)
  }

  /** One hop: onto a host, or onto a node with a strictly shorter route. */
  lemma NextHop(c: Suite, topo: Topology, net: Net, dest: Bytes, x: nat) returns (y: nat)
    requires Inv(c, topo, net) && Routes(net, x, dest)
    ensures (x, net.nodes[x].t.paths[dest].iface) in topo
    ensures y == Peer(topo, x, net.nodes[x].t.paths[dest].iface)
    ensures Hosts(net, y, dest) || (Routes(net, y, dest) && Hops(net, y, dest) < Hops(net, x, dest))
    ensures Hops(net, x, dest) == 1 ==> Hosts(net, y, dest)
    ensures Hops(net, x, dest) >= 1
  {
    assert NodeOk(c, topo, net, x);
    assert Backed(c, topo, net, x, dest, net.nodes[x].t.paths[dest]);
    y := Peer(topo, x, net.nodes[x].t.paths[dest].iface);
  }

  /** Along a chain of next hops the hop count strictly decreases. */
  lemma {:induction false} WalkDescends(c: Suite, topo: Topology, net: Net, dest: Bytes, w: seq<nat>, i: nat, j: nat)
    requires Inv(c, topo, net) && IsWalk(topo, net, dest, w) && i < j < |w|
    ensures Hosts(net, w[j], dest)
         || (Routes(net, w[j], dest) && Hops(net, w[j], dest) + (j - i) <= Hops(net, w[i], dest))
    ensures j - i <= Hops(net, w[i], dest)
    decreases j
  {
    var y := NextHop(c, topo, net, dest, w[j - 1]);
    if i < j - 1 {
      WalkDescends(c, topo, net, dest, w, i, j - 1);
      assert Routes(net, w[j - 1], dest);
    }
  }

  /** No chain of next hops visits a node twice, and none is longer than the route says. */
  lemma NoLoops(c: Suite, topo: Topology, net: Net, dest: Bytes, w: seq<nat>)
    requires Inv(c, topo, net) && IsWalk(topo, net, dest, w)
    ensures forall i, j | 0 <= i < j < |w| :: w[i] != w[j]
    ensures |w| > 1 ==> |w| - 1 <= Hops(net, w[0], dest)
  {
    forall i, j | 0 <= i < j < |w| ensures w[i] != w[j] {
      WalkDescends(c, topo, net, dest, w, i, j);
      assert Routes(net, w[i], dest);
    }
    if |w| > 1 {
      WalkDescends(c, topo, net, dest, w, 0, |w| - 1);
    }
  }

  lemma WalkOn(topo: Topology, net: Net, dest: Bytes, x: nat, rest: seq<nat>)
    requires IsWalk(topo, net, dest, rest) && Routes(net, x, dest)
    requires (x, net.nodes[x].t.paths[dest].iface) in topo && rest[0] == Peer(topo, x, net.nodes[x].t.paths[dest].iface)
    ensures IsWalk(topo, net, dest, [x] + rest)
  {
    hide Routes, Peer;
    var w := [x] + rest;
    forall i | 0 < i < |w| - 1 ensures w[i] == rest[i - 1] && w[i + 1] == rest[i] {
    }
  }

  /** From every node with a route, following next hops ends at a host. */
  lemma {:induction false} WalkArrives(c: Suite, topo: Topology, net: Net, dest: Bytes, x: nat) returns (w: seq<nat>)
    requires Inv(c, topo, net) && Routes(net, x, dest)
    ensures IsWalk(topo, net, dest, w) && w[0] == x && Hosts(net, w[|w| - 1], dest)
    decreases Hops(net, x, dest)
  {
    var y := NextHop(c, topo, net, dest, x);
    if Hosts(net, y, dest) {
      w := [x, y];
    } else {
      var rest := WalkArrives(c, topo, net, dest, y);
      w := [x] + rest;
      WalkOn(topo, net, dest, x, rest);
    }
  }

  /** Loop freedom over whole runs. */
  lemma LoopFree(c: Suite, topo: Topology, start: Net, steps: seq<Step>, run: seq<Net>, k: nat, dest: Bytes, x: nat)
    returns (w: seq<nat>)
    requires Sized(c) && PointToPoint(topo, start) && Fresh(start)
    requires IsRun(c, topo, start, steps, run) && k < |run| && Routes(run[k], x, dest)
    ensures IsWalk(topo, run[k], dest, w) && w[0] == x && Hosts(run[k], w[|w| - 1], dest)
    ensures |w| - 1 <= Hops(run[k], x, dest)
    ensures forall v | IsWalk(topo, run[k], dest, v) :: forall i, j | 0 <= i < j < |v| :: v[i] != v[j]
  {
    RoutesBacked(c, topo, start, steps, run, k);
    w := WalkArrives(c, topo, run[k], dest, x);
    NoLoops(c, topo, run[k], dest, w);
    forall v | IsWalk(topo, run[k], dest, v) ensures forall i, j | 0 <= i < j < |v| :: v[i] != v[j] {
      NoLoops(c, topo, run[k], dest, v);
    }
  }
}
