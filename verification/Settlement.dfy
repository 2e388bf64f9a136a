/** When a delivery receipt settles: only a proof by a neighbour settles it, since relays pass no proofs on; so over a
    path of one hop it settles exactly once, and through a relay never. */
module Settlement {
  import opened Base
  import opened Crypto
  import opened Packets
  import opened PathTables
  import opened Transports
  import opened Links
  import opened Nodes
  import opened Network
  import opened LoopFreedom
  import opened Delivery
  import opened Arrival
  import opened Receipts
  import Announces
  import Order

  // ------------------------------------------------------------------ where proofs come from

  /** A packet the proof handler takes. */
  predicate IsProof(bytes: Bytes) {
    Decode(bytes).Ok? && Decode(bytes).value.packetType == PROOF && Decode(bytes).value.destType == SINGLE
  }

  /** A proof that can settle a receipt under this hash. */
  predicate IsProofOf(bytes: Bytes, hash: Bytes) {
    IsProof(bytes) && |Decode(bytes).value.data| >= 32 && Decode(bytes).value.data[..32] == hash
  }

  lemma FlagSplit(i: nat, h: nat, c: nat, r: nat, d: nat, t: nat)
    requires d < 4 && t < 4
    ensures FlagByte(i, h, c, r, d, t) / 4 % 4 == d
  {
    var high := 8 * i + 4 * h + 2 * c + r;
    assert FlagByte(i, h, c, r, d, t) == 16 * high + (4 * d + t);
    Low(high, d, t, FlagByte(i, h, c, r, d, t));
  }

  lemma FlagsDest(p: Packet)
    requires p.packetType < 4 && p.destType < 4
    ensures TypeBits(Flags(p)) == p.packetType && DestBits(Flags(p)) == p.destType
  {
    hide FlagByte;
    FlagsType(p);
    FlagSplit(Bit(p.ifac), p.headerType % 2, Bit(p.contextFlag), p.propagation % 2, p.destType % 4, p.packetType % 4);
  }

  lemma NoProof(p: Packet)
    requires p.packetType < 4 && p.destType < 4 && !(p.packetType == PROOF && p.destType == SINGLE)
    ensures !IsProof(Encode(p))
  {
    FlagsDest(p);
    hide Flags, TypeBits, DestBits, HeaderBit, PropagationBit, ContextBit, IfacBit;
    assert Encode(p)[0] == Flags(p);
  }

  ghost predicate Proofless(out: seq<(nat, Bytes)>) {
    forall o | o in out :: !IsProof(o.1)
  }

  lemma AnnounceProofless(c: Suite, t: Transport, p: Packet, iface: nat, now: nat)
    requires p.packetType == ANNOUNCE && p.destType < 4
    ensures Proofless(HandleAnnounce(c, t, p, iface, now).out)
  {
    NoProof(Relayed(c, t, p));
    hide Encode, IsProof, Announces.Parse, Announces.Verified, EntryOf, FindLocal, Prefers, IdentityHash;
  }

  lemma RequestProofless(c: Suite, t: Transport, p: Packet, iface: nat, now: nat)
    requires CacheOk(t)
    ensures Proofless(HandlePathRequest(c, t, p, iface, now).out)
  {
    if HandlePathRequest(c, t, p, iface, now).out != [] {
      var target := p.data[..16];
      NoProof(PathResponse(c, t, target, t.cached[target]));
    }
    hide Encode, IsProof, FindLocal, IdentityHash;
  }

  lemma {:induction false} KeepalivesProofless(r: Registry, ids: seq<Bytes>, now: nat)
    requires forall id | id in ids :: id in r
    ensures Proofless(Keepalives(r, ids, now))
  {
    if ids != [] {
      NoProof(LinkPacket(ids[0], KEEPALIVE, [0xFF]));
      KeepalivesProofless(r, ids[1..], now);
    }
    hide Encode, IsProof;
  }

  lemma TickProofless(n: Node, now: nat)
    ensures Proofless(Nodes.Tick(n, now).out)
  {
    KeepalivesProofless(n.links, Order.Sorted(n.links.Keys), now);
    hide Order.Sorted, Keepalives, Closings;
  }

  lemma LinkProofless(c: Suite, n: Node, p: Packet, iface: nat, now: nat)
    ensures Proofless(HandleLink(c, n, p, iface, now).out)
  {
    NoProof(LinkPacket(p.dest, KEEPALIVE, [0xFE]));
    if AsksClose(c, n.links, p, iface) {
      TickProofless(Nodes.Close(OnLinks(n, HandleLinkData(c, n.links, p, iface, now)).st, p.dest), now);
    }
    hide Encode, IsProof, AsksClose, Nodes.Tick, LinkPacket;
  }

  lemma HandshakeProofless(c: Suite, n: Node, p: Packet, iface: nat, now: nat, rng: Option<Entropy>)
    ensures rng.Some? ==> Proofless(HandleRequest(c, n.t, n.links, p, iface, now, rng.value).out)
    ensures Proofless(HandleLinkProof(c, n.links, p, now, rng).out)
  {
    var link := LinkIdOf(c, p);
    if rng.Some? {
      NoProof(Header1(LINK, PROOF, link, LRPROOF, LinkProof(c, n.t.identity, link, rng.value.first)));
    }
    if HandleLinkProof(c, n.links, p, now, rng).out != [] {
      var peer := VerifyLinkProof(c, n.links[p.dest].public.value, p.dest, p.data).value;
      var key := LinkKey(c, n.links[p.dest].xprv, peer, p.dest);
      NoProof(LinkPacket(p.dest, LRRTT, c.seal(key, RTT_REPORT, rng.value.first)));
    }
    hide Encode, IsProof, FindSingle, LinkIdOf, LinkProof, LinkKey, VerifyLinkProof, LinkPacket;
  }

  lemma ForwardProofless(t: Transport, p: Packet, iface: nat, now: nat)
    requires p.packetType == DATA && p.destType < 4
    ensures Proofless(Forward(t, p, iface, now).out)
  {
    NoProof(Direct(p));
    if p.dest in t.paths {
      NoProof(p.(transportId := t.paths[p.dest].nextHop));
    }
    hide Encode, IsProof, Direct;
  }

  /** The node hosts the destination as SINGLE, with proofs switched on. */
  predicate Proving(t: Transport, dest: Bytes) {
    IsLocal(t, dest) && FindLocal(t.locals, dest).value.kind == Single(true)
  }

  lemma ForeignData(c: Suite, t: Transport, p: Packet, iface: nat, now: nat)
    requires !IsLocal(t, p.dest)
    ensures HandleData(c, t, p, iface, now).out in {[], Forward(t, p, iface, now).out}
  {
    hide Forward, FindLocal, IdentityHash;
  }

  lemma LocalData(c: Suite, t: Transport, p: Packet, iface: nat, now: nat)
    requires IsLocal(t, p.dest) && HandleData(c, t, p, iface, now).out != []
    ensures HandleData(c, t, p, iface, now).out == [(iface, Encode(ProofPacket(c, t.identity, FullPacketHash(c, p))))]
    ensures Proving(t, p.dest)
  {
    hide Encode, FindLocal, IdentityHash, ProofPacket, Decrypt, FullPacketHash;
  }

  /** Data makes a node emit a proof only of that data, back where it came from, and only if the node hosts its
      destination. */
  lemma DataProves(c: Suite, t: Transport, p: Packet, iface: nat, now: nat, o: (nat, Bytes))
    requires p.packetType == DATA && p.destType < 4 && o in HandleData(c, t, p, iface, now).out && IsProof(o.1)
    ensures o == (iface, Encode(ProofPacket(c, t.identity, FullPacketHash(c, p)))) && Proving(t, p.dest)
  {
    hide Encode, IsProof, FindLocal, ProofPacket, Forward, FullPacketHash, HandleData, Proving;
    if IsLocal(t, p.dest) {
      LocalData(c, t, p, iface, now);
    } else {
      ForeignData(c, t, p, iface, now);
      ForwardProofless(t, p, iface, now);
    }
  }

  /** What a handler emits is no proof, except for data. */
  lemma DispatchProofless(c: Suite, n: Node, p: Packet, iface: nat, now: nat, rng: Option<Entropy>)
    requires WellFormed(p) && CacheOk(n.t) && Route(c, p) != ToData
    ensures Proofless(Dispatch(c, n, p, iface, now, rng).out)
  {
    hide HandleAnnounce, HandlePathRequest, HandleData, HandleLinkData, HandleRequest, HandleLinkProof;
    hide Encode, IsProof, ProofValid, AsksClose, HandleLink, CacheOk;
    match Route(c, p) {
      case ToPathRequest => RequestProofless(c, n.t, p, iface, now);
      case ToLinkRequest => HandshakeProofless(c, n, p, iface, now, rng);
      case ToLinkProof => HandshakeProofless(c, n, p, iface, now, rng);
      case ToLink => LinkProofless(c, n, p, iface, now);
      case ToAnnounce => AnnounceProofless(c, n.t, p, iface, now);
      case _ =>
    }
  }

  lemma CallProofless(c: Suite, n: Node, call: Call)
    requires !call.Inbound? && InTime(n, call)
    ensures Proofless(Exec(c, n, call).out)
  {
    hide Encode, IsProof, SendMessage, StartLink, Links.Tick, Unexpired, HandleInbound, SendAnnounce;
    match call
    case Announce(dest, app, random, iface) => OwnAnnounceProofless(c, n.t, dest, app, random, iface);
    case AskPath(dest, tag) =>
      var requester := if n.t.enabled then IdentityHash(c, n.t.identity) else [];
      NoProof(Header1(PLAIN, DATA, PathRequestDest(c), NO_CONTEXT, dest + requester + tag));
    case SendTo(dest, m, eph, iv, receipt, now) => MessageProofless(c, n.t, dest, m, eph, iv, receipt, now);
    case EstablishLink(dest, xprv, eprv, now) => StartLinkProofless(c, n, dest, xprv, eprv, now);
    case LinkSend(link, m, iv, now) =>
      if Usable(n.links, link) { NoProof(LinkPacket(link, NO_CONTEXT, c.seal(n.links[link].key.value, m, iv))); }
    case TickAt(now) => TickProofless(n, now);
    case _ =>
  }

  lemma OwnAnnounceProofless(c: Suite, t: Transport, dest: Bytes, app: Bytes, random: Bytes, iface: nat)
    ensures Proofless(SendAnnounce(c, t, dest, app, random, iface).out)
  {
    hide Encode, IsProof, FindSingle, Announces.Build, Announces.Payload;
    var local := FindSingle(t.locals, dest);
    if local.Some? {
      var a := Announces.Build(c, t.identity, dest, local.value.name, random, app);
      NoProof(Header1(SINGLE, ANNOUNCE, dest, NO_CONTEXT, Announces.Payload(a)));
    }
  }

  lemma MessageProofless(c: Suite, t: Transport, dest: Bytes, m: Bytes, eph: Bytes, iv: Bytes, receipt: bool, now: nat)
    requires Unexpired(t, now)
    ensures Proofless(SendMessage(c, t, dest, m, eph, iv, receipt, now).0.out)
  {
    NothingPruned(t, now);
    if dest in t.paths {
      NoProof(MessagePacket(c, dest, t.paths[dest], m, eph, iv));
    }
    hide Encode, IsProof, Encrypt;
  }

  lemma StartLinkProofless(c: Suite, n: Node, dest: Bytes, xprv: Bytes, eprv: Bytes, now: nat)
    requires Unexpired(n.t, now)
    ensures Proofless(StartLink(c, n, dest, xprv, eprv, now).out)
  {
    NothingPruned(n.t, now);
    var p := RequestPacket(c, dest, xprv, eprv);
    NoProof(p);
    if dest in n.t.paths {
      NoProof(p.(headerType := HEADER_2, propagation := TRANSPORT, transportId := n.t.paths[dest].nextHop));
    }
    hide Encode, IsProof, LinkIdOf;
  }

  /** The full hash of a byte string that decodes. */
  function HashOf(c: Suite, bytes: Bytes): Option<Bytes> {
    if Decode(bytes).Ok? then Some(FullPacketHash(c, Decode(bytes).value)) else None
  }

  /** A node puts a proof on the wire only of a packet it just received, on the interface it came from, and only if it
      hosts the packet's destination. */
  lemma ProofsEmitted(c: Suite, n: Node, call: Call, o: (nat, Bytes))
    requires Sized(c) && InTime(n, call) && CacheOk(n.t) && o in Exec(c, n, call).out && IsProof(o.1)
    ensures call.Inbound? && HashOf(c, call.bytes).Some?
    ensures o == (call.iface, Encode(ProofPacket(c, n.t.identity, HashOf(c, call.bytes).value)))
    ensures Proving(n.t, Decode(call.bytes).value.dest) && Decode(call.bytes).value.packetType == DATA
  {
    hide Encode, Exec, IsProof, Dispatch, Proving, Noted, FullPacketHash;
    if call.Inbound? {
      InboundProves(c, n, call, o);
    } else {
      CallProofless(c, n, call);
    }
  }

  lemma InboundProves(c: Suite, n: Node, call: Call, o: (nat, Bytes))
    requires Sized(c) && call.Inbound? && CacheOk(n.t) && o in Exec(c, n, call).out && IsProof(o.1)
    ensures HashOf(c, call.bytes).Some?
    ensures o == (call.iface, Encode(ProofPacket(c, n.t.identity, HashOf(c, call.bytes).value)))
    ensures Proving(n.t, Decode(call.bytes).value.dest) && Decode(call.bytes).value.packetType == DATA
  {
    hide Encode, Decode, IsProof, Dispatch, Proving, Noted, FullPacketHash, HandleInbound, Seen, ProofPacket, CacheOk, MaybePrune;
    InboundCases(c, n, call.bytes, call.iface, call.now, call.rng);
    assert Admitted(c, n, call.bytes, call.now);
    EncodeDecode(call.bytes);
    var n', p := AdmittedNode(c, n, call.bytes, call.now), AdmittedPacket(c, n, call.bytes, call.now);
    NotedShortens(c, n.t, Decode(call.bytes).value, call.now);
    NotedCacheOk(c, n.t, Decode(call.bytes).value, call.now);
    SameHash(c, Decode(call.bytes).value);
    if Route(c, p) == ToData {
      DataOut(c, n', p, call.iface, call.now, call.rng);
      DataProves(c, n'.t, p, call.iface, call.now, o);
      ProvingLocals(n.t, n'.t, p.dest);
    } else {
      DispatchProofless(c, n', p, call.iface, call.now, call.rng);
    }
  }

  lemma NotedCacheOk(c: Suite, t: Transport, p: Packet, now: nat)
    requires CacheOk(t)
    ensures CacheOk(Noted(c, t, p, now))
  {
    hide PacketHash;
  }

  lemma SameHash(c: Suite, p: Packet)
    requires p.hops < 255
    ensures FullPacketHash(c, p.(hops := p.hops + 1)) == FullPacketHash(c, p)
  {
  }

  lemma ProvingLocals(a: Transport, b: Transport, dest: Bytes)
    requires a.locals == b.locals
    ensures Proving(a, dest) == Proving(b, dest)
  {
  }

  lemma DataOut(c: Suite, n: Node, p: Packet, iface: nat, now: nat, rng: Option<Entropy>)
    requires Route(c, p) == ToData
    ensures Dispatch(c, n, p, iface, now, rng).out == HandleData(c, n.t, p, iface, now).out && p.packetType == DATA
  {
    hide HandleData;
  }

  // ------------------------------------------------------------------ what settles a receipt

  /** Is this packet, as a handler sees it, a proof that can settle a receipt under this hash? */
  predicate ProofFor(p: Packet, hash: Bytes) {
    p.packetType == PROOF && p.destType == SINGLE && |p.data| >= 32 && p.data[..32] == hash
  }

  /** The receipt is as it was. */
  predicate Kept(a: Transport, b: Transport, hash: Bytes) {
    hash in a.receipts ==> hash in b.receipts && b.receipts[hash] == a.receipts[hash]
  }

  /** A receipt that has not timed out at `now` is kept or reported delivered, and is reported only if `may`. */
  ghost predicate Settles(a: Transport, b: Transport, events: seq<Event>, hash: Bytes, now: nat, may: bool) {
    && (CountDelivered(events, hash) > 0 ==> may)
    && (hash in a.receipts && a.receipts[hash].expiresAt > now ==> Kept(a, b, hash) || CountDelivered(events, hash) > 0)
  }

  lemma TickSettles(n: Node, now: nat, hash: Bytes)
    requires QueueQuiet(n)
    ensures Settles(n.t, Nodes.Tick(n, now).st.t, Nodes.Tick(n, now).events, hash, now, false)
  {
    TickBalanced(n, now, hash);
    hide CountDelivered, Links.Tick;
  }

  lemma LinkSettles(c: Suite, n: Node, p: Packet, iface: nat, now: nat, hash: Bytes)
    requires QueueQuiet(n)
    ensures Settles(n.t, HandleLink(c, n, p, iface, now).st.t, HandleLink(c, n, p, iface, now).events, hash, now, false)
  {
    LinkBalanced(c, n, p, iface, now, hash);
    hide CountDelivered, HandleLinkData, AsksClose, Links.Tick, Links.Close;
  }

  lemma ProofSettling(c: Suite, t: Transport, p: Packet, hash: Bytes, now: nat)
    requires p.packetType == PROOF && p.destType == SINGLE
    ensures Settles(t, HandleProof(c, t, p).st, HandleProof(c, t, p).events, hash, now, ProofFor(p, hash))
  {
    CountNone([], hash);
    if HandleProof(c, t, p).events != [] {
      OneDelivered(hash, p.data[..32]);
    }
    hide ProofValid, CountDelivered;
  }

  lemma DispatchSettles(c: Suite, n: Node, p: Packet, iface: nat, now: nat, rng: Option<Entropy>, hash: Bytes)
    requires QueueQuiet(n)
    ensures var e := Dispatch(c, n, p, iface, now, rng); Settles(n.t, e.st.t, e.events, hash, now, ProofFor(p, hash))
  {
    CountNone([], hash);
    hide HandleAnnounce, HandleData, HandleLink, HandleRequest, HandleLinkProof, HandlePathRequest, HandleProof;
    hide CountDelivered;
    match Route(c, p) {
      case ToLinkRequest =>
        HandshakeQuiet(c, n, p, iface, now, rng);
        if rng.Some? { CountNone(HandleRequest(c, n.t, n.links, p, iface, now, rng.value).events, hash); }
      case ToLinkProof =>
        HandshakeQuiet(c, n, p, iface, now, rng);
        CountNone(HandleLinkProof(c, n.links, p, now, rng).events, hash);
      case ToLink => LinkSettles(c, n, p, iface, now, hash);
      case ToAnnounce => AnnounceBalanced(c, n.t, p, iface, now, hash);
      case ToData => DataBalanced(c, n.t, p, iface, now, hash);
      case ToPathRequest => RequestBalanced(c, n.t, p, iface, now);
      case ToDeliveryProof => ProofSettling(c, n.t, p, hash, now);
      case ToNobody =>
    }
  }

  /** The clock reading of a call; calls that read none settle nothing at any time. */
  function ClockOf(call: Call): nat {
    if call.Inbound? || call.TickAt? then call.now else 0
  }

  lemma InboundSettles(c: Suite, n: Node, call: Call, hash: Bytes)
    requires QueueQuiet(n) && call.Inbound?
    ensures var e := Exec(c, n, call); Settles(n.t, e.st.t, e.events, hash, call.now, IsProofOf(call.bytes, hash))
  {
    InboundCases(c, n, call.bytes, call.iface, call.now, call.rng);
    CountNone([], hash);
    hide HandleInbound, Dispatch, Noted, MaybePrune, Seen, Decode, CountDelivered;
    NotedReceipts(c, n.t, Header1(0, 0, [], 0, []), call.now);
    if Admitted(c, n, call.bytes, call.now) {
      NotedReceipts(c, n.t, Decode(call.bytes).value, call.now);
      DispatchSettles(c, AdmittedNode(c, n, call.bytes, call.now), AdmittedPacket(c, n, call.bytes, call.now),
                      call.iface, call.now, call.rng, hash);
    }
  }

  /** A pending receipt is settled only by a proof under its hash, and only a time-out or a new request for it makes
      the node forget it otherwise. */
  lemma CallSettles(c: Suite, n: Node, call: Call, hash: Bytes)
    requires QueueQuiet(n) && !Asks(c, n, call, hash)
    ensures QueueQuiet(Exec(c, n, call).st)
    ensures CountDelivered(Exec(c, n, call).events, hash) + One(hash in Exec(c, n, call).st.t.receipts)
            <= One(hash in n.t.receipts)
    ensures Settles(n.t, Exec(c, n, call).st.t, Exec(c, n, call).events, hash, ClockOf(call),
                    call.Inbound? && IsProofOf(call.bytes, hash))
  {
    CountNone([], hash);
    hide HandleInbound, Encode, FindSingle, Nodes.Tick, Establish, Links.Send, SetProving, CountDelivered, LinkIdOf, IsProofOf,
         MessagePacket, FullPacketHash, Pruned, SendAnnounce;
    if call.Inbound? {
      InboundBalanced(c, n, call, hash);
      InboundSettles(c, n, call, hash);
    } else if call.SendTo? {
      SendBalanced(c, n, call, hash);
    } else {
      OthersBalanced(c, n, call, hash);
      if call.TickAt? {
        TickSettles(n, call.now, hash);
      } else if call.Announce? {
        AnnounceReceipts(c, n.t, call.dest, call.appData, call.random, call.iface);
      }
    }
  }

  lemma AnnounceReceipts(c: Suite, t: Transport, dest: Bytes, app: Bytes, random: Bytes, iface: nat)
    ensures var e := SendAnnounce(c, t, dest, app, random, iface); e.st.receipts == t.receipts && e.events == []
  {
    hide Encode;
  }

  // ------------------------------------------------------------------ proofs in flight

  /** The step injects neither a proof that settles this hash nor a packet with it. */
  predicate Unforged(c: Suite, s: Step, hash: Bytes) {
    s.Do? && s.call.Inbound? ==> !IsProofOf(s.call.bytes, hash) && HashOf(c, s.call.bytes) != Some(hash)
  }

  /** In this step a neighbour of `x` that hosts the destination receives a packet with this hash straight from `x`. */
  ghost predicate NeighbourProves(c: Suite, topo: Topology, net: Net, s: Step, x: nat, hash: Bytes) {
    && s.Receive? && s.f in net.wire && s.f.to in net.nodes && (s.f.to, s.f.iface) in topo && Sender(topo, s.f) == x
    && HashOf(c, s.f.bytes) == Some(hash) && Proving(net.nodes[s.f.to].t, Decode(s.f.bytes).value.dest)
  }

  ghost predicate ProvedFor(c: Suite, topo: Topology, steps: seq<Step>, run: seq<Net>, a: nat, k: nat, x: nat, hash: Bytes)
    requires a <= k <= |steps| < |run|
  {
    exists j :: a <= j < k && NeighbourProves(c, topo, run[j], steps[j], x, hash)
  }

  lemma ProofHash(c: Suite, id: Identity, h: Bytes, hash: Bytes)
    requires Sized(c) && |h| == 32 && IsProofOf(Encode(ProofPacket(c, id, h)), hash)
    ensures h == hash
  {
    var p := ProofPacket(c, id, h);
    DecodeEncode(p);
    hide Decode, Encode;
    assert p.data[..32] == h;
  }

  /** A new proof in flight was made by a node that just received the packet it proves. */
  lemma NewProof(c: Suite, topo: Topology, net: Net, s: Step, g: Flight, hash: Bytes)
    requires Sized(c) && Inv(c, topo, net) && Allowed(net, s) && Unforged(c, s, hash)
    requires g in Apply(c, topo, net, s).wire && g !in net.wire && IsProofOf(g.bytes, hash)
    ensures NeighbourProves(c, topo, net, s, g.to, hash)
  {
    hide Exec, IsProofOf, Proving, HashOf, InTime, Unexpired, Typed, IsAnnounce, CacheOk, FlightOk, Backed;
    assert s.Do? || s.Receive?;
    var w := NodeOf(s);
    CallInTime(net, s);
    assert NodeOk(c, topo, net, w);
    var out := Exec(c, net.nodes[w], CallOf(s)).out;
    assert g in Launch(topo, w, out);
    var i :| (w, i) in topo && topo[(w, i)] == (g.to, g.iface) && (i, g.bytes) in out;
    ProofOfIsProof(g.bytes, hash);
    ProofsEmitted(c, net.nodes[w], CallOf(s), (i, g.bytes));
    HashSized(c, CallOf(s).bytes);
    ProofHash(c, net.nodes[w].t.identity, HashOf(c, CallOf(s).bytes).value, hash);
  }

  lemma ProofOfIsProof(bytes: Bytes, hash: Bytes)
    requires IsProofOf(bytes, hash)
    ensures IsProof(bytes)
  {
  }

  lemma HashSized(c: Suite, bytes: Bytes)
    requires Sized(c) && HashOf(c, bytes).Some?
    ensures |HashOf(c, bytes).value| == 32 && Decode(bytes).Ok?
  {
    hide Decode;
  }

  /** Over every run: a proof on its way to `x` was made by a neighbour that hosts the destination, from a packet that
      came straight from `x`. */
  lemma {:induction false} ProofsFromNeighbours(c: Suite, topo: Topology, start: Net, steps: seq<Step>, run: seq<Net>,
                                                hash: Bytes, a: nat, k: nat, g: Flight)
    requires Sized(c) && PointToPoint(topo, start) && Fresh(start) && IsRun(c, topo, start, steps, run)
    requires a <= k < |run| && forall h | h in run[a].wire :: !IsProofOf(h.bytes, hash)
    requires forall i | a <= i < k :: Unforged(c, steps[i], hash)
    requires g in run[k].wire && IsProofOf(g.bytes, hash)
    ensures ProvedFor(c, topo, steps, run, a, k, g.to, hash)
    decreases k
  {
    hide Apply, IsProofOf, Unforged, NeighbourProves, Fresh, PointToPoint, InTime, Unexpired, Typed, IsAnnounce;
    assert k > a;
    if g in run[k - 1].wire {
      ProofsFromNeighbours(c, topo, start, steps, run, hash, a, k - 1, g);
    } else {
      RoutesBacked(c, topo, start, steps, run, k - 1);
      NewProof(c, topo, run[k - 1], steps[k - 1], g, hash);
    }
  }

  // ------------------------------------------------------------------ reports at one node

  /** The step is a call at node `x`. */
  predicate At(s: Step, x: nat) {
    (s.Do? || s.Receive?) && NodeOf(s) == x
  }

  /** How often node `x` reported this hash delivered between states `a` and `b`. */
  ghost function DeliveredAt(c: Suite, steps: seq<Step>, run: seq<Net>, x: nat, hash: Bytes, a: nat, b: nat): nat
    requires a <= b <= |steps| < |run|
    decreases b
  {
    if a == b then 0 else
      DeliveredAt(c, steps, run, x, hash, a, b - 1)
      + if At(steps[b - 1], x) && x in run[b - 1].nodes then
          CountDelivered(Exec(c, run[b - 1].nodes[x], CallOf(steps[b - 1])).events, hash)
        else 0
  }

  ghost predicate QueuesQuiet(net: Net) {
    forall x | x in net.nodes :: QueueQuiet(net.nodes[x])
  }

  lemma CallQuiet(c: Suite, n: Node, call: Call)
    requires QueueQuiet(n)
    ensures QueueQuiet(Exec(c, n, call).st)
  {
    hide Exec, CountDelivered, One, Asks;
    if call.Inbound? {
      InboundBalanced(c, n, call, []);
    } else if call.SendTo? {
      SendBalanced(c, n, call, []);
    } else {
      OthersBalanced(c, n, call, []);
    }
  }

  lemma {:induction false} QueuesStayQuiet(c: Suite, topo: Topology, start: Net, steps: seq<Step>, run: seq<Net>, k: nat)
    requires IsRun(c, topo, start, steps, run) && k < |run| && QueuesQuiet(start)
    ensures QueuesQuiet(run[k])
    decreases k
  {
    hide Exec, QueueQuiet, Launch, InTime, Unexpired, Typed, IsAnnounce;
    if k > 0 {
      QueuesStayQuiet(c, topo, start, steps, run, k - 1);
      var s := steps[k - 1];
      assert Allowed(run[k - 1], s) && run[k] == Apply(c, topo, run[k - 1], s);
      if s.Do? || s.Receive? {
        CallQuiet(c, run[k - 1].nodes[NodeOf(s)], CallOf(s));
      }
    }
  }

  /** Node `x` does not ask for this receipt in the step. */
  ghost predicate Unasked(c: Suite, net: Net, s: Step, x: nat, hash: Bytes) {
    x in net.nodes && (At(s, x) ==> !Asks(c, net.nodes[x], CallOf(s), hash))
  }

  /** One step at the node that waits for the receipt, or elsewhere. */
  lemma StepSettles(c: Suite, topo: Topology, net: Net, s: Step, x: nat, hash: Bytes)
    requires Allowed(net, s) && QueuesQuiet(net) && Unasked(c, net, s, x, hash)
    ensures var net' := Apply(c, topo, net, s);
            var events := if At(s, x) then Exec(c, net.nodes[x], CallOf(s)).events else [];
            && x in net'.nodes
            && CountDelivered(events, hash) + One(hash in net'.nodes[x].t.receipts) <= One(hash in net.nodes[x].t.receipts)
            && Settles(net.nodes[x].t, net'.nodes[x].t, events, hash, if At(s, x) then ClockOf(CallOf(s)) else 0,
                       At(s, x) && CallOf(s).Inbound? && IsProofOf(CallOf(s).bytes, hash))
  {
    hide Exec, CountDelivered, QueueQuiet, Asks, ClockOf, IsProofOf, Launch, InTime, Unexpired, Typed, IsAnnounce;
    CountNone([], hash);
    if At(s, x) {
      CallSettles(c, net.nodes[x], CallOf(s), hash);
    }
  }

  /** While the receipt is not asked for again it is reported at most once. */
  lemma {:induction false} ReportedOnce(c: Suite, topo: Topology, start: Net, steps: seq<Step>, run: seq<Net>, x: nat,
                                        hash: Bytes, a: nat, b: nat)
    requires IsRun(c, topo, start, steps, run) && a <= b <= |steps| && QueuesQuiet(start)
    requires forall i | a <= i < b :: Unasked(c, run[i], steps[i], x, hash)
    requires x in run[a].nodes
    ensures x in run[b].nodes
    ensures DeliveredAt(c, steps, run, x, hash, a, b) + One(hash in run[b].nodes[x].t.receipts)
            <= One(hash in run[a].nodes[x].t.receipts)
    decreases b
  {
    hide Exec, Apply, CountDelivered, QueuesQuiet, Unasked, Settles, One, InTime, Unexpired, Typed, IsAnnounce;
    if a < b {
      ReportedOnce(c, topo, start, steps, run, x, hash, a, b - 1);
      QueuesStayQuiet(c, topo, start, steps, run, b - 1);
      CountNone([], hash);
      StepSettles(c, topo, run[b - 1], steps[b - 1], x, hash);
    }
  }

  /** The node reads no clock past the time-out. */
  predicate Before(s: Step, x: nat, deadline: nat) {
    At(s, x) ==> ClockOf(CallOf(s)) < deadline
  }

  /** Until its time-out the receipt is pending or has been reported. */
  lemma {:induction false} PendingOrReported(c: Suite, topo: Topology, start: Net, steps: seq<Step>, run: seq<Net>, x: nat,
                                             hash: Bytes, a: nat, b: nat)
    requires IsRun(c, topo, start, steps, run) && a <= b <= |steps| && QueuesQuiet(start)
    requires x in run[a].nodes && hash in run[a].nodes[x].t.receipts
    requires forall i | a <= i < b ::
               Unasked(c, run[i], steps[i], x, hash) && Before(steps[i], x, run[a].nodes[x].t.receipts[hash].expiresAt)
    requires 0 < run[a].nodes[x].t.receipts[hash].expiresAt
    ensures x in run[b].nodes
    ensures Kept(run[a].nodes[x].t, run[b].nodes[x].t, hash) || DeliveredAt(c, steps, run, x, hash, a, b) > 0
    decreases b
  {
    hide Exec, Apply, CountDelivered, QueuesQuiet, Unasked, One, InTime, Unexpired, Typed, IsAnnounce, ClockOf;
    if a < b {
      PendingOrReported(c, topo, start, steps, run, x, hash, a, b - 1);
      QueuesStayQuiet(c, topo, start, steps, run, b - 1);
      CountNone([], hash);
      StepSettles(c, topo, run[b - 1], steps[b - 1], x, hash);
      assert Before(steps[b - 1], x, run[a].nodes[x].t.receipts[hash].expiresAt);
    }
  }

  /** A report comes from a proof that reached the node. */
  lemma {:induction false} ReportedByProof(c: Suite, topo: Topology, start: Net, steps: seq<Step>, run: seq<Net>, x: nat,
                                           hash: Bytes, a: nat, b: nat) returns (i: nat)
    requires IsRun(c, topo, start, steps, run) && a <= b <= |steps| && QueuesQuiet(start)
    requires forall i | a <= i < b :: Unasked(c, run[i], steps[i], x, hash)
    requires DeliveredAt(c, steps, run, x, hash, a, b) > 0
    ensures a <= i < b && At(steps[i], x) && CallOf(steps[i]).Inbound? && IsProofOf(CallOf(steps[i]).bytes, hash)
    decreases b
  {
    hide Exec, Apply, CountDelivered, QueuesQuiet, Unasked, One, Kept, IsProofOf, InTime, Unexpired, Typed, IsAnnounce;
    assert a < b;
    if DeliveredAt(c, steps, run, x, hash, a, b - 1) > 0 {
      i := ReportedByProof(c, topo, start, steps, run, x, hash, a, b - 1);
    } else {
      i := b - 1;
      QueuesStayQuiet(c, topo, start, steps, run, b - 1);
      assert Unasked(c, run[b - 1], steps[b - 1], x, hash);
      StepSettles(c, topo, run[b - 1], steps[b - 1], x, hash);
    }
  }

  // ------------------------------------------------------------------ copies of the message

  /** `g` is a packet with this hash that `x` put on its wire. */
  predicate SentFrom(c: Suite, topo: Topology, g: Flight, x: nat, hash: Bytes) {
    (g.to, g.iface) in topo && Sender(topo, g) == x && HashOf(c, g.bytes) == Some(hash)
  }

  /** Node `x` puts no packet with this hash on the wire in the step. */
  ghost predicate Unsent(c: Suite, net: Net, s: Step, x: nat, hash: Bytes) {
    x in net.nodes
    && (At(s, x) ==> forall o | o in Exec(c, net.nodes[x], CallOf(s)).out :: HashOf(c, o.1) != Some(hash))
  }

  /** All packets with this hash that `x` sent are copies of one. */
  lemma {:induction false} OnlyCopies(c: Suite, topo: Topology, start: Net, steps: seq<Step>, run: seq<Net>, x: nat,
                                      hash: Bytes, f: Flight, a: nat, k: nat)
    requires IsRun(c, topo, start, steps, run) && PointToPoint(topo, start) && a <= k < |run|
    requires forall g | g in run[a].wire && SentFrom(c, topo, g, x, hash) :: g == f
    requires forall i | a <= i < k :: Unsent(c, run[i], steps[i], x, hash)
    ensures forall g | g in run[k].wire && SentFrom(c, topo, g, x, hash) :: g == f
    decreases k
  {
    hide Apply, Unsent, HashOf, Sender, PointToPoint, InTime, Unexpired, Typed, IsAnnounce;
    if a < k {
      OnlyCopies(c, topo, start, steps, run, x, hash, f, a, k - 1);
      forall g | g in run[k].wire && SentFrom(c, topo, g, x, hash) ensures g == f {
        assert Unsent(c, run[k - 1], steps[k - 1], x, hash);
        if g !in run[k - 1].wire {
          NotSent(c, topo, run[k - 1], steps[k - 1], x, hash, g, start);
        }
      }
    }
  }

  lemma NotSent(c: Suite, topo: Topology, net: Net, s: Step, x: nat, hash: Bytes, g: Flight, start: Net)
    requires Allowed(net, s) && PointToPoint(topo, start) && Unsent(c, net, s, x, hash)
    requires g in Apply(c, topo, net, s).wire && g !in net.wire
    ensures !SentFrom(c, topo, g, x, hash)
  {
    hide Exec, HashOf, InTime, Unexpired, Typed, IsAnnounce;
    assert s.Do? || s.Receive?;
    var w := NodeOf(s);
    var out := Exec(c, net.nodes[w], CallOf(s)).out;
    assert g in Launch(topo, w, out);
    var i :| (w, i) in topo && topo[(w, i)] == (g.to, g.iface) && (i, g.bytes) in out;
    assert topo[topo[(w, i)]] == (w, i);
  }

  lemma ImprovesTrans(a: Transport, b: Transport, d: Transport)
    requires Improves(a, b) && Improves(b, d)
    ensures Improves(a, d)
  {
    hide FindLocal;
  }

  lemma {:induction false} ImprovesAlong(c: Suite, topo: Topology, start: Net, steps: seq<Step>, run: seq<Net>, y: nat,
                                         a: nat, b: nat)
    requires IsRun(c, topo, start, steps, run) && a <= b < |run| && y in run[a].nodes
    ensures y in run[b].nodes && Improves(run[a].nodes[y].t, run[b].nodes[y].t)
    decreases b
  {
    hide Apply, Improves, InTime, Unexpired, IsAnnounce, Typed;
    if a == b {
      ImprovesSelf(run[a].nodes[y].t);
    } else {
      ImprovesAlong(c, topo, start, steps, run, y, a, b - 1);
      assert Allowed(run[b - 1], steps[b - 1]) && run[b] == Apply(c, topo, run[b - 1], steps[b - 1]);
      StepImproves(c, topo, run[b - 1], steps[b - 1]);
      ImprovesTrans(run[a].nodes[y].t, run[b - 1].nodes[y].t, run[b].nodes[y].t);
    }
  }

  lemma {:induction false} MoreReported(c: Suite, steps: seq<Step>, run: seq<Net>, x: nat, hash: Bytes, a: nat, d: nat, b: nat)
    requires a <= d <= b <= |steps| < |run|
    ensures DeliveredAt(c, steps, run, x, hash, a, d) <= DeliveredAt(c, steps, run, x, hash, a, b)
    decreases b
  {
    hide Exec, CountDelivered;
    if d < b {
      MoreReported(c, steps, run, x, hash, a, d, b - 1);
    }
  }

  // ------------------------------------------------------------------ the theorem

  /** Step `a` sends the message with a receipt, as packet `f`; the message is new, and no proof of it is in flight. */
  ghost predicate Asked(c: Suite, topo: Topology, m: Parcel, x: nat, f: Flight, steps: seq<Step>, run: seq<Net>, a: nat) {
    && a < |steps| < |run| && Sends(c, run[a], m, x, steps[a]) && steps[a].call.receipt && |m.dest| == 16
    && run[a + 1].wire == run[a].wire + multiset{f} && NeverSeen(c, run[a], m)
    && forall g | g in run[a].wire :: !IsProofOf(g.bytes, ParcelHash(c, m))
  }

  /** Between states `a` and `e`: one host; nobody injects the message or a proof of it; and `x` neither sends it again,
      nor asks for the receipt again, nor reads a clock past its time-out. */
  ghost predicate Undisturbed(c: Suite, m: Parcel, x: nat, deadline: nat, steps: seq<Step>, run: seq<Net>, a: nat, e: nat) {
    && a <= e <= |steps| < |run| && (forall i | a <= i <= e :: SoleHost(run[i], m.host, m.dest))
    && forall i | a <= i < e ::
         && Unforged(c, steps[i], ParcelHash(c, m)) && Unasked(c, run[i], steps[i], x, ParcelHash(c, m))
         && Unsent(c, run[i], steps[i], x, ParcelHash(c, m)) && Before(steps[i], x, deadline)
  }

  /** The proof that the receiver of `f` would send back. */
  function Answer(c: Suite, topo: Topology, net: Net, m: Parcel, f: Flight): Flight
    requires f.to in net.nodes && (f.to, f.iface) in topo
  {
    Flight(topo[(f.to, f.iface)].0, topo[(f.to, f.iface)].1,
           Encode(ProofPacket(c, net.nodes[f.to].t.identity, ParcelHash(c, m))))
  }

  /** What step `a` leaves behind. */
  lemma AskedState(c: Suite, topo: Topology, start: Net, steps: seq<Step>, run: seq<Net>, m: Parcel, x: nat, f: Flight, a: nat)
    requires Lawful(c) && PointToPoint(topo, start) && Fresh(start) && IsRun(c, topo, start, steps, run)
    requires Asked(c, topo, m, x, f, steps, run, a) && SoleHost(run[a], m.host, m.dest)
    ensures Heading(c, topo, run[a + 1], m, f) && Sender(topo, f) == x && Readable(c, run[a + 1], m)
    ensures Hops(run[a], x, m.dest) == 1 ==> f.to == m.host
    ensures m.dest !in run[a].nodes[m.host].t.paths ==> (f.to == m.host <==> Hops(run[a], x, m.dest) == 1)
    ensures x in run[a + 1].nodes && ParcelHash(c, m) in run[a + 1].nodes[x].t.receipts
    ensures run[a + 1].nodes[x].t.receipts[ParcelHash(c, m)]
            == Receipt(Public(c, run[a].nodes[m.host].t.identity), steps[a].call.now + RECEIPT_TIMEOUT)
    ensures forall g | g in run[a + 1].wire && IsParcel(c, m, g.bytes) :: g == f
    ensures forall g | g in run[a + 1].wire :: !IsProofOf(g.bytes, ParcelHash(c, m))
  {
    hide Apply, Fresh, Readable, Inv, Hops, Sender, PointToPoint, ParcelHash, InTime, Unexpired, IsAnnounce, Typed, Encrypt,
         Heading, IsParcel, IsProofOf, IsLocal, Hosts, Public, SoleHost;
    RoutesBacked(c, topo, start, steps, run, a);
    var f' := SentInRun(c, topo, start, steps, run, m, x, a);
    SentParcelReadable(c, topo, start, steps, run, m, x, a);
    assert f' in run[a + 1].wire && IsParcel(c, m, f'.bytes);
    assert f' == f;
    HeadingNoProof(c, topo, run[a + 1], m, f);
    assert run[a + 1] == Apply(c, topo, run[a], steps[a]);
    OneHopHost(c, topo, run[a], m, x, steps[a], f);
  }

  lemma HeadingNoProof(c: Suite, topo: Topology, net: Net, m: Parcel, f: Flight)
    requires Heading(c, topo, net, m, f)
    ensures !IsProofOf(f.bytes, ParcelHash(c, m))
  {
    hide Decode, FindLocal, IdentityHash;
  }

  lemma OneHopHost(c: Suite, topo: Topology, net: Net, m: Parcel, x: nat, s: Step, f: Flight)
    requires Sized(c) && Inv(c, topo, net) && Allowed(net, s) && Sends(c, net, m, x, s) && |m.dest| == 16
    requires SoleHost(net, m.host, m.dest) && Apply(c, topo, net, s).wire == net.wire + multiset{f}
    ensures Hops(net, x, m.dest) == 1 ==> f.to == m.host
    ensures m.dest !in net.nodes[m.host].t.paths && f.to == m.host ==> Hops(net, x, m.dest) == 1
  {
    RouteOnHost(c, topo, net, m, x);
    hide Apply, Inv, Decode, Carries, Encrypt, Hosts, InTime, Unexpired, IsAnnounce, Typed, Encode, ParcelHash, FindLocal;
    var g := SendApplied(c, topo, net, m, x, s);
    assert (net.wire + multiset{f})[g] == net.wire[g] + 1;
    assert g == f;
    var y := NextHop(c, topo, net, m.dest, x);
  }

  /** A route of more than one hop leads to a node with a route of its own. */
  lemma RouteOnHost(c: Suite, topo: Topology, net: Net, m: Parcel, x: nat)
    requires Inv(c, topo, net) && Routes(net, x, m.dest)
    ensures var iface := net.nodes[x].t.paths[m.dest].iface;
            && (x, iface) in topo && Peer(topo, x, iface) in net.nodes && Hops(net, x, m.dest) >= 1
            && (Hops(net, x, m.dest) > 1 ==> m.dest in net.nodes[Peer(topo, x, iface)].t.paths)
  {
    assert NodeOk(c, topo, net, x);
    assert Backed(c, topo, net, x, m.dest, net.nodes[x].t.paths[m.dest]);
    hide FindLocal, IdentityHash;
  }

  /** The receipt of a message whose next hop is not its host is never reported settled. */
  lemma ThroughRelayNever(c: Suite, topo: Topology, start: Net, steps: seq<Step>, run: seq<Net>, m: Parcel, x: nat, f: Flight,
                          a: nat, e: nat, deadline: nat)
    requires Lawful(c) && PointToPoint(topo, start) && Fresh(start) && IsRun(c, topo, start, steps, run) && QueuesQuiet(start)
    requires Asked(c, topo, m, x, f, steps, run, a) && SoleHost(run[a], m.host, m.dest)
    requires Undisturbed(c, m, x, deadline, steps, run, a + 1, e) && f.to != m.host
    ensures DeliveredAt(c, steps, run, x, ParcelHash(c, m), a + 1, e) == 0
  {
    hide Apply, Fresh, PointToPoint, InTime, Unexpired, IsAnnounce, Typed, Heading, IsParcel, IsProofOf, SoleHost, Unasked,
         Unsent, Unforged, Asks, Before, DeliveredAt, Asked, Readable, Receipts.One, ParcelHash, QueuesQuiet, NeighbourProves, HashOf,
         Proving, SentFrom, Hosts, Public, Hops, Encrypt;
    var hash := ParcelHash(c, m);
    AskedState(c, topo, start, steps, run, m, x, f, a);
    if DeliveredAt(c, steps, run, x, hash, a + 1, e) > 0 {
      var i := ReportedByProof(c, topo, start, steps, run, x, hash, a + 1, e);
      assert Unforged(c, steps[i], hash);
      ProofReceived(run[i], steps[i], x, hash, c);
      ProofsFromNeighbours(c, topo, start, steps, run, hash, a + 1, i, steps[i].f);
      var j :| a + 1 <= j < i && NeighbourProves(c, topo, run[j], steps[j], x, hash);
      OnlyOneSent(c, topo, run[a + 1], m, x, f);
      OnlyCopies(c, topo, start, steps, run, x, hash, f, a + 1, j);
      NeighbourIsHost(c, topo, run[a + 1], run[j], steps[j], m, x, f);
    }
  }

  lemma ProofReceived(net: Net, s: Step, x: nat, hash: Bytes, c: Suite)
    requires At(s, x) && CallOf(s).Inbound? && IsProofOf(CallOf(s).bytes, hash) && Allowed(net, s) && Unforged(c, s, hash)
    ensures s.Receive? && s.f.to == x && s.f in net.wire && IsProofOf(s.f.bytes, hash)
  {
    hide IsProofOf, HashOf, InTime, Unexpired, IsAnnounce, Typed;
  }

  lemma OnlyOneSent(c: Suite, topo: Topology, net: Net, m: Parcel, x: nat, f: Flight)
    requires forall g | g in net.wire && IsParcel(c, m, g.bytes) :: g == f
    ensures forall g | g in net.wire && SentFrom(c, topo, g, x, ParcelHash(c, m)) :: g == f
  {
    hide Decode, FullPacketHash, ParcelHash;
  }

  /** Only the host proves what came straight from the sender. */
  lemma NeighbourIsHost(c: Suite, topo: Topology, before: Net, net: Net, s: Step, m: Parcel, x: nat, f: Flight)
    requires NeighbourProves(c, topo, net, s, x, ParcelHash(c, m)) && SoleHost(net, m.host, m.dest)
    requires Heading(c, topo, before, m, f)
    requires forall g | g in net.wire && SentFrom(c, topo, g, x, ParcelHash(c, m)) :: g == f
    ensures f.to == m.host
  {
    hide Decode, FindLocal, FullPacketHash, ParcelHash, Takes;
    assert SentFrom(c, topo, s.f, x, ParcelHash(c, m));
    assert Hosts(net, f.to, m.dest);
  }

  // ------------------------------------------------------------------ the direct neighbour

  /** Step `b` brings the message to its host for the first time. */
  ghost predicate FirstArrival(c: Suite, m: Parcel, f: Flight, net: Net, s: Step) {
    && s.Receive? && s.f == f && f.to in net.nodes && Decode(f.bytes).Ok?
    && !Seen(c, net.nodes[f.to].t, Decode(f.bytes).value, s.now)
  }

  lemma StillTakes(c: Suite, topo: Topology, a: Net, b: Net, m: Parcel, f: Flight)
    requires Heading(c, topo, a, m, f) && f.to in b.nodes && Improves(a.nodes[f.to].t, b.nodes[f.to].t)
    ensures Decode(f.bytes).Ok? && Carries(Decode(f.bytes).value, m) && Decode(f.bytes).value.hops < MAX_HOPS
    ensures var p := Decode(f.bytes).value; p.headerType == HEADER_2 ==>
              b.nodes[f.to].t.enabled && p.transportId == Some(IdentityHash(c, b.nodes[f.to].t.identity))
  {
    hide Decode, FindLocal, IdentityHash;
  }

  /** The host answers the message with its proof, straight back. */
  lemma HostAnswers(c: Suite, topo: Topology, before: Net, net: Net, m: Parcel, f: Flight, s: Step)
    requires Heading(c, topo, before, m, f) && f.to in before.nodes && f.to in net.nodes && Allowed(net, s)
    requires Improves(before.nodes[f.to].t, net.nodes[f.to].t) && f.to == m.host && (f.to, f.iface) in topo
    requires SoleHost(net, m.host, m.dest) && Readable(c, net, m) && FirstArrival(c, m, f, net, s)
    requires Proving(net.nodes[m.host].t, m.dest)
    ensures Answer(c, topo, net, m, f) in Apply(c, topo, net, s).wire
  {
    hide Decode, FindLocal, IdentityHash, Exec, Seen, Route, Improves, Heading, Encode, ProofPacket, Decrypt, ParcelHash,
         Unexpired, Apply;
    StillTakes(c, topo, before, net, m, f);
    var p := Decode(f.bytes).value;
    ToDataHandler(c, p.(hops := p.hops + 1), m);
    HostInbound(c, net.nodes[m.host], f.bytes, p, m, f.iface, s.now, s.rng);
    ApplyOne(c, topo, net, s, (f.iface, Encode(ProofPacket(c, net.nodes[f.to].t.identity, ParcelHash(c, m)))));
  }

  /** The proof reaches the node that waits for it. */
  lemma AnswerSettles(c: Suite, n: Node, id: Identity, hash: Bytes, s: Step, bytes: Bytes)
    requires Lawful(c) && |hash| == 32 && hash in n.t.receipts && n.t.receipts[hash].public == Public(c, id)
    requires s.Receive? && s.f.bytes == bytes && bytes == Encode(ProofPacket(c, id, hash))
    requires !Seen(c, n.t, ProofPacket(c, id, hash), s.now)
    ensures CountDelivered(Exec(c, n, CallOf(s)).events, hash) == 1
  {
    ProofDelivered(c, n, id, hash, s.f.iface, s.now, s.rng);
    OneDelivered(hash, hash);
    hide Exec, Public, Seen, ProofPacket, CountDelivered;
  }

  lemma ReportedHere(c: Suite, steps: seq<Step>, run: seq<Net>, x: nat, hash: Bytes, a: nat, d: nat, e: nat)
    requires a <= d < e <= |steps| < |run| && At(steps[d], x) && x in run[d].nodes
    requires CountDelivered(Exec(c, run[d].nodes[x], CallOf(steps[d])).events, hash) > 0
    ensures DeliveredAt(c, steps, run, x, hash, a, e) > 0
  {
    hide Exec, CountDelivered;
    MoreReported(c, steps, run, x, hash, a, d + 1, e);
  }

  /** The receipt of a message whose next hop is its host is reported settled exactly once, if message and proof get
      through. */
  lemma DirectOnce(c: Suite, topo: Topology, start: Net, steps: seq<Step>, run: seq<Net>, m: Parcel, x: nat, f: Flight,
                   a: nat, b: nat, d: nat, e: nat)
    requires Lawful(c) && PointToPoint(topo, start) && Fresh(start) && IsRun(c, topo, start, steps, run) && QueuesQuiet(start)
    requires Asked(c, topo, m, x, f, steps, run, a) && SoleHost(run[a], m.host, m.dest) && f.to == m.host
    requires Undisturbed(c, m, x, steps[a].call.now + RECEIPT_TIMEOUT, steps, run, a + 1, e)
    requires a < b < e && FirstArrival(c, m, f, run[b], steps[b]) && Proving(run[b].nodes[f.to].t, m.dest)
    requires (f.to, f.iface) in topo
    requires Answer(c, topo, run[b], m, f) in run[b + 1].wire ==>
               && b < d < e && steps[d].Receive? && steps[d].f == Answer(c, topo, run[b], m, f) && x in run[d].nodes
               && !Seen(c, run[d].nodes[x].t, ProofPacket(c, run[b].nodes[f.to].t.identity, ParcelHash(c, m)), steps[d].now)
    ensures DeliveredAt(c, steps, run, x, ParcelHash(c, m), a + 1, e) == 1
  {
    hide Apply, Fresh, PointToPoint, InTime, Unexpired, IsAnnounce, Typed, Heading, IsParcel, IsProofOf, SoleHost, Unasked,
         Unsent, Unforged, Asks, DeliveredAt, Readable, ParcelHash, QueuesQuiet, Proving, Hosts, Public, Hops, Encrypt,
         ProofPacket, Seen, Exec, Improves, CountDelivered, Decode, Encode, Sends, NeverSeen, Lawful;
    var hash := ParcelHash(c, m);
    AskedState(c, topo, start, steps, run, m, x, f, a);
    HostAnswered(c, topo, start, steps, run, m, x, f, a, b);
    ReportedOnce(c, topo, start, steps, run, x, hash, a + 1, e);
    PendingOrReported(c, topo, start, steps, run, x, hash, a + 1, d);
    if DeliveredAt(c, steps, run, x, hash, a + 1, d) > 0 {
      MoreReported(c, steps, run, x, hash, a + 1, d, e);
    } else {
      HashLength(c, m);
      AnswerSettles(c, run[d].nodes[x], run[b].nodes[f.to].t.identity, hash, steps[d], Answer(c, topo, run[b], m, f).bytes);
      ReportedHere(c, steps, run, x, hash, a + 1, d, e);
    }
  }

  lemma HashLength(c: Suite, m: Parcel)
    requires Lawful(c)
    ensures |ParcelHash(c, m)| == 32
  {
  }

  /** The host's answer is on the wire, made by the identity whose key the path carried. */
  lemma HostAnswered(c: Suite, topo: Topology, start: Net, steps: seq<Step>, run: seq<Net>, m: Parcel, x: nat, f: Flight,
                     a: nat, b: nat)
    requires Lawful(c) && PointToPoint(topo, start) && Fresh(start) && IsRun(c, topo, start, steps, run)
    requires a < b < |steps| && Heading(c, topo, run[a + 1], m, f) && Readable(c, run[a + 1], m) && f.to == m.host
    requires SoleHost(run[a], m.host, m.dest) && SoleHost(run[b], m.host, m.dest)
    requires FirstArrival(c, m, f, run[b], steps[b]) && Proving(run[b].nodes[f.to].t, m.dest) && (f.to, f.iface) in topo
    ensures Answer(c, topo, run[b], m, f) in run[b + 1].wire
    ensures run[b].nodes[f.to].t.identity == run[a].nodes[m.host].t.identity
  {
    hide Apply, Fresh, PointToPoint, InTime, Unexpired, IsAnnounce, Typed, Takes, Carries, Readable, ParcelHash, Proving, FindLocal,
         Seen, Decode, Encode, Lawful, Answer;
    StillReadable(c, topo, start, steps, run, m, a + 1, b);
    ImprovesAlong(c, topo, start, steps, run, f.to, a, b);
    ImprovesAlong(c, topo, start, steps, run, f.to, a + 1, b);
    HostAnswers(c, topo, run[a + 1], run[b], m, f, steps[b]);
  }

  /** A receipt settles exactly if the message went straight to its host: over every run in which the message reaches
      its next hop and whatever proof that node sends back reaches the sender in time, the sender reports it delivered
      once if the next hop is the host, and never if it is a relay.  A path of one hop leads to the host, and a longer
      one to a relay unless the host has a path to itself. */
  lemma SettlesExactly(c: Suite, topo: Topology, start: Net, steps: seq<Step>, run: seq<Net>, m: Parcel, x: nat, f: Flight,
                       a: nat, b: nat, d: nat, e: nat)
    requires Lawful(c) && PointToPoint(topo, start) && Fresh(start) && IsRun(c, topo, start, steps, run) && QueuesQuiet(start)
    requires Asked(c, topo, m, x, f, steps, run, a) && SoleHost(run[a], m.host, m.dest)
    requires Undisturbed(c, m, x, steps[a].call.now + RECEIPT_TIMEOUT, steps, run, a + 1, e)
    requires a < b < e && FirstArrival(c, m, f, run[b], steps[b]) && (f.to, f.iface) in topo
    requires f.to == m.host ==> Proving(run[b].nodes[m.host].t, m.dest)
    requires Answer(c, topo, run[b], m, f) in run[b + 1].wire ==>
               && b < d < e && steps[d].Receive? && steps[d].f == Answer(c, topo, run[b], m, f) && x in run[d].nodes
               && !Seen(c, run[d].nodes[x].t, ProofPacket(c, run[b].nodes[f.to].t.identity, ParcelHash(c, m)), steps[d].now)
    ensures DeliveredAt(c, steps, run, x, ParcelHash(c, m), a + 1, e) == if f.to == m.host then 1 else 0
    ensures Hops(run[a], x, m.dest) == 1 ==> f.to == m.host
    ensures m.dest !in run[a].nodes[m.host].t.paths ==> (f.to == m.host <==> Hops(run[a], x, m.dest) == 1)
  {
    hide Apply, Fresh, PointToPoint, IsRun, Lawful, QueuesQuiet, NeverSeen, Encrypt, SoleHost, Undisturbed, FirstArrival, Proving, Answer, Seen,
         ProofPacket, ParcelHash, DeliveredAt, Hops, Heading;
    AskedState(c, topo, start, steps, run, m, x, f, a);
    if f.to == m.host {
      DirectOnce(c, topo, start, steps, run, m, x, f, a, b, d, e);
    } else {
      ThroughRelayNever(c, topo, start, steps, run, m, x, f, a, e, steps[a].call.now + RECEIPT_TIMEOUT);
    }
  }
}
