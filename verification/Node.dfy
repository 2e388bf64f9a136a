/** The node: one value, one function per call of the source's `Node`, and the dispatch of an
    inbound packet. */
module Nodes {
  import opened Base
  import opened Crypto
  import opened Packets
  import opened PathTables
  import opened Transports
  import opened Links

  datatype Node = Node(t: Transport, links: Registry, pending: seq<Event>)

  datatype Call =
    | Inbound(bytes: Bytes, iface: nat, now: nat, rng: Option<Entropy>)
    | Register(local: Local)
    | SetProve(dest: Bytes, prove: bool)
    | EnableTransport(enabled: bool)
    | RegisterInterface(iface: nat)
    | UnregisterInterface(iface: nat)
    | Announce(dest: Bytes, appData: Bytes, random: Bytes, iface: nat)
    | AskPath(dest: Bytes, tag: Bytes)
    | SendTo(dest: Bytes, plaintext: Bytes, ephemeral: Bytes, iv: Bytes, receipt: bool, now: nat)
    | EstablishLink(dest: Bytes, xprv: Bytes, eprv: Bytes, now: nat)
    | LinkSend(link: Bytes, plaintext: Bytes, iv: Bytes, now: nat)
    | CloseLink(link: Bytes)
    | TickAt(now: nat)

  function Silent(n: Node): Effect<Node> {
    Effect(n, [], [])
  }

  function OnTransport(n: Node, e: Effect<Transport>): Effect<Node> {
    Effect(n.(t := e.st), e.out, e.events)
  }

  function OnLinks(n: Node, e: Effect<Registry>): Effect<Node> {
    Effect(n.(links := e.st), e.out, e.events)
  }

  function Tick(n: Node, now: nat): Effect<Node> {
    var e := Links.Tick(n.links, now);
    Effect(Node(ExpireReceipts(n.t, now), e.st, []), e.out, n.pending + e.events)
  }

  function Close(n: Node, link: Bytes): Node {
    var (links, events) := Links.Close(n.links, link);
    n.(links := links, pending := n.pending + events)
  }

  function HandleLink(c: Suite, n: Node, p: Packet, iface: nat, now: nat): Effect<Node> {
    var e := OnLinks(n, HandleLinkData(c, n.links, p, iface, now));
    if AsksClose(c, n.links, p, iface) then Tick(Close(e.st, p.dest), now) else e
  }

  datatype Handler =
    | ToPathRequest | ToLinkRequest | ToLinkProof | ToDeliveryProof | ToLink | ToAnnounce | ToData | ToNobody

  /** Which handler an inbound packet goes to. */
  function Route(c: Suite, p: Packet): Handler {
    if p.packetType == DATA && p.destType == PLAIN && p.dest == PathRequestDest(c) then ToPathRequest
    else if p.packetType == LINKREQUEST then ToLinkRequest
    else if p.packetType == PROOF && p.destType == LINK && p.context == LRPROOF then ToLinkProof
    else if p.packetType == PROOF && p.destType == SINGLE then ToDeliveryProof
    else if p.packetType == DATA && p.destType == LINK then ToLink
    else if p.packetType == ANNOUNCE then ToAnnounce
    else if p.packetType == DATA then ToData
    else ToNobody
  }

  /** A decoded packet that passed the hop limit and the dedup, its hops already incremented. */
  function Dispatch(c: Suite, n: Node, p: Packet, iface: nat, now: nat, rng: Option<Entropy>): Effect<Node> {
    match Route(c, p)
    case ToPathRequest => OnTransport(n, HandlePathRequest(c, n.t, p, iface, now))
    case ToLinkRequest =>
      if rng.Some? then OnLinks(n, HandleRequest(c, n.t, n.links, p, iface, now, rng.value)) else Silent(n)
    case ToLinkProof => OnLinks(n, HandleLinkProof(c, n.links, p, now, rng))
    case ToDeliveryProof => OnTransport(n, HandleProof(c, n.t, p))
    case ToLink => HandleLink(c, n, p, iface, now)
    case ToAnnounce => OnTransport(n, HandleAnnounce(c, n.t, p, iface, now))
    case ToData => OnTransport(n, HandleData(c, n.t, p, iface, now))
    case ToNobody => Silent(n)
  }

  /** Is this packet dropped before any handler sees it? */
  predicate Seen(c: Suite, t: Transport, p: Packet, now: nat) {
    PacketHash(c, p) in MaybePrune(t, now).seenPackets
  }

  /** The state a handler runs in: swept, with the packet remembered. */
  function Noted(c: Suite, t: Transport, p: Packet, now: nat): Transport {
    var swept := MaybePrune(t, now);
    swept.(seenPackets := swept.seenPackets[PacketHash(c, p) := now + PACKET_TTL])
  }

  function HandleInbound(c: Suite, n: Node, bytes: Bytes, iface: nat, now: nat, rng: Option<Entropy>): Effect<Node> {
    var decoded := Decode(bytes);
    if decoded.Err? || decoded.value.hops >= MAX_HOPS then Silent(n)
    else if Seen(c, n.t, decoded.value, now) then Silent(n.(t := MaybePrune(n.t, now)))
    else
      Dispatch(c, n.(t := Noted(c, n.t, decoded.value, now)),
               decoded.value.(hops := decoded.value.hops + 1), iface, now, rng)
  }

  /** Does the packet get past the hop limit and the dedup? */
  predicate Admitted(c: Suite, n: Node, bytes: Bytes, now: nat) {
    Decode(bytes).Ok? && Decode(bytes).value.hops < MAX_HOPS && !Seen(c, n.t, Decode(bytes).value, now)
  }

  /** The state and the packet an admitted packet's handler sees. */
  function AdmittedNode(c: Suite, n: Node, bytes: Bytes, now: nat): Node
    requires Admitted(c, n, bytes, now)
  {
    n.(t := Noted(c, n.t, Decode(bytes).value, now))
  }

  function AdmittedPacket(c: Suite, n: Node, bytes: Bytes, now: nat): Packet
    requires Admitted(c, n, bytes, now)
  {
    Decode(bytes).value.(hops := Decode(bytes).value.hops + 1)
  }

  /** An inbound packet is dispatched, or at most sweeps the dedup state. */
  lemma InboundCases(c: Suite, n: Node, bytes: Bytes, iface: nat, now: nat, rng: Option<Entropy>)
    ensures Admitted(c, n, bytes, now) ==>
              HandleInbound(c, n, bytes, iface, now, rng)
              == Dispatch(c, AdmittedNode(c, n, bytes, now), AdmittedPacket(c, n, bytes, now), iface, now, rng)
    ensures !Admitted(c, n, bytes, now) ==>
              || HandleInbound(c, n, bytes, iface, now, rng) == Silent(n)
              || HandleInbound(c, n, bytes, iface, now, rng) == Silent(n.(t := MaybePrune(n.t, now)))
  {
    hide Dispatch, Decode, Noted, MaybePrune, Seen;
  }

  function SetProving(locals: seq<Local>, dest: Bytes, prove: bool): seq<Local> {
    if locals == [] then []
    else if locals[0].dest != dest then [locals[0]] + SetProving(locals[1..], dest, prove)
    else if locals[0].kind.Single? then [locals[0].(kind := Single(prove))] + locals[1..]
    else locals
  }

  function Without(interfaces: seq<nat>, iface: nat): seq<nat> {
    if interfaces == [] then [] else
      (if interfaces[0] == iface then [] else [interfaces[0]]) + Without(interfaces[1..], iface)
  }

  /** Links are established on a live path only; through a relay only with a next hop. */
  function StartLink(c: Suite, n: Node, dest: Bytes, xprv: Bytes, eprv: Bytes, now: nat): Effect<Node> {
    var n' := n.(t := n.t.(paths := Pruned(n.t.paths, now)));
    if dest !in n'.t.paths || (n'.t.paths[dest].hops > 1 && n'.t.paths[dest].nextHop.None?) then Silent(n')
    else OnLinks(n', Establish(c, n.links, dest, n'.t.paths[dest], xprv, eprv, now))
  }

  function Exec(c: Suite, n: Node, call: Call): Effect<Node> {
    match call
    case Inbound(bytes, iface, now, rng) => HandleInbound(c, n, bytes, iface, now, rng)
    case Register(local) => Silent(n.(t := n.t.(locals := n.t.locals + [local])))
    case SetProve(dest, prove) => Silent(n.(t := n.t.(locals := SetProving(n.t.locals, dest, prove))))
    case EnableTransport(enabled) => Silent(n.(t := n.t.(enabled := enabled)))
    case RegisterInterface(i) =>
      if i in n.t.interfaces then Silent(n) else Silent(n.(t := n.t.(interfaces := n.t.interfaces + [i])))
    case UnregisterInterface(i) => Silent(n.(t := n.t.(interfaces := Without(n.t.interfaces, i))))
    case Announce(dest, app, random, iface) => OnTransport(n, SendAnnounce(c, n.t, dest, app, random, iface))
    case AskPath(dest, tag) => OnTransport(n, RequestPath(c, n.t, dest, tag))
    case SendTo(dest, m, eph, iv, receipt, now) => OnTransport(n, SendMessage(c, n.t, dest, m, eph, iv, receipt, now).0)
    case EstablishLink(dest, xprv, eprv, now) => StartLink(c, n, dest, xprv, eprv, now)
    case LinkSend(link, m, iv, now) => OnLinks(n, Links.Send(c, n.links, link, m, iv, now))
    case CloseLink(link) => Silent(Close(n, link))
    case TickAt(now) => Tick(n, now)
  }

  /** A run of one node. */
  function Run(c: Suite, n: Node, calls: seq<Call>): Node {
    if calls == [] then n else
      Exec(c, Run(c, n, calls[..|calls| - 1]), calls[|calls| - 1]).st
  }

  /** All events of a run, in order. */
  function Events(c: Suite, n: Node, calls: seq<Call>): seq<Event> {
    if calls == [] then [] else
      var before := calls[..|calls| - 1];
      Events(c, n, before) + Exec(c, Run(c, n, before), calls[|calls| - 1]).events
  }
}
