/** Links (reticulum-core/src/link.rs, reticulum-node/src/link_state.rs and the link half of
    node.rs): handshake, traffic, keepalives and closing. */
module Links {
  import opened Base
  import opened Crypto
  import opened Packets
  import opened Transports
  import Order
  import PathTables

  const KEEPALIVE_SECS: nat := 360
  const STALE_SECS: nat := 720

  datatype Status = Pending | Active | Closed

  datatype LinkEntry = LinkEntry(
    status: Status, initiator: bool, xprv: Bytes, eprv: Bytes, peer: Option<Bytes>, public: Option<Bytes>,
    key: Option<Bytes>, iface: nat, lastActivity: nat, lastKeepalive: nat)

  type Registry = map<Bytes, LinkEntry>

  /** The two values a call may draw from its entropy source, in order. */
  datatype Entropy = Entropy(first: Bytes, second: Bytes)

  // ------------------------------------------------------------------ wire parts

  /** The link id hashes a request without the signalling bytes after its two keys. */
  function LinkIdOf(c: Suite, p: Packet): Bytes {
    var h := HashablePart(p);
    Truncate(c.sha(if |p.data| > 64 then h[..|h| - (|p.data| - 64)] else h))
  }

  function RequestPacket(c: Suite, dest: Bytes, xprv: Bytes, eprv: Bytes): Packet {
    Header1(SINGLE, LINKREQUEST, dest, NO_CONTEXT, c.xpub(xprv) + c.epub(eprv))
  }

  /** The peer's X25519 key of a request of 64 bytes, or 67 with signalling. */
  function ParseRequest(data: Bytes): Option<Bytes> {
    if |data| == 64 || |data| == 67 then Some(data[..32]) else None
  }

  function LinkKey(c: Suite, xprv: Bytes, peer: Bytes, link: Bytes): Bytes {
    c.kdf(link, c.dh(xprv, peer))
  }

  function LinkProof(c: Suite, id: Identity, link: Bytes, xprv: Bytes): Bytes {
    c.sign(id.sig, link + c.xpub(xprv) + SigHalf(Public(c, id))) + c.xpub(xprv)
  }

  /** The responder's X25519 key, when the proof is signed by the destination. */
  function VerifyLinkProof(c: Suite, public: Bytes, link: Bytes, proof: Bytes): Result<Bytes> {
    if |proof| < 96 then Err(Truncated)
    else if |proof| != 96 && |proof| != 99 then Err(InvalidField)
    else if c.verify(SigHalf(public), link + proof[64..96] + SigHalf(public) + proof[96..], proof[..64]) then
      Ok(proof[64..96])
    else Err(BadSignature)
  }

  function LinkPacket(link: Bytes, context: Byte, data: Bytes): Packet {
    Header1(LINK, DATA, link, context, data)
  }

  /** The MessagePack float 0.0 the initiator reports as round-trip time. */
  const RTT_REPORT: Bytes := [0xCB, 0, 0, 0, 0, 0, 0, 0, 0]

  // ------------------------------------------------------------------ calls

  function Establish(c: Suite, r: Registry, dest: Bytes, path: PathTables.PathEntry, xprv: Bytes, eprv: Bytes,
                     now: nat): Effect<Registry>
  {
    var p := RequestPacket(c, dest, xprv, eprv);
    var wire := if path.hops <= 1 then p
                else p.(headerType := HEADER_2, propagation := TRANSPORT, transportId := path.nextHop);
    Effect(r[LinkIdOf(c, p) := LinkEntry(Pending, true, xprv, eprv, None, Some(path.public), None, path.iface, now, now)],
           [(path.iface, Encode(wire))], [])
  }

  /** May the application send on this link? */
  predicate Usable(r: Registry, link: Bytes) {
    link in r && r[link].status == Active && r[link].key.Some?
  }

  function Send(c: Suite, r: Registry, link: Bytes, plaintext: Bytes, iv: Bytes, now: nat): Effect<Registry> {
    if !Usable(r, link) then Effect(r, [], [])
    else
      var e := r[link];
      Effect(r[link := e.(lastActivity := now)],
             [(e.iface, Encode(LinkPacket(link, NO_CONTEXT, c.seal(e.key.value, plaintext, iv))))], [])
  }

  /** Closing returns the event to be queued. */
  function Close(r: Registry, link: Bytes): (Registry, seq<Event>) {
    if link in r && r[link].status != Closed then
      (r[link := r[link].(status := Closed)], [LinkClosed(link)])
    else (r, [])
  }

  predicate Stale(e: LinkEntry, now: nat) {
    e.status == Active && now >= e.lastActivity + STALE_SECS
  }

  predicate KeepaliveDue(e: LinkEntry, now: nat) {
    e.status == Active && !Stale(e, now) && e.initiator && now >= e.lastKeepalive + KEEPALIVE_SECS
  }

  function TickEntry(e: LinkEntry, now: nat): LinkEntry {
    if Stale(e, now) then e.(status := Closed)
    else if KeepaliveDue(e, now) then e.(lastKeepalive := now)
    else e
  }

  /** Keepalives to send, in key order. */
  function Keepalives(r: Registry, ids: seq<Bytes>, now: nat): seq<(nat, Bytes)>
    requires forall id | id in ids :: id in r
  {
    if ids == [] then [] else
      (if KeepaliveDue(r[ids[0]], now) then
         [(r[ids[0]].iface, Encode(LinkPacket(ids[0], KEEPALIVE, [0xFF])))] else [])
      + Keepalives(r, ids[1..], now)
  }

  /** Links that went stale, in key order. */
  function Closings(r: Registry, ids: seq<Bytes>, now: nat): seq<Event>
    requires forall id | id in ids :: id in r
  {
    if ids == [] then [] else
      (if Stale(r[ids[0]], now) then [LinkClosed(ids[0])] else []) + Closings(r, ids[1..], now)
  }

  /** One pass over all links; the events are queued. */
  function Tick(r: Registry, now: nat): Effect<Registry> {
    var ids := Order.Sorted(r.Keys);
    Effect(map id | id in r :: TickEntry(r[id], now), Keepalives(r, ids, now), Closings(r, ids, now))
  }

  function HandleRequest(c: Suite, t: Transport, r: Registry, p: Packet, iface: nat, now: nat, rng: Entropy):
    Effect<Registry>
  {
    var peer := ParseRequest(p.data);
    if p.headerType == HEADER_2 && (!t.enabled || p.transportId != Some(IdentityHash(c, t.identity))) then
      Effect(r, [], [])
    else if FindSingle(t.locals, p.dest).None? || peer.None? || LinkIdOf(c, p) in r then Effect(r, [], [])
    else
      var link := LinkIdOf(c, p);
      var e := LinkEntry(Active, false, rng.first, rng.second, peer, None,
                         Some(LinkKey(c, rng.first, peer.value, link)), iface, now, now);
      var proof := Header1(LINK, PROOF, link, LRPROOF, LinkProof(c, t.identity, link, rng.first));
      Effect(r[link := e], [(iface, Encode(proof))], [LinkEstablished(link)])
  }

  function HandleLinkProof(c: Suite, r: Registry, p: Packet, now: nat, rng: Option<Entropy>): Effect<Registry> {
    var link := p.dest;
    if !(link in r && r[link].status == Pending && r[link].initiator && r[link].public.Some?) then Effect(r, [], [])
    else
      var peer := VerifyLinkProof(c, r[link].public.value, link, p.data);
      if peer.Err? then Effect(r, [], [Failed(peer.error)])
      else
        var key := LinkKey(c, r[link].xprv, peer.value, link);
        var e := r[link].(status := Active, peer := Some(peer.value), key := Some(key), lastActivity := now);
        Effect(r[link := e],
               if rng.Some? then
                 [(e.iface, Encode(LinkPacket(link, LRRTT, c.seal(key, RTT_REPORT, rng.value.first))))]
               else [],
               [LinkEstablished(link)])
  }

  /** Traffic on an active link, except its closing.  Resource contexts only refresh the link here. */
  function HandleLinkData(c: Suite, r: Registry, p: Packet, iface: nat, now: nat): Effect<Registry> {
    var link := p.dest;
    if !(Usable(r, link) && r[link].iface == iface) || p.context == RESOURCE then Effect(r, [], [])
    else
      var active := r[link := r[link].(lastActivity := now)];
      if p.context == KEEPALIVE then
        Effect(active, if p.data == [0xFF] then [(iface, Encode(LinkPacket(link, KEEPALIVE, [0xFE])))] else [], [])
      else
        var plaintext := c.open(r[link].key.value, p.data);
        if plaintext.Err? then Effect(r, [], [Failed(plaintext.error)])
        else if p.context == NO_CONTEXT then Effect(active, [], [LinkData(link, plaintext.value)])
        else Effect(active, [], [])
  }

  /** Does this packet ask, with the link's own key, for the link to be closed? */
  predicate AsksClose(c: Suite, r: Registry, p: Packet, iface: nat) {
    && p.context == LINKCLOSE && Usable(r, p.dest) && r[p.dest].iface == iface
    && c.open(r[p.dest].key.value, p.data) == Ok(p.dest)
  }
}
