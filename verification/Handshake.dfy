/** Link handshake: both ends compute the same id and the same key, and then read each other. */
module Handshake {
  import opened Base
  import opened Crypto
  import opened Packets
  import opened PathTables
  import opened Transports
  import opened Links
  import opened Nodes

  // ------------------------------------------------------------------ the link id

  /** The id of a request depends on its destination and its first 64 bytes only: not on hops, header
      type, transport id, propagation, flags, or the signalling suffix. */
  lemma LinkIdStable(c: Suite, p: Packet, q: Packet)
    requires p.destType == q.destType && p.packetType == q.packetType && p.dest == q.dest && p.context == q.context
    requires |p.data| >= 64 && |q.data| >= 64 && p.data[..64] == q.data[..64]
    ensures LinkIdOf(c, p) == LinkIdOf(c, q)
  {
    Trimmed(p);
    Trimmed(q);
    var hp, hq := HashablePart(p), HashablePart(q);
    assert hp[..|hp|] == hp && hq[..|hq|] == hq;
    hide HashablePart;
  }

  lemma Trimmed(p: Packet)
    requires |p.data| >= 64
    ensures var h := HashablePart(p);
            h[..|h| - (|p.data| - 64)] == [p.destType % 4 * 4 + p.packetType % 4] + p.dest + [p.context] + p.data[..64]
  {
  }

  /** `q` is a request for `p`'s destination with `p`'s keys, in whatever wire form it arrives. */
  ghost predicate SameRequest(p: Packet, q: Packet) {
    && q.packetType == LINKREQUEST && q.destType == p.destType && q.dest == p.dest && q.context == p.context
    && (|q.data| == 64 || |q.data| == 67) && |p.data| == 64 && q.data[..64] == p.data
  }

  // ------------------------------------------------------------------ the responder

  /** The responder's side of the handshake. */
  lemma RequestAnswered(c: Suite, t: Transport, r: Registry, dest: Bytes, xprv: Bytes, eprv: Bytes, q: Packet, iface: nat,
                        now: nat, rng: Entropy)
    requires Sized(c) && SameRequest(RequestPacket(c, dest, xprv, eprv), q)
    requires FindSingle(t.locals, dest).Some?
    requires q.headerType == HEADER_2 ==> t.enabled && q.transportId == Some(IdentityHash(c, t.identity))
    requires LinkIdOf(c, RequestPacket(c, dest, xprv, eprv)) !in r
    ensures var link := LinkIdOf(c, RequestPacket(c, dest, xprv, eprv));
            var e := HandleRequest(c, t, r, q, iface, now, rng);
            && link in e.st && e.st[link].status == Active && e.st[link].iface == iface && !e.st[link].initiator
            && e.st[link].key == Some(LinkKey(c, rng.first, c.xpub(xprv), link))
            && e.events == [LinkEstablished(link)]
            && e.out == [(iface, Encode(Header1(LINK, PROOF, link, LRPROOF, LinkProof(c, t.identity, link, rng.first))))]
  {
    var p := RequestPacket(c, dest, xprv, eprv);
    LinkIdStable(c, p, q);
    assert p.data[..32] == c.xpub(xprv);
    assert q.data[..32] == q.data[..64][..32];
    hide Encode, LinkIdOf, LinkProof, LinkKey, IdentityHash, FindSingle;
  }

  // ------------------------------------------------------------------ the initiator

  /** The responder's proof verifies under the public identity the initiator holds. */
  lemma ProofVerifies(c: Suite, id: Identity, link: Bytes, xprv: Bytes)
    requires Lawful(c)
    ensures VerifyLinkProof(c, Public(c, id), link, LinkProof(c, id, link, xprv)) == Ok(c.xpub(xprv))
  {
    PublicHalves(c, id);
    var half := SigHalf(Public(c, id));
    var proof := LinkProof(c, id, link, xprv);
    assert proof[..64] == c.sign(id.sig, link + c.xpub(xprv) + half);
    assert proof[64..96] == c.xpub(xprv);
    assert link + proof[64..96] + half + proof[96..] == link + c.xpub(xprv) + half;
    hide Public, SigHalf;
  }

  /** The initiator's side: the proof makes its link active under the responder's key. */
  lemma ProofAccepted(c: Suite, r: Registry, link: Bytes, id: Identity, rprv: Bytes, p: Packet, now: nat, rng: Option<Entropy>)
    requires Lawful(c) && link in r && r[link].status == Pending && r[link].initiator
    requires r[link].public == Some(Public(c, id))
    requires p.dest == link && p.data == LinkProof(c, id, link, rprv)
    ensures var e := HandleLinkProof(c, r, p, now, rng);
            && link in e.st && e.st[link].status == Active && e.st[link].iface == r[link].iface
            && e.st[link].key == Some(LinkKey(c, r[link].xprv, c.xpub(rprv), link))
            && e.events == [LinkEstablished(link)]
  {
    ProofVerifies(c, id, link, rprv);
    hide Encode, VerifyLinkProof, LinkKey, LinkProof, Public, LinkPacket;
  }

  /** Diffie-Hellman gives both sides one key. */
  lemma SameKey(c: Suite, xprv: Bytes, rprv: Bytes, link: Bytes)
    requires Lawful(c)
    ensures LinkKey(c, xprv, c.xpub(rprv), link) == LinkKey(c, rprv, c.xpub(xprv), link)
  {
  }

  // ------------------------------------------------------------------ the handshake, node to node

  /** Both nodes hold the link active under the same key. */
  ghost predicate Paired(a: Node, b: Node, link: Bytes) {
    && Usable(a.links, link) && Usable(b.links, link) && a.links[link].key == b.links[link].key
  }

  /** A request that arrives at its destination's host, admitted by the dedup. */
  lemma RequestInbound(c: Suite, b: Node, bytes: Bytes, q: Packet, dest: Bytes, xprv: Bytes, eprv: Bytes, iface: nat, now: nat,
                       rng: Entropy)
    requires Sized(c) && Decode(bytes) == Ok(q) && Admitted(c, b, bytes, now)
    requires SameRequest(RequestPacket(c, dest, xprv, eprv), q) && FindSingle(b.t.locals, dest).Some?
    requires q.headerType == HEADER_2 ==> b.t.enabled && q.transportId == Some(IdentityHash(c, b.t.identity))
    requires LinkIdOf(c, RequestPacket(c, dest, xprv, eprv)) !in b.links
    ensures var link := LinkIdOf(c, RequestPacket(c, dest, xprv, eprv));
            var e := Exec(c, b, Inbound(bytes, iface, now, Some(rng)));
            && Usable(e.st.links, link) && e.st.links[link].iface == iface
            && e.st.links[link].key == Some(LinkKey(c, rng.first, c.xpub(xprv), link))
            && e.events == [LinkEstablished(link)]
            && e.out == [(iface, Encode(Header1(LINK, PROOF, link, LRPROOF, LinkProof(c, b.t.identity, link, rng.first))))]
  {
    InboundCases(c, b, bytes, iface, now, Some(rng));
    var n, p := AdmittedNode(c, b, bytes, now), AdmittedPacket(c, b, bytes, now);
    NotedRole(c, b.t, q, now);
    assert SameRequest(RequestPacket(c, dest, xprv, eprv), p);
    assert Route(c, p) == ToLinkRequest;
    hide HandleInbound, HandleRequest, Noted, Seen, Decode, Encode, LinkIdOf, LinkProof, LinkKey, IdentityHash, FindSingle,
         SameRequest, RequestPacket, Route;
    RequestAnswered(c, n.t, n.links, dest, xprv, eprv, p, iface, now, rng);
  }

  lemma NotedRole(c: Suite, t: Transport, p: Packet, now: nat)
    ensures var n := Noted(c, t, p, now); n.identity == t.identity && n.locals == t.locals && n.enabled == t.enabled
  {
    hide Expire, PacketHash;
  }

  lemma IdSize(c: Suite, p: Packet)
    requires Sized(c)
    ensures |LinkIdOf(c, p)| == 16
  {
  }

  lemma ProofWire(c: Suite, link: Bytes, proof: Bytes)
    requires |link| == 16
    ensures var p := Header1(LINK, PROOF, link, LRPROOF, proof);
            Decode(Encode(p)) == Ok(p) && Route(c, p.(hops := 1)) == ToLinkProof
  {
    DecodeEncode(Header1(LINK, PROOF, link, LRPROOF, proof));
    hide Decode, Encode;
  }

  /** The proof that arrives at the initiator, admitted by the dedup. */
  lemma ProofInbound(c: Suite, a: Node, link: Bytes, id: Identity, rprv: Bytes, iface: nat, now: nat, rng: Option<Entropy>)
    requires Lawful(c) && |link| == 16
    requires link in a.links && a.links[link].status == Pending && a.links[link].initiator
    requires a.links[link].public == Some(Public(c, id))
    requires var bytes := Encode(Header1(LINK, PROOF, link, LRPROOF, LinkProof(c, id, link, rprv))); Admitted(c, a, bytes, now)
    ensures var bytes := Encode(Header1(LINK, PROOF, link, LRPROOF, LinkProof(c, id, link, rprv)));
            var e := Exec(c, a, Inbound(bytes, iface, now, rng));
            && Usable(e.st.links, link) && e.st.links[link].iface == a.links[link].iface
            && e.st.links[link].key == Some(LinkKey(c, a.links[link].xprv, c.xpub(rprv), link))
            && e.events == [LinkEstablished(link)]
  {
    var p := Header1(LINK, PROOF, link, LRPROOF, LinkProof(c, id, link, rprv));
    var bytes := Encode(p);
    ProofWire(c, link, LinkProof(c, id, link, rprv));
    InboundCases(c, a, bytes, iface, now, rng);
    hide HandleInbound, HandleLinkProof, Noted, Seen, Decode, Encode, LinkProof, LinkKey, Public, Route;
    ProofAccepted(c, AdmittedNode(c, a, bytes, now).links, link, id, rprv, AdmittedPacket(c, a, bytes, now), now, rng);
  }

  /** What `establish_link` leaves and sends on a live path. */
  lemma RequestSent(c: Suite, a: Node, dest: Bytes, xprv: Bytes, eprv: Bytes, now: nat)
    requires dest in a.t.paths && a.t.paths[dest].expiresAt > now
    requires a.t.paths[dest].hops > 1 ==> a.t.paths[dest].nextHop.Some?
    ensures var p := RequestPacket(c, dest, xprv, eprv);
            var path := a.t.paths[dest];
            var e := Exec(c, a, EstablishLink(dest, xprv, eprv, now));
            && LinkIdOf(c, p) in e.st.links
            && var l := e.st.links[LinkIdOf(c, p)];
            && l.status == Pending && l.initiator && l.xprv == xprv && l.public == Some(path.public) && l.iface == path.iface
            && e.events == []
            && e.out == [(path.iface, Encode(
                 if path.hops <= 1 then p
                 else p.(headerType := HEADER_2, propagation := TRANSPORT, transportId := path.nextHop)))]
  {
    hide Encode, LinkIdOf, RequestPacket;
  }

  /** Handshake agreement: a request in any wire form reaching the destination's host, and its answer
      reaching the initiator, leave both with the link active under one key. */
  lemma HandshakeAgrees(c: Suite, a: Node, b: Node, dest: Bytes, xprv: Bytes, eprv: Bytes, q: Packet, bytes: Bytes,
                        ia: nat, ib: nat, ta: nat, tb: nat, ra: Option<Entropy>, rb: Entropy)
    requires Lawful(c)
    // the initiator has called establish_link
    requires var link := LinkIdOf(c, RequestPacket(c, dest, xprv, eprv));
             && link in a.links && a.links[link].status == Pending && a.links[link].initiator && a.links[link].xprv == xprv
             && a.links[link].public == Some(Public(c, b.t.identity))
    // its request reaches the host of the destination
    requires Decode(bytes) == Ok(q) && Admitted(c, b, bytes, tb) && SameRequest(RequestPacket(c, dest, xprv, eprv), q)
    requires FindSingle(b.t.locals, dest).Some? && LinkIdOf(c, RequestPacket(c, dest, xprv, eprv)) !in b.links
    requires q.headerType == HEADER_2 ==> b.t.enabled && q.transportId == Some(IdentityHash(c, b.t.identity))
    ensures var link := LinkIdOf(c, RequestPacket(c, dest, xprv, eprv));
            var eb := Exec(c, b, Inbound(bytes, ib, tb, Some(rb)));
            && eb.events == [LinkEstablished(link)] && |eb.out| == 1 && eb.out[0].0 == ib
            && (Admitted(c, a, eb.out[0].1, ta) ==>
                  var ea := Exec(c, a, Inbound(eb.out[0].1, ia, ta, ra));
                  && ea.events == [LinkEstablished(link)] && Paired(ea.st, eb.st, link)
                  && ea.st.links[link].iface == a.links[link].iface && eb.st.links[link].iface == ib)
  {
    var link := LinkIdOf(c, RequestPacket(c, dest, xprv, eprv));
    RequestInbound(c, b, bytes, q, dest, xprv, eprv, ib, tb, rb);
    IdSize(c, RequestPacket(c, dest, xprv, eprv));
    hide Exec, Decode, Encode, LinkIdOf, Admitted, RequestPacket, SameRequest, Public, FindSingle, IdentityHash,
         LinkProof, LinkKey;
    var proof := Encode(Header1(LINK, PROOF, link, LRPROOF, LinkProof(c, b.t.identity, link, rb.first)));
    if Admitted(c, a, proof, ta) {
      ProofInbound(c, a, link, b.t.identity, rb.first, ia, ta, ra);
      SameKey(c, xprv, rb.first, link);
    }
  }

  /** A link set up on a direct path, from the application's call on: the request that leaves on the path makes the
      host answer on the interface it came from, and the answer leaves both ends with the link active under one key,
      each reporting it once. */
  lemma DirectLinkEstablishes(c: Suite, a: Node, b: Node, dest: Bytes, xprv: Bytes, eprv: Bytes, now: nat,
                              ia: nat, ib: nat, ta: nat, tb: nat, ra: Option<Entropy>, rb: Entropy)
    requires Lawful(c) && |dest| == 16 && dest in a.t.paths && a.t.paths[dest].expiresAt > now
    requires a.t.paths[dest].hops <= 1 && a.t.paths[dest].public == Public(c, b.t.identity)
    requires FindSingle(b.t.locals, dest).Some? && LinkIdOf(c, RequestPacket(c, dest, xprv, eprv)) !in b.links
    ensures var link := LinkIdOf(c, RequestPacket(c, dest, xprv, eprv));
            var e := Exec(c, a, EstablishLink(dest, xprv, eprv, now));
            && |e.out| == 1 && e.out[0].0 == a.t.paths[dest].iface && e.events == []
            && (Admitted(c, b, e.out[0].1, tb) ==>
                  var eb := Exec(c, b, Inbound(e.out[0].1, ib, tb, Some(rb)));
                  && eb.events == [LinkEstablished(link)] && |eb.out| == 1 && eb.out[0].0 == ib
                  && (Admitted(c, e.st, eb.out[0].1, ta) ==>
                        var ea := Exec(c, e.st, Inbound(eb.out[0].1, ia, ta, ra));
                        ea.events == [LinkEstablished(link)] && Paired(ea.st, eb.st, link)))
  {
    hide Exec, Decode, Encode, LinkIdOf, Admitted, RequestPacket, Public, FindSingle, IdentityHash, LinkProof, LinkKey, Paired;
    RequestSent(c, a, dest, xprv, eprv, now);
    RequestWire(c, dest, xprv, eprv);
    var p := RequestPacket(c, dest, xprv, eprv);
    var e := Exec(c, a, EstablishLink(dest, xprv, eprv, now));
    if Admitted(c, b, e.out[0].1, tb) {
      HandshakeAgrees(c, e.st, b, dest, xprv, eprv, p, Encode(p), ia, ib, ta, tb, ra, rb);
    }
  }

  lemma RequestWire(c: Suite, dest: Bytes, xprv: Bytes, eprv: Bytes)
    requires Sized(c) && |dest| == 16
    ensures var p := RequestPacket(c, dest, xprv, eprv);
            Decode(Encode(p)) == Ok(p) && SameRequest(p, p) && p.headerType == HEADER_1
  {
    DecodeEncode(RequestPacket(c, dest, xprv, eprv));
    hide Decode, Encode;
  }

  // ------------------------------------------------------------------ traffic

  /** What one end of a paired link seals, the other end reads. */
  lemma TrafficAgrees(c: Suite, a: Node, b: Node, link: Bytes, plaintext: Bytes, iv: Bytes, ta: nat, tb: nat,
                      rng: Option<Entropy>)
    requires Lawful(c) && Paired(a, b, link) && |link| == 16
    ensures var ea := Exec(c, a, LinkSend(link, plaintext, iv, ta));
            && |ea.out| == 1 && ea.out[0].0 == a.links[link].iface && Paired(ea.st, b, link)
            && (Admitted(c, b, ea.out[0].1, tb) ==>
                  var eb := Exec(c, b, Inbound(ea.out[0].1, b.links[link].iface, tb, rng));
                  eb.events == [LinkData(link, plaintext)] && Paired(ea.st, eb.st, link))
  {
    var p := LinkPacket(link, NO_CONTEXT, c.seal(a.links[link].key.value, plaintext, iv));
    DataWire(c, link, NO_CONTEXT, c.seal(a.links[link].key.value, plaintext, iv));
    var bytes := Encode(p);
    var iface := b.links[link].iface;
    InboundCases(c, b, bytes, iface, tb, rng);
    hide Decode, Encode, HandleInbound, Noted, Seen, Route;
    if Admitted(c, b, bytes, tb) {
      SealedRead(c, b.links, AdmittedPacket(c, b, bytes, tb), iface, tb, a.links[link].key.value, plaintext, iv);
    }
    hide HandleLinkData, AsksClose, LinkPacket;
  }

  lemma DataWire(c: Suite, link: Bytes, context: Byte, data: Bytes)
    requires |link| == 16
    ensures var p := LinkPacket(link, context, data);
            Decode(Encode(p)) == Ok(p) && Route(c, p.(hops := 1)) == ToLink
  {
    DecodeEncode(LinkPacket(link, context, data));
    hide Decode, Encode;
  }

  lemma SealedRead(c: Suite, r: Registry, p: Packet, iface: nat, now: nat, key: Bytes, plaintext: Bytes, iv: Bytes)
    requires Lawful(c) && Usable(r, p.dest) && r[p.dest].key == Some(key) && r[p.dest].iface == iface
    requires p.context == NO_CONTEXT && p.data == c.seal(key, plaintext, iv)
    ensures var e := HandleLinkData(c, r, p, iface, now);
            && e.events == [LinkData(p.dest, plaintext)] && !AsksClose(c, r, p, iface)
            && e.st == r[p.dest := r[p.dest].(lastActivity := now)]
  {
    hide Encode;
  }
}
