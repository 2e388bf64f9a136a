/** How a path is found: an announce is learned by whoever hears it, and a path request is answered with the
    announce of the destination asked for. */
module Discovery {
  import opened Base
  import opened Crypto
  import opened Packets
  import opened PathTables
  import opened Transports
  import opened Nodes
  import opened Links
  import Announces

  /** The announce packet of a destination, as its host makes it; a path response differs in the context. */
  function AnnouncePacket(c: Suite, id: Identity, dest: Bytes, name: Bytes, random: Bytes, appData: Bytes, context: Byte):
    Packet
  {
    Header1(SINGLE, ANNOUNCE, dest, context, Announces.Payload(Announces.Build(c, id, dest, name, random, appData)))
  }

  /** The route an announce of identity `id` leads to, as it is heard. */
  function RouteOf(c: Suite, id: Identity, p: Packet, random: Bytes, iface: nat, now: nat): PathEntry
    requires |random| == 10
  {
    PathEntry(iface, if p.headerType == HEADER_2 then p.transportId else None, p.hops, now + PATH_EXPIRY,
              Announces.Timestamp(random), Public(c, id), None)
  }

  /** The route a first-hand announce leads to: one hop, to its host's key. */
  function DirectRoute(c: Suite, id: Identity, random: Bytes, iface: nat, now: nat): PathEntry
    requires |random| == 10
  {
    PathEntry(iface, None, 1, now + PATH_EXPIRY, Announces.Timestamp(random), Public(c, id), None)
  }

  // ------------------------------------------------------------------ what an announce binds

  /** The announce binds its destination to the key it carries: the destination is not local, the payload parses, its
      signature is good under the key in the payload, its random hash is new, and its route is preferred. */
  predicate Binds(c: Suite, t: Transport, p: Packet, iface: nat, now: nat) {
    && !IsLocal(t, p.dest) && Announces.Parse(p.data, p.contextFlag).Ok?
    && var a := Announces.Parse(p.data, p.contextFlag).value;
    && Announces.Verified(c, a, p.dest) && (p.dest, a.random) !in t.seenAnnounces
    && Prefers(t.paths, p.dest, EntryOf(p, a, iface, now), now)
  }

  lemma BindingAnnounce(c: Suite, t: Transport, p: Packet, iface: nat, now: nat)
    requires Binds(c, t, p, iface, now)
    ensures var e := HandleAnnounce(c, t, p, iface, now);
            && e.events == [Announced(p.dest, p.hops)]
            && e.st.paths == t.paths[p.dest := EntryOf(p, Announces.Parse(p.data, p.contextFlag).value, iface, now)]
            && e.st.cached == t.cached[p.dest := p]
            && e.out == if t.enabled && p.hops < MAX_HOPS && p.context != PATH_RESPONSE then
                          Broadcast(t.interfaces, Some(iface), Encode(Relayed(c, t, p)))
                        else []
  {
    hide Encode, Broadcast, Relayed, Announces.Parse, Announces.Verified, EntryOf, FindLocal, Prefers;
  }

  lemma OtherAnnounce(c: Suite, t: Transport, p: Packet, iface: nat, now: nat)
    requires !Binds(c, t, p, iface, now)
    ensures var e := HandleAnnounce(c, t, p, iface, now);
            && e.events != [Announced(p.dest, p.hops)]
            && e.st.paths == t.paths && e.st.cached == t.cached && e.out == []
  {
    hide Encode, Broadcast, Relayed, Announces.Parse, Announces.Verified, EntryOf, FindLocal, Prefers;
  }

  /** An announce changes the path to its destination exactly if it binds, then to the key it carries, and no
      other path. */
  lemma BindsExactly(c: Suite, t: Transport, p: Packet, iface: nat, now: nat)
    ensures var e := HandleAnnounce(c, t, p, iface, now);
            && (e.events == [Announced(p.dest, p.hops)] <==> Binds(c, t, p, iface, now))
            && (Binds(c, t, p, iface, now) ==>
                  && e.st.paths == t.paths[p.dest := EntryOf(p, Announces.Parse(p.data, p.contextFlag).value, iface, now)]
                  && e.st.cached == t.cached[p.dest := p]
                  && e.out == if t.enabled && p.hops < MAX_HOPS && p.context != PATH_RESPONSE then
                                Broadcast(t.interfaces, Some(iface), Encode(Relayed(c, t, p)))
                              else [])
            && (!Binds(c, t, p, iface, now) ==> e.st.paths == t.paths && e.st.cached == t.cached && e.out == [])
  {
    hide HandleAnnounce, Encode, Broadcast, Relayed, Announces.Parse, Announces.Verified, EntryOf, FindLocal, Prefers;
    if Binds(c, t, p, iface, now) {
      BindingAnnounce(c, t, p, iface, now);
    } else {
      OtherAnnounce(c, t, p, iface, now);
    }
  }

  /** What the handler remembers and leaves alone. */
  lemma AnnounceLeaves(c: Suite, t: Transport, p: Packet, iface: nat, now: nat)
    ensures var e := HandleAnnounce(c, t, p, iface, now);
            && e.st.identity == t.identity && e.st.locals == t.locals && e.st.interfaces == t.interfaces
            && e.st.enabled == t.enabled && e.st.seenPackets == t.seenPackets
            && (Announces.Parse(p.data, p.contextFlag).Ok? ==>
                  e.st.seenAnnounces.Keys
                  <= t.seenAnnounces.Keys + {(p.dest, Announces.Parse(p.data, p.contextFlag).value.random)})
  {
    hide Encode, Broadcast, Relayed, Announces.Parse, Announces.Verified, EntryOf, FindLocal, Prefers;
  }

  /** The signature ties an announce to the key it carries, and nothing ties that key to the destination: whoever
      built the announce, it binds the destination to the builder's key exactly if the destination is not local, the
      random hash is new and the route is preferred. */
  lemma BuiltBindsExactly(c: Suite, t: Transport, id: Identity, p: Packet, name: Bytes, random: Bytes, appData: Bytes,
                          iface: nat, now: nat)
    requires Lawful(c) && |name| == 10 && |random| == 10 && !p.contextFlag
    requires p.data == Announces.Payload(Announces.Build(c, id, p.dest, name, random, appData))
    ensures Binds(c, t, p, iface, now) <==>
              && !IsLocal(t, p.dest) && (p.dest, random) !in t.seenAnnounces
              && Prefers(t.paths, p.dest, RouteOf(c, id, p, random, iface, now), now)
    ensures Announces.Parse(p.data, false).Ok? && Announces.Parse(p.data, false).value.random == random
    ensures EntryOf(p, Announces.Parse(p.data, false).value, iface, now) == RouteOf(c, id, p, random, iface, now)
  {
    Announces.BuiltIsVerified(c, id, p.dest, name, random, appData);
    BuiltFields(c, id, p.dest, name, random, appData);
    hide Announces.Build, Announces.Parse, Announces.Payload, Announces.Verified, Announces.Timestamp, Public, FindLocal,
         Prefers;
  }

  lemma BuiltFields(c: Suite, id: Identity, dest: Bytes, name: Bytes, random: Bytes, appData: Bytes)
    ensures var a := Announces.Build(c, id, dest, name, random, appData);
            a.public == Public(c, id) && a.random == random && a.ratchet == None
  {
  }

  lemma AnnounceWire(c: Suite, id: Identity, dest: Bytes, name: Bytes, random: Bytes, appData: Bytes, context: Byte)
    requires |dest| == 16
    ensures var p := AnnouncePacket(c, id, dest, name, random, appData, context);
            Decode(Encode(p)) == Ok(p) && Route(c, p.(hops := 1)) == ToAnnounce
  {
    DecodeEncode(AnnouncePacket(c, id, dest, name, random, appData, context));
    hide Decode, Encode, Announces.Build, Announces.Payload;
  }

  lemma NotedRoutes(c: Suite, t: Transport, p: Packet, now: nat)
    ensures var n := Noted(c, t, p, now);
            && n.identity == t.identity && n.locals == t.locals && n.enabled == t.enabled && n.paths == t.paths
            && n.interfaces == t.interfaces && n.cached == t.cached
            && n.seenAnnounces.Keys <= t.seenAnnounces.Keys && n.seenRequests.Keys <= t.seenRequests.Keys
            && n.seenPackets.Keys <= t.seenPackets.Keys + {PacketHash(c, p)}
  {
    hide PacketHash;
  }

  /** An admitted packet on its way to the announce or the path request handler. */
  lemma Handled(c: Suite, n: Node, bytes: Bytes, p: Packet, iface: nat, now: nat, rng: Option<Entropy>)
    requires Decode(bytes) == Ok(p) && p.hops < MAX_HOPS && !Seen(c, n.t, p, now)
    ensures var t := Noted(c, n.t, p, now);
            var q := p.(hops := p.hops + 1);
            && (Route(c, q) == ToAnnounce ==>
                  Exec(c, n, Inbound(bytes, iface, now, rng)) == OnTransport(n.(t := t), HandleAnnounce(c, t, q, iface, now)))
            && (Route(c, q) == ToPathRequest ==>
                  Exec(c, n, Inbound(bytes, iface, now, rng))
                  == OnTransport(n.(t := t), HandlePathRequest(c, t, q, iface, now)))
  {
    hide Decode, HandleInbound, Noted, Seen, Route, HandleAnnounce, HandlePathRequest;
    InboundCases(c, n, bytes, iface, now, rng);
  }

  /** From the bytes on the wire, first-hand or relayed: an announce not heard before whose route is preferred
      gives the node a route to its builder's key, and a relay passes it on. */
  lemma AnnounceTaken(c: Suite, n: Node, bytes: Bytes, p: Packet, id: Identity, name: Bytes, random: Bytes, appData: Bytes,
                      iface: nat, now: nat, rng: Option<Entropy>)
    requires Lawful(c) && |name| == 10 && |random| == 10 && Decode(bytes) == Ok(p) && p.hops < MAX_HOPS
    requires p.packetType == ANNOUNCE && !p.contextFlag
    requires p.data == Announces.Payload(Announces.Build(c, id, p.dest, name, random, appData))
    requires !Seen(c, n.t, p, now) && !IsLocal(n.t, p.dest) && (p.dest, random) !in n.t.seenAnnounces
    requires Prefers(n.t.paths, p.dest, RouteOf(c, id, p.(hops := p.hops + 1), random, iface, now), now)
    ensures var q := p.(hops := p.hops + 1);
            var e := Exec(c, n, Inbound(bytes, iface, now, rng));
            && e.st.t.paths == n.t.paths[p.dest := RouteOf(c, id, q, random, iface, now)]
            && e.events == [Announced(p.dest, q.hops)]
            && e.out == (if n.t.enabled && q.hops < MAX_HOPS && q.context != PATH_RESPONSE then
                           Broadcast(n.t.interfaces, Some(iface), Encode(Relayed(c, n.t, q)))
                         else [])
            && e.st.t.identity == n.t.identity && e.st.t.locals == n.t.locals && e.st.t.interfaces == n.t.interfaces
            && e.st.t.enabled == n.t.enabled
            && e.st.t.seenPackets.Keys <= n.t.seenPackets.Keys + {PacketHash(c, p)}
            && e.st.t.seenAnnounces.Keys <= n.t.seenAnnounces.Keys + {(p.dest, random)}
  {
    hide Decode, Encode, Exec, Noted, Route, HandleAnnounce, Broadcast, FindLocal, Seen, Announces.Parse, Announces.Payload,
         Announces.Build, RouteOf, EntryOf, Binds, Prefers, PacketHash, IdentityHash, Lawful;
    var q, t := p.(hops := p.hops + 1), Noted(c, n.t, p, now);
    AnnounceRoute(c, q);
    Handled(c, n, bytes, p, iface, now, rng);
    NotedRoutes(c, n.t, p, now);
    BuiltBindsExactly(c, t, id, q, name, random, appData, iface, now);
    BindsExactly(c, t, q, iface, now);
    AnnounceLeaves(c, t, q, iface, now);
  }

  lemma AnnounceRoute(c: Suite, p: Packet)
    requires p.packetType == ANNOUNCE
    ensures Route(c, p) == ToAnnounce
  {
  }

  /** From the bytes on the wire: whoever hears a first-hand announce, unless it has a route it prefers, learns a
      one-hop path to the host's key on the arriving interface, reports it, and as a relay passes it on. */
  lemma AnnounceHeard(c: Suite, n: Node, id: Identity, dest: Bytes, name: Bytes, random: Bytes, appData: Bytes,
                      context: Byte, iface: nat, now: nat, rng: Option<Entropy>)
    requires Lawful(c) && |dest| == 16 && |name| == 10 && |random| == 10
    requires !IsLocal(n.t, dest) && (dest, random) !in n.t.seenAnnounces
    requires Prefers(n.t.paths, dest, DirectRoute(c, id, random, iface, now), now)
    requires Admitted(c, n, Encode(AnnouncePacket(c, id, dest, name, random, appData, context)), now)
    ensures var p := AnnouncePacket(c, id, dest, name, random, appData, context);
            var e := Exec(c, n, Inbound(Encode(p), iface, now, rng));
            && e.st.t.paths == n.t.paths[dest := DirectRoute(c, id, random, iface, now)]
            && e.events == [Announced(dest, 1)]
            && e.out == if n.t.enabled && context != PATH_RESPONSE then
                          Broadcast(n.t.interfaces, Some(iface), Encode(Relayed(c, n.t, p.(hops := 1))))
                        else []
  {
    AnnounceWire(c, id, dest, name, random, appData, context);
    hide Decode, Encode, Exec, Route, Broadcast, FindLocal, IdentityHash, Public, Announces.Payload, Announces.Build, Seen,
         Announces.Timestamp;
    var p := AnnouncePacket(c, id, dest, name, random, appData, context);
    AnnounceTaken(c, n, Encode(p), p, id, name, random, appData, iface, now, rng);
  }

  /** What a host sends when it announces, and keeps to answer path requests with. */
  lemma AnnounceSent(c: Suite, n: Node, local: Local, random: Bytes, appData: Bytes, iface: nat)
    requires FindSingle(n.t.locals, local.dest) == Some(local)
    ensures var p := AnnouncePacket(c, n.t.identity, local.dest, local.name, random, appData, NO_CONTEXT);
            var e := Exec(c, n, Announce(local.dest, appData, random, iface));
            e.out == [(iface, Encode(p))] && e.events == [] && e.st == n.(t := n.t.(cached := n.t.cached[local.dest := p]))
  {
    hide Encode, Announces.Build, Announces.Payload, FindSingle;
  }

  /** From the host's call to a neighbour's route: what a host queues when it announces gives every node that has not
      heard it a one-hop path to the host's key, unless the node has a route it prefers; and the host keeps the
      announce to answer path requests with. */
  lemma AnnounceReaches(c: Suite, h: Node, local: Local, random: Bytes, appData: Bytes, out: nat, n: Node, iface: nat,
                        now: nat, rng: Option<Entropy>)
    requires Lawful(c) && FindSingle(h.t.locals, local.dest) == Some(local)
    requires |local.dest| == 16 && |local.name| == 10 && |random| == 10
    requires !IsLocal(n.t, local.dest) && (local.dest, random) !in n.t.seenAnnounces
    requires Prefers(n.t.paths, local.dest, DirectRoute(c, h.t.identity, random, iface, now), now)
    ensures var e := Exec(c, h, Call.Announce(local.dest, appData, random, out));
            && |e.out| == 1 && e.out[0].0 == out && e.events == [] && local.dest in e.st.t.cached
            && Decode(e.out[0].1) == Ok(e.st.t.cached[local.dest])
            && (Admitted(c, n, e.out[0].1, now) ==>
                  var heard := Exec(c, n, Inbound(e.out[0].1, iface, now, rng));
                  && heard.events == [Announced(local.dest, 1)]
                  && heard.st.t.paths == n.t.paths[local.dest := DirectRoute(c, h.t.identity, random, iface, now)])
  {
    hide Decode, Encode, Exec, Route, Broadcast, FindLocal, FindSingle, Seen, AnnouncePacket, DirectRoute, Prefers, Admitted,
         Relayed;
    AnnounceWire(c, h.t.identity, local.dest, local.name, random, appData, NO_CONTEXT);
    AnnounceSent(c, h, local, random, appData, out);
    if Admitted(c, n, Encode(AnnouncePacket(c, h.t.identity, local.dest, local.name, random, appData, NO_CONTEXT)), now) {
      AnnounceHeard(c, n, h.t.identity, local.dest, local.name, random, appData, NO_CONTEXT, iface, now, rng);
    }
  }

  // ------------------------------------------------------------------ path requests

  function PathRequestPacket(c: Suite, t: Transport, dest: Bytes, tag: Bytes): Packet {
    Header1(PLAIN, DATA, PathRequestDest(c), NO_CONTEXT, dest + (if t.enabled then IdentityHash(c, t.identity) else []) + tag)
  }

  lemma PathRequestWire(c: Suite, t: Transport, dest: Bytes, tag: Bytes)
    requires Sized(c)
    ensures var p := PathRequestPacket(c, t, dest, tag);
            Decode(Encode(p)) == Ok(p) && Route(c, p.(hops := 1)) == ToPathRequest
  {
    DecodeEncode(PathRequestPacket(c, t, dest, tag));
    hide Decode, Encode, IdentityHash;
  }

  /** The host of the destination reads target and tag back and answers with its announce. */
  lemma RequestAnswered(c: Suite, asker: Transport, t: Transport, dest: Bytes, tag: Bytes, p: Packet, iface: nat, now: nat)
    requires Sized(c) && |dest| == 16 && |tag| == 16
    requires IsLocal(t, dest) && dest !in t.paths && (dest, tag) !in t.seenRequests
    requires dest in t.cached && t.cached[dest] == p && p.headerType == HEADER_1 && p.hops == 0
    requires p.propagation == BROADCAST && p.transportId == None
    ensures var e := HandlePathRequest(c, t, PathRequestPacket(c, asker, dest, tag).(hops := 1), iface, now);
            && e.out == [(iface, Encode(p.(context := PATH_RESPONSE)))] && e.events == []
            && (dest, tag) in e.st.seenRequests && e.st.paths == t.paths
  {
    hide Encode, FindLocal, PathRequestDest;
    var data := PathRequestPacket(c, asker, dest, tag).data;
    assert data[..16] == dest;
    if asker.enabled {
      assert data[32..48] == tag;
    } else {
      assert data[16..32] == tag;
    }
  }

  /** Path discovery, end to end: a node asks on all its interfaces; the host of the destination, having announced
      it once, answers on the interface the request came from; and the answer gives the asking node a one-hop path
      to the host's key. */
  lemma PathDiscovered(c: Suite, a: Node, b: Node, dest: Bytes, tag: Bytes, name: Bytes, random: Bytes, appData: Bytes,
                       ia: nat, ib: nat, ta: nat, tb: nat, ra: Option<Entropy>, rb: Option<Entropy>)
    requires Lawful(c) && |dest| == 16 && |tag| == 16 && |name| == 10 && |random| == 10
    requires IsLocal(b.t, dest) && dest !in b.t.paths && (dest, tag) !in b.t.seenRequests && dest in b.t.cached
    requires b.t.cached[dest] == AnnouncePacket(c, b.t.identity, dest, name, random, appData, NO_CONTEXT)
    requires !IsLocal(a.t, dest) && dest !in a.t.paths && (dest, random) !in a.t.seenAnnounces
    requires Admitted(c, b, Encode(PathRequestPacket(c, a.t, dest, tag)), tb)
    ensures var asking := Exec(c, a, AskPath(dest, tag));
            && asking.st == a
            && asking.out == Broadcast(a.t.interfaces, None, Encode(PathRequestPacket(c, a.t, dest, tag)))
    ensures var answer := Encode(AnnouncePacket(c, b.t.identity, dest, name, random, appData, PATH_RESPONSE));
            && Exec(c, b, Inbound(Encode(PathRequestPacket(c, a.t, dest, tag)), ib, tb, rb)).out == [(ib, answer)]
            && (Admitted(c, a, answer, ta) ==>
                  var learned := Exec(c, a, Inbound(answer, ia, ta, ra));
                  && learned.events == [Announced(dest, 1)]
                  && learned.st.t.paths == a.t.paths[dest := DirectRoute(c, b.t.identity, random, ia, ta)])
  {
    hide Decode, Encode, AnnouncePacket, HandleInbound, Broadcast, FindLocal, DirectRoute, IdentityHash, PathRequestDest,
         Admitted, Public;
    HostAnswers(c, a.t, b, dest, tag, name, random, appData, ib, tb, rb);
    var answer := Encode(AnnouncePacket(c, b.t.identity, dest, name, random, appData, PATH_RESPONSE));
    if Admitted(c, a, answer, ta) {
      AnnounceHeard(c, a, b.t.identity, dest, name, random, appData, PATH_RESPONSE, ia, ta, ra);
    }
  }

  lemma HostAnswers(c: Suite, asker: Transport, b: Node, dest: Bytes, tag: Bytes, name: Bytes, random: Bytes, appData: Bytes,
                    ib: nat, tb: nat, rb: Option<Entropy>)
    requires Lawful(c) && |dest| == 16 && |tag| == 16
    requires IsLocal(b.t, dest) && dest !in b.t.paths && (dest, tag) !in b.t.seenRequests && dest in b.t.cached
    requires b.t.cached[dest] == AnnouncePacket(c, b.t.identity, dest, name, random, appData, NO_CONTEXT)
    requires Admitted(c, b, Encode(PathRequestPacket(c, asker, dest, tag)), tb)
    ensures Exec(c, b, Inbound(Encode(PathRequestPacket(c, asker, dest, tag)), ib, tb, rb)).out
            == [(ib, Encode(AnnouncePacket(c, b.t.identity, dest, name, random, appData, PATH_RESPONSE)))]
  {
    var request := PathRequestPacket(c, asker, dest, tag);
    var p := b.t.cached[dest];
    assert p.(context := PATH_RESPONSE) == AnnouncePacket(c, b.t.identity, dest, name, random, appData, PATH_RESPONSE);
    assert p.headerType == HEADER_1 && p.hops == 0 && p.propagation == BROADCAST && p.transportId == None;
    assert request.hops == 0;
    hide Decode, Encode, AnnouncePacket, Exec, Noted, Route, HandlePathRequest, FindLocal, IdentityHash, PathRequestDest,
         PathRequestPacket, Admitted;
    PathRequestWire(c, asker, dest, tag);
    Handled(c, b, Encode(request), request, ib, tb, rb);
    NotedRoutes(c, b.t, request, tb);
    RequestAnswered(c, asker, Noted(c, b.t, request, tb), dest, tag, p, ib, tb);
  }

  // ------------------------------------------------------------------ a relay's answer

  /** The announce a relay learned its route from, as it passes it on to answer a request. */
  function CachedAnswer(c: Suite, t: Transport, dest: Bytes): Packet
    requires dest in t.paths && dest in t.cached
  {
    Relayed(c, t, t.cached[dest].(context := PATH_RESPONSE, hops := t.paths[dest].hops))
  }

  /** A relay with a route answers from its cache, unless its route leads through the asking node. */
  lemma RelayRequestAnswered(c: Suite, asker: Transport, t: Transport, dest: Bytes, tag: Bytes, iface: nat, now: nat)
    requires Sized(c) && |dest| == 16 && |tag| == 16 && t.enabled && !IsLocal(t, dest) && dest in t.paths && dest in t.cached
    requires (dest, tag) !in t.seenRequests
    ensures var e := HandlePathRequest(c, t, PathRequestPacket(c, asker, dest, tag).(hops := 1), iface, now);
            e.out == if asker.enabled && t.paths[dest].nextHop == Some(IdentityHash(c, asker.identity)) then []
                     else [(iface, Encode(CachedAnswer(c, t, dest)))]
  {
    hide Encode, FindLocal, PathRequestDest, IdentityHash;
    IdentitySize(c, asker.identity);
    var data := PathRequestPacket(c, asker, dest, tag).data;
    assert data[..16] == dest;
    if asker.enabled {
      assert data[16..32] == IdentityHash(c, asker.identity) && data[32..48] == tag;
    } else {
      assert data[16..32] == tag;
    }
  }

  lemma IdentitySize(c: Suite, id: Identity)
    requires Sized(c)
    ensures |IdentityHash(c, id)| == 16
  {
  }

  lemma AnswerWire(c: Suite, t: Transport, dest: Bytes)
    requires Sized(c) && dest in t.paths && dest in t.cached && WellFormed(t.cached[dest])
    ensures Decode(Encode(CachedAnswer(c, t, dest))) == Ok(CachedAnswer(c, t, dest))
  {
    IdentitySize(c, t.identity);
    DecodeEncode(CachedAnswer(c, t, dest));
    hide Decode, Encode, IdentityHash;
  }

  lemma RelayAnswers(c: Suite, asker: Transport, b: Node, dest: Bytes, tag: Bytes, ib: nat, tb: nat, rb: Option<Entropy>)
    requires Sized(c) && |dest| == 16 && |tag| == 16 && b.t.enabled && !IsLocal(b.t, dest)
    requires dest in b.t.paths && dest in b.t.cached && (dest, tag) !in b.t.seenRequests
    requires Admitted(c, b, Encode(PathRequestPacket(c, asker, dest, tag)), tb)
    ensures Exec(c, b, Inbound(Encode(PathRequestPacket(c, asker, dest, tag)), ib, tb, rb)).out
            == if asker.enabled && b.t.paths[dest].nextHop == Some(IdentityHash(c, asker.identity)) then []
               else [(ib, Encode(CachedAnswer(c, b.t, dest)))]
  {
    var request := PathRequestPacket(c, asker, dest, tag);
    assert request.hops == 0;
    hide Decode, Encode, Exec, Noted, Route, HandlePathRequest, FindLocal, IdentityHash, PathRequestDest, PathRequestPacket;
    PathRequestWire(c, asker, dest, tag);
    Handled(c, b, Encode(request), request, ib, tb, rb);
    NotedRoutes(c, b.t, request, tb);
    RelayRequestAnswered(c, asker, Noted(c, b.t, request, tb), dest, tag, ib, tb);
  }

  /** Path discovery through a relay: a relay that learned the announce of a destination answers a request for it, and
      the answer gives the asking node a route through the relay, one hop longer than the relay's and to the same key;
      only if the relay's own route leads through the asking node it stays silent. */
  lemma PathDiscoveredAtRelay(c: Suite, a: Node, b: Node, id: Identity, dest: Bytes, tag: Bytes, name: Bytes, random: Bytes,
                              appData: Bytes, ia: nat, ib: nat, ta: nat, tb: nat, ra: Option<Entropy>, rb: Option<Entropy>)
    requires Lawful(c) && |dest| == 16 && |tag| == 16 && |name| == 10 && |random| == 10
    requires b.t.enabled && !IsLocal(b.t, dest) && dest in b.t.paths && dest in b.t.cached && (dest, tag) !in b.t.seenRequests
    requires b.t.paths[dest].hops < 255
    requires var p := b.t.cached[dest];
             && WellFormed(p) && p.packetType == ANNOUNCE && !p.contextFlag && p.dest == dest
             && p.data == Announces.Payload(Announces.Build(c, id, dest, name, random, appData))
    requires !IsLocal(a.t, dest) && (dest, random) !in a.t.seenAnnounces && dest !in a.t.paths
    requires Admitted(c, b, Encode(PathRequestPacket(c, a.t, dest, tag)), tb)
    ensures var answered := Exec(c, b, Inbound(Encode(PathRequestPacket(c, a.t, dest, tag)), ib, tb, rb));
            var answer := Encode(CachedAnswer(c, b.t, dest));
            && answered.out == (if a.t.enabled && b.t.paths[dest].nextHop == Some(IdentityHash(c, a.t.identity)) then []
                                else [(ib, answer)])
            && (Admitted(c, a, answer, ta) ==>
                  var learned := Exec(c, a, Inbound(answer, ia, ta, ra));
                  && learned.events == [Announced(dest, b.t.paths[dest].hops + 1)]
                  && learned.st.t.paths
                     == a.t.paths[dest := PathEntry(ia, Some(IdentityHash(c, b.t.identity)), b.t.paths[dest].hops + 1,
                                                    ta + PATH_EXPIRY, Announces.Timestamp(random), Public(c, id), None)])
  {
    hide Decode, Encode, Exec, FindLocal, IdentityHash, PathRequestDest, PathRequestPacket, Public, Announces.Payload,
         Announces.Build, Announces.Timestamp, Seen, Broadcast, Lawful, WellFormed;
    LawfulSized(c);
    RelayAnswers(c, a.t, b, dest, tag, ib, tb, rb);
    AnswerWire(c, b.t, dest);
    var r := CachedAnswer(c, b.t, dest);
    if Admitted(c, a, Encode(r), ta) {
      AnnounceTaken(c, a, Encode(r), r, id, name, random, appData, ia, ta, ra);
    }
  }

  lemma LawfulSized(c: Suite)
    requires Lawful(c)
    ensures Sized(c)
  {
  }
}
