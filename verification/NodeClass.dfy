/** The node as the object it is: every method updates the maps and queues in place, and is proved against
    the functions of `Nodes`, `Transports` and `Links`. */
module NodeClass {
  import opened Base
  import opened Crypto
  import opened Packets
  import opened PathTables
  import opened Transports
  import Announces
  import Links
  import N = Nodes
  import Order

  // ------------------------------------------------------------------ lists built from the front and the back

  lemma BroadcastFirst(interfaces: seq<nat>, skip: Option<nat>, bytes: Bytes)
    ensures Broadcast([], skip, bytes) == []
    ensures interfaces != [] ==>
              Broadcast(interfaces, skip, bytes)
              == (if Some(interfaces[0]) == skip then [] else [(interfaces[0], bytes)])
                 + Broadcast(interfaces[1..], skip, bytes)
  {
  }

  lemma {:induction false} BroadcastAppend(interfaces: seq<nat>, iface: nat, skip: Option<nat>, bytes: Bytes)
    ensures Broadcast(interfaces + [iface], skip, bytes)
            == Broadcast(interfaces, skip, bytes) + if Some(iface) == skip then [] else [(iface, bytes)]
    decreases |interfaces|
  {
    hide Broadcast;
    var all := interfaces + [iface];
    BroadcastFirst(all, skip, bytes);
    BroadcastFirst(interfaces, skip, bytes);
    if interfaces == [] {
      assert all[1..] == [];
    } else {
      BroadcastAppend(interfaces[1..], iface, skip, bytes);
      assert all[1..] == interfaces[1..] + [iface];
    }
  }

  /** The keepalive one link is due, if any. */
  function KeepaliveOf(e: Links.LinkEntry, id: Bytes, now: nat): seq<(nat, Bytes)> {
    if Links.KeepaliveDue(e, now) then [(e.iface, Encode(Links.LinkPacket(id, KEEPALIVE, [0xFF])))] else []
  }

  /** The event of one link going stale, if it does. */
  function ClosingOf(e: Links.LinkEntry, id: Bytes, now: nat): seq<Event> {
    if Links.Stale(e, now) then [LinkClosed(id)] else []
  }

  lemma SweepFirst(r: Links.Registry, ids: seq<Bytes>, now: nat)
    requires forall i | i in ids :: i in r
    ensures Links.Keepalives(r, [], now) == [] && Links.Closings(r, [], now) == []
    ensures ids != [] ==>
              Links.Keepalives(r, ids, now) == KeepaliveOf(r[ids[0]], ids[0], now) + Links.Keepalives(r, ids[1..], now)
    ensures ids != [] ==>
              Links.Closings(r, ids, now) == ClosingOf(r[ids[0]], ids[0], now) + Links.Closings(r, ids[1..], now)
  {
    hide Encode, Links.KeepaliveDue, Links.Stale, Links.LinkPacket;
  }

  lemma {:induction false} SweepAppend(r: Links.Registry, ids: seq<Bytes>, id: Bytes, now: nat)
    requires id in r && forall i | i in ids :: i in r
    ensures Links.Keepalives(r, ids + [id], now) == Links.Keepalives(r, ids, now) + KeepaliveOf(r[id], id, now)
    ensures Links.Closings(r, ids + [id], now) == Links.Closings(r, ids, now) + ClosingOf(r[id], id, now)
    decreases |ids|
  {
    hide Links.Keepalives, Links.Closings, KeepaliveOf, ClosingOf;
    var all := ids + [id];
    SweepFirst(r, all, now);
    SweepFirst(r, ids, now);
    if ids == [] {
      assert all[1..] == [];
    } else {
      SweepAppend(r, ids[1..], id, now);
      assert all[1..] == ids[1..] + [id];
    }
  }

  // ------------------------------------------------------------------ the registry

  /** The links of a node (link_state.rs). */
  class LinkRegistry {
    var entries: Links.Registry

    constructor ()
      ensures entries == map[]
    {
      entries := map[];
    }

    method Insert(id: Bytes, entry: Links.LinkEntry)
      modifies this
      ensures entries == old(entries)[id := entry]
    {
      entries := entries[id := entry];
    }

    method Get(id: Bytes) returns (r: Option<Links.LinkEntry>)
      ensures r == if id in entries then Some(entries[id]) else None
    {
      r := if id in entries then Some(entries[id]) else None;
    }

    /** One link of the pass. */
    method SweepOne(id: Bytes, now: nat) returns (keepalive: seq<(nat, Bytes)>, closed: seq<Event>)
      requires id in entries
      modifies this
      ensures entries == old(entries)[id := Links.TickEntry(old(entries)[id], now)]
      ensures keepalive == KeepaliveOf(old(entries)[id], id, now)
      ensures closed == ClosingOf(old(entries)[id], id, now)
    {
      hide Encode, Links.LinkPacket;
      keepalive, closed := [], [];
      var link := entries[id];
      if link.status != Links.Active {
        return;
      }
      if now >= link.lastActivity + Links.STALE_SECS {
        entries := entries[id := link.(status := Links.Closed)];
        closed := [LinkClosed(id)];
      } else if link.initiator && now >= link.lastKeepalive + Links.KEEPALIVE_SECS {
        entries := entries[id := link.(lastKeepalive := now)];
        keepalive := [(link.iface, Encode(Links.LinkPacket(id, KEEPALIVE, [0xFF])))];
      }
    }

    /** One pass over all links in key order: stale ones close, quiet ones are due a keepalive. */
    method Sweep(now: nat) returns (keepalives: seq<(nat, Bytes)>, closed: seq<Event>)
      modifies this
      ensures entries == Links.Tick(old(entries), now).st
      ensures keepalives == Links.Tick(old(entries), now).out
      ensures closed == Links.Tick(old(entries), now).events
    {
      hide Encode, Links.LinkPacket, Links.TickEntry, KeepaliveOf, ClosingOf, Links.Keepalives, Links.Closings,
           Order.Sorted;
      ghost var before := entries;
      var ids := Order.Sorted(entries.Keys);
      keepalives, closed := [], [];
      var i := 0;
      NothingTicked(before, now);
      while i < |ids|
        invariant 0 <= i <= |ids|
        invariant entries == Ticked(before, ids[..i], now)
        invariant keepalives == Links.Keepalives(before, ids[..i], now)
        invariant closed == Links.Closings(before, ids[..i], now)
      {
        var id := ids[i];
        Order.SortedOnce(before.Keys, i);
        assert ids[..i + 1] == ids[..i] + [id];
        SweepAppend(before, ids[..i], id, now);
        TickedAppend(before, ids[..i], id, now);
        var keepalive, closing := SweepOne(id, now);
        keepalives := keepalives + keepalive;
        closed := closed + closing;
        i := i + 1;
      }
      assert ids[..i] == ids;
      AllTicked(before, ids, now);
    }
  }

  /** The registry with some of its links passed. */
  function Ticked(r: Links.Registry, ids: seq<Bytes>, now: nat): Links.Registry {
    map id | id in r :: if id in ids then Links.TickEntry(r[id], now) else r[id]
  }

  lemma NothingTicked(r: Links.Registry, now: nat)
    ensures Ticked(r, [], now) == r
    ensures Links.Keepalives(r, [], now) == [] && Links.Closings(r, [], now) == []
  {
  }

  lemma TickedAppend(r: Links.Registry, ids: seq<Bytes>, id: Bytes, now: nat)
    requires id in r && id !in ids
    ensures id in Ticked(r, ids, now) && Ticked(r, ids, now)[id] == r[id]
    ensures Ticked(r, ids + [id], now) == Ticked(r, ids, now)[id := Links.TickEntry(r[id], now)]
  {
    hide Links.TickEntry;
  }

  lemma AllTicked(r: Links.Registry, ids: seq<Bytes>, now: nat)
    requires forall id :: id in ids <==> id in r
    ensures Ticked(r, ids, now) == Links.Tick(r, now).st
  {
    hide Links.TickEntry, Links.Keepalives, Links.Closings;
  }

  // ------------------------------------------------------------------ the node

  class Node {
    const c: Suite
    const identity: Identity
    var locals: seq<Local>
    const paths: PathTable
    var interfaces: seq<nat>
    var transportEnabled: bool
    var seenAnnounces: map<(Bytes, Bytes), nat>
    var seenPathRequests: map<(Bytes, Bytes), nat>
    var seenPackets: map<Bytes, nat>
    var cachedAnnounces: map<Bytes, Packet>
    var outbound: seq<(nat, Bytes)>
    const links: LinkRegistry
    var pendingEvents: seq<Event>
    var pendingReceipts: map<Bytes, Receipt>
    var lastPrune: nat

    /** The transport half as a value. */
    function TransportView(): Transport
      reads this, paths
    {
      Transport(identity, locals, paths.entries, interfaces, transportEnabled, seenAnnounces, seenPathRequests,
                seenPackets, cachedAnnounces, pendingReceipts, lastPrune)
    }

    /** The node as a value. */
    function View(): N.Node
      reads this, paths, links
    {
      N.Node(TransportView(), links.entries, pendingEvents)
    }

    /** The node is in the state an effect leaves behind, and its packets are queued after `queued`. */
    ghost predicate Became(e: Effect<N.Node>, queued: seq<(nat, Bytes)>)
      reads this, paths, links
    {
      View() == e.st && outbound == queued + e.out
    }

    constructor (suite: Suite, id: Identity)
      ensures c == suite && fresh(paths) && fresh(links)
      ensures View() == N.Node(NewTransport(id), map[], []) && outbound == []
    {
      c, identity := suite, id;
      locals, interfaces, transportEnabled := [], [], false;
      seenAnnounces, seenPathRequests, seenPackets := map[], map[], map[];
      cachedAnnounces, pendingReceipts := map[], map[];
      outbound, pendingEvents, lastPrune := [], [], 0;
      paths := new PathTable();
      links := new LinkRegistry();
    }

    method MaybePruneMaps(now: nat)
      modifies this
      ensures View() == old(View()).(t := MaybePrune(old(View()).t, now)) && outbound == old(outbound)
    {
      if lastPrune != 0 && now < lastPrune + 1 {
        return;
      }
      lastPrune := now;
      seenPackets := Expire(seenPackets, now);
      seenAnnounces := Expire(seenAnnounces, now);
      seenPathRequests := Expire(seenPathRequests, now);
    }

    /** Queues one packet. */
    method Enqueue(iface: nat, p: Packet)
      modifies this`outbound
      ensures outbound == old(outbound) + [(iface, Encode(p))]
    {
      outbound := outbound + [(iface, Encode(p))];
    }

    /** Queues a packet on every interface but one. */
    method EnqueueAll(p: Packet, skip: Option<nat>)
      modifies this`outbound
      ensures outbound == old(outbound) + Broadcast(interfaces, skip, Encode(p))
    {
      hide Encode, Broadcast;
      var encoded := Encode(p);
      ghost var before := outbound;
      var i := 0;
      BroadcastNothing(skip, encoded);
      while i < |interfaces|
        invariant 0 <= i <= |interfaces|
        invariant outbound == before + Broadcast(interfaces[..i], skip, encoded)
      {
        BroadcastAppend(interfaces[..i], interfaces[i], skip, encoded);
        assert interfaces[..i + 1] == interfaces[..i] + [interfaces[i]];
        if Some(interfaces[i]) != skip {
          outbound := outbound + [(interfaces[i], encoded)];
        }
        i := i + 1;
      }
      assert interfaces[..i] == interfaces;
    }

    // -------------------------------------------------------------- configuration

    method RegisterInterface(iface: nat)
      modifies this
      ensures Became(N.Exec(c, old(View()), N.RegisterInterface(iface)), old(outbound))
    {
      if iface !in interfaces {
        interfaces := interfaces + [iface];
      }
    }

    method UnregisterInterface(iface: nat)
      modifies this
      ensures Became(N.Exec(c, old(View()), N.UnregisterInterface(iface)), old(outbound))
    {
      interfaces := N.Without(interfaces, iface);
    }

    method EnableTransport(enabled: bool)
      modifies this
      ensures Became(N.Exec(c, old(View()), N.EnableTransport(enabled)), old(outbound))
    {
      transportEnabled := enabled;
    }

    method Register(local: Local)
      modifies this
      ensures Became(N.Exec(c, old(View()), N.Register(local)), old(outbound))
    {
      locals := locals + [local];
    }

    method SetProve(dest: Bytes, enabled: bool) returns (found: bool)
      modifies this
      ensures Became(N.Exec(c, old(View()), N.SetProve(dest, enabled)), old(outbound))
      ensures found <==> FindLocal(old(locals), dest).Some? && FindLocal(old(locals), dest).value.kind.Single?
    {
      hide FindLocal, N.SetProving;
      var i := 0;
      while i < |locals| && locals[i].dest != dest
        invariant 0 <= i <= |locals|
        invariant forall j | 0 <= j < i :: locals[j].dest != dest
      {
        i := i + 1;
      }
      SetProvingAt(locals, dest, enabled, i);
      if i == |locals| || !locals[i].kind.Single? {
        return false;
      }
      locals := locals[i := locals[i].(kind := Single(enabled))];
      found := true;
    }

    // -------------------------------------------------------------- sending

    method SendAnnounce(dest: Bytes, appData: Bytes, random: Bytes, iface: nat)
      modifies this
      ensures Became(N.Exec(c, old(View()), N.Announce(dest, appData, random, iface)), old(outbound))
    {
      hide Encode, Announces.Build, Announces.Payload, FindSingle;
      var local := FindSingle(locals, dest);
      if local.None? {
        return;
      }
      var announce := Announces.Build(c, identity, dest, local.value.name, random, appData);
      var packet := Header1(SINGLE, ANNOUNCE, dest, NO_CONTEXT, Announces.Payload(announce));
      cachedAnnounces := cachedAnnounces[dest := packet];
      Enqueue(iface, packet);
    }

    method RequestPath(dest: Bytes, tag: Bytes)
      modifies this
      ensures Became(N.Exec(c, old(View()), N.AskPath(dest, tag)), old(outbound))
    {
      hide Encode, Broadcast, PathRequestDest;
      var requester := if transportEnabled then IdentityHash(c, identity) else [];
      EnqueueAll(Header1(PLAIN, DATA, PathRequestDest(c), NO_CONTEXT, dest + requester + tag), None);
    }

    method SendSingleMessage(dest: Bytes, plaintext: Bytes, ephemeral: Bytes, iv: Bytes, receipt: bool, now: nat)
      returns (r: Sending)
      modifies this, paths
      ensures Became(N.Exec(c, old(View()), N.SendTo(dest, plaintext, ephemeral, iv, receipt, now)), old(outbound))
      ensures r == SendMessage(c, old(View()).t, dest, plaintext, ephemeral, iv, receipt, now).1
    {
      hide Encode, Encrypt, FullPacketHash, Pruned;
      var removed := paths.Prune(now);
      var entry := paths.Get(dest);
      if entry.None? {
        return Refused;
      }
      var path := entry.value;
      var packet := Header1(SINGLE, DATA, dest, NO_CONTEXT, Encrypt(c, path.public, plaintext, ephemeral, iv));
      if path.hops > 1 {
        if path.nextHop.None? {
          return Refused;
        }
        packet := packet.(headerType := HEADER_2, propagation := TRANSPORT, transportId := path.nextHop);
      }
      var packetHash := FullPacketHash(c, packet);
      Enqueue(path.iface, packet);
      if receipt {
        pendingReceipts := pendingReceipts[packetHash := Receipt(path.public, now + RECEIPT_TIMEOUT)];
      }
      r := Sent(packetHash);
    }

    // -------------------------------------------------------------- transport handlers

    method HandleAnnouncePacket(p: Packet, iface: nat, now: nat) returns (events: seq<Event>)
      modifies this, paths
      ensures Became(N.OnTransport(old(View()), HandleAnnounce(c, old(View()).t, p, iface, now)), old(outbound))
      ensures events == HandleAnnounce(c, old(View()).t, p, iface, now).events
    {
      hide Encode, Announces.Parse, Announces.Verified, Announces.Timestamp, Broadcast, Prefers, FindLocal;
      if FindLocal(locals, p.dest).Some? {
        return [];
      }
      var parsed := Announces.Parse(p.data, p.contextFlag);
      if parsed.Err? {
        return [];
      }
      var announce := parsed.value;
      if !Announces.Verified(c, announce, p.dest) {
        return [Failed(BadSignature)];
      }
      var seenKey := (p.dest, announce.random);
      if seenKey in seenAnnounces {
        return [];
      }
      seenAnnounces := seenAnnounces[seenKey := now + PATH_EXPIRY];
      var accepted := paths.Update(p.dest, EntryOf(p, announce, iface, now), now);
      if !accepted {
        return [];
      }
      cachedAnnounces := cachedAnnounces[p.dest := p];
      if transportEnabled && p.hops < MAX_HOPS && p.context != PATH_RESPONSE {
        var forwarded := p.(headerType := HEADER_2, propagation := TRANSPORT,
                            transportId := Some(IdentityHash(c, identity)));
        EnqueueAll(forwarded, Some(iface));
      }
      events := [Announced(p.dest, p.hops)];
    }

    method HandlePathRequestPacket(p: Packet, iface: nat, now: nat)
      modifies this
      ensures Became(N.OnTransport(old(View()), HandlePathRequest(c, old(View()).t, p, iface, now)), old(outbound))
    {
      hide Encode, FindLocal;
      if |p.data| < 32 {
        return;
      }
      var target := p.data[..16];
      var requester: Option<Bytes> := None;
      var tagOffset := 16;
      if |p.data| >= 48 {
        requester := Some(p.data[16..32]);
        tagOffset := 32;
      }
      var tag := p.data[tagOffset..tagOffset + 16];
      if (target, tag) in seenPathRequests {
        return;
      }
      seenPathRequests := seenPathRequests[(target, tag) := now + REQUEST_TTL];
      var isLocal := FindLocal(locals, target).Some?;
      var path := paths.Get(target);
      if !isLocal && (!transportEnabled || path.None?) {
        return;
      }
      if requester.Some? && path.Some? && path.value.nextHop == requester {
        return;
      }
      if target !in cachedAnnounces {
        return;
      }
      var response := cachedAnnounces[target].(context := PATH_RESPONSE);
      if isLocal {
        response := response.(headerType := HEADER_1, propagation := BROADCAST, hops := 0, transportId := None);
      } else if path.Some? {
        response := response.(headerType := HEADER_2, propagation := TRANSPORT, hops := path.value.hops,
                              transportId := Some(IdentityHash(c, identity)));
      }
      Enqueue(iface, response);
    }

    method HandleDataPacket(p: Packet, iface: nat, now: nat) returns (events: seq<Event>)
      modifies this, paths
      ensures Became(N.OnTransport(old(View()), HandleData(c, old(View()).t, p, iface, now)), old(outbound))
      ensures events == HandleData(c, old(View()).t, p, iface, now).events
    {
      hide Encode, FindLocal, Decrypt, Forward, IdentityHash, Deliver;
      if p.headerType == HEADER_2 && (!transportEnabled || p.transportId != Some(IdentityHash(c, identity))) {
        return [];
      }
      var local := FindLocal(locals, p.dest);
      if local.None? {
        if p.headerType == HEADER_2 && p.hops < MAX_HOPS {
          ForwardPacket(p, iface, now);
        }
        return [];
      }
      var result: Result<Bytes>;
      var prove := false;
      match local.value.kind {
        case Single(asks) =>
          if p.destType != SINGLE { return []; }
          result := Decrypt(c, identity, p.data);
          prove := asks;
        case Group(key) =>
          if p.destType != GROUP { return []; }
          result := c.open(key, p.data);
        case Plain =>
          if p.destType != PLAIN { return []; }
          result := Ok(p.data);
      }
      events := HandOver(p, iface, result, prove);
    }

    method ForwardPacket(p: Packet, iface: nat, now: nat)
      modifies this`outbound, paths
      ensures Became(N.OnTransport(old(View()), Forward(old(View()).t, p, iface, now)), old(outbound))
      ensures Forward(old(View()).t, p, iface, now).events == []
    {
      hide Encode, Pruned;
      var removed := paths.Prune(now);
      var path := paths.Get(p.dest);
      if path.None? || path.value.iface == iface {
        return;
      }
      var forwarded := p;
      if path.value.hops > 1 {
        if path.value.nextHop.None? {
          return;
        }
        forwarded := forwarded.(transportId := path.value.nextHop);
      } else {
        forwarded := forwarded.(headerType := HEADER_1, propagation := BROADCAST, transportId := None);
      }
      Enqueue(path.value.iface, forwarded);
    }

    method HandOver(p: Packet, iface: nat, result: Result<Bytes>, prove: bool) returns (events: seq<Event>)
      modifies this`outbound
      ensures Became(N.OnTransport(old(View()), Deliver(c, old(View()).t, p, iface, result, prove)), old(outbound))
      ensures events == Deliver(c, old(View()).t, p, iface, result, prove).events
    {
      hide Encode, FullPacketHash, ProofPacket;
      match result {
        case Ok(plaintext) =>
          if prove {
            var packetHash := FullPacketHash(c, p);
            Enqueue(iface, ProofPacket(c, identity, packetHash));
          }
          events := [Message(p.dest, plaintext)];
        case Err(error) =>
          events := [Failed(error)];
      }
    }

    method HandleDeliveryProof(p: Packet) returns (events: seq<Event>)
      modifies this
      ensures Became(N.OnTransport(old(View()), HandleProof(c, old(View()).t, p)), old(outbound))
      ensures events == HandleProof(c, old(View()).t, p).events
    {
      hide ProofValid, Truncate;
      if |p.data| < 32 {
        return [];
      }
      var packetHash := p.data[..32];
      if Truncate(packetHash) != p.dest {
        return [];
      }
      if packetHash !in pendingReceipts {
        return [];
      }
      if !ProofValid(c, pendingReceipts[packetHash].public, p.data) {
        return [];
      }
      pendingReceipts := pendingReceipts - {packetHash};
      events := [Delivered(packetHash)];
    }

    // -------------------------------------------------------------- links

    method EstablishLink(dest: Bytes, xprv: Bytes, eprv: Bytes, now: nat) returns (r: Option<Bytes>)
      modifies this, paths, links
      ensures Became(N.Exec(c, old(View()), N.EstablishLink(dest, xprv, eprv, now)), old(outbound))
      ensures r.Some? ==> r.value == Links.LinkIdOf(c, Links.RequestPacket(c, dest, xprv, eprv)) && r.value in View().links
      ensures r.Some? <==>
                && dest in old(View()).t.paths && old(View()).t.paths[dest].expiresAt > now
                && (old(View()).t.paths[dest].hops > 1 ==> old(View()).t.paths[dest].nextHop.Some?)
    {
      hide Encode, Links.LinkIdOf;
      var removed := paths.Prune(now);
      var path := paths.Get(dest);
      if path.None? {
        return None;
      }
      var packet := Links.RequestPacket(c, dest, xprv, eprv);
      var linkId := Links.LinkIdOf(c, packet);
      if path.value.hops > 1 {
        if path.value.nextHop.None? {
          return None;
        }
        packet := packet.(headerType := HEADER_2, propagation := TRANSPORT, transportId := path.value.nextHop);
      }
      links.Insert(linkId, Links.LinkEntry(Links.Pending, true, xprv, eprv, None, Some(path.value.public), None,
                                           path.value.iface, now, now));
      Enqueue(path.value.iface, packet);
      r := Some(linkId);
    }

    method LinkSend(link: Bytes, plaintext: Bytes, iv: Bytes, now: nat) returns (sent: bool)
      modifies this, links
      ensures Became(N.Exec(c, old(View()), N.LinkSend(link, plaintext, iv, now)), old(outbound))
      ensures sent <==> Links.Usable(old(View()).links, link)
    {
      hide Encode, Links.LinkPacket;
      var entry := links.Get(link);
      if entry.None? || entry.value.status != Links.Active || entry.value.key.None? {
        return false;
      }
      Enqueue(entry.value.iface, Links.LinkPacket(link, NO_CONTEXT, c.seal(entry.value.key.value, plaintext, iv)));
      links.Insert(link, entry.value.(lastActivity := now));
      sent := true;
    }

    method CloseLink(link: Bytes)
      modifies this, links
      ensures Became(N.Silent(N.Close(old(View()), link)), old(outbound))
    {
      var entry := links.Get(link);
      if entry.Some? && entry.value.status != Links.Closed {
        links.Insert(link, entry.value.(status := Links.Closed));
        pendingEvents := pendingEvents + [LinkClosed(link)];
      }
    }

    method Tick(now: nat) returns (events: seq<Event>)
      modifies this, links
      ensures Became(N.Tick(old(View()), now), old(outbound))
      ensures events == N.Tick(old(View()), now).events
    {
      hide Links.Tick;
      pendingReceipts := map h | h in pendingReceipts && pendingReceipts[h].expiresAt > now :: pendingReceipts[h];
      var keepalives, closed := links.Sweep(now);
      outbound := outbound + keepalives;
      pendingEvents := pendingEvents + closed;
      events := pendingEvents;
      pendingEvents := [];
    }

    method HandleLinkRequest(p: Packet, iface: nat, now: nat, rng: Links.Entropy) returns (events: seq<Event>)
      modifies this, links
      ensures Became(N.OnLinks(old(View()), Links.HandleRequest(c, old(View()).t, old(View()).links, p, iface, now, rng)),
                     old(outbound))
      ensures events == Links.HandleRequest(c, old(View()).t, old(View()).links, p, iface, now, rng).events
    {
      hide Encode, Links.LinkIdOf, Links.LinkProof, Links.LinkKey, FindSingle, IdentityHash, Links.ParseRequest;
      if p.headerType == HEADER_2 && (!transportEnabled || p.transportId != Some(IdentityHash(c, identity))) {
        return [];
      }
      if FindSingle(locals, p.dest).None? {
        return [];
      }
      var peer := Links.ParseRequest(p.data);
      if peer.None? {
        return [];
      }
      var linkId := Links.LinkIdOf(c, p);
      var known := links.Get(linkId);
      if known.Some? {
        return [];
      }
      var key := Links.LinkKey(c, rng.first, peer.value, linkId);
      var proof := Links.LinkProof(c, identity, linkId, rng.first);
      links.Insert(linkId, Links.LinkEntry(Links.Active, false, rng.first, rng.second, peer, None, Some(key), iface,
                                           now, now));
      Enqueue(iface, Header1(LINK, PROOF, linkId, LRPROOF, proof));
      events := [LinkEstablished(linkId)];
    }

    method HandleLinkProof(p: Packet, now: nat, rng: Option<Links.Entropy>) returns (events: seq<Event>)
      modifies this, links
      ensures Became(N.OnLinks(old(View()), Links.HandleLinkProof(c, old(View()).links, p, now, rng)), old(outbound))
      ensures events == Links.HandleLinkProof(c, old(View()).links, p, now, rng).events
    {
      hide Encode, Links.VerifyLinkProof, Links.LinkKey, Links.LinkPacket;
      var linkId := p.dest;
      var entry := links.Get(linkId);
      if entry.None? || entry.value.status != Links.Pending || !entry.value.initiator || entry.value.public.None? {
        return [];
      }
      var link := entry.value;
      var peer := Links.VerifyLinkProof(c, link.public.value, linkId, p.data);
      if peer.Err? {
        return [Failed(peer.error)];
      }
      var key := Links.LinkKey(c, link.xprv, peer.value, linkId);
      links.Insert(linkId, link.(status := Links.Active, peer := Some(peer.value), key := Some(key),
                                 lastActivity := now));
      if rng.Some? {
        var encrypted := c.seal(key, Links.RTT_REPORT, rng.value.first);
        Enqueue(link.iface, Links.LinkPacket(linkId, LRRTT, encrypted));
      }
      events := [LinkEstablished(linkId)];
    }

    method HandleLinkData(p: Packet, iface: nat, now: nat) returns (events: seq<Event>)
      modifies this, links
      ensures Became(N.HandleLink(c, old(View()), p, iface, now), old(outbound))
      ensures events == N.HandleLink(c, old(View()), p, iface, now).events
    {
      hide Encode, Links.LinkPacket, N.Tick, N.Close;
      var linkId := p.dest;
      var entry := links.Get(linkId);
      if entry.None? || entry.value.status != Links.Active || entry.value.iface != iface || entry.value.key.None? {
        return [];
      }
      var link := entry.value;
      if p.context == RESOURCE {
        return [];
      }
      if p.context == KEEPALIVE {
        if p.data == [0xFF] {
          Enqueue(iface, Links.LinkPacket(linkId, KEEPALIVE, [0xFE]));
        }
        links.Insert(linkId, link.(lastActivity := now));
        return [];
      }
      var plaintext := c.open(link.key.value, p.data);
      if plaintext.Err? {
        return [Failed(plaintext.error)];
      }
      links.Insert(linkId, link.(lastActivity := now));
      if p.context == LINKCLOSE {
        if plaintext.value == linkId {
          CloseLink(linkId);
          events := Tick(now);
        } else {
          events := [];
        }
      } else if p.context == NO_CONTEXT {
        events := [LinkData(linkId, plaintext.value)];
      } else {
        events := [];
      }
    }

    // -------------------------------------------------------------- inbound

    /** Everything after the hop limit and the dedup. */
    method DispatchPacket(p: Packet, iface: nat, now: nat, rng: Option<Links.Entropy>) returns (events: seq<Event>)
      modifies this, paths, links
      ensures Became(N.Dispatch(c, old(View()), p, iface, now, rng), old(outbound))
      ensures events == N.Dispatch(c, old(View()), p, iface, now, rng).events
    {
      hide HandleAnnounce, HandleData, HandlePathRequest, HandleProof, Links.HandleRequest, Links.HandleLinkProof,
           N.HandleLink, PathRequestDest;
      if p.packetType == DATA && p.destType == PLAIN && p.dest == PathRequestDest(c) {
        HandlePathRequestPacket(p, iface, now);
        PathRequestsAreSilent(c, old(View()).t, p, iface, now);
        return [];
      }
      if p.packetType == LINKREQUEST {
        if rng.None? {
          return [];
        }
        events := HandleLinkRequest(p, iface, now, rng.value);
        return;
      }
      if p.packetType == PROOF && p.destType == LINK && p.context == LRPROOF {
        events := HandleLinkProof(p, now, rng);
        return;
      }
      if p.packetType == PROOF && p.destType == SINGLE {
        events := HandleDeliveryProof(p);
        return;
      }
      if p.packetType == DATA && p.destType == LINK {
        events := HandleLinkData(p, iface, now);
        return;
      }
      if p.packetType == ANNOUNCE {
        events := HandleAnnouncePacket(p, iface, now);
      } else if p.packetType == DATA {
        events := HandleDataPacket(p, iface, now);
      } else {
        events := [];
      }
    }

    method HandleInbound(bytes: Bytes, iface: nat, now: nat, rng: Option<Links.Entropy>) returns (events: seq<Event>)
      modifies this, paths, links
      ensures Became(N.Exec(c, old(View()), N.Inbound(bytes, iface, now, rng)), old(outbound))
      ensures events == N.Exec(c, old(View()), N.Inbound(bytes, iface, now, rng)).events
    {
      hide N.Dispatch, Decode, PacketHash, MaybePrune;
      var decoded := Decode(bytes);
      if decoded.Err? {
        return [];
      }
      var packet := decoded.value;
      if packet.hops >= MAX_HOPS {
        return [];
      }
      MaybePruneMaps(now);
      var packetHash := PacketHash(c, packet);
      if packetHash in seenPackets {
        return [];
      }
      seenPackets := seenPackets[packetHash := now + PACKET_TTL];
      packet := packet.(hops := packet.hops + 1);
      events := DispatchPacket(packet, iface, now, rng);
    }

    method PollOutbound() returns (r: Option<(nat, Bytes)>)
      modifies this`outbound
      ensures View() == old(View())
      ensures if old(outbound) == [] then r.None? && outbound == []
              else r == Some(old(outbound)[0]) && outbound == old(outbound)[1..]
    {
      if outbound == [] {
        return None;
      }
      r := Some(outbound[0]);
      outbound := outbound[1..];
    }
  }

  lemma BroadcastNothing(skip: Option<nat>, bytes: Bytes)
    ensures Broadcast([], skip, bytes) == []
  {
  }

  lemma SetProvingLater(locals: seq<Local>, dest: Bytes, prove: bool)
    requires locals != [] && locals[0].dest != dest
    ensures N.SetProving(locals, dest, prove) == [locals[0]] + N.SetProving(locals[1..], dest, prove)
    ensures FindLocal(locals, dest) == FindLocal(locals[1..], dest)
  {
  }

  /** Destinations with other addresses are passed over. */
  lemma {:induction false} SetProvingSkips(locals: seq<Local>, dest: Bytes, prove: bool, i: nat)
    requires i <= |locals| && (forall j | 0 <= j < i :: locals[j].dest != dest)
    ensures N.SetProving(locals, dest, prove) == locals[..i] + N.SetProving(locals[i..], dest, prove)
    ensures FindLocal(locals, dest) == FindLocal(locals[i..], dest)
    decreases i
  {
    hide N.SetProving, FindLocal;
    if i == 0 {
      assert locals[..0] == [] && locals[0..] == locals;
    } else {
      SetProvingSkips(locals, dest, prove, i - 1);
      var tail := locals[i - 1..];
      assert tail[0] == locals[i - 1] && tail[1..] == locals[i..];
      SetProvingLater(tail, dest, prove);
      assert locals[..i] == locals[..i - 1] + [locals[i - 1]];
    }
  }

  /** Switching proofs on or off touches the first destination with that address, if it is SINGLE. */
  lemma SetProvingAt(locals: seq<Local>, dest: Bytes, prove: bool, i: nat)
    requires i <= |locals| && (forall j | 0 <= j < i :: locals[j].dest != dest)
    requires i < |locals| ==> locals[i].dest == dest
    ensures N.SetProving(locals, dest, prove)
            == if i < |locals| && locals[i].kind.Single? then locals[i := locals[i].(kind := Single(prove))] else locals
    ensures FindLocal(locals, dest) == if i < |locals| then Some(locals[i]) else None
  {
    hide N.SetProving, FindLocal;
    SetProvingSkips(locals, dest, prove, i);
    SetProvingHere(locals[i..], dest, prove);
    assert locals[..i] + locals[i..] == locals;
    if i < |locals| {
      var on := locals[i].(kind := Single(prove));
      assert locals[..i] + locals[i..][0 := on] == locals[i := on];
    }
  }

  lemma SetProvingHere(locals: seq<Local>, dest: Bytes, prove: bool)
    requires locals == [] || locals[0].dest == dest
    ensures N.SetProving(locals, dest, prove)
            == if locals != [] && locals[0].kind.Single? then locals[0 := locals[0].(kind := Single(prove))] else locals
    ensures FindLocal(locals, dest) == if locals != [] then Some(locals[0]) else None
  {
    if locals != [] {
      assert locals == [locals[0]] + locals[1..];
    }
  }

  lemma PathRequestsAreSilent(c: Suite, t: Transport, p: Packet, iface: nat, now: nat)
    ensures HandlePathRequest(c, t, p, iface, now).events == []
  {
    hide Encode, IdentityHash;
  }
}
