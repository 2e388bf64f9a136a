/** The transport half of the node (reticulum-node/src/node.rs): announces, path requests,
    forwarding, local delivery and receipts, as functions on the node's transport state. */
module Transports {
  import opened Base
  import opened Crypto
  import opened Packets
  import opened PathTables
  import Announces

  const PATH_EXPIRY: nat := 604_800
  const MAX_HOPS: nat := 128
  const PACKET_TTL: nat := 60
  const REQUEST_TTL: nat := 15
  const RECEIPT_TIMEOUT: nat := 30

  datatype Event =
    | Announced(dest: Bytes, hops: nat)
    | Message(dest: Bytes, plaintext: Bytes)
    | Delivered(packetHash: Bytes)
    | LinkEstablished(link: Bytes)
    | LinkData(link: Bytes, plaintext: Bytes)
    | LinkClosed(link: Bytes)
    | Failed(error: CoreError)

  /** What a call leaves behind: the new state, the packets queued and the events returned. */
  datatype Effect<+S> = Effect(st: S, out: seq<(nat, Bytes)>, events: seq<Event>)

  datatype Kind = Single(prove: bool) | Group(key: Bytes) | Plain

  datatype Local = Local(name: Bytes, dest: Bytes, kind: Kind)

  datatype Receipt = Receipt(public: Bytes, expiresAt: nat)

  datatype Transport = Transport(
    identity: Identity,
    locals: seq<Local>,
    paths: Table,
    interfaces: seq<nat>,
    enabled: bool,
    seenAnnounces: map<(Bytes, Bytes), nat>,
    seenRequests: map<(Bytes, Bytes), nat>,
    seenPackets: map<Bytes, nat>,
    cached: map<Bytes, Packet>,
    receipts: map<Bytes, Receipt>,
    lastPrune: nat)

  function NewTransport(id: Identity): Transport {
    Transport(id, [], map[], [], false, map[], map[], map[], map[], map[], 0)
  }

  function Quiet(t: Transport): Effect<Transport> {
    Effect(t, [], [])
  }

  /** The first local destination with this address. */
  function FindLocal(locals: seq<Local>, dest: Bytes): (r: Option<Local>)
    ensures r.Some? ==> r.value in locals && r.value.dest == dest
    ensures r.None? <==> forall l | l in locals :: l.dest != dest
  {
    if locals == [] then None
    else if locals[0].dest == dest then Some(locals[0])
    else FindLocal(locals[1..], dest)
  }

  predicate IsLocal(t: Transport, dest: Bytes) {
    FindLocal(t.locals, dest).Some?
  }

  /** The first SINGLE local destination with this address. */
  function FindSingle(locals: seq<Local>, dest: Bytes): (r: Option<Local>)
    ensures r.Some? ==> r.value in locals && r.value.dest == dest && r.value.kind.Single?
  {
    if locals == [] then None
    else if locals[0].dest == dest && locals[0].kind.Single? then Some(locals[0])
    else FindSingle(locals[1..], dest)
  }

  /** One copy per interface, except the one to skip. */
  function Broadcast(interfaces: seq<nat>, skip: Option<nat>, bytes: Bytes): (r: seq<(nat, Bytes)>)
    ensures forall o | o in r :: o.0 in interfaces && Some(o.0) != skip && o.1 == bytes
  {
    if interfaces == [] then [] else
      (if Some(interfaces[0]) == skip then [] else [(interfaces[0], bytes)])
      + Broadcast(interfaces[1..], skip, bytes)
  }

  function Expire<K>(m: map<K, nat>, now: nat): map<K, nat> {
    map k | k in m && m[k] > now :: m[k]
  }

  /** The dedup maps are swept at most once a second. */
  function MaybePrune(t: Transport, now: nat): Transport {
    if t.lastPrune != 0 && now < t.lastPrune + 1 then t
    else t.(lastPrune := now,
            seenPackets := Expire(t.seenPackets, now),
            seenAnnounces := Expire(t.seenAnnounces, now),
            seenRequests := Expire(t.seenRequests, now))
  }

  // ------------------------------------------------------------------ announces

  function EntryOf(p: Packet, a: Announces.Announce, iface: nat, now: nat): PathEntry
    requires |a.random| == 10
  {
    PathEntry(iface, if p.headerType == HEADER_2 then p.transportId else None, p.hops,
              now + PATH_EXPIRY, Announces.Timestamp(a.random), a.public, a.ratchet)
  }

  /** The copy a relay passes on: its own transport id, everything else unchanged. */
  function Relayed(c: Suite, t: Transport, p: Packet): Packet {
    p.(headerType := HEADER_2, propagation := TRANSPORT, transportId := Some(IdentityHash(c, t.identity)))
  }

  function HandleAnnounce(c: Suite, t: Transport, p: Packet, iface: nat, now: nat): Effect<Transport> {
    if IsLocal(t, p.dest) then Quiet(t)
    else
      var parsed := Announces.Parse(p.data, p.contextFlag);
      if parsed.Err? then Quiet(t)
      else if !Announces.Verified(c, parsed.value, p.dest) then Effect(t, [], [Failed(BadSignature)])
      else if (p.dest, parsed.value.random) in t.seenAnnounces then Quiet(t)
      else
        var a := parsed.value;
        var seen := t.(seenAnnounces := t.seenAnnounces[(p.dest, a.random) := now + PATH_EXPIRY]);
        var entry := EntryOf(p, a, iface, now);
        if !Prefers(t.paths, p.dest, entry, now) then Quiet(seen)
        else
          var forward := t.enabled && p.hops < MAX_HOPS && p.context != PATH_RESPONSE;
          Effect(seen.(paths := t.paths[p.dest := entry], cached := t.cached[p.dest := p]),
                 if forward then Broadcast(t.interfaces, Some(iface), Encode(Relayed(c, t, p))) else [],
                 [Announced(p.dest, p.hops)])
  }

  function SendAnnounce(c: Suite, t: Transport, dest: Bytes, appData: Bytes, random: Bytes, iface: nat):
    Effect<Transport>
  {
    var local := FindSingle(t.locals, dest);
    if local.None? then Quiet(t)
    else
      var a := Announces.Build(c, t.identity, dest, local.value.name, random, appData);
      var p := Header1(SINGLE, ANNOUNCE, dest, NO_CONTEXT, Announces.Payload(a));
      Effect(t.(cached := t.cached[dest := p]), [(iface, Encode(p))], [])
  }

  // ------------------------------------------------------------------ path requests

  /** The ASCII bytes of "rnstransport.path.request". */
  const PATH_REQUEST_NAME: Bytes :=
    [114, 110, 115, 116, 114, 97, 110, 115, 112, 111, 114, 116, 46, 112, 97, 116, 104, 46, 114, 101, 113, 117,
     101, 115, 116]

  function PathRequestDest(c: Suite): Bytes {
    var name := c.sha(PATH_REQUEST_NAME);
    Truncate(c.sha(if |name| >= 10 then name[..10] else name))
  }

  function RequestPath(c: Suite, t: Transport, dest: Bytes, tag: Bytes): Effect<Transport> {
    var requester := if t.enabled then IdentityHash(c, t.identity) else [];
    var p := Header1(PLAIN, DATA, PathRequestDest(c), NO_CONTEXT, dest + requester + tag);
    Effect(t, Broadcast(t.interfaces, None, Encode(p)), [])
  }

  /** The cached announce, readdressed: from its host with no hops, from a relay with the relay's. */
  function PathResponse(c: Suite, t: Transport, target: Bytes, p: Packet): Packet {
    var r := p.(context := PATH_RESPONSE);
    if IsLocal(t, target) then
      r.(headerType := HEADER_1, propagation := BROADCAST, hops := 0, transportId := None)
    else if target in t.paths then
      Relayed(c, t, r.(hops := t.paths[target].hops))
    else r
  }

  function HandlePathRequest(c: Suite, t: Transport, p: Packet, iface: nat, now: nat): Effect<Transport> {
    if |p.data| < 32 then Quiet(t)
    else
      var target := p.data[..16];
      var named := |p.data| >= 48;
      var tag := if named then p.data[32..48] else p.data[16..32];
      if (target, tag) in t.seenRequests then Quiet(t)
      else
        var t' := t.(seenRequests := t.seenRequests[(target, tag) := now + REQUEST_TTL]);
        var local := IsLocal(t, target);
        if !local && (!t.enabled || target !in t.paths) then Quiet(t')
        else if named && target in t.paths && t.paths[target].nextHop == Some(p.data[16..32]) then Quiet(t')
        else if target !in t.cached then Quiet(t')
        else Effect(t', [(iface, Encode(PathResponse(c, t, target, t.cached[target])))], [])
  }

  // ------------------------------------------------------------------ data

  /** Straight to the host, without a relay. */
  function Direct(p: Packet): Packet {
    p.(headerType := HEADER_1, propagation := BROADCAST, transportId := None)
  }

  /** A relay passes a HEADER_2 packet to its own next hop, never back where it came from. */
  function Forward(t: Transport, p: Packet, iface: nat, now: nat): Effect<Transport> {
    var t' := t.(paths := Pruned(t.paths, now));
    if p.dest !in t'.paths || t'.paths[p.dest].iface == iface then Quiet(t')
    else
      var path := t'.paths[p.dest];
      if path.hops <= 1 then Effect(t', [(path.iface, Encode(Direct(p)))], [])
      else if path.nextHop.Some? then Effect(t', [(path.iface, Encode(p.(transportId := path.nextHop)))], [])
      else Quiet(t')
  }

  function BuildProof(c: Suite, id: Identity, packetHash: Bytes): Bytes {
    packetHash + c.sign(id.sig, packetHash)
  }

  function ProofPacket(c: Suite, id: Identity, packetHash: Bytes): Packet {
    Header1(SINGLE, PROOF, Truncate(packetHash), NO_CONTEXT, BuildProof(c, id, packetHash))
  }

  /** Hand decrypted data to the application, with a proof of receipt when asked for. */
  function Deliver(c: Suite, t: Transport, p: Packet, iface: nat, result: Result<Bytes>, prove: bool):
    Effect<Transport>
  {
    match result
    case Err(e) => Effect(t, [], [Failed(e)])
    case Ok(plaintext) =>
      Effect(t, if prove then [(iface, Encode(ProofPacket(c, t.identity, FullPacketHash(c, p))))] else [],
             [Message(p.dest, plaintext)])
  }

  function HandleData(c: Suite, t: Transport, p: Packet, iface: nat, now: nat): Effect<Transport> {
    if p.headerType == HEADER_2 && (!t.enabled || p.transportId != Some(IdentityHash(c, t.identity))) then
      Quiet(t)
    else
      var local := FindLocal(t.locals, p.dest);
      if local.None? then
        if p.headerType == HEADER_2 && p.hops < MAX_HOPS then Forward(t, p, iface, now) else Quiet(t)
      else
        match (local.value.kind)
        case Single(prove) =>
          if p.destType == SINGLE then Deliver(c, t, p, iface, Decrypt(c, t.identity, p.data), prove) else Quiet(t)
        case Group(key) =>
          if p.destType == GROUP then Deliver(c, t, p, iface, c.open(key, p.data), false) else Quiet(t)
        case Plain =>
          if p.destType == PLAIN then Deliver(c, t, p, iface, Ok(p.data), false) else Quiet(t)
  }

  // ------------------------------------------------------------------ messages and receipts

  datatype Sending = Refused | Sent(packetHash: Bytes)

  /** The packet `send_message` puts on a learned path. */
  function MessagePacket(c: Suite, dest: Bytes, path: PathEntry, plaintext: Bytes, ephemeral: Bytes, iv: Bytes):
    Packet
  {
    var p := Header1(SINGLE, DATA, dest, NO_CONTEXT, Encrypt(c, path.public, plaintext, ephemeral, iv));
    if path.hops <= 1 then p
    else p.(headerType := HEADER_2, propagation := TRANSPORT, transportId := path.nextHop)
  }

  function SendMessage(c: Suite, t: Transport, dest: Bytes, plaintext: Bytes, ephemeral: Bytes, iv: Bytes,
                       receipt: bool, now: nat): (Effect<Transport>, Sending)
  {
    var t' := t.(paths := Pruned(t.paths, now));
    if dest !in t'.paths || (t'.paths[dest].hops > 1 && t'.paths[dest].nextHop.None?) then (Quiet(t'), Refused)
    else
      var path := t'.paths[dest];
      var p := MessagePacket(c, dest, path, plaintext, ephemeral, iv);
      var hash := FullPacketHash(c, p);
      (Effect(if receipt then
                t'.(receipts := t'.receipts[hash := Receipt(path.public, now + RECEIPT_TIMEOUT)])
              else t',
              [(path.iface, Encode(p))], []),
       Sent(hash))
  }

  predicate ProofValid(c: Suite, public: Bytes, proof: Bytes) {
    |proof| == 96 && c.verify(SigHalf(public), proof[..32], proof[32..])
  }

  function HandleProof(c: Suite, t: Transport, p: Packet): Effect<Transport> {
    if |p.data| < 32 || Truncate(p.data[..32]) != p.dest then Quiet(t)
    else
      var hash := p.data[..32];
      if hash !in t.receipts || !ProofValid(c, t.receipts[hash].public, p.data) then Quiet(t)
      else Effect(t.(receipts := t.receipts - {hash}), [], [Delivered(hash)])
  }

  function ExpireReceipts(t: Transport, now: nat): Transport {
    t.(receipts := map h | h in t.receipts && t.receipts[h].expiresAt > now :: t.receipts[h])
  }
}
