/** Delivery receipts: a proof by the destination settles a receipt, and settles it once. */
module Receipts {
  import opened Base
  import opened Crypto
  import opened Packets
  import opened PathTables
  import opened Transports
  import opened Links
  import opened Nodes
  import LoopFreedom
  import LinkEvents
  import Announces
  import Order

  /** A proof packet made by the destination settles the pending receipt of the packet it proves. */
  lemma ProofSettles(c: Suite, t: Transport, id: Identity, hash: Bytes)
    requires Lawful(c) && |hash| == 32
    requires hash in t.receipts && t.receipts[hash].public == Public(c, id)
    ensures HandleProof(c, t, ProofPacket(c, id, hash))
            == Effect(t.(receipts := t.receipts - {hash}), [], [Delivered(hash)])
  {
    PublicHalves(c, id);
    var proof := BuildProof(c, id, hash);
    assert proof[..32] == hash && proof[32..] == c.sign(id.sig, hash);
    hide Public, SigHalf;
  }

  /** The same, from the bytes on the wire: whatever interface they arrive on, if they are not a
      duplicate, the application hears that the packet was delivered. */
  lemma ProofDelivered(c: Suite, n: Node, id: Identity, hash: Bytes, iface: nat, now: nat, rng: Option<Entropy>)
    requires Lawful(c) && |hash| == 32
    requires hash in n.t.receipts && n.t.receipts[hash].public == Public(c, id)
    requires !Seen(c, n.t, ProofPacket(c, id, hash), now)
    ensures var e := Exec(c, n, Inbound(Encode(ProofPacket(c, id, hash)), iface, now, rng));
            e.events == [Delivered(hash)] && e.st.t.receipts == n.t.receipts - {hash}
  {
    var p := ProofPacket(c, id, hash);
    DecodeEncode(p);
    InboundCases(c, n, Encode(p), iface, now, rng);
    NotedReceipts(c, n.t, p, now);
    ProofRoute(c, p);
    var q := p.(hops := 1);
    assert HandleProof(c, Noted(c, n.t, p, now), q) == HandleProof(c, Noted(c, n.t, p, now), p);
    ProofSettles(c, Noted(c, n.t, p, now), id, hash);
    hide HandleProof, Noted, Seen, Decode, Encode, HandleInbound, BuildProof, Route, Public;
  }

  lemma ProofRoute(c: Suite, p: Packet)
    requires p.packetType == PROOF && p.destType == SINGLE && p.hops < 255
    ensures Route(c, p.(hops := p.hops + 1)) == ToDeliveryProof
  {
  }

  lemma NotedReceipts(c: Suite, t: Transport, p: Packet, now: nat)
    ensures Noted(c, t, p, now).receipts == t.receipts && MaybePrune(t, now).receipts == t.receipts
  {
    hide Expire, PacketHash;
  }

  // ------------------------------------------------------------------ at most once

  function One(b: bool): nat {
    if b then 1 else 0
  }

  function CountDelivered(events: seq<Event>, hash: Bytes): nat {
    if events == [] then 0 else
      CountDelivered(events[..|events| - 1], hash) + One(events[|events| - 1] == Delivered(hash))
  }

  lemma {:induction false} CountConcat(a: seq<Event>, b: seq<Event>, hash: Bytes)
    ensures CountDelivered(a + b, hash) == CountDelivered(a, hash) + CountDelivered(b, hash)
    decreases |b|
  {
    if b == [] {
      assert a + b == a;
    } else {
      CountConcat(a, b[..|b| - 1], hash);
      assert (a + b)[..|a + b| - 1] == a + b[..|b| - 1];
    }
  }

  lemma {:induction false} CountNone(events: seq<Event>, hash: Bytes)
    requires forall e | e in events :: !e.Delivered?
    ensures CountDelivered(events, hash) == 0
    decreases |events|
  {
    if events != [] {
      var n := |events| - 1;
      assert events == events[..n] + [events[n]] && events[n] in events;
      CountNone(events[..n], hash);
    }
  }

  /** Does this call ask for a receipt and return this hash? */
  predicate Asks(c: Suite, n: Node, call: Call, hash: Bytes) {
    && call.SendTo? && call.receipt
    && SendMessage(c, n.t, call.dest, call.plaintext, call.ephemeral, call.iv, true, call.now).1 == Sent(hash)
  }

  /** How often the application was handed this hash for a receipt. */
  function CountAsked(c: Suite, n: Node, calls: seq<Call>, hash: Bytes): nat {
    if calls == [] then 0 else
      var k := |calls| - 1;
      CountAsked(c, n, calls[..k], hash) + One(Asks(c, Run(c, n, calls[..k]), calls[k], hash))
  }

  ghost predicate QueueQuiet(n: Node) {
    forall e | e in n.pending :: e.LinkClosed?
  }

  /** One call delivers a hash at most as often as it had it pending or asked for it anew. */
  ghost predicate Balanced(c: Suite, n: Node, call: Call, hash: Bytes) {
    var e := Exec(c, n, call);
    && QueueQuiet(e.st)
    && CountDelivered(e.events, hash) + One(hash in e.st.t.receipts)
       <= One(hash in n.t.receipts) + One(Asks(c, n, call, hash))
  }

  lemma {:induction false} ClosingsQuiet(r: Registry, ids: seq<Bytes>, now: nat)
    requires forall id | id in ids :: id in r
    ensures forall e | e in Links.Closings(r, ids, now) :: e.LinkClosed?
  {
    if ids != [] {
      ClosingsQuiet(r, ids[1..], now);
    }
  }

  lemma TickBalanced(n: Node, now: nat, hash: Bytes)
    requires QueueQuiet(n)
    ensures var e := Nodes.Tick(n, now);
            && QueueQuiet(e.st) && CountDelivered(e.events, hash) == 0
            && (hash in e.st.t.receipts ==> hash in n.t.receipts)
  {
    ClosingsQuiet(n.links, Order.Sorted(n.links.Keys), now);
    CountNone(Nodes.Tick(n, now).events, hash);
    hide Order.Sorted, Links.Closings, Keepalives, CountDelivered;
  }
  lemma LinkDataQuiet(c: Suite, r: Registry, p: Packet, iface: nat, now: nat)
    ensures forall e | e in HandleLinkData(c, r, p, iface, now).events :: !e.Delivered?
  {
    hide Encode;
  }

  lemma LinkBalanced(c: Suite, n: Node, p: Packet, iface: nat, now: nat, hash: Bytes)
    requires QueueQuiet(n)
    ensures var e := HandleLink(c, n, p, iface, now);
            && QueueQuiet(e.st) && CountDelivered(e.events, hash) == 0
            && (hash in e.st.t.receipts ==> hash in n.t.receipts)
  {
    LinkDataQuiet(c, n.links, p, iface, now);
    CountNone(HandleLinkData(c, n.links, p, iface, now).events, hash);
    if AsksClose(c, n.links, p, iface) {
      var mid := OnLinks(n, HandleLinkData(c, n.links, p, iface, now)).st;
      TickBalanced(Nodes.Close(mid, p.dest), now, hash);
    }
    hide HandleLinkData, Nodes.Tick, AsksClose, CountDelivered;
  }

  lemma OneDelivered(hash: Bytes, other: Bytes)
    ensures CountDelivered([Delivered(other)], hash) == One(other == hash)
  {
    assert [Delivered(other)][..0] == [];
    assert CountDelivered([], hash) == 0;
  }

  lemma ProofBalanced(c: Suite, t: Transport, p: Packet, hash: Bytes)
    ensures var e := HandleProof(c, t, p);
            CountDelivered(e.events, hash) + One(hash in e.st.receipts) <= One(hash in t.receipts)
  {
    if HandleProof(c, t, p).events != [] {
      OneDelivered(hash, p.data[..32]);
    }
    hide ProofValid;
  }

  /** Announces, path requests and data settle no receipt. */
  lemma AnnounceBalanced(c: Suite, t: Transport, p: Packet, iface: nat, now: nat, hash: Bytes)
    ensures var e := HandleAnnounce(c, t, p, iface, now);
            CountDelivered(e.events, hash) == 0 && e.st.receipts == t.receipts
  {
    LinkEvents.AnnounceUnrelated(c, t, p, iface, now);
    hide Encode, Relayed, Broadcast, Announces.Parse, Announces.Verified, EntryOf, FindLocal, CountDelivered;
    CountNone(HandleAnnounce(c, t, p, iface, now).events, hash);
  }

  lemma DataBalanced(c: Suite, t: Transport, p: Packet, iface: nat, now: nat, hash: Bytes)
    ensures var e := HandleData(c, t, p, iface, now);
            CountDelivered(e.events, hash) == 0 && e.st.receipts == t.receipts
  {
    hide Encode, FindLocal, IdentityHash, Decrypt, ProofPacket, CountDelivered;
    CountNone(HandleData(c, t, p, iface, now).events, hash);
  }

  lemma RequestBalanced(c: Suite, t: Transport, p: Packet, iface: nat, now: nat)
    ensures var e := HandlePathRequest(c, t, p, iface, now); e.events == [] && e.st.receipts == t.receipts
  {
    hide Encode, FindLocal, PathResponse;
  }

  lemma HandshakeQuiet(c: Suite, n: Node, p: Packet, iface: nat, now: nat, rng: Option<Entropy>)
    ensures forall e | e in HandleLinkProof(c, n.links, p, now, rng).events :: !e.Delivered?
    ensures rng.Some? ==> forall e | e in HandleRequest(c, n.t, n.links, p, iface, now, rng.value).events :: !e.Delivered?
  {
    hide Encode, LinkIdOf, LinkProof, VerifyLinkProof, LinkKey, FindSingle, IdentityHash, LinkPacket, Header1;
  }

  lemma DispatchBalanced(c: Suite, n: Node, p: Packet, iface: nat, now: nat, rng: Option<Entropy>, hash: Bytes)
    requires QueueQuiet(n)
    ensures var e := Dispatch(c, n, p, iface, now, rng);
            && QueueQuiet(e.st)
            && CountDelivered(e.events, hash) + One(hash in e.st.t.receipts) <= One(hash in n.t.receipts)
  {
    CountNone([], hash);
    hide Route, HandleAnnounce, HandleData, HandleLink, HandleRequest, HandleLinkProof, HandlePathRequest, HandleProof;
    hide CountDelivered;
    match Route(c, p) {
      case ToLinkRequest =>
        HandshakeQuiet(c, n, p, iface, now, rng);
        if rng.Some? { CountNone(HandleRequest(c, n.t, n.links, p, iface, now, rng.value).events, hash); }
      case ToLinkProof =>
        HandshakeQuiet(c, n, p, iface, now, rng);
        CountNone(HandleLinkProof(c, n.links, p, now, rng).events, hash);
      case ToLink => LinkBalanced(c, n, p, iface, now, hash);
      case ToAnnounce => AnnounceBalanced(c, n.t, p, iface, now, hash);
      case ToData => DataBalanced(c, n.t, p, iface, now, hash);
      case ToPathRequest => RequestBalanced(c, n.t, p, iface, now);
      case ToDeliveryProof => ProofBalanced(c, n.t, p, hash);
      case ToNobody =>
    }
  }

  lemma InboundBalanced(c: Suite, n: Node, call: Call, hash: Bytes)
    requires QueueQuiet(n) && call.Inbound?
    ensures Balanced(c, n, call, hash)
  {
    InboundCases(c, n, call.bytes, call.iface, call.now, call.rng);
    CountNone([], hash);
    if Decode(call.bytes).Ok? {
      NotedReceipts(c, n.t, Decode(call.bytes).value, call.now);
    }
    NotedReceipts(c, n.t, Header1(0, 0, [], 0, []), call.now);
    if Admitted(c, n, call.bytes, call.now) {
      DispatchBalanced(c, AdmittedNode(c, n, call.bytes, call.now), AdmittedPacket(c, n, call.bytes, call.now),
                       call.iface, call.now, call.rng, hash);
    }
    hide HandleInbound, Dispatch, Noted, MaybePrune, Seen, Decode, CountDelivered;
  }

  lemma SendBalanced(c: Suite, n: Node, call: Call, hash: Bytes)
    requires QueueQuiet(n) && call.SendTo?
    ensures Balanced(c, n, call, hash)
  {
    CountNone([], hash);
    hide Encode, MessagePacket, FullPacketHash, Pruned, CountDelivered;
  }

  lemma OthersBalanced(c: Suite, n: Node, call: Call, hash: Bytes)
    requires QueueQuiet(n) && !call.Inbound? && !call.SendTo?
    ensures Balanced(c, n, call, hash)
  {
    CountNone([], hash);
    if call.TickAt? {
      TickBalanced(n, call.now, hash);
    }
    hide Encode, FindSingle, Nodes.Tick, Establish, Links.Send, SetProving, CountDelivered, LinkIdOf;
  }

  /** Over every run, a hash is reported delivered at most as often as a receipt for it was asked. */
  lemma {:induction false} DeliveredAtMostOnce(c: Suite, n: Node, calls: seq<Call>, hash: Bytes)
    requires QueueQuiet(n) && hash !in n.t.receipts
    ensures QueueQuiet(Run(c, n, calls))
    ensures CountDelivered(Events(c, n, calls), hash) + One(hash in Run(c, n, calls).t.receipts)
            <= CountAsked(c, n, calls, hash)
    decreases |calls|
  {
    if calls != [] {
      var k := |calls| - 1;
      DeliveredAtMostOnce(c, n, calls[..k], hash);
      var before := Run(c, n, calls[..k]);
      if calls[k].Inbound? {
        InboundBalanced(c, before, calls[k], hash);
      } else if calls[k].SendTo? {
        SendBalanced(c, before, calls[k], hash);
      } else {
        OthersBalanced(c, before, calls[k], hash);
      }
      CountConcat(Events(c, n, calls[..k]), Exec(c, before, calls[k]).events, hash);
    }
    hide Exec, Asks;
  }
}
