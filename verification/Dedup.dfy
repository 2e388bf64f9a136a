/** Packet dedup: the lazily swept map refines "not processed within the last 60 seconds". */
module Dedup {
  import opened Base
  import opened Crypto
  import opened Packets
  import opened PathTables
  import opened Transports
  import opened Links
  import opened Nodes
  import Announces

  /** The sweep never ran ahead of the clock and left nothing expired behind. */
  ghost predicate Swept(t: Transport) {
    t.lastPrune != 0 ==> forall h | h in t.seenPackets :: t.seenPackets[h] > t.lastPrune
  }

  /** Sweeping at most once a second answers exactly like sweeping before every packet. */
  lemma LazySweepIsExact(t: Transport, now: nat, hash: Bytes)
    requires Swept(t) && t.lastPrune <= now
    ensures hash in MaybePrune(t, now).seenPackets <==> hash in Expire(t.seenPackets, now)
    ensures hash in MaybePrune(t, now).seenPackets ==> MaybePrune(t, now).seenPackets[hash] == t.seenPackets[hash]
    ensures Swept(MaybePrune(t, now)) && MaybePrune(t, now).lastPrune <= now
  {
  }

  lemma NotedSwept(c: Suite, t: Transport, p: Packet, now: nat)
    requires Swept(t) && t.lastPrune <= now
    ensures Swept(Noted(c, t, p, now)) && Noted(c, t, p, now).lastPrune <= now
  {
    hide PacketHash;
  }

  // ------------------------------------------------------------------ handlers leave the dedup state alone

  ghost predicate SameDedup(a: Transport, b: Transport) {
    b.seenPackets == a.seenPackets && b.lastPrune == a.lastPrune
  }

  lemma AnnounceKeeps(c: Suite, t: Transport, p: Packet, iface: nat, now: nat)
    ensures SameDedup(t, HandleAnnounce(c, t, p, iface, now).st)
  {
    hide Encode, Relayed, Broadcast, Announces.Parse, Announces.Verified, EntryOf, FindLocal, Prefers;
  }

  lemma DataKeeps(c: Suite, t: Transport, p: Packet, iface: nat, now: nat)
    ensures SameDedup(t, HandleData(c, t, p, iface, now).st)
  {
    hide Encode, FindLocal, IdentityHash, Decrypt, ProofPacket, Pruned;
  }

  lemma RequestKeeps(c: Suite, t: Transport, p: Packet, iface: nat, now: nat)
    ensures SameDedup(t, HandlePathRequest(c, t, p, iface, now).st)
  {
    hide Encode, FindLocal, PathResponse;
  }

  lemma LinkKeeps(c: Suite, n: Node, p: Packet, iface: nat, now: nat)
    ensures SameDedup(n.t, HandleLink(c, n, p, iface, now).st.t)
  {
    hide HandleLinkData, AsksClose, Links.Tick, Links.Close;
  }

  lemma DispatchKeeps(c: Suite, n: Node, p: Packet, iface: nat, now: nat, rng: Option<Entropy>)
    ensures SameDedup(n.t, Dispatch(c, n, p, iface, now, rng).st.t)
  {
    AnnounceKeeps(c, n.t, p, iface, now);
    DataKeeps(c, n.t, p, iface, now);
    RequestKeeps(c, n.t, p, iface, now);
    LinkKeeps(c, n, p, iface, now);
    hide Route, HandleAnnounce, HandleData, HandleLink, HandleRequest, HandleLinkProof, HandlePathRequest, ProofValid;
  }

  lemma CallKeeps(c: Suite, n: Node, call: Call)
    requires !call.Inbound?
    ensures SameDedup(n.t, Exec(c, n, call).st.t)
  {
    hide Encode, FindSingle, Establish, Links.Send, Links.Tick, SetProving, LinkIdOf, MessagePacket, HandleInbound, Pruned;
  }

  // ------------------------------------------------------------------ one packet

  /** An inbound byte string that decodes within the hop limit. */
  predicate Candidate(call: Call) {
    call.Inbound? && Decode(call.bytes).Ok? && Decode(call.bytes).value.hops < MAX_HOPS
  }

  function HashOf(c: Suite, call: Call): Bytes
    requires Candidate(call)
  {
    PacketHash(c, Decode(call.bytes).value)
  }

  /** A candidate is processed iff its hash is not remembered as unexpired. */
  lemma ProcessedIff(c: Suite, n: Node, call: Call)
    requires Candidate(call) && Swept(n.t) && n.t.lastPrune <= call.now
    ensures Admitted(c, n, call.bytes, call.now)
            <==> !(HashOf(c, call) in n.t.seenPackets && n.t.seenPackets[HashOf(c, call)] > call.now)
  {
    LazySweepIsExact(n.t, call.now, HashOf(c, call));
    hide MaybePrune, Decode, PacketHash;
  }

  /** What is remembered after an inbound packet: the unexpired rest, and a processed packet for 60
      seconds.  A duplicate does not extend its window. */
  lemma InboundRemembers(c: Suite, n: Node, call: Call, hash: Bytes)
    requires call.Inbound? && Swept(n.t) && n.t.lastPrune <= call.now
    ensures var t := Exec(c, n, call).st.t;
            && Swept(t) && t.lastPrune <= call.now
            && (hash in t.seenPackets && t.seenPackets[hash] > call.now <==>
                  || (hash in n.t.seenPackets && n.t.seenPackets[hash] > call.now)
                  || (Candidate(call) && Admitted(c, n, call.bytes, call.now) && HashOf(c, call) == hash))
            && (hash in t.seenPackets ==>
                  t.seenPackets[hash] ==
                  if Candidate(call) && Admitted(c, n, call.bytes, call.now) && HashOf(c, call) == hash then
                    call.now + PACKET_TTL
                  else if hash in n.t.seenPackets then n.t.seenPackets[hash] else 0)
  {
    InboundCases(c, n, call.bytes, call.iface, call.now, call.rng);
    LazySweepIsExact(n.t, call.now, hash);
    if Admitted(c, n, call.bytes, call.now) {
      NotedSwept(c, n.t, Decode(call.bytes).value, call.now);
      DispatchKeeps(c, AdmittedNode(c, n, call.bytes, call.now), AdmittedPacket(c, n, call.bytes, call.now), call.iface,
                    call.now, call.rng);
    }
    hide HandleInbound, Dispatch, MaybePrune, Seen, Decode, PacketHash;
  }

  // ------------------------------------------------------------------ over a run

  /** The clock never runs backwards. */
  ghost predicate ClockForward(calls: seq<Call>) {
    forall i, j | 0 <= i < j < |calls| && calls[i].Inbound? && calls[j].Inbound? :: calls[i].now <= calls[j].now
  }

  /** The `i`-th call is a packet that was processed. */
  ghost predicate Processed(c: Suite, n: Node, calls: seq<Call>, i: nat)
    requires i < |calls|
  {
    Candidate(calls[i]) && Admitted(c, Run(c, n, calls[..i]), calls[i].bytes, calls[i].now)
  }

  /** The `i`-th call processed a packet with this hash less than 60 seconds before `now`. */
  ghost predicate RecentAt(c: Suite, n: Node, calls: seq<Call>, i: nat, hash: Bytes, now: nat)
    requires i < |calls|
  {
    Processed(c, n, calls, i) && HashOf(c, calls[i]) == hash && now < calls[i].now + PACKET_TTL
  }

  ghost predicate Recent(c: Suite, n: Node, calls: seq<Call>, hash: Bytes, now: nat) {
    exists i :: 0 <= i < |calls| && RecentAt(c, n, calls, i, hash, now)
  }

  ghost predicate NotAfter(calls: seq<Call>, now: nat) {
    forall i | 0 <= i < |calls| && calls[i].Inbound? :: calls[i].now <= now
  }

  /** The last call of a run adds itself to what is recent, if it was processed. */
  lemma RecentLast(c: Suite, n: Node, calls: seq<Call>, hash: Bytes, now: nat)
    requires calls != []
    ensures var k := |calls| - 1;
            Recent(c, n, calls, hash, now)
            <==> Recent(c, n, calls[..k], hash, now) || RecentAt(c, n, calls, k, hash, now)
  {
    var k := |calls| - 1;
    var front := calls[..k];
    forall i | 0 <= i < k
      ensures RecentAt(c, n, calls, i, hash, now) == RecentAt(c, n, front, i, hash, now)
    {
      assert front[..i] == calls[..i] && front[i] == calls[i];
    }
    hide RecentAt;
  }

  /** An earlier processed packet that is still recent now was recent at any time in between. */
  lemma RecentEarlier(c: Suite, n: Node, calls: seq<Call>, hash: Bytes, s: nat, now: nat)
    requires s <= now && Recent(c, n, calls, hash, now)
    ensures Recent(c, n, calls, hash, s)
  {
    var i :| 0 <= i < |calls| && RecentAt(c, n, calls, i, hash, now);
    assert RecentAt(c, n, calls, i, hash, s);
  }

  ghost predicate Live(t: Transport, hash: Bytes, now: nat) {
    hash in t.seenPackets && t.seenPackets[hash] > now
  }

  /** An inbound packet makes exactly its own hash live for 60 seconds, if it was processed. */
  lemma LiveAfter(c: Suite, n: Node, call: Call, hash: Bytes, now: nat)
    requires call.Inbound? && Swept(n.t) && n.t.lastPrune <= call.now <= now
    ensures var mine := Candidate(call) && Admitted(c, n, call.bytes, call.now) && HashOf(c, call) == hash;
            && (mine ==> !Live(n.t, hash, call.now))
            && (Live(Exec(c, n, call).st.t, hash, now) <==> if mine then now < call.now + PACKET_TTL else Live(n.t, hash, now))
  {
    InboundRemembers(c, n, call, hash);
    if Candidate(call) {
      ProcessedIff(c, n, call);
    }
    hide Exec, Decode, Seen, PacketHash;
  }

  /** The dedup map holds exactly the recently processed hashes. */
  lemma {:induction false} LiveIsRecent(c: Suite, n: Node, calls: seq<Call>, hash: Bytes, now: nat)
    requires n.t.seenPackets == map[] && n.t.lastPrune == 0 && ClockForward(calls) && NotAfter(calls, now)
    ensures var t := Run(c, n, calls).t;
            Swept(t) && t.lastPrune <= now && (Live(t, hash, now) <==> Recent(c, n, calls, hash, now))
    decreases |calls|
  {
    if calls != [] {
      var k := |calls| - 1;
      var front, call := calls[..k], calls[k];
      var before := Run(c, n, front);
      LiveIsRecent(c, n, front, hash, now);
      RecentLast(c, n, calls, hash, now);
      if call.Inbound? {
        LiveIsRecent(c, n, front, hash, call.now);
        InboundRemembers(c, before, call, hash);
        LiveAfter(c, before, call, hash, now);
        if Recent(c, n, front, hash, now) {
          RecentEarlier(c, n, front, hash, call.now, now);
        }
      } else {
        CallKeeps(c, before, call);
      }
    }
    hide Exec, Admitted, HashOf, Recent, Swept;
    if calls == [] { EmptySwept(n.t); }
  }

  lemma EmptySwept(t: Transport)
    requires t.seenPackets == map[]
    ensures Swept(t)
  {
  }

  /** For every non-decreasing clock: a decoded packet within the hop limit is processed at time `t`
      iff no packet of equal hash was processed at some `s` with s <= t < s + 60. */
  lemma DedupExact(c: Suite, n: Node, calls: seq<Call>, k: nat)
    requires n.t.seenPackets == map[] && n.t.lastPrune == 0 && ClockForward(calls)
    requires k < |calls| && Candidate(calls[k])
    ensures Processed(c, n, calls, k) <==> !Recent(c, n, calls[..k], HashOf(c, calls[k]), calls[k].now)
  {
    LiveIsRecent(c, n, calls[..k], HashOf(c, calls[k]), calls[k].now);
    ProcessedIff(c, Run(c, n, calls[..k]), calls[k]);
    hide Exec, Admitted, HashOf, Recent, Swept, Run;
  }
}
