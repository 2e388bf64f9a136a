/** Two real nodes with an idle link behave exactly like the link's clocks. */
module KeepaliveNodes {
  import opened Base
  import opened Crypto
  import opened Packets
  import opened PathTables
  import opened Transports
  import opened Links
  import opened Nodes
  import opened Dedup
  import opened Keepalive
  import Order
  import Handshake

  /** Initiator `a` and responder `b`, with the send times of the keepalives and answers in flight. */
  datatype Pair = Pair(a: Node, b: Node, toB: seq<nat>, toA: seq<nat>, tickA: nat, tickB: nat, now: nat)

  function Ping(link: Bytes): Bytes {
    Encode(LinkPacket(link, KEEPALIVE, [0xFF]))
  }

  function Pong(link: Bytes): Bytes {
    Encode(LinkPacket(link, KEEPALIVE, [0xFE]))
  }

  function PingHash(c: Suite, link: Bytes): Bytes {
    PacketHash(c, LinkPacket(link, KEEPALIVE, [0xFF]))
  }

  function PongHash(c: Suite, link: Bytes): Bytes {
    PacketHash(c, LinkPacket(link, KEEPALIVE, [0xFE]))
  }

  /** The link as one end holds it: active or closed, keyed. */
  predicate Held(n: Node, link: Bytes, initiator: bool) {
    link in n.links && n.links[link].status != Pending && n.links[link].key.Some? && n.links[link].initiator == initiator
  }

  ghost predicate PairOk(s: Pair, link: Bytes) {
    && |link| == 16 && Held(s.a, link, true) && Held(s.b, link, false)
    && Swept(s.a.t) && s.a.t.lastPrune <= s.now && Swept(s.b.t) && s.b.t.lastPrune <= s.now
  }

  function SeenUntil(n: Node, hash: Bytes): nat {
    if hash in n.t.seenPackets then n.t.seenPackets[hash] else 0
  }

  /** The clocks of the pair. */
  function ClocksOf(c: Suite, s: Pair, link: Bytes): Clocks
    requires link in s.a.links && link in s.b.links
  {
    var la, lb := s.a.links[link], s.b.links[link];
    Clocks(la.status == Active, lb.status == Active, la.lastActivity, lb.lastActivity, la.lastKeepalive,
           SeenUntil(s.a, PongHash(c, link)), SeenUntil(s.b, PingHash(c, link)),
           s.toB, s.toA, s.tickA, s.tickB, s.now)
  }

  /** One step of the two nodes; what each queues for the link goes onto the wire. */
  function NodesNext(c: Suite, s: Pair, link: Bytes, step: Step): Pair
    requires link in s.a.links && link in s.b.links
    requires step.ArriveB? ==> step.i < |s.toB|
    requires step.ArriveA? ==> step.i < |s.toA|
  {
    var ia, ib := s.a.links[link].iface, s.b.links[link].iface;
    match step
    case TickA(t) =>
      var e := Exec(c, s.a, TickAt(t));
      s.(a := e.st, toB := if (ia, Ping(link)) in e.out then s.toB + [t] else s.toB, tickA := t, now := t)
    case TickB(t) =>
      var e := Exec(c, s.b, TickAt(t));
      s.(b := e.st, tickB := t, now := t)
    case ArriveB(i, t) =>
      var e := Exec(c, s.b, Inbound(Ping(link), ib, t, None));
      s.(b := e.st, toB := Removed(s.toB, i), toA := if (ib, Pong(link)) in e.out then s.toA + [t] else s.toA, now := t)
    case ArriveA(i, t) =>
      var e := Exec(c, s.a, Inbound(Pong(link), ia, t, None));
      s.(a := e.st, toA := Removed(s.toA, i), now := t)
  }

  // ------------------------------------------------------------------ ticks

  lemma PingNamesLink(a: Bytes, b: Bytes)
    requires Ping(a) == Ping(b)
    ensures a == b
  {
    var ha, hb := Flags(LinkPacket(a, KEEPALIVE, [0xFF])), Flags(LinkPacket(b, KEEPALIVE, [0xFF]));
    hide Flags;
    assert Ping(a) == [ha, 0] + a + [KEEPALIVE, 0xFF];
    assert Ping(b) == [hb, 0] + b + [KEEPALIVE, 0xFF];
    assert a == Ping(a)[2..|Ping(a)| - 2];
    assert b == Ping(b)[2..|Ping(b)| - 2];
  }

  /** A tick sends the link's keepalive exactly when it is due. */
  lemma {:induction false} PingSent(r: Registry, ids: seq<Bytes>, now: nat, link: Bytes, iface: nat)
    requires forall id | id in ids :: id in r
    ensures (iface, Ping(link)) in Links.Keepalives(r, ids, now)
            <==> link in ids && KeepaliveDue(r[link], now) && r[link].iface == iface
  {
    if ids != [] {
      PingSent(r, ids[1..], now, link, iface);
      if Ping(ids[0]) == Ping(link) {
        PingNamesLink(ids[0], link);
      }
      assert Links.Keepalives(r, ids, now)
             == (if KeepaliveDue(r[ids[0]], now) then [(r[ids[0]].iface, Ping(ids[0]))] else [])
                + Links.Keepalives(r, ids[1..], now);
      hide Encode, KeepaliveDue;
    }
  }

  lemma TickSeen(c: Suite, n: Node, now: nat, link: Bytes)
    requires link in n.links
    ensures var e := Exec(c, n, TickAt(now));
            && link in e.st.links && e.st.links[link] == TickEntry(n.links[link], now)
            && e.st.t.seenPackets == n.t.seenPackets && e.st.t.lastPrune == n.t.lastPrune
            && ((n.links[link].iface, Ping(link)) in e.out <==> KeepaliveDue(n.links[link], now))
  {
    PingSent(n.links, Order.Sorted(n.links.Keys), now, link, n.links[link].iface);
    hide Links.Keepalives, Links.Closings, Order.Sorted, Ping, KeepaliveDue, TickEntry;
  }

  // ------------------------------------------------------------------ arrivals

  lemma KeepaliveWire(c: Suite, link: Bytes, data: Bytes)
    requires |link| == 16
    ensures Decode(Encode(LinkPacket(link, KEEPALIVE, data))) == Ok(LinkPacket(link, KEEPALIVE, data))
    ensures Route(c, LinkPacket(link, KEEPALIVE, data).(hops := 1)) == ToLink
  {
    Handshake.DataWire(c, link, KEEPALIVE, data);
  }

  /** A keepalive packet at a node holding the link: it refreshes an active link, and a ping is answered. */
  lemma KeepaliveHandled(c: Suite, n: Node, link: Bytes, data: Bytes, now: nat)
    requires link in n.links && n.links[link].status != Pending && n.links[link].key.Some?
    ensures var e := HandleLink(c, n, LinkPacket(link, KEEPALIVE, data).(hops := 1), n.links[link].iface, now);
            var l := n.links[link];
            && e.st.t == n.t && link in e.st.links
            && e.st.links[link] == (if l.status == Active then l.(lastActivity := now) else l)
            && e.out == if l.status == Active && data == [0xFF] then [(l.iface, Pong(link))] else []
  {
    hide Encode;
  }

  lemma KeepaliveInbound(c: Suite, n: Node, link: Bytes, data: Bytes, now: nat)
    requires |link| == 16 && link in n.links && n.links[link].status != Pending && n.links[link].key.Some?
    requires Swept(n.t) && n.t.lastPrune <= now
    ensures var p := LinkPacket(link, KEEPALIVE, data);
            var hash := PacketHash(c, p);
            var l := n.links[link];
            var heard := SeenUntil(n, hash) <= now;
            var e := Exec(c, n, Inbound(Encode(p), l.iface, now, None));
            && Swept(e.st.t) && e.st.t.lastPrune <= now && link in e.st.links
            && e.st.links[link] == (if heard && l.status == Active then l.(lastActivity := now) else l)
            && e.out == (if heard && l.status == Active && data == [0xFF] then [(l.iface, Pong(link))] else [])
            && SeenUntil(e.st, hash) == if heard then now + PACKET_TTL else SeenUntil(n, hash)
  {
    var p := LinkPacket(link, KEEPALIVE, data);
    var call := Inbound(Encode(p), n.links[link].iface, now, None);
    KeepaliveWire(c, link, data);
    assert Candidate(call) && HashOf(c, call) == PacketHash(c, p);
    ProcessedIff(c, n, call);
    InboundRemembers(c, n, call, PacketHash(c, p));
    InboundCases(c, n, Encode(p), n.links[link].iface, now, None);
    hide HandleInbound, HandleLink, Noted, Seen, Decode, Encode, Route, MaybePrune, PacketHash, Swept, Pong;
    if Admitted(c, n, Encode(p), now) {
      KeepaliveHandled(c, AdmittedNode(c, n, Encode(p), now), link, data, now);
    }
  }

  // ------------------------------------------------------------------ the simulation

  lemma TicksSimulate(c: Suite, s: Pair, link: Bytes, step: Step)
    requires PairOk(s, link) && step.at >= s.now && (step.TickA? || step.TickB?)
    ensures var s' := NodesNext(c, s, link, step);
            PairOk(s', link) && ClocksOf(c, s', link) == Next(ClocksOf(c, s, link), step)
  {
    TickSeen(c, if step.TickA? then s.a else s.b, step.at, link);
    hide Exec, Ping, Pong, PingHash, PongHash, Swept;
  }

  lemma ArrivalsSimulate(c: Suite, s: Pair, link: Bytes, step: Step)
    requires PairOk(s, link) && step.at >= s.now && (step.ArriveA? || step.ArriveB?)
    requires step.ArriveB? ==> step.i < |s.toB|
    requires step.ArriveA? ==> step.i < |s.toA|
    ensures var s' := NodesNext(c, s, link, step);
            PairOk(s', link) && ClocksOf(c, s', link) == Next(ClocksOf(c, s, link), step)
  {
    if step.ArriveB? {
      KeepaliveInbound(c, s.b, link, [0xFF], step.at);
    } else {
      KeepaliveInbound(c, s.a, link, [0xFE], step.at);
    }
    hide Exec, Encode, Swept, PacketHash, Removed, LinkPacket;
  }

  ghost predicate NodesRun(c: Suite, s: Pair, link: Bytes, steps: seq<Step>, T: nat, R: nat)
    requires link in s.a.links && link in s.b.links
    decreases |steps|
  {
    steps == []
    || (&& Timely(ClocksOf(c, s, link), steps[0], T, R)
        && var s' := NodesNext(c, s, link, steps[0]);
        && link in s'.a.links && link in s'.b.links
        && NodesRun(c, s', link, steps[1..], T, R))
  }

  ghost function NodesEnd(c: Suite, s: Pair, link: Bytes, steps: seq<Step>, T: nat, R: nat): Pair
    requires link in s.a.links && link in s.b.links && NodesRun(c, s, link, steps, T, R)
    decreases |steps|
  {
    if steps == [] then s else NodesEnd(c, NodesNext(c, s, link, steps[0]), link, steps[1..], T, R)
  }

  lemma StepSimulates(c: Suite, s: Pair, link: Bytes, step: Step, T: nat, R: nat)
    requires PairOk(s, link) && Timely(ClocksOf(c, s, link), step, T, R)
    ensures var s' := NodesNext(c, s, link, step);
            PairOk(s', link) && ClocksOf(c, s', link) == Next(ClocksOf(c, s, link), step)
  {
    if step.TickA? || step.TickB? {
      TicksSimulate(c, s, link, step);
    } else {
      ArrivalsSimulate(c, s, link, step);
    }
    hide NodesNext, PairOk, ClocksOf, Next;
  }

  /** The nodes can run exactly as the clocks can, step for step, and end with the clocks' end. */
  lemma {:induction false} NodesAreClocks(c: Suite, s: Pair, link: Bytes, steps: seq<Step>, T: nat, R: nat)
    requires PairOk(s, link)
    ensures NodesRun(c, s, link, steps, T, R) <==> RunOf(ClocksOf(c, s, link), steps, T, R)
    ensures NodesRun(c, s, link, steps, T, R) ==>
              var e := NodesEnd(c, s, link, steps, T, R);
              PairOk(e, link) && ClocksOf(c, e, link) == End(ClocksOf(c, s, link), steps, T, R)
    decreases |steps|
  {
    if steps != [] && Timely(ClocksOf(c, s, link), steps[0], T, R) {
      StepSimulates(c, s, link, steps[0], T, R);
      NodesAreClocks(c, NodesNext(c, s, link, steps[0]), link, steps[1..], T, R);
    }
    hide NodesNext, ClocksOf, Next, Timely, Swept;
  }

  /** Two nodes with an idle, just established link: within the tolerable bounds neither side's tick
      ever closes it. */
  lemma IdleLinkSurvives(c: Suite, s: Pair, link: Bytes, steps: seq<Step>, T: nat, R: nat)
    requires PairOk(s, link) && Established(ClocksOf(c, s, link), T)
    requires Tolerable(T, R) && NodesRun(c, s, link, steps, T, R)
    ensures var e := NodesEnd(c, s, link, steps, T, R);
            link in e.a.links && e.a.links[link].status == Active && link in e.b.links && e.b.links[link].status == Active
  {
    NodesAreClocks(c, s, link, steps, T, R);
    Survives(ClocksOf(c, s, link), steps, T, R);
    hide NodesRun, NodesEnd, RunOf, End;
  }

  /** Outside them, any two nodes that establish a link within one second have a timed run in which
      the initiator's tick closes it. */
  lemma IdleLinkCanDie(c: Suite, s: Pair, link: Bytes, b: nat, T: nat, R: nat) returns (steps: seq<Step>)
    requires PairOk(s, link) && ClocksOf(c, s, link) == StartAt(b) && T >= 1 && !Tolerable(T, R)
    ensures NodesRun(c, s, link, steps, T, R)
    ensures var e := NodesEnd(c, s, link, steps, T, R); link in e.a.links && e.a.links[link].status == Closed
  {
    var e: Clocks;
    if T + 2 * R > 360 {
      e := TooSlow(b, T, R);
    } else {
      e := TooLate(b, T, R);
    }
    steps :| RunOf(StartAt(b), steps, T, R) && End(StartAt(b), steps, T, R) == e;
    NodesAreClocks(c, s, link, steps, T, R);
    hide NodesRun, NodesEnd, RunOf, End;
  }
}
