/** The node with its transfers: what a packet, a tick or an offer does to links and to transfers together, and how the
    packets of a transfer travel on a link. */
module WholeNode {
  import opened Base
  import opened Crypto
  import opened Packets
  import opened Links
  import N = Nodes
  import R = ResourceState
  import T = ResourceTable
  import Laws = ResourceTableLaws
  import NodeClass
  import NodeResources
  import Transports
  import Collisions

  /** Node state and tables of transfers. */
  datatype Whole = Whole(n: N.Node, t: T.Table)

  datatype Event = OfNode(e: Transports.Event) | OfTransfer(v: T.Event)

  /** A call of the node, with the IVs drawn for what its transfers send, if it was given entropy; or an offer. */
  datatype Call =
    | OnNode(call: N.Call, ivs: Option<seq<Bytes>>)
    | SendResource(link: Bytes, data: Bytes, prefix: Bytes, iv: Bytes, random: Bytes, adIv: Bytes, at: nat)

  datatype Effect = Effect(st: Whole, out: seq<(nat, Bytes)>, events: seq<Event>)

  // ------------------------------------------------------------------ what a packet is to the transfers

  predicate IsResourceContext(context: Byte) {
    context in {T.RESOURCE_ADV, T.RESOURCE_REQ, T.RESOURCE_HMU, T.RESOURCE_ICL, T.RESOURCE_RCL}
  }

  /** A packet on an active link: a part as it is, other contexts decrypted; closing the link ticks the node. */
  function LinkInput(c: Suite, r: Registry, p: Packet, iface: nat, now: nat, entropy: bool): Option<T.Input> {
    if !Usable(r, p.dest) || r[p.dest].iface != iface then None
    else if p.context == RESOURCE then Some(T.PartIn(p.dest, r[p.dest].key.value, p.data, entropy, now))
    else if p.context == KEEPALIVE then None
    else
      var plaintext := c.open(r[p.dest].key.value, p.data);
      if plaintext.Err? then None
      else if p.context == LINKCLOSE then
        if plaintext.value == p.dest then Some(T.TickIn({}, false, now)) else None
      else if IsResourceContext(p.context) && entropy then Some(T.Context(p.dest, p.context, plaintext.value, now))
      else None
  }

  function PacketInput(c: Suite, n: N.Node, p: Packet, iface: nat, now: nat, entropy: bool): Option<T.Input> {
    match N.Route(c, p)
    case ToLink => LinkInput(c, n.links, p, iface, now, entropy)
    case ToNobody =>
      if p.packetType == PROOF && p.destType == LINK && p.context == T.RESOURCE_PRF then Some(T.ProofIn(p.dest, p.data))
      else None
    case _ => None
  }

  /** The links whose key is known. */
  function Keyed(r: Registry): set<Bytes> {
    set l | l in r && r[l].key.Some?
  }

  /** What a call of the node is to its transfers. */
  function InputOf(c: Suite, n: N.Node, call: N.Call, entropy: bool): Option<T.Input> {
    match call
    case Inbound(bytes, iface, now, rng) =>
      if N.Admitted(c, n, bytes, now) then PacketInput(c, n, N.AdmittedPacket(c, n, bytes, now), iface, now, rng.Some?)
      else None
    case TickAt(now) => Some(T.TickIn(Keyed(n.links), entropy, now))
    case _ => None
  }

  // ------------------------------------------------------------------ what the transfers send

  /** The packet of something sent on a link with this key. */
  function PacketOf(c: Suite, s: T.Sent, key: Bytes, iv: Bytes): Packet {
    match s
    case Sealed(link, context, plaintext) => LinkPacket(link, context, c.seal(key, plaintext, iv))
    case Plain(link, context, data) =>
      if context == T.RESOURCE_PRF then Header1(LINK, PROOF, link, context, data) else LinkPacket(link, context, data)
  }

  /** The packets queued, each on its link's interface; every sealed one takes the next IV. */
  function Wires(c: Suite, r: Registry, sent: seq<T.Sent>, ivs: seq<Bytes>): seq<(nat, Bytes)> {
    if sent == [] then []
    else if sent[0].link !in r || r[sent[0].link].key.None? then Wires(c, r, sent[1..], ivs)
    else
      var iv := if ivs == [] then [] else ivs[0];
      [(r[sent[0].link].iface, Encode(PacketOf(c, sent[0], r[sent[0].link].key.value, iv)))]
      + Wires(c, r, sent[1..], if sent[0].Sealed? && ivs != [] then ivs[1..] else ivs)
  }

  function IvsOf(call: N.Call, ivs: Option<seq<Bytes>>): seq<Bytes> {
    if call.Inbound? then (if call.rng.Some? then [call.rng.value.first] else [])
    else if ivs.Some? then ivs.value else []
  }

  function NodeEvents(events: seq<Transports.Event>): seq<Event> {
    seq(|events|, i requires 0 <= i < |events| => OfNode(events[i]))
  }

  function TransferEvents(events: seq<T.Event>): seq<Event> {
    seq(|events|, i requires 0 <= i < |events| => OfTransfer(events[i]))
  }

  function LinkKeyOf(r: Registry, link: Bytes): Option<Bytes> {
    if Usable(r, link) then r[link].key else None
  }

  function Exec(c: Suite, z: R.Codec, w: Whole, call: Call): (e: Effect)
    requires T.Fit(w.t)
    ensures T.Fit(e.st.t)
  {
    match call
    case OnNode(nc, ivs) =>
      var e := N.Exec(c, w.n, nc);
      var input := InputOf(c, w.n, nc, ivs.Some?);
      if input.None? then Effect(Whole(e.st, w.t), e.out, NodeEvents(e.events))
      else
        T.ReactFits(c, z, w.t, input.value);
        var r := T.React(c, z, w.t, input.value);
        Effect(Whole(e.st, r.table), e.out + Wires(c, e.st.links, r.sent, IvsOf(nc, ivs)),
               NodeEvents(e.events) + TransferEvents(r.events))
    case SendResource(link, data, prefix, iv, random, adIv, at) =>
      T.OfferFits(c, z, w.t, link, LinkKeyOf(w.n.links, link), data, prefix, iv, random, at);
      var r := T.OnOffer(c, z, w.t, link, LinkKeyOf(w.n.links, link), data, prefix, iv, random, at);
      Effect(Whole(w.n, r.table), Wires(c, w.n.links, r.sent, [adIv]), TransferEvents(r.events))
  }

  // ------------------------------------------------------------------ the object

  class FullNode {
    const node: NodeClass.Node
    const transfers: NodeResources.Transfers
    const z: R.Codec

    function View(): Whole
      reads this, node, node.paths, node.links, transfers
    {
      Whole(node.View(), transfers.View())
    }

    /** The node is in the state an effect leaves behind, and its packets are queued after `queued`. */
    ghost predicate Became(e: Effect, queued: seq<(nat, Bytes)>)
      reads this, node, node.paths, node.links, transfers
    {
      View() == e.st && node.outbound == queued + e.out
    }

    constructor (c: Suite, id: Identity, codec: R.Codec)
      ensures node.c == c && z == codec && fresh(node) && fresh(node.paths) && fresh(node.links) && fresh(transfers)
      ensures View() == Whole(N.Node(Transports.NewTransport(id), map[], []), T.Table(map[], map[]))
      ensures node.outbound == [] && T.Fit(View().t)
    {
      node := new NodeClass.Node(c, id);
      transfers := new NodeResources.Transfers();
      z := codec;
    }

    /** What the transfers make of an input. */
    method Tell(input: T.Input) returns (sent: seq<T.Sent>, events: seq<T.Event>)
      requires T.Fit(transfers.View()) && !input.OfferIn?
      modifies transfers
      ensures T.Effect(transfers.View(), sent, events) == T.React(node.c, z, old(transfers.View()), input)
    {
      hide T.OnContext, T.OnPartArrival, T.OnProofArrival, T.OnTick, T.Fit;
      match input {
        case Context(link, context, plaintext, now) =>
          sent, events := transfers.HandleContext(link, context, plaintext, now);
        case PartIn(link, secret, part, entropy, now) =>
          sent, events := transfers.HandlePart(node.c, z, link, secret, part, entropy, now);
        case ProofIn(link, data) =>
          events := transfers.HandleProof(link, data);
          sent := [];
        case TickIn(keyed, entropy, now) =>
          sent, events := transfers.RetryAll(keyed, entropy, now);
      }
    }

    /** A packet: the links first, then the transfers. */
    method HandleInbound(bytes: Bytes, iface: nat, now: nat, rng: Option<Entropy>) returns (events: seq<Event>)
      requires T.Fit(transfers.View())
      modifies node, node.paths, node.links, transfers
      ensures var e := Exec(node.c, z, old(View()), OnNode(N.Inbound(bytes, iface, now, rng), None));
              Became(e, old(node.outbound)) && events == e.events
    {
      hide N.Exec, InputOf, T.React, Wires, T.Fit;
      ghost var was, queued := View(), node.outbound;
      var input := InputOf(node.c, node.View(), N.Inbound(bytes, iface, now, rng), false);
      InboundIsNoOffer(node.c, node.View(), bytes, iface, now, rng);
      var heard := node.HandleInbound(bytes, iface, now, rng);
      events := NodeEvents(heard);
      if input.Some? {
        var sent, more := Tell(input.value);
        node.outbound := node.outbound
          + Wires(node.c, node.links.entries, sent, IvsOf(N.Inbound(bytes, iface, now, rng), None));
        events := events + TransferEvents(more);
      }
    }

    /** A tick, with or without entropy. */
    method Tick(now: nat, ivs: Option<seq<Bytes>>) returns (events: seq<Event>)
      requires T.Fit(transfers.View())
      modifies node, node.links, transfers
      ensures var e := Exec(node.c, z, old(View()), OnNode(N.TickAt(now), ivs));
              Became(e, old(node.outbound)) && events == e.events
    {
      hide N.Tick, T.React, Wires, T.Fit;
      var keyed := Keyed(node.links.entries);
      var swept := node.Tick(now);
      var sent, lost := Tell(T.TickIn(keyed, ivs.Some?, now));
      node.outbound := node.outbound + Wires(node.c, node.links.entries, sent, IvsOf(N.TickAt(now), ivs));
      events := NodeEvents(swept) + TransferEvents(lost);
    }

    /** A new transfer on a link: an error without an active link, without data, or with too much of it. */
    method Offer(link: Bytes, data: Bytes, prefix: Bytes, iv: Bytes, entropy: seq<Bytes>, adIv: Bytes, at: nat)
      returns (hash: Option<Bytes>)
      modifies node`outbound, transfers
      ensures hash.None? ==> View() == old(View()) && node.outbound == old(node.outbound)
      ensures !Usable(old(View()).n.links, link) ==> hash.None?
      ensures hash.Some? && T.Fit(old(View()).t) ==>
                exists random ::
                  && random in entropy
                  && Became(Exec(node.c, z, old(View()), SendResource(link, data, prefix, iv, random, adIv, at)),
                            old(node.outbound))
    {
      hide T.OnOffer, Wires, T.Fit, R.NewOutbound, R.Hashes, Collisions.DistinctWithin;
      var key := LinkKeyOf(node.links.entries, link);
      ghost var was := transfers.View();
      var sent: seq<T.Sent>;
      hash, sent := transfers.SendResource(node.c, z, link, key, data, prefix, iv, entropy, at);
      if hash.Some? {
        node.outbound := node.outbound + Wires(node.c, node.links.entries, sent, [adIv]);
      }
    }
  }

  lemma InboundIsNoOffer(c: Suite, n: N.Node, bytes: Bytes, iface: nat, now: nat, rng: Option<Entropy>)
    ensures var input := InputOf(c, n, N.Inbound(bytes, iface, now, rng), false); input.Some? ==> !input.value.OfferIn?
  {
    hide N.Admitted, N.AdmittedPacket, N.Route;
  }

  // ------------------------------------------------------------------ runs, half by half

  function Run(c: Suite, z: R.Codec, w: Whole, calls: seq<Call>): (r: Whole)
    requires T.Fit(w.t)
    ensures T.Fit(r.t)
  {
    if calls == [] then w else Exec(c, z, Run(c, z, w, calls[..|calls| - 1]), calls[|calls| - 1]).st
  }

  function Events(c: Suite, z: R.Codec, w: Whole, calls: seq<Call>): seq<Event>
    requires T.Fit(w.t)
  {
    if calls == [] then []
    else
      Events(c, z, w, calls[..|calls| - 1])
      + Exec(c, z, Run(c, z, w, calls[..|calls| - 1]), calls[|calls| - 1]).events
  }

  /** The calls as the node alone sees them. */
  function NodeCalls(calls: seq<Call>): seq<N.Call> {
    if calls == [] then []
    else
      NodeCalls(calls[..|calls| - 1])
      + (if calls[|calls| - 1].OnNode? then [calls[|calls| - 1].call] else [])
  }

  /** What one call is to the transfers. */
  function InputsOf(c: Suite, w: Whole, call: Call): seq<T.Input> {
    match call
    case OnNode(nc, ivs) => if InputOf(c, w.n, nc, ivs.Some?).Some? then [InputOf(c, w.n, nc, ivs.Some?).value] else []
    case SendResource(link, data, prefix, iv, random, _, at) =>
      [T.OfferIn(link, LinkKeyOf(w.n.links, link), data, prefix, iv, random, at)]
  }

  /** The calls as the transfers see them. */
  function Inputs(c: Suite, z: R.Codec, w: Whole, calls: seq<Call>): seq<T.Input>
    requires T.Fit(w.t)
  {
    if calls == [] then []
    else Inputs(c, z, w, calls[..|calls| - 1]) + InputsOf(c, Run(c, z, w, calls[..|calls| - 1]), calls[|calls| - 1])
  }

  function NodePart(events: seq<Event>): seq<Transports.Event> {
    if events == [] then []
    else NodePart(events[..|events| - 1]) + (if events[|events| - 1].OfNode? then [events[|events| - 1].e] else [])
  }

  function TransferPart(events: seq<Event>): seq<T.Event> {
    if events == [] then []
    else
      TransferPart(events[..|events| - 1]) + (if events[|events| - 1].OfTransfer? then [events[|events| - 1].v] else [])
  }

  lemma {:induction false} PartsConcat(a: seq<Event>, b: seq<Event>)
    ensures NodePart(a + b) == NodePart(a) + NodePart(b) && TransferPart(a + b) == TransferPart(a) + TransferPart(b)
    decreases |b|
  {
    if b == [] {
      assert a + b == a;
    } else {
      var front := b[..|b| - 1];
      PartsConcat(a, front);
      assert (a + b)[..|a + b| - 1] == a + front && (a + b)[|a + b| - 1] == b[|b| - 1];
    }
  }

  lemma {:induction false} PartsOfNode(events: seq<Transports.Event>)
    ensures NodePart(NodeEvents(events)) == events && TransferPart(NodeEvents(events)) == []
    decreases |events|
  {
    if events != [] {
      var front := events[..|events| - 1];
      PartsOfNode(front);
      assert NodeEvents(events)[..|events| - 1] == NodeEvents(front);
    }
  }

  lemma {:induction false} PartsOfTransfer(events: seq<T.Event>)
    ensures NodePart(TransferEvents(events)) == [] && TransferPart(TransferEvents(events)) == events
    decreases |events|
  {
    if events != [] {
      var front := events[..|events| - 1];
      PartsOfTransfer(front);
      assert TransferEvents(events)[..|events| - 1] == TransferEvents(front);
    }
  }

  /** One call: the node half is the call at the node, the other half what the call is to the transfers. */
  lemma CallHalves(c: Suite, z: R.Codec, w: Whole, call: Call)
    requires T.Fit(w.t)
    ensures var e := Exec(c, z, w, call);
            && (call.OnNode? ==>
                  e.st.n == N.Exec(c, w.n, call.call).st && NodePart(e.events) == N.Exec(c, w.n, call.call).events)
            && (!call.OnNode? ==> e.st.n == w.n && NodePart(e.events) == [])
            && (InputsOf(c, w, call) == [] ==> e.st.t == w.t && TransferPart(e.events) == [])
            && (forall i | InputsOf(c, w, call) == [i] ::
                  e.st.t == T.React(c, z, w.t, i).table && TransferPart(e.events) == T.React(c, z, w.t, i).events)
            && |InputsOf(c, w, call)| <= 1
  {
    hide N.Exec, InputOf, T.OnContext, T.OnPartArrival, T.OnProofArrival, T.OnTick, T.OnOffer, T.Fit, Wires, NodePart,
         TransferPart, NodeEvents, TransferEvents;
    match call
    case OnNode(nc, ivs) =>
      PartsOfNode(N.Exec(c, w.n, nc).events);
      var input := InputOf(c, w.n, nc, ivs.Some?);
      if input.Some? {
        PartsOfTransfer(T.React(c, z, w.t, input.value).events);
        PartsConcat(NodeEvents(N.Exec(c, w.n, nc).events), TransferEvents(T.React(c, z, w.t, input.value).events));
      }
    case SendResource(link, data, prefix, iv, random, adIv, at) =>
      PartsOfTransfer(T.OnOffer(c, z, w.t, link, LinkKeyOf(w.n.links, link), data, prefix, iv, random, at).events);
  }

  /** The last call of a run. */
  lemma LastCall(c: Suite, z: R.Codec, w: Whole, calls: seq<Call>)
    requires T.Fit(w.t) && calls != []
    ensures var front, call := calls[..|calls| - 1], calls[|calls| - 1];
            && Run(c, z, w, calls) == Exec(c, z, Run(c, z, w, front), call).st
            && NodeCalls(calls) == NodeCalls(front) + (if call.OnNode? then [call.call] else [])
            && Inputs(c, z, w, calls) == Inputs(c, z, w, front) + InputsOf(c, Run(c, z, w, front), call)
  {
    hide Exec, InputsOf, T.Fit;
  }

  lemma {:induction false} StatesAreBoth(c: Suite, z: R.Codec, w: Whole, calls: seq<Call>)
    requires T.Fit(w.t)
    ensures Run(c, z, w, calls) == Whole(N.Run(c, w.n, NodeCalls(calls)), T.Run(c, z, w.t, Inputs(c, z, w, calls)))
    decreases |calls|
  {
    if calls != [] {
      hide Exec, N.Exec, InputsOf, T.React, T.Fit, NodePart, TransferPart, Run, NodeCalls, Inputs, N.Run, T.Run;
      var front, call := calls[..|calls| - 1], calls[|calls| - 1];
      var before := Run(c, z, w, front);
      LastCall(c, z, w, calls);
      StatesAreBoth(c, z, w, front);
      CallHalves(c, z, before, call);
      NodeRunOn(c, w.n, NodeCalls(front), if call.OnNode? then [call.call] else []);
      TableRunOn(c, z, w.t, Inputs(c, z, w, front), InputsOf(c, before, call));
    }
  }

  lemma {:induction false} EventsAreBoth(c: Suite, z: R.Codec, w: Whole, calls: seq<Call>)
    requires T.Fit(w.t)
    ensures NodePart(Events(c, z, w, calls)) == N.Events(c, w.n, NodeCalls(calls))
    ensures TransferPart(Events(c, z, w, calls)) == T.Events(c, z, w.t, Inputs(c, z, w, calls))
    decreases |calls|
  {
    hide Exec, N.Exec, InputsOf, T.React, T.Fit, NodePart, TransferPart, Run, N.Run, T.Run;
    if calls == [] {
      EmptyParts();
    } else {
      var k := |calls| - 1;
      var front, call := calls[..k], calls[k];
      var before := Run(c, z, w, front);
      EventsAreBoth(c, z, w, front);
      StatesAreBoth(c, z, w, front);
      CallHalves(c, z, before, call);
      PartsConcat(Events(c, z, w, front), Exec(c, z, before, call).events);
      NodeRunOn(c, w.n, NodeCalls(front), if call.OnNode? then [call.call] else []);
      TableRunOn(c, z, w.t, Inputs(c, z, w, front), InputsOf(c, before, call));
    }
  }

  /** A run of the whole node is a run of the node beside a run of its transfers, with the events of both: whatever
      holds over all runs of either holds of it. */
  lemma RunsAreBoth(c: Suite, z: R.Codec, w: Whole, calls: seq<Call>)
    requires T.Fit(w.t)
    ensures Run(c, z, w, calls) == Whole(N.Run(c, w.n, NodeCalls(calls)), T.Run(c, z, w.t, Inputs(c, z, w, calls)))
    ensures NodePart(Events(c, z, w, calls)) == N.Events(c, w.n, NodeCalls(calls))
    ensures TransferPart(Events(c, z, w, calls)) == T.Events(c, z, w.t, Inputs(c, z, w, calls))
  {
    hide *;
    StatesAreBoth(c, z, w, calls);
    EventsAreBoth(c, z, w, calls);
  }

  lemma EmptyParts()
    ensures NodePart([]) == [] && TransferPart([]) == []
  {
  }

  lemma NodeRunOn(c: Suite, n: N.Node, calls: seq<N.Call>, more: seq<N.Call>)
    requires |more| <= 1
    ensures N.Run(c, n, calls + more) == if more == [] then N.Run(c, n, calls) else N.Exec(c, N.Run(c, n, calls), more[0]).st
    ensures N.Events(c, n, calls + more)
            == N.Events(c, n, calls) + if more == [] then [] else N.Exec(c, N.Run(c, n, calls), more[0]).events
  {
    hide N.Exec;
    if more == [] {
      assert calls + more == calls;
    } else {
      assert (calls + more)[..|calls + more| - 1] == calls;
    }
  }

  lemma TableRunOn(c: Suite, z: R.Codec, t: T.Table, inputs: seq<T.Input>, more: seq<T.Input>)
    requires T.Fit(t) && |more| <= 1
    ensures T.Run(c, z, t, inputs + more)
            == if more == [] then T.Run(c, z, t, inputs) else T.React(c, z, T.Run(c, z, t, inputs), more[0]).table
    ensures T.Events(c, z, t, inputs + more)
            == T.Events(c, z, t, inputs) + if more == [] then [] else T.React(c, z, T.Run(c, z, t, inputs), more[0]).events
  {
    hide T.React, T.Fit;
    if more == [] {
      assert inputs + more == inputs;
    } else {
      assert (inputs + more)[..|inputs + more| - 1] == inputs;
    }
  }

  lemma {:induction false} PartHolds(events: seq<Event>, v: T.Event)
    requires OfTransfer(v) in events
    ensures v in TransferPart(events)
    decreases |events|
  {
    if events[|events| - 1] != OfTransfer(v) {
      PartHolds(events[..|events| - 1], v);
    }
  }

  /** On the whole node, over every run of calls and packets: a transfer from an honest sender that is reported complete
      is reported with exactly the data sent. */
  lemma WholeCompletedIsExact(c: Suite, z: R.Codec, w: Whole, calls: seq<Call>, sending: Laws.Sending, v: T.Event)
    requires Laws.Admissible(c, z, sending) && Laws.Guarded(c, z, sending, w.t)
    requires forall i | i in Inputs(c, z, w, calls) :: Laws.FromSender(c, z, sending, i)
    requires OfTransfer(v) in Events(c, z, w, calls) && v.Completed? && v.key == Laws.KeyOf(c, z, sending)
    ensures v.data == sending.data
  {
    hide Events, Run, Inputs, T.Events, T.Run, T.Fit, Laws.FromSender, Laws.KeyOf, Laws.Faithfully, R.NewOutbound, TransferPart;
    RunsAreBoth(c, z, w, calls);
    PartHolds(Events(c, z, w, calls), v);
    Laws.CompletedIsExact(c, z, sending, w.t, Inputs(c, z, w, calls));
  }

  // ------------------------------------------------------------------ a transfer's packets on a link

  lemma SentWire(c: Suite, s: T.Sent, key: Bytes, iv: Bytes)
    requires |s.link| == 16
    ensures var p := PacketOf(c, s, key, iv);
            && Decode(Encode(p)) == Ok(p) && p.hops == 0 && p.dest == s.link
            && N.Route(c, p.(hops := 1)) == if s.Plain? && s.context == T.RESOURCE_PRF then N.ToNobody else N.ToLink
  {
    DecodeEncode(PacketOf(c, s, key, iv));
    hide Decode, Encode;
  }

  /** What one end of a link sends for a transfer is, at the other end, exactly that: a sealed context is read as it was
      written, a part arrives with the key it is tried under, a proof as it was made. */
  lemma SentArrives(c: Suite, b: N.Node, s: T.Sent, key: Bytes, iv: Bytes, now: nat, rng: Entropy)
    requires Lawful(c) && |s.link| == 16 && Usable(b.links, s.link) && b.links[s.link].key == Some(key)
    requires s.Sealed? ==> IsResourceContext(s.context)
    requires s.Plain? ==> s.context in {RESOURCE, T.RESOURCE_PRF}
    requires N.Admitted(c, b, Encode(PacketOf(c, s, key, iv)), now)
    ensures InputOf(c, b, N.Inbound(Encode(PacketOf(c, s, key, iv)), b.links[s.link].iface, now, Some(rng)), false)
            == Some(match s
                    case Sealed(link, context, plaintext) => T.Context(link, context, plaintext, now)
                    case Plain(link, context, data) =>
                      if context == RESOURCE then T.PartIn(link, key, data, true, now) else T.ProofIn(link, data))
  {
    hide Decode, Encode, N.Route, N.Seen, PacketOf;
    SentWire(c, s, key, iv);
    PacketFields(c, s, key, iv);
  }

  lemma PacketFields(c: Suite, s: T.Sent, key: Bytes, iv: Bytes)
    requires s.Plain? ==> s.context in {RESOURCE, T.RESOURCE_PRF}
    ensures var p := PacketOf(c, s, key, iv);
            && p.context == s.context && p.destType == LINK
            && p.data == (if s.Sealed? then c.seal(key, s.plaintext, iv) else s.data)
            && p.packetType == if s.Plain? && s.context == T.RESOURCE_PRF then PROOF else DATA
  {
  }
}
