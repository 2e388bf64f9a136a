/** What an application sees of one link over any run of a node. */
module LinkEvents {
  import opened Base
  import opened Crypto
  import opened Packets
  import opened PathTables
  import opened Transports
  import opened Links
  import opened Nodes
  import Order
  import Announces

  /** Where one link's events stand: nothing yet, established, closed, or out of order. */
  datatype Phase = NotYet | Open | Done | Bad

  function After(ph: Phase, e: Event, link: Bytes): Phase {
    match e
    case LinkEstablished(l) => if l != link then ph else if ph == NotYet then Open else Bad
    case LinkData(l, _) => if l != link then ph else if ph == Open then Open else Bad
    case LinkClosed(l) => if l != link then ph else if ph == NotYet || ph == Open then Done else Bad
    case _ => ph
  }

  function Fold(ph: Phase, events: seq<Event>, link: Bytes): Phase {
    if events == [] then ph else After(Fold(ph, events[..|events| - 1], link), events[|events| - 1], link)
  }

  lemma {:induction false} FoldConcat(ph: Phase, a: seq<Event>, b: seq<Event>, link: Bytes)
    ensures Fold(ph, a + b, link) == Fold(Fold(ph, a, link), b, link)
    decreases |b|
  {
    if b == [] {
      assert a + b == a;
    } else {
      FoldConcat(ph, a, b[..|b| - 1], link);
      assert (a + b)[..|a + b| - 1] == a + b[..|b| - 1];
    }
  }

  /** Is this event about the link? */
  predicate About(e: Event, link: Bytes) {
    e == LinkEstablished(link) || e == LinkClosed(link) || (e.LinkData? && e.link == link)
  }

  /** Established? LinkData* Closed?, with data only after the establishment. */
  ghost predicate InOrder(events: seq<Event>, link: Bytes) {
    && (forall i | 0 <= i < |events| && events[i] == LinkEstablished(link) ::
          forall j | 0 <= j < i :: !About(events[j], link))
    && (forall i | 0 <= i < |events| && events[i].LinkData? && events[i].link == link ::
          exists j :: 0 <= j < i && events[j] == LinkEstablished(link))
    && (forall i | 0 <= i < |events| && events[i] == LinkClosed(link) ::
          forall j | i < j < |events| :: !About(events[j], link))
  }

  ghost predicate Started(events: seq<Event>, link: Bytes) {
    exists i :: 0 <= i < |events| && events[i] == LinkEstablished(link)
  }

  /** The phase automaton accepts exactly the traces that are in order. */
  lemma {:induction false} PhaseMeaning(events: seq<Event>, link: Bytes)
    ensures Fold(NotYet, events, link) != Bad <==> InOrder(events, link)
    ensures Fold(NotYet, events, link) == NotYet <==> forall i | 0 <= i < |events| :: !About(events[i], link)
    ensures Fold(NotYet, events, link) == Open ==> Started(events, link)
    ensures Fold(NotYet, events, link) == Done ==> exists i :: 0 <= i < |events| && events[i] == LinkClosed(link)
    ensures Fold(NotYet, events, link) == Open ==> forall i | 0 <= i < |events| :: events[i] != LinkClosed(link)
    decreases |events|
  {
    if events != [] {
      PhaseMeaning(events[..|events| - 1], link);
      LastEvent(events, link);
    }
  }

  lemma LastEvent(events: seq<Event>, link: Bytes)
    requires events != []
    requires var ph := Fold(NotYet, events[..|events| - 1], link); var front := events[..|events| - 1];
             && (ph != Bad <==> InOrder(front, link))
             && (ph == NotYet <==> forall i | 0 <= i < |front| :: !About(front[i], link))
             && (ph == Open ==> Started(front, link))
             && (ph == Done ==> exists i :: 0 <= i < |front| && front[i] == LinkClosed(link))
             && (ph == Open ==> forall i | 0 <= i < |front| :: front[i] != LinkClosed(link))
    ensures var ph := Fold(NotYet, events, link);
            && (ph != Bad <==> InOrder(events, link))
            && (ph == NotYet <==> forall i | 0 <= i < |events| :: !About(events[i], link))
            && (ph == Open ==> Started(events, link))
            && (ph == Done ==> exists i :: 0 <= i < |events| && events[i] == LinkClosed(link))
            && (ph == Open ==> forall i | 0 <= i < |events| :: events[i] != LinkClosed(link))
  {
    var n := |events| - 1;
    var front, e := events[..n], events[n];
    assert forall i | 0 <= i < n :: front[i] == events[i];
  }

  // ------------------------------------------------------------------ queued closings

  /** Closing events of links, no link twice. */
  ghost predicate DistinctClosings(events: seq<Event>) {
    && (forall e | e in events :: e.LinkClosed?)
    && (forall i, j | 0 <= i < j < |events| :: events[i] != events[j])
  }

  lemma {:induction false} FoldClosings(ph: Phase, events: seq<Event>, link: Bytes)
    requires DistinctClosings(events)
    ensures Fold(ph, events, link) == if LinkClosed(link) in events then After(ph, LinkClosed(link), link) else ph
    decreases |events|
  {
    if events != [] {
      var n := |events| - 1;
      var front := events[..n];
      FoldClosings(ph, front, link);
      assert forall e :: e in events <==> e in front || e == events[n] by { assert events == front + [events[n]]; }
      assert events[n] !in front;
    }
  }

  lemma {:induction false} ClosingsOf(r: Registry, ids: seq<Bytes>, now: nat)
    requires forall id | id in ids :: id in r
    requires forall i, j | 0 <= i < j < |ids| :: ids[i] != ids[j]
    ensures var events := Links.Closings(r, ids, now);
            && DistinctClosings(events)
            && forall id :: LinkClosed(id) in events <==> id in ids && Stale(r[id], now)
  {
    if ids != [] {
      ClosingsOf(r, ids[1..], now);
      var rest := Links.Closings(r, ids[1..], now);
      assert ids[0] !in ids[1..];
      assert LinkClosed(ids[0]) !in rest;
    }
  }

  lemma {:induction false} SortedDistinct(s: set<Bytes>)
    ensures forall i, j | 0 <= i < j < |Order.Sorted(s)| :: Order.Sorted(s)[i] != Order.Sorted(s)[j]
  {
    if s != {} {
      var m := Order.LeastKey(s);
      SortedDistinct(s - {m});
      hide Order.Least;
    }
  }

  // ------------------------------------------------------------------ the invariant

  /** The queue holds at most one closing per link, and only of closed links. */
  ghost predicate QueueOk(n: Node) {
    DistinctClosings(n.pending) && forall id | LinkClosed(id) in n.pending :: id in n.links && n.links[id].status == Closed
  }

  /** The phase a link's events are in, given its status and whether its closing is still queued. */
  predicate Fits(status: Option<Status>, queued: bool, ph: Phase) {
    if status == None || status == Some(Pending) then ph == NotYet
    else if status == Some(Active) then ph == Open
    else if queued then ph == NotYet || ph == Open
    else ph == Done
  }

  function StatusOf(n: Node, link: Bytes): Option<Status> {
    if link in n.links then Some(n.links[link].status) else None
  }

  /** The state of one link agrees with the events emitted for it so far. */
  ghost predicate Agrees(n: Node, ph: Phase, link: Bytes) {
    Fits(StatusOf(n, link), LinkClosed(link) in n.pending, ph)
  }

  /** State, queue and emitted events of one link are in step. */
  ghost predicate InStep(n: Node, ph: Phase, link: Bytes) {
    QueueOk(n) && Agrees(n, ph, link)
  }

  /** The link id a call creates. */
  function Creates(c: Suite, call: Call): Option<Bytes> {
    if call.EstablishLink? then Some(LinkIdOf(c, RequestPacket(c, call.dest, call.xprv, call.eprv))) else None
  }

  /** `establish_link` never picks the id of a link the node already has. */
  predicate NoReuse(c: Suite, n: Node, call: Call) {
    Creates(c, call).Some? ==> Creates(c, call).value !in n.links
  }

  /** The events a tick returns: for each link at most one closing. */
  lemma TickFolds(n: Node, now: nat, ph: Phase, link: Bytes)
    requires DistinctClosings(n.pending)
    ensures var e := Nodes.Tick(n, now);
            var queued := if LinkClosed(link) in n.pending then After(ph, LinkClosed(link), link) else ph;
            Fold(ph, e.events, link)
            == if link in n.links && Stale(n.links[link], now) then After(queued, LinkClosed(link), link) else queued
  {
    var ids := Order.Sorted(n.links.Keys);
    SortedDistinct(n.links.Keys);
    ClosingsOf(n.links, ids, now);
    var closings := Links.Closings(n.links, ids, now);
    FoldConcat(ph, n.pending, closings, link);
    FoldClosings(ph, n.pending, link);
    FoldClosings(Fold(ph, n.pending, link), closings, link);
    hide Fold, Links.Closings, Keepalives, Order.Sorted, Stale, ExpireReceipts;
  }

  /** A queued or a fresh closing ends the link's phase. */
  lemma TickPhase(e: LinkEntry, queued: bool, now: nat, ph: Phase, link: Bytes)
    requires Fits(Some(e.status), queued, ph) && (queued ==> e.status == Closed)
    ensures var mid := if queued then After(ph, LinkClosed(link), link) else ph;
            Fits(Some(TickEntry(e, now).status), false, if Stale(e, now) then After(mid, LinkClosed(link), link) else mid)
  {
  }

  lemma TickAgrees(n: Node, now: nat, ph: Phase, link: Bytes)
    requires InStep(n, ph, link)
    ensures var e := Nodes.Tick(n, now);
            InStep(e.st, Fold(ph, e.events, link), link)
  {
    TickFolds(n, now, ph, link);
    TickedLink(n, now, link);
    EmptyQueue(Nodes.Tick(n, now).st);
    if link in n.links {
      TickPhase(n.links[link], LinkClosed(link) in n.pending, now, ph, link);
    }
    hide Fold, Nodes.Tick, Stale, TickEntry, Fits, After, DistinctClosings;
    if link !in n.links {
      assert LinkClosed(link) !in n.pending;
    }
  }

  lemma EmptyQueue(n: Node)
    requires n.pending == []
    ensures QueueOk(n)
  {
  }

  lemma TickedLink(n: Node, now: nat, link: Bytes)
    ensures var e := Nodes.Tick(n, now);
            && e.st.pending == [] && (link in e.st.links <==> link in n.links)
            && (link in n.links ==> e.st.links[link] == TickEntry(n.links[link], now))
  {
    hide Links.Closings, Keepalives, Order.Sorted, ExpireReceipts, TickEntry;
  }

  lemma CloseAgrees(n: Node, id: Bytes, ph: Phase, link: Bytes)
    requires InStep(n, ph, link)
    ensures InStep(Nodes.Close(n, id), ph, link)
  {
  }

  lemma FoldOne(ph: Phase, e: Event, link: Bytes)
    ensures Fold(ph, [e], link) == After(ph, e, link)
  {
    assert [e][..0] == [];
  }

  lemma LinkDataAgrees(c: Suite, n: Node, p: Packet, iface: nat, now: nat, ph: Phase, link: Bytes)
    requires InStep(n, ph, link)
    ensures var e := OnLinks(n, HandleLinkData(c, n.links, p, iface, now));
            InStep(e.st, Fold(ph, e.events, link), link)
    ensures AsksClose(c, n.links, p, iface) ==> HandleLinkData(c, n.links, p, iface, now).events == []
  {
    var e := HandleLinkData(c, n.links, p, iface, now);
    if e.events != [] {
      FoldOne(ph, e.events[0], link);
    }
    hide Encode, Fold;
  }

  lemma LinkAgrees(c: Suite, n: Node, p: Packet, iface: nat, now: nat, ph: Phase, link: Bytes)
    requires InStep(n, ph, link)
    ensures var e := HandleLink(c, n, p, iface, now);
            InStep(e.st, Fold(ph, e.events, link), link)
  {
    LinkDataAgrees(c, n, p, iface, now, ph, link);
    hide HandleLinkData, AsksClose, InStep, Nodes.Tick, Nodes.Close;
    if AsksClose(c, n.links, p, iface) {
      var e := OnLinks(n, HandleLinkData(c, n.links, p, iface, now));
      CloseAgrees(e.st, p.dest, ph, link);
      TickAgrees(Nodes.Close(e.st, p.dest), now, ph, link);
    }
  }

  lemma RequestAgrees(c: Suite, n: Node, p: Packet, iface: nat, now: nat, rng: Entropy, ph: Phase, link: Bytes)
    requires InStep(n, ph, link)
    ensures var e := OnLinks(n, HandleRequest(c, n.t, n.links, p, iface, now, rng));
            InStep(e.st, Fold(ph, e.events, link), link)
  {
    FoldOne(ph, LinkEstablished(LinkIdOf(c, p)), link);
    FoldUnrelated(ph, [], link);
    hide Encode, Fold, LinkIdOf, LinkProof, LinkKey, FindSingle, IdentityHash, Header1;
  }

  lemma ProofAgrees(c: Suite, n: Node, p: Packet, now: nat, rng: Option<Entropy>, ph: Phase, link: Bytes)
    requires InStep(n, ph, link)
    ensures var e := OnLinks(n, HandleLinkProof(c, n.links, p, now, rng));
            InStep(e.st, Fold(ph, e.events, link), link)
  {
    hide Encode, VerifyLinkProof, LinkKey, LinkPacket;
    var r := n.links;
    FoldOne(ph, LinkEstablished(p.dest), link);
    FoldUnrelated(ph, [], link);
    if p.dest in r && r[p.dest].status == Pending && r[p.dest].initiator && r[p.dest].public.Some? {
      var peer := VerifyLinkProof(c, r[p.dest].public.value, p.dest, p.data);
      if peer.Err? {
        FoldOne(ph, Failed(peer.error), link);
      } else {
        var e := HandleLinkProof(c, r, p, now, rng);
        assert e.events == [LinkEstablished(p.dest)];
        assert forall l | l in r && l != p.dest :: e.st[l] == r[l];
        assert e.st[p.dest].status == Active;
        hide HandleLinkProof;
      }
    } else {
      assert HandleLinkProof(c, r, p, now, rng).st == r && HandleLinkProof(c, r, p, now, rng).events == [];
    }
    hide Fold;
  }

  // ------------------------------------------------------------------ other events never mention links

  predicate Unrelated(e: Event) {
    e.Announced? || e.Message? || e.Delivered? || e.Failed?
  }

  lemma {:induction false} FoldUnrelated(ph: Phase, events: seq<Event>, link: Bytes)
    requires forall e | e in events :: Unrelated(e)
    ensures Fold(ph, events, link) == ph
    decreases |events|
  {
    if events != [] {
      var n := |events| - 1;
      assert events[n] in events && events == events[..n] + [events[n]];
      FoldUnrelated(ph, events[..n], link);
    }
  }

  lemma AnnounceUnrelated(c: Suite, t: Transport, p: Packet, iface: nat, now: nat)
    ensures forall e | e in HandleAnnounce(c, t, p, iface, now).events :: Unrelated(e)
  {
    hide Encode, Relayed, Broadcast, Announces.Parse, Announces.Verified, EntryOf, FindLocal;
  }

  lemma DataUnrelated(c: Suite, t: Transport, p: Packet, iface: nat, now: nat)
    ensures forall e | e in HandleData(c, t, p, iface, now).events :: Unrelated(e)
  {
    hide Encode, FindLocal, IdentityHash, Decrypt, ProofPacket;
  }

  lemma PathRequestSilent(c: Suite, t: Transport, p: Packet, iface: nat, now: nat)
    ensures HandlePathRequest(c, t, p, iface, now).events == []
  {
    hide Encode, FindLocal, PathResponse;
  }

  lemma ProofUnrelated(c: Suite, t: Transport, p: Packet)
    ensures forall e | e in HandleProof(c, t, p).events :: Unrelated(e)
  {
  }

  lemma DispatchAgrees(c: Suite, n: Node, p: Packet, iface: nat, now: nat, rng: Option<Entropy>, ph: Phase, link: Bytes)
    requires InStep(n, ph, link)
    ensures var e := Dispatch(c, n, p, iface, now, rng);
            InStep(e.st, Fold(ph, e.events, link), link)
  {
    hide Route, HandleAnnounce, HandleData, HandleLink, HandleRequest, HandleLinkProof, HandlePathRequest, Fold,
         ProofValid, InStep, HandleProof;
    SameLinks(n, n.(t := HandlePathRequest(c, n.t, p, iface, now).st), ph, link);
    SameLinks(n, n.(t := HandleProof(c, n.t, p).st), ph, link);
    SameLinks(n, n.(t := HandleAnnounce(c, n.t, p, iface, now).st), ph, link);
    SameLinks(n, n.(t := HandleData(c, n.t, p, iface, now).st), ph, link);
    match Route(c, p) {
      case ToLinkRequest =>
        if rng.Some? {
          RequestAgrees(c, n, p, iface, now, rng.value, ph, link);
        } else {
          FoldUnrelated(ph, [], link);
        }
      case ToLinkProof => ProofAgrees(c, n, p, now, rng, ph, link);
      case ToLink => LinkAgrees(c, n, p, iface, now, ph, link);
      case ToAnnounce =>
        AnnounceUnrelated(c, n.t, p, iface, now);
        FoldUnrelated(ph, HandleAnnounce(c, n.t, p, iface, now).events, link);
      case ToData =>
        DataUnrelated(c, n.t, p, iface, now);
        FoldUnrelated(ph, HandleData(c, n.t, p, iface, now).events, link);
      case ToPathRequest =>
        PathRequestSilent(c, n.t, p, iface, now);
        FoldUnrelated(ph, [], link);
      case ToDeliveryProof =>
        ProofUnrelated(c, n.t, p);
        FoldUnrelated(ph, HandleProof(c, n.t, p).events, link);
      case ToNobody => FoldUnrelated(ph, [], link);
    }
  }

  lemma SameLinks(a: Node, b: Node, ph: Phase, link: Bytes)
    requires a.links == b.links && a.pending == b.pending && InStep(a, ph, link)
    ensures InStep(b, ph, link)
  {
  }

  lemma InboundAgrees(c: Suite, n: Node, bytes: Bytes, iface: nat, now: nat, rng: Option<Entropy>, ph: Phase, link: Bytes)
    requires InStep(n, ph, link)
    ensures var e := HandleInbound(c, n, bytes, iface, now, rng);
            InStep(e.st, Fold(ph, e.events, link), link)
  {
    FoldUnrelated(ph, [], link);
    InboundCases(c, n, bytes, iface, now, rng);
    SameLinks(n, n.(t := MaybePrune(n.t, now)), ph, link);
    if Admitted(c, n, bytes, now) {
      SameLinks(n, AdmittedNode(c, n, bytes, now), ph, link);
      hide HandleInbound, Dispatch, Decode, Noted, MaybePrune, Seen, Fold, InStep;
      DispatchAgrees(c, AdmittedNode(c, n, bytes, now), AdmittedPacket(c, n, bytes, now), iface, now, rng, ph, link);
    }
    hide HandleInbound, Dispatch, Decode, Noted, MaybePrune, Seen, Fold, InStep, Admitted;
  }

  lemma StartLinkAgrees(c: Suite, n: Node, call: Call, ph: Phase, link: Bytes)
    requires InStep(n, ph, link) && NoReuse(c, n, call) && call.EstablishLink?
    ensures var e := Exec(c, n, call);
            e.events == [] && InStep(e.st, ph, link)
  {
    hide Encode, LinkIdOf, RequestPacket;
  }

  lemma LinkSendAgrees(c: Suite, n: Node, call: Call, ph: Phase, link: Bytes)
    requires InStep(n, ph, link) && call.LinkSend?
    ensures var e := Exec(c, n, call);
            e.events == [] && InStep(e.st, ph, link)
  {
    hide Encode;
  }

  /** The calls that touch no link. */
  lemma OthersAgree(c: Suite, n: Node, call: Call)
    requires !call.Inbound? && !call.CloseLink? && !call.TickAt? && !call.EstablishLink? && !call.LinkSend?
    ensures var e := Exec(c, n, call); e.events == [] && e.st.links == n.links && e.st.pending == n.pending
  {
    hide Encode, FindSingle, SendMessage;
    if call.SendTo? {
      SendSilent(c, n.t, call.dest, call.plaintext, call.ephemeral, call.iv, call.receipt, call.now);
    }
  }

  /** Every call keeps the link's state and its events in step. */
  lemma ExecAgrees(c: Suite, n: Node, call: Call, ph: Phase, link: Bytes)
    requires InStep(n, ph, link) && NoReuse(c, n, call)
    ensures var e := Exec(c, n, call);
            InStep(e.st, Fold(ph, e.events, link), link)
  {
    FoldUnrelated(ph, [], link);
    match call {
      case Inbound(bytes, iface, now, rng) => InboundAgrees(c, n, bytes, iface, now, rng, ph, link);
      case CloseLink(id) => CloseAgrees(n, id, ph, link);
      case TickAt(now) => TickAgrees(n, now, ph, link);
      case EstablishLink(_, _, _, _) => StartLinkAgrees(c, n, call, ph, link);
      case LinkSend(_, _, _, _) => LinkSendAgrees(c, n, call, ph, link);
      case _ =>
        OthersAgree(c, n, call);
        SameLinks(n, Exec(c, n, call).st, ph, link);
        hide Exec;
    }
    hide HandleInbound, Fold, Nodes.Tick, Nodes.Close, InStep, NoReuse, StartLink, Links.Send;
  }

  lemma SendSilent(c: Suite, t: Transport, dest: Bytes, m: Bytes, eph: Bytes, iv: Bytes, receipt: bool, now: nat)
    ensures SendMessage(c, t, dest, m, eph, iv, receipt, now).0.events == []
  {
    hide Encode, Encrypt;
  }

  /** A node as it is created: no links, no queued events. */
  ghost predicate Unlinked(n: Node) {
    n.links == map[] && n.pending == []
  }

  ghost predicate NeverReuses(c: Suite, n: Node, calls: seq<Call>) {
    forall i | 0 <= i < |calls| :: NoReuse(c, Run(c, n, calls[..i]), calls[i])
  }

  lemma {:induction false} RunAgrees(c: Suite, n: Node, calls: seq<Call>, link: Bytes)
    requires Unlinked(n) && NeverReuses(c, n, calls)
    ensures var end := Run(c, n, calls);
            InStep(end, Fold(NotYet, Events(c, n, calls), link), link)
    decreases |calls|
  {
    if calls != [] {
      var k := |calls| - 1;
      assert forall i | 0 <= i < k :: calls[..k][..i] == calls[..i];
      RunAgrees(c, n, calls[..k], link);
      var before := Run(c, n, calls[..k]);
      var e := Exec(c, before, calls[k]);
      ExecAgrees(c, before, calls[k], Fold(NotYet, Events(c, n, calls[..k]), link), link);
      FoldConcat(NotYet, Events(c, n, calls[..k]), e.events, link);
    }
    hide Exec, NoReuse;
  }

  /** Over every run of a node that never reuses a link id, the events of one link come in the order
      Established? LinkData* Closed?. */
  lemma EventsInOrder(c: Suite, n: Node, calls: seq<Call>, link: Bytes)
    requires Unlinked(n) && NeverReuses(c, n, calls)
    ensures InOrder(Events(c, n, calls), link)
  {
    RunAgrees(c, n, calls, link);
    PhaseMeaning(Events(c, n, calls), link);
    hide Run, Events, Fold, InOrder, NeverReuses;
  }

  // ------------------------------------------------------------------ closed is for ever, active is keyed

  /** An entry keeps its own ephemeral; with a key, the key is derived from it, the peer and the id. */
  ghost predicate Keyed(c: Suite, link: Bytes, e: LinkEntry) {
    && (e.status == Active ==> e.key.Some?)
    && (e.key.Some? ==> e.peer.Some? && e.key.value == LinkKey(c, e.xprv, e.peer.value, link))
  }

  ghost predicate AllKeyed(c: Suite, r: Registry) {
    forall l | l in r :: Keyed(c, l, r[l])
  }

  /** No link is forgotten; ephemerals and keys stay, and a closed link stays closed. */
  ghost predicate Forward(a: Registry, b: Registry) {
    forall l | l in a ::
      && l in b && b[l].xprv == a[l].xprv && b[l].initiator == a[l].initiator
      && (a[l].status == Closed ==> b[l].status == Closed)
      && (a[l].status != Pending ==> b[l].status != Pending && b[l].key == a[l].key)
  }

  lemma TickKeyed(c: Suite, link: Bytes, e: LinkEntry, now: nat)
    requires Keyed(c, link, e)
    ensures var b := TickEntry(e, now);
            && Keyed(c, link, b) && b.xprv == e.xprv && b.initiator == e.initiator && b.key == e.key
            && (e.status == Closed ==> b.status == Closed) && (e.status != Pending ==> b.status != Pending)
  {
    hide LinkKey;
  }

  lemma TickForward(c: Suite, n: Node, now: nat)
    requires AllKeyed(c, n.links)
    ensures Forward(n.links, Nodes.Tick(n, now).st.links) && AllKeyed(c, Nodes.Tick(n, now).st.links)
  {
    hide Nodes.Tick, TickEntry, Keyed;
    var r := Nodes.Tick(n, now).st.links;
    forall l ensures l in r <==> l in n.links
             ensures l in n.links ==> r[l] == TickEntry(n.links[l], now)
    {
      TickedLink(n, now, l);
    }
    forall l | l in n.links
      ensures var a, b := n.links[l], r[l];
              && Keyed(c, l, b) && b.xprv == a.xprv && b.initiator == a.initiator && b.key == a.key
              && (a.status == Closed ==> b.status == Closed) && (a.status != Pending ==> b.status != Pending)
    {
      TickKeyed(c, l, n.links[l], now);
    }
  }

  lemma ForwardSelf(a: Registry)
    ensures Forward(a, a)
  {
  }

  lemma ForwardTrans(a: Registry, b: Registry, d: Registry)
    requires Forward(a, b) && Forward(b, d)
    ensures Forward(a, d)
  {
  }

  lemma CloseForward(c: Suite, n: Node, id: Bytes)
    requires AllKeyed(c, n.links)
    ensures Forward(n.links, Nodes.Close(n, id).links) && AllKeyed(c, Nodes.Close(n, id).links)
  {
    hide LinkKey;
  }

  lemma LinkDataForward(c: Suite, r: Registry, p: Packet, iface: nat, now: nat)
    requires AllKeyed(c, r)
    ensures var b := HandleLinkData(c, r, p, iface, now).st; Forward(r, b) && AllKeyed(c, b)
  {
    hide Encode, LinkKey, LinkPacket;
  }

  lemma LinkForward(c: Suite, n: Node, p: Packet, iface: nat, now: nat)
    requires AllKeyed(c, n.links)
    ensures var e := HandleLink(c, n, p, iface, now);
            Forward(n.links, e.st.links) && AllKeyed(c, e.st.links)
  {
    hide HandleLinkData, AsksClose, Nodes.Tick, Nodes.Close, AllKeyed, Forward;
    LinkDataForward(c, n.links, p, iface, now);
    if AsksClose(c, n.links, p, iface) {
      var mid := OnLinks(n, HandleLinkData(c, n.links, p, iface, now)).st;
      var closed := Nodes.Close(mid, p.dest);
      CloseForward(c, mid, p.dest);
      TickForward(c, closed, now);
      ForwardTrans(n.links, mid.links, closed.links);
      ForwardTrans(n.links, closed.links, Nodes.Tick(closed, now).st.links);
    }
  }

  lemma RequestForward(c: Suite, n: Node, p: Packet, iface: nat, now: nat, rng: Entropy)
    requires AllKeyed(c, n.links)
    ensures var r := HandleRequest(c, n.t, n.links, p, iface, now, rng).st;
            Forward(n.links, r) && AllKeyed(c, r)
  {
    hide Encode, LinkIdOf, LinkProof, LinkKey, FindSingle, IdentityHash, Header1;
  }

  lemma ProofForward(c: Suite, n: Node, p: Packet, now: nat, rng: Option<Entropy>)
    requires AllKeyed(c, n.links)
    ensures var r := HandleLinkProof(c, n.links, p, now, rng).st; Forward(n.links, r) && AllKeyed(c, r)
  {
    hide Encode, VerifyLinkProof, LinkKey, LinkPacket;
  }

  lemma DispatchForward(c: Suite, n: Node, p: Packet, iface: nat, now: nat, rng: Option<Entropy>)
    requires AllKeyed(c, n.links)
    ensures var e := Dispatch(c, n, p, iface, now, rng);
            Forward(n.links, e.st.links) && AllKeyed(c, e.st.links)
  {
    hide Route, HandleAnnounce, HandleData, HandleLink, HandleRequest, HandleLinkProof, HandlePathRequest, HandleProof;
    hide AllKeyed, Forward;
    ForwardSelf(n.links);
    match Route(c, p) {
      case ToLinkRequest => if rng.Some? { RequestForward(c, n, p, iface, now, rng.value); }
      case ToLinkProof => ProofForward(c, n, p, now, rng);
      case ToLink => LinkForward(c, n, p, iface, now);
      case _ =>
    }
  }

  lemma InboundForward(c: Suite, n: Node, bytes: Bytes, iface: nat, now: nat, rng: Option<Entropy>)
    requires AllKeyed(c, n.links)
    ensures var e := HandleInbound(c, n, bytes, iface, now, rng);
            Forward(n.links, e.st.links) && AllKeyed(c, e.st.links)
  {
    hide Dispatch, Seen, Noted, MaybePrune, Decode, AllKeyed, Forward;
    ForwardSelf(n.links);
    var d := Decode(bytes);
    if d.Ok? && d.value.hops < MAX_HOPS {
      DispatchForward(c, n.(t := Noted(c, n.t, d.value, now)), d.value.(hops := d.value.hops + 1), iface, now, rng);
    }
  }

  /** Closed is absorbing and every active entry holds the key derived from its own ephemeral, the
      peer's key and the link id, whatever the call. */
  lemma ExecForward(c: Suite, n: Node, call: Call)
    requires AllKeyed(c, n.links) && NoReuse(c, n, call)
    ensures var e := Exec(c, n, call);
            Forward(n.links, e.st.links) && AllKeyed(c, e.st.links)
  {
    hide Encode, Nodes.Tick, Nodes.Close, FindSingle, LinkIdOf, SendMessage, HandleInbound, LinkKey, RequestPacket;
    match call
    case Inbound(bytes, iface, now, rng) => InboundForward(c, n, bytes, iface, now, rng);
    case CloseLink(id) => CloseForward(c, n, id);
    case TickAt(now) => TickForward(c, n, now);
    case _ =>
  }

  lemma {:induction false} RunKeyed(c: Suite, n: Node, calls: seq<Call>, k: nat)
    requires Unlinked(n) && NeverReuses(c, n, calls) && k <= |calls|
    ensures AllKeyed(c, Run(c, n, calls[..k]).links)
    decreases k
  {
    if k > 0 {
      RunKeyed(c, n, calls, k - 1);
      assert calls[..k][..k - 1] == calls[..k - 1];
      ExecForward(c, Run(c, n, calls[..k - 1]), calls[k - 1]);
    }
    hide Exec, Keyed, NoReuse;
  }

  predicate IsClosed(n: Node, link: Bytes) {
    link in n.links && n.links[link].status == Closed
  }

  /** Over every run: an active link has the derived key, and a link once closed is closed for good. */
  lemma {:induction false} ClosedForGood(c: Suite, n: Node, calls: seq<Call>, j: nat, k: nat, link: Bytes)
    requires Unlinked(n) && NeverReuses(c, n, calls) && j <= k <= |calls|
    requires IsClosed(Run(c, n, calls[..j]), link)
    ensures IsClosed(Run(c, n, calls[..k]), link)
    decreases k
  {
    hide Exec, AllKeyed, NoReuse, Unlinked;
    if j < k {
      ClosedForGood(c, n, calls, j, k - 1, link);
      RunKeyed(c, n, calls, k - 1);
      assert calls[..k][..k - 1] == calls[..k - 1];
      ExecForward(c, Run(c, n, calls[..k - 1]), calls[k - 1]);
    }
  }
}
