/** Messages sent on a learned path arrive, whatever else the network does meanwhile: copies do no harm, and routes
    may be refreshed anywhere and improve ahead of the message. */
module Arrival {
  import opened Base
  import opened Crypto
  import opened Packets
  import opened PathTables
  import opened Transports
  import opened Nodes
  import opened Links
  import opened Network
  import opened LoopFreedom
  import opened Delivery

  // ------------------------------------------------------------------ the parcel under way

  function ParcelKey(c: Suite, m: Parcel): Bytes {
    Truncate(ParcelHash(c, m))
  }

  /** A copy of the parcel reaches a node. */
  ghost predicate Moves(c: Suite, m: Parcel, s: Step) {
    s.Receive? && IsParcel(c, m, s.f.bytes)
  }

  /** The nodes that have had the parcel: its sender and whoever received a copy. */
  ghost function HadAfter(c: Suite, m: Parcel, had: set<nat>, s: Step): set<nat> {
    if Moves(c, m, s) then had + {s.f.to} else had
  }

  /** Every node that had the parcel has a route and is not its host. */
  ghost predicate HadRoute(net: Net, m: Parcel, had: set<nat>) {
    forall v | v in had :: Routes(net, v, m.dest)
  }

  /** Every copy in flight was sent by a node that had the parcel, and is heading to a closer one. */
  ghost predicate CopiesHead(c: Suite, topo: Topology, net: Net, m: Parcel, had: set<nat>) {
    forall g | g in net.wire && IsParcel(c, m, g.bytes) :: Heading(c, topo, net, m, g) && Sender(topo, g) in had
  }

  /** Nobody else has seen the parcel. */
  ghost predicate SeenBy(c: Suite, net: Net, m: Parcel, had: set<nat>) {
    forall v | v in net.nodes && ParcelKey(c, m) in net.nodes[v].t.seenPackets :: v in had
  }

  ghost predicate Under(c: Suite, topo: Topology, net: Net, m: Parcel, had: set<nat>) {
    HadRoute(net, m, had) && CopiesHead(c, topo, net, m, had) && SeenBy(c, net, m, had)
  }

  /** Node `u` is at least as close to the host as every node that had the parcel. */
  ghost predicate Closest(net: Net, m: Parcel, had: set<nat>, u: nat) {
    && Routes(net, u, m.dest)
    && forall v | v in had && Routes(net, v, m.dest) :: Hops(net, u, m.dest) <= Hops(net, v, m.dest)
  }

  /** `g` is a copy in flight sent by a closest node. */
  ghost predicate Leads(c: Suite, topo: Topology, net: Net, m: Parcel, had: set<nat>, g: Flight) {
    g in net.wire && IsParcel(c, m, g.bytes) && Sender(topo, g) in had && Closest(net, m, had, Sender(topo, g))
  }

  // ------------------------------------------------------------------ the steps of a run

  /** The step forges and resends no parcel, and loses a copy only if its receiver already had the parcel or a
      second copy is left. */
  ghost predicate Untampered(c: Suite, net: Net, m: Parcel, had: set<nat>, s: Step) {
    match s
    case Do(x, call) =>
      && x in net.nodes && (call.Inbound? ==> !IsParcel(c, m, call.bytes))
      && forall o | o in Exec(c, net.nodes[x], call).out :: !IsParcel(c, m, o.1)
    case Receive(g, now, rng) =>
      && g.to in net.nodes
      && (IsParcel(c, m, g.bytes) || forall o | o in Exec(c, net.nodes[g.to], CallOf(s)).out :: !IsParcel(c, m, o.1))
    case Lose(g) => IsParcel(c, m, g.bytes) ==> g.to in had || net.wire[g] > 1
    case Duplicate(g) => true
  }

  /** No node that had the parcel came closer to the host. */
  ghost predicate Steady(a: Net, b: Net, m: Parcel, had: set<nat>) {
    forall v | v in had && Routes(a, v, m.dest) && Routes(b, v, m.dest) :: Hops(a, v, m.dest) <= Hops(b, v, m.dest)
  }

  ghost predicate KindStep(c: Suite, topo: Topology, net: Net, m: Parcel, had: set<nat>, s: Step) {
    && Allowed(net, s) && Untampered(c, net, m, had, s)
    && SoleHost(net, m.host, m.dest) && SoleHost(Apply(c, topo, net, s), m.host, m.dest)
    && Steady(net, Apply(c, topo, net, s), m, had)
  }

  /** In this step the host reports the message. */
  ghost predicate Reports(c: Suite, net: Net, m: Parcel, s: Step) {
    && Moves(c, m, s) && s.f.to == m.host && m.host in net.nodes
    && Exec(c, net.nodes[m.host], CallOf(s)).events == [Message(m.dest, m.plaintext)]
  }

  /** The parcel reaches a node closer to the host than all that had it. */
  ghost predicate Advances(c: Suite, net: Net, m: Parcel, had: set<nat>, s: Step) {
    && Moves(c, m, s) && Routes(net, s.f.to, m.dest)
    && forall v | v in had && Routes(net, v, m.dest) :: Hops(net, s.f.to, m.dest) < Hops(net, v, m.dest)
  }

  function Progress(advance: bool): nat {
    if advance then 1 else 0
  }

  // ------------------------------------------------------------------ what a step leaves as it was

  lemma StepImproves(c: Suite, topo: Topology, net: Net, s: Step)
    requires Allowed(net, s)
    ensures NetImproves(net, Apply(c, topo, net, s))
  {
    hide Exec, Improves, InTime, Unexpired, Typed, IsAnnounce, Launch;
    forall y | y in net.nodes ensures Improves(net.nodes[y].t, net.nodes[y].t) {
      ImprovesSelf(net.nodes[y].t);
    }
    if s.Do? || s.Receive? {
      CallInTime(net, s);
      ExecImproves(c, net.nodes[NodeOf(s)], CallOf(s));
    }
  }

  /** A node with a route that does not come closer keeps its distance. */
  lemma RouteStays(a: Net, b: Net, m: Parcel, had: set<nat>, v: nat)
    requires NetImproves(a, b) && SoleHost(a, m.host, m.dest) && SoleHost(b, m.host, m.dest)
    requires Routes(a, v, m.dest)
    ensures Routes(b, v, m.dest) && Hops(b, v, m.dest) <= Hops(a, v, m.dest)
    ensures Steady(a, b, m, had) && v in had ==> Hops(b, v, m.dest) == Hops(a, v, m.dest)
  {
    hide FindLocal;
    assert Improves(a.nodes[v].t, b.nodes[v].t);
    assert Hosts(a, m.host, m.dest);
    assert !Hosts(b, v, m.dest);
  }

  lemma TakesStays(c: Suite, a: Net, b: Net, m: Parcel, y: nat, p: Packet, h: nat)
    requires NetImproves(a, b) && SoleHost(a, m.host, m.dest) && SoleHost(b, m.host, m.dest)
    requires y in a.nodes && Takes(c, a, m.dest, y, p, h)
    ensures Takes(c, b, m.dest, y, p, h)
  {
    hide FindLocal, IdentityHash, Steady, SoleHost;
    assert Improves(a.nodes[y].t, b.nodes[y].t);
    if !Hosts(a, y, m.dest) {
      RouteStays(a, b, m, {}, y);
    }
  }

  lemma HeadingStays(c: Suite, topo: Topology, a: Net, b: Net, m: Parcel, g: Flight)
    requires NetImproves(a, b) && SoleHost(a, m.host, m.dest) && SoleHost(b, m.host, m.dest)
    requires Heading(c, topo, a, m, g)
    requires Routes(b, Sender(topo, g), m.dest)
    requires Hops(b, Sender(topo, g), m.dest) == Hops(a, Sender(topo, g), m.dest)
    ensures Heading(c, topo, b, m, g)
  {
    hide Decode, FindLocal, IdentityHash, Takes, SoleHost, Improves, Carries, Sender;
    TakesStays(c, a, b, m, g.to, Decode(g.bytes).value, Hops(a, Sender(topo, g), m.dest));
  }

  /** What carries over to the next state: routes of the nodes that had the parcel, and the copies still there. */
  lemma UnderStays(c: Suite, topo: Topology, a: Net, b: Net, m: Parcel, had: set<nat>, had': set<nat>)
    requires NetImproves(a, b) && SoleHost(a, m.host, m.dest) && SoleHost(b, m.host, m.dest) && Steady(a, b, m, had)
    requires Under(c, topo, a, m, had) && had <= had' && HadRoute(b, m, had') && SeenBy(c, b, m, had')
    requires forall g | g in b.wire && IsParcel(c, m, g.bytes) ::
               g in a.wire || (Heading(c, topo, b, m, g) && Sender(topo, g) in had')
    ensures Under(c, topo, b, m, had')
  {
    hide Routes, Hops, Heading, IsParcel, Sender, SoleHost, Steady, NetImproves, SeenBy;
    forall g | g in b.wire && IsParcel(c, m, g.bytes)
      ensures Heading(c, topo, b, m, g) && Sender(topo, g) in had'
    {
      if g in a.wire {
        RouteStays(a, b, m, had, Sender(topo, g));
        HeadingStays(c, topo, a, b, m, g);
      }
    }
  }

  /** A closest node stays closest. */
  lemma ClosestStays(a: Net, b: Net, m: Parcel, had: set<nat>, u: nat)
    requires NetImproves(a, b) && SoleHost(a, m.host, m.dest) && SoleHost(b, m.host, m.dest) && Steady(a, b, m, had)
    requires HadRoute(a, m, had) && u in had && Closest(a, m, had, u)
    ensures HadRoute(b, m, had) && Closest(b, m, had, u) && Hops(b, u, m.dest) == Hops(a, u, m.dest)
  {
    hide Routes, Hops, SoleHost, Steady, NetImproves;
    forall v | v in had ensures Routes(b, v, m.dest) && Hops(b, v, m.dest) == Hops(a, v, m.dest) {
      RouteStays(a, b, m, had, v);
    }
  }

  /** A leading copy is heading to a node that has not had the parcel. */
  lemma LeadIsNew(c: Suite, topo: Topology, net: Net, m: Parcel, had: set<nat>, g: Flight)
    requires Under(c, topo, net, m, had) && Leads(c, topo, net, m, had, g)
    ensures Heading(c, topo, net, m, g) && g.to !in had && ParcelKey(c, m) !in net.nodes[g.to].t.seenPackets
  {
    hide IsParcel, Sender, Decode, FindLocal, IdentityHash, ParcelKey, Carries;
  }

  // ------------------------------------------------------------------ steps about other packets

  lemma ForeignWire(c: Suite, topo: Topology, net: Net, m: Parcel, had: set<nat>, s: Step)
    requires Allowed(net, s) && Untampered(c, net, m, had, s) && !Moves(c, m, s)
    ensures forall g | g in Apply(c, topo, net, s).wire && IsParcel(c, m, g.bytes) :: g in net.wire
    ensures forall g | g in net.wire && IsParcel(c, m, g.bytes) && g.to !in had :: g in Apply(c, topo, net, s).wire
  {
    hide Exec, IsParcel, Unexpired, InTime, Typed;
    if s.Do? || s.Receive? {
      var launched := Launch(topo, NodeOf(s), Exec(c, net.nodes[NodeOf(s)], CallOf(s)).out);
      forall g | g in launched ensures !IsParcel(c, m, g.bytes) {
      }
    }
  }

  lemma ForeignSeen(c: Suite, topo: Topology, net: Net, m: Parcel, had: set<nat>, s: Step)
    requires Allowed(net, s) && Untampered(c, net, m, had, s) && !Moves(c, m, s) && SeenBy(c, net, m, had)
    ensures SeenBy(c, Apply(c, topo, net, s), m, had)
  {
    var key := ParcelKey(c, m);
    if s.Do? || s.Receive? {
      var x := NodeOf(s);
      if key in Exec(c, net.nodes[x], CallOf(s)).st.t.seenPackets {
        RemembersOnly(c, net.nodes[x], CallOf(s), key);
      }
    }
    hide Exec, DedupKey, ParcelHash, Unexpired;
  }

  /** A step about other packets leaves a leading copy where it is. */
  lemma ForeignKeeps(c: Suite, topo: Topology, net: Net, m: Parcel, had: set<nat>, g: Flight, s: Step)
    requires KindStep(c, topo, net, m, had, s) && !Moves(c, m, s)
    requires Under(c, topo, net, m, had) && Leads(c, topo, net, m, had, g)
    ensures var net' := Apply(c, topo, net, s);
            && Under(c, topo, net', m, had) && Leads(c, topo, net', m, had, g)
            && Hops(net', Sender(topo, g), m.dest) == Hops(net, Sender(topo, g), m.dest)
  {
    hide Apply, Untampered, Steady, SoleHost, Routes, Hops, IsParcel, Sender, NetImproves, Moves, SeenBy, ParcelKey,
         Closest, Heading, HadRoute, InTime, Unexpired, Typed, IsAnnounce;
    var net' := Apply(c, topo, net, s);
    LeadIsNew(c, topo, net, m, had, g);
    StepImproves(c, topo, net, s);
    ForeignWire(c, topo, net, m, had, s);
    ForeignSeen(c, topo, net, m, had, s);
    ClosestStays(net, net', m, had, Sender(topo, g));
    UnderStays(c, topo, net, net', m, had, had);
  }

  // ------------------------------------------------------------------ a copy reaches a relay

  /** What a copy does at a relay: a known one disappears, a new one is passed on. */
  lemma MoveShape(c: Suite, topo: Topology, net: Net, m: Parcel, s: Step) returns (out: Option<Flight>)
    requires Sized(c) && Inv(c, topo, net) && Allowed(net, s) && s.Receive?
    requires Heading(c, topo, net, m, s.f) && !Hosts(net, s.f.to, m.dest)
    ensures var net' := Apply(c, topo, net, s); var w := s.f.to;
            && w in net'.nodes && net'.nodes == net.nodes[w := net'.nodes[w]]
            && (out.None? ==>
                  && Seen(c, net.nodes[w].t, Decode(s.f.bytes).value, s.now)
                  && net'.nodes[w].t == MaybePrune(net.nodes[w].t, s.now) && net'.wire == net.wire - multiset{s.f})
            && (out.Some? ==>
                  && net'.nodes[w].t == Noted(c, net.nodes[w].t, Decode(s.f.bytes).value, s.now)
                  && net'.wire == net.wire - multiset{s.f} + multiset{out.value}
                  && SentBy(topo, net, m, w, out.value))
  {
    hide Encode, Exec, PassedOn, Inv, FindLocal, Noted, MaybePrune, Unexpired, Launch, Apply, Seen, Heading;
    HeadingIsData(c, topo, net, m, s.f);
    var p := Decode(s.f.bytes).value;
    var w := s.f.to;
    if Seen(c, net.nodes[w].t, p, s.now) {
      out := None;
      KnownDropped(c, topo, net, m, s);
    } else {
      ReceivedByRelay(c, topo, net, m, s.f, s.now, s.rng);
      PassedOnIsSent(c, topo, net, m, s.f);
      hide Decode, SentBy;
      var path := net.nodes[w].t.paths[m.dest];
      var e := topo[(w, path.iface)];
      var bytes := Encode(PassedOn(path, p.(hops := p.hops + 1)));
      out := Some(Flight(e.0, e.1, bytes));
      ApplyOne(c, topo, net, s, (path.iface, bytes));
    }
  }

  lemma KnownDropped(c: Suite, topo: Topology, net: Net, m: Parcel, s: Step)
    requires Allowed(net, s) && s.Receive? && Heading(c, topo, net, m, s.f)
    requires Seen(c, net.nodes[s.f.to].t, Decode(s.f.bytes).value, s.now)
    ensures var net' := Apply(c, topo, net, s); var w := s.f.to;
            && net'.nodes == net.nodes[w := net'.nodes[w]] && w in net'.nodes
            && net'.nodes[w].t == MaybePrune(net.nodes[w].t, s.now) && net'.wire == net.wire - multiset{s.f}
  {
    HeadingIsData(c, topo, net, m, s.f);
    hide Decode, Seen, MaybePrune, Dispatch, Noted, FindLocal, Unexpired, Route;
  }

  lemma SweepKeeps(c: Suite, t: Transport, p: Packet, now: nat)
    ensures MaybePrune(t, now).seenPackets.Keys <= t.seenPackets.Keys
    ensures Noted(c, t, p, now).seenPackets.Keys <= t.seenPackets.Keys + {PacketHash(c, p)}
    ensures Seen(c, t, p, now) ==> PacketHash(c, p) in t.seenPackets
  {
    hide PacketHash;
  }

  /** The nodes that saw the parcel, after a copy reached one. */
  lemma SeenAfterMove(c: Suite, a: Net, b: Net, m: Parcel, had: set<nat>, w: nat, p: Packet, now: nat)
    requires SeenBy(c, a, m, had) && w in a.nodes && w in b.nodes && b.nodes == a.nodes[w := b.nodes[w]]
    requires b.nodes[w].t == Noted(c, a.nodes[w].t, p, now) || b.nodes[w].t == MaybePrune(a.nodes[w].t, now)
    ensures SeenBy(c, b, m, had + {w})
  {
    hide Noted, MaybePrune, ParcelKey;
  }

  /** The relay's route is as it was. */
  lemma MoverRoutes(c: Suite, a: Net, b: Net, dest: Bytes, w: nat, p: Packet, now: nat)
    requires Routes(a, w, dest) && w in b.nodes
    requires b.nodes[w].t == Noted(c, a.nodes[w].t, p, now) || b.nodes[w].t == MaybePrune(a.nodes[w].t, now)
    ensures Routes(b, w, dest) && Hops(b, w, dest) == Hops(a, w, dest)
  {
    NotedShortens(c, a.nodes[w].t, p, now);
    hide Noted, FindLocal;
  }

  lemma RelayHasRoute(c: Suite, topo: Topology, net: Net, m: Parcel, g: Flight)
    requires Heading(c, topo, net, m, g) && !Hosts(net, g.to, m.dest)
    ensures Routes(net, g.to, m.dest) && Hops(net, g.to, m.dest) < Hops(net, Sender(topo, g), m.dest)
    ensures IsParcel(c, m, g.bytes) && PacketHash(c, Decode(g.bytes).value) == ParcelKey(c, m)
  {
    CarriesIsParcel(c, m, g.bytes);
    CarriedHash(c, Decode(g.bytes).value, m);
    hide Decode, FindLocal, IdentityHash, IsParcel, Sender, PacketHash, ParcelHash, Carries;
  }

  /** After a copy reached a relay that has had the parcel or is closest now, every copy is still heading closer. */
  lemma MoveUnder(c: Suite, topo: Topology, net: Net, m: Parcel, had: set<nat>, s: Step) returns (out: Option<Flight>)
    requires Sized(c) && Inv(c, topo, net) && KindStep(c, topo, net, m, had, s) && Moves(c, m, s)
    requires Under(c, topo, net, m, had) && !Hosts(net, s.f.to, m.dest)
    ensures var net' := Apply(c, topo, net, s); var w := s.f.to;
            && Heading(c, topo, net, m, s.f)
            && Routes(net, w, m.dest) && Routes(net', w, m.dest) && Hops(net', w, m.dest) == Hops(net, w, m.dest)
            && Under(c, topo, net', m, had + {w})
            && (forall g | g in net.wire && g != s.f :: g in net'.wire)
            && (w !in had ==> out.Some?)
            && (out.Some? ==> out.value in net'.wire && IsParcel(c, m, out.value.bytes) && Sender(topo, out.value) == w)
  {
    hide Apply, Untampered, Steady, Routes, Hops, Hosts, IsParcel, Sender, NetImproves, ParcelKey, Inv, InTime,
         Heading, Seen, Noted, MaybePrune, SentBy, PacketHash, Decode, Unexpired, FindLocal, IsAnnounce, Typed, HadRoute,
         SoleHost;
    var net' := Apply(c, topo, net, s);
    assert Heading(c, topo, net, m, s.f);
    HeadingIsData(c, topo, net, m, s.f);
    var w, p := s.f.to, Decode(s.f.bytes).value;
    out := MoveShape(c, topo, net, m, s);
    RelayHasRoute(c, topo, net, m, s.f);
    InNodes(net, m, w);
    SweepKeeps(c, net.nodes[w].t, p, s.now);
    SeenAfterMove(c, net, net', m, had, w, p, s.now);
    MoverRoutes(c, net, net', m.dest, w, p, s.now);
    StepImproves(c, topo, net, s);
    if out.Some? {
      NextStop(c, topo, net, m, w, out.value);
      HeadingStays(c, topo, net, net', m, out.value);
      HeadingIsParcel(c, topo, net, m, out.value);
    }
    RoutesAfter(net, net', m, had, w);
    UnderStays(c, topo, net, net', m, had, had + {w});
  }

  lemma InNodes(net: Net, m: Parcel, w: nat)
    requires Routes(net, w, m.dest)
    ensures w in net.nodes
  {
  }

  lemma HeadingIsParcel(c: Suite, topo: Topology, net: Net, m: Parcel, g: Flight)
    requires Heading(c, topo, net, m, g)
    ensures IsParcel(c, m, g.bytes)
  {
    CarriesIsParcel(c, m, g.bytes);
    hide Decode, IsParcel, Carries;
  }

  lemma RoutesAfter(a: Net, b: Net, m: Parcel, had: set<nat>, w: nat)
    requires NetImproves(a, b) && SoleHost(a, m.host, m.dest) && SoleHost(b, m.host, m.dest)
    requires HadRoute(a, m, had) && Routes(b, w, m.dest)
    ensures HadRoute(b, m, had + {w})
  {
    hide Routes, SoleHost, NetImproves, Hops, Steady;
    forall v | v in had ensures Routes(b, v, m.dest) {
      RouteStays(a, b, m, {}, v);
    }
  }

  /** The leading copy after a copy `f` reached relay `w`: the same one, or the one `w` sends on. */
  lemma LeadAfterMove(c: Suite, topo: Topology, a: Net, b: Net, m: Parcel, had: set<nat>, g: Flight, f: Flight, w: nat,
                      out: Option<Flight>) returns (g': Flight)
    requires NetImproves(a, b) && SoleHost(a, m.host, m.dest) && SoleHost(b, m.host, m.dest) && Steady(a, b, m, had)
    requires HadRoute(a, m, had) && Leads(c, topo, a, m, had, g) && g.to !in had && f.to == w
    requires Routes(a, w, m.dest) && Routes(b, w, m.dest) && Hops(b, w, m.dest) == Hops(a, w, m.dest)
    requires g == f ==> Hops(a, w, m.dest) < Hops(a, Sender(topo, g), m.dest)
    requires forall h | h in a.wire && h != f :: h in b.wire
    requires w !in had ==> out.Some?
    requires out.Some? ==> out.value in b.wire && IsParcel(c, m, out.value.bytes) && Sender(topo, out.value) == w
    ensures Leads(c, topo, b, m, had + {w}, g')
    ensures Hops(b, Sender(topo, g'), m.dest) <= Hops(a, Sender(topo, g), m.dest)
    ensures (forall v | v in had :: Routes(a, v, m.dest) && Hops(a, w, m.dest) < Hops(a, v, m.dest)) ==>
              Hops(b, Sender(topo, g'), m.dest) + 1 <= Hops(a, Sender(topo, g), m.dest)
  {
    hide Routes, Hops, SoleHost, Steady, NetImproves, IsParcel, Sender;
    ClosestStays(a, b, m, had, Sender(topo, g));
    if w !in had && Hops(a, w, m.dest) < Hops(a, Sender(topo, g), m.dest) {
      g' := out.value;
    } else {
      g' := g;
    }
  }

  // ------------------------------------------------------------------ one step

  lemma RelayStep(c: Suite, topo: Topology, net: Net, m: Parcel, had: set<nat>, g: Flight, s: Step) returns (g': Flight)
    requires Sized(c) && Inv(c, topo, net) && KindStep(c, topo, net, m, had, s) && Moves(c, m, s)
    requires Under(c, topo, net, m, had) && Leads(c, topo, net, m, had, g) && !Hosts(net, s.f.to, m.dest)
    ensures var net' := Apply(c, topo, net, s);
            && Under(c, topo, net', m, had + {s.f.to}) && Leads(c, topo, net', m, had + {s.f.to}, g')
            && Hops(net', Sender(topo, g'), m.dest) + Progress(Advances(c, net, m, had, s))
               <= Hops(net, Sender(topo, g), m.dest)
  {
    hide Apply, Untampered, Steady, SoleHost, Routes, Hops, Hosts, IsParcel, Sender, NetImproves, SeenBy, ParcelKey, Inv,
         InTime, Unexpired, Typed, IsAnnounce, CopiesHead, Heading, Closest;
    var net' := Apply(c, topo, net, s);
    LeadIsNew(c, topo, net, m, had, g);
    var out := MoveUnder(c, topo, net, m, had, s);
    RelayHasRoute(c, topo, net, m, s.f);
    StepImproves(c, topo, net, s);
    g' := LeadAfterMove(c, topo, net, net', m, had, g, s.f, s.f.to, out);
  }

  lemma HostStep(c: Suite, topo: Topology, net: Net, m: Parcel, had: set<nat>, s: Step)
    requires Allowed(net, s) && Moves(c, m, s) && SoleHost(net, m.host, m.dest) && Readable(c, net, m)
    requires Under(c, topo, net, m, had) && Hosts(net, s.f.to, m.dest)
    ensures Reports(c, net, m, s)
  {
    hide Exec, Heading, IsParcel, Readable, Sender, FindLocal, Decode, Seen, PacketHash, Unexpired, ParcelKey;
    assert Heading(c, topo, net, m, s.f);
    HeadingIsData(c, topo, net, m, s.f);
    var w, p := s.f.to, Decode(s.f.bytes).value;
    assert w !in had;
    HeadingKey(c, topo, net, m, s.f);
    UnseenPasses(c, net.nodes[w].t, p, s.now);
    ReceivedByHost(c, topo, net, m, s.f, s.now, s.rng);
  }

  lemma HeadingKey(c: Suite, topo: Topology, net: Net, m: Parcel, g: Flight)
    requires Heading(c, topo, net, m, g)
    ensures PacketHash(c, Decode(g.bytes).value) == ParcelKey(c, m)
  {
    CarriedHash(c, Decode(g.bytes).value, m);
    hide Decode, PacketHash, ParcelHash, Carries;
  }

  /** One kind step: the message is reported, or a copy still leads, and after an advance it is strictly closer. */
  lemma ParcelStep(c: Suite, topo: Topology, net: Net, m: Parcel, had: set<nat>, g: Flight, s: Step) returns (g': Flight)
    requires Sized(c) && Inv(c, topo, net) && KindStep(c, topo, net, m, had, s) && Readable(c, net, m)
    requires Under(c, topo, net, m, had) && Leads(c, topo, net, m, had, g)
    ensures var net' := Apply(c, topo, net, s);
            || Reports(c, net, m, s)
            || (&& Under(c, topo, net', m, HadAfter(c, m, had, s)) && Leads(c, topo, net', m, HadAfter(c, m, had, s), g')
                && Hops(net', Sender(topo, g'), m.dest) + Progress(Advances(c, net, m, had, s))
                   <= Hops(net, Sender(topo, g), m.dest))
  {
    hide Inv, Exec, Apply, Readable, SoleHost, Under, Leads, Reports, Hosts, Untampered, Hops, Sender, Allowed, Steady, IsParcel;
    g' := g;
    if !Moves(c, m, s) {
      ForeignKeeps(c, topo, net, m, had, g, s);
    } else if Hosts(net, s.f.to, m.dest) {
      HostStep(c, topo, net, m, had, s);
    } else {
      g' := RelayStep(c, topo, net, m, had, g, s);
    }
  }

  /** Delivering a leading copy is an advance, or the report. */
  lemma LeadingAdvances(c: Suite, topo: Topology, net: Net, m: Parcel, had: set<nat>, g: Flight, s: Step)
    requires Allowed(net, s) && SoleHost(net, m.host, m.dest) && Readable(c, net, m)
    requires Under(c, topo, net, m, had) && Leads(c, topo, net, m, had, g) && s.Receive? && s.f == g
    ensures Advances(c, net, m, had, s) || Reports(c, net, m, s)
  {
    hide Allowed, SoleHost, Readable, Reports, IsParcel, Sender, Routes, Hops, Hosts, Heading, SeenBy, ParcelKey;
    if Hosts(net, s.f.to, m.dest) {
      HostStep(c, topo, net, m, had, s);
    } else {
      RelayHasRoute(c, topo, net, m, g);
    }
  }

  // ------------------------------------------------------------------ over a run

  /** The nodes that had the parcel `x` sent before step `a`, at step `k`. */
  ghost function HadAt(c: Suite, m: Parcel, x: nat, steps: seq<Step>, a: nat, k: nat): set<nat>
    requires a <= k <= |steps|
    decreases k
  {
    if k == a then {x} else HadAfter(c, m, HadAt(c, m, x, steps, a, k - 1), steps[k - 1])
  }

  /** How often the parcel advanced between states `a` and `b`. */
  ghost function AdvanceCount(c: Suite, m: Parcel, x: nat, steps: seq<Step>, run: seq<Net>, a: nat, b: nat): nat
    requires a <= b <= |steps| < |run|
    decreases b
  {
    if a == b then 0 else
      AdvanceCount(c, m, x, steps, run, a, b - 1)
      + Progress(Advances(c, run[b - 1], m, HadAt(c, m, x, steps, a, b - 1), steps[b - 1]))
  }

  /** Between states `a` and `b`: one host; the parcel is neither forged nor sent again, and of no copy the last
      one is lost on its way to a node that has not had it; and no node that had it comes closer to the host.
      Everything else is free: other traffic, copies, reordering, announces, refreshed and shortened routes. */
  ghost predicate KindRun(c: Suite, topo: Topology, m: Parcel, x: nat, steps: seq<Step>, run: seq<Net>, a: nat, b: nat) {
    && a <= b <= |steps| < |run|
    && forall i | a <= i < b :: KindStep(c, topo, run[i], m, HadAt(c, m, x, steps, a, i), steps[i])
  }

  ghost predicate ReportedIn(c: Suite, m: Parcel, steps: seq<Step>, run: seq<Net>, a: nat, b: nat)
    requires b <= |steps| < |run|
  {
    exists i :: a <= i < b && Reports(c, run[i], m, steps[i])
  }

  /** Identities never change, so what the host could read it still can. */
  lemma StepReadable(c: Suite, topo: Topology, net: Net, s: Step, m: Parcel)
    requires Allowed(net, s) && Readable(c, net, m)
    ensures Readable(c, Apply(c, topo, net, s), m)
  {
    hide Apply, Decrypt, InTime, Unexpired, Typed, IsAnnounce;
    StepImproves(c, topo, net, s);
    assert Improves(net.nodes[m.host].t, Apply(c, topo, net, s).nodes[m.host].t);
  }

  lemma {:induction false} StillReadable(c: Suite, topo: Topology, start: Net, steps: seq<Step>, run: seq<Net>, m: Parcel,
                                         a: nat, k: nat)
    requires IsRun(c, topo, start, steps, run) && a <= k < |run| && Readable(c, run[a], m)
    ensures Readable(c, run[k], m)
    decreases k
  {
    if a < k {
      StillReadable(c, topo, start, steps, run, m, a, k - 1);
      StepReadable(c, topo, run[k - 1], steps[k - 1], m);
    }
    hide Apply, Readable, Allowed;
  }

  /** In state `b` every copy is heading closer, `f` was sent by a closest node, and the advances made and the hops
      left are at most the hops at the start. */
  ghost predicate UnderWay(c: Suite, topo: Topology, m: Parcel, x: nat, steps: seq<Step>, run: seq<Net>, a: nat, b: nat,
                           f: Flight)
    requires a <= b <= |steps| < |run| && Routes(run[a], x, m.dest)
  {
    var had := HadAt(c, m, x, steps, a, b);
    && Under(c, topo, run[b], m, had) && Leads(c, topo, run[b], m, had, f)
    && Hops(run[b], Sender(topo, f), m.dest) + AdvanceCount(c, m, x, steps, run, a, b) <= Hops(run[a], x, m.dest)
  }

  /** A parcel in flight is never dropped: until its host has reported it, a copy from a closest node is on the
      wire, and every advance brings it strictly closer. */
  lemma {:induction false} InFlightOrReported(c: Suite, topo: Topology, start: Net, steps: seq<Step>, run: seq<Net>,
                                              m: Parcel, x: nat, f0: Flight, a: nat, b: nat)
    returns (f: Flight)
    requires Sized(c) && PointToPoint(topo, start) && Fresh(start) && IsRun(c, topo, start, steps, run)
    requires KindRun(c, topo, m, x, steps, run, a, b) && Readable(c, run[a], m)
    requires Under(c, topo, run[a], m, {x}) && Leads(c, topo, run[a], m, {x}, f0)
    ensures ReportedIn(c, m, steps, run, a, b) || UnderWay(c, topo, m, x, steps, run, a, b, f)
    decreases b
  {
    hide Under, Reports, Advances, KindStep, Fresh, Apply, Hops, PointToPoint, InTime, Unexpired, Readable, Sender, HadAfter,
         IsParcel, Closest;
    f := f0;
    if a < b {
      f := InFlightOrReported(c, topo, start, steps, run, m, x, f0, a, b - 1);
      if !ReportedIn(c, m, steps, run, a, b - 1) {
        var had := HadAt(c, m, x, steps, a, b - 1);
        RoutesBacked(c, topo, start, steps, run, b - 1);
        StillReadable(c, topo, start, steps, run, m, a, b - 1);
        assert run[b] == Apply(c, topo, run[b - 1], steps[b - 1]);
        assert KindStep(c, topo, run[b - 1], m, had, steps[b - 1]);
        f := ParcelStep(c, topo, run[b - 1], m, had, f, steps[b - 1]);
      }
    }
  }

  // ------------------------------------------------------------------ sending

  /** No node has seen a packet with the parcel's hash, and none is in flight. */
  ghost predicate NeverSeen(c: Suite, net: Net, m: Parcel) {
    && (forall g | g in net.wire :: !IsParcel(c, m, g.bytes))
    && (forall y | y in net.nodes :: ParcelKey(c, m) !in net.nodes[y].t.seenPackets)
  }

  lemma SentByStays(topo: Topology, a: Net, b: Net, m: Parcel, x: nat, f: Flight)
    requires SentBy(topo, a, m, x, f) && x in b.nodes
    requires b.nodes[x].t.paths == a.nodes[x].t.paths && b.nodes[x].t.locals == a.nodes[x].t.locals
    ensures SentBy(topo, b, m, x, f) && Hops(b, x, m.dest) == Hops(a, x, m.dest)
  {
    hide Decode, FindLocal, Carries;
  }

  lemma OnlyCopy(c: Suite, topo: Topology, a: Net, b: Net, m: Parcel, x: nat, f: Flight)
    requires NeverSeen(c, a, m) && Heading(c, topo, b, m, f) && Sender(topo, f) == x && b.wire == a.wire + multiset{f}
    requires x in a.nodes && x in b.nodes && b.nodes == a.nodes[x := b.nodes[x]]
    requires b.nodes[x].t.seenPackets == a.nodes[x].t.seenPackets
    ensures Under(c, topo, b, m, {x}) && Leads(c, topo, b, m, {x}, f)
  {
    HeadingIsParcel(c, topo, b, m, f);
    hide IsParcel, ParcelKey, FindLocal, Decode, Carries, Takes, Sender;
  }

  /** A message sent on a learned path is in flight to a closer node, and the sender holds a receipt under the hash
      its host will prove. */
  lemma SendTracked(c: Suite, topo: Topology, net: Net, m: Parcel, x: nat, s: Step) returns (f: Flight)
    requires Sized(c) && Inv(c, topo, net) && Allowed(net, s) && Sends(c, net, m, x, s) && |m.dest| == 16
    requires NeverSeen(c, net, m)
    ensures var net' := Apply(c, topo, net, s);
            && Under(c, topo, net', m, {x}) && Leads(c, topo, net', m, {x}, f) && Sender(topo, f) == x
            && Hops(net', x, m.dest) == Hops(net, x, m.dest) <= MAX_HOPS
            && (s.call.receipt ==>
                  && ParcelHash(c, m) in net'.nodes[x].t.receipts
                  && net'.nodes[x].t.receipts[ParcelHash(c, m)]
                     == Receipt(net.nodes[x].t.paths[m.dest].public, s.call.now + RECEIPT_TIMEOUT))
  {
    hide Apply, Inv, SentBy, NeverSeen, Under, Leads, Sender, Hops, ParcelHash, InTime, Unexpired, IsAnnounce, Typed,
         Encrypt, Sized;
    f := SendApplied(c, topo, net, m, x, s);
    StepKeeps(c, topo, net, s);
    HopsBounded(c, topo, net, m.dest, x);
    SendLeads(c, topo, net, Apply(c, topo, net, s), m, x, f);
  }

  lemma SendLeads(c: Suite, topo: Topology, a: Net, b: Net, m: Parcel, x: nat, f: Flight)
    requires Inv(c, topo, b) && SentBy(topo, a, m, x, f) && NeverSeen(c, a, m) && b.wire == a.wire + multiset{f}
    requires x in a.nodes && x in b.nodes && b.nodes == a.nodes[x := b.nodes[x]]
    requires b.nodes[x].t.paths == a.nodes[x].t.paths && b.nodes[x].t.locals == a.nodes[x].t.locals
    requires b.nodes[x].t.seenPackets == a.nodes[x].t.seenPackets
    ensures Under(c, topo, b, m, {x}) && Leads(c, topo, b, m, {x}, f) && Sender(topo, f) == x
    ensures Hops(b, x, m.dest) == Hops(a, x, m.dest)
  {
    hide *;
    SentByStays(topo, a, b, m, x, f);
    NextStop(c, topo, b, m, x, f);
    OnlyCopy(c, topo, a, b, m, x, f);
  }

  // ------------------------------------------------------------------ the delivery theorem

  /** A fresh message sent on a learned path of `h` hops is reported by its host by its `h`-th advance, and no later
      than the last copy leaves the wire, over every run in which no last copy is lost and no node that had the
      message comes closer to its host meanwhile. */
  lemma MessageArrives(c: Suite, topo: Topology, start: Net, steps: seq<Step>, run: seq<Net>, m: Parcel, x: nat, a: nat,
                       b: nat)
    requires Lawful(c) && PointToPoint(topo, start) && Fresh(start) && IsRun(c, topo, start, steps, run)
    requires a < b <= |steps| && Sends(c, run[a], m, x, steps[a]) && |m.dest| == 16
    requires SoleHost(run[a], m.host, m.dest)
    requires NeverSeen(c, run[a], m) && KindRun(c, topo, m, x, steps, run, a + 1, b)
    ensures Hops(run[a], x, m.dest) <= MAX_HOPS
    ensures AdvanceCount(c, m, x, steps, run, a + 1, b) >= Hops(run[a], x, m.dest) ==> ReportedIn(c, m, steps, run, a + 1, b)
    ensures (forall g | g in run[b].wire :: !IsParcel(c, m, g.bytes)) ==> ReportedIn(c, m, steps, run, a + 1, b)
    ensures Routes(run[a + 1], x, m.dest) && Hops(run[a + 1], x, m.dest) == Hops(run[a], x, m.dest)
    ensures || ReportedIn(c, m, steps, run, a + 1, b)
            || exists f :: f in run[b].wire && UnderWay(c, topo, m, x, steps, run, a + 1, b, f)
  {
    hide Apply, Sends, NeverSeen, KindStep, Reports, Fresh, Readable, SoleHost, AdvanceCount, UnderWay, Under, Leads, Inv,
         Hops, IsParcel, Sender, Allowed, PointToPoint, ParcelHash;
    var f := SentInRun(c, topo, start, steps, run, m, x, a);
    var g := InFlightOrReported(c, topo, start, steps, run, m, x, f, a + 1, b);
    if !ReportedIn(c, m, steps, run, a + 1, b) {
      RoutesBacked(c, topo, start, steps, run, b);
      LeadLeft(c, topo, m, x, steps, run, a + 1, b, g);
    }
  }

  /** The state after the message was sent. */
  lemma SentInRun(c: Suite, topo: Topology, start: Net, steps: seq<Step>, run: seq<Net>, m: Parcel, x: nat, a: nat)
    returns (f: Flight)
    requires Lawful(c) && PointToPoint(topo, start) && Fresh(start) && IsRun(c, topo, start, steps, run)
    requires a < |steps| && Sends(c, run[a], m, x, steps[a]) && |m.dest| == 16
    requires SoleHost(run[a], m.host, m.dest) && NeverSeen(c, run[a], m)
    ensures Under(c, topo, run[a + 1], m, {x}) && Leads(c, topo, run[a + 1], m, {x}, f) && Sender(topo, f) == x
    ensures Routes(run[a + 1], x, m.dest) && Hops(run[a + 1], x, m.dest) == Hops(run[a], x, m.dest) <= MAX_HOPS
    ensures Readable(c, run[a + 1], m)
    ensures steps[a].call.receipt ==>
              && ParcelHash(c, m) in run[a + 1].nodes[x].t.receipts
              && run[a + 1].nodes[x].t.receipts[ParcelHash(c, m)]
                 == Receipt(run[a].nodes[x].t.paths[m.dest].public, steps[a].call.now + RECEIPT_TIMEOUT)
  {
    hide Apply, NeverSeen, Fresh, Readable, SoleHost, CopiesHead, SeenBy, Leads, Inv, Hops, Routes, Sender, PointToPoint,
         ParcelHash, InTime, Unexpired, IsAnnounce, Typed, Encrypt;
    assert Allowed(run[a], steps[a]) && run[a + 1] == Apply(c, topo, run[a], steps[a]);
    RoutesBacked(c, topo, start, steps, run, a);
    f := SendTracked(c, topo, run[a], m, x, steps[a]);
    SentParcelReadable(c, topo, start, steps, run, m, x, a);
    StillReadable(c, topo, start, steps, run, m, a, a + 1);
  }

  lemma LeadLeft(c: Suite, topo: Topology, m: Parcel, x: nat, steps: seq<Step>, run: seq<Net>, a: nat, b: nat, f: Flight)
    requires a <= b <= |steps| < |run| && Routes(run[a], x, m.dest)
    requires Inv(c, topo, run[b]) && UnderWay(c, topo, m, x, steps, run, a, b, f)
    ensures f in run[b].wire && IsParcel(c, m, f.bytes)
    ensures AdvanceCount(c, m, x, steps, run, a, b) < Hops(run[a], x, m.dest)
  {
    hide AdvanceCount, HadAt, Under, Sender, IsParcel;
    var y := NextHop(c, topo, run[b], m.dest, Sender(topo, f));
  }
}
