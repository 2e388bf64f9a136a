/** Every key a node learns for a destination is the key of a node that hosts it. */
module Authenticity {
  import opened Base
  import opened Crypto
  import opened Packets
  import opened PathTables
  import opened Transports
  import opened Nodes
  import opened Links
  import opened Network
  import opened LoopFreedom
  import Announces
  import Discovery

  /** The public key at the head of an announce payload. */
  function KeyOf(data: Bytes): Bytes {
    if |data| >= 64 then data[..64] else data
  }

  predicate SingleHost(t: Transport, dest: Bytes) {
    FindSingle(t.locals, dest).Some?
  }

  /** The destination keys a node may assert: pairs of destination and public key. */
  type Keys = iset<(Bytes, Bytes)>

  ghost predicate CacheFrom(t: Transport, keys: Keys) {
    forall d | d in t.cached :: (d, KeyOf(t.cached[d].data)) in keys
  }

  ghost predicate PathsFrom(t: Transport, keys: Keys) {
    forall d | d in t.paths :: (d, t.paths[d].public) in keys
  }

  ghost predicate OwnFrom(c: Suite, t: Transport, keys: Keys) {
    forall d | SingleHost(t, d) :: (d, Public(c, t.identity)) in keys
  }

  /** The pair a packet asserts. */
  function Asserted(p: Packet): (Bytes, Bytes) {
    (p.dest, KeyOf(p.data))
  }

  ghost predicate EmitsFrom(out: seq<(nat, Bytes)>, keys: Keys) {
    forall o | o in out && IsAnnounce(o.1) :: Asserted(Decode(o.1).value) in keys
  }

  ghost predicate KnowsFrom(t: Transport, keys: Keys) {
    CacheFrom(t, keys) && PathsFrom(t, keys)
  }

  lemma ParsedKey(p: Packet)
    requires Announces.Parse(p.data, p.contextFlag).Ok?
    ensures Announces.Parse(p.data, p.contextFlag).value.public == KeyOf(p.data)
  {
  }

  lemma BroadcastFrom(c: Suite, t: Transport, p: Packet, iface: nat, keys: Keys)
    requires Sized(c) && WellFormed(p) && Asserted(p) in keys
    ensures EmitsFrom(Broadcast(t.interfaces, Some(iface), Encode(Relayed(c, t, p))), keys)
  {
    hide Encode, Decode, IsAnnounce, Broadcast, IdentityHash;
    HashSize(c, t.identity);
    DecodeEncode(Relayed(c, t, p));
  }

  lemma AnnounceFrom(c: Suite, t: Transport, p: Packet, iface: nat, now: nat, keys: Keys)
    requires Sized(c) && WellFormed(p) && KnowsFrom(t, keys) && Asserted(p) in keys
    ensures var e := HandleAnnounce(c, t, p, iface, now);
            KnowsFrom(e.st, keys) && EmitsFrom(e.out, keys)
  {
    hide HandleAnnounce, Encode, Announces.Parse, Announces.Verified, Announces.Timestamp, FindLocal, EmitsFrom, Broadcast,
         Relayed, KeyOf, Prefers;
    Discovery.BindsExactly(c, t, p, iface, now);
    BroadcastFrom(c, t, p, iface, keys);
    assert EmitsFrom([], keys) by { NothingFrom(keys); }
    if Discovery.Binds(c, t, p, iface, now) {
      ParsedKey(p);
    }
  }

  lemma NothingFrom(keys: Keys)
    ensures EmitsFrom([], keys)
  {
  }

  lemma RequestFrom(c: Suite, t: Transport, p: Packet, iface: nat, now: nat, keys: Keys)
    requires Sized(c) && KnowsFrom(t, keys) && CacheOk(t)
    ensures var e := HandlePathRequest(c, t, p, iface, now);
            KnowsFrom(e.st, keys) && EmitsFrom(e.out, keys)
  {
    hide Encode, Decode, FindLocal, IsAnnounce, IdentityHash;
    var e := HandlePathRequest(c, t, p, iface, now);
    if e.out != [] {
      var target := p.data[..16];
      HashSize(c, t.identity);
      DecodeEncode(PathResponse(c, t, target, t.cached[target]));
    }
  }

  lemma OwnAnnounceFrom(c: Suite, t: Transport, dest: Bytes, app: Bytes, random: Bytes, iface: nat, keys: Keys)
    requires Sized(c) && |dest| == 16 && KnowsFrom(t, keys) && OwnFrom(c, t, keys)
    ensures var e := SendAnnounce(c, t, dest, app, random, iface);
            KnowsFrom(e.st, keys) && EmitsFrom(e.out, keys)
  {
    hide Encode, Decode, FindSingle, IsAnnounce;
    var local := FindSingle(t.locals, dest);
    if local.Some? {
      PublicHalves(c, t.identity);
      var a := Announces.Build(c, t.identity, dest, local.value.name, random, app);
      assert KeyOf(Announces.Payload(a)) == Public(c, t.identity);
      DecodeEncode(Header1(SINGLE, ANNOUNCE, dest, NO_CONTEXT, Announces.Payload(a)));
      assert SingleHost(t, dest);
    }
  }

  lemma DispatchFrom(c: Suite, n: Node, p: Packet, iface: nat, now: nat, rng: Option<Entropy>, keys: Keys)
    requires Sized(c) && WellFormed(p) && CacheOk(n.t) && Unexpired(n.t, now) && KnowsFrom(n.t, keys)
    requires p.packetType == ANNOUNCE ==> Asserted(p) in keys
    ensures var e := Dispatch(c, n, p, iface, now, rng);
            KnowsFrom(e.st.t, keys) && EmitsFrom(e.out, keys)
  {
    hide HandleAnnounce, HandlePathRequest, HandleData, HandleLink, HandleRequest, HandleLinkProof, HandleProof;
    hide IsAnnounce, Decode, Asserted, CacheOk;
    if Route(c, p) == ToPathRequest {
      RequestFrom(c, n.t, p, iface, now, keys);
    } else if Route(c, p) == ToAnnounce {
      AnnounceFrom(c, n.t, p, iface, now, keys);
    } else {
      OthersEmit(c, n, p, iface, now, rng);
      hide Dispatch;
    }
  }

  /** Whatever a call caches, learns or emits asserts a key the node had reason to assert. */
  lemma ExecFrom(c: Suite, n: Node, call: Call, keys: Keys)
    requires Sized(c) && Typed(call) && InTime(n, call) && CacheOk(n.t)
    requires KnowsFrom(n.t, keys) && OwnFrom(c, n.t, keys)
    requires call.Inbound? && IsAnnounce(call.bytes) ==> Asserted(Decode(call.bytes).value) in keys
    ensures var e := Exec(c, n, call);
            KnowsFrom(e.st.t, keys) && EmitsFrom(e.out, keys)
  {
    hide Dispatch, SendAnnounce, Encode, Decode, CacheOk, Noted, MaybePrune, Seen, OwnFrom;
    if call.Inbound? {
      if Heard(call).Some? {
        var p := Decode(call.bytes).value;
        NotedShortens(c, n.t, p, call.now);
        NotedCache(c, n.t, p, call.now);
        EncodeDecode(call.bytes);
        if !Seen(c, n.t, p, call.now) {
          DispatchFrom(c, n.(t := Noted(c, n.t, p, call.now)), p.(hops := p.hops + 1), call.iface, call.now, call.rng, keys);
        }
      }
    } else if call.Announce? {
      OwnAnnounceFrom(c, n.t, call.dest, call.appData, call.random, call.iface, keys);
    } else {
      CallEmits(c, n, call);
      hide Exec;
    }
  }

  lemma NotedCache(c: Suite, t: Transport, p: Packet, now: nat)
    ensures Noted(c, t, p, now).cached == t.cached && MaybePrune(t, now).cached == t.cached
    ensures MaybePrune(t, now).paths == t.paths
    ensures CacheOk(t) ==> CacheOk(Noted(c, t, p, now))
  {
    hide Expire, PacketHash;
  }

  // ------------------------------------------------------------------ over the network

  /** Some node hosts `dest` as a SINGLE destination and owns this key. */
  ghost predicate Genuine(c: Suite, net: Net, dest: Bytes, key: Bytes) {
    exists y :: y in net.nodes && SingleHost(net.nodes[y].t, dest) && key == Public(c, net.nodes[y].t.identity)
  }

  ghost function GenuineKeys(c: Suite, net: Net): Keys {
    iset d, k | Genuine(c, net, d, k) :: (d, k)
  }

  ghost predicate Auth(c: Suite, net: Net) {
    && (forall x | x in net.nodes :: KnowsFrom(net.nodes[x].t, GenuineKeys(c, net)))
    && (forall f | f in net.wire && IsAnnounce(f.bytes) :: Asserted(Decode(f.bytes).value) in GenuineKeys(c, net))
  }

  lemma {:induction false} MoreSingles(locals: seq<Local>, l: Local, dest: Bytes)
    requires FindSingle(locals, dest).Some?
    ensures FindSingle(locals + [l], dest).Some?
  {
    if !(locals[0].dest == dest && locals[0].kind.Single?) {
      MoreSingles(locals[1..], l, dest);
      assert (locals + [l])[1..] == locals[1..] + [l];
    }
  }

  lemma {:induction false} SameSingles(locals: seq<Local>, d: Bytes, prove: bool, dest: Bytes)
    ensures FindSingle(SetProving(locals, d, prove), dest).Some? == FindSingle(locals, dest).Some?
  {
    if locals != [] {
      SameSingles(locals[1..], d, prove, dest);
    }
  }

  lemma LocalsOnlyGrow(c: Suite, n: Node, call: Call, dest: Bytes)
    requires InTime(n, call) && SingleHost(n.t, dest)
    ensures SingleHost(Exec(c, n, call).st.t, dest)
  {
    hide HandleInbound, SendMessage, StartLink, SendAnnounce, Links.Tick, FindSingle, SetProving;
    match call
    case Inbound(bytes, iface, now, rng) => InboundShortens(c, n, bytes, iface, now, rng);
    case Register(l) => MoreSingles(n.t.locals, l, dest);
    case SetProve(d, prove) => SameSingles(n.t.locals, d, prove, dest);
    case Announce(d, app, random, iface) =>
      assert SendAnnounce(c, n.t, d, app, random, iface).st.locals == n.t.locals by {
        SendAnnounceLocals(c, n.t, d, app, random, iface);
      }
    case SendTo(d, m, eph, iv, receipt, now) => SendKeeps(c, n.t, d, m, eph, iv, receipt, now);
    case EstablishLink(d, xprv, eprv, now) => StartLinkLocals(c, n, d, xprv, eprv, now);
    case _ =>
  }

  lemma SendAnnounceLocals(c: Suite, t: Transport, dest: Bytes, app: Bytes, random: Bytes, iface: nat)
    ensures SendAnnounce(c, t, dest, app, random, iface).st.locals == t.locals
  {
    hide Encode;
  }

  lemma StartLinkLocals(c: Suite, n: Node, dest: Bytes, xprv: Bytes, eprv: Bytes, now: nat)
    ensures StartLink(c, n, dest, xprv, eprv, now).st.t.locals == n.t.locals
  {
    hide Encode, Establish;
  }

  lemma GenuineStays(c: Suite, a: Net, b: Net, x: nat, call: Call, dest: Bytes, key: Bytes)
    requires x in a.nodes && InTime(a.nodes[x], call) && call != EnableTransport(false)
    requires b.nodes == a.nodes[x := Exec(c, a.nodes[x], call).st]
    requires Genuine(c, a, dest, key)
    ensures Genuine(c, b, dest, key)
  {
    var y :| y in a.nodes && SingleHost(a.nodes[y].t, dest) && key == Public(c, a.nodes[y].t.identity);
    if y == x {
      LocalsOnlyGrow(c, a.nodes[x], call, dest);
      ExecImproves(c, a.nodes[x], call);
    }
    hide Exec;
    assert y in b.nodes && SingleHost(b.nodes[y].t, dest) && key == Public(c, b.nodes[y].t.identity);
  }

  lemma KnowsMore(t: Transport, a: Keys, b: Keys)
    requires KnowsFrom(t, a) && a <= b
    ensures KnowsFrom(t, b)
  {
  }

  lemma OwnIsGenuine(c: Suite, net: Net, x: nat)
    requires x in net.nodes
    ensures OwnFrom(c, net.nodes[x].t, GenuineKeys(c, net))
  {
  }

  lemma CallKeepsAuth(c: Suite, topo: Topology, net: Net, s: Step)
    requires Sized(c) && Inv(c, topo, net) && Auth(c, net) && Allowed(net, s) && (s.Do? || s.Receive?)
    ensures var n := net.nodes[NodeOf(s)]; var e := Exec(c, n, CallOf(s));
            KnowsFrom(e.st.t, GenuineKeys(c, net)) && EmitsFrom(e.out, GenuineKeys(c, net))
  {
    assert NodeOk(c, topo, net, NodeOf(s));
    OwnIsGenuine(c, net, NodeOf(s));
    hide Exec, KnowsFrom, OwnFrom, GenuineKeys, EmitsFrom, CacheOk, Backed, FlightOk;
    ExecFrom(c, net.nodes[NodeOf(s)], CallOf(s), GenuineKeys(c, net));
  }

  lemma MoreGenuine(c: Suite, a: Net, b: Net, x: nat, call: Call)
    requires x in a.nodes && InTime(a.nodes[x], call) && call != EnableTransport(false)
    requires b.nodes == a.nodes[x := Exec(c, a.nodes[x], call).st]
    ensures GenuineKeys(c, a) <= GenuineKeys(c, b)
  {
    hide Exec, Genuine, InTime;
    forall d, k | Genuine(c, a, d, k) ensures Genuine(c, b, d, k) {
      GenuineStays(c, a, b, x, call, d, k);
    }
  }

  lemma NodeStepKeepsAuth(c: Suite, topo: Topology, net: Net, s: Step)
    requires Sized(c) && Inv(c, topo, net) && Auth(c, net) && Allowed(net, s) && (s.Do? || s.Receive?)
    ensures Auth(c, Apply(c, topo, net, s))
  {
    hide Exec, KnowsFrom, GenuineKeys, Asserted, Decode, InTime, Inv, Unexpired, Typed;
    var net' := Apply(c, topo, net, s);
    CallInTime(net, s);
    CallKeepsAuth(c, topo, net, s);
    MoreGenuine(c, net, net', NodeOf(s), CallOf(s));
    forall y | y in net'.nodes ensures KnowsFrom(net'.nodes[y].t, GenuineKeys(c, net')) {
      KnowsMore(net'.nodes[y].t, GenuineKeys(c, net), GenuineKeys(c, net'));
    }
  }

  lemma StepKeepsAuth(c: Suite, topo: Topology, net: Net, s: Step)
    requires Sized(c) && Inv(c, topo, net) && Auth(c, net) && Allowed(net, s)
    ensures Auth(c, Apply(c, topo, net, s))
  {
    hide Exec, KnowsFrom, Asserted, Decode, InTime, Inv, Unexpired, Typed, IsAnnounce;
    if s.Do? || s.Receive? {
      NodeStepKeepsAuth(c, topo, net, s);
    } else {
      var net' := Apply(c, topo, net, s);
      assert net'.nodes == net.nodes;
      assert GenuineKeys(c, net') == GenuineKeys(c, net);
    }
  }

  /** In every reachable state every learned key is the key of a node hosting the destination. */
  lemma {:induction false} KeysGenuine(c: Suite, topo: Topology, start: Net, steps: seq<Step>, run: seq<Net>, k: nat)
    requires Sized(c) && PointToPoint(topo, start) && Fresh(start)
    requires IsRun(c, topo, start, steps, run) && k < |run|
    ensures Inv(c, topo, run[k]) && Auth(c, run[k])
  {
    RoutesBacked(c, topo, start, steps, run, k);
    if k > 0 {
      KeysGenuine(c, topo, start, steps, run, k - 1);
      StepKeepsAuth(c, topo, run[k - 1], steps[k - 1]);
    }
  }
}
