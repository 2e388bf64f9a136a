/** How far one announce spreads: each relay passes it on at most once, and the flood ends. */
module Flood {
  import opened Base
  import opened Crypto
  import opened Packets
  import opened PathTables
  import opened Transports
  import opened Links
  import opened Nodes
  import opened Network
  import LoopFreedom
  import Announces

  /** What identifies one announce: its destination and its random hash. */
  type Key = (Bytes, Bytes)

  /** The node passes on the announce with this key in this call. */
  predicate Relays(c: Suite, n: Node, call: Call, key: Key) {
    && call.Inbound? && Admitted(c, n, call.bytes, call.now)
    && var p := AdmittedPacket(c, n, call.bytes, call.now);
    && Route(c, p) == ToAnnounce && Announces.Parse(p.data, p.contextFlag).Ok?
    && key == (p.dest, Announces.Parse(p.data, p.contextFlag).value.random)
    && HandleInbound(c, n, call.bytes, call.iface, call.now, call.rng).out != []
  }

  ghost predicate Distinct(s: seq<nat>) {
    forall i, j | 0 <= i < j < |s| :: s[i] != s[j]
  }

  /** Nothing remembered expires before `until`. */
  ghost predicate Remembers(t: Transport, until: nat) {
    forall k | k in t.seenAnnounces :: t.seenAnnounces[k] >= until
  }

  /** The clock reading is within one path expiry before `until`. */
  predicate Within(call: Call, until: nat) {
    call.Inbound? ==> call.now < until <= call.now + PATH_EXPIRY
  }

  lemma SweepForgetsNothing(c: Suite, t: Transport, p: Packet, now: nat, until: nat)
    requires Remembers(t, until) && now < until
    ensures MaybePrune(t, now).seenAnnounces == t.seenAnnounces
    ensures Noted(c, t, p, now).seenAnnounces == t.seenAnnounces && Noted(c, t, p, now).interfaces == t.interfaces
    ensures MaybePrune(t, now).interfaces == t.interfaces
  {
    hide PacketHash;
  }

  /** Copies of a broadcast go to different interfaces. */
  lemma {:induction false} BroadcastOnce(interfaces: seq<nat>, skip: Option<nat>, bytes: Bytes)
    requires Distinct(interfaces)
    ensures var out := Broadcast(interfaces, skip, bytes);
            |out| <= |interfaces| && forall i, j | 0 <= i < j < |out| :: out[i].0 != out[j].0
  {
    if interfaces != [] {
      BroadcastOnce(interfaces[1..], skip, bytes);
      var rest := Broadcast(interfaces[1..], skip, bytes);
      assert interfaces[0] !in interfaces[1..];
      forall k | 0 <= k < |rest| ensures rest[k].0 != interfaces[0] {
        assert rest[k] in rest;
      }
    }
  }

  /** At most one copy per registered interface, none on the arriving one, hops within 1..127. */
  ghost predicate ModestRelay(interfaces: seq<nat>, iface: nat, out: seq<(nat, Bytes)>) {
    && |out| <= |interfaces|
    && (forall i, j | 0 <= i < j < |out| :: out[i].0 != out[j].0)
    && (forall o | o in out :: o.0 in interfaces && o.0 != iface && Decode(o.1).Ok? && 1 <= Decode(o.1).value.hops < MAX_HOPS)
  }

  /** What an announce heard at `now` leaves remembered. */
  ghost predicate Adds(a: Transport, b: Transport, now: nat) {
    && (forall k | k in a.seenAnnounces :: k in b.seenAnnounces && b.seenAnnounces[k] == a.seenAnnounces[k])
    && (forall k | k in b.seenAnnounces && k !in a.seenAnnounces :: b.seenAnnounces[k] == now + PATH_EXPIRY)
  }

  /** The announce gets as far as being remembered. */
  predicate IsNews(c: Suite, t: Transport, p: Packet) {
    && !IsLocal(t, p.dest) && Announces.Parse(p.data, p.contextFlag).Ok?
    && Announces.Verified(c, Announces.Parse(p.data, p.contextFlag).value, p.dest)
    && (p.dest, Announces.Parse(p.data, p.contextFlag).value.random) !in t.seenAnnounces
  }

  lemma NewsSeen(c: Suite, t: Transport, p: Packet, iface: nat, now: nat)
    requires IsNews(c, t, p)
    ensures var e := HandleAnnounce(c, t, p, iface, now);
            var key := (p.dest, Announces.Parse(p.data, p.contextFlag).value.random);
            e.st.interfaces == t.interfaces && e.st.seenAnnounces == t.seenAnnounces[key := now + PATH_EXPIRY]
  {
    hide Encode, Announces.Parse, Announces.Verified, EntryOf, FindLocal, Broadcast, Relayed, Prefers;
  }

  lemma OldSeen(c: Suite, t: Transport, p: Packet, iface: nat, now: nat)
    requires !IsNews(c, t, p)
    ensures HandleAnnounce(c, t, p, iface, now).st == t
  {
    hide Encode, Announces.Parse, Announces.Verified, EntryOf, FindLocal, Broadcast, Relayed, Prefers;
  }

  lemma AnnounceAdds(c: Suite, t: Transport, p: Packet, iface: nat, now: nat)
    ensures var e := HandleAnnounce(c, t, p, iface, now);
            e.st.interfaces == t.interfaces && Adds(t, e.st, now)
  {
    hide HandleAnnounce, Announces.Parse, Announces.Verified, FindLocal;
    if IsNews(c, t, p) {
      NewsSeen(c, t, p, iface, now);
    } else {
      OldSeen(c, t, p, iface, now);
    }
  }

  lemma AnnounceNew(c: Suite, t: Transport, p: Packet, iface: nat, now: nat)
    requires HandleAnnounce(c, t, p, iface, now).out != []
    ensures Announces.Parse(p.data, p.contextFlag).Ok?
    ensures var key := (p.dest, Announces.Parse(p.data, p.contextFlag).value.random);
            key !in t.seenAnnounces && key in HandleAnnounce(c, t, p, iface, now).st.seenAnnounces
  {
    hide Encode, Announces.Parse, Announces.Verified, EntryOf, FindLocal, Broadcast, Relayed, Prefers;
  }

  lemma AnnounceModest(c: Suite, t: Transport, p: Packet, iface: nat, now: nat)
    requires Sized(c) && WellFormed(p) && p.hops > 0 && Distinct(t.interfaces)
    ensures HandleAnnounce(c, t, p, iface, now).out != [] ==>
              ModestRelay(t.interfaces, iface, HandleAnnounce(c, t, p, iface, now).out)
  {
    hide Encode, Decode, Announces.Parse, Announces.Verified, EntryOf, FindLocal, Broadcast, IdentityHash;
    LoopFreedom.HashSize(c, t.identity);
    DecodeEncode(Relayed(c, t, p));
    BroadcastOnce(t.interfaces, Some(iface), Encode(Relayed(c, t, p)));
  }

  /** The other handlers leave what is remembered, and the interfaces, alone. */
  lemma OthersRemember(c: Suite, n: Node, p: Packet, iface: nat, now: nat, rng: Option<Entropy>)
    requires Route(c, p) != ToAnnounce
    ensures var e := Dispatch(c, n, p, iface, now, rng);
            e.st.t.seenAnnounces == n.t.seenAnnounces && e.st.t.interfaces == n.t.interfaces
  {
    DataRemembers(c, n.t, p, iface, now);
    LinkRemembers(c, n, p, iface, now);
    RequestRemembers(c, n.t, p, iface, now);
    hide Route, HandleAnnounce, HandleData, HandleLink, HandleRequest, HandleLinkProof, HandlePathRequest, ProofValid;
  }

  lemma DataRemembers(c: Suite, t: Transport, p: Packet, iface: nat, now: nat)
    ensures var e := HandleData(c, t, p, iface, now);
            e.st.seenAnnounces == t.seenAnnounces && e.st.interfaces == t.interfaces
  {
    hide Encode, FindLocal, IdentityHash, Decrypt, Deliver, Forward;
    ForwardRemembers(t, p, iface, now);
    forall result: Result<Bytes>, prove: bool
      ensures Deliver(c, t, p, iface, result, prove).st == t
    {
      DeliverRemembers(c, t, p, iface, result, prove);
    }
  }

  lemma ForwardRemembers(t: Transport, p: Packet, iface: nat, now: nat)
    ensures var e := Forward(t, p, iface, now);
            e.st.seenAnnounces == t.seenAnnounces && e.st.interfaces == t.interfaces
  {
    hide Encode, Pruned, Direct;
  }

  lemma DeliverRemembers(c: Suite, t: Transport, p: Packet, iface: nat, result: Result<Bytes>, prove: bool)
    ensures Deliver(c, t, p, iface, result, prove).st == t
  {
    hide Encode, ProofPacket, FullPacketHash;
  }

  lemma LinkRemembers(c: Suite, n: Node, p: Packet, iface: nat, now: nat)
    ensures var e := HandleLink(c, n, p, iface, now);
            e.st.t.seenAnnounces == n.t.seenAnnounces && e.st.t.interfaces == n.t.interfaces
  {
    hide HandleLinkData, AsksClose, Links.Tick, Links.Close;
  }

  lemma RequestRemembers(c: Suite, t: Transport, p: Packet, iface: nat, now: nat)
    ensures var e := HandlePathRequest(c, t, p, iface, now);
            e.st.seenAnnounces == t.seenAnnounces && e.st.interfaces == t.interfaces
  {
    hide Encode, FindLocal, PathResponse, IsLocal;
  }

  /** What one call does to what a node remembers. */
  ghost predicate RemembersMore(c: Suite, n: Node, call: Call, until: nat) {
    var e := Exec(c, n, call);
    && Distinct(e.st.t.interfaces) && Remembers(e.st.t, until)
    && n.t.seenAnnounces.Keys <= e.st.t.seenAnnounces.Keys
    && forall key | Relays(c, n, call, key) ::
         key !in n.t.seenAnnounces && key in e.st.t.seenAnnounces && ModestRelay(n.t.interfaces, call.iface, e.out)
  }

  lemma DispatchOnce(c: Suite, n: Node, p: Packet, iface: nat, now: nat, rng: Option<Entropy>)
    requires Sized(c) && WellFormed(p) && p.hops > 0 && Distinct(n.t.interfaces)
    ensures var e := Dispatch(c, n, p, iface, now, rng);
            && e.st.t.interfaces == n.t.interfaces && Adds(n.t, e.st.t, now)
            && (Route(c, p) == ToAnnounce && e.out != [] ==>
                  && Announces.Parse(p.data, p.contextFlag).Ok?
                  && var key := (p.dest, Announces.Parse(p.data, p.contextFlag).value.random);
                  key !in n.t.seenAnnounces && key in e.st.t.seenAnnounces && ModestRelay(n.t.interfaces, iface, e.out))
  {
    if Route(c, p) == ToAnnounce {
      AnnounceAdds(c, n.t, p, iface, now);
      if HandleAnnounce(c, n.t, p, iface, now).out != [] {
        AnnounceNew(c, n.t, p, iface, now);
      }
      AnnounceModest(c, n.t, p, iface, now);
    } else {
      OthersRemember(c, n, p, iface, now, rng);
      hide Dispatch;
    }
    hide HandleAnnounce, Route, ModestRelay, Announces.Parse;
  }

  lemma AddsRemember(a: Transport, b: Transport, now: nat, until: nat)
    requires Adds(a, b, now) && Remembers(a, until) && until <= now + PATH_EXPIRY
    ensures Remembers(b, until) && a.seenAnnounces.Keys <= b.seenAnnounces.Keys
  {
  }

  lemma InboundOnce(c: Suite, n: Node, call: Call, until: nat)
    requires Sized(c) && call.Inbound? && Within(call, until) && Distinct(n.t.interfaces) && Remembers(n.t, until)
    ensures RemembersMore(c, n, call, until)
  {
    InboundCases(c, n, call.bytes, call.iface, call.now, call.rng);
    var heard := if Decode(call.bytes).Ok? then Decode(call.bytes).value else Header1(0, 0, [], 0, []);
    SweepForgetsNothing(c, n.t, heard, call.now, until);
    if Admitted(c, n, call.bytes, call.now) {
      EncodeDecode(call.bytes);
      var n', p := AdmittedNode(c, n, call.bytes, call.now), AdmittedPacket(c, n, call.bytes, call.now);
      hide HandleInbound, Dispatch, Noted, Seen, Decode, Route, ModestRelay, MaybePrune, Adds, Announces.Parse;
      DispatchOnce(c, n', p, call.iface, call.now, call.rng);
      AddsRemember(n'.t, Exec(c, n, call).st.t, call.now, until);
    }
    hide HandleInbound, Dispatch, Noted, Seen, Decode, Route, ModestRelay, MaybePrune;
  }

  lemma {:induction false} WithoutDistinct(s: seq<nat>, i: nat)
    requires Distinct(s)
    ensures Distinct(Without(s, i)) && forall x | x in Without(s, i) :: x in s
  {
    if s != [] {
      WithoutDistinct(s[1..], i);
      assert s[0] !in s[1..];
    }
  }

  lemma CallKeepsSeen(c: Suite, n: Node, call: Call)
    requires !call.Inbound?
    ensures var e := Exec(c, n, call);
            && e.st.t.seenAnnounces == n.t.seenAnnounces
            && (!call.RegisterInterface? && !call.UnregisterInterface? ==> e.st.t.interfaces == n.t.interfaces)
  {
    hide Encode, FindSingle, Establish, Links.Send, Links.Tick, SetProving, LinkIdOf, MessagePacket, HandleInbound, Pruned;
  }

  lemma CallOnce(c: Suite, n: Node, call: Call, until: nat)
    requires !call.Inbound? && Distinct(n.t.interfaces) && Remembers(n.t, until)
    ensures RemembersMore(c, n, call, until)
  {
    CallKeepsSeen(c, n, call);
    if call.UnregisterInterface? {
      WithoutDistinct(n.t.interfaces, call.iface);
    } else if !call.RegisterInterface? {
      hide Exec;
    }
    hide ModestRelay, HandleInbound;
  }

  lemma ExecOnce(c: Suite, n: Node, call: Call, until: nat)
    requires Sized(c) && Within(call, until) && Distinct(n.t.interfaces) && Remembers(n.t, until)
    ensures RemembersMore(c, n, call, until)
  {
    if call.Inbound? {
      InboundOnce(c, n, call, until);
    } else {
      CallOnce(c, n, call, until);
    }
    hide RemembersMore;
  }

  // ------------------------------------------------------------------ one node over a run

  function RelayCount(c: Suite, n: Node, calls: seq<Call>, key: Key): nat {
    if calls == [] then 0 else
      var k := |calls| - 1;
      RelayCount(c, n, calls[..k], key) + if Relays(c, Run(c, n, calls[..k]), calls[k], key) then 1 else 0
  }

  /** In any run shorter than the path expiry a node passes on one announce at most once. */
  lemma {:induction false} RelayedAtMostOnce(c: Suite, n: Node, calls: seq<Call>, key: Key, until: nat)
    requires Sized(c) && Distinct(n.t.interfaces) && Remembers(n.t, until)
    requires forall i | 0 <= i < |calls| :: Within(calls[i], until)
    ensures var end := Run(c, n, calls);
            && Distinct(end.t.interfaces) && Remembers(end.t, until)
            && RelayCount(c, n, calls, key) <= 1
            && (RelayCount(c, n, calls, key) == 1 ==> key in end.t.seenAnnounces)
    decreases |calls|
  {
    if calls != [] {
      var k := |calls| - 1;
      RelayedAtMostOnce(c, n, calls[..k], key, until);
      ExecOnce(c, Run(c, n, calls[..k]), calls[k], until);
    }
    hide Exec, Relays, ModestRelay, Within;
  }

  // ------------------------------------------------------------------ the whole network

  /** The nodes that have heard the announce. */
  ghost function Informed(net: Net, key: Key): set<nat> {
    set x | x in net.nodes && key in net.nodes[x].t.seenAnnounces
  }

  /** Copies of the announce this step puts on the wire as a relay. */
  ghost function Copies(c: Suite, net: Net, s: Step, key: Key): nat {
    if (s.Do? || s.Receive?) && NodeOf(s) in net.nodes && Relays(c, net.nodes[NodeOf(s)], CallOf(s), key) then
      |Exec(c, net.nodes[NodeOf(s)], CallOf(s)).out|
    else 0
  }

  ghost function FloodSize(c: Suite, steps: seq<Step>, run: seq<Net>, key: Key, k: nat): nat
    requires k <= |steps| < |run|
  {
    if k == 0 then 0 else FloodSize(c, steps, run, key, k - 1) + Copies(c, run[k - 1], steps[k - 1], key)
  }

  function Times(degree: nat, n: nat): nat {
    degree * n
  }

  lemma Scale(degree: nat, a: nat, b: nat)
    requires a <= b
    ensures Times(degree, a) <= Times(degree, b)
    ensures Times(degree, a + 1) == degree + Times(degree, a)
  {
  }

  /** No node has more than `degree` interfaces. */
  ghost predicate Few(net: Net, degree: nat) {
    forall x | x in net.nodes :: |net.nodes[x].t.interfaces| <= degree
  }

  /** Every node's interfaces are distinct, and it forgets nothing before `until`. */
  ghost predicate Mindful(net: Net, until: nat) {
    forall x | x in net.nodes :: Distinct(net.nodes[x].t.interfaces) && Remembers(net.nodes[x].t, until)
  }

  ghost predicate Bounded(net: Net, degree: nat, until: nat) {
    Few(net, degree) && Mindful(net, until)
  }

  /** One node's call adds at most `degree` copies, and only by informing that node. */
  lemma NodeInforms(c: Suite, a: Net, b: Net, s: Step, key: Key, degree: nat, until: nat)
    requires Sized(c) && (s.Do? || s.Receive?) && NodeOf(s) in a.nodes && Bounded(a, degree, until) && Within(CallOf(s), until)
    requires b.nodes == a.nodes[NodeOf(s) := Exec(c, a.nodes[NodeOf(s)], CallOf(s)).st]
    ensures Informed(a, key) <= Informed(b, key)
    ensures Copies(c, a, s, key) + Times(degree, |Informed(a, key)|) <= Times(degree, |Informed(b, key)|)
  {
    var x := NodeOf(s);
    ExecOnce(c, a.nodes[x], CallOf(s), until);
    hide Exec, Relays, Remembers, Distinct, ModestRelay, Within;
    var more := Exec(c, a.nodes[x], CallOf(s)).st.t.seenAnnounces;
    assert a.nodes[x].t.seenAnnounces.Keys <= more.Keys;
    assert Informed(a, key) <= Informed(b, key);
    Grown(Informed(a, key), Informed(b, key), x, degree);
    if Relays(c, a.nodes[x], CallOf(s), key) {
      assert x in Informed(b, key) && x !in Informed(a, key);
      ModestSize(a.nodes[x].t.interfaces, CallOf(s).iface, Exec(c, a.nodes[x], CallOf(s)).out);
    }
  }

  lemma StepInforms(c: Suite, topo: Topology, net: Net, s: Step, key: Key, degree: nat, until: nat)
    requires Sized(c) && Allowed(net, s) && Bounded(net, degree, until)
    requires s.Do? || s.Receive? ==> Within(CallOf(s), until)
    ensures var net' := Apply(c, topo, net, s);
            && Informed(net, key) <= Informed(net', key) && net'.nodes.Keys == net.nodes.Keys
            && Copies(c, net, s, key) + Times(degree, |Informed(net, key)|) <= Times(degree, |Informed(net', key)|)
  {
    hide Copies, Exec, Bounded, Launch, Within, InTime, Unexpired, Typed, IsAnnounce;
    var net' := Apply(c, topo, net, s);
    if s.Do? || s.Receive? {
      NodeInforms(c, net, net', s, key, degree, until);
    } else {
      assert Informed(net', key) == Informed(net, key);
      assert Copies(c, net, s, key) == 0 by { NoCopies(c, net, s, key); }
    }
  }

  lemma NoCopies(c: Suite, net: Net, s: Step, key: Key)
    requires !s.Do? && !s.Receive?
    ensures Copies(c, net, s, key) == 0
  {
  }

  lemma ModestSize(interfaces: seq<nat>, iface: nat, out: seq<(nat, Bytes)>)
    requires ModestRelay(interfaces, iface, out)
    ensures |out| <= |interfaces|
  {
  }

  lemma Grown(a: set<nat>, b: set<nat>, x: nat, degree: nat)
    ensures a <= b ==> Times(degree, |a|) <= Times(degree, |b|)
    ensures a <= b && x in b && x !in a ==> degree + Times(degree, |a|) <= Times(degree, |b|)
  {
    if a <= b {
      SubsetSize(a, b);
      Scale(degree, |a|, |b|);
      if x in b && x !in a {
        SubsetSize(a + {x}, b);
        Scale(degree, |a| + 1, |b|);
      }
    }
  }

  /** The run stays within one path expiry of a start where nothing remembered expires sooner, and no node ever has
      more than `degree` interfaces. */
  ghost predicate ShortRun(steps: seq<Step>, run: seq<Net>, degree: nat, until: nat) {
    && run != [] && Mindful(run[0], until) && (forall i | 0 <= i < |run| :: Few(run[i], degree))
    && forall i | 0 <= i < |steps| && (steps[i].Do? || steps[i].Receive?) :: Within(CallOf(steps[i]), until)
  }

  lemma StepMindful(c: Suite, topo: Topology, net: Net, s: Step, until: nat)
    requires Sized(c) && Allowed(net, s) && Mindful(net, until) && (s.Do? || s.Receive? ==> Within(CallOf(s), until))
    ensures Mindful(Apply(c, topo, net, s), until)
  {
    hide Exec, Relays, Remembers, Distinct, ModestRelay, Within, InTime, Unexpired, Typed, IsAnnounce, Launch;
    if s.Do? || s.Receive? {
      ExecOnce(c, net.nodes[NodeOf(s)], CallOf(s), until);
    }
  }

  lemma {:induction false} FloodCounted(c: Suite, topo: Topology, start: Net, steps: seq<Step>, run: seq<Net>, key: Key,
                                        degree: nat, until: nat, k: nat)
    requires Sized(c) && IsRun(c, topo, start, steps, run) && k <= |steps|
    requires Informed(start, key) == {} && ShortRun(steps, run, degree, until)
    ensures FloodSize(c, steps, run, key, k) <= Times(degree, |Informed(run[k], key)|)
    ensures run[k].nodes.Keys == start.nodes.Keys && Mindful(run[k], until)
  {
    hide Apply, Copies, Few, Mindful, Within, Informed, InTime, Unexpired, Typed, IsAnnounce, Times;
    if k > 0 {
      FloodCounted(c, topo, start, steps, run, key, degree, until, k - 1);
      assert Allowed(run[k - 1], steps[k - 1]) && run[k] == Apply(c, topo, run[k - 1], steps[k - 1]);
      StepInforms(c, topo, run[k - 1], steps[k - 1], key, degree, until);
      StepMindful(c, topo, run[k - 1], steps[k - 1], until);
    }
  }

  /** In any run shorter than the path expiry, one announce is relayed in at most `degree` copies per
      node, whatever is lost, duplicated or reordered: the flood ends. */
  lemma FloodBounded(c: Suite, topo: Topology, start: Net, steps: seq<Step>, run: seq<Net>, key: Key, degree: nat,
                     until: nat, k: nat)
    requires Sized(c) && IsRun(c, topo, start, steps, run) && k <= |steps|
    requires Informed(start, key) == {} && ShortRun(steps, run, degree, until)
    ensures FloodSize(c, steps, run, key, k) <= degree * |start.nodes|
  {
    FloodCounted(c, topo, start, steps, run, key, degree, until, k);
    hide FloodSize, ShortRun, IsRun;
    SubsetSize(Informed(run[k], key), start.nodes.Keys);
    Scale(degree, |Informed(run[k], key)|, |start.nodes|);
  }
}
