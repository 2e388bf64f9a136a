/** The transfers of a node (the resource handlers of node.rs): tables of transfers keyed by link and hash, and
    what each packet on a link does to them. */
module ResourceTable {
  import opened Base
  import opened Crypto
  import opened ResourceWire
  import opened ResourceState
  import Order
  import Packets

  /** A 16-byte link id followed by a resource hash: byte order on keys is the order of the pairs. */
  type Key = Bytes

  const LINK_LENGTH: nat := 16

  predicate OnLink(key: Key, link: Bytes) {
    |key| >= LINK_LENGTH && key[..LINK_LENGTH] == link
  }

  datatype Table = Table(outbound: map<Key, Outbound>, inbound: map<Key, Inbound>)

  /** What every handler keeps: maps and parts of equal length on both sides. */
  predicate Fit(t: Table) {
    && (forall k | k in t.inbound :: Sound(t.inbound[k]))
    && (forall k | k in t.outbound :: MapMatches(t.outbound[k]))
  }

  datatype Event =
    | Started(key: Key, size: nat)
    | Progress(key: Key, received: nat, total: nat)
    | Completed(key: Key, data: Bytes)
    | GivenUp(key: Key)
    | Refused(error: CoreError)

  /** What goes out on a link: sealed under the link key, or as it is. */
  datatype Sent = Sealed(link: Bytes, context: Byte, plaintext: Bytes) | Plain(link: Bytes, context: Byte, data: Bytes)

  datatype Effect = Effect(table: Table, sent: seq<Sent>, events: seq<Event>)

  const RESOURCE_ADV: Byte := 0x02
  const RESOURCE_REQ: Byte := 0x03
  const RESOURCE_HMU: Byte := 0x04
  const RESOURCE_PRF: Byte := 0x05
  const RESOURCE_ICL: Byte := 0x06
  const RESOURCE_RCL: Byte := 0x07

  function Quiet(t: Table): Effect {
    Effect(t, [], [])
  }

  function Asking(link: Bytes, request: Option<Bytes>): seq<Sent> {
    if request.Some? then [Sealed(link, RESOURCE_REQ, request.value)] else []
  }

  /** Do the sender's map and sizes fit the fields of the advertisement? */
  predicate Advertisable(z: Codec, o: Outbound, data: Bytes) {
    MapMatches(o) && Encodable(Advertised(z, o, data))
  }

  /** A new transfer of this node, under a random hash that was picked: refused without an active link, without data
      or with too much of it; else remembered, and advertised. */
  function OnOffer(c: Suite, z: Codec, t: Table, link: Bytes, secret: Option<Bytes>, data: Bytes, prefix: Bytes, iv: Bytes,
                   random: Bytes, now: nat): Effect
  {
    if secret.None? || data == [] || |data| > MAX_EFFICIENT_SIZE then Quiet(t)
    else
      var o := NewOutbound(c, z, data, secret.value, prefix, iv, random, now);
      if !Advertisable(z, o, data) then Quiet(t)
      else
        Effect(t.(outbound := t.outbound[link + o.hash := o]),
               [Sealed(link, RESOURCE_ADV, Pack(Advertised(z, o, data)))], [])
  }

  // ------------------------------------------------------------------ sealed contexts

  function OnAdvertisement(t: Table, link: Bytes, plaintext: Bytes, now: nat): Effect {
    var a := Unpack(plaintext);
    if a.Err? then Effect(t, [], [Refused(a.error)])
    else
      var s := FromAdvertisement(a.value);
      if s.Err? then Effect(t, [], [Refused(s.error)])
      else
        var key := link + s.value.hash;
        var asked := NextRequest(s.value, now);
        Effect(t.(inbound := t.inbound[key := asked.0]), Asking(link, asked.1), [Started(key, s.value.totalSize)])
  }

  function Answers(link: Bytes, outputs: seq<Output>): seq<Sent> {
    if outputs == [] then []
    else
      (match outputs[0]
       case Part(p) => [Plain(link, Packets.RESOURCE, p)]
       case HashmapUpdate(u) => [Sealed(link, RESOURCE_HMU, u)])
      + Answers(link, outputs[1..])
  }

  function OnAsked(t: Table, link: Bytes, plaintext: Bytes, now: nat): Effect
    requires Fit(t)
  {
    var start := if plaintext != [] && plaintext[0] == 0xFF then 5 else 1;
    if |plaintext| < start + 32 then Quiet(t)
    else
      var key := link + plaintext[start..start + 32];
      if key !in t.outbound then Quiet(t)
      else
        var served := OnRequest(t.outbound[key], plaintext, now);
        Effect(t.(outbound := t.outbound[key := served.0]), Answers(link, served.1), [])
  }

  function OnMore(t: Table, link: Bytes, plaintext: Bytes, now: nat): Effect
    requires Fit(t)
  {
    if |plaintext| < 32 || link + plaintext[..32] !in t.inbound then Quiet(t)
    else
      var key := link + plaintext[..32];
      var asked := ReceiveUpdate(t.inbound[key], plaintext, now);
      Effect(t.(inbound := t.inbound[key := asked.0]), Asking(link, asked.1), [])
  }

  function OnCancel(t: Table, link: Bytes, plaintext: Bytes): Effect {
    if |plaintext| < 32 then Quiet(t)
    else
      var key := link + plaintext[..32];
      Effect(Table(t.outbound - {key}, t.inbound - {key}), [], [GivenUp(key)])
  }

  /** A decrypted packet with a resource context. */
  function OnContext(t: Table, link: Bytes, context: Byte, plaintext: Bytes, now: nat): Effect
    requires Fit(t)
  {
    if context == RESOURCE_ADV then OnAdvertisement(t, link, plaintext, now)
    else if context == RESOURCE_REQ then OnAsked(t, link, plaintext, now)
    else if context == RESOURCE_HMU then OnMore(t, link, plaintext, now)
    else if context == RESOURCE_ICL || context == RESOURCE_RCL then OnCancel(t, link, plaintext)
    else Quiet(t)
  }

  // ------------------------------------------------------------------ parts and proofs

  predicate Accepts(c: Suite, s: Inbound, part: Bytes)
    requires Sound(s)
  {
    OnPart(c, s, part).1
  }

  /** The first transfer on the link, in key order, that accepts a part. */
  function FirstAccepting(c: Suite, inbound: map<Key, Inbound>, keys: seq<Key>, link: Bytes, part: Bytes): (r: Option<Key>)
    requires forall k | k in keys :: k in inbound && Sound(inbound[k])
    ensures r.Some? ==> r.value in keys && OnLink(r.value, link) && Accepts(c, inbound[r.value], part)
    ensures r.None? ==> forall k | k in keys && OnLink(k, link) :: !Accepts(c, inbound[k], part)
  {
    if keys == [] then None
    else if OnLink(keys[0], link) && Accepts(c, inbound[keys[0]], part) then Some(keys[0])
    else FirstAccepting(c, inbound, keys[1..], link, part)
  }

  function Received(parts: seq<Option<Bytes>>): nat {
    if parts == [] then 0 else (if parts[0].Some? then 1 else 0) + Received(parts[1..])
  }

  /** What the transfer that took a part leads to. */
  function Took(c: Suite, z: Codec, t: Table, link: Bytes, key: Key, s: Inbound, secret: Bytes, entropy: bool, now: nat):
    Effect
    requires Sound(s)
  {
    var progress := Progress(key, Received(s.parts), |s.parts|);
    if IsComplete(s) then
      var data := Finalize(c, z, s, secret);
      var left := t.(inbound := t.inbound - {key});
      if data.Ok? then
        Effect(left, [Plain(link, RESOURCE_PRF, ProofOf(c, s, data.value))], [progress, Completed(key, data.value)])
      else Effect(left, [], [progress, GivenUp(key)])
    else if entropy && ReadyForRequest(s) then
      var asked := NextRequest(s, now);
      Effect(t.(inbound := t.inbound[key := asked.0]),
             Asking(link, if asked.0.retries == 0 then asked.1 else None), [progress])
    else Effect(t.(inbound := t.inbound[key := s]), [], [progress])
  }

  function OnPartArrival(c: Suite, z: Codec, t: Table, link: Bytes, secret: Bytes, part: Bytes, entropy: bool, now: nat):
    Effect
    requires Fit(t)
  {
    var key := FirstAccepting(c, t.inbound, Order.Sorted(t.inbound.Keys), link, part);
    if key.None? then Quiet(t)
    else Took(c, z, t, link, key.value, OnPart(c, t.inbound[key.value], part).0, secret, entropy, now)
  }

  function OnProofArrival(t: Table, link: Bytes, data: Bytes): Effect {
    if |data| < 32 || link + data[..32] !in t.outbound then Quiet(t)
    else
      var key := link + data[..32];
      var o := OnProof(t.outbound[key], data);
      if o.completed then Effect(t.(outbound := t.outbound - {key}), [], [Completed(key, [])])
      else Effect(t.(outbound := t.outbound[key := o]), [], [])
  }

  // ------------------------------------------------------------------ retries

  /** The request a due retry repeats; it leaves only on a link whose key is known, and only with entropy. */
  function RetrySent(s: Inbound, key: Key, keyed: set<Bytes>, entropy: bool, now: nat): seq<Sent>
    requires Sound(s)
  {
    var r := Retry(s, now);
    if r.Ok? && entropy && |key| >= LINK_LENGTH && key[..LINK_LENGTH] in keyed then
      Asking(key[..LINK_LENGTH], r.value.1)
    else []
  }

  function RetriesSent(t: Table, keys: seq<Key>, keyed: set<Bytes>, entropy: bool, now: nat): seq<Sent>
    requires forall k | k in keys :: k in t.inbound && Sound(t.inbound[k])
  {
    if keys == [] then []
    else RetrySent(t.inbound[keys[0]], keys[0], keyed, entropy, now) + RetriesSent(t, keys[1..], keyed, entropy, now)
  }

  function RetriesLost(t: Table, keys: seq<Key>, now: nat): seq<Event>
    requires forall k | k in keys :: k in t.inbound && Sound(t.inbound[k])
  {
    if keys == [] then []
    else (if Retry(t.inbound[keys[0]], now).Err? then [GivenUp(keys[0])] else []) + RetriesLost(t, keys[1..], now)
  }

  /** The resource half of a tick. */
  function OnTick(t: Table, keyed: set<Bytes>, entropy: bool, now: nat): Effect
    requires Fit(t)
  {
    var keys := Order.Sorted(t.inbound.Keys);
    Effect(t.(inbound := map k | k in t.inbound && Retry(t.inbound[k], now).Ok? :: Retry(t.inbound[k], now).value.0),
           RetriesSent(t, keys, keyed, entropy, now), RetriesLost(t, keys, now))
  }

  // ------------------------------------------------------------------ one input after another

  datatype Input =
    | Context(link: Bytes, context: Byte, plaintext: Bytes, now: nat)
    | PartIn(link: Bytes, secret: Bytes, part: Bytes, entropy: bool, now: nat)
    | ProofIn(link: Bytes, data: Bytes)
    | TickIn(keyed: set<Bytes>, entropy: bool, now: nat)
    | OfferIn(link: Bytes, active: Option<Bytes>, data: Bytes, prefix: Bytes, iv: Bytes, random: Bytes, now: nat)

  function React(c: Suite, z: Codec, t: Table, i: Input): Effect
    requires Fit(t)
  {
    match i
    case Context(link, context, plaintext, now) => OnContext(t, link, context, plaintext, now)
    case PartIn(link, secret, part, entropy, now) => OnPartArrival(c, z, t, link, secret, part, entropy, now)
    case ProofIn(link, data) => OnProofArrival(t, link, data)
    case TickIn(keyed, entropy, now) => OnTick(t, keyed, entropy, now)
    case OfferIn(link, secret, data, prefix, iv, random, now) => OnOffer(c, z, t, link, secret, data, prefix, iv, random, now)
  }

  lemma RequestSound(s: Inbound, now: nat)
    requires Sound(s)
    ensures Sound(NextRequest(s, now).0)
  {
    hide FirstMissing, LastKnown, Wanted, Concat;
  }

  lemma MoreSound(s: Inbound, update: Bytes, now: nat)
    requires Sound(s)
    ensures Sound(ReceiveUpdate(s, update, now).0)
  {
    hide UnpackUpdate, Entries, Put, NextRequest;
    RequestSound(OnUpdate(s, update).0, now);
  }

  lemma ServedMatches(o: Outbound, request: Bytes, now: nat)
    requires MapMatches(o)
    ensures MapMatches(OnRequest(o, request, now).0)
  {
    hide Lookup, Entries, SegmentAfter;
  }

  lemma ContextFits(t: Table, link: Bytes, context: Byte, plaintext: Bytes, now: nat)
    requires Fit(t)
    ensures Fit(OnContext(t, link, context, plaintext, now).table)
  {
    hide Unpack, NextRequest, OnRequest, ReceiveUpdate, Answers, Entries;
    forall s, u | Sound(s) ensures Sound(ReceiveUpdate(s, u, now).0) {
      MoreSound(s, u, now);
    }
    var a := Unpack(plaintext);
    if a.Ok? && FromAdvertisement(a.value).Ok? {
      RequestSound(FromAdvertisement(a.value).value, now);
    }
    forall o, r | MapMatches(o) ensures MapMatches(OnRequest(o, r, now).0) {
      ServedMatches(o, r, now);
    }
  }

  lemma TookFits(c: Suite, z: Codec, t: Table, link: Bytes, key: Key, s: Inbound, secret: Bytes, entropy: bool, now: nat)
    requires Fit(t) && Sound(s)
    ensures Fit(Took(c, z, t, link, key, s, secret, entropy, now).table)
  {
    hide NextRequest, Finalize, IsComplete, Received, ProofOf;
    RequestSound(s, now);
  }

  lemma PartsFit(t: Table)
    requires Fit(t)
    ensures forall k | k in t.inbound :: Sound(t.inbound[k])
  {
  }

  lemma PartSound(c: Suite, s: Inbound, part: Bytes)
    requires Sound(s)
    ensures Sound(OnPart(c, s, part).0)
  {
    hide SlotFor, Without, MapHash;
  }

  lemma RetrySound(s: Inbound, now: nat)
    requires Sound(s)
    ensures Retry(s, now).Ok? ==> Sound(Retry(s, now).value.0)
  {
    hide NextRequest, IsComplete;
    RequestSound(s.(retries := s.retries + 1, window := Max(s.window - 1, WINDOW_MIN)), now);
  }

  lemma TickFits(t: Table, keyed: set<Bytes>, entropy: bool, now: nat)
    requires Fit(t)
    ensures Fit(OnTick(t, keyed, entropy, now).table)
  {
    hide Retry, RetriesSent, RetriesLost;
    forall k | k in t.inbound ensures Retry(t.inbound[k], now).Ok? ==> Sound(Retry(t.inbound[k], now).value.0) {
      RetrySound(t.inbound[k], now);
    }
  }

  lemma ReactFits(c: Suite, z: Codec, t: Table, i: Input)
    requires Fit(t)
    ensures Fit(React(c, z, t, i).table)
  {
    hide OnContext, Took, OnTick, FirstAccepting, Order.Sorted, OnPart, OnOffer;
    match i {
      case Context(link, context, plaintext, now) => ContextFits(t, link, context, plaintext, now);
      case PartIn(link, secret, part, entropy, now) =>
        var key := FirstAccepting(c, t.inbound, Order.Sorted(t.inbound.Keys), link, part);
        if key.Some? {
          PartSound(c, t.inbound[key.value], part);
          TookFits(c, z, t, link, key.value, OnPart(c, t.inbound[key.value], part).0, secret, entropy, now);
        }
      case ProofIn(link, data) =>
      case TickIn(keyed, entropy, now) => TickFits(t, keyed, entropy, now);
      case OfferIn(link, secret, data, prefix, iv, random, now) =>
        OfferFits(c, z, t, link, secret, data, prefix, iv, random, now);
    }
  }

  lemma OfferFits(c: Suite, z: Codec, t: Table, link: Bytes, secret: Option<Bytes>, data: Bytes, prefix: Bytes, iv: Bytes,
                  random: Bytes, now: nat)
    requires Fit(t)
    ensures Fit(OnOffer(c, z, t, link, secret, data, prefix, iv, random, now).table)
  {
    hide NewOutbound, Encodable, Pack, Advertised;
  }

  function Run(c: Suite, z: Codec, t: Table, inputs: seq<Input>): (r: Table)
    requires Fit(t)
    ensures Fit(r)
  {
    if inputs == [] then t
    else
      var before := Run(c, z, t, inputs[..|inputs| - 1]);
      ReactFits(c, z, before, inputs[|inputs| - 1]);
      React(c, z, before, inputs[|inputs| - 1]).table
  }

  function Events(c: Suite, z: Codec, t: Table, inputs: seq<Input>): seq<Event>
    requires Fit(t)
  {
    if inputs == [] then []
    else
      var front := inputs[..|inputs| - 1];
      Events(c, z, t, front) + React(c, z, Run(c, z, t, front), inputs[|inputs| - 1]).events
  }

  // ------------------------------------------------------------------ one part, one transfer

  lemma {:induction false} FirstIsFirst(c: Suite, inbound: map<Key, Inbound>, keys: seq<Key>, link: Bytes, part: Bytes)
    requires forall k | k in keys :: k in inbound && Sound(inbound[k])
    requires FirstAccepting(c, inbound, keys, link, part).Some?
    ensures var key := FirstAccepting(c, inbound, keys, link, part).value;
            exists i :: 0 <= i < |keys| && keys[i] == key
                        && forall j | 0 <= j < i :: !(OnLink(keys[j], link) && Accepts(c, inbound[keys[j]], part))
    decreases |keys|
  {
    hide Accepts, OnLink;
    if OnLink(keys[0], link) && Accepts(c, inbound[keys[0]], part) {
      assert keys[0] == FirstAccepting(c, inbound, keys, link, part).value;
    } else {
      FirstIsFirst(c, inbound, keys[1..], link, part);
      var i :| 0 <= i < |keys| - 1 && keys[1..][i] == FirstAccepting(c, inbound, keys, link, part).value
               && forall j | 0 <= j < i :: !(OnLink(keys[1..][j], link) && Accepts(c, inbound[keys[1..][j]], part));
      forall j | 0 <= j < i + 1 ensures !(OnLink(keys[j], link) && Accepts(c, inbound[keys[j]], part)) {
        if j > 0 {
          assert keys[j] == keys[1..][j - 1];
        }
      }
      assert keys[i + 1] == FirstAccepting(c, inbound, keys, link, part).value;
    }
  }

  /** A part belongs to one transfer at most: it is counted for the one accepting transfer of its link that
      comes first in key order, every other transfer stays as it was, and if none accepts it nothing
      happens at all. */
  lemma OnePartOneTransfer(c: Suite, z: Codec, t: Table, link: Bytes, secret: Bytes, part: Bytes, entropy: bool, now: nat)
    requires Fit(t)
    ensures var e := OnPartArrival(c, z, t, link, secret, part, entropy, now);
            || (e == Quiet(t) && forall k | k in t.inbound && OnLink(k, link) :: !Accepts(c, t.inbound[k], part))
            || exists key ::
                 && key in t.inbound && OnLink(key, link) && Accepts(c, t.inbound[key], part)
                 && (forall k | k in t.inbound && OnLink(k, link) && Accepts(c, t.inbound[k], part) :: Order.Le(key, k))
                 && e.events != [] && e.events[0].Progress? && e.events[0].key == key
                 && e.table.outbound == t.outbound
                 && (forall k | k != key :: k in e.table.inbound <==> k in t.inbound)
                 && (forall k | k != key && k in t.inbound :: e.table.inbound[k] == t.inbound[k])
  {
    hide Order.Sorted, Accepts, FirstAccepting, OnLink;
    var keys := Order.Sorted(t.inbound.Keys);
    var first := FirstAccepting(c, t.inbound, keys, link, part);
    if first.Some? {
      var key := first.value;
      FirstIsFirst(c, t.inbound, keys, link, part);
      var i :| 0 <= i < |keys| && keys[i] == key
               && forall j | 0 <= j < i :: !(OnLink(keys[j], link) && Accepts(c, t.inbound[keys[j]], part));
      forall k | k in t.inbound && OnLink(k, link) && Accepts(c, t.inbound[k], part) ensures Order.Le(key, k) {
        assert k in keys;
        var j :| 0 <= j < |keys| && keys[j] == k;
        assert i <= j;
        Order.SortedAscends(t.inbound.Keys, i, j);
      }
      TookOthers(c, z, t, link, key, OnPart(c, t.inbound[key], part).0, secret, entropy, now);
      hide OnPart, Took;
      assert key in t.inbound;
    }
  }

  lemma TookOthers(c: Suite, z: Codec, t: Table, link: Bytes, key: Key, s: Inbound, secret: Bytes, entropy: bool, now: nat)
    requires Sound(s)
    ensures var e := Took(c, z, t, link, key, s, secret, entropy, now);
            && e.events != [] && e.events[0].Progress? && e.events[0].key == key
            && e.table.outbound == t.outbound
            && (forall k | k != key :: k in e.table.inbound <==> k in t.inbound)
            && (forall k | k != key && k in t.inbound :: e.table.inbound[k] == t.inbound[k])
  {
    hide NextRequest, Finalize, IsComplete, Received, ProofOf, ReadyForRequest;
  }

  // ------------------------------------------------------------------ giving up

  lemma {:induction false} LostAre(t: Table, keys: seq<Key>, now: nat, key: Key)
    requires forall k | k in keys :: k in t.inbound && Sound(t.inbound[k])
    ensures GivenUp(key) in RetriesLost(t, keys, now) <==> key in keys && Retry(t.inbound[key], now).Err?
    decreases |keys|
  {
    hide Retry;
    if keys != [] {
      LostAre(t, keys[1..], now, key);
      assert keys == [keys[0]] + keys[1..];
    }
  }

  /** A tick gives up exactly the transfers whose retry is due after sixteen, and removes exactly those. */
  lemma GivenUpExactly(t: Table, keyed: set<Bytes>, entropy: bool, now: nat, key: Key)
    requires Fit(t)
    ensures var e := OnTick(t, keyed, entropy, now);
            && (GivenUp(key) in e.events
                <==> key in t.inbound && RetryDue(t.inbound[key], now) && t.inbound[key].retries >= MAX_RETRIES)
            && (key in e.table.inbound <==> key in t.inbound && GivenUp(key) !in e.events)
            && e.table.outbound == t.outbound
  {
    hide RetriesSent, RetriesLost, NextRequest, RetryDue, Order.Sorted;
    LostAre(t, Order.Sorted(t.inbound.Keys), now, key);
  }
}
