/** Among any other transfers of a node, a transfer with an honest sender completes with exactly its data. */
module ResourceTableLaws {
  import opened Base
  import opened Crypto
  import opened ResourceWire
  import opened ResourceState
  import opened ResourceSafety
  import T = ResourceTable
  import Order

  /** The transfer under scrutiny: what the sender sends, and the link it arrives on. */
  datatype Sending = Sending(
    data: Bytes, secret: Bytes, prefix: Bytes, iv: Bytes, random: Bytes, start: nat, link: Bytes)

  function Sender(c: Suite, z: Codec, w: Sending): Outbound {
    NewOutbound(c, z, w.data, w.secret, w.prefix, w.iv, w.random, w.start)
  }

  function KeyOf(c: Suite, z: Codec, w: Sending): T.Key {
    w.link + Sender(c, z, w).hash
  }

  /** The sender's inputs are admissible and its map hashes distinct. */
  ghost predicate Admissible(c: Suite, z: Codec, w: Sending) {
    && Lawful(c) && Faithful(z) && |w.prefix| == 4 && |w.random| == 4 && |w.link| == T.LINK_LENGTH
    && Sendable(c, z, w.data, Sender(c, z, w)) && Honest(c, Sender(c, z, w))
  }

  /** What arrives on the link is the sender's, as far as this resource is concerned: its advertisement, its
      hashmap updates, its parts and any foreign part without a colliding hash, under the link's key.
      Everything else is arbitrary. */
  ghost predicate FromSender(c: Suite, z: Codec, w: Sending, i: T.Input)
    requires MapMatches(Sender(c, z, w))
  {
    var o := Sender(c, z, w);
    match i
    case Context(link, context, plaintext, _) =>
      && |link| == T.LINK_LENGTH
      && (link == w.link ==>
        && (context == T.RESOURCE_ADV && Unpack(plaintext).Ok? && Unpack(plaintext).value.h == o.hash ==>
              Unpack(plaintext).value == Advertised(z, o, w.data))
        && (context == T.RESOURCE_HMU && |plaintext| >= 32 && plaintext[..32] == o.hash ==>
              exists k: nat :: k * SEGMENT < |o.parts| && plaintext == SegmentUpdate(o, k)))
    case PartIn(link, secret, part, _, _) =>
      && |link| == T.LINK_LENGTH
      && (link == w.link ==> secret == w.secret && Harmless(c, o, Part(part)))
    case ProofIn(link, _) => |link| == T.LINK_LENGTH
    case OfferIn(link, secret, data, prefix, iv, random, now) =>
      secret.Some? ==> link + NewOutbound(c, z, data, secret.value, prefix, iv, random, now).hash != KeyOf(c, z, w)
    case _ => true
  }

  /** The transfer, if the receiver has it, holds the sender's parts. */
  ghost predicate Faithfully(c: Suite, z: Codec, w: Sending, s: Inbound) {
    && Consistent(c, Sender(c, z, w), s)
    && s.totalSize == Sender(c, z, w).totalSize && s.compressed == z.pack(w.data).1
  }

  ghost predicate Guarded(c: Suite, z: Codec, w: Sending, t: T.Table) {
    && T.Fit(t) && KeyOf(c, z, w) !in t.outbound
    && (KeyOf(c, z, w) in t.inbound ==> Faithfully(c, z, w, t.inbound[KeyOf(c, z, w)]))
  }

  lemma AsksFaithfully(c: Suite, z: Codec, w: Sending, s: Inbound, now: nat)
    requires Faithfully(c, z, w, s)
    ensures Faithfully(c, z, w, NextRequest(s, now).0)
  {
    RequestKeeps(c, Sender(c, z, w), s, now);
    RequestSame(s, now);
    hide NextRequest, Consistent, NewOutbound;
  }

  /** Keys on one link differ in their hashes. */
  lemma KeysApart(link: Bytes, other: Bytes, a: Bytes, b: Bytes)
    requires |link| == |other|
    ensures link + a == other + b <==> link == other && a == b
  {
    if link + a == other + b {
      assert (link + a)[..|link|] == link && (other + b)[..|link|] == other;
      assert (link + a)[|link|..] == a && (other + b)[|link|..] == b;
    }
  }

  /** A step that touches this transfer only faithfully, and reports nothing but its data. */
  ghost predicate Keeps(c: Suite, z: Codec, w: Sending, e: T.Effect) {
    && Guarded(c, z, w, e.table)
    && forall v | v in e.events && v.Completed? && v.key == KeyOf(c, z, w) :: v.data == w.data
  }

  lemma AdvertisementKeeps(c: Suite, z: Codec, w: Sending, t: T.Table, link: Bytes, plaintext: Bytes, now: nat)
    requires Admissible(c, z, w) && Guarded(c, z, w, t)
    requires FromSender(c, z, w, T.Context(link, T.RESOURCE_ADV, plaintext, now))
    requires T.Fit(T.OnAdvertisement(t, link, plaintext, now).table)
    ensures Keeps(c, z, w, T.OnAdvertisement(t, link, plaintext, now))
  {
    hide NewOutbound, Unpack, NextRequest, Honest, Sendable, T.Fit, Faithfully, SegmentUpdate, Advertised;
    var a := Unpack(plaintext);
    if a.Ok? && FromAdvertisement(a.value).Ok? {
      var s := FromAdvertisement(a.value).value;
      KeysApart(link, w.link, s.hash, Sender(c, z, w).hash);
      if link + s.hash == KeyOf(c, z, w) {
        StartsFaithfully(c, z, w, now);
      }
    }
    hide FromAdvertisement, Sender;
  }

  lemma StartsFaithfully(c: Suite, z: Codec, w: Sending, now: nat)
    requires Admissible(c, z, w)
    ensures var s := FromAdvertisement(Advertised(z, Sender(c, z, w), w.data));
            s.Ok? && Sound(s.value) && Faithfully(c, z, w, NextRequest(s.value, now).0)
  {
    hide NewOutbound, NextRequest, FromAdvertisement, Advertised, TrueMap, Distinct;
    StartConsistent(c, z, Sender(c, z, w), w.data);
    AsksFaithfully(c, z, w, FromAdvertisement(Advertised(z, Sender(c, z, w), w.data)).value, now);
  }

  lemma UpdateFaithful(c: Suite, z: Codec, w: Sending, s: Inbound, u: Bytes, now: nat)
    requires Admissible(c, z, w) && Faithfully(c, z, w, s) && Sound(s)
    requires Harmless(c, Sender(c, z, w), HashmapUpdate(u))
    ensures Faithfully(c, z, w, ReceiveUpdate(s, u, now).0)
  {
    hide NewOutbound, Honest, Sendable, ReceiveUpdate, Consistent, Harmless;
    ReceiveKeeps(c, Sender(c, z, w), s, HashmapUpdate(u), now);
    ReactSame(c, s, Arrives(HashmapUpdate(u), now));
  }

  lemma PartFaithful(c: Suite, z: Codec, w: Sending, s: Inbound, part: Bytes)
    requires Admissible(c, z, w) && Faithfully(c, z, w, s) && Harmless(c, Sender(c, z, w), Part(part))
    ensures Faithfully(c, z, w, OnPart(c, s, part).0)
  {
    hide NewOutbound, Honest, Sendable, SlotFor, Without, MapHash, Consistent, Harmless;
    PartKeeps(c, Sender(c, z, w), s, part);
  }

  lemma MoreKeeps(c: Suite, z: Codec, w: Sending, t: T.Table, link: Bytes, plaintext: Bytes, now: nat)
    requires Admissible(c, z, w) && Guarded(c, z, w, t)
    requires FromSender(c, z, w, T.Context(link, T.RESOURCE_HMU, plaintext, now))
    requires T.Fit(T.OnMore(t, link, plaintext, now).table)
    ensures Keeps(c, z, w, T.OnMore(t, link, plaintext, now))
  {
    hide NewOutbound, Unpack, ReceiveUpdate, Honest, Sendable, Faithfully, SegmentUpdate, Advertised;
    if |plaintext| >= 32 && link + plaintext[..32] in t.inbound {
      KeysApart(link, w.link, plaintext[..32], Sender(c, z, w).hash);
      if link + plaintext[..32] == KeyOf(c, z, w) {
        UpdateFaithful(c, z, w, t.inbound[KeyOf(c, z, w)], plaintext, now);
      }
    }
    hide Sender;
  }

  /** Requests, cancellations and unknown contexts leave the transfer alone or remove it. */
  lemma OtherContextKeeps(c: Suite, z: Codec, w: Sending, t: T.Table, link: Bytes, context: Byte, plaintext: Bytes,
                          now: nat)
    requires Guarded(c, z, w, t) && context != T.RESOURCE_ADV && context != T.RESOURCE_HMU
    requires T.Fit(T.OnContext(t, link, context, plaintext, now).table)
    ensures Keeps(c, z, w, T.OnContext(t, link, context, plaintext, now))
  {
    hide NewOutbound, OnRequest, T.Answers, Faithfully, KeyOf;
  }

  lemma TookKeeps(c: Suite, z: Codec, w: Sending, t: T.Table, link: Bytes, key: T.Key, s: Inbound, secret: Bytes,
                  entropy: bool, now: nat)
    requires Admissible(c, z, w) && Guarded(c, z, w, t) && Sound(s)
    requires key == KeyOf(c, z, w) ==> secret == w.secret && Faithfully(c, z, w, s)
    requires T.Fit(T.Took(c, z, t, link, key, s, secret, entropy, now).table)
    ensures Keeps(c, z, w, T.Took(c, z, t, link, key, s, secret, entropy, now))
  {
    hide NewOutbound, Finalize, NextRequest, IsComplete, Honest, Sendable, T.Received, ProofOf, ReadyForRequest, KeyOf,
         Faithfully, T.Fit;
    if key == KeyOf(c, z, w) {
      if IsComplete(s) {
        CompletedData(c, z, w, s);
      } else {
        AsksFaithfully(c, z, w, s, now);
      }
    }
  }

  lemma CompletedData(c: Suite, z: Codec, w: Sending, s: Inbound)
    requires Admissible(c, z, w) && Faithfully(c, z, w, s) && IsComplete(s)
    ensures Finalize(c, z, s, w.secret) == Ok(w.data)
  {
    hide NewOutbound, Finalize, IsComplete, Honest, Sendable, Consistent;
    CompleteIsExact(c, z, w.data, w.secret, w.prefix, w.iv, w.random, w.start, s);
  }

  lemma PartArrivalKeeps(c: Suite, z: Codec, w: Sending, t: T.Table, i: T.Input)
    requires Admissible(c, z, w) && Guarded(c, z, w, t) && i.PartIn? && FromSender(c, z, w, i)
    requires T.Fit(T.React(c, z, t, i).table)
    ensures Keeps(c, z, w, T.React(c, z, t, i))
  {
    hide NewOutbound, T.FirstAccepting, Order.Sorted, OnPart, T.Took, Honest, Sendable, Faithfully, T.Fit, Harmless,
         T.Accepts;
    T.PartsFit(t);
    var first := T.FirstAccepting(c, t.inbound, Order.Sorted(t.inbound.Keys), i.link, i.part);
    if first.Some? {
      var key := first.value;
      var s := t.inbound[key];
      T.PartSound(c, s, i.part);
      if key == KeyOf(c, z, w) {
        assert key[..T.LINK_LENGTH] == w.link;
        PartFaithful(c, z, w, s, i.part);
      }
      TookKeeps(c, z, w, t, i.link, key, OnPart(c, s, i.part).0, i.secret, i.entropy, i.now);
    }
  }

  lemma RetryFaithful(c: Suite, z: Codec, w: Sending, s: Inbound, now: nat)
    requires Faithfully(c, z, w, s) && Sound(s)
    ensures Retry(s, now).Ok? ==> Faithfully(c, z, w, Retry(s, now).value.0)
  {
    hide NewOutbound, NextRequest, IsComplete;
    var tired := s.(retries := s.retries + 1, window := Max(s.window - 1, WINDOW_MIN));
    assert Faithfully(c, z, w, tired);
    hide Faithfully;
    AsksFaithfully(c, z, w, tired, now);
  }

  lemma {:induction false} LostNeverComplete(t: T.Table, keys: seq<T.Key>, now: nat)
    requires forall k | k in keys :: k in t.inbound && Sound(t.inbound[k])
    ensures forall v | v in T.RetriesLost(t, keys, now) :: v.GivenUp?
    decreases |keys|
  {
    hide Retry;
    if keys != [] {
      LostNeverComplete(t, keys[1..], now);
    }
  }

  lemma TickKeeps(c: Suite, z: Codec, w: Sending, t: T.Table, keyed: set<Bytes>, entropy: bool, now: nat)
    requires Guarded(c, z, w, t) && T.Fit(T.OnTick(t, keyed, entropy, now).table)
    ensures Keeps(c, z, w, T.OnTick(t, keyed, entropy, now))
  {
    hide NewOutbound, Retry, T.RetriesSent, T.RetriesLost, Order.Sorted, Faithfully;
    LostNeverComplete(t, Order.Sorted(t.inbound.Keys), now);
    var key := KeyOf(c, z, w);
    if key in t.inbound {
      RetryFaithful(c, z, w, t.inbound[key], now);
    }
  }

  lemma ProofKeeps(c: Suite, z: Codec, w: Sending, t: T.Table, link: Bytes, data: Bytes)
    requires Guarded(c, z, w, t) && T.Fit(T.OnProofArrival(t, link, data).table)
    ensures Keeps(c, z, w, T.OnProofArrival(t, link, data))
  {
    hide NewOutbound, Faithfully, KeyOf, T.Fit, OnProof;
  }

  /** A transfer this node starts leaves the others alone. */
  lemma OfferKeeps(c: Suite, z: Codec, w: Sending, t: T.Table, i: T.Input)
    requires Admissible(c, z, w) && Guarded(c, z, w, t) && i.OfferIn? && FromSender(c, z, w, i)
    requires T.Fit(T.React(c, z, t, i).table)
    ensures Keeps(c, z, w, T.React(c, z, t, i))
  {
    hide NewOutbound, Faithfully, KeyOf, T.Fit, Honest, Sendable, T.Advertisable, Advertised, Pack;
  }

  lemma StepKeeps(c: Suite, z: Codec, w: Sending, t: T.Table, i: T.Input)
    requires Admissible(c, z, w) && Guarded(c, z, w, t) && FromSender(c, z, w, i)
    ensures Keeps(c, z, w, T.React(c, z, t, i))
  {
    T.ReactFits(c, z, t, i);
    hide NewOutbound, T.OnPartArrival, T.OnTick, T.OnAdvertisement, T.OnMore, T.OnAsked, T.OnCancel, T.OnProofArrival,
         T.OnOffer, Keeps, T.Fit, Honest, Sendable;
    match i {
      case Context(link, context, plaintext, now) =>
        if context == T.RESOURCE_ADV {
          AdvertisementKeeps(c, z, w, t, link, plaintext, now);
        } else if context == T.RESOURCE_HMU {
          MoreKeeps(c, z, w, t, link, plaintext, now);
        } else {
          OtherContextKeeps(c, z, w, t, link, context, plaintext, now);
        }
      case PartIn(link, secret, part, entropy, now) => PartArrivalKeeps(c, z, w, t, i);
      case ProofIn(link, data) => ProofKeeps(c, z, w, t, link, data);
      case TickIn(keyed, entropy, now) => TickKeeps(c, z, w, t, keyed, entropy, now);
      case OfferIn(_, _, _, _, _, _, _) => OfferKeeps(c, z, w, t, i);
    }
  }

  /** Over every run of a node with any other transfers and any other traffic, whatever is lost, repeated,
      reordered, retried or cancelled: when a transfer from an honest sender is reported complete, the data
      reported are exactly the data sent. */
  lemma {:induction false} CompletedIsExact(c: Suite, z: Codec, w: Sending, t: T.Table, inputs: seq<T.Input>)
    requires Admissible(c, z, w) && Guarded(c, z, w, t)
    requires forall i | i in inputs :: FromSender(c, z, w, i)
    ensures Guarded(c, z, w, T.Run(c, z, t, inputs))
    ensures forall v | v in T.Events(c, z, t, inputs) && v.Completed? && v.key == KeyOf(c, z, w) :: v.data == w.data
    decreases |inputs|
  {
    hide T.React, Admissible, KeyOf, FromSender, T.Fit;
    if inputs != [] {
      var k := |inputs| - 1;
      var front := inputs[..k];
      assert forall i | i in front :: i in inputs;
      assert inputs[k] in inputs;
      CompletedIsExact(c, z, w, t, front);
      StepKeeps(c, z, w, T.Run(c, z, t, front), inputs[k]);
    }
  }
}
