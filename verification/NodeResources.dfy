/** The node's tables of transfers as the object that holds them: the resource handlers update the two maps in
    place, and are proved against the functions of `ResourceTable`. */
module NodeResources {
  import opened Base
  import opened Crypto
  import opened ResourceWire
  import R = ResourceState
  import T = ResourceTable
  import ResourceClass
  import Collisions
  import Order
  import Packets

  class Transfers {
    var outbound: map<T.Key, R.Outbound>
    var inbound: map<T.Key, R.Inbound>

    function View(): T.Table
      reads this
    {
      T.Table(outbound, inbound)
    }

    constructor ()
      ensures View() == T.Table(map[], map[])
    {
      outbound, inbound := map[], map[];
    }

    /** `send_resource` on a link, given the key the lookup of an active link yields: a sender is made under the first
        random hash of the entropy that passes the collision check, remembered and advertised.  None when the source
        returns an error; the source draws on until a random hash passes. */
    method SendResource(c: Suite, z: R.Codec, link: Bytes, secret: Option<Bytes>, data: Bytes, prefix: Bytes, iv: Bytes,
                        entropy: seq<Bytes>, now: nat) returns (hash: Option<Bytes>, sent: seq<T.Sent>)
      modifies this
      ensures hash.None? ==> View() == old(View()) && sent == []
      ensures secret.None? || data == [] || |data| > MAX_EFFICIENT_SIZE ==> hash.None?
      ensures hash.Some? ==>
                && secret.Some?
                && exists random ::
                     && random in entropy
                     && var o := R.NewOutbound(c, z, data, secret.value, prefix, iv, random, now);
                     && hash.value == o.hash && link + o.hash in outbound && outbound[link + o.hash] == o
                     && Collisions.DistinctWithin(R.Hashes(c, o.parts, random), Collisions.GUARD)
                     && T.Effect(View(), sent, [])
                        == T.OnOffer(c, z, old(View()), link, secret, data, prefix, iv, random, now)
      ensures hash.None? && secret.Some? && 0 < |data| <= MAX_EFFICIENT_SIZE ==>
                forall random | random in entropy ::
                  || !Collisions.DistinctWithin(
                        R.Hashes(c, SplitParts(c.seal(secret.value, prefix + z.pack(data).0, iv), R.SDU), random),
                        Collisions.GUARD)
                  || exists r :: r in entropy
                       && !T.Advertisable(z, R.NewOutbound(c, z, data, secret.value, prefix, iv, r, now), data)
    {
      hide Pack, R.NewOutbound, R.Hashes, SplitParts, Collisions.DistinctWithin, R.Advertised, Encodable;
      hash, sent := None, [];
      if secret.None? {
        return;
      }
      var resource := ResourceClass.OutboundResource.New(c, z, data, secret.value, prefix, iv, entropy, now);
      if resource == null {
        return;
      }
      var o := resource.View();
      if !T.Advertisable(z, o, data) {
        return;
      }
      outbound := outbound[link + o.hash := o];
      sent := [T.Sealed(link, T.RESOURCE_ADV, Pack(R.Advertised(z, o, data)))];
      hash := Some(o.hash);
    }

    method HandleContext(link: Bytes, context: Byte, plaintext: Bytes, now: nat)
      returns (sent: seq<T.Sent>, events: seq<T.Event>)
      requires T.Fit(View())
      modifies this
      ensures T.Effect(View(), sent, events) == T.OnContext(old(View()), link, context, plaintext, now)
    {
      hide Unpack, R.Entries, R.NextRequest, R.ReceiveUpdate, R.OnRequest, T.Answers;
      sent, events := [], [];
      if context == T.RESOURCE_ADV {
        var advertisement := Unpack(plaintext);
        if advertisement.Err? {
          events := [T.Refused(advertisement.error)];
          return;
        }
        var resource := R.FromAdvertisement(advertisement.value);
        if resource.Err? {
          events := [T.Refused(resource.error)];
          return;
        }
        var key := link + resource.value.hash;
        var (asked, request) := R.NextRequest(resource.value, now);
        inbound := inbound[key := asked];
        sent := T.Asking(link, request);
        events := [T.Started(key, resource.value.totalSize)];
      } else if context == T.RESOURCE_REQ {
        var start := if plaintext != [] && plaintext[0] == 0xFF then 5 else 1;
        if |plaintext| < start + 32 {
          return;
        }
        var key := link + plaintext[start..start + 32];
        if key !in outbound {
          return;
        }
        var (served, outputs) := R.OnRequest(outbound[key], plaintext, now);
        outbound := outbound[key := served];
        sent := Enqueue(link, outputs);
      } else if context == T.RESOURCE_HMU {
        if |plaintext| < 32 || link + plaintext[..32] !in inbound {
          return;
        }
        var key := link + plaintext[..32];
        var (asked, request) := R.ReceiveUpdate(inbound[key], plaintext, now);
        inbound := inbound[key := asked];
        sent := T.Asking(link, request);
      } else if context == T.RESOURCE_ICL || context == T.RESOURCE_RCL {
        if |plaintext| < 32 {
          return;
        }
        var key := link + plaintext[..32];
        inbound := inbound - {key};
        outbound := outbound - {key};
        events := [T.GivenUp(key)];
      }
    }

    /** Parts leave as they are, hashmap updates sealed, in order. */
    method Enqueue(link: Bytes, outputs: seq<R.Output>) returns (sent: seq<T.Sent>)
      ensures sent == T.Answers(link, outputs)
    {
      hide T.Answers;
      sent := [];
      var i := 0;
      AnswersNothing(link);
      while i < |outputs|
        invariant 0 <= i <= |outputs|
        invariant sent == T.Answers(link, outputs[..i])
      {
        AnswersAppend(link, outputs[..i], outputs[i]);
        assert outputs[..i + 1] == outputs[..i] + [outputs[i]];
        match outputs[i] {
          case Part(p) => sent := sent + [T.Plain(link, Packets.RESOURCE, p)];
          case HashmapUpdate(u) => sent := sent + [T.Sealed(link, T.RESOURCE_HMU, u)];
        }
        i := i + 1;
      }
      assert outputs[..i] == outputs;
    }

    /** Tries the transfers of the link in key order; the first that accepts the part takes it. */
    method HandlePart(c: Suite, z: R.Codec, link: Bytes, secret: Bytes, part: Bytes, entropy: bool, now: nat)
      returns (sent: seq<T.Sent>, events: seq<T.Event>)
      requires T.Fit(View())
      modifies this
      ensures T.Effect(View(), sent, events)
              == T.OnPartArrival(c, z, old(View()), link, secret, part, entropy, now)
    {
      hide T.FirstAccepting, T.Took, R.OnPart, Order.Sorted, T.OnLink;
      var candidates := Order.Sorted(inbound.Keys);
      var i := 0;
      assert candidates[0..] == candidates;
      while i < |candidates|
        invariant 0 <= i <= |candidates|
        invariant View() == old(View())
        invariant T.FirstAccepting(c, inbound, candidates, link, part)
               == T.FirstAccepting(c, inbound, candidates[i..], link, part)
      {
        var key := candidates[i];
        FirstStep(c, inbound, candidates, i, link, part);
        if T.OnLink(key, link) {
          var (resource, accepted) := R.OnPart(c, inbound[key], part);
          if accepted {
            T.PartSound(c, inbound[key], part);
            sent, events := Take(c, z, link, key, resource, secret, entropy, now);
            return;
          }
        }
        i := i + 1;
      }
      NoneAccepts(c, inbound, candidates[i..], link, part);
      sent, events := [], [];
    }

    /** The transfer that took a part: complete, asking for more, or waiting. */
    method Take(c: Suite, z: R.Codec, link: Bytes, key: T.Key, resource: R.Inbound, secret: Bytes, entropy: bool, now: nat)
      returns (sent: seq<T.Sent>, events: seq<T.Event>)
      requires R.Sound(resource)
      modifies this
      ensures T.Effect(View(), sent, events)
              == T.Took(c, z, old(View()), link, key, resource, secret, entropy, now)
    {
      hide R.Finalize, R.NextRequest, R.ProofOf, T.Received, R.IsComplete, R.ReadyForRequest;
      sent := [];
      events := [T.Progress(key, T.Received(resource.parts), |resource.parts|)];
      if R.IsComplete(resource) {
        var finalized := R.Finalize(c, z, resource, secret);
        inbound := inbound - {key};
        match finalized {
          case Ok(data) =>
            sent := [T.Plain(link, T.RESOURCE_PRF, R.ProofOf(c, resource, data))];
            events := events + [T.Completed(key, data)];
          case Err(_) =>
            events := events + [T.GivenUp(key)];
        }
      } else if entropy && R.ReadyForRequest(resource) {
        var (asked, request) := R.NextRequest(resource, now);
        inbound := inbound[key := asked];
        if asked.retries == 0 {
          sent := T.Asking(link, request);
        }
      } else {
        inbound := inbound[key := resource];
      }
    }

    method HandleProof(link: Bytes, data: Bytes) returns (events: seq<T.Event>)
      modifies this
      ensures T.Effect(View(), [], events) == T.OnProofArrival(old(View()), link, data)
    {
      hide R.OnProof;
      events := [];
      if |data| < 32 || link + data[..32] !in outbound {
        return;
      }
      var key := link + data[..32];
      var proved := R.OnProof(outbound[key], data);
      if proved.completed {
        outbound := outbound - {key};
        events := [T.Completed(key, [])];
      } else {
        outbound := outbound[key := proved];
      }
    }

    /** The resource half of a tick: every transfer in key order. */
    method RetryAll(keyed: set<Bytes>, entropy: bool, now: nat) returns (sent: seq<T.Sent>, events: seq<T.Event>)
      requires T.Fit(View())
      modifies this
      ensures T.Effect(View(), sent, events) == T.OnTick(old(View()), keyed, entropy, now)
    {
      hide R.Retry, T.RetrySent, T.RetriesSent, T.RetriesLost, Order.Sorted;
      ghost var t := View();
      var keys := Order.Sorted(inbound.Keys);
      sent, events := [], [];
      var i := 0;
      RetriedNothing(t, keyed, entropy, now);
      while i < |keys|
        invariant 0 <= i <= |keys|
        invariant outbound == t.outbound
        invariant inbound == Retried(t, keys[..i], now)
        invariant sent == T.RetriesSent(t, keys[..i], keyed, entropy, now)
        invariant events == T.RetriesLost(t, keys[..i], now)
      {
        var key := keys[i];
        Order.SortedOnce(t.inbound.Keys, i);
        assert keys[..i + 1] == keys[..i] + [key];
        RetriedAppend(t, keys[..i], key, keyed, entropy, now);
        var retry := R.Retry(inbound[key], now);
        sent := sent + T.RetrySent(inbound[key], key, keyed, entropy, now);
        match retry {
          case Ok(retried) =>
            inbound := inbound[key := retried.0];
          case Err(_) =>
            inbound := inbound - {key};
            events := events + [T.GivenUp(key)];
        }
        i := i + 1;
      }
      assert keys[..i] == keys;
      AllRetried(t, keys, now);
    }
  }

  lemma AnswersNothing(link: Bytes)
    ensures T.Answers(link, []) == []
  {
  }

  lemma {:induction false} AnswersAppend(link: Bytes, outputs: seq<R.Output>, x: R.Output)
    ensures T.Answers(link, outputs + [x]) == T.Answers(link, outputs) + T.Answers(link, [x])
    ensures T.Answers(link, [x])
            == if x.Part? then [T.Plain(link, Packets.RESOURCE, x.part)] else [T.Sealed(link, T.RESOURCE_HMU, x.update)]
    decreases |outputs|
  {
    var all := outputs + [x];
    assert T.Answers(link, [x][1..]) == [];
    if outputs == [] {
      assert all == [x];
    } else {
      AnswersAppend(link, outputs[1..], x);
      assert all[1..] == outputs[1..] + [x];
    }
  }

  lemma FirstStep(c: Suite, inbound: map<T.Key, R.Inbound>, keys: seq<T.Key>, i: nat, link: Bytes, part: Bytes)
    requires i < |keys| && forall k | k in keys :: k in inbound && R.Sound(inbound[k])
    ensures T.FirstAccepting(c, inbound, keys[i..], link, part)
            == if T.OnLink(keys[i], link) && R.OnPart(c, inbound[keys[i]], part).1 then Some(keys[i])
               else T.FirstAccepting(c, inbound, keys[i + 1..], link, part)
  {
    hide R.OnPart, T.OnLink;
    assert keys[i..][0] == keys[i] && keys[i..][1..] == keys[i + 1..];
  }

  lemma NoneAccepts(c: Suite, inbound: map<T.Key, R.Inbound>, keys: seq<T.Key>, link: Bytes, part: Bytes)
    requires keys == []
    ensures T.FirstAccepting(c, inbound, keys, link, part) == None
  {
  }

  /** The inbound transfers with some of them retried. */
  function Retried(t: T.Table, keys: seq<T.Key>, now: nat): map<T.Key, R.Inbound>
    requires T.Fit(t)
  {
    map k | k in t.inbound && (k in keys ==> R.Retry(t.inbound[k], now).Ok?) ::
      if k in keys then R.Retry(t.inbound[k], now).value.0 else t.inbound[k]
  }

  lemma RetriedNothing(t: T.Table, keyed: set<Bytes>, entropy: bool, now: nat)
    requires T.Fit(t)
    ensures Retried(t, [], now) == t.inbound
    ensures T.RetriesSent(t, [], keyed, entropy, now) == [] && T.RetriesLost(t, [], now) == []
  {
  }

  lemma RetriedMap(t: T.Table, keys: seq<T.Key>, key: T.Key, now: nat)
    requires T.Fit(t) && key in t.inbound && key !in keys
    ensures key in Retried(t, keys, now) && Retried(t, keys, now)[key] == t.inbound[key]
    ensures Retried(t, keys + [key], now)
            == match R.Retry(t.inbound[key], now)
               case Ok(r) => Retried(t, keys, now)[key := r.0]
               case Err(_) => Retried(t, keys, now) - {key}
  {
    hide R.Retry;
  }

  lemma {:induction false} SentAppend(t: T.Table, keys: seq<T.Key>, key: T.Key, keyed: set<Bytes>, entropy: bool, now: nat)
    requires T.Fit(t) && key in t.inbound && forall k | k in keys :: k in t.inbound
    ensures T.RetriesSent(t, keys + [key], keyed, entropy, now)
            == T.RetriesSent(t, keys, keyed, entropy, now) + T.RetrySent(t.inbound[key], key, keyed, entropy, now)
    ensures T.RetriesLost(t, keys + [key], now)
            == T.RetriesLost(t, keys, now) + if R.Retry(t.inbound[key], now).Err? then [T.GivenUp(key)] else []
    decreases |keys|
  {
    hide R.Retry, T.RetrySent;
    var all := keys + [key];
    if keys == [] {
      assert all[1..] == [] && all[0] == key;
      assert T.RetriesSent(t, [], keyed, entropy, now) == [] && T.RetriesLost(t, [], now) == [];
    } else {
      SentAppend(t, keys[1..], key, keyed, entropy, now);
      assert all[1..] == keys[1..] + [key];
    }
  }

  lemma RetriedAppend(t: T.Table, keys: seq<T.Key>, key: T.Key, keyed: set<Bytes>, entropy: bool, now: nat)
    requires T.Fit(t) && key in t.inbound && key !in keys && forall k | k in keys :: k in t.inbound
    ensures key in Retried(t, keys, now) && Retried(t, keys, now)[key] == t.inbound[key]
    ensures Retried(t, keys + [key], now)
            == match R.Retry(t.inbound[key], now)
               case Ok(r) => Retried(t, keys, now)[key := r.0]
               case Err(_) => Retried(t, keys, now) - {key}
    ensures T.RetriesSent(t, keys + [key], keyed, entropy, now)
            == T.RetriesSent(t, keys, keyed, entropy, now) + T.RetrySent(t.inbound[key], key, keyed, entropy, now)
    ensures T.RetriesLost(t, keys + [key], now)
            == T.RetriesLost(t, keys, now) + if R.Retry(t.inbound[key], now).Err? then [T.GivenUp(key)] else []
  {
    hide Retried, R.Retry, T.RetriesSent, T.RetriesLost;
    RetriedMap(t, keys, key, now);
    SentAppend(t, keys, key, keyed, entropy, now);
  }

  lemma AllRetried(t: T.Table, keys: seq<T.Key>, now: nat)
    requires T.Fit(t) && forall k :: k in keys <==> k in t.inbound
    ensures Retried(t, keys, now)
            == map k | k in t.inbound && R.Retry(t.inbound[k], now).Ok? :: R.Retry(t.inbound[k], now).value.0
  {
    hide R.Retry;
  }
}
