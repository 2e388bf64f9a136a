/** Whatever arrives, in whatever order, a transfer that completes yields exactly the data sent. */
module ResourceSafety {
  import opened Base
  import opened Crypto
  import opened MessagePack
  import opened ResourceWire
  import opened ResourceState

  ghost predicate Distinct(s: seq<Bytes>) {
    forall i, j | 0 <= i < j < |s| :: s[i] != s[j]
  }

  /** A sender whose map holds the distinct hashes of its parts. */
  ghost predicate Honest(c: Suite, o: Outbound) {
    && MapMatches(o) && |o.hash| == 32 && |o.random| == 4
    && Entries(o.map_) == Hashes(c, o.parts, o.random)
    && Distinct(Hashes(c, o.parts, o.random))
  }

  /** The map as the receiver should come to know it. */
  function TrueMap(c: Suite, o: Outbound): seq<Bytes> {
    Hashes(c, o.parts, o.random)
  }

  /** Every known map entry and every filled slot is the sender's. */
  ghost predicate Consistent(c: Suite, o: Outbound, s: Inbound) {
    && s.hash == o.hash && s.random == o.random && |s.map_| == |s.parts| == |o.parts|
    && (forall i | 0 <= i < |o.parts| :: s.map_[i].Some? ==> s.map_[i].value == TrueMap(c, o)[i])
    && (forall i | 0 <= i < |o.parts| :: s.parts[i].Some? ==> s.parts[i].value == o.parts[i] && s.map_[i].Some?)
  }

  /** Segment `k` of the sender's map, as it is sent. */
  function SegmentUpdate(o: Outbound, k: nat): Bytes
    requires MapMatches(o) && k * SEGMENT < |o.parts|
  {
    PackUpdate(Update(o.hash, k, o.map_[4 * (k * SEGMENT)..4 * Min((k + 1) * SEGMENT, |o.parts|)]))
  }

  /** What may arrive: the sender's parts and hashmap updates, and anything whose hash is not in the
      sender's map. */
  ghost predicate Harmless(c: Suite, o: Outbound, x: Output)
    requires MapMatches(o)
  {
    match x
    case Part(p) => p in o.parts || MapHash(c, p, o.random) !in TrueMap(c, o)
    case HashmapUpdate(u) => exists k: nat :: k * SEGMENT < |o.parts| && u == SegmentUpdate(o, k)
  }

  lemma SlotIsOwn(c: Suite, o: Outbound, s: Inbound, p: Bytes)
    requires Honest(c, o) && Consistent(c, o, s) && Harmless(c, o, Part(p))
    ensures var i := SlotFor(s.map_, s.parts, MapHash(c, p, s.random));
            i < |s.map_| ==> p == o.parts[i]
  {
    var i := SlotFor(s.map_, s.parts, MapHash(c, p, s.random));
    if i < |s.map_| {
      assert TrueMap(c, o)[i] == MapHash(c, p, o.random);
      assert p in o.parts;
      var j :| 0 <= j < |o.parts| && o.parts[j] == p;
      assert TrueMap(c, o)[j] == TrueMap(c, o)[i];
    }
  }

  lemma PartKeeps(c: Suite, o: Outbound, s: Inbound, p: Bytes)
    requires Honest(c, o) && Consistent(c, o, s) && Harmless(c, o, Part(p))
    ensures Consistent(c, o, OnPart(c, s, p).0)
  {
    SlotIsOwn(c, o, s, p);
    hide MapHash, SlotFor, Without, Honest, Harmless;
  }

  /** The entries of an aligned slice are a slice of the entries. */
  lemma EntriesOfSlice(b: Bytes, start: nat, end: nat)
    requires start <= end && 4 * end <= |b|
    ensures Entries(b[4 * start..4 * end]) == Entries(b)[start..end]
  {
    var slice := b[4 * start..4 * end];
    forall i | 0 <= i < end - start ensures Entries(slice)[i] == Entries(b)[start + i] {
      assert slice[4 * i..4 * i + 4] == b[4 * (start + i)..4 * (start + i) + 4];
    }
  }

  /** The entries of segment `k` are the sender's hashes from index 74k on. */
  lemma SegmentEntries(c: Suite, o: Outbound, k: nat)
    requires Honest(c, o) && k * SEGMENT < |o.parts|
    ensures var end := Min((k + 1) * SEGMENT, |o.parts|);
            Entries(o.map_[4 * (k * SEGMENT)..4 * end]) == TrueMap(c, o)[k * SEGMENT..end]
  {
    EntriesOfSlice(o.map_, k * SEGMENT, Min((k + 1) * SEGMENT, |o.parts|));
    hide Entries, Hashes;
  }

  lemma SegmentUnpacks(o: Outbound, k: nat)
    requires MapMatches(o) && |o.hash| == 32 && k * SEGMENT < |o.parts|
    ensures UnpackUpdate(SegmentUpdate(o, k))
            == Ok(Update(o.hash, k, o.map_[4 * (k * SEGMENT)..4 * Min((k + 1) * SEGMENT, |o.parts|)]))
  {
    UnpackPackUpdate(Update(o.hash, k, o.map_[4 * (k * SEGMENT)..4 * Min((k + 1) * SEGMENT, |o.parts|)]));
    hide PackUpdate, UnpackUpdate;
  }

  /** Writing the sender's entries from `start` on keeps the map the sender's. */
  lemma PutKeeps(c: Suite, o: Outbound, s: Inbound, start: nat, end: nat)
    requires Consistent(c, o, s) && start <= end <= |o.parts|
    ensures var s' := s.(map_ := Put(s.map_, start, TrueMap(c, o)[start..end]), waitingForUpdate := false);
            && Consistent(c, o, s')
            && forall i | 0 <= i < |o.parts| :: s'.map_[i].Some? <==> s.map_[i].Some? || start <= i < end
  {
    hide Put, Hashes;
  }

  /** Storing segment `k` makes exactly its entries known, and is accepted. */
  lemma UpdateStores(c: Suite, o: Outbound, s: Inbound, k: nat)
    requires Honest(c, o) && Consistent(c, o, s) && k * SEGMENT < |o.parts|
    ensures var (s', ok) := OnUpdate(s, SegmentUpdate(o, k));
            && ok && Consistent(c, o, s') && s' == s.(map_ := s'.map_, waitingForUpdate := false)
            && forall i | 0 <= i < |o.parts| ::
                 s'.map_[i].Some? <==> s.map_[i].Some? || k * SEGMENT <= i < (k + 1) * SEGMENT
  {
    SegmentUnpacks(o, k);
    SegmentEntries(c, o, k);
    var start, end := k * SEGMENT, Min((k + 1) * SEGMENT, |o.parts|);
    PutKeeps(c, o, s, start, end);
    assert OnUpdate(s, SegmentUpdate(o, k))
        == (s.(map_ := Put(s.map_, start, TrueMap(c, o)[start..end]), waitingForUpdate := false), true) by {
      hide SegmentUpdate, UnpackUpdate, Honest, TrueMap, Put, Entries;
    }
    hide SegmentUpdate, OnUpdate, Honest, TrueMap, Put, Entries, Consistent;
  }

  lemma RequestKeeps(c: Suite, o: Outbound, s: Inbound, now: nat)
    requires Consistent(c, o, s)
    ensures Consistent(c, o, NextRequest(s, now).0)
  {
    hide FirstMissing, LastKnown, Wanted, Concat, IsComplete;
  }

  lemma ReceiveKeeps(c: Suite, o: Outbound, s: Inbound, x: Output, now: nat)
    requires Honest(c, o) && Consistent(c, o, s) && Harmless(c, o, x)
    ensures Consistent(c, o, Receive(c, s, x, now).0)
  {
    match x {
      case Part(p) =>
        PartKeeps(c, o, s, p);
        RequestKeeps(c, o, OnPart(c, s, p).0, now);
      case HashmapUpdate(u) =>
        var k: nat :| k * SEGMENT < |o.parts| && u == SegmentUpdate(o, k);
        UpdateStores(c, o, s, k);
        RequestKeeps(c, o, OnUpdate(s, u).0, now);
    }
    hide Consistent, OnPart, OnUpdate, NextRequest, SegmentUpdate, Honest;
  }

  // ------------------------------------------------------------------ runs of the receiver

  datatype Happening = Arrives(x: Output, now: nat) | RetryTick(now: nat)

  function React(c: Suite, s: Inbound, h: Happening): (r: Inbound)
    requires Sound(s)
    ensures Sound(r)
  {
    match h
    case Arrives(x, now) => Receive(c, s, x, now).0
    case RetryTick(now) => if Retry(s, now).Ok? then Retry(s, now).value.0 else s
  }

  function Reacts(c: Suite, s: Inbound, hs: seq<Happening>): (r: Inbound)
    requires Sound(s)
    ensures Sound(r)
  {
    if hs == [] then s else React(c, Reacts(c, s, hs[..|hs| - 1]), hs[|hs| - 1])
  }

  lemma ReactKeeps(c: Suite, o: Outbound, s: Inbound, h: Happening)
    requires Honest(c, o) && Consistent(c, o, s) && (h.Arrives? ==> Harmless(c, o, h.x))
    ensures Consistent(c, o, React(c, s, h))
  {
    hide Receive, NextRequest, Harmless, Honest, IsComplete;
    match h {
      case Arrives(x, now) => ReceiveKeeps(c, o, s, x, now);
      case RetryTick(now) =>
        RequestKeeps(c, o, s.(retries := s.retries + 1, window := Max(s.window - 1, WINDOW_MIN)), now);
    }
  }

  lemma {:induction false} RunKeeps(c: Suite, o: Outbound, s: Inbound, hs: seq<Happening>)
    requires Honest(c, o) && Consistent(c, o, s)
    requires forall h | h in hs && h.Arrives? :: Harmless(c, o, h.x)
    ensures Consistent(c, o, Reacts(c, s, hs))
    decreases |hs|
  {
    if hs != [] {
      var k := |hs| - 1;
      var front := hs[..k];
      assert forall h | h in front :: h in hs;
      RunKeeps(c, o, s, front);
      assert hs[k] in hs;
      ReactKeeps(c, o, Reacts(c, s, front), hs[k]);
    }
    hide React, Consistent, Harmless, Honest;
  }

  // ------------------------------------------------------------------ the two ends together

  lemma {:induction false} ConcatEntry(hashes: seq<Bytes>, i: nat)
    requires (forall h | h in hashes :: |h| == 4) && i < |hashes|
    ensures |Concat(hashes)| == 4 * |hashes|
    ensures Concat(hashes)[4 * i..4 * i + 4] == hashes[i]
  {
    var rest := hashes[1..];
    if rest == [] {
      assert Concat(rest) == [];
    } else {
      ConcatEntry(rest, if i == 0 then 0 else i - 1);
    }
    assert Concat(hashes) == hashes[0] + Concat(rest);
    if i > 0 {
      assert Concat(hashes)[4 * i..4 * i + 4] == Concat(rest)[4 * (i - 1)..4 * (i - 1) + 4];
    }
    hide Concat;
  }

  lemma EntriesOfConcat(hashes: seq<Bytes>)
    requires forall h | h in hashes :: |h| == 4
    ensures |Concat(hashes)| == 4 * |hashes| && Entries(Concat(hashes)) == hashes
  {
    if hashes == [] {
      assert Entries([]) == [];
    } else {
      ConcatEntry(hashes, 0);
      forall i | 0 <= i < |hashes| ensures Entries(Concat(hashes))[i] == hashes[i] {
        ConcatEntry(hashes, i);
      }
    }
    hide Concat;
  }

  /** The sender's inputs: data of an admissible size and a random hash without map collisions. */
  ghost predicate Sendable(c: Suite, z: Codec, data: Bytes, o: Outbound) {
    && 0 < |data| <= MAX_EFFICIENT_SIZE && MapMatches(o) && 0 < |o.parts| <= MAX_EFFICIENT_SIZE / MAPHASH_LEN
    && Distinct(TrueMap(c, o))
  }

  lemma NewIsHonest(c: Suite, z: Codec, data: Bytes, key: Bytes, prefix: Bytes, iv: Bytes, random: Bytes, now: nat)
    requires Sized(c) && |random| == 4
    requires Sendable(c, z, data, NewOutbound(c, z, data, key, prefix, iv, random, now))
    ensures Honest(c, NewOutbound(c, z, data, key, prefix, iv, random, now))
  {
    var o := NewOutbound(c, z, data, key, prefix, iv, random, now);
    EntriesOfConcat(Hashes(c, o.parts, random));
    hide Concat, Entries, SplitParts;
  }

  lemma AdvertisedEntries(c: Suite, z: Codec, o: Outbound, data: Bytes)
    requires Honest(c, o)
    ensures Entries(Advertised(z, o, data).m) == TrueMap(c, o)[..Min(|o.parts|, SEGMENT)]
  {
    EntriesOfSlice(o.map_, 0, Min(|o.parts|, SEGMENT));
    hide Entries, Hashes;
  }

  /** The receiver starts knowing exactly the first segment of the sender's map. */
  lemma StartConsistent(c: Suite, z: Codec, o: Outbound, data: Bytes)
    requires Honest(c, o) && Sendable(c, z, data, o)
    ensures var r := FromAdvertisement(Advertised(z, o, data));
            && r.Ok? && Consistent(c, o, r.value) && r.value.totalSize == o.totalSize
            && r.value.compressed == z.pack(data).1 && r.value.window == WINDOW && r.value.retries == 0
            && r.value.outstanding == [] && !r.value.waitingForUpdate
            && forall i | 0 <= i < |o.parts| :: r.value.parts[i].None? && (r.value.map_[i].Some? <==> i < SEGMENT)
  {
    AdvertisedEntries(c, z, o, data);
    hide Honest, Hashes, Distinct, Entries;
  }

  lemma {:induction false} FilledIsParts(slots: seq<Option<Bytes>>, parts: seq<Bytes>)
    requires |slots| == |parts| && forall i | 0 <= i < |parts| :: slots[i] == Some(parts[i])
    ensures Filled(slots) == parts
  {
    if slots != [] {
      FilledIsParts(slots[1..], parts[1..]);
    }
  }

  /** A complete, consistent transfer yields the data sent, and the sender accepts its proof. */
  lemma CompleteIsExact(c: Suite, z: Codec, data: Bytes, key: Bytes, prefix: Bytes, iv: Bytes, random: Bytes, now: nat,
                        s: Inbound)
    requires Lawful(c) && Faithful(z) && |prefix| == 4
    requires var o := NewOutbound(c, z, data, key, prefix, iv, random, now);
             Consistent(c, o, s) && s.totalSize == o.totalSize && s.compressed == z.pack(data).1
    requires IsComplete(s)
    ensures Finalize(c, z, s, key) == Ok(data)
    ensures OnProof(NewOutbound(c, z, data, key, prefix, iv, random, now), ProofOf(c, s, data)).completed
  {
    var o := NewOutbound(c, z, data, key, prefix, iv, random, now);
    var sealed := c.seal(key, prefix + z.pack(data).0, iv);
    FilledIsParts(s.parts, o.parts);
    ReassembleSplit(sealed, SDU);
    assert (prefix + z.pack(data).0)[4..] == z.pack(data).0;
    var proof := ProofOf(c, s, data);
    assert proof[..32] == o.hash && proof[32..] == o.expectedProof;
    hide Filled, Reassemble, SplitParts, Concat, Hashes;
  }

  ghost predicate SameTransfer(a: Inbound, b: Inbound) {
    b.totalSize == a.totalSize && b.compressed == a.compressed
  }

  lemma RequestSame(s: Inbound, now: nat)
    requires Sound(s)
    ensures SameTransfer(s, NextRequest(s, now).0)
  {
    hide FirstMissing, LastKnown, Wanted, Concat, IsComplete;
  }

  lemma ReactSame(c: Suite, s: Inbound, h: Happening)
    requires Sound(s)
    ensures SameTransfer(s, React(c, s, h))
  {
    hide NextRequest, IsComplete, SlotFor, Without, MapHash, UnpackUpdate, Put, Entries;
    match h {
      case Arrives(Part(p), now) => RequestSame(OnPart(c, s, p).0, now);
      case Arrives(HashmapUpdate(u), now) => RequestSame(OnUpdate(s, u).0, now);
      case RetryTick(now) => RequestSame(s.(retries := s.retries + 1, window := Max(s.window - 1, WINDOW_MIN)), now);
    }
  }

  /** Nothing a receiver does changes what the transfer is about. */
  lemma {:induction false} RunSameTransfer(c: Suite, s: Inbound, hs: seq<Happening>)
    requires Sound(s)
    ensures SameTransfer(s, Reacts(c, s, hs))
    decreases |hs|
  {
    if hs != [] {
      RunSameTransfer(c, s, hs[..|hs| - 1]);
      ReactSame(c, Reacts(c, s, hs[..|hs| - 1]), hs[|hs| - 1]);
    }
    hide React;
  }

  /** Resource safety: with an honest sender, after any loss, duplication, reordering and any foreign
      parts, every filled slot is the sender's, and a complete transfer returns exactly the data. */
  lemma TransferExact(c: Suite, z: Codec, data: Bytes, key: Bytes, prefix: Bytes, iv: Bytes, random: Bytes, now: nat,
                      hs: seq<Happening>)
    requires Lawful(c) && Faithful(z) && |prefix| == 4 && |random| == 4
    requires Sendable(c, z, data, NewOutbound(c, z, data, key, prefix, iv, random, now))
    requires var o := NewOutbound(c, z, data, key, prefix, iv, random, now);
             forall h | h in hs && h.Arrives? :: Harmless(c, o, h.x)
    ensures var o := NewOutbound(c, z, data, key, prefix, iv, random, now);
            var start := FromAdvertisement(Advertised(z, o, data));
            && start.Ok?
            && var s := Reacts(c, start.value, hs);
            && Consistent(c, o, s)
            && (IsComplete(s) ==> Finalize(c, z, s, key) == Ok(data) && OnProof(o, ProofOf(c, s, data)).completed)
  {
    var o := NewOutbound(c, z, data, key, prefix, iv, random, now);
    NewIsHonest(c, z, data, key, prefix, iv, random, now);
    StartConsistent(c, z, o, data);
    var start := FromAdvertisement(Advertised(z, o, data)).value;
    RunKeeps(c, o, start, hs);
    RunSameTransfer(c, start, hs);
    var s := Reacts(c, start, hs);
    hide NewOutbound, Reacts, Consistent, Finalize, OnProof, FromAdvertisement, Advertised, Harmless, Honest, Sendable;
    if IsComplete(s) {
      CompleteIsExact(c, z, data, key, prefix, iv, random, now, s);
    }
  }
}
