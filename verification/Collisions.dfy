/** The sender picks a random hash under which parts that can be confused have different map hashes. */
module Collisions {
  import opened Base
  import opened Crypto
  import opened ResourceWire
  import opened ResourceState
  import opened ResourceSafety
  import opened ResourceMap
  import opened ResourceProgress

  /** Twice the largest window plus one map segment. */
  const GUARD: nat := 2 * WINDOW_MAX + SEGMENT

  /** No two entries at most `reach` places apart are equal. */
  ghost predicate DistinctWithin(entries: seq<Bytes>, reach: nat) {
    forall i, j | 0 <= i < j < |entries| && j - i <= reach :: entries[i] != entries[j]
  }

  /** One pass over the map with a sliding list of the most recent entries. */
  method NoCollision(entries: seq<Bytes>) returns (ok: bool)
    ensures ok <==> DistinctWithin(entries, GUARD)
  {
    var recent: seq<Bytes> := [];
    var i := 0;
    ok := true;
    while i < |entries|
      invariant 0 <= i <= |entries|
      invariant recent == entries[Max(0, i - GUARD)..i]
      invariant DistinctWithin(entries[..i], GUARD)
    {
      if entries[i] in recent {
        var k :| 0 <= k < |recent| && recent[k] == entries[i];
        assert entries[Max(0, i - GUARD) + k] == entries[i];
        return false;
      }
      forall j | 0 <= j < i && i - j <= GUARD ensures entries[j] != entries[i] {
        assert recent[j - Max(0, i - GUARD)] == entries[j];
      }
      recent := recent + [entries[i]];
      if |recent| > GUARD {
        recent := recent[1..];
      }
      i := i + 1;
    }
    assert entries[..i] == entries;
  }

  /** The constructor's loop: the first random hash of the entropy stream that shows no collision, or none
      if the stream ends first. */
  method PickRandom(c: Suite, parts: seq<Bytes>, entropy: seq<Bytes>) returns (picked: Option<Bytes>)
    ensures picked.Some? ==>
              exists n :: 0 <= n < |entropy| && entropy[n] == picked.value
                          && DistinctWithin(Hashes(c, parts, picked.value), GUARD)
                          && forall m | 0 <= m < n :: !DistinctWithin(Hashes(c, parts, entropy[m]), GUARD)
    ensures picked.None? ==> forall n | 0 <= n < |entropy| :: !DistinctWithin(Hashes(c, parts, entropy[n]), GUARD)
  {
    var n := 0;
    while n < |entropy|
      invariant 0 <= n <= |entropy|
      invariant forall m | 0 <= m < n :: !DistinctWithin(Hashes(c, parts, entropy[m]), GUARD)
    {
      var ok := NoCollision(Hashes(c, parts, entropy[n]));
      if ok {
        return Some(entropy[n]);
      }
      n := n + 1;
    }
    picked := None;
  }

  /** Up to 225 parts the check means that all map hashes differ. */
  lemma SmallDistinct(entries: seq<Bytes>)
    requires |entries| <= GUARD + 1
    ensures DistinctWithin(entries, GUARD) <==> Distinct(entries)
  {
  }

  /** The map of a resource with `n` parts that passed the check. */
  ghost predicate Passes(entries: seq<Bytes>, n: nat) {
    |entries| == n && (forall e | e in entries :: |e| == 4) && DistinctWithin(entries, GUARD)
  }

  /** Entries that repeat after 225. */
  function Repeating(n: nat): (r: seq<Bytes>)
    ensures |r| == n && forall i | 0 <= i < n :: r[i] == [0, 0, 0, i % (GUARD + 1)]
  {
    seq(n, i requires 0 <= i < n => [0, 0, 0, i % (GUARD + 1)])
  }

  lemma SameRemainder(i: nat, j: nat, k: nat)
    requires i < j < i + k
    ensures i % k != j % k
  {
    var d := j / k - i / k;
    assert j - i == k * d + (j % k - i % k);
    assert d >= 1 ==> k * d >= k;
    assert d <= 0 ==> k * d <= 0;
  }

  /** The check makes the map hashes of `n` parts pairwise distinct exactly for n up to 225. */
  lemma CheckSufficesExactly(n: nat)
    ensures (forall entries | Passes(entries, n) :: Distinct(entries)) <==> n <= GUARD + 1
  {
    if n <= GUARD + 1 {
      forall entries | Passes(entries, n) ensures Distinct(entries) {
        SmallDistinct(entries);
      }
    } else {
      var entries := Repeating(n);
      forall i, j | 0 <= i < j < n && j - i <= GUARD ensures entries[i] != entries[j] {
        SameRemainder(i, j, GUARD + 1);
        assert entries[i][3] != entries[j][3];
      }
      assert Passes(entries, n);
      assert entries[0] == entries[GUARD + 1];
    }
  }

  // ------------------------------------------------------------------ what a collision does

  lemma {:induction false} IndexOfSame(hashes: seq<Bytes>, i: nat)
    requires i < |hashes|
    ensures IndexOf(hashes, hashes[i]) <= i
    ensures IndexOf(hashes, hashes[i]) == i <==> forall k | 0 <= k < i :: hashes[k] != hashes[i]
  {
    hide IndexOf;
  }

  /** A request for one index is answered with the part of the first index that has its hash: with its own index
      exactly if no earlier entry of the map is equal. */
  lemma AnsweredWithFirst(c: Suite, o: Outbound, j: nat, now: nat)
    requires MapMatches(o) && |o.hash| == 32 && Entries(o.map_) == TrueMap(c, o) && j < |o.parts| && |TrueMap(c, o)[j]| == 4
    ensures var i := IndexOf(TrueMap(c, o), TrueMap(c, o)[j]);
            && OnRequest(o, PartsRequest(o, [TrueMap(c, o)[j]]), now).1 == [Part(o.parts[i])]
            && (i == j <==> forall k | 0 <= k < j :: TrueMap(c, o)[k] != TrueMap(c, o)[j])
  {
    hide OnRequest, Hashes, PartsRequest, Entries, MapHash, IndexOf;
    var w := TrueMap(c, o)[j];
    IndexOfSame(TrueMap(c, o), j);
    PartsRequestReads(o, [w], now);
    var wanted := [w];
    assert |wanted[1..]| == 0;
  }

  lemma {:induction false} LookupFirsts(hashes: seq<Bytes>, parts: seq<Bytes>, wanted: seq<Bytes>, p: Bytes)
    requires |parts| == |hashes| && Part(p) in Lookup(hashes, parts, wanted)
    ensures exists h :: IndexOf(hashes, h) < |hashes| && parts[IndexOf(hashes, h)] == p
    decreases |wanted|
  {
    hide IndexOf;
    if wanted != [] && Part(p) in Lookup(hashes, parts, wanted[1..]) {
      LookupFirsts(hashes, parts, wanted[1..], p);
    }
  }

  /** Part `j` is a different part than the first one with its map hash. */
  ghost predicate Hidden(c: Suite, o: Outbound, j: nat) {
    j < |o.parts| && o.parts[IndexOf(TrueMap(c, o), TrueMap(c, o)[j])] != o.parts[j]
  }

  /** No request, well formed or not, ever gets a hidden part; every other part some request gets. */
  lemma SentExactly(c: Suite, o: Outbound, j: nat)
    requires Sized(c) && MapMatches(o) && |o.hash| == 32 && Entries(o.map_) == TrueMap(c, o) && j < |o.parts|
    ensures (exists request: Bytes, now: nat :: Part(o.parts[j]) in OnRequest(o, request, now).1) <==> !Hidden(c, o, j)
  {
    forall request: Bytes, now: nat | Part(o.parts[j]) in OnRequest(o, request, now).1 ensures !Hidden(c, o, j) {
      NotAnswered(c, o, j, request, now);
    }
    if !Hidden(c, o, j) {
      AnsweredWithFirst(c, o, j, 0);
      hide OnRequest, Hashes, PartsRequest, Entries, MapHash;
      assert Part(o.parts[j]) in OnRequest(o, PartsRequest(o, [TrueMap(c, o)[j]]), 0).1;
    }
  }

  lemma NotAnswered(c: Suite, o: Outbound, j: nat, request: Bytes, now: nat)
    requires MapMatches(o) && Entries(o.map_) == TrueMap(c, o) && j < |o.parts|
    requires Part(o.parts[j]) in OnRequest(o, request, now).1
    ensures !Hidden(c, o, j)
  {
    hide Hashes, Lookup, Entries, PackUpdate, SegmentAfter, IndexOf;
    var pad := if request[0] == 0xFF then 5 else 1;
    var wanted := Entries(request[pad + 32..]);
    AfterIsUpdate(o, request[1..5]);
    LookupFirsts(TrueMap(c, o), o.parts, wanted, o.parts[j]);
    var h :| IndexOf(TrueMap(c, o), h) < |TrueMap(c, o)| && o.parts[IndexOf(TrueMap(c, o), h)] == o.parts[j];
    assert TrueMap(c, o)[IndexOf(TrueMap(c, o), h)] == h;
  }

  lemma AfterIsUpdate(o: Outbound, last: Bytes)
    requires MapMatches(o)
    ensures forall x | x in SegmentAfter(o, last) :: x.HashmapUpdate?
  {
    hide Entries, PackUpdate, IndexOf;
  }

  lemma {:induction false} LookupIndices(hashes: seq<Bytes>, parts: seq<Bytes>, indices: seq<nat>)
    requires |parts| == |hashes| && Distinct(hashes) && forall k | 0 <= k < |indices| :: indices[k] < |parts|
    ensures Lookup(hashes, parts, HashesAt(hashes, indices)) == PartsAt(parts, indices)
    decreases |indices|
  {
    hide IndexOf, Distinct;
    if indices != [] {
      LookupIndices(hashes, parts, indices[1..]);
      IndexOfDistinct(hashes, indices[0]);
      var wanted := HashesAt(hashes, indices);
      assert wanted[0] == hashes[indices[0]] && wanted[1..] == HashesAt(hashes, indices[1..]);
      assert PartsAt(parts, indices) == [Part(parts[indices[0]])] + PartsAt(parts, indices[1..]);
    }
  }

  function HashesAt(hashes: seq<Bytes>, indices: seq<nat>): seq<Bytes>
    requires forall k | 0 <= k < |indices| :: indices[k] < |hashes|
  {
    seq(|indices|, k requires 0 <= k < |indices| => hashes[indices[k]])
  }

  function PartsAt(parts: seq<Bytes>, indices: seq<nat>): seq<Output>
    requires forall k | 0 <= k < |indices| :: indices[k] < |parts|
  {
    seq(|indices|, k requires 0 <= k < |indices| => Part(parts[indices[k]]))
  }

  /** For a resource of at most 225 parts that passed the check, a request for any parts, in any order and
      with any repetitions, is answered with exactly those parts. */
  lemma SmallResourceAnswers(c: Suite, o: Outbound, indices: seq<nat>, now: nat)
    requires MapMatches(o) && |o.hash| == 32 && |o.random| == 4 && Entries(o.map_) == TrueMap(c, o)
    requires |o.parts| <= GUARD + 1 && DistinctWithin(TrueMap(c, o), GUARD)
    requires forall k | 0 <= k < |indices| :: indices[k] < |o.parts|
    ensures OnRequest(o, PartsRequest(o, HashesAt(TrueMap(c, o), indices)), now).1 == PartsAt(o.parts, indices)
  {
    SmallDistinct(TrueMap(c, o));
    SmallReads(c, o, indices, now);
    hide DistinctWithin, Hashes, Entries, OnRequest, PartsRequest, Distinct;
  }

  lemma SmallReads(c: Suite, o: Outbound, indices: seq<nat>, now: nat)
    requires Honest(c, o) && Distinct(TrueMap(c, o)) && Entries(o.map_) == TrueMap(c, o)
    requires forall k | 0 <= k < |indices| :: indices[k] < |o.parts|
    ensures OnRequest(o, PartsRequest(o, HashesAt(TrueMap(c, o), indices)), now).1 == PartsAt(o.parts, indices)
  {
    hide OnRequest, Lookup, Hashes, PartsRequest, Distinct, Entries, MapHash;
    LookupIndices(TrueMap(c, o), o.parts, indices);
    MapHashes4(c, o);
    var wanted := HashesAt(TrueMap(c, o), indices);
    forall w | w in wanted ensures |w| == 4 {
      var k :| 0 <= k < |indices| && wanted[k] == w;
      assert TrueMap(c, o)[indices[k]] == w;
    }
    PartsRequestReads(o, wanted, now);
  }

  /** A small resource made with a random hash that passed the check meets the hypothesis of the safety
      and progress results. */
  lemma SmallIsHonest(c: Suite, z: Codec, data: Bytes, key: Bytes, prefix: Bytes, iv: Bytes, random: Bytes, now: nat)
    requires Sized(c) && |random| == 4 && 0 < |data| <= MAX_EFFICIENT_SIZE
    requires var o := NewOutbound(c, z, data, key, prefix, iv, random, now);
             0 < |o.parts| <= GUARD + 1 && DistinctWithin(TrueMap(c, o), GUARD)
    ensures Sendable(c, z, data, NewOutbound(c, z, data, key, prefix, iv, random, now))
  {
    var o := NewOutbound(c, z, data, key, prefix, iv, random, now);
    SmallDistinct(TrueMap(c, o));
    assert |o.random| == 4;
    forall h | h in TrueMap(c, o) ensures |h| == 4 {
      var k :| 0 <= k < |o.parts| && TrueMap(c, o)[k] == h;
    }
    EntriesOfConcat(Hashes(c, o.parts, random));
    hide Concat, Entries, SplitParts, Distinct;
  }

  /** A resource of at most 225 parts, made of this data under a random hash that passed the check. */
  ghost predicate SmallPicked(c: Suite, data: Bytes, random: Bytes, o: Outbound) {
    0 < |data| <= MAX_EFFICIENT_SIZE && |random| == 4 && 0 < |o.parts| <= GUARD + 1 && DistinctWithin(TrueMap(c, o), GUARD)
  }

  /** What the check buys: such a resource is received exactly, whatever is lost, copied, reordered or added. */
  lemma SmallTransferExact(c: Suite, z: Codec, data: Bytes, key: Bytes, prefix: Bytes, iv: Bytes, random: Bytes, start: nat,
                           hs: seq<Happening>)
    requires Lawful(c) && Faithful(z) && |prefix| == 4
    requires var o := NewOutbound(c, z, data, key, prefix, iv, random, start);
             SmallPicked(c, data, random, o) && MapMatches(o) && forall h | h in hs && h.Arrives? :: Harmless(c, o, h.x)
    ensures var o := NewOutbound(c, z, data, key, prefix, iv, random, start);
            var a := FromAdvertisement(Advertised(z, o, data));
            && a.Ok?
            && var s := Reacts(c, a.value, hs);
            IsComplete(s) ==> Finalize(c, z, s, key) == Ok(data) && OnProof(o, ProofOf(c, s, data)).completed
  {
    hide NewOutbound, Consistent, Finalize, OnProof, FromAdvertisement, Advertised, IsComplete, Reacts, Harmless, Lawful,
         Faithful, DistinctWithin, Hashes, ProofOf, Sendable;
    LawfulSized(c);
    SmallIsHonest(c, z, data, key, prefix, iv, random, start);
    TransferExact(c, z, data, key, prefix, iv, random, start, hs);
  }

  /** And without loss it is received completely, in at most two rounds per part and without a timer. */
  lemma SmallTransferFinishes(c: Suite, z: Codec, data: Bytes, key: Bytes, prefix: Bytes, iv: Bytes, random: Bytes,
                              start: nat, w: Schedule, n: nat)
    requires Lawful(c) && Faithful(z) && |prefix| == 4 && Shuffles(w)
    requires var o := NewOutbound(c, z, data, key, prefix, iv, random, start);
             SmallPicked(c, data, random, o) && n >= 2 * |o.parts|
    ensures var o := NewOutbound(c, z, data, key, prefix, iv, random, start);
            && MapMatches(o)
            && var a := FromAdvertisement(Advertised(z, o, data));
            && a.Ok?
            && var (asking, request) := NextRequest(a.value, start);
            && request.Some?
            && var end := Rounds(c, o, asking, request.value, w, n);
            IsComplete(end) && Finalize(c, z, end, key) == Ok(data) && OnProof(o, ProofOf(c, end, data)).completed
  {
    hide NewOutbound, NextRequest, Consistent, Finalize, OnProof, FromAdvertisement, Advertised, Rounds, IsComplete,
         Lawful, Faithful, DistinctWithin, Hashes, Shuffles, ProofOf, Sendable;
    LawfulSized(c);
    SmallIsHonest(c, z, data, key, prefix, iv, random, start);
    SendableMatches(c, z, data, NewOutbound(c, z, data, key, prefix, iv, random, start));
    TransferFinishes(c, z, data, key, prefix, iv, random, start, w, n);
  }

  lemma SendableMatches(c: Suite, z: Codec, data: Bytes, o: Outbound)
    requires Sendable(c, z, data, o)
    ensures MapMatches(o)
  {
  }

  lemma LawfulSized(c: Suite)
    requires Lawful(c)
    ensures Sized(c)
  {
  }

  // ------------------------------------------------------------------ a hidden part at the receiver

  /** The part comes from an answer of the sender to some request. */
  ghost predicate Answered(o: Outbound, x: Output)
    requires MapMatches(o)
  {
    x.Part? ==> exists request: Bytes, now: nat :: x in OnRequest(o, request, now).1
  }

  lemma PartsAfter(c: Suite, s: Inbound, h: Happening, j: nat)
    requires Sound(s) && j < |s.parts|
    ensures var t := React(c, s, h);
            |t.parts| == |s.parts| && Sound(t) && (t.parts[j] != s.parts[j] ==> h.Arrives? && h.x.Part? && t.parts[j] == Some(h.x.part))
  {
    hide FirstMissing, LastKnown, Wanted, Concat, IsComplete, MapHash, SlotFor, Without, UnpackUpdate, Put, Entries;
    match h {
      case Arrives(Part(p), now) => NextParts(OnPart(c, s, p).0, now);
      case Arrives(HashmapUpdate(u), now) => NextParts(OnUpdate(s, u).0, now);
      case RetryTick(now) => NextParts(s.(retries := s.retries + 1, window := Max(s.window - 1, WINDOW_MIN)), now);
    }
  }

  lemma NextParts(s: Inbound, now: nat)
    requires Sound(s)
    ensures NextRequest(s, now).0.parts == s.parts && Sound(NextRequest(s, now).0)
  {
    hide FirstMissing, LastKnown, Wanted, Concat, IsComplete;
  }

  /** What a collision beyond the window does to a transfer: over every run in which the parts that arrive are the
      sender's answers, the slot of a hidden part never holds that part, so a transfer that completes has put together
      other parts than were sent. */
  lemma {:induction false} HiddenNeverArrives(c: Suite, o: Outbound, s: Inbound, hs: seq<Happening>, j: nat)
    requires Sized(c) && MapMatches(o) && |o.hash| == 32 && Entries(o.map_) == TrueMap(c, o)
    requires Sound(s) && |s.parts| == |o.parts| && Hidden(c, o, j) && s.parts[j].None?
    requires forall h | h in hs && h.Arrives? :: Answered(o, h.x)
    ensures var t := Reacts(c, s, hs);
            && |t.parts| == |o.parts| && Sound(t) && t.parts[j] != Some(o.parts[j])
            && (IsComplete(t) ==> Filled(t.parts) != o.parts)
    decreases |hs|
  {
    hide React, OnRequest, IndexOf, Hashes, Entries, Filled;
    if hs != [] {
      var k := |hs| - 1;
      HiddenNeverArrives(c, o, s, hs[..k], j);
      PartsAfter(c, Reacts(c, s, hs[..k]), hs[k], j);
      SentExactly(c, o, j);
      assert hs[k] in hs;
    }
    if IsComplete(Reacts(c, s, hs)) {
      FilledWhole(Reacts(c, s, hs).parts);
    }
  }

  lemma {:induction false} FilledWhole(parts: seq<Option<Bytes>>)
    requires forall i | 0 <= i < |parts| :: parts[i].Some?
    ensures |Filled(parts)| == |parts| && forall i | 0 <= i < |parts| :: Filled(parts)[i] == parts[i].value
  {
    if parts != [] {
      FilledWhole(parts[1..]);
    }
  }
}
