/** The two ends of a resource transfer as the objects they are, proved against the functions of
    `ResourceState`. */
module ResourceClass {
  import opened Base
  import opened Crypto
  import opened ResourceWire
  import opened Collisions
  import R = ResourceState

  // ------------------------------------------------------------------ lists built from the front and the back

  lemma {:induction false} LookupAppend(hashes: seq<Bytes>, parts: seq<Bytes>, wanted: seq<Bytes>, hash: Bytes)
    requires |parts| == |hashes|
    ensures R.Lookup(hashes, parts, wanted + [hash])
            == R.Lookup(hashes, parts, wanted)
               + if R.IndexOf(hashes, hash) < |hashes| then [R.Part(parts[R.IndexOf(hashes, hash)])] else []
    decreases |wanted|
  {
    hide R.IndexOf;
    var all := wanted + [hash];
    assert all[0] == if wanted == [] then hash else wanted[0];
    if wanted == [] {
      assert all[1..] == [];
      assert R.Lookup(hashes, parts, []) == [];
    } else {
      LookupAppend(hashes, parts, wanted[1..], hash);
      assert all[1..] == wanted[1..] + [hash];
    }
  }

  lemma {:induction false} WantedAppend(map_: seq<Option<Bytes>>, parts: seq<Option<Bytes>>, from: nat, end: nat)
    requires from <= end < |parts| == |map_|
    ensures R.Wanted(map_, parts, from, end + 1)
            == R.Wanted(map_, parts, from, end)
               + if parts[end].None? && map_[end].Some? then [map_[end].value] else []
    decreases end - from
  {
    if from < end {
      WantedAppend(map_, parts, from + 1, end);
    } else {
      assert R.Wanted(map_, parts, end + 1, end + 1) == [];
    }
  }

  lemma {:induction false} ConcatAppend(s: seq<Bytes>, b: Bytes)
    ensures R.Concat(s + [b]) == R.Concat(s) + b
    decreases |s|
  {
    if s == [] {
      assert (s + [b])[1..] == [];
    } else {
      ConcatAppend(s[1..], b);
      assert (s + [b])[1..] == s[1..] + [b];
    }
  }

  lemma {:induction false} ReassembleAppend(parts: seq<Bytes>, part: Bytes)
    ensures Reassemble(parts + [part]) == Reassemble(parts) + part
    decreases |parts|
  {
    if parts == [] {
      assert (parts + [part])[1..] == [];
    } else {
      ReassembleAppend(parts[1..], part);
      assert (parts + [part])[1..] == parts[1..] + [part];
    }
  }

  /** `reassemble`: the parts one after the other. */
  method ReassembleParts(parts: seq<Bytes>) returns (data: Bytes)
    ensures data == Reassemble(parts)
  {
    hide Reassemble;
    data := [];
    var i := 0;
    NothingReassembled();
    while i < |parts|
      invariant 0 <= i <= |parts|
      invariant data == Reassemble(parts[..i])
    {
      ReassembleAppend(parts[..i], parts[i]);
      assert parts[..i + 1] == parts[..i] + [parts[i]];
      data := data + parts[i];
      i := i + 1;
    }
    assert parts[..i] == parts;
  }

  lemma NothingReassembled()
    ensures Reassemble([]) == [] && R.Concat([]) == []
  {
  }

  /** `hashmap`: the map hashes of all parts, one after the other. */
  method HashMapOf(c: Suite, parts: seq<Bytes>, random: Bytes) returns (map_: Bytes)
    ensures map_ == R.Concat(R.Hashes(c, parts, random))
  {
    hide R.Concat, R.MapHash;
    ghost var hashes := R.Hashes(c, parts, random);
    map_ := [];
    var i := 0;
    NothingReassembled();
    while i < |parts|
      invariant 0 <= i <= |parts|
      invariant map_ == R.Concat(hashes[..i])
    {
      ConcatAppend(hashes[..i], hashes[i]);
      assert hashes[..i + 1] == hashes[..i] + [hashes[i]];
      map_ := map_ + R.MapHash(c, parts[i], random);
      i := i + 1;
    }
    assert hashes[..i] == hashes;
  }

  // ------------------------------------------------------------------ the sender

  class OutboundResource {
    const hash: Bytes
    const size: nat
    const totalSize: nat
    const parts: seq<Bytes>
    const map_: Bytes
    const random: Bytes
    const expectedProof: Bytes
    var completed: bool
    var lastActivity: nat

    function View(): R.Outbound
      reads this
    {
      R.Outbound(hash, size, totalSize, parts, map_, random, expectedProof, completed, lastActivity)
    }

    constructor (o: R.Outbound)
      ensures View() == o
    {
      hash, size, totalSize, parts := o.hash, o.size, o.totalSize, o.parts;
      map_, random, expectedProof := o.map_, o.random, o.expectedProof;
      completed, lastActivity := o.completed, o.lastActivity;
    }

    /** The source's constructor: refuses empty and oversized data, and draws random hashes from the entropy
        stream until one shows no collision.  Null when the data is refused or the stream ends. */
    static method New(c: Suite, z: R.Codec, data: Bytes, key: Bytes, prefix: Bytes, iv: Bytes, entropy: seq<Bytes>,
                      now: nat)
      returns (resource: OutboundResource?)
      ensures resource != null ==>
                && 0 < |data| <= MAX_EFFICIENT_SIZE
                && fresh(resource) && resource.random in entropy
                && resource.View() == R.NewOutbound(c, z, data, key, prefix, iv, resource.random, now)
                && DistinctWithin(R.Hashes(c, resource.parts, resource.random), GUARD)
      ensures resource == null && 0 < |data| <= MAX_EFFICIENT_SIZE ==>
                forall r | r in entropy ::
                  !DistinctWithin(R.Hashes(c, SplitParts(c.seal(key, prefix + z.pack(data).0, iv), R.SDU), r), GUARD)
    {
      hide DistinctWithin, R.Hashes, R.Concat, SplitParts;
      if data == [] || |data| > MAX_EFFICIENT_SIZE {
        return null;
      }
      var sealed := c.seal(key, prefix + z.pack(data).0, iv);
      var parts := SplitParts(sealed, R.SDU);
      var picked := PickRandom(c, parts, entropy);
      if picked.None? {
        return null;
      }
      var random := picked.value;
      var map_ := HashMapOf(c, parts, random);
      var hash := R.ResourceHash(c, data, random);
      resource := new OutboundResource(
        R.Outbound(hash, |sealed|, |data|, parts, map_, random, R.ResourceProof(c, data, hash), false, now));
    }

    method OnRequest(request: Bytes, now: nat) returns (outputs: seq<R.Output>)
      requires R.MapMatches(View())
      modifies this
      ensures (View(), outputs) == R.OnRequest(old(View()), request, now)
    {
      hide R.Lookup, R.IndexOf, R.Entries, R.SegmentAt;
      if request == [] {
        return [];
      }
      var wantsMap := request[0] == 0xFF;
      var pad := if wantsMap then 5 else 1;
      if |request| < pad + 32 || request[pad..pad + 32] != hash {
        return [];
      }
      var requested := request[pad + 32..];
      if |requested| % 4 != 0 {
        return [];
      }
      outputs := LookUp(R.Entries(requested));
      assert outputs + [] == outputs;
      if wantsMap {
        var hashes := R.Entries(map_);
        var index := R.IndexOf(hashes, request[1..5]);
        if index < |hashes| && (index + 1) % R.SEGMENT == 0 {
          outputs := outputs + R.SegmentAt(View(), (index + 1) / R.SEGMENT);
        }
      }
      lastActivity := now;
    }

    /** One part for each known hash, in the order asked. */
    method LookUp(wanted: seq<Bytes>) returns (outputs: seq<R.Output>)
      requires R.MapMatches(View())
      ensures outputs == R.Lookup(R.Entries(map_), parts, wanted)
    {
      hide R.Lookup, R.IndexOf, R.Entries;
      outputs := [];
      var hashes := R.Entries(map_);
      var i := 0;
      NothingLookedUp(hashes, parts);
      while i < |wanted|
        invariant 0 <= i <= |wanted|
        invariant outputs == R.Lookup(hashes, parts, wanted[..i])
      {
        LookupAppend(hashes, parts, wanted[..i], wanted[i]);
        assert wanted[..i + 1] == wanted[..i] + [wanted[i]];
        var index := R.IndexOf(hashes, wanted[i]);
        if index < |hashes| {
          outputs := outputs + [R.Part(parts[index])];
        }
        i := i + 1;
      }
      assert wanted[..i] == wanted;
    }

    method OnProof(proof: Bytes) returns (done: bool)
      modifies this
      ensures View() == R.OnProof(old(View()), proof) && done == completed
    {
      if |proof| == 64 && proof[..32] == hash && proof[32..] == expectedProof {
        completed := true;
      }
      done := completed;
    }
  }

  lemma NothingLookedUp(hashes: seq<Bytes>, parts: seq<Bytes>)
    requires |parts| == |hashes|
    ensures R.Lookup(hashes, parts, []) == []
  {
  }

  // ------------------------------------------------------------------ the receiver

  class InboundResource {
    const hash: Bytes
    const size: nat
    const totalSize: nat
    const random: Bytes
    const compressed: bool
    var map_: seq<Option<Bytes>>
    var parts: seq<Option<Bytes>>
    var outstanding: seq<Bytes>
    var window: nat
    var retries: nat
    var lastRequest: nat
    var waitingForUpdate: bool

    function View(): R.Inbound
      reads this
    {
      R.Inbound(hash, size, totalSize, random, compressed, map_, parts, outstanding, window, retries, lastRequest,
                waitingForUpdate)
    }

    constructor (s: R.Inbound)
      ensures View() == s
    {
      hash, size, totalSize, random, compressed := s.hash, s.size, s.totalSize, s.random, s.compressed;
      map_, parts, outstanding := s.map_, s.parts, s.outstanding;
      window, retries, lastRequest, waitingForUpdate := s.window, s.retries, s.lastRequest, s.waitingForUpdate;
    }

    method NextRequest(now: nat) returns (request: Option<Bytes>)
      requires R.Sound(View())
      modifies this
      ensures (View(), request) == R.NextRequest(old(View()), now)
    {
      hide R.FirstMissing, R.LastKnown, R.Wanted, R.Concat;
      var firstMissing := R.FirstMissing(parts);
      if firstMissing == |parts| {
        assert R.IsComplete(View());
        return None;
      }
      assert !R.IsComplete(View());
      if map_[firstMissing].None? {
        var known := R.LastKnown(map_[..firstMissing]);
        if known.None? {
          return None;
        }
        request := Some([0xFF] + known.value + hash);
        waitingForUpdate := true;
      } else {
        var wanted, hashes := Gather(firstMissing, Min(firstMissing + window, |parts|));
        outstanding := wanted;
        if outstanding == [] {
          return None;
        }
        request := Some([0x00] + hash + hashes);
      }
      lastRequest := now;
    }

    /** The known hashes of missing parts in a range, as a list and as bytes. */
    method Gather(from: nat, end: nat) returns (wanted: seq<Bytes>, bytes: Bytes)
      requires R.Sound(View()) && from <= end <= |parts|
      ensures wanted == R.Wanted(map_, parts, from, end) && bytes == R.Concat(wanted)
    {
      hide R.Wanted, R.Concat;
      wanted, bytes := [], [];
      NothingReassembled();
      NothingWanted(map_, parts, from);
      var index := from;
      while index < end
        invariant from <= index <= end
        invariant wanted == R.Wanted(map_, parts, from, index)
        invariant bytes == R.Concat(wanted)
      {
        WantedAppend(map_, parts, from, index);
        if parts[index].None? && map_[index].Some? {
          ConcatAppend(wanted, map_[index].value);
          bytes := bytes + map_[index].value;
          wanted := wanted + [map_[index].value];
        }
        index := index + 1;
      }
    }

    method OnPart(c: Suite, part: Bytes) returns (accepted: bool)
      requires R.Sound(View())
      modifies this
      ensures (View(), accepted) == R.OnPart(c, old(View()), part)
    {
      hide R.MapHash, R.SlotFor, R.Without;
      var partHash := R.MapHash(c, part, random);
      var index := R.SlotFor(map_, parts, partHash);
      if index == |map_| {
        return false;
      }
      parts := parts[index := Some(part)];
      outstanding := R.Without(outstanding, partHash);
      if outstanding == [] {
        window := Min(window + 1, R.WINDOW_MAX);
        retries := 0;
      }
      accepted := true;
    }

    method OnHashmapUpdate(data: Bytes) returns (ok: bool)
      modifies this
      ensures (View(), ok) == R.OnUpdate(old(View()), data)
    {
      hide UnpackUpdate, R.Entries, R.Put;
      var update := UnpackUpdate(data);
      if update.Err? || update.value.hash != hash {
        return false;
      }
      var start := update.value.segment * R.SEGMENT;
      var entries := R.Entries(update.value.map_);
      ghost var before := map_;
      var offset := 0;
      PutNothing(before, start);
      assert entries[..0] == [];
      while offset < |entries|
        invariant 0 <= offset <= |entries| && |map_| == |before|
        invariant offset > 0 ==> start + offset <= |map_|
        invariant map_ == R.Put(before, start, entries[..offset])
        invariant View() == old(View()).(map_ := map_)
      {
        if start + offset >= |map_| {
          PutOutside(before, start, entries, offset);
          return false;
        }
        PutAppend(before, start, entries, offset);
        map_ := map_[start + offset := Some(entries[offset])];
        offset := offset + 1;
      }
      assert entries[..offset] == entries;
      if entries == [] && start > |map_| {
        NoEmptyUpdate(data);
      }
      waitingForUpdate := false;
      ok := true;
    }

    method Finalize(c: Suite, z: R.Codec, key: Bytes) returns (r: Result<Bytes>)
      requires R.Sound(View())
      ensures r == R.Finalize(c, z, View(), key)
    {
      hide Reassemble, R.Filled;
      if !R.IsComplete(View()) {
        return Err(Truncated);
      }
      var whole := ReassembleParts(R.Filled(parts));
      var stream := c.open(key, whole);
      if stream.Err? {
        return Err(stream.error);
      }
      if |stream.value| < RANDOM_LEN {
        return Err(Truncated);
      }
      var payload := stream.value[RANDOM_LEN..];
      var data := if compressed then z.unpack(payload) else Ok(payload);
      if data.Err? {
        return Err(data.error);
      }
      if |data.value| != totalSize || R.ResourceHash(c, data.value, random) != hash {
        return Err(DecryptFailed);
      }
      r := data;
    }

    /** Nothing when no retry is due; the repeated request; or an error once the retries are used up. */
    method RetryDue(now: nat) returns (r: Result<Option<Bytes>>)
      requires R.Sound(View())
      modifies this
      ensures r.Ok? ==> R.Retry(old(View()), now) == Ok((View(), r.value))
      ensures r.Err? ==> R.Retry(old(View()), now) == Err(r.error) && View() == old(View())
    {
      hide R.NextRequest;
      if lastRequest == 0 || now < lastRequest + R.REQUEST_TIMEOUT || R.IsComplete(View()) {
        return Ok(None);
      }
      if retries >= R.MAX_RETRIES {
        return Err(Unsupported);
      }
      retries := retries + 1;
      window := Max(window - 1, R.WINDOW_MIN);
      var request := NextRequest(now);
      r := Ok(request);
    }
  }

  lemma NothingWanted(map_: seq<Option<Bytes>>, parts: seq<Option<Bytes>>, from: nat)
    requires from <= |parts| == |map_|
    ensures R.Wanted(map_, parts, from, from) == []
  {
  }

  lemma PutNothing(map_: seq<Option<Bytes>>, start: nat)
    ensures R.Put(map_, start, []) == map_
  {
  }

  lemma PutAppend(map_: seq<Option<Bytes>>, start: nat, entries: seq<Bytes>, offset: nat)
    requires offset < |entries| && start + offset < |map_|
    ensures R.Put(map_, start, entries[..offset + 1])
            == R.Put(map_, start, entries[..offset])[start + offset := Some(entries[offset])]
  {
    hide R.Put;
  }

  lemma PutOutside(map_: seq<Option<Bytes>>, start: nat, entries: seq<Bytes>, offset: nat)
    requires offset <= |entries| && start + offset >= |map_|
    ensures R.Put(map_, start, entries[..offset]) == R.Put(map_, start, entries)
  {
    hide R.Put;
  }

  /** An update that unpacks carries at least one entry. */
  lemma NoEmptyUpdate(data: Bytes)
    requires UnpackUpdate(data).Ok?
    ensures R.Entries(UnpackUpdate(data).value.map_) != []
  {
  }
}
