/** The two ends of a resource transfer (reticulum-node/src/resource_state.rs) as functions. */
module ResourceState {
  import opened Base
  import opened Crypto
  import opened ResourceWire

  const SDU: nat := 464
  const WINDOW: nat := 4
  const WINDOW_MIN: nat := 2
  const WINDOW_MAX: nat := 75
  const MAX_RETRIES: nat := 16
  const SEGMENT: nat := 74
  const REQUEST_TIMEOUT: nat := 2

  /** Payload compression: the packed form and whether it is compressed; and its inverse. */
  datatype Codec = Codec(pack: Bytes -> (Bytes, bool), unpack: Bytes -> Result<Bytes>)

  ghost predicate Faithful(z: Codec) {
    forall d :: if z.pack(d).1 then z.unpack(z.pack(d).0) == Ok(d) else z.pack(d).0 == d
  }

  function MapHash(c: Suite, part: Bytes, random: Bytes): Bytes {
    var h := c.sha(part + random);
    if |h| >= 4 then h[..4] else h
  }

  function ResourceHash(c: Suite, data: Bytes, random: Bytes): Bytes {
    c.sha(data + random)
  }

  function ResourceProof(c: Suite, data: Bytes, hash: Bytes): Bytes {
    c.sha(data + hash)
  }

  /** The hashes of all parts, in order. */
  function Hashes(c: Suite, parts: seq<Bytes>, random: Bytes): (r: seq<Bytes>)
    ensures |r| == |parts| && forall i | 0 <= i < |parts| :: r[i] == MapHash(c, parts[i], random)
  {
    seq(|parts|, i requires 0 <= i < |parts| => MapHash(c, parts[i], random))
  }

  function Concat(s: seq<Bytes>): Bytes {
    if s == [] then [] else s[0] + Concat(s[1..])
  }

  /** The complete 4-byte entries of a byte string (`chunks_exact`). */
  function Entries(b: Bytes): (r: seq<Bytes>)
    ensures |r| == |b| / 4 && forall i | 0 <= i < |r| :: r[i] == b[4 * i..4 * i + 4]
  {
    seq(|b| / 4, i requires 0 <= i < |b| / 4 => b[4 * i..4 * i + 4])
  }

  // ------------------------------------------------------------------ sender

  datatype Output = Part(part: Bytes) | HashmapUpdate(update: Bytes)

  datatype Outbound = Outbound(
    hash: Bytes, size: nat, totalSize: nat, parts: seq<Bytes>, map_: Bytes, random: Bytes, expectedProof: Bytes,
    completed: bool, lastActivity: nat)

  /** The first index holding `hash`, or the length. */
  function IndexOf(hashes: seq<Bytes>, hash: Bytes): (i: nat)
    ensures i <= |hashes| && (i < |hashes| ==> hashes[i] == hash) && (forall j | 0 <= j < i :: hashes[j] != hash)
  {
    if hashes == [] || hashes[0] == hash then 0 else 1 + IndexOf(hashes[1..], hash)
  }

  /** The parts named by a list of hashes; unknown hashes are skipped. */
  function Lookup(hashes: seq<Bytes>, parts: seq<Bytes>, wanted: seq<Bytes>): seq<Output>
    requires |parts| == |hashes|
  {
    if wanted == [] then [] else
      var i := IndexOf(hashes, wanted[0]);
      (if i < |hashes| then [Part(parts[i])] else []) + Lookup(hashes, parts, wanted[1..])
  }

  /** One 4-byte map entry per part. */
  predicate MapMatches(o: Outbound) {
    |o.map_| == 4 * |o.parts| < 0x1_0000_0000
  }

  /** Segment `segment` of the map, if there is one. */
  function SegmentAt(o: Outbound, segment: nat): seq<Output>
    requires MapMatches(o)
  {
    var start, end := segment * SEGMENT * 4, Min((segment + 1) * SEGMENT * 4, |o.map_|);
    if start < end then
      [HashmapUpdate(PackUpdate(Update(o.hash, segment, o.map_[start..end])))]
    else []
  }

  /** The segment that follows the entry `last`, if `last` ends a segment and more entries exist. */
  function SegmentAfter(o: Outbound, last: Bytes): seq<Output>
    requires MapMatches(o)
  {
    var hashes := Entries(o.map_);
    var i := IndexOf(hashes, last);
    if i == |hashes| || (i + 1) % SEGMENT != 0 then [] else SegmentAt(o, (i + 1) / SEGMENT)
  }

  function OnRequest(o: Outbound, request: Bytes, now: nat): (Outbound, seq<Output>)
    requires MapMatches(o)
  {
    if request == [] then (o, [])
    else
      var wantsMap := request[0] == 0xFF;
      var pad := if wantsMap then 5 else 1;
      if |request| < pad + 32 || request[pad..pad + 32] != o.hash || |request[pad + 32..]| % 4 != 0 then (o, [])
      else
        (o.(lastActivity := now),
         Lookup(Entries(o.map_), o.parts, Entries(request[pad + 32..]))
         + if wantsMap then SegmentAfter(o, request[1..5]) else [])
  }

  function OnProof(o: Outbound, proof: Bytes): Outbound {
    if |proof| == 64 && proof[..32] == o.hash && proof[32..] == o.expectedProof then o.(completed := true) else o
  }

  /** The constructor, once a random hash is chosen. */
  function NewOutbound(c: Suite, z: Codec, data: Bytes, key: Bytes, prefix: Bytes, iv: Bytes, random: Bytes, now: nat):
    Outbound
  {
    var sealed := c.seal(key, prefix + z.pack(data).0, iv);
    var parts := SplitParts(sealed, SDU);
    var hash := ResourceHash(c, data, random);
    Outbound(hash, |sealed|, |data|, parts, Concat(Hashes(c, parts, random)), random, ResourceProof(c, data, hash),
             false, now)
  }

  /** The advertisement carries the first segment of the map. */
  function Advertised(z: Codec, o: Outbound, data: Bytes): Advertisement
    requires MapMatches(o)
  {
    Advertisement(o.size, o.totalSize, |o.parts|, o.hash, o.random, o.hash, 1, 1, None,
                  if z.pack(data).1 then 3 else 1, o.map_[..4 * Min(|o.parts|, SEGMENT)])
  }

  // ------------------------------------------------------------------ receiver

  datatype Inbound = Inbound(
    hash: Bytes, size: nat, totalSize: nat, random: Bytes, compressed: bool,
    map_: seq<Option<Bytes>>, parts: seq<Option<Bytes>>, outstanding: seq<Bytes>,
    window: nat, retries: nat, lastRequest: nat, waitingForUpdate: bool)

  predicate Sound(s: Inbound) {
    |s.map_| == |s.parts|
  }

  function Put(map_: seq<Option<Bytes>>, start: nat, entries: seq<Bytes>): (r: seq<Option<Bytes>>)
    ensures |r| == |map_|
    ensures forall i | 0 <= i < |map_| ::
              r[i] == if start <= i < start + |entries| then Some(entries[i - start]) else map_[i]
  {
    seq(|map_|, i requires 0 <= i < |map_| => if start <= i < start + |entries| then Some(entries[i - start]) else map_[i])
  }

  function FromAdvertisement(a: Advertisement): Result<Inbound> {
    if a.f % 2 == 0 || |a.h| != 32 || |a.r| != RANDOM_LEN || a.n == 0 || a.n > MAX_EFFICIENT_SIZE / MAPHASH_LEN
       || |Entries(a.m)| > a.n
    then Err(InvalidField)
    else
      Ok(Inbound(a.h, a.t, a.d, a.r, a.f / 2 % 2 == 1,
                 Put(seq(a.n, _ => None), 0, Entries(a.m)), seq(a.n, _ => None), [], WINDOW, 0, 0, false))
  }

  predicate IsComplete(s: Inbound) {
    forall i | 0 <= i < |s.parts| :: s.parts[i].Some?
  }

  /** The index of the first missing part, or the number of parts. */
  function FirstMissing(parts: seq<Option<Bytes>>): (i: nat)
    ensures i <= |parts| && (i < |parts| ==> parts[i].None?) && (forall j | 0 <= j < i :: parts[j].Some?)
  {
    if parts == [] || parts[0].None? then 0 else 1 + FirstMissing(parts[1..])
  }

  /** The last known entry of a prefix of the map. */
  function LastKnown(map_: seq<Option<Bytes>>): (r: Option<Bytes>)
    ensures r.None? <==> forall i | 0 <= i < |map_| :: map_[i].None?
  {
    if map_ == [] then None
    else if map_[|map_| - 1].Some? then map_[|map_| - 1]
    else LastKnown(map_[..|map_| - 1])
  }

  /** The known hashes of missing parts between two indices. */
  function Wanted(map_: seq<Option<Bytes>>, parts: seq<Option<Bytes>>, from: nat, end: nat): seq<Bytes>
    requires end <= |parts| == |map_|
    decreases end - from
  {
    if from >= end then [] else
      (if parts[from].None? && map_[from].Some? then [map_[from].value] else []) + Wanted(map_, parts, from + 1, end)
  }

  function NextRequest(s: Inbound, now: nat): (Inbound, Option<Bytes>)
    requires Sound(s)
  {
    if IsComplete(s) then (s, None)
    else
      var first := FirstMissing(s.parts);
      if s.map_[first].None? then
        var known := LastKnown(s.map_[..first]);
        if known.None? then (s, None)
        else (s.(waitingForUpdate := true, lastRequest := now), Some([0xFF] + known.value + s.hash))
      else
        var wanted := Wanted(s.map_, s.parts, first, Min(first + s.window, |s.parts|));
        if wanted == [] then (s.(outstanding := wanted), None)
        else (s.(outstanding := wanted, lastRequest := now), Some([0x00] + s.hash + Concat(wanted)))
  }

  /** The first slot that expects `hash` and is still empty, or the number of slots. */
  function SlotFor(map_: seq<Option<Bytes>>, parts: seq<Option<Bytes>>, hash: Bytes): (i: nat)
    requires |map_| == |parts|
    ensures i <= |map_| && (i < |map_| ==> map_[i] == Some(hash) && parts[i].None?)
    ensures forall j | 0 <= j < i :: map_[j] != Some(hash) || parts[j].Some?
  {
    if map_ == [] || (map_[0] == Some(hash) && parts[0].None?) then 0 else 1 + SlotFor(map_[1..], parts[1..], hash)
  }

  /** `retain(|entry| entry != hash)` */
  function Without(hashes: seq<Bytes>, hash: Bytes): seq<Bytes> {
    if hashes == [] then [] else (if hashes[0] == hash then [] else [hashes[0]]) + Without(hashes[1..], hash)
  }

  function OnPart(c: Suite, s: Inbound, part: Bytes): (Inbound, bool)
    requires Sound(s)
  {
    var hash := MapHash(c, part, s.random);
    var i := SlotFor(s.map_, s.parts, hash);
    if i == |s.map_| then (s, false)
    else
      var rest := Without(s.outstanding, hash);
      var filled := s.(parts := s.parts[i := Some(part)], outstanding := rest);
      (if rest == [] then filled.(window := Min(s.window + 1, WINDOW_MAX), retries := 0) else filled, true)
  }

  /** Entries that fall outside the map are an error, but those before them are stored. */
  function OnUpdate(s: Inbound, data: Bytes): (Inbound, bool) {
    var u := UnpackUpdate(data);
    if u.Err? || u.value.hash != s.hash then (s, false)
    else
      var start := u.value.segment * SEGMENT;
      var entries := Entries(u.value.map_);
      var stored := s.(map_ := Put(s.map_, start, entries));
      if start + |entries| <= |s.map_| then (stored.(waitingForUpdate := false), true) else (stored, false)
  }

  predicate ReadyForRequest(s: Inbound) {
    !IsComplete(s) && s.outstanding == [] && !s.waitingForUpdate
  }

  function Filled(parts: seq<Option<Bytes>>): seq<Bytes> {
    if parts == [] then [] else (if parts[0].Some? then [parts[0].value] else []) + Filled(parts[1..])
  }

  function Finalize(c: Suite, z: Codec, s: Inbound, key: Bytes): Result<Bytes> {
    if !IsComplete(s) then Err(Truncated)
    else
      var stream :- c.open(key, Reassemble(Filled(s.parts)));
      if |stream| < RANDOM_LEN then Err(Truncated)
      else
        var data :- if s.compressed then z.unpack(stream[RANDOM_LEN..]) else Ok(stream[RANDOM_LEN..]);
        if |data| != s.totalSize || ResourceHash(c, data, s.random) != s.hash then Err(DecryptFailed) else Ok(data)
  }

  function ProofOf(c: Suite, s: Inbound, data: Bytes): Bytes {
    s.hash + ResourceProof(c, data, s.hash)
  }

  predicate RetryDue(s: Inbound, now: nat) {
    s.lastRequest != 0 && now >= s.lastRequest + REQUEST_TIMEOUT && !IsComplete(s)
  }

  /** A retry repeats the request with a smaller window; after 16 the transfer fails. */
  function Retry(s: Inbound, now: nat): Result<(Inbound, Option<Bytes>)>
    requires Sound(s)
  {
    if !RetryDue(s, now) then Ok((s, None))
    else if s.retries >= MAX_RETRIES then Err(Unsupported)
    else Ok(NextRequest(s.(retries := s.retries + 1, window := Max(s.window - 1, WINDOW_MIN)), now))
  }

  // ------------------------------------------------------------------ what the node does with them

  /** A part that arrives: once the outstanding ones are in, the next request goes out at once. */
  function ReceivePart(c: Suite, s: Inbound, part: Bytes, now: nat): (Inbound, Option<Bytes>)
    requires Sound(s)
  {
    var (filled, accepted) := OnPart(c, s, part);
    if !accepted || !ReadyForRequest(filled) then (filled, None)
    else
      var (asked, request) := NextRequest(filled, now);
      (asked, if asked.retries == 0 then request else None)
  }

  /** A hashmap update that arrives. */
  function ReceiveUpdate(s: Inbound, data: Bytes, now: nat): (Inbound, Option<Bytes>)
    requires Sound(s)
  {
    var (stored, ok) := OnUpdate(s, data);
    if ok then NextRequest(stored, now) else (stored, None)
  }

  function Receive(c: Suite, s: Inbound, output: Output, now: nat): (r: (Inbound, Option<Bytes>))
    requires Sound(s)
    ensures Sound(r.0)
  {
    match output
    case Part(part) => ReceivePart(c, s, part, now)
    case HashmapUpdate(update) => ReceiveUpdate(s, update, now)
  }
}
