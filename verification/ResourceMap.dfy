/** The receiver learns the map segment by segment: whatever is lost, repeated or reordered, the known
    entries are a prefix of whole segments, and each request for more is answered by the next one. */
module ResourceMap {
  import opened Base
  import opened Crypto
  import opened MessagePack
  import opened ResourceWire
  import opened ResourceState
  import opened ResourceSafety

  /** The known entries are exactly the first `k` segments (the last one may be short). */
  ghost predicate PrefixKnown(o: Outbound, s: Inbound, k: nat) {
    k >= 1 && |s.map_| == |o.parts| && forall i | 0 <= i < |o.parts| :: s.map_[i].Some? <==> i < k * SEGMENT
  }

  function PartsRequest(o: Outbound, wanted: seq<Bytes>): Bytes {
    [0x00] + o.hash + Concat(wanted)
  }

  /** The request for the segment after the first `j`: it names the last entry of segment `j - 1`. */
  function MapRequest(c: Suite, o: Outbound, j: nat): Bytes
    requires 1 <= j && j * SEGMENT <= |o.parts|
  {
    [0xFF] + TrueMap(c, o)[j * SEGMENT - 1] + o.hash
  }

  ghost predicate AsksParts(c: Suite, o: Outbound, request: Bytes) {
    exists wanted: seq<Bytes> :: (forall w | w in wanted :: w in TrueMap(c, o)) && request == PartsRequest(o, wanted)
  }

  ghost predicate AsksMap(c: Suite, o: Outbound, k: nat, request: Bytes) {
    exists j: nat :: 1 <= j <= k && j * SEGMENT < |o.parts| && request == MapRequest(c, o, j)
  }

  /** A request the receiver may have sent while it knew at most `k` segments. */
  ghost predicate Asked(c: Suite, o: Outbound, k: nat, request: Bytes) {
    AsksParts(c, o, request) || AsksMap(c, o, k, request)
  }

  /** An answer the sender may have given to such a request. */
  ghost predicate Answered(o: Outbound, k: nat, x: Output)
    requires MapMatches(o)
  {
    match x
    case Part(p) => p in o.parts
    case HashmapUpdate(u) => exists j: nat :: 1 <= j <= k && j * SEGMENT < |o.parts| && u == SegmentUpdate(o, j)
  }

  // ------------------------------------------------------------------ requests

  lemma {:induction false} LastKnownOfPrefix(map_: seq<Option<Bytes>>, n: nat)
    requires 1 <= n <= |map_| && forall i | 0 <= i < |map_| :: map_[i].Some? <==> i < n
    ensures LastKnown(map_) == map_[n - 1]
    decreases |map_|
  {
    if |map_| > n {
      LastKnownOfPrefix(map_[..|map_| - 1], n);
    }
  }

  /** The hashes asked for are known, missing, and pairwise distinct. */
  lemma {:induction false} WantedAre(map_: seq<Option<Bytes>>, parts: seq<Option<Bytes>>, from: nat, end: nat)
    requires end <= |parts| == |map_|
    ensures forall w | w in Wanted(map_, parts, from, end) ::
              exists i :: from <= i < end && map_[i] == Some(w) && parts[i].None?
    decreases end - from
  {
    if from < end {
      WantedAre(map_, parts, from + 1, end);
      var tail := Wanted(map_, parts, from + 1, end);
      forall w | w in Wanted(map_, parts, from, end)
        ensures exists i :: from <= i < end && map_[i] == Some(w) && parts[i].None?
      {
        if w in tail {
          var i :| from + 1 <= i < end && map_[i] == Some(w) && parts[i].None?;
        } else {
          assert map_[from] == Some(w) && parts[from].None?;
        }
      }
    }
  }

  lemma LastKnownEntry(c: Suite, o: Outbound, s: Inbound, k: nat)
    requires Consistent(c, o, s) && PrefixKnown(o, s, k)
    requires !IsComplete(s) && s.map_[FirstMissing(s.parts)].None?
    ensures k * SEGMENT < |o.parts|
    ensures LastKnown(s.map_[..FirstMissing(s.parts)]) == Some(TrueMap(c, o)[k * SEGMENT - 1])
  {
    var first := FirstMissing(s.parts);
    var n := k * SEGMENT;
    assert n <= first < |o.parts|;
    LastKnownOfPrefix(s.map_[..first], n);
    assert s.map_[n - 1].Some?;
    hide FirstMissing, LastKnown, Hashes, IsComplete;
  }

  /** An exhaustion request names the last entry of the last known segment. */
  lemma NextAsksMap(c: Suite, o: Outbound, s: Inbound, k: nat, now: nat)
    requires Consistent(c, o, s) && PrefixKnown(o, s, k)
    requires !IsComplete(s) && s.map_[FirstMissing(s.parts)].None?
    ensures k * SEGMENT < |o.parts|
    ensures NextRequest(s, now) == (s.(waitingForUpdate := true, lastRequest := now), Some(MapRequest(c, o, k)))
  {
    LastKnownEntry(c, o, s, k);
    assert s.hash == o.hash && |s.parts| == |o.parts|;
    hide FirstMissing, LastKnown, TrueMap, IsComplete, Consistent, PrefixKnown, Wanted, Concat;
  }

  /** The hashes the next request asks for. */
  function Window(s: Inbound): seq<Bytes>
    requires Sound(s)
  {
    Wanted(s.map_, s.parts, FirstMissing(s.parts), Min(FirstMissing(s.parts) + s.window, |s.parts|))
  }

  lemma KnownInMap(c: Suite, o: Outbound, s: Inbound, i: nat)
    requires Consistent(c, o, s) && i < |o.parts| && s.map_[i].Some?
    ensures s.map_[i].value in TrueMap(c, o)
  {
    assert TrueMap(c, o)[i] == s.map_[i].value;
    hide Hashes;
  }

  lemma WindowInMap(c: Suite, o: Outbound, s: Inbound)
    requires Consistent(c, o, s)
    ensures forall w | w in Window(s) :: w in TrueMap(c, o)
  {
    var first := FirstMissing(s.parts);
    var end := Min(first + s.window, |s.parts|);
    assert |s.map_| == |s.parts| == |o.parts|;
    WantedAre(s.map_, s.parts, first, end);
    forall w | w in Window(s) ensures w in TrueMap(c, o) {
      hide TrueMap, Consistent;
      var i :| first <= i < end && s.map_[i] == Some(w) && s.parts[i].None?;
      KnownInMap(c, o, s, i);
    }
    hide FirstMissing, Wanted, TrueMap, Consistent;
  }

  lemma NextAsksParts(c: Suite, o: Outbound, s: Inbound, now: nat)
    requires Consistent(c, o, s) && !IsComplete(s) && s.map_[FirstMissing(s.parts)].Some?
    ensures NextRequest(s, now)
            == if Window(s) == [] then (s.(outstanding := Window(s)), None)
               else (s.(outstanding := Window(s), lastRequest := now), Some(PartsRequest(o, Window(s))))
  {
    hide FirstMissing, LastKnown, Wanted, TrueMap, Concat;
  }

  lemma RequestAsked(c: Suite, o: Outbound, s: Inbound, k: nat, now: nat)
    requires Honest(c, o) && Consistent(c, o, s) && PrefixKnown(o, s, k)
    ensures var r := NextRequest(s, now).1; r.Some? ==> Asked(c, o, k, r.value)
  {
    if !IsComplete(s) {
      if s.map_[FirstMissing(s.parts)].None? {
        NextAsksMap(c, o, s, k, now);
        assert NextRequest(s, now).1 == Some(MapRequest(c, o, k));
      } else {
        NextAsksParts(c, o, s, now);
        WindowInMap(c, o, s);
      }
    }
    hide NextRequest, FirstMissing, Window, IsComplete, Honest, TrueMap, Consistent, PartsRequest, MapRequest;
  }

  lemma NextAsked(c: Suite, o: Outbound, s: Inbound, k: nat, now: nat)
    requires Honest(c, o) && Consistent(c, o, s) && PrefixKnown(o, s, k)
    ensures var (s', r) := NextRequest(s, now);
            PrefixKnown(o, s', k) && Consistent(c, o, s') && (r.Some? ==> Asked(c, o, k, r.value))
  {
    RequestKeeps(c, o, s, now);
    RequestAsked(c, o, s, k, now);
    hide FirstMissing, LastKnown, Wanted, Concat, IsComplete, Honest, TrueMap, Consistent, Asked;
  }

  // ------------------------------------------------------------------ answers

  lemma {:induction false} IndexOfDistinct(hashes: seq<Bytes>, i: nat)
    requires Distinct(hashes) && i < |hashes|
    ensures IndexOf(hashes, hashes[i]) == i
  {
    var j := IndexOf(hashes, hashes[i]);
    if j < i {
      assert false;
    }
    hide IndexOf;
  }

  lemma SegmentAtIs(o: Outbound, j: nat)
    requires MapMatches(o) && j * SEGMENT < |o.parts|
    ensures SegmentAt(o, j) == [HashmapUpdate(SegmentUpdate(o, j))]
  {
    var start, end := j * SEGMENT * 4, Min((j + 1) * SEGMENT * 4, |o.map_|);
    assert start == 4 * (j * SEGMENT) && end == 4 * Min((j + 1) * SEGMENT, |o.parts|);
    hide PackUpdate, Min;
  }

  lemma AfterEntry(o: Outbound, last: Bytes, j: nat)
    requires MapMatches(o) && 1 <= j && j * SEGMENT < |o.parts|
    requires IndexOf(Entries(o.map_), last) == j * SEGMENT - 1
    ensures SegmentAfter(o, last) == [HashmapUpdate(SegmentUpdate(o, j))]
  {
    assert j * SEGMENT / SEGMENT == j && j * SEGMENT % SEGMENT == 0;
    SegmentAtIs(o, j);
    hide IndexOf, Entries, SegmentAt, SegmentUpdate;
  }

  lemma SegmentAfterIs(c: Suite, o: Outbound, j: nat)
    requires Honest(c, o) && 1 <= j && j * SEGMENT < |o.parts|
    ensures SegmentAfter(o, TrueMap(c, o)[j * SEGMENT - 1]) == [HashmapUpdate(SegmentUpdate(o, j))]
  {
    IndexOfDistinct(TrueMap(c, o), j * SEGMENT - 1);
    AfterEntry(o, TrueMap(c, o)[j * SEGMENT - 1], j);
    hide IndexOf, Hashes, Entries, Distinct, SegmentAfter, SegmentUpdate;
  }

  /** The parts of an exhaustion request. */
  lemma MapRequestReads(o: Outbound, last: Bytes, now: nat)
    requires MapMatches(o) && |last| == 4 && |o.hash| == 32
    ensures OnRequest(o, [0xFF] + last + o.hash, now).1 == SegmentAfter(o, last)
  {
    var request := [0xFF] + last + o.hash;
    assert request[1..5] == last && request[5..37] == o.hash && request[37..] == [];
    assert Entries([]) == [];
    assert Lookup(Entries(o.map_), o.parts, []) == [];
    hide Lookup, SegmentAfter, Entries;
  }

  lemma PartsRequestReads(o: Outbound, wanted: seq<Bytes>, now: nat)
    requires MapMatches(o) && |o.hash| == 32 && forall w | w in wanted :: |w| == 4
    ensures OnRequest(o, PartsRequest(o, wanted), now).1 == Lookup(Entries(o.map_), o.parts, wanted)
  {
    EntriesOfConcat(wanted);
    var request := PartsRequest(o, wanted);
    assert request[0] == 0 && request[1..33] == o.hash && request[33..] == Concat(wanted);
    hide Lookup, Concat, Entries;
  }

  lemma MapHashes4(c: Suite, o: Outbound)
    requires Honest(c, o)
    ensures forall w | w in TrueMap(c, o) :: |w| == 4
  {
    forall w | w in TrueMap(c, o) ensures |w| == 4 {
      var i :| 0 <= i < |o.parts| && TrueMap(c, o)[i] == w;
      assert Entries(o.map_)[i] == w;
    }
    hide Hashes, Distinct, MapHash;
  }

  /** The sender answers a request for more of the map with exactly the next segment. */
  lemma MapAnswer(c: Suite, o: Outbound, j: nat, now: nat)
    requires Honest(c, o) && 1 <= j && j * SEGMENT < |o.parts|
    ensures OnRequest(o, MapRequest(c, o, j), now).1 == [HashmapUpdate(SegmentUpdate(o, j))]
  {
    MapHashes4(c, o);
    var last := TrueMap(c, o)[j * SEGMENT - 1];
    assert last in TrueMap(c, o);
    SegmentAfterIs(c, o, j);
    MapRequestReads(o, last, now);
    hide OnRequest, SegmentAfter, SegmentUpdate, Hashes;
  }

  /** Every output for a list of known hashes is the part with that hash. */
  ghost predicate PartsFor(c: Suite, o: Outbound, outputs: seq<Output>, wanted: seq<Bytes>) {
    && |outputs| == |wanted|
    && forall i | 0 <= i < |wanted| ::
         outputs[i].Part? && outputs[i].part in o.parts && MapHash(c, outputs[i].part, o.random) == wanted[i]
  }

  lemma {:induction false} LookupFinds(c: Suite, o: Outbound, wanted: seq<Bytes>)
    requires forall w | w in wanted :: w in TrueMap(c, o)
    ensures PartsFor(c, o, Lookup(TrueMap(c, o), o.parts, wanted), wanted)
    decreases |wanted|
  {
    if wanted != [] {
      LookupFinds(c, o, wanted[1..]);
      var i := IndexOf(TrueMap(c, o), wanted[0]);
      assert wanted[0] in TrueMap(c, o);
      assert i < |o.parts| && TrueMap(c, o)[i] == wanted[0];
      assert MapHash(c, o.parts[i], o.random) == wanted[0];
    }
    hide IndexOf, MapHash;
  }

  /** The sender answers a request for parts with exactly the parts asked for. */
  lemma PartsAnswer(c: Suite, o: Outbound, wanted: seq<Bytes>, now: nat)
    requires Honest(c, o) && forall w | w in wanted :: w in TrueMap(c, o)
    ensures PartsFor(c, o, OnRequest(o, PartsRequest(o, wanted), now).1, wanted)
  {
    MapHashes4(c, o);
    PartsRequestReads(o, wanted, now);
    LookupFinds(c, o, wanted);
    hide OnRequest, Lookup, Entries, Hashes, PartsFor, PartsRequest;
  }

  lemma ServeAnswers(c: Suite, o: Outbound, k: nat, request: Bytes, now: nat)
    requires Honest(c, o) && Asked(c, o, k, request)
    ensures forall x | x in OnRequest(o, request, now).1 :: Answered(o, k, x)
  {
    if AsksParts(c, o, request) {
      var wanted :| (forall w | w in wanted :: w in TrueMap(c, o)) && request == PartsRequest(o, wanted);
      PartsAnswer(c, o, wanted, now);
    } else {
      var j: nat :| 1 <= j <= k && j * SEGMENT < |o.parts| && request == MapRequest(c, o, j);
      MapAnswer(c, o, j, now);
    }
    hide OnRequest, MapRequest, PartsRequest, SegmentUpdate, Honest, MapHash, TrueMap;
  }

  // ------------------------------------------------------------------ the two ends over a lossy channel

  /** The receiver, and every request and every answer ever sent: a lost message is one that never
      arrives, a repeated one arrives again, a late one arrives in another order. */
  datatype System = System(s: Inbound, asked: set<Bytes>, answered: set<Output>)

  datatype Step = Serve(request: Bytes, now: nat) | Deliver(x: Output, now: nat) | Tick(now: nat)

  function Ask(y: System, r: (Inbound, Option<Bytes>)): System {
    y.(s := r.0, asked := y.asked + if r.1.Some? then {r.1.value} else {})
  }

  /** One step; a message that was never sent does not arrive. */
  function Next(c: Suite, o: Outbound, y: System, step: Step): (r: System)
    requires MapMatches(o) && Sound(y.s)
    ensures Sound(r.s)
  {
    match step
    case Serve(request, now) =>
      if request in y.asked then y.(answered := y.answered + (set x | x in OnRequest(o, request, now).1)) else y
    case Deliver(x, now) => if x in y.answered then Ask(y, Receive(c, y.s, x, now)) else y
    case Tick(now) => if Retry(y.s, now).Ok? then Ask(y, Retry(y.s, now).value) else y
  }

  function Steps(c: Suite, o: Outbound, y: System, steps: seq<Step>): (r: System)
    requires MapMatches(o) && Sound(y.s)
    ensures Sound(r.s)
  {
    if steps == [] then y else Next(c, o, Steps(c, o, y, steps[..|steps| - 1]), steps[|steps| - 1])
  }

  ghost predicate Knows(c: Suite, o: Outbound, y: System, k: nat)
    requires MapMatches(o)
  {
    && Consistent(c, o, y.s) && PrefixKnown(o, y.s, k)
    && (forall r | r in y.asked :: Asked(c, o, k, r))
    && (forall x | x in y.answered :: Answered(o, k, x))
  }

  lemma KnowsMore(c: Suite, o: Outbound, y: System, k: nat, s: Inbound, k': nat)
    requires MapMatches(o) && Knows(c, o, y, k) && k <= k' && Consistent(c, o, s) && PrefixKnown(o, s, k')
    ensures Knows(c, o, y.(s := s), k')
  {
    forall x | x in y.answered ensures Answered(o, k', x) {
      assert Answered(o, k, x);
    }
    hide Consistent, PrefixKnown, SegmentUpdate, MapRequest, PartsRequest, AsksParts;
  }

  /** A part changes nothing that is known. */
  lemma PartKeepsMap(c: Suite, s: Inbound, p: Bytes)
    requires Sound(s)
    ensures OnPart(c, s, p).0.map_ == s.map_
  {
    hide SlotFor, Without, MapHash;
  }

  /** An update the sender sent leaves a prefix of whole segments known. */
  lemma UpdateExtends(c: Suite, o: Outbound, s: Inbound, k: nat, j: nat)
    requires Honest(c, o) && Consistent(c, o, s) && PrefixKnown(o, s, k) && 1 <= j <= k && j * SEGMENT < |o.parts|
    ensures PrefixKnown(o, OnUpdate(s, SegmentUpdate(o, j)).0, if j == k then k + 1 else k)
  {
    UpdateStores(c, o, s, j);
    hide OnUpdate, SegmentUpdate, Honest, TrueMap;
  }

  lemma AskKnows(c: Suite, o: Outbound, y: System, k: nat, now: nat)
    requires Honest(c, o) && Knows(c, o, y, k)
    ensures Knows(c, o, Ask(y, NextRequest(y.s, now)), k)
  {
    NextAsked(c, o, y.s, k, now);
    hide NextRequest, Honest, Consistent, PrefixKnown, Asked, Answered;
  }

  /** Answering or dropping the request does not matter to the invariant. */
  lemma AskNothing(c: Suite, o: Outbound, y: System, k: nat)
    requires MapMatches(o) && Knows(c, o, y, k)
    ensures Knows(c, o, Ask(y, (y.s, None)), k)
  {
    assert y.asked + {} == y.asked;
    hide Asked, Answered, PrefixKnown, Consistent;
  }

  lemma DeliverPartKnows(c: Suite, o: Outbound, y: System, k: nat, p: Bytes, now: nat)
    requires Honest(c, o) && Knows(c, o, y, k) && Part(p) in y.answered
    ensures Knows(c, o, Ask(y, ReceivePart(c, y.s, p, now)), k)
  {
    assert Answered(o, k, Part(p));
    PartKeeps(c, o, y.s, p);
    PartKeepsMap(c, y.s, p);
    var filled := OnPart(c, y.s, p).0;
    KnowsMore(c, o, y, k, filled, k);
    AskKnows(c, o, y.(s := filled), k, now);
    AskNothing(c, o, y.(s := filled), k);
    NextAsked(c, o, filled, k, now);
    KnowsMore(c, o, y, k, NextRequest(filled, now).0, k);
    AskNothing(c, o, y.(s := NextRequest(filled, now).0), k);
    hide OnPart, NextRequest, ReadyForRequest, Honest, Consistent, Knows, Asked, Answered, TrueMap;
  }

  lemma DeliverUpdateKnows(c: Suite, o: Outbound, y: System, k: nat, u: Bytes, now: nat)
    requires Honest(c, o) && Knows(c, o, y, k) && HashmapUpdate(u) in y.answered
    ensures exists k': nat :: k <= k' && Knows(c, o, Ask(y, ReceiveUpdate(y.s, u, now)), k')
  {
    assert Answered(o, k, HashmapUpdate(u));
    var j: nat :| 1 <= j <= k && j * SEGMENT < |o.parts| && u == SegmentUpdate(o, j);
    UpdateStores(c, o, y.s, j);
    UpdateExtends(c, o, y.s, k, j);
    var k' := if j == k then k + 1 else k;
    var stored := OnUpdate(y.s, u).0;
    hide OnUpdate, NextRequest, SegmentUpdate, Honest, Consistent, PrefixKnown, Knows, Asked;
    KnowsMore(c, o, y, k, stored, k');
    AskKnows(c, o, y.(s := stored), k', now);
    assert Ask(y, ReceiveUpdate(y.s, u, now)) == Ask(y.(s := stored), NextRequest(stored, now));
  }

  lemma ServeKnows(c: Suite, o: Outbound, y: System, k: nat, request: Bytes, now: nat)
    requires Honest(c, o) && Knows(c, o, y, k)
    ensures Knows(c, o, Next(c, o, y, Serve(request, now)), k)
  {
    if request in y.asked {
      ServeAnswers(c, o, k, request, now);
    }
    hide OnRequest, Honest, Consistent, PrefixKnown, Asked, Answered;
  }

  /** Retrying costs a retry and narrows the window, no more. */
  lemma TiredKnows(c: Suite, o: Outbound, s: Inbound, k: nat, retries: nat, window: nat)
    requires Consistent(c, o, s) && PrefixKnown(o, s, k)
    ensures Consistent(c, o, s.(retries := retries, window := window))
    ensures PrefixKnown(o, s.(retries := retries, window := window), k)
  {
    hide TrueMap;
  }

  lemma TickKnows(c: Suite, o: Outbound, y: System, k: nat, now: nat)
    requires Honest(c, o) && Knows(c, o, y, k)
    ensures Knows(c, o, Next(c, o, y, Tick(now)), k)
  {
    var tired := y.s.(retries := y.s.retries + 1, window := Max(y.s.window - 1, WINDOW_MIN));
    TiredKnows(c, o, y.s, k, tired.retries, tired.window);
    hide NextRequest, RetryDue, Honest, Knows, Consistent, PrefixKnown;
    KnowsMore(c, o, y, k, tired, k);
    AskKnows(c, o, y.(s := tired), k, now);
    assert Ask(y, NextRequest(tired, now)) == Ask(y.(s := tired), NextRequest(tired, now));
    AskNothing(c, o, y, k);
    hide Ask;
  }

  lemma NextKnows(c: Suite, o: Outbound, y: System, k: nat, step: Step)
    requires Honest(c, o) && Knows(c, o, y, k)
    ensures exists k': nat :: k <= k' && Knows(c, o, Next(c, o, y, step), k')
  {
    assert MapMatches(o) && Sound(y.s);
    hide ReceivePart, ReceiveUpdate, Honest, Knows, Ask, OnRequest;
    match step {
      case Serve(request, now) =>
        ServeKnows(c, o, y, k, request, now);
        assert Knows(c, o, Next(c, o, y, step), k);
      case Deliver(Part(p), now) =>
        if Part(p) in y.answered { DeliverPartKnows(c, o, y, k, p, now); }
        assert Knows(c, o, Next(c, o, y, step), k);
      case Deliver(HashmapUpdate(u), now) =>
        if HashmapUpdate(u) in y.answered {
          DeliverUpdateKnows(c, o, y, k, u, now);
          var k': nat :| k <= k' && Knows(c, o, Ask(y, ReceiveUpdate(y.s, u, now)), k');
          assert Knows(c, o, Next(c, o, y, step), k');
        } else {
          assert Knows(c, o, Next(c, o, y, step), k);
        }
      case Tick(now) =>
        TickKnows(c, o, y, k, now);
        assert Knows(c, o, Next(c, o, y, step), k);
    }
  }

  lemma {:induction false} StepsKnow(c: Suite, o: Outbound, y: System, steps: seq<Step>)
    requires Honest(c, o) && Knows(c, o, y, 1)
    ensures exists k: nat :: k >= 1 && Knows(c, o, Steps(c, o, y, steps), k)
    decreases |steps|
  {
    if steps == [] {
      assert Knows(c, o, Steps(c, o, y, steps), 1);
    } else {
      var front := steps[..|steps| - 1];
      StepsKnow(c, o, y, front);
      var k: nat :| k >= 1 && Knows(c, o, Steps(c, o, y, front), k);
      assert MapMatches(o);
      hide Next, Knows, Honest;
      NextKnows(c, o, Steps(c, o, y, front), k, steps[|steps| - 1]);
      var k': nat :| k <= k' && Knows(c, o, Next(c, o, Steps(c, o, y, front), steps[|steps| - 1]), k');
      assert Knows(c, o, Steps(c, o, y, steps), k');
    }
  }

  /** The receiver after the advertisement, with its first request out. */
  function Opening(a: Inbound, now: nat): System
    requires Sound(a)
  {
    Ask(System(a, {}, {}), NextRequest(a, now))
  }

  /** For every run, with every loss, repetition and reordering: the receiver knows exactly the first
      `k` segments of the sender's map; every request it ever sent for more names the last entry of a
      segment `j - 1` it knows, and the sender answers it with exactly segment `j`; and every other
      request is answered with exactly the parts it asks for. */
  lemma SegmentBySegment(c: Suite, z: Codec, o: Outbound, data: Bytes, now: nat, steps: seq<Step>)
    requires Honest(c, o) && Sendable(c, z, data, o)
    ensures var start := FromAdvertisement(Advertised(z, o, data));
            && start.Ok?
            && var y := Steps(c, o, Opening(start.value, now), steps);
            && Consistent(c, o, y.s)
            && exists k: nat ::
                 && PrefixKnown(o, y.s, k)
                 && forall r | r in y.asked ::
                      || AnsweredByParts(c, o, r)
                      || (exists j: nat :: 1 <= j <= k && j * SEGMENT < |o.parts| && r == MapRequest(c, o, j)
                                           && AnsweredBySegment(o, r, j))
  {
    StartConsistent(c, z, o, data);
    var start := FromAdvertisement(Advertised(z, o, data)).value;
    assert PrefixKnown(o, start, 1);
    assert Knows(c, o, System(start, {}, {}), 1);
    AskKnows(c, o, System(start, {}, {}), 1, now);
    StepsKnow(c, o, Opening(start, now), steps);
    var y := Steps(c, o, Opening(start, now), steps);
    var k: nat :| k >= 1 && Knows(c, o, y, k);
    hide Honest, Sendable, FromAdvertisement, Advertised, Steps, NextRequest, Consistent, PrefixKnown, MapRequest;
    forall r | r in y.asked
      ensures || AnsweredByParts(c, o, r)
              || (exists j: nat :: 1 <= j <= k && j * SEGMENT < |o.parts| && r == MapRequest(c, o, j)
                                   && AnsweredBySegment(o, r, j))
    {
      assert Asked(c, o, k, r);
      AskedIsAnswered(c, o, k, r);
    }
  }

  /** The answer to `request` is one part for each hash it asks for, in order. */
  ghost predicate AnsweredByParts(c: Suite, o: Outbound, request: Bytes)
    requires MapMatches(o)
  {
    exists wanted: seq<Bytes> ::
      request == PartsRequest(o, wanted) && forall now: nat :: PartsFor(c, o, OnRequest(o, request, now).1, wanted)
  }

  ghost predicate AnsweredBySegment(o: Outbound, request: Bytes, j: nat)
    requires MapMatches(o) && j * SEGMENT < |o.parts|
  {
    forall now: nat :: OnRequest(o, request, now).1 == [HashmapUpdate(SegmentUpdate(o, j))]
  }

  lemma AskedIsAnswered(c: Suite, o: Outbound, k: nat, r: Bytes)
    requires Honest(c, o) && Asked(c, o, k, r)
    ensures || AnsweredByParts(c, o, r)
            || (exists j: nat :: 1 <= j <= k && j * SEGMENT < |o.parts| && r == MapRequest(c, o, j)
                                 && AnsweredBySegment(o, r, j))
  {
    hide OnRequest, MapRequest, PartsRequest, SegmentUpdate, PartsFor, TrueMap;
    if AsksParts(c, o, r) {
      var wanted :| (forall w | w in wanted :: w in TrueMap(c, o)) && r == PartsRequest(o, wanted);
      forall now: nat ensures PartsFor(c, o, OnRequest(o, r, now).1, wanted) {
        PartsAnswer(c, o, wanted, now);
      }
    } else {
      var j: nat :| 1 <= j <= k && j * SEGMENT < |o.parts| && r == MapRequest(c, o, j);
      forall now: nat ensures OnRequest(o, r, now).1 == [HashmapUpdate(SegmentUpdate(o, j))] {
        MapAnswer(c, o, j, now);
      }
    }
  }
}
