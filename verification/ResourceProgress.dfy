/** Without loss a transfer finishes on its own: each request is answered, each answer leads to the next
    request, and every round brings the end strictly nearer.  No timer is involved. */
module ResourceProgress {
  import opened Base
  import opened Crypto
  import opened ResourceWire
  import opened ResourceState
  import opened ResourceSafety
  import opened ResourceMap

  /** What the receiver makes of a row of answers, and the requests it sends meanwhile. */
  function Hear(c: Suite, s: Inbound, xs: seq<Output>, now: nat): (r: (Inbound, seq<Bytes>))
    requires Sound(s)
    ensures Sound(r.0)
    decreases |xs|
  {
    if xs == [] then (s, [])
    else
      var first := Receive(c, s, xs[0], now);
      var rest := Hear(c, first.0, xs[1..], now);
      (rest.0, (if first.1.Some? then [first.1.value] else []) + rest.1)
  }

  function Unfilled(slots: seq<Option<Bytes>>): nat {
    if slots == [] then 0 else (if slots[0].None? then 1 else 0) + Unfilled(slots[1..])
  }

  /** Missing parts plus unknown map entries. */
  function Remaining(s: Inbound): nat {
    Unfilled(s.parts) + Unfilled(s.map_)
  }

  /** The receiver has just sent `request`, knowing `k` segments. */
  ghost predicate Awaits(c: Suite, o: Outbound, s: Inbound, k: nat, request: Bytes) {
    && Consistent(c, o, s) && PrefixKnown(o, s, k) && s.window >= 1
    && (AwaitsParts(o, s, request) || AwaitsMap(c, o, s, k, request))
  }

  ghost predicate AwaitsParts(o: Outbound, s: Inbound, request: Bytes) {
    && Sound(s) && !s.waitingForUpdate && s.outstanding == Window(s) && s.outstanding != []
    && request == PartsRequest(o, s.outstanding)
  }

  ghost predicate AwaitsMap(c: Suite, o: Outbound, s: Inbound, k: nat, request: Bytes) {
    && !IsComplete(s) && k >= 1 && k * SEGMENT < |o.parts| && request == MapRequest(c, o, k)
  }

  // ------------------------------------------------------------------ counting

  lemma {:induction false} FillingCounts(slots: seq<Option<Bytes>>, i: nat, v: Bytes)
    requires i < |slots| && slots[i].None?
    ensures Unfilled(slots[i := Some(v)]) == Unfilled(slots) - 1
  {
    var filled := slots[i := Some(v)];
    if i == 0 {
      assert filled[1..] == slots[1..];
    } else {
      FillingCounts(slots[1..], i - 1, v);
      assert filled[1..] == slots[1..][i - 1 := Some(v)];
    }
  }

  /** More known slots leave fewer unfilled ones; strictly fewer if `i` is new. */
  lemma {:induction false} FewerUnfilled(a: seq<Option<Bytes>>, b: seq<Option<Bytes>>, i: nat)
    requires |a| == |b| && forall j | 0 <= j < |a| :: a[j].Some? ==> b[j].Some?
    ensures Unfilled(b) <= Unfilled(a)
    ensures i < |a| && a[i].None? && b[i].Some? ==> Unfilled(b) < Unfilled(a)
  {
    if a != [] {
      FewerUnfilled(a[1..], b[1..], if i == 0 then 0 else i - 1);
    }
  }

  // ------------------------------------------------------------------ the next request

  lemma WantedStarts(map_: seq<Option<Bytes>>, parts: seq<Option<Bytes>>, from: nat, end: nat)
    requires from < end <= |parts| == |map_| && parts[from].None? && map_[from].Some?
    ensures Wanted(map_, parts, from, end) != []
  {
  }

  lemma WindowNotEmpty(s: Inbound)
    requires Sound(s) && !IsComplete(s) && s.window >= 1 && s.map_[FirstMissing(s.parts)].Some?
    ensures Window(s) != []
  {
    var first := FirstMissing(s.parts);
    WantedStarts(s.map_, s.parts, first, Min(first + s.window, |s.parts|));
    hide FirstMissing, Wanted;
  }

  lemma RequestKeepsSlots(s: Inbound, now: nat)
    requires Sound(s)
    ensures var s' := NextRequest(s, now).0;
            s'.map_ == s.map_ && s'.parts == s.parts && s'.window == s.window && s'.retries == s.retries
            && Remaining(s') == Remaining(s)
  {
    hide FirstMissing, LastKnown, Wanted, Concat, IsComplete, Unfilled;
  }

  /** An incomplete receiver that waits for no update always has something to ask for. */
  lemma NextAwaits(c: Suite, o: Outbound, s: Inbound, k: nat, now: nat)
    requires Consistent(c, o, s) && PrefixKnown(o, s, k) && s.window >= 1
    requires !IsComplete(s) && !s.waitingForUpdate
    ensures var (s', r) := NextRequest(s, now);
            r.Some? && Awaits(c, o, s', k, r.value)
  {
    RequestKeeps(c, o, s, now);
    RequestKeepsSlots(s, now);
    var (s', r) := NextRequest(s, now);
    assert PrefixKnown(o, s', k) by {
      hide NextRequest, Consistent;
    }
    assert IsComplete(s') == IsComplete(s);
    if s.map_[FirstMissing(s.parts)].None? {
      NextAsksMap(c, o, s, k, now);
      hide NextRequest, FirstMissing, IsComplete, Consistent, PrefixKnown, MapRequest;
      assert AwaitsMap(c, o, s', k, r.value);
    } else {
      NextAsksParts(c, o, s, now);
      WindowNotEmpty(s);
      assert s' == s.(outstanding := Window(s), lastRequest := now);
      assert Window(s') == Window(s);
      hide NextRequest, FirstMissing, IsComplete, Consistent, PrefixKnown, PartsRequest, Window;
      assert AwaitsParts(o, s', r.value);
    }
  }

  // ------------------------------------------------------------------ a round for more of the map

  /** Storing the next segment makes progress. */
  lemma SegmentCounts(c: Suite, o: Outbound, s: Inbound, k: nat)
    requires Honest(c, o) && Consistent(c, o, s) && PrefixKnown(o, s, k) && k * SEGMENT < |o.parts|
    ensures Remaining(OnUpdate(s, SegmentUpdate(o, k)).0) < Remaining(s)
  {
    UpdateStores(c, o, s, k);
    var stored := OnUpdate(s, SegmentUpdate(o, k)).0;
    assert |stored.map_| == |s.map_|;
    hide OnUpdate, SegmentUpdate, Honest, TrueMap;
    FewerUnfilled(s.map_, stored.map_, k * SEGMENT);
    hide Unfilled;
  }

  lemma SegmentStored(c: Suite, o: Outbound, s: Inbound, k: nat)
    requires Honest(c, o) && Consistent(c, o, s) && PrefixKnown(o, s, k) && k * SEGMENT < |o.parts|
    ensures var (stored, ok) := OnUpdate(s, SegmentUpdate(o, k));
            && ok && Sound(stored) && !stored.waitingForUpdate && stored.window == s.window
            && IsComplete(stored) == IsComplete(s)
            && Remaining(stored) < Remaining(s) && Consistent(c, o, stored) && PrefixKnown(o, stored, k + 1)
  {
    UpdateStores(c, o, s, k);
    UpdateExtends(c, o, s, k, k);
    SegmentCounts(c, o, s, k);
    hide OnUpdate, SegmentUpdate, Honest, Consistent, PrefixKnown, Remaining;
  }

  lemma NextKeepsComplete(c: Suite, o: Outbound, s: Inbound, k: nat, now: nat)
    requires Consistent(c, o, s) && PrefixKnown(o, s, k)
    ensures var s' := NextRequest(s, now).0;
            (IsComplete(s') <==> IsComplete(s)) && Consistent(c, o, s') && PrefixKnown(o, s', k)
  {
    RequestKeeps(c, o, s, now);
    RequestKeepsSlots(s, now);
    hide NextRequest, Consistent;
  }

  /** The request that follows an answer. */
  lemma Prompts(c: Suite, o: Outbound, s: Inbound, k: nat, now: nat)
    requires Consistent(c, o, s) && PrefixKnown(o, s, k) && s.window >= 1
    requires !IsComplete(s) && !s.waitingForUpdate
    ensures var (s', r) := NextRequest(s, now);
            && Remaining(s') == Remaining(s) && !IsComplete(s') && s'.retries == s.retries && s'.window == s.window
            && Consistent(c, o, s') && r.Some? && Awaits(c, o, s', k, r.value)
  {
    NextAwaits(c, o, s, k, now);
    RequestKeepsSlots(s, now);
    NextKeepsComplete(c, o, s, k, now);
    hide NextRequest, Consistent, PrefixKnown, IsComplete, Awaits, Unfilled;
  }

  // ------------------------------------------------------------------ a round for parts

  /** The map hash of an arriving part. */
  function Key(c: Suite, o: Outbound, x: Output): Bytes {
    if x.Part? then MapHash(c, x.part, o.random) else []
  }

  function Keys(c: Suite, o: Outbound, xs: seq<Output>): (r: seq<Bytes>)
    ensures |r| == |xs| && forall i | 0 <= i < |xs| :: r[i] == Key(c, o, xs[i])
  {
    seq(|xs|, i requires 0 <= i < |xs| => Key(c, o, xs[i]))
  }

  /** A slot of `s` is waiting for the part with this hash. */
  ghost predicate Vacant(s: Inbound, key: Bytes) {
    Sound(s) && exists i :: 0 <= i < |s.map_| && s.map_[i] == Some(key) && s.parts[i].None?
  }

  /** The row `xs` holds exactly the parts still outstanding, each once. */
  ghost predicate Pending(c: Suite, o: Outbound, s: Inbound, xs: seq<Output>) {
    && (forall x | x in xs :: x.Part? && x.part in o.parts && Vacant(s, Key(c, o, x)))
    && Distinct(Keys(c, o, xs))
    && (forall h :: h in s.outstanding <==> h in Keys(c, o, xs))
  }

  lemma {:induction false} WithoutKeeps(hashes: seq<Bytes>, hash: Bytes)
    ensures forall h :: h in Without(hashes, hash) <==> h in hashes && h != hash
  {
    if hashes != [] {
      WithoutKeeps(hashes[1..], hash);
      assert hashes == [hashes[0]] + hashes[1..];
    }
  }

  lemma EmptyOrNot(hashes: seq<Bytes>)
    ensures hashes == [] || exists h :: h in hashes
  {
    if hashes != [] {
      assert hashes[0] in hashes;
    }
  }

  lemma KeysTail(c: Suite, o: Outbound, xs: seq<Output>)
    requires xs != [] && Distinct(Keys(c, o, xs))
    ensures Keys(c, o, xs)[1..] == Keys(c, o, xs[1..]) && Distinct(Keys(c, o, xs[1..]))
    ensures forall h :: h in Keys(c, o, xs[1..]) <==> h in Keys(c, o, xs) && h != Key(c, o, xs[0])
  {
    var keys := Keys(c, o, xs);
    assert keys == [keys[0]] + keys[1..];
    hide Key, Keys;
    assert Keys(c, o, xs)[1..] == Keys(c, o, xs[1..]);
  }

  /** Filling slot `i` leaves every other awaited slot vacant. */
  lemma StaysVacant(c: Suite, o: Outbound, s: Inbound, i: nat, p: Bytes, outstanding: seq<Bytes>, key: Bytes)
    requires Sound(s) && i < |s.map_| && Vacant(s, key) && s.map_[i] != Some(key)
    ensures Vacant(s.(parts := s.parts[i := Some(p)], outstanding := outstanding), key)
  {
    var j :| 0 <= j < |s.map_| && s.map_[j] == Some(key) && s.parts[j].None?;
    var s' := s.(parts := s.parts[i := Some(p)], outstanding := outstanding);
    assert s'.map_[j] == Some(key) && s'.parts[j].None?;
  }

  lemma PartAccepted(c: Suite, s: Inbound, p: Bytes)
    requires Vacant(s, MapHash(c, p, s.random))
    ensures SlotFor(s.map_, s.parts, MapHash(c, p, s.random)) < |s.map_|
    ensures var (s', ok) := OnPart(c, s, p);
            && ok && Remaining(s') == Remaining(s) - 1 && s'.map_ == s.map_
            && s'.outstanding == Without(s.outstanding, MapHash(c, p, s.random))
            && s'.parts == s.parts[SlotFor(s.map_, s.parts, MapHash(c, p, s.random)) := Some(p)]
            && s'.waitingForUpdate == s.waitingForUpdate && s'.random == s.random
            && (s.window >= 1 ==> s'.window >= 1) && (s'.outstanding == [] ==> s'.retries == 0)
  {
    var i := SlotFor(s.map_, s.parts, MapHash(c, p, s.random));
    hide SlotFor, MapHash, Without;
    var j :| 0 <= j < |s.map_| && s.map_[j] == Some(MapHash(c, p, s.random)) && s.parts[j].None?;
    assert i <= j;
    FillingCounts(s.parts, i, p);
  }

  lemma OthersVacant(c: Suite, o: Outbound, s: Inbound, i: nat, p: Bytes, outstanding: seq<Bytes>, xs: seq<Output>)
    requires Sound(s) && i < |s.map_| && xs != [] && Distinct(Keys(c, o, xs))
    requires forall x | x in xs :: x.Part? && x.part in o.parts && Vacant(s, Key(c, o, x))
    requires s.map_[i] == Some(Key(c, o, xs[0]))
    ensures var s' := s.(parts := s.parts[i := Some(p)], outstanding := outstanding);
            forall x | x in xs[1..] :: x.Part? && x.part in o.parts && Vacant(s', Key(c, o, x))
  {
    KeysTail(c, o, xs);
    hide Vacant, Key, Distinct;
    forall x | x in xs[1..]
      ensures x.Part? && x.part in o.parts
              && Vacant(s.(parts := s.parts[i := Some(p)], outstanding := outstanding), Key(c, o, x))
    {
      assert x in xs;
      var j :| 0 <= j < |xs| - 1 && xs[1..][j] == x;
      assert Keys(c, o, xs[1..])[j] in Keys(c, o, xs[1..]);
      StaysVacant(c, o, s, i, p, outstanding, Key(c, o, x));
    }
  }

  lemma VacantDependsOnSlots(s: Inbound, t: Inbound, key: Bytes)
    requires s.map_ == t.map_ && s.parts == t.parts
    ensures Vacant(s, key) == Vacant(t, key)
  {
  }

  lemma OutstandingLeft(c: Suite, o: Outbound, s: Inbound, xs: seq<Output>)
    requires xs != [] && Pending(c, o, s, xs)
    ensures var rest := Without(s.outstanding, Key(c, o, xs[0]));
            && (forall h :: h in rest <==> h in Keys(c, o, xs[1..]))
            && (rest == [] <==> |xs| == 1)
  {
    var key := Key(c, o, xs[0]);
    var rest := Without(s.outstanding, key);
    WithoutKeeps(s.outstanding, key);
    KeysTail(c, o, xs);
    hide Without, Vacant, Key, Distinct;
    if |xs| == 1 {
      assert Keys(c, o, xs[1..]) == [];
      assert forall h :: h !in rest;
      EmptyOrNot(rest);
    } else {
      assert Keys(c, o, xs[1..])[0] in Keys(c, o, xs[1..]);
    }
  }

  lemma PartStep(c: Suite, o: Outbound, s: Inbound, xs: seq<Output>)
    requires Consistent(c, o, s) && xs != [] && Pending(c, o, s, xs)
    ensures xs[0].Part? && Vacant(s, Key(c, o, xs[0])) && s.random == o.random
    ensures Pending(c, o, OnPart(c, s, xs[0].part).0, xs[1..])
    ensures OnPart(c, s, xs[0].part).0.outstanding == [] <==> |xs| == 1
  {
    var p := xs[0].part;
    var key := Key(c, o, xs[0]);
    assert s.random == o.random;
    PartAccepted(c, s, p);
    KeysTail(c, o, xs);
    OutstandingLeft(c, o, s, xs);
    var s' := OnPart(c, s, p).0;
    var i := SlotFor(s.map_, s.parts, key);
    OthersVacant(c, o, s, i, p, s'.outstanding, xs);
    hide OnPart, SlotFor, Without, Consistent, MapHash, Vacant, Distinct;
    forall x | x in xs[1..] ensures x.Part? && x.part in o.parts && Vacant(s', Key(c, o, x)) {
      VacantDependsOnSlots(s', s.(parts := s.parts[i := Some(p)], outstanding := s'.outstanding), Key(c, o, x));
    }
  }

  /** The last outstanding part prompts the next request; those before it prompt none. */
  lemma PartPrompts(c: Suite, o: Outbound, s: Inbound, k: nat, xs: seq<Output>, now: nat)
    requires Honest(c, o) && Consistent(c, o, s) && PrefixKnown(o, s, k) && s.window >= 1 && !s.waitingForUpdate
    requires xs != [] && Pending(c, o, s, xs)
    ensures var (s', r) := Receive(c, s, xs[0], now);
            && Remaining(s') < Remaining(s) && Consistent(c, o, s') && PrefixKnown(o, s', k)
            && s'.window >= 1 && Sound(s')
            && if |xs| > 1 then r.None? && !s'.waitingForUpdate && Pending(c, o, s', xs[1..])
               else if IsComplete(s') then r.None?
               else r.Some? && Awaits(c, o, s', k, r.value)
  {
    PartStep(c, o, s, xs);
    var p := xs[0].part;
    assert Key(c, o, xs[0]) == MapHash(c, p, s.random);
    PartAccepted(c, s, p);
    PartKeeps(c, o, s, p);
    var filled := OnPart(c, s, p).0;
    assert PrefixKnown(o, filled, k) by { hide OnPart, Consistent; }
    hide OnPart, MapHash, Consistent, PrefixKnown, Pending, Honest, Unfilled, Awaits;
    if |xs| == 1 {
      if !IsComplete(filled) {
        Prompts(c, o, filled, k, now);
        NextKeepsComplete(c, o, filled, k, now);
      }
    }
    hide NextRequest, IsComplete, Remaining;
  }

  /** The end of a round: complete and silent, or exactly one request further. */
  ghost predicate RoundEnds(c: Suite, o: Outbound, before: Inbound, r: (Inbound, seq<Bytes>)) {
    && Remaining(r.0) < Remaining(before) && Consistent(c, o, r.0)
    && if IsComplete(r.0) then r.1 == []
       else |r.1| == 1 && exists k: nat :: Awaits(c, o, r.0, k, r.1[0])
  }

  lemma HearStep(c: Suite, s: Inbound, xs: seq<Output>, now: nat)
    requires Sound(s) && xs != []
    ensures var (s', r) := Receive(c, s, xs[0], now);
            Hear(c, s, xs, now)
            == (Hear(c, s', xs[1..], now).0, (if r.Some? then [r.value] else []) + Hear(c, s', xs[1..], now).1)
  {
    hide Receive;
  }

  lemma RoundEndsLater(c: Suite, o: Outbound, s: Inbound, s': Inbound, r: (Inbound, seq<Bytes>))
    requires Remaining(s') < Remaining(s) && RoundEnds(c, o, s', r)
    ensures RoundEnds(c, o, s, r)
  {
    hide Consistent, Awaits, Remaining, IsComplete;
  }

  lemma {:induction false} PartsRound(c: Suite, o: Outbound, s: Inbound, k: nat, xs: seq<Output>, now: nat)
    requires Honest(c, o) && Consistent(c, o, s) && PrefixKnown(o, s, k) && s.window >= 1 && !s.waitingForUpdate
    requires xs != [] && Sound(s) && Pending(c, o, s, xs)
    ensures RoundEnds(c, o, s, Hear(c, s, xs, now))
    decreases |xs|
  {
    hide *;
    PartPrompts(c, o, s, k, xs, now);
    HearStep(c, s, xs, now);
    var (s', r) := Receive(c, s, xs[0], now);
    if |xs| > 1 {
      PartsRound(c, o, s', k, xs[1..], now);
      RoundEndsLater(c, o, s, s', Hear(c, s', xs[1..], now));
      assert [] + Hear(c, s', xs[1..], now).1 == Hear(c, s', xs[1..], now).1;
    } else {
      assert xs[1..] == [];
      HearNone(c, s', now);
      LastEnds(c, o, s, s', k, r);
    }
  }

  lemma HearNone(c: Suite, s: Inbound, now: nat)
    requires Sound(s)
    ensures Hear(c, s, [], now) == (s, [])
  {
  }

  lemma LastEnds(c: Suite, o: Outbound, s: Inbound, s': Inbound, k: nat, r: Option<Bytes>)
    requires Remaining(s') < Remaining(s) && Consistent(c, o, s')
    requires if IsComplete(s') then r.None? else r.Some? && Awaits(c, o, s', k, r.value)
    ensures RoundEnds(c, o, s, (s', (if r.Some? then [r.value] else []) + []))
  {
    if r.Some? {
      assert [r.value] + [] == [r.value];
      OneFurther(c, o, s, s', k, r.value);
    } else {
      Silent(c, o, s, s');
    }
    hide *;
  }

  lemma Silent(c: Suite, o: Outbound, s: Inbound, s': Inbound)
    requires Remaining(s') < Remaining(s) && IsComplete(s') && Consistent(c, o, s')
    ensures RoundEnds(c, o, s, (s', []))
  {
    hide Consistent, Remaining, IsComplete;
  }

  lemma HearOne(c: Suite, s: Inbound, x: Output, now: nat)
    requires Sound(s)
    ensures var (s', r) := Receive(c, s, x, now);
            Hear(c, s, [x], now) == (s', if r.Some? then [r.value] else [])
  {
    HearStep(c, s, [x], now);
    var (s', r) := Receive(c, s, x, now);
    assert [x][1..] == [];
    assert Hear(c, s', [], now) == (s', []);
    assert (if r.Some? then [r.value] else []) + [] == if r.Some? then [r.value] else [];
    hide Receive, Hear;
  }

  lemma UpdatePrompts(c: Suite, s: Inbound, u: Bytes, now: nat)
    requires Sound(s) && OnUpdate(s, u).1
    ensures Receive(c, s, HashmapUpdate(u), now) == NextRequest(OnUpdate(s, u).0, now)
  {
    hide OnUpdate, NextRequest;
  }

  lemma OneFurther(c: Suite, o: Outbound, s: Inbound, s': Inbound, k: nat, request: Bytes)
    requires Remaining(s') < Remaining(s) && !IsComplete(s') && Awaits(c, o, s', k, request)
    ensures RoundEnds(c, o, s, (s', [request]))
  {
    assert Awaits(c, o, s', k, [request][0]);
    hide Consistent, PrefixKnown, Remaining, IsComplete, AwaitsParts, AwaitsMap;
  }

  /** An accepted update prompts one request. */
  lemma HearUpdate(c: Suite, s: Inbound, u: Bytes, stored: Inbound, now: nat)
    requires Sound(s) && Sound(stored) && OnUpdate(s, u) == (stored, true) && NextRequest(stored, now).1.Some?
    ensures Hear(c, s, [HashmapUpdate(u)], now) == (NextRequest(stored, now).0, [NextRequest(stored, now).1.value])
  {
    UpdatePrompts(c, s, u, now);
    HearOne(c, s, HashmapUpdate(u), now);
    hide *;
  }

  lemma Further(c: Suite, o: Outbound, s: Inbound, stored: Inbound, k: nat, now: nat)
    requires Remaining(stored) < Remaining(s) && Consistent(c, o, stored) && PrefixKnown(o, stored, k)
    requires stored.window >= 1 && !IsComplete(stored) && !stored.waitingForUpdate
    ensures var (s', r) := NextRequest(stored, now);
            r.Some? && RoundEnds(c, o, s, (s', [r.value]))
  {
    Prompts(c, o, stored, k, now);
    var (s', r) := NextRequest(stored, now);
    hide *;
    OneFurther(c, o, s, s', k, r.value);
  }

  lemma MapRound(c: Suite, o: Outbound, s: Inbound, k: nat, now: nat)
    requires Honest(c, o) && Consistent(c, o, s) && PrefixKnown(o, s, k) && s.window >= 1
    requires !IsComplete(s) && k * SEGMENT < |o.parts| && MapMatches(o) && Sound(s)
    ensures RoundEnds(c, o, s, Hear(c, s, [HashmapUpdate(SegmentUpdate(o, k))], now))
  {
    hide *;
    SegmentStored(c, o, s, k);
    var u := SegmentUpdate(o, k);
    var stored := OnUpdate(s, u).0;
    Further(c, o, s, stored, k + 1, now);
    HearUpdate(c, s, u, stored, now);
  }

  // ------------------------------------------------------------------ any order of arrival

  lemma PermutationDistinct<T>(a: seq<T>, b: seq<T>)
    requires multiset(a) == multiset(b)
    requires forall i, j | 0 <= i < j < |a| :: a[i] != a[j]
    ensures forall i, j | 0 <= i < j < |b| :: b[i] != b[j]
    ensures |a| == |b|
    ensures forall x :: x in a <==> x in b
  {
    assert |multiset(a)| == |a| && |multiset(b)| == |b|;
    forall x ensures x in a <==> x in b {
      assert x in a <==> x in multiset(a);
      assert x in b <==> x in multiset(b);
    }
    forall i, j | 0 <= i < j < |b| ensures b[i] != b[j] {
      if b[i] == b[j] {
        Twice(b, i, j);
        Once(a, b[i]);
      }
    }
  }

  lemma Twice<T>(b: seq<T>, i: nat, j: nat)
    requires i < j < |b| && b[i] == b[j]
    ensures multiset(b)[b[i]] >= 2
  {
    assert b == b[..i] + [b[i]] + b[i + 1..j] + [b[j]] + b[j + 1..];
    hide *;
  }

  lemma {:induction false} Once<T>(a: seq<T>, x: T)
    requires forall i, j | 0 <= i < j < |a| :: a[i] != a[j]
    ensures multiset(a)[x] <= 1
  {
    if a != [] {
      Once(a[1..], x);
      assert a == [a[0]] + a[1..];
      if a[0] == x {
        assert x !in a[1..];
        assert x !in multiset(a[1..]);
      }
    }
  }

  lemma {:induction false} WantedDistinct(map_: seq<Option<Bytes>>, parts: seq<Option<Bytes>>, from: nat, end: nat)
    requires end <= |parts| == |map_|
    requires forall i, j | 0 <= i < j < |map_| && map_[i].Some? :: map_[i] != map_[j]
    ensures Distinct(Wanted(map_, parts, from, end))
    decreases end - from
  {
    if from < end {
      WantedDistinct(map_, parts, from + 1, end);
      WantedAre(map_, parts, from + 1, end);
      var tail := Wanted(map_, parts, from + 1, end);
      forall w | w in tail ensures map_[from] != Some(w) {
        var i :| from + 1 <= i < end && map_[i] == Some(w) && parts[i].None?;
      }
    }
  }

  lemma KnownDistinct(c: Suite, o: Outbound, s: Inbound)
    requires Honest(c, o) && Consistent(c, o, s)
    ensures forall i, j | 0 <= i < j < |s.map_| && s.map_[i].Some? :: s.map_[i] != s.map_[j]
  {
    forall i, j | 0 <= i < j < |s.map_| && s.map_[i].Some? ensures s.map_[i] != s.map_[j] {
      assert TrueMap(c, o)[i] != TrueMap(c, o)[j];
    }
    hide Hashes, MapHash;
  }

  /** The hashes asked for are vacant, and all different. */
  lemma WindowVacant(c: Suite, o: Outbound, s: Inbound)
    requires Honest(c, o) && Consistent(c, o, s)
    ensures Distinct(Window(s)) && forall w | w in Window(s) :: Vacant(s, w)
  {
    hide FirstMissing, Wanted, Honest, TrueMap, IsComplete;
    KnownDistinct(c, o, s);
    var first := FirstMissing(s.parts);
    var end := Min(first + s.window, |s.parts|);
    WantedDistinct(s.map_, s.parts, first, end);
    WantedAre(s.map_, s.parts, first, end);
  }

  lemma InOrderPending(c: Suite, o: Outbound, s: Inbound, outs: seq<Output>)
    requires Honest(c, o) && Consistent(c, o, s) && s.outstanding == Window(s) && PartsFor(c, o, outs, s.outstanding)
    ensures Pending(c, o, s, outs)
    ensures forall i, j | 0 <= i < j < |outs| :: outs[i] != outs[j]
  {
    WindowVacant(c, o, s);
    assert Keys(c, o, outs) == s.outstanding;
    hide Consistent, Window, Vacant, MapHash, Honest;
    forall x | x in outs ensures x.Part? && x.part in o.parts && Vacant(s, Key(c, o, x)) {
      var i :| 0 <= i < |outs| && outs[i] == x;
      assert s.outstanding[i] in Window(s);
    }
    forall i, j | 0 <= i < j < |outs| ensures outs[i] != outs[j] {
      assert s.outstanding[i] != s.outstanding[j];
    }
  }

  lemma AnyOrderPending(c: Suite, o: Outbound, s: Inbound, outs: seq<Output>, xs: seq<Output>)
    requires Pending(c, o, s, outs) && multiset(xs) == multiset(outs)
    requires forall i, j | 0 <= i < j < |outs| :: outs[i] != outs[j]
    ensures Pending(c, o, s, xs) && |xs| == |outs|
  {
    hide Vacant, Key, MapHash;
    PermutationDistinct(outs, xs);
    forall i, j | 0 <= i < j < |xs| ensures Keys(c, o, xs)[i] != Keys(c, o, xs)[j] {
      assert xs[i] in outs && xs[j] in outs;
      var a :| 0 <= a < |outs| && outs[a] == xs[i];
      var b :| 0 <= b < |outs| && outs[b] == xs[j];
      assert Keys(c, o, outs)[a] != Keys(c, o, outs)[b];
    }
    forall h ensures h in Keys(c, o, outs) <==> h in Keys(c, o, xs) {
      KeysOfElements(c, o, outs, xs, h);
      KeysOfElements(c, o, xs, outs, h);
    }
  }

  lemma KeysOfElements(c: Suite, o: Outbound, a: seq<Output>, b: seq<Output>, h: Bytes)
    requires forall x :: x in a ==> x in b
    ensures h in Keys(c, o, a) ==> h in Keys(c, o, b)
  {
    if h in Keys(c, o, a) {
      var i :| 0 <= i < |a| && Keys(c, o, a)[i] == h;
      assert a[i] in b;
      var j :| 0 <= j < |b| && b[j] == a[i];
      assert Keys(c, o, b)[j] == h;
    }
    hide Key;
  }

  // ------------------------------------------------------------------ rounds

  /** One loss-free round, the answers arriving in any order: strictly nearer the end, and complete or
      asking again. */
  lemma RoundAdvances(c: Suite, o: Outbound, s: Inbound, k: nat, request: Bytes, xs: seq<Output>, now: nat)
    requires Honest(c, o) && Awaits(c, o, s, k, request)
    requires multiset(xs) == multiset(OnRequest(o, request, now).1)
    ensures RoundEnds(c, o, s, Hear(c, s, xs, now))
  {
    if AwaitsMap(c, o, s, k, request) {
      MapAnswer(c, o, k, now);
      OnlyOrder(xs, HashmapUpdate(SegmentUpdate(o, k)));
      hide OnRequest, Hear, SegmentUpdate, Consistent, PrefixKnown, Honest, RoundEnds, MapRequest;
      MapRound(c, o, s, k, now);
    } else {
      WindowInMap(c, o, s);
      PartsAnswer(c, o, s.outstanding, now);
      var outs := OnRequest(o, request, now).1;
      hide OnRequest, Hear, Consistent, PrefixKnown, Honest, RoundEnds, PartsRequest, Window, TrueMap, Pending;
      InOrderPending(c, o, s, outs);
      AnyOrderPending(c, o, s, outs, xs);
      PartsRound(c, o, s, k, xs, now);
    }
  }

  lemma OnlyOrder<T>(xs: seq<T>, x: T)
    requires multiset(xs) == multiset([x])
    ensures xs == [x]
  {
    assert |multiset(xs)| == |xs| == 1;
    assert xs[0] in multiset(xs);
  }

  /** When each round happens, and in which order its answers arrive. */
  datatype Schedule = Schedule(clock: nat -> nat, shuffle: (nat, seq<Output>) -> seq<Output>)

  ghost predicate Shuffles(w: Schedule) {
    forall n, xs :: multiset(w.shuffle(n, xs)) == multiset(xs)
  }

  lemma {:induction false} HearSame(c: Suite, s: Inbound, xs: seq<Output>, now: nat)
    requires Sound(s)
    ensures SameTransfer(s, Hear(c, s, xs, now).0)
    decreases |xs|
  {
    if xs != [] {
      ReactSame(c, s, Arrives(xs[0], now));
      HearSame(c, Receive(c, s, xs[0], now).0, xs[1..], now);
    }
    hide Receive;
  }

  /** One round: the request is served and every answer arrives. */
  function Round(c: Suite, o: Outbound, s: Inbound, request: Bytes, w: Schedule, n: nat): (r: (Inbound, seq<Bytes>))
    requires MapMatches(o) && Sound(s)
    ensures Sound(r.0)
  {
    Hear(c, s, w.shuffle(n, OnRequest(o, request, w.clock(n)).1), w.clock(n))
  }

  /** Up to `n` loss-free rounds; no retry timer ever fires. */
  function Rounds(c: Suite, o: Outbound, s: Inbound, request: Bytes, w: Schedule, n: nat): (r: Inbound)
    requires MapMatches(o) && Sound(s)
    ensures Sound(r)
    decreases n
  {
    if n == 0 then s
    else
      var end := Round(c, o, s, request, w, n);
      if end.1 == [] then end.0 else Rounds(c, o, end.0, end.1[0], w, n - 1)
  }

  lemma RoundIs(c: Suite, o: Outbound, s: Inbound, k: nat, request: Bytes, w: Schedule, n: nat)
    requires Honest(c, o) && Awaits(c, o, s, k, request) && Shuffles(w)
    ensures RoundEnds(c, o, s, Round(c, o, s, request, w, n))
    ensures SameTransfer(s, Round(c, o, s, request, w, n).0)
  {
    var now := w.clock(n);
    var xs := w.shuffle(n, OnRequest(o, request, now).1);
    RoundAdvances(c, o, s, k, request, xs, now);
    HearSame(c, s, xs, now);
    hide Hear, OnRequest, RoundEnds, Honest, SameTransfer;
  }

  ghost predicate Finished(c: Suite, o: Outbound, s: Inbound, end: Inbound) {
    IsComplete(end) && Consistent(c, o, end) && SameTransfer(s, end)
  }

  lemma FinishedLater(c: Suite, o: Outbound, s: Inbound, s': Inbound, end: Inbound)
    requires SameTransfer(s, s') && Finished(c, o, s', end)
    ensures Finished(c, o, s, end)
  {
    hide IsComplete, Consistent;
  }

  lemma RoundsStop(c: Suite, o: Outbound, s: Inbound, request: Bytes, w: Schedule, n: nat)
    requires MapMatches(o) && Sound(s) && n > 0 && RoundEnds(c, o, s, Round(c, o, s, request, w, n))
    requires IsComplete(Round(c, o, s, request, w, n).0)
    ensures var end := Round(c, o, s, request, w, n);
            Rounds(c, o, s, request, w, n) == end.0 && Consistent(c, o, end.0)
  {
    hide Round, Remaining, Consistent, Awaits, IsComplete;
  }

  lemma RoundsGoOn(c: Suite, o: Outbound, s: Inbound, request: Bytes, w: Schedule, n: nat) returns (k: nat)
    requires MapMatches(o) && Sound(s) && n > 0 && RoundEnds(c, o, s, Round(c, o, s, request, w, n))
    requires !IsComplete(Round(c, o, s, request, w, n).0)
    ensures var end := Round(c, o, s, request, w, n);
            && |end.1| == 1 && Awaits(c, o, end.0, k, end.1[0]) && Remaining(end.0) < Remaining(s)
            && Rounds(c, o, s, request, w, n) == Rounds(c, o, end.0, end.1[0], w, n - 1)
  {
    hide Round, Remaining, Consistent, Awaits, IsComplete;
    var end := Round(c, o, s, request, w, n);
    k :| Awaits(c, o, end.0, k, end.1[0]);
  }

  lemma Positive(c: Suite, o: Outbound, s: Inbound, r: (Inbound, seq<Bytes>))
    requires RoundEnds(c, o, s, r)
    ensures Remaining(s) > 0
  {
    hide Remaining, Consistent, Awaits, IsComplete;
  }

  /** As many rounds as there are missing parts and unknown entries are enough. */
  lemma {:induction false} RoundsComplete(c: Suite, o: Outbound, s: Inbound, k: nat, request: Bytes, w: Schedule, n: nat)
    requires MapMatches(o) && Honest(c, o) && Sound(s) && Awaits(c, o, s, k, request) && Shuffles(w)
    requires Remaining(s) <= n
    ensures Finished(c, o, s, Rounds(c, o, s, request, w, n))
    decreases n
  {
    hide *;
    RoundIs(c, o, s, k, request, w, n);
    var end := Round(c, o, s, request, w, n);
    Positive(c, o, s, end);
    if IsComplete(end.0) {
      RoundsStop(c, o, s, request, w, n);
      FinishedNow(c, o, s, end.0);
    } else {
      var k' := RoundsGoOn(c, o, s, request, w, n);
      RoundsComplete(c, o, end.0, k', end.1[0], w, n - 1);
      FinishedLater(c, o, s, end.0, Rounds(c, o, end.0, end.1[0], w, n - 1));
    }
  }

  lemma FinishedNow(c: Suite, o: Outbound, s: Inbound, end: Inbound)
    requires IsComplete(end) && Consistent(c, o, end) && SameTransfer(s, end)
    ensures Finished(c, o, s, end)
  {
    hide IsComplete, Consistent;
  }

  lemma UnfilledAtMost(slots: seq<Option<Bytes>>)
    ensures Unfilled(slots) <= |slots|
  {
  }

  /** Resource progress: from the advertisement on, at most two rounds per part and no timer bring the
      sender's data to the receiver, and the sender accepts the proof. */
  lemma TransferFinishes(c: Suite, z: Codec, data: Bytes, key: Bytes, prefix: Bytes, iv: Bytes, random: Bytes,
      start: nat, w: Schedule, n: nat)
    requires Lawful(c) && Faithful(z) && |prefix| == 4 && |random| == 4 && Shuffles(w)
    requires Sendable(c, z, data, NewOutbound(c, z, data, key, prefix, iv, random, start))
    requires n >= 2 * |NewOutbound(c, z, data, key, prefix, iv, random, start).parts|
    ensures var o := NewOutbound(c, z, data, key, prefix, iv, random, start);
            var a := FromAdvertisement(Advertised(z, o, data));
            && a.Ok?
            && var (asking, request) := NextRequest(a.value, start);
            && request.Some?
            && var end := Rounds(c, o, asking, request.value, w, n);
            IsComplete(end) && Finalize(c, z, end, key) == Ok(data) && OnProof(o, ProofOf(c, end, data)).completed
  {
    var o := NewOutbound(c, z, data, key, prefix, iv, random, start);
    NewIsHonest(c, z, data, key, prefix, iv, random, start);
    StartConsistent(c, z, o, data);
    var a := FromAdvertisement(Advertised(z, o, data)).value;
    StartAwaits(c, z, o, data, start);
    var (asking, request) := NextRequest(a, start);
    RequestSame(a, start);
    hide NewOutbound, NextRequest, Consistent, Finalize, OnProof, FromAdvertisement, Advertised, Honest, Sendable,
         Rounds, IsComplete, Awaits, Remaining;
    RoundsComplete(c, o, asking, 1, request.value, w, n);
    var end := Rounds(c, o, asking, request.value, w, n);
    CompleteIsExact(c, z, data, key, prefix, iv, random, start, end);
  }

  lemma StartAwaits(c: Suite, z: Codec, o: Outbound, data: Bytes, now: nat)
    requires Honest(c, o) && Sendable(c, z, data, o)
    requires FromAdvertisement(Advertised(z, o, data)).Ok?
    ensures var (s, r) := NextRequest(FromAdvertisement(Advertised(z, o, data)).value, now);
            r.Some? && Awaits(c, o, s, 1, r.value) && Remaining(s) <= 2 * |o.parts|
  {
    StartConsistent(c, z, o, data);
    var a := FromAdvertisement(Advertised(z, o, data)).value;
    assert PrefixKnown(o, a, 1);
    assert !IsComplete(a) by { assert a.parts[0].None?; }
    Prompts(c, o, a, 1, now);
    UnfilledAtMost(a.parts);
    UnfilledAtMost(a.map_);
    hide FromAdvertisement, Advertised, Honest, NextRequest, Awaits, Unfilled, IsComplete, TrueMap;
  }
}
