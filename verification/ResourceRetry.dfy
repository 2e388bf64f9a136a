/** How long a receiver keeps asking: a bounded number of retries, each of which asks for something. */
module ResourceRetry {
  import opened Base
  import opened Crypto
  import opened ResourceWire
  import opened ResourceState
  import opened ResourceSafety

  // ------------------------------------------------------------------ what holds after any input at all

  ghost predicate PartsKnown(s: Inbound) {
    |s.map_| == |s.parts| && forall i | 0 <= i < |s.parts| :: s.parts[i].Some? ==> s.map_[i].Some?
  }

  /** A request was only ever sent when the first map entry was known. */
  ghost predicate FirstKnown(s: Inbound) {
    s.lastRequest != 0 ==> s.map_ != [] && s.map_[0].Some?
  }

  ghost predicate Kept(s: Inbound) {
    && PartsKnown(s) && FirstKnown(s)
    && WINDOW_MIN <= s.window <= WINDOW_MAX && s.retries <= MAX_RETRIES
  }

  /** Every part that is missing before the first gap is not: slot 0 is known once anything is. */
  lemma RequestKept(s: Inbound, now: nat)
    requires Kept(s)
    ensures Kept(NextRequest(s, now).0)
    ensures NextRequest(s, now).0.map_ == s.map_ && NextRequest(s, now).0.parts == s.parts
    ensures NextRequest(s, now).0.window == s.window && NextRequest(s, now).0.retries == s.retries
  {
    hide FirstMissing, LastKnown, Wanted, Concat;
  }

  lemma PartKept(c: Suite, s: Inbound, p: Bytes)
    requires Kept(s)
    ensures Kept(OnPart(c, s, p).0)
  {
    hide SlotFor, Without, MapHash;
  }

  lemma PutKept(s: Inbound, start: nat, entries: seq<Bytes>)
    requires PartsKnown(s) && FirstKnown(s)
    ensures PartsKnown(s.(map_ := Put(s.map_, start, entries)))
    ensures FirstKnown(s.(map_ := Put(s.map_, start, entries)))
  {
    hide Put;
  }

  lemma UpdateKept(s: Inbound, u: Bytes)
    requires Kept(s)
    ensures Kept(OnUpdate(s, u).0)
  {
    hide UnpackUpdate, Entries, Put;
    var read := UnpackUpdate(u);
    if read.Ok? {
      PutKept(s, read.value.segment * SEGMENT, Entries(read.value.map_));
    }
  }

  lemma ReactKept(c: Suite, s: Inbound, h: Happening)
    requires Kept(s)
    ensures Kept(React(c, s, h))
  {
    hide OnPart, OnUpdate, NextRequest, IsComplete;
    match h {
      case Arrives(Part(p), now) =>
        PartKept(c, s, p);
        RequestKept(OnPart(c, s, p).0, now);
      case Arrives(HashmapUpdate(u), now) =>
        UpdateKept(s, u);
        RequestKept(OnUpdate(s, u).0, now);
      case RetryTick(now) =>
        if s.retries < MAX_RETRIES {
          var tired := s.(retries := s.retries + 1, window := Max(s.window - 1, WINDOW_MIN));
          assert Kept(tired);
          RequestKept(tired, now);
        }
    }
  }

  /** After any input whatsoever, honest or not: the window stays in [2, 75], retries never exceed 16,
      every filled slot was expected, and a request was only ever sent with map slot 0 known. */
  lemma {:induction false} AlwaysKept(c: Suite, a: Advertisement, hs: seq<Happening>, now: nat)
    requires FromAdvertisement(a).Ok?
    ensures Kept(Reacts(c, NextRequest(FromAdvertisement(a).value, now).0, hs))
    decreases |hs|
  {
    var start := FromAdvertisement(a).value;
    if hs == [] {
      assert Kept(start) by { hide Entries; }
      RequestKept(start, now);
    } else {
      AlwaysKept(c, a, hs[..|hs| - 1], now);
      ReactKept(c, Reacts(c, NextRequest(start, now).0, hs[..|hs| - 1]), hs[|hs| - 1]);
    }
    hide React, Kept, NextRequest, FromAdvertisement;
  }

  // ------------------------------------------------------------------ a retry always asks

  lemma KnownEntry(map_: seq<Option<Bytes>>)
    requires map_ != [] && map_[0].Some?
    ensures LastKnown(map_).Some?
  {
  }

  lemma WantedFirst(map_: seq<Option<Bytes>>, parts: seq<Option<Bytes>>, from: nat, end: nat)
    requires from < end <= |parts| == |map_| && parts[from].None? && map_[from].Some?
    ensures Wanted(map_, parts, from, end) != []
  {
  }

  /** With slot 0 known and parts missing there is always something to ask for. */
  lemma AlwaysAsks(s: Inbound, now: nat)
    requires Kept(s) && s.lastRequest != 0 && !IsComplete(s)
    ensures NextRequest(s, now).1.Some? && NextRequest(s, now).0.lastRequest == now
  {
    hide FirstMissing, LastKnown, Wanted, Concat;
    var first := FirstMissing(s.parts);
    if s.map_[first].None? {
      assert first > 0;
      KnownEntry(s.map_[..first]);
    } else {
      WantedFirst(s.map_, s.parts, first, Min(first + s.window, |s.parts|));
    }
  }

  lemma RetryAsks(s: Inbound, now: nat)
    requires Kept(s) && RetryDue(s, now) && s.retries < MAX_RETRIES
    ensures Retry(s, now).Ok?
    ensures var (s', r) := Retry(s, now).value;
            && r.Some? && Kept(s') && s'.retries == s.retries + 1 && s'.lastRequest == now
            && s'.parts == s.parts && s'.map_ == s.map_ && (IsComplete(s') <==> IsComplete(s))
  {
    hide NextRequest, FirstMissing;
    var tired := s.(retries := s.retries + 1, window := Max(s.window - 1, WINDOW_MIN));
    assert Kept(tired) && !IsComplete(tired);
    AlwaysAsks(tired, now);
    RequestKept(tired, now);
  }

  /** How many of these moments are at least two seconds after the one acted on before. */
  function DueTicks(last: nat, times: seq<nat>): nat
    decreases |times|
  {
    if times == [] then 0
    else if times[0] >= last + REQUEST_TIMEOUT then 1 + DueTicks(times[0], times[1..])
    else DueTicks(last, times[1..])
  }

  /** What ticks do to a receiver nothing arrives at: requests sent, and whether it gave up. */
  function Ticking(s: Inbound, times: seq<nat>): (nat, bool)
    requires Sound(s)
    decreases |times|
  {
    if times == [] then (0, false)
    else
      match Retry(s, times[0])
      case Err(_) => (0, true)
      case Ok((s', r)) =>
        var rest := Ticking(s', times[1..]);
        ((if r.Some? then 1 else 0) + rest.0, rest.1)
  }

  lemma TickDue(s: Inbound, times: seq<nat>)
    requires Kept(s) && times != [] && RetryDue(s, times[0]) && s.retries < MAX_RETRIES
    ensures Retry(s, times[0]).Ok?
    ensures Ticking(s, times) == (1 + Ticking(Retry(s, times[0]).value.0, times[1..]).0,
                                  Ticking(Retry(s, times[0]).value.0, times[1..]).1)
  {
    RetryAsks(s, times[0]);
    hide Retry, RetryDue;
  }

  /** The retry budget, exactly: of the due moments the first `16 - retries` each send one request, the
      next one ends the transfer, and no other moment does anything. */
  lemma {:induction false} RetryBudget(s: Inbound, times: seq<nat>)
    requires Kept(s) && s.lastRequest != 0 && !IsComplete(s)
    ensures Ticking(s, times)
            == (Min(DueTicks(s.lastRequest, times), MAX_RETRIES - s.retries),
                DueTicks(s.lastRequest, times) > MAX_RETRIES - s.retries)
    decreases |times|
  {
    if times == [] {
    } else if !RetryDue(s, times[0]) {
      RetryBudget(s, times[1..]);
    } else if s.retries < MAX_RETRIES {
      RetryAsks(s, times[0]);
      TickDue(s, times);
      hide Ticking, NextRequest;
      RetryBudget(Retry(s, times[0]).value.0, times[1..]);
    }
    hide NextRequest, IsComplete;
  }

  // ------------------------------------------------------------------ draining resets the retries

  /** A part that empties the outstanding list resets the retries, so the request that follows it is
      never held back for having been retried. */
  lemma FilterNeverDiscards(c: Suite, s: Inbound, part: Bytes, now: nat)
    requires Sound(s)
    ensures var (filled, accepted) := OnPart(c, s, part);
            && (accepted && filled.outstanding == [] ==> filled.retries == 0)
            && (accepted && ReadyForRequest(filled) ==> ReceivePart(c, s, part, now) == NextRequest(filled, now))
  {
    hide SlotFor, Without, MapHash, FirstMissing, LastKnown, Wanted, Concat, IsComplete;
  }

  // ------------------------------------------------------------------ an advertisement without a map

  /** With nothing known there is nothing to ask for, nothing to retry and nothing to accept. */
  lemma NothingKnown(c: Suite, s: Inbound, h: Happening)
    requires Sound(s) && s.lastRequest == 0 && (forall i | 0 <= i < |s.map_| :: s.map_[i].None? && s.parts[i].None?)
    requires h.Arrives? ==> h.x.Part?
    ensures React(c, s, h) == s
  {
    hide FirstMissing, LastKnown, Wanted, Concat, SlotFor, Without, MapHash;
  }

  /** A resource advertised with an empty map stays untouched until a hashmap update arrives by itself:
      it is never requested, never retried and never given up. */
  lemma {:induction false} EmptyMapNeverMoves(c: Suite, a: Advertisement, hs: seq<Happening>, now: nat)
    requires FromAdvertisement(a).Ok? && |a.m| < MAPHASH_LEN
    requires forall h | h in hs && h.Arrives? :: h.x.Part?
    ensures var s := FromAdvertisement(a).value;
            && NextRequest(s, now) == (s, None)
            && Reacts(c, s, hs) == s
            && forall t: nat :: Retry(s, t) == Ok((s, None))
    decreases |hs|
  {
    var s := FromAdvertisement(a).value;
    assert Entries(a.m) == [];
    assert forall i | 0 <= i < |s.map_| :: s.map_[i].None? && s.parts[i].None?;
    hide FirstMissing, Wanted, Concat, FromAdvertisement, React;
    if hs != [] {
      var front := hs[..|hs| - 1];
      assert forall h | h in front :: h in hs;
      EmptyMapNeverMoves(c, a, front, now);
      assert hs[|hs| - 1] in hs;
      NothingKnown(c, s, hs[|hs| - 1]);
    }
  }
}
