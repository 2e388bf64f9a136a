/** The path table (reticulum-node/src/path_table.rs): route preference and lazy expiry. */
module PathTables {
  import opened Base

  datatype PathEntry = PathEntry(
    iface: nat, nextHop: Option<Bytes>, hops: Byte, expiresAt: nat, timestamp: nat, public: Bytes,
    ratchet: Option<Bytes>)

  type Table = map<Bytes, PathEntry>

  /** Does `entry` replace what the table holds for `dest` at time `now`? */
  predicate Prefers(t: Table, dest: Bytes, entry: PathEntry, now: nat) {
    || dest !in t
    || t[dest].expiresAt <= now
    || entry.hops < t[dest].hops
    || (entry.hops == t[dest].hops && entry.timestamp > t[dest].timestamp)
  }

  function Updated(t: Table, dest: Bytes, entry: PathEntry, now: nat): Table {
    if Prefers(t, dest, entry, now) then t[dest := entry] else t
  }

  function Pruned(t: Table, now: nat): Table {
    map d | d in t && t[d].expiresAt > now :: t[d]
  }

  class PathTable {
    var entries: Table

    constructor ()
      ensures entries == map[]
    {
      entries := map[];
    }

    method Update(dest: Bytes, entry: PathEntry, now: nat) returns (accepted: bool)
      modifies this
      ensures accepted == Prefers(old(entries), dest, entry, now)
      ensures entries == Updated(old(entries), dest, entry, now)
    {
      var replace := true;
      if dest in entries {
        var current := entries[dest];
        if current.expiresAt <= now {
        } else if entry.hops < current.hops {
        } else {
          replace := entry.hops == current.hops && entry.timestamp > current.timestamp;
        }
      }
      if replace {
        entries := entries[dest := entry];
      }
      return replace;
    }

    /** Like an update at a time when nothing has expired. */
    method Insert(dest: Bytes, entry: PathEntry) returns (accepted: bool)
      modifies this
      ensures accepted <==> dest !in old(entries) || Better(entry, old(entries)[dest])
      ensures entries == if accepted then old(entries)[dest := entry] else old(entries)
    {
      var replace := true;
      if dest in entries {
        var current := entries[dest];
        replace := entry.hops < current.hops || (entry.hops == current.hops && entry.timestamp > current.timestamp);
      }
      if replace {
        entries := entries[dest := entry];
      }
      return replace;
    }

    method Prune(now: nat) returns (removed: nat)
      modifies this
      ensures entries == Pruned(old(entries), now)
      ensures removed == |old(entries)| - |entries|
    {
      var before := |entries|;
      ghost var was := entries;
      entries := map d | d in entries && entries[d].expiresAt > now :: entries[d];
      PruneShrinks(was, now);
      removed := before - |entries|;
    }

    method Get(dest: Bytes) returns (r: Option<PathEntry>)
      ensures r == if dest in entries then Some(entries[dest]) else None
    {
      if dest in entries {
        return Some(entries[dest]);
      }
      return None;
    }
  }

  lemma PruneShrinks(t: Table, now: nat)
    ensures |Pruned(t, now)| <= |t|
  {
    SubsetSize(Pruned(t, now).Keys, t.Keys);
  }

  lemma SubsetSize<T>(a: set<T>, b: set<T>)
    requires a <= b
    ensures |a| <= |b|
  {
    if a != {} {
      var x :| x in a;
      SubsetSize(a - {x}, b - {x});
    }
  }

  // ---------------------------------------------------------------------------------------
  // Lazy expiry answers like eager expiry

  /** One use of the table: an update, or a prune followed by a lookup. */
  datatype Op = Offer(dest: Bytes, entry: PathEntry, at: nat) | Lookup(dest: Bytes, at: nat)

  datatype Answer = Accepted(yes: bool) | Found(entry: Option<PathEntry>)

  function Lookup(t: Table, dest: Bytes): Option<PathEntry> {
    if dest in t then Some(t[dest]) else None
  }

  /** The source: an update never prunes, a lookup prunes first. */
  function LazyStep(t: Table, op: Op): (Table, Answer) {
    match op
    case Offer(d, e, now) => (Updated(t, d, e, now), Accepted(Prefers(t, d, e, now)))
    case Lookup(d, now) => var p := Pruned(t, now); (p, Found(Lookup(p, d)))
  }

  /** The reference: every operation starts by dropping whatever has expired. */
  function EagerStep(t: Table, op: Op): (Table, Answer) {
    LazyStep(Pruned(t, op.at), op)
  }

  function LazyRun(t: Table, ops: seq<Op>): seq<Answer>
    decreases |ops|
  {
    if ops == [] then [] else
      var (t', a) := LazyStep(t, ops[0]);
      [a] + LazyRun(t', ops[1..])
  }

  function EagerRun(t: Table, ops: seq<Op>): seq<Answer>
    decreases |ops|
  {
    if ops == [] then [] else
      var (t', a) := EagerStep(t, ops[0]);
      [a] + EagerRun(t', ops[1..])
  }

  ghost predicate NonDecreasing(ops: seq<Op>, from: nat) {
    ops != [] ==> from <= ops[0].at && NonDecreasing(ops[1..], ops[0].at)
  }

  /** Two tables no observer can tell apart from time `now` on. */
  ghost predicate SameFrom(a: Table, b: Table, now: nat) {
    Pruned(a, now) == Pruned(b, now)
  }

  lemma PruneTwice(t: Table, s: nat, now: nat)
    requires s <= now
    ensures Pruned(Pruned(t, s), now) == Pruned(t, now)
  {
  }

  lemma SameLater(a: Table, b: Table, s: nat, now: nat)
    requires SameFrom(a, b, s) && s <= now
    ensures SameFrom(a, b, now)
  {
    PruneTwice(a, s, now);
    PruneTwice(b, s, now);
  }

  lemma PrunedPrefers(t: Table, d: Bytes, e: PathEntry, now: nat)
    ensures Prefers(Pruned(t, now), d, e, now) == Prefers(t, d, e, now)
    ensures Pruned(Updated(Pruned(t, now), d, e, now), now) == Pruned(Updated(t, d, e, now), now)
  {
  }

  lemma StepsAgree(a: Table, b: Table, op: Op)
    requires SameFrom(a, b, op.at)
    ensures LazyStep(a, op).1 == EagerStep(b, op).1
    ensures SameFrom(LazyStep(a, op).0, EagerStep(b, op).0, op.at)
  {
    PruneTwice(b, op.at, op.at);
    match op
    case Offer(d, e, now) =>
      PrunedPrefers(a, d, e, now);
      PrunedPrefers(b, d, e, now);
    case Lookup(d, now) =>
  }

  /** Over any run with a non-decreasing clock the lazily expired table gives exactly the answers
      of a table pruned before every operation. */
  lemma {:induction false} LazyIsEager(a: Table, b: Table, ops: seq<Op>, from: nat)
    requires SameFrom(a, b, from) && NonDecreasing(ops, from)
    ensures LazyRun(a, ops) == EagerRun(b, ops)
    decreases ops
  {
    if ops != [] {
      SameLater(a, b, from, ops[0].at);
      StepsAgree(a, b, ops[0]);
      LazyIsEager(LazyStep(a, ops[0]).0, EagerStep(b, ops[0]).0, ops[1..], ops[0].at);
    }
  }

  // ---------------------------------------------------------------------------------------
  // Between expiries the table holds the first of the best offers

  function OfferAll(t: Table, dest: Bytes, offers: seq<(PathEntry, nat)>): Table {
    if offers == [] then t else
      var n := |offers| - 1;
      Updated(OfferAll(t, dest, offers[..n]), dest, offers[n].0, offers[n].1)
  }

  /** `a` is a strictly better route than `b`: fewer hops, then a newer announce. */
  predicate Better(a: PathEntry, b: PathEntry) {
    a.hops < b.hops || (a.hops == b.hops && a.timestamp > b.timestamp)
  }

  /** `k` is the first offer no other offer beats. */
  ghost predicate FirstBest(offers: seq<(PathEntry, nat)>, k: nat) {
    && k < |offers|
    && (forall i | 0 <= i < |offers| :: !Better(offers[i].0, offers[k].0))
    && (forall i | 0 <= i < k :: Better(offers[k].0, offers[i].0))
  }

  /** While no offer has expired, the entry held is the first optimum of all offers so far. */
  lemma {:induction false} HoldsFirstBest(t: Table, dest: Bytes, offers: seq<(PathEntry, nat)>) returns (k: nat)
    requires dest !in t && offers != []
    requires forall i, j | 0 <= i < j < |offers| :: offers[i].0.expiresAt > offers[j].1
    ensures FirstBest(offers, k)
    ensures dest in OfferAll(t, dest, offers) && OfferAll(t, dest, offers)[dest] == offers[k].0
  {
    var n := |offers| - 1;
    if n == 0 {
      k := 0;
      assert offers[..n] == [];
    } else {
      var k' := HoldsFirstBest(t, dest, offers[..n]);
      k := if Better(offers[n].0, offers[k'].0) then n else k';
    }
  }
}
