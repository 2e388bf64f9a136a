/** Proof-of-work stamps (reticulum-lxmf/src/stamp.rs): a byte-wise comparison read as arithmetic. */
module Stamp {
  import opened Base
  import opened Crypto
  import opened Bits
  import opened MessagePack
  import opened Order

  const STAMP_SIZE: nat := 32
  const TICKET_STAMP_SIZE: nat := 16
  const DELIVERY_ROUNDS: nat := 3000

  // ------------------------------------------------------------------ the code

  function LeadingZeros(b: Byte): nat {
    if b >= 128 then 0 else if b >= 64 then 1 else if b >= 32 then 2 else if b >= 16 then 3
    else if b >= 8 then 4 else if b >= 4 then 5 else if b >= 2 then 6 else if b >= 1 then 7 else 8
  }

  /** The number of leading zero bytes. */
  function ZeroBytes(digest: Bytes): (k: nat)
    ensures k <= |digest| && (forall i | 0 <= i < k :: digest[i] == 0) && (k < |digest| ==> digest[k] != 0)
  {
    if digest == [] || digest[0] != 0 then 0 else 1 + ZeroBytes(digest[1..])
  }

  /** Eight for each leading zero byte, and the zeros of the first byte that is not zero. */
  function ValueOf(digest: Bytes): nat {
    var k := ZeroBytes(digest);
    8 * k + if k < |digest| then LeadingZeros(digest[k]) else 0
  }

  function Digest(c: Suite, workblock: Bytes, stamp: Bytes): Bytes {
    c.sha(workblock + stamp)
  }

  function StampValue(c: Suite, workblock: Bytes, stamp: Bytes): nat {
    ValueOf(Digest(c, workblock, stamp))
  }

  /** 32 bytes with one bit set: bit `exponent`, counted from the end. */
  function Target(exponent: nat): (r: Bytes)
    requires exponent < 256
    ensures |r| == 32
  {
    Pow2Small(exponent % 8);
    seq(32, i requires 0 <= i < 32 => if i == 31 - exponent / 8 then Pow2(exponent % 8) else 0)
  }

  predicate VerifyStamp(c: Suite, workblock: Bytes, stamp: Bytes, cost: nat)
    requires Sized(c)
  {
    if |stamp| != STAMP_SIZE || cost > 256 then false
    else if cost == 0 then true
    else Le(Digest(c, workblock, stamp), Target(256 - cost))
  }

  method Verify(c: Suite, workblock: Bytes, stamp: Bytes, cost: nat) returns (ok: bool)
    requires Sized(c)
    ensures ok == VerifyStamp(c, workblock, stamp, cost)
  {
    if |stamp| != STAMP_SIZE || cost > 256 {
      return false;
    }
    if cost == 0 {
      return true;
    }
    var digest := Digest(c, workblock, stamp);
    var exponent := 256 - cost;
    var target := new Byte[32](_ => 0);
    Pow2Small(exponent % 8);
    target[31 - exponent / 8] := Pow2(exponent % 8);
    assert target[..] == Target(exponent);
    ok := Le(digest, target[..]);
  }

  /** One block of 256 bytes per round, each under its own salt. */
  function Workblock(c: Suite, expand: (Bytes, Bytes, nat) -> Bytes, material: Bytes, rounds: nat): Bytes
    requires rounds < 0x1_0000_0000
  {
    if rounds == 0 then []
    else Workblock(c, expand, material, rounds - 1) + expand(c.sha(material + Uint(rounds - 1)), material, 256)
  }

  method StampWorkblock(c: Suite, expand: (Bytes, Bytes, nat) -> Bytes, material: Bytes, rounds: nat)
    returns (r: Result<Bytes>)
    requires rounds < 0x1_0000_0000
    ensures r == if material == [] then Err(InvalidField) else Ok(Workblock(c, expand, material, rounds))
  {
    if material == [] {
      return Err(InvalidField);
    }
    var workblock: Bytes := [];
    var round := 0;
    while round < rounds
      invariant 0 <= round <= rounds
      invariant workblock == Workblock(c, expand, material, round)
    {
      var salt := c.sha(material + Uint(round));
      workblock := workblock + expand(salt, material, 256);
      round := round + 1;
    }
    r := Ok(workblock);
  }

  predicate VerifyTicket(c: Suite, ticket: Bytes, id: Bytes, stamp: Bytes) {
    |stamp| == TICKET_STAMP_SIZE && Truncate(c.sha(ticket + id)) == stamp
  }

  datatype Validation = NotRequired | Ticket | ProofOfWork(value: nat)

  function VerifyOptional(c: Suite, expand: (Bytes, Bytes, nat) -> Bytes, id: Bytes, stamp: Option<Bytes>,
                          cost: Option<nat>, tickets: seq<Bytes>): Result<Validation>
    requires Sized(c)
  {
    if cost.None? || cost.value == 0 then Ok(NotRequired)
    else if stamp.None? then Err(InvalidField)
    else if exists t | t in tickets :: VerifyTicket(c, t, id, stamp.value) then Ok(Ticket)
    else if id == [] then Err(InvalidField)
    else
      var workblock := Workblock(c, expand, id, DELIVERY_ROUNDS);
      if !VerifyStamp(c, workblock, stamp.value, cost.value) then Err(InvalidField)
      else Ok(ProofOfWork(StampValue(c, workblock, stamp.value)))
  }

  // ------------------------------------------------------------------ powers

  lemma {:induction false} Pow2Monotone(a: nat, b: nat)
    requires a <= b
    ensures 1 <= Pow2(a) <= Pow2(b)
  {
    if b > 0 {
      Pow2Monotone(if a == b then a - 1 else a, b - 1);
    }
  }

  lemma Pow2Small(e: nat)
    requires e < 8
    ensures 1 <= Pow2(e) < 256
  {
    Pow2Monotone(e, 7);
    Pow2Values();
  }

  lemma {:induction false} Pow2Sum(a: nat, b: nat)
    ensures Pow2(a) * Pow2(b) == Pow2(a + b)
  {
    if a > 0 {
      Pow2Sum(a - 1, b);
      assert Pow2(a) * Pow2(b) == 2 * (Pow2(a - 1) * Pow2(b));
    }
  }

  lemma {:induction false} Pow256IsPow2(k: nat)
    ensures Pow256(k) == Pow2(8 * k)
  {
    if k > 0 {
      Pow256IsPow2(k - 1);
      Pow2Values();
      Pow2Sum(8, 8 * (k - 1));
    }
  }

  // ------------------------------------------------------------------ byte strings as numbers

  /** The first byte weighs most. */
  lemma {:induction false} BigEndianFront(b: Bytes)
    requires b != []
    ensures BigEndian(b) == b[0] * Pow256(|b| - 1) + BigEndian(b[1..])
    decreases |b|
  {
    var n := |b| - 1;
    if n == 0 {
      assert b[..0] == [] && b[1..] == [];
    } else {
      BigEndianFront(b[..n]);
      assert b[..n][1..] == b[1..][..n - 1] && b[1..][n - 1] == b[n] && |b[1..]| == n;
      Spread(b[0], Pow256(n - 1));
    }
  }

  lemma Spread(x: nat, p: nat)
    ensures 256 * (x * p) == x * (256 * p)
  {
  }

  lemma Scaled(x: nat, y: nat, p: nat)
    requires x < y
    ensures x * p + p <= y * p
  {
    assert (x + 1) * p <= y * p;
  }

  /** The dictionary order on equally long byte strings is the order of the numbers they spell. */
  lemma {:induction false} AtMostIsLess(a: Bytes, b: Bytes)
    requires |a| == |b|
    ensures Le(a, b) <==> BigEndian(a) <= BigEndian(b)
  {
    if a != [] {
      BigEndianFront(a);
      BigEndianFront(b);
      BigEndianBound(a[1..]);
      BigEndianBound(b[1..]);
      AtMostIsLess(a[1..], b[1..]);
      var p := Pow256(|a| - 1);
      if a[0] < b[0] {
        Scaled(a[0], b[0], p);
      } else if b[0] < a[0] {
        Scaled(b[0], a[0], p);
      }
      hide BigEndian, Pow256;
    }
  }

  lemma {:induction false} ZerosSpellZero(b: Bytes)
    requires forall i | 0 <= i < |b| :: b[i] == 0
    ensures BigEndian(b) == 0
    decreases |b|
  {
    if b != [] {
      ZerosSpellZero(b[..|b| - 1]);
    }
  }

  /** One non-zero byte. */
  lemma {:induction false} OneByteSpells(b: Bytes, k: nat)
    requires k < |b| && forall i | 0 <= i < |b| && i != k :: b[i] == 0
    ensures BigEndian(b) == b[k] * Pow256(|b| - 1 - k)
    decreases |b|
  {
    var n := |b| - 1;
    if k == n {
      ZerosSpellZero(b[..n]);
    } else {
      OneByteSpells(b[..n], k);
      Spread(b[k], Pow256(n - 1 - k));
    }
  }

  lemma TargetSpells(exponent: nat)
    requires exponent < 256
    ensures BigEndian(Target(exponent)) == Pow2(exponent)
  {
    var k := 31 - exponent / 8;
    OneByteSpells(Target(exponent), k);
    Pow256IsPow2(exponent / 8);
    Pow2Sum(exponent % 8, 8 * (exponent / 8));
    hide BigEndian, Pow2, Pow256;
  }

  // ------------------------------------------------------------------ leading zeros

  lemma ByteZeros(b: Byte)
    requires b > 0
    ensures LeadingZeros(b) < 8 && Pow2(7 - LeadingZeros(b)) <= b < Pow2(8 - LeadingZeros(b))
  {
    assert Pow2(0) == 1 && Pow2(1) == 2 && Pow2(2) == 4 && Pow2(3) == 8;
    assert Pow2(4) == 16 && Pow2(5) == 32 && Pow2(6) == 64;
    Pow2Values();
  }

  lemma ValueUnfolds(digest: Bytes)
    requires digest != []
    ensures ValueOf(digest) == if digest[0] == 0 then 8 + ValueOf(digest[1..]) else LeadingZeros(digest[0])
  {
    hide LeadingZeros;
  }

  lemma Bracket(d: nat, low: nat, high: nat, p: nat, t: nat)
    requires low <= d < high && t < p
    ensures low * p <= d * p + t < high * p
  {
    assert low * p <= d * p;
    Scaled(d, high, p);
  }

  /** The value is the number of leading zero bits: it is the largest `v` with N below 2^(bits - v). */
  lemma {:induction false} ValueCountsZeros(digest: Bytes)
    ensures ValueOf(digest) <= 8 * |digest|
    ensures BigEndian(digest) < Pow2(8 * |digest| - ValueOf(digest))
    ensures ValueOf(digest) < 8 * |digest| ==> Pow2(8 * |digest| - ValueOf(digest) - 1) <= BigEndian(digest)
    decreases |digest|
  {
    if digest == [] {
      assert Pow2(0) == 1;
    } else {
      var t, m := digest[1..], |digest| - 1;
      ValueCountsZeros(t);
      ValueUnfolds(digest);
      BigEndianFront(digest);
      BigEndianBound(t);
      hide BigEndian, ValueOf, LeadingZeros, Pow2, Pow256;
      if digest[0] != 0 {
        var v := LeadingZeros(digest[0]);
        ByteZeros(digest[0]);
        Bracket(digest[0], Pow2(7 - v), Pow2(8 - v), Pow256(m), BigEndian(t));
        Pow256IsPow2(m);
        Pow2Sum(7 - v, 8 * m);
        Pow2Sum(8 - v, 8 * m);
      } else {
        assert 0 * Pow256(m) == 0;
      }
    }
  }

  // ------------------------------------------------------------------ what a stamp is worth

  /** The digest as a number. */
  function N(c: Suite, workblock: Bytes, stamp: Bytes): nat {
    BigEndian(Digest(c, workblock, stamp))
  }

  /** `stamp_value` is the count of leading zero bits of the 256-bit number N. */
  lemma StampValueIsZeros(c: Suite, workblock: Bytes, stamp: Bytes)
    requires Sized(c)
    ensures var v := StampValue(c, workblock, stamp);
            && v <= 256 && N(c, workblock, stamp) < Pow2(256 - v)
            && (v < 256 ==> Pow2(255 - v) <= N(c, workblock, stamp))
  {
    ValueCountsZeros(Digest(c, workblock, stamp));
    hide ValueOf, BigEndian, Pow2;
  }

  /** Verification of a 32-byte stamp, exactly: N is at most 2^(256 - cost), which is one more number than
      `value >= cost` allows: N equal to 2^(256 - cost), whose value is cost - 1. */
  lemma VerifyExactly(c: Suite, workblock: Bytes, stamp: Bytes, cost: nat)
    requires Sized(c) && |stamp| == STAMP_SIZE && 1 <= cost <= 256
    ensures VerifyStamp(c, workblock, stamp, cost) <==> N(c, workblock, stamp) <= Pow2(256 - cost)
    ensures VerifyStamp(c, workblock, stamp, cost)
       <==> StampValue(c, workblock, stamp) >= cost || N(c, workblock, stamp) == Pow2(256 - cost)
    ensures N(c, workblock, stamp) == Pow2(256 - cost) ==> StampValue(c, workblock, stamp) == cost - 1
  {
    hide ValueOf, BigEndian, Pow2, Target, Le, StampValue;
    var n, v := N(c, workblock, stamp), StampValue(c, workblock, stamp);
    AtMostIsLess(Digest(c, workblock, stamp), Target(256 - cost));
    TargetSpells(256 - cost);
    StampValueIsZeros(c, workblock, stamp);
    if v >= cost {
      Pow2Monotone(256 - v, 256 - cost);
    } else {
      Pow2Monotone(256 - cost, 255 - v);
    }
    if n == Pow2(256 - cost) && v < cost - 1 {
      Pow2Strict(256 - cost, 255 - v);
    }
  }

  lemma Pow2Strict(a: nat, b: nat)
    requires a < b
    ensures Pow2(a) < Pow2(b)
  {
    Pow2Monotone(a, b - 1);
    Pow2Monotone(a, a);
  }

  /** The edges: no cost accepts every 32-byte stamp, an impossible cost none, another length none. */
  lemma VerifyEdges(c: Suite, workblock: Bytes, stamp: Bytes, cost: nat)
    requires Sized(c)
    ensures |stamp| != STAMP_SIZE ==> !VerifyStamp(c, workblock, stamp, cost)
    ensures cost > 256 ==> !VerifyStamp(c, workblock, stamp, cost)
    ensures |stamp| == STAMP_SIZE && cost == 0 ==> VerifyStamp(c, workblock, stamp, cost)
  {
  }

  /** Verification for every stamp and every cost: 32 bytes, and no cost, or one of at most 256 whose bound the digest
      meets. */
  lemma VerifyForAll(c: Suite, workblock: Bytes, stamp: Bytes, cost: nat)
    requires Sized(c)
    ensures VerifyStamp(c, workblock, stamp, cost) <==>
              |stamp| == STAMP_SIZE && (cost == 0 || (cost <= 256 && N(c, workblock, stamp) <= Pow2(256 - cost)))
  {
    VerifyEdges(c, workblock, stamp, cost);
    hide VerifyStamp, N, Pow2;
    if |stamp| == STAMP_SIZE && 1 <= cost <= 256 {
      VerifyExactly(c, workblock, stamp, cost);
    }
  }

  /** A stamp good for some cost is good for every smaller one. */
  lemma VerifyAntitone(c: Suite, workblock: Bytes, stamp: Bytes, cost: nat, less: nat)
    requires Sized(c) && less <= cost && VerifyStamp(c, workblock, stamp, cost)
    ensures VerifyStamp(c, workblock, stamp, less)
  {
    if less > 0 {
      VerifyExactly(c, workblock, stamp, cost);
      VerifyExactly(c, workblock, stamp, less);
      Pow2Monotone(256 - cost, 256 - less);
      hide VerifyStamp;
    }
  }

  /** A message is accepted exactly if no cost is asked, or it carries a matching ticket, or a 32-byte stamp
      whose digest is small enough; a reported value is never less than the cost minus one. */
  lemma AcceptedExactly(c: Suite, expand: (Bytes, Bytes, nat) -> Bytes, id: Bytes, stamp: Option<Bytes>,
                        cost: Option<nat>, tickets: seq<Bytes>)
    requires Sized(c) && |id| == 32
    ensures var r := VerifyOptional(c, expand, id, stamp, cost, tickets);
            var free := cost.None? || cost.value == 0;
            && (r.Ok? <==>
                  || free
                  || (stamp.Some? && |stamp.value| == TICKET_STAMP_SIZE
                      && exists t | t in tickets :: Truncate(c.sha(t + id)) == stamp.value)
                  || (stamp.Some? && |stamp.value| == STAMP_SIZE && cost.value <= 256
                      && N(c, Workblock(c, expand, id, DELIVERY_ROUNDS), stamp.value) <= Pow2(256 - cost.value)))
            && (r.Ok? && r.value.ProofOfWork? ==> !free && r.value.value + 1 >= cost.value)
  {
    hide N, Workblock, Pow2, Digest, ValueOf;
    if cost.Some? && cost.value > 0 && stamp.Some? {
      var workblock := Workblock(c, expand, id, DELIVERY_ROUNDS);
      if |stamp.value| == STAMP_SIZE && cost.value <= 256 {
        VerifyExactly(c, workblock, stamp.value, cost.value);
      }
      hide VerifyStamp, StampValue;
      VerifyEdges(c, workblock, stamp.value, cost.value);
    }
  }
}
