/** The wire forms of a resource transfer (reticulum-core/src/resource.rs). */
module ResourceWire {
  import opened Base
  import opened MessagePack

  const MAPHASH_LEN: nat := 4
  const RANDOM_LEN: nat := 4
  const MAX_EFFICIENT_SIZE: nat := 1024 * 1024 - 1

  // ------------------------------------------------------------------ splitting

  function SplitParts(data: Bytes, sdu: nat): (r: seq<Bytes>)
    ensures forall p | p in r :: |p| <= sdu
  {
    if sdu == 0 || data == [] then []
    else if |data| <= sdu then [data]
    else [data[..sdu]] + SplitParts(data[sdu..], sdu)
  }

  function Reassemble(parts: seq<Bytes>): Bytes {
    if parts == [] then [] else parts[0] + Reassemble(parts[1..])
  }

  lemma {:induction false} ReassembleSplit(data: Bytes, sdu: nat)
    requires sdu > 0
    ensures Reassemble(SplitParts(data, sdu)) == data
  {
    if |data| > sdu {
      ReassembleSplit(data[sdu..], sdu);
      assert data == data[..sdu] + data[sdu..];
    } else if data != [] {
      assert Reassemble([data][1..]) == [];
    }
  }

  // ------------------------------------------------------------------ hashmap updates

  datatype Update = Update(hash: Bytes, segment: nat, map_: Bytes)

  function PackUpdate(u: Update): Bytes
    requires u.segment < 0x1_0000_0000 && |u.map_| < 0x1_0000_0000
  {
    u.hash + (ArrayHead(2) + (Uint(u.segment) + Bin(u.map_)))
  }

  function UnpackUpdate(data: Bytes): Result<Update> {
    if |data| < 32 then Err(Truncated)
    else
      var head :- ReadArrayLen(data[32..]);
      if head.value != 2 then Err(InvalidField)
      else
        var segment :- ReadInt(head.rest);
        if segment.value >= 0x1_0000_0000 then Err(InvalidField)
        else
          var entries :- ReadBin(segment.rest);
          if entries.rest != [] || entries.value == [] || |entries.value| % MAPHASH_LEN != 0 then Err(InvalidField)
          else Ok(Update(data[..32], segment.value, entries.value))
  }

  /** What the sender packs the receiver unpacks. */
  lemma UnpackPackUpdate(u: Update)
    requires u.segment < 0x1_0000_0000 && |u.map_| < 0x1_0000_0000
    requires |u.hash| == 32 && u.map_ != [] && |u.map_| % MAPHASH_LEN == 0
    ensures UnpackUpdate(PackUpdate(u)) == Ok(u)
  {
    var data := PackUpdate(u);
    assert data[..32] == u.hash && data[32..] == ArrayHead(2) + (Uint(u.segment) + Bin(u.map_));
    ArrayHeadRead(2, Uint(u.segment) + Bin(u.map_));
    UintRead(u.segment, Bin(u.map_));
    BinRead(u.map_, []);
    assert Bin(u.map_) + [] == Bin(u.map_);
    hide ArrayHead, Uint, Bin, ReadArrayLen, ReadInt, ReadBin;
  }

  // ------------------------------------------------------------------ advertisements

  datatype Advertisement = Advertisement(
    t: nat, d: nat, n: nat, h: Bytes, r: Bytes, o: Bytes, i: nat, l: nat, q: Option<Bytes>, f: nat, m: Bytes)

  /** The fields read so far. */
  datatype Partial = Partial(
    t: Option<nat>, d: Option<nat>, n: Option<nat>, h: Option<Bytes>, r: Option<Bytes>, o: Option<Bytes>,
    i: Option<nat>, l: Option<nat>, q: Option<Option<Bytes>>, f: Option<nat>, m: Option<Bytes>)

  const NOTHING: Partial := Partial(None, None, None, None, None, None, None, None, None, None, None)

  // The ASCII codes of the field names.
  const T: Byte := 0x74
  const D: Byte := 0x64
  const N: Byte := 0x6E
  const H: Byte := 0x68
  const R: Byte := 0x72
  const O: Byte := 0x6F
  const I: Byte := 0x69
  const L: Byte := 0x6C
  const Q: Byte := 0x71
  const F: Byte := 0x66
  const M: Byte := 0x6D

  predicate Encodable(a: Advertisement) {
    && a.t < 0x1_0000_0000_0000_0000 && a.d < 0x1_0000_0000_0000_0000
    && a.n < 0x1_0000_0000 && a.i < 0x1_0000_0000 && a.l < 0x1_0000_0000 && a.f < 0x100
    && |a.h| < 0x1_0000_0000 && |a.r| < 0x1_0000_0000 && |a.o| < 0x1_0000_0000 && |a.m| < 0x1_0000_0000
    && (a.q.Some? ==> |a.q.value| < 0x1_0000_0000)
  }

  /** A one-letter string. */
  function Name(key: Byte): Bytes {
    [0xa1, key]
  }

  function OptionalBin(q: Option<Bytes>): Bytes
    requires q.Some? ==> |q.value| < 0x1_0000_0000
  {
    if q.Some? then Bin(q.value) else [0xc0]
  }

  function Pack(a: Advertisement): Bytes
    requires Encodable(a)
  {
    [0x8b]
    + (Name(T) + Uint(a.t) + (Name(D) + Uint(a.d) + (Name(N) + Uint(a.n)
    + (Name(H) + Bin(a.h) + (Name(R) + Bin(a.r) + (Name(O) + Bin(a.o)
    + (Name(I) + Uint(a.i) + (Name(L) + Uint(a.l) + (Name(Q) + OptionalBin(a.q)
    + (Name(F) + Uint(a.f) + (Name(M) + Bin(a.m) + [])))))))))))
  }

  function ReadStrLen(input: Bytes): Result<Read<nat>> {
    if input == [] then Err(InvalidField)
    else if 0xa0 <= input[0] < 0xc0 then Ok(Read(input[0] - 0xa0, input[1..]))
    else if input[0] == 0xd9 then Wide(input, 1)
    else if input[0] == 0xda then Wide(input, 2)
    else if input[0] == 0xdb then Wide(input, 4)
    else Err(InvalidField)
  }

  function ReadText(input: Bytes): Result<Read<Bytes>> {
    var len :- ReadStrLen(input);
    Take(len.rest, len.value)
  }

  function ReadOptionalBin(input: Bytes): Result<Read<Option<Bytes>>> {
    if input != [] && input[0] == 0xc0 then Ok(Read(None, input[1..]))
    else
      var b :- ReadBin(input);
      Ok(Read(Some(b.value), b.rest))
  }

  /** An integer below `bound`. */
  function ReadBounded(input: Bytes, bound: nat): Result<Read<nat>> {
    var v :- ReadInt(input);
    if v.value >= bound then Err(InvalidField) else Ok(v)
  }

  /** One key and its value, whatever the order; an unknown key (or one that is not text) is refused. */
  function ReadField(input: Bytes, acc: Partial): Result<Read<Partial>> {
    var key :- ReadText(input);
    if key.value == [T] then var v :- ReadInt(key.rest); Ok(Read(acc.(t := Some(v.value)), v.rest))
    else if key.value == [D] then var v :- ReadInt(key.rest); Ok(Read(acc.(d := Some(v.value)), v.rest))
    else if key.value == [N] then var v :- ReadBounded(key.rest, 0x1_0000_0000); Ok(Read(acc.(n := Some(v.value)), v.rest))
    else if key.value == [H] then var v :- ReadBin(key.rest); Ok(Read(acc.(h := Some(v.value)), v.rest))
    else if key.value == [R] then var v :- ReadBin(key.rest); Ok(Read(acc.(r := Some(v.value)), v.rest))
    else if key.value == [O] then var v :- ReadBin(key.rest); Ok(Read(acc.(o := Some(v.value)), v.rest))
    else if key.value == [I] then var v :- ReadBounded(key.rest, 0x1_0000_0000); Ok(Read(acc.(i := Some(v.value)), v.rest))
    else if key.value == [L] then var v :- ReadBounded(key.rest, 0x1_0000_0000); Ok(Read(acc.(l := Some(v.value)), v.rest))
    else if key.value == [Q] then var v :- ReadOptionalBin(key.rest); Ok(Read(acc.(q := Some(v.value)), v.rest))
    else if key.value == [F] then var v :- ReadBounded(key.rest, 0x100); Ok(Read(acc.(f := Some(v.value)), v.rest))
    else if key.value == [M] then var v :- ReadBin(key.rest); Ok(Read(acc.(m := Some(v.value)), v.rest))
    else Err(InvalidField)
  }

  function ReadFields(input: Bytes, count: nat, acc: Partial): Result<Read<Partial>>
    decreases count
  {
    if count == 0 then Ok(Read(acc, input))
    else
      var field :- ReadField(input, acc);
      ReadFields(field.rest, count - 1, field.value)
  }

  predicate Complete(p: Partial) {
    && p.t.Some? && p.d.Some? && p.n.Some? && p.h.Some? && p.r.Some? && p.o.Some?
    && p.i.Some? && p.l.Some? && p.q.Some? && p.f.Some? && p.m.Some?
  }

  function Assemble(p: Partial): Advertisement
    requires Complete(p)
  {
    Advertisement(p.t.value, p.d.value, p.n.value, p.h.value, p.r.value, p.o.value, p.i.value, p.l.value,
                  p.q.value, p.f.value, p.m.value)
  }

  predicate Acceptable(a: Advertisement) {
    && a.t <= MAX_EFFICIENT_SIZE * 3 && |a.h| == 32 && |a.r| == RANDOM_LEN && |a.o| == 32
    && |a.m| % MAPHASH_LEN == 0 && a.n != 0
  }

  function Unpack(data: Bytes): Result<Advertisement> {
    var head :- ReadMapLen(data);
    if head.value != 11 then Err(InvalidField)
    else
      var fields :- ReadFields(head.rest, 11, NOTHING);
      if fields.rest != [] || !Complete(fields.value) || !Acceptable(Assemble(fields.value)) then Err(InvalidField)
      else Ok(Assemble(fields.value))
  }

  lemma NameRead(key: Byte, rest: Bytes)
    ensures ReadText(Name(key) + rest) == Ok(Read([key], rest))
  {
    var input := Name(key) + rest;
    assert input[1..] == [key] + rest;
    assert ([key] + rest)[..1] == [key] && ([key] + rest)[1..] == rest;
  }

  lemma IntField(key: Byte, v: nat, rest: Bytes, acc: Partial)
    requires v < 0x1_0000_0000_0000_0000
    ensures key == T ==> ReadField(Name(key) + Uint(v) + rest, acc) == Ok(Read(acc.(t := Some(v)), rest))
    ensures key == D ==> ReadField(Name(key) + Uint(v) + rest, acc) == Ok(Read(acc.(d := Some(v)), rest))
    ensures key == N && v < 0x1_0000_0000 ==> ReadField(Name(key) + Uint(v) + rest, acc) == Ok(Read(acc.(n := Some(v)), rest))
    ensures key == I && v < 0x1_0000_0000 ==> ReadField(Name(key) + Uint(v) + rest, acc) == Ok(Read(acc.(i := Some(v)), rest))
    ensures key == L && v < 0x1_0000_0000 ==> ReadField(Name(key) + Uint(v) + rest, acc) == Ok(Read(acc.(l := Some(v)), rest))
    ensures key == F && v < 0x100 ==> ReadField(Name(key) + Uint(v) + rest, acc) == Ok(Read(acc.(f := Some(v)), rest))
  {
    assert Name(key) + Uint(v) + rest == Name(key) + (Uint(v) + rest);
    NameRead(key, Uint(v) + rest);
    UintRead(v, rest);
    hide Name, Uint, ReadText, ReadInt, ReadBin, ReadOptionalBin;
  }

  lemma BinField(key: Byte, v: Bytes, rest: Bytes, acc: Partial)
    requires |v| < 0x1_0000_0000
    ensures key == H ==> ReadField(Name(key) + Bin(v) + rest, acc) == Ok(Read(acc.(h := Some(v)), rest))
    ensures key == R ==> ReadField(Name(key) + Bin(v) + rest, acc) == Ok(Read(acc.(r := Some(v)), rest))
    ensures key == O ==> ReadField(Name(key) + Bin(v) + rest, acc) == Ok(Read(acc.(o := Some(v)), rest))
    ensures key == M ==> ReadField(Name(key) + Bin(v) + rest, acc) == Ok(Read(acc.(m := Some(v)), rest))
  {
    assert Name(key) + Bin(v) + rest == Name(key) + (Bin(v) + rest);
    NameRead(key, Bin(v) + rest);
    BinRead(v, rest);
    hide Name, Bin, ReadText, ReadInt, ReadBin, ReadOptionalBin, ReadBounded;
  }

  lemma OptionalField(q: Option<Bytes>, rest: Bytes, acc: Partial)
    requires q.Some? ==> |q.value| < 0x1_0000_0000
    ensures ReadField(Name(Q) + OptionalBin(q) + rest, acc) == Ok(Read(acc.(q := Some(q)), rest))
  {
    assert Name(Q) + OptionalBin(q) + rest == Name(Q) + (OptionalBin(q) + rest);
    NameRead(Q, OptionalBin(q) + rest);
    if q.Some? {
      BinRead(q.value, rest);
      BinFirst(q.value);
    } else {
      assert ([0xc0] + rest)[1..] == rest;
    }
    hide Name, Bin, ReadText, ReadInt, ReadBin, ReadBounded;
  }

  lemma BinFirst(v: Bytes)
    requires |v| < 0x1_0000_0000
    ensures Bin(v) != [] && Bin(v)[0] != 0xc0
  {
    hide ToBigEndian;
  }

  lemma OneField(input: Bytes, rest: Bytes, count: nat, acc: Partial, next: Partial)
    requires ReadField(input, acc) == Ok(Read(next, rest)) && count > 0
    ensures ReadFields(input, count, acc) == ReadFields(rest, count - 1, next)
  {
    hide ReadField;
  }

  /** The advertisement survives the wire. */
  lemma UnpackPack(a: Advertisement)
    requires Encodable(a) && Acceptable(a)
    ensures Unpack(Pack(a)) == Ok(a)
  {
    hide Name, Uint, Bin, OptionalBin, ReadField, ReadFields;
    var m := Name(M) + Bin(a.m) + [];
    var f := Name(F) + Uint(a.f) + m;
    var q := Name(Q) + OptionalBin(a.q) + f;
    var l := Name(L) + Uint(a.l) + q;
    var i := Name(I) + Uint(a.i) + l;
    var o := Name(O) + Bin(a.o) + i;
    var r := Name(R) + Bin(a.r) + o;
    var h := Name(H) + Bin(a.h) + r;
    var n := Name(N) + Uint(a.n) + h;
    var d := Name(D) + Uint(a.d) + n;
    var t := Name(T) + Uint(a.t) + d;
    assert Pack(a) == [0x8b] + t;
    assert ([0x8b] + t)[1..] == t;
    assert ReadFields(t, 11, NOTHING) == ReadFields(h, 8, NOTHING.(t := Some(a.t), d := Some(a.d), n := Some(a.n))) by {
      IntField(T, a.t, d, NOTHING);
      OneField(t, d, 11, NOTHING, NOTHING.(t := Some(a.t)));
      IntField(D, a.d, n, NOTHING.(t := Some(a.t)));
      OneField(d, n, 10, NOTHING.(t := Some(a.t)), NOTHING.(t := Some(a.t), d := Some(a.d)));
      IntField(N, a.n, h, NOTHING.(t := Some(a.t), d := Some(a.d)));
      OneField(n, h, 9, NOTHING.(t := Some(a.t), d := Some(a.d)), NOTHING.(t := Some(a.t), d := Some(a.d), n := Some(a.n)));
    }
    var p3 := NOTHING.(t := Some(a.t), d := Some(a.d), n := Some(a.n));
    assert ReadFields(h, 8, p3) == ReadFields(i, 5, p3.(h := Some(a.h), r := Some(a.r), o := Some(a.o))) by {
      BinField(H, a.h, r, p3);
      OneField(h, r, 8, p3, p3.(h := Some(a.h)));
      BinField(R, a.r, o, p3.(h := Some(a.h)));
      OneField(r, o, 7, p3.(h := Some(a.h)), p3.(h := Some(a.h), r := Some(a.r)));
      BinField(O, a.o, i, p3.(h := Some(a.h), r := Some(a.r)));
      OneField(o, i, 6, p3.(h := Some(a.h), r := Some(a.r)), p3.(h := Some(a.h), r := Some(a.r), o := Some(a.o)));
    }
    var p6 := p3.(h := Some(a.h), r := Some(a.r), o := Some(a.o));
    assert ReadFields(i, 5, p6) == ReadFields(f, 2, p6.(i := Some(a.i), l := Some(a.l), q := Some(a.q))) by {
      IntField(I, a.i, l, p6);
      OneField(i, l, 5, p6, p6.(i := Some(a.i)));
      IntField(L, a.l, q, p6.(i := Some(a.i)));
      OneField(l, q, 4, p6.(i := Some(a.i)), p6.(i := Some(a.i), l := Some(a.l)));
      OptionalField(a.q, f, p6.(i := Some(a.i), l := Some(a.l)));
      OneField(q, f, 3, p6.(i := Some(a.i), l := Some(a.l)), p6.(i := Some(a.i), l := Some(a.l), q := Some(a.q)));
    }
    var p9 := p6.(i := Some(a.i), l := Some(a.l), q := Some(a.q));
    var end := p9.(f := Some(a.f), m := Some(a.m));
    assert ReadFields(f, 2, p9) == Ok(Read(end, [])) by {
      IntField(F, a.f, m, p9);
      OneField(f, m, 2, p9, p9.(f := Some(a.f)));
      BinField(M, a.m, [], p9.(f := Some(a.f)));
      OneField(m, [], 1, p9.(f := Some(a.f)), end);
      NoMoreFields([], end);
    }
    assert Assemble(end) == a;
  }

  lemma NoMoreFields(input: Bytes, acc: Partial)
    ensures ReadFields(input, 0, acc) == Ok(Read(acc, input))
  {
  }
}
