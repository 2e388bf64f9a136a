/** The MessagePack values, printed: the skipper accepts exactly one printed value, whatever follows. */
module Grammar {
  import opened Base
  import opened MessagePack
  import opened Skipper

  /** A value with the encoding it was written in.  The items of a map are its keys and values in turn. */
  datatype Value =
    | Scalar(marker: Byte, body: Bytes)
    | Blob(marker: Byte, body: Bytes)
    | Group(marker: Byte, items: seq<Value>)

  /** Bytes after the marker: nil, booleans, numbers, short strings, fixed extensions. */
  function ScalarSize(m: Byte): Option<nat> {
    if m <= 0x7f || m in {0xc0, 0xc2, 0xc3} || m >= 0xe0 then Some(0)
    else if 0xa0 <= m <= 0xbf then Some(m - 0xa0)
    else if m in {0xcc, 0xd0} then Some(1)
    else if m in {0xcd, 0xd1, 0xd4} then Some(2)
    else if m == 0xd5 then Some(3)
    else if m in {0xca, 0xce, 0xd2} then Some(4)
    else if m == 0xd6 then Some(5)
    else if m in {0xcb, 0xcf, 0xd3} then Some(8)
    else if m == 0xd7 then Some(9)
    else if m == 0xd8 then Some(17)
    else None
  }

  /** Width of the length of strings, binaries and extensions. */
  function BlobWidth(m: Byte): nat {
    if m in {0xc4, 0xc7, 0xd9} then 1 else if m in {0xc5, 0xc8, 0xda} then 2
    else if m in {0xc6, 0xc9, 0xdb} then 4 else 0
  }

  /** Extensions carry a type byte that their length does not count. */
  function TypeBytes(m: Byte): nat {
    if 0xc7 <= m <= 0xc9 then 1 else 0
  }

  /** Width of the count of arrays and maps; the short ones keep it in the marker. */
  function GroupWidth(m: Byte): nat {
    if m in {0xdc, 0xde} then 2 else if m in {0xdd, 0xdf} then 4 else 0
  }

  predicate IsMap(m: Byte) {
    0x80 <= m <= 0x8f || m == 0xde || m == 0xdf
  }

  function PerEntry(m: Byte): nat {
    if IsMap(m) then 2 else 1
  }

  predicate WellFormed(v: Value)
    decreases v
  {
    match v
    case Scalar(m, body) => ScalarSize(m) == Some(|body|)
    case Blob(m, body) => BlobWidth(m) > 0 && TypeBytes(m) <= |body| < TypeBytes(m) + Pow256(BlobWidth(m))
    case Group(m, items) =>
      && |items| % PerEntry(m) == 0
      && (if 0x80 <= m <= 0x9f then |items| == m % 16 * PerEntry(m)
          else GroupWidth(m) > 0 && |items| < Pow256(GroupWidth(m)) * PerEntry(m))
      && forall i | 0 <= i < |items| :: WellFormed(items[i])
  }

  /** Every value inside is nested less than 64 deep. */
  predicate Fits(v: Value, depth: nat)
    decreases v
  {
    depth < MAX_DEPTH && (v.Group? ==> forall i | 0 <= i < |v.items| :: Fits(v.items[i], depth + 1))
  }

  function Print(v: Value): Bytes
    decreases v
  {
    match v
    case Scalar(m, body) => [m] + body
    case Blob(m, body) => [m] + (ToBigEndian(Max(0, |body| - TypeBytes(m)), BlobWidth(m)) + body)
    case Group(m, items) => [m] + (ToBigEndian(|items| / PerEntry(m), GroupWidth(m)) + PrintAll(items))
  }

  function PrintAll(items: seq<Value>): Bytes
    decreases items
  {
    if items == [] then [] else Print(items[0]) + PrintAll(items[1..])
  }

  // ------------------------------------------------------------------ numbers

  lemma {:induction false} ToBigEndianOf(b: Bytes)
    ensures ToBigEndian(BigEndian(b), |b|) == b
    decreases |b|
  {
    if b != [] {
      var k := |b| - 1;
      ToBigEndianOf(b[..k]);
      assert BigEndian(b) / 256 == BigEndian(b[..k]) && BigEndian(b) % 256 == b[k];
      assert b == b[..k] + [b[k]];
    }
  }

  lemma UintRoundTrip(n: nat, k: nat, rest: Bytes)
    requires n < Pow256(k)
    ensures ReadUint(ToBigEndian(n, k) + rest, k) == Ok(Read(n, rest))
  {
    hide BigEndian, ToBigEndian;
    BigEndianRoundTrip(n, k);
    var input := ToBigEndian(n, k) + rest;
    assert input[..k] == ToBigEndian(n, k) && input[k..] == rest;
  }

  lemma UintWasPrinted(input: Bytes, k: nat)
    requires ReadUint(input, k).Ok?
    ensures var n := ReadUint(input, k).value;
            n.value < Pow256(k) && input == ToBigEndian(n.value, k) + n.rest
  {
    hide BigEndian, ToBigEndian, Pow256;
    BigEndianBound(input[..k]);
    ToBigEndianOf(input[..k]);
    assert input == input[..k] + input[k..];
  }

  // ------------------------------------------------------------------ the dispatch agrees with the grammar

  lemma DispatchScalar(m: Byte, rest: Bytes)
    requires ScalarSize(m).Some?
    ensures Dispatch(m, rest) == Ok(Read(Raw(ScalarSize(m).value), rest))
  {
  }

  lemma DispatchBlob(m: Byte, rest: Bytes)
    requires BlobWidth(m) > 0
    ensures Dispatch(m, rest)
            == match ReadUint(rest, BlobWidth(m))
               case Ok(n) => Ok(Read(Raw(n.value + TypeBytes(m)), n.rest))
               case Err(e) => Err(e)
  {
    hide ReadUint;
  }

  lemma DispatchShort(m: Byte, rest: Bytes)
    requires 0x80 <= m <= 0x9f
    ensures Dispatch(m, rest) == Ok(Read(Items(m % 16 * PerEntry(m)), rest))
  {
    hide ReadUint;
  }

  lemma DispatchLong(m: Byte, rest: Bytes)
    requires GroupWidth(m) > 0
    ensures Dispatch(m, rest)
            == match ReadUint(rest, GroupWidth(m))
               case Ok(n) => Ok(Read(Items(n.value * PerEntry(m)), n.rest))
               case Err(e) => Err(e)
  {
    hide ReadUint;
  }

  /** Only the reserved marker 0xc1 has no value. */
  lemma MarkerKinds(m: Byte)
    ensures m == 0xc1 <==> ScalarSize(m).None? && BlobWidth(m) == 0 && !(0x80 <= m <= 0x9f) && GroupWidth(m) == 0
  {
  }

  lemma SkipUnfolds(m: Byte, rest: Bytes, depth: nat)
    requires depth < MAX_DEPTH
    ensures var head := Dispatch(m, rest);
            Skip([m] + rest, depth)
            == if head.Err? then Err(head.error)
               else if head.value.value.Items? then SkipMany(head.value.rest, head.value.value.count, depth)
               else
                 var body := Take(head.value.rest, head.value.value.size);
                 if body.Err? then Err(body.error) else Ok(body.value.rest)
  {
    hide Dispatch, SkipMany;
    assert ([m] + rest)[1..] == rest;
  }

  // ------------------------------------------------------------------ every printed value is skipped

  lemma TakeBody(body: Bytes, rest: Bytes)
    ensures Take(body + rest, |body|) == Ok(Read(body, rest))
  {
    assert (body + rest)[..|body|] == body && (body + rest)[|body|..] == rest;
  }

  lemma SkipScalar(m: Byte, body: Bytes, rest: Bytes, depth: nat)
    requires ScalarSize(m) == Some(|body|) && depth < MAX_DEPTH
    ensures Skip([m] + body + rest, depth) == Ok(rest)
  {
    hide Dispatch, ScalarSize, Skip;
    assert [m] + body + rest == [m] + (body + rest);
    SkipUnfolds(m, body + rest, depth);
    DispatchScalar(m, body + rest);
    TakeBody(body, rest);
  }

  lemma SkipBlob(m: Byte, body: Bytes, rest: Bytes, depth: nat)
    requires WellFormed(Blob(m, body)) && depth < MAX_DEPTH
    ensures Skip(Print(Blob(m, body)) + rest, depth) == Ok(rest)
  {
    hide Dispatch, Skip, ToBigEndian, Pow256, BlobWidth, ReadUint;
    var n := |body| - TypeBytes(m);
    var tail := ToBigEndian(n, BlobWidth(m)) + (body + rest);
    assert Print(Blob(m, body)) + rest == [m] + tail;
    SkipUnfolds(m, tail, depth);
    DispatchBlob(m, tail);
    UintRoundTrip(n, BlobWidth(m), body + rest);
    TakeBody(body, rest);
  }

  lemma SkipGroup(m: Byte, items: seq<Value>, rest: Bytes, depth: nat)
    requires WellFormed(Group(m, items)) && depth < MAX_DEPTH
    requires SkipMany(PrintAll(items) + rest, |items|, depth) == Ok(rest)
    ensures Skip(Print(Group(m, items)) + rest, depth) == Ok(rest)
  {
    hide Dispatch, Skip, SkipMany, Pow256, ReadUint, PrintAll;
    var tail := ToBigEndian(|items| / PerEntry(m), GroupWidth(m)) + (PrintAll(items) + rest);
    assert Print(Group(m, items)) + rest == [m] + tail;
    SkipUnfolds(m, tail, depth);
    if 0x80 <= m <= 0x9f {
      assert GroupWidth(m) == 0 && ToBigEndian(|items| / PerEntry(m), 0) == [];
      assert tail == PrintAll(items) + rest;
      DispatchShort(m, tail);
    } else {
      DispatchLong(m, tail);
      UintRoundTrip(|items| / PerEntry(m), GroupWidth(m), PrintAll(items) + rest);
    }
  }

  lemma {:induction false} SkipPrinted(v: Value, depth: nat, rest: Bytes)
    requires WellFormed(v) && Fits(v, depth)
    ensures Skip(Print(v) + rest, depth) == Ok(rest)
    decreases v
  {
    match v {
      case Scalar(m, body) => SkipScalar(m, body, rest, depth);
      case Blob(m, body) => SkipBlob(m, body, rest, depth);
      case Group(m, items) =>
        SkipPrintedAll(items, depth, rest);
        SkipGroup(m, items, rest, depth);
    }
    hide Skip, SkipMany;
  }

  lemma {:induction false} SkipPrintedAll(items: seq<Value>, depth: nat, rest: Bytes)
    requires forall i | 0 <= i < |items| :: WellFormed(items[i]) && Fits(items[i], depth + 1)
    ensures SkipMany(PrintAll(items) + rest, |items|, depth) == Ok(rest)
    decreases items
  {
    hide Skip, Print, WellFormed, Fits;
    if items == [] {
      assert PrintAll(items) + rest == rest;
    } else {
      var later := PrintAll(items[1..]) + rest;
      assert PrintAll(items) + rest == Print(items[0]) + later;
      SkipPrinted(items[0], depth + 1, later);
      SkipPrintedAll(items[1..], depth, rest);
    }
  }

  // ------------------------------------------------------------------ nothing else is skipped

  /** How many items the head of a group announces, and the input after the head. */
  function Announced(m: Byte, tail: Bytes): Read<nat>
    requires 0x80 <= m <= 0x9f || (GroupWidth(m) > 0 && ReadUint(tail, GroupWidth(m)).Ok?)
  {
    if 0x80 <= m <= 0x9f then Read(m % 16 * PerEntry(m), tail)
    else
      var n := ReadUint(tail, GroupWidth(m)).value;
      Read(n.value * PerEntry(m), n.rest)
  }

  /** What a skipped input starts with. */
  lemma SkippedKind(m: Byte, tail: Bytes, depth: nat)
    requires Skip([m] + tail, depth).Ok?
    ensures depth < MAX_DEPTH
    ensures ScalarSize(m).Some? ==>
              Take(tail, ScalarSize(m).value).Ok?
              && Skip([m] + tail, depth) == Ok(Take(tail, ScalarSize(m).value).value.rest)
    ensures BlobWidth(m) > 0 ==>
              && ReadUint(tail, BlobWidth(m)).Ok?
              && var n := ReadUint(tail, BlobWidth(m)).value;
              && Take(n.rest, n.value + TypeBytes(m)).Ok?
              && Skip([m] + tail, depth) == Ok(Take(n.rest, n.value + TypeBytes(m)).value.rest)
    ensures ScalarSize(m).None? && BlobWidth(m) == 0 ==>
              && (0x80 <= m <= 0x9f || (GroupWidth(m) > 0 && ReadUint(tail, GroupWidth(m)).Ok?))
              && var a := Announced(m, tail);
              && |a.rest| <= |tail|
              && Skip([m] + tail, depth) == SkipMany(a.rest, a.value, depth)
  {
    SkipUnfolds(m, tail, depth);
    MarkerKinds(m);
    DispatchShrinks(m, tail);
    hide Skip, Dispatch, SkipMany, ReadUint, Take;
    if ScalarSize(m).Some? {
      DispatchScalar(m, tail);
    } else if BlobWidth(m) > 0 {
      DispatchBlob(m, tail);
    } else if 0x80 <= m <= 0x9f {
      DispatchShort(m, tail);
    } else if GroupWidth(m) > 0 {
      DispatchLong(m, tail);
    }
  }

  /** The value in front of the skipped input. */
  lemma {:induction false} Parse(input: Bytes, depth: nat) returns (v: Value)
    requires Skip(input, depth).Ok?
    ensures WellFormed(v) && Fits(v, depth) && input == Print(v) + Skip(input, depth).value
    decreases |input|, 0
  {
    var m, tail := input[0], input[1..];
    assert input == [m] + tail;
    hide Skip, SkipMany, Announced, ReadUint, ScalarSize, BlobWidth, GroupWidth, Print, WellFormed, Fits;
    SkippedKind(m, tail, depth);
    if ScalarSize(m).Some? {
      v := ParseScalar(m, tail, depth);
    } else if BlobWidth(m) > 0 {
      v := ParseBlob(m, tail, depth);
    } else {
      var a := Announced(m, tail);
      var items := ParseAll(a.rest, a.value, depth);
      GroupParsed(m, tail, items, depth, Skip(input, depth).value);
      v := Group(m, items);
    }
  }

  lemma ParseScalar(m: Byte, tail: Bytes, depth: nat) returns (v: Value)
    requires ScalarSize(m).Some? && Take(tail, ScalarSize(m).value).Ok? && depth < MAX_DEPTH
    ensures WellFormed(v) && Fits(v, depth) && [m] + tail == Print(v) + Take(tail, ScalarSize(m).value).value.rest
  {
    hide ScalarSize;
    var n := ScalarSize(m).value;
    v := Scalar(m, tail[..n]);
    assert [m] + tail == [m] + tail[..n] + tail[n..];
  }

  lemma GroupParsed(m: Byte, tail: Bytes, items: seq<Value>, depth: nat, rest: Bytes)
    requires 0x80 <= m <= 0x9f || (GroupWidth(m) > 0 && ReadUint(tail, GroupWidth(m)).Ok?)
    requires |items| == Announced(m, tail).value && depth < MAX_DEPTH
    requires Announced(m, tail).rest == PrintAll(items) + rest
    requires forall i | 0 <= i < |items| :: WellFormed(items[i]) && Fits(items[i], depth + 1)
    ensures WellFormed(Group(m, items)) && Fits(Group(m, items), depth)
    ensures [m] + tail == Print(Group(m, items)) + rest
  {
    hide PrintAll, Print, WellFormed;
    if 0x80 <= m <= 0x9f {
      ShortGroup(m, items);
      assert [m] + tail == [m] + PrintAll(items) + rest;
    } else {
      hide ReadUint, ToBigEndian, Pow256;
      UintWasPrinted(tail, GroupWidth(m));
      var n := ReadUint(tail, GroupWidth(m)).value;
      LongGroup(m, items, n.value);
      assert [m] + tail == [m] + (ToBigEndian(n.value, GroupWidth(m)) + PrintAll(items)) + rest;
    }
  }

  lemma ParseBlob(m: Byte, tail: Bytes, depth: nat) returns (v: Value)
    requires BlobWidth(m) > 0 && ReadUint(tail, BlobWidth(m)).Ok? && depth < MAX_DEPTH
    requires var n := ReadUint(tail, BlobWidth(m)).value; Take(n.rest, n.value + TypeBytes(m)).Ok?
    ensures var n := ReadUint(tail, BlobWidth(m)).value;
            && WellFormed(v) && Fits(v, depth)
            && [m] + tail == Print(v) + Take(n.rest, n.value + TypeBytes(m)).value.rest
  {
    hide ToBigEndian, Pow256, BlobWidth, ReadUint;
    var n := ReadUint(tail, BlobWidth(m)).value;
    UintWasPrinted(tail, BlobWidth(m));
    var body := n.rest[..n.value + TypeBytes(m)];
    v := Blob(m, body);
    assert n.rest == body + n.rest[|body|..];
  }

  lemma ShortGroup(m: Byte, items: seq<Value>)
    requires 0x80 <= m <= 0x9f && |items| == m % 16 * PerEntry(m)
    requires forall i | 0 <= i < |items| :: WellFormed(items[i])
    ensures WellFormed(Group(m, items)) && Print(Group(m, items)) == [m] + PrintAll(items)
  {
    assert ToBigEndian(|items| / PerEntry(m), 0) == [];
    hide PrintAll;
  }

  lemma PerEntryDivides(m: Byte, n: nat)
    ensures n * PerEntry(m) / PerEntry(m) == n && n * PerEntry(m) % PerEntry(m) == 0
    ensures forall p: nat :: n < p ==> n * PerEntry(m) < p * PerEntry(m)
  {
  }

  lemma LongGroup(m: Byte, items: seq<Value>, n: nat)
    requires GroupWidth(m) > 0 && n < Pow256(GroupWidth(m)) && |items| == n * PerEntry(m)
    requires forall i | 0 <= i < |items| :: WellFormed(items[i])
    ensures WellFormed(Group(m, items))
    ensures Print(Group(m, items)) == [m] + (ToBigEndian(n, GroupWidth(m)) + PrintAll(items))
  {
    PerEntryDivides(m, n);
    hide PrintAll, ToBigEndian, Pow256, PerEntry, GroupWidth;
    assert !(0x80 <= m <= 0x9f) by { LongMarker(m); }
  }

  lemma LongMarker(m: Byte)
    ensures GroupWidth(m) > 0 ==> m >= 0xdc
  {
  }

  lemma {:induction false} ParseAll(input: Bytes, count: nat, depth: nat) returns (items: seq<Value>)
    requires SkipMany(input, count, depth).Ok?
    ensures |items| == count && input == PrintAll(items) + SkipMany(input, count, depth).value
    ensures forall i | 0 <= i < count :: WellFormed(items[i]) && Fits(items[i], depth + 1)
    decreases |input|, 1
  {
    hide Skip, Print, WellFormed, Fits;
    if count == 0 {
      items := [];
    } else {
      var first := Parse(input, depth + 1);
      var left := Skip(input, depth + 1).value;
      var later := ParseAll(left, count - 1, depth);
      items := [first] + later;
      assert items[1..] == later;
    }
  }

  /** The skipper, exactly: it leaves `rest` if and only if the input is one printed value, nested less than
      64 deep, followed by `rest`. */
  lemma SkipExactly(input: Bytes, depth: nat, rest: Bytes)
    ensures Skip(input, depth) == Ok(rest)
       <==> exists v :: WellFormed(v) && Fits(v, depth) && input == Print(v) + rest
  {
    hide Skip, WellFormed, Fits, Print;
    if Skip(input, depth) == Ok(rest) {
      var v := Parse(input, depth);
      assert WellFormed(v) && Fits(v, depth) && input == Print(v) + rest;
    }
    forall v | WellFormed(v) && Fits(v, depth) && input == Print(v) + rest
      ensures Skip(input, depth) == Ok(rest)
    {
      SkipPrinted(v, depth, rest);
    }
  }

  /** What follows a value does not matter. */
  lemma SkipExtends(input: Bytes, depth: nat, more: Bytes)
    requires Skip(input, depth).Ok?
    ensures Skip(input + more, depth) == Ok(Skip(input, depth).value + more)
  {
    hide Skip, WellFormed, Fits, Print;
    var v := Parse(input, depth);
    var rest := Skip(input, depth).value;
    assert input + more == Print(v) + (rest + more);
    SkipPrinted(v, depth, rest + more);
  }

  /** A value starts with its marker. */
  lemma PrintStarts(v: Value)
    ensures Print(v) != [] && Print(v)[0] == v.marker
  {
    hide PrintAll, ToBigEndian;
  }
}
