/** What the LXMF codec promises: messages survive the wire, stamps do not touch the hash, and nothing but
    the whole message is accepted. */
module LxmfLaws {
  import opened Base
  import opened Crypto
  import opened MessagePack
  import opened Skipper
  import opened Grammar
  import opened Lxmf

  /** A map value, nested below the depth limit. */
  ghost predicate FieldsMap(fields: Bytes) {
    exists v :: IsFieldsMap(v, fields)
  }

  ghost predicate IsFieldsMap(v: Value, fields: Bytes) {
    v.Group? && IsMap(v.marker) && WellFormed(v) && Fits(v, 0) && Print(v) == fields
  }

  /** A message as it may be sent. */
  ghost predicate Valid(c: Suite, m: Message) {
    && |m.destination| == 16 && |m.source| == 16 && |m.signature| == 64
    && |m.timestamp| == 8 && Finite(m.timestamp) && Short(m) && FieldsMap(m.fields)
    && (m.stamp.Some? ==> |m.stamp.value| == 16 || |m.stamp.value| == 32)
    && m.hash == c.sha(HashedPart(m.destination, m.source, Payload(m)))
  }

  // ------------------------------------------------------------------ each part reads back

  lemma NumberAfter(marker: Byte, n: nat, k: nat, rest: Bytes)
    requires n < Pow256(k)
    ensures var input := [marker] + ToBigEndian(n, k) + rest;
            TakeByte(input) == Ok(Read(marker, ToBigEndian(n, k) + rest))
            && ReadUint(ToBigEndian(n, k) + rest, k) == Ok(Read(n, rest))
  {
    hide ToBigEndian, ReadUint, Pow256;
    UintRoundTrip(n, k, rest);
    assert ([marker] + ToBigEndian(n, k) + rest)[1..] == ToBigEndian(n, k) + rest;
  }

  lemma CollectionLenRead(n: nat, rest: Bytes)
    requires n < LIMIT
    ensures ReadCollectionLen(ArrayHead(n) + rest, 0x90, 0xdc, 0xdd) == Ok(Read(n, rest))
  {
    hide ToBigEndian, ReadUint, Pow256;
    Widths();
    if n < 16 {
      assert ([0x90 + n] + rest)[1..] == rest;
    } else if n < 0x1_0000 {
      NumberAfter(0xdc, n, 2, rest);
    } else {
      NumberAfter(0xdd, n, 4, rest);
    }
  }

  lemma BinaryLengthRead(n: nat, rest: Bytes)
    requires n < LIMIT
    ensures ReadBinary(BinHead(n) + rest) == Take(rest, n)
  {
    hide ToBigEndian, ReadUint, Pow256, Take;
    Widths();
    if n < 0x100 {
      OneByte(n);
      NumberAfter(0xc4, n, 1, rest);
      assert [0xc4, n] == [0xc4] + [n];
    } else if n < 0x1_0000 {
      NumberAfter(0xc5, n, 2, rest);
    } else {
      NumberAfter(0xc6, n, 4, rest);
    }
  }

  lemma BinaryRead(data: Bytes, rest: Bytes)
    requires |data| < LIMIT
    ensures ReadBinary(Bin(data) + rest) == Ok(Read(data, rest))
  {
    hide ReadBinary, BinHead;
    assert Bin(data) + rest == BinHead(|data|) + (data + rest);
    BinaryLengthRead(|data|, data + rest);
    TakeBody(data, rest);
  }

  lemma TimestampRead(timestamp: Bytes, rest: Bytes)
    requires |timestamp| == 8 && Finite(timestamp)
    ensures ReadTimestamp([0xcb] + (timestamp + rest)) == Ok(Read(timestamp, rest))
  {
    TakeBody(timestamp, rest);
    assert ([0xcb] + (timestamp + rest))[1..] == timestamp + rest;
    hide Take;
  }

  lemma FieldsRead(fields: Bytes, rest: Bytes)
    requires FieldsMap(fields)
    ensures ReadFieldsMap(fields + rest) == Ok(Read(fields, rest))
  {
    hide Skip, Print, WellFormed, Fits;
    var v :| IsFieldsMap(v, fields);
    SkipPrinted(v, 0, rest);
    PrintStarts(v);
    assert (fields + rest)[..|fields|] == fields;
  }

  lemma StampRead(stamp: Bytes)
    requires |stamp| == 16 || |stamp| == 32
    ensures ReadStamp(Bin(stamp), true) == Ok(Read(Some(stamp), []))
  {
    hide ReadBinary, Bin;
    BinaryRead(stamp, []);
    assert Bin(stamp) + [] == Bin(stamp);
  }

  /** A payload of four values, and what follows it. */
  lemma FrontRead(m: Message, n: nat, tail: Bytes)
    requires |m.timestamp| == 8 && Finite(m.timestamp) && Short(m) && FieldsMap(m.fields) && 4 <= n <= 5
    requires ReadStamp(tail, n == 5) == Ok(Read(m.stamp, []))
    ensures var input := ArrayHead(n) + ([0xcb] + (m.timestamp + (Bin(m.title) + (Bin(m.content) + (m.fields + tail)))));
            DecodePayload(input) == Ok(Decoded(m.timestamp, m.title, m.content, m.fields, m.stamp))
  {
    hide ArrayHead, Bin, ReadCollectionLen, ReadTimestamp, ReadBinary, ReadFieldsMap, ReadStamp, FieldsMap, Finite;
    var afterContent := m.fields + tail;
    var afterTitle := Bin(m.content) + afterContent;
    var afterTime := Bin(m.title) + afterTitle;
    CollectionLenRead(n, [0xcb] + (m.timestamp + afterTime));
    TimestampRead(m.timestamp, afterTime);
    BinaryRead(m.title, afterTitle);
    BinaryRead(m.content, afterContent);
    FieldsRead(m.fields, tail);
  }

  lemma PayloadDecodes(m: Message)
    requires |m.timestamp| == 8 && Finite(m.timestamp) && Short(m) && FieldsMap(m.fields)
    requires m.stamp.Some? ==> |m.stamp.value| == 16 || |m.stamp.value| == 32
    ensures DecodePayload(WirePayload(m)) == Ok(Decoded(m.timestamp, m.title, m.content, m.fields, m.stamp))
  {
    hide ArrayHead, Bin, DecodePayload, FieldsMap, Finite;
    match m.stamp {
      case None =>
        assert ReadStamp([], false) == Ok(Read(None, []));
        FrontRead(m, 4, []);
        assert m.fields + [] == m.fields;
      case Some(stamp) =>
        StampRead(stamp);
        FrontRead(m, 5, Bin(stamp));
    }
  }

  /** A message survives the wire, with or without a stamp. */
  lemma UnpackPack(c: Suite, m: Message)
    requires Valid(c, m)
    ensures Unpack(c, Pack(m)) == Ok(m)
  {
    hide WirePayload, EncodePayload, DecodePayload, FieldsMap, Finite;
    PayloadDecodes(m);
    var bytes := Pack(m);
    assert bytes[..16] == m.destination && bytes[16..32] == m.source && bytes[32..96] == m.signature;
    assert bytes[96..] == WirePayload(m);
  }

  // ------------------------------------------------------------------ stamps

  /** A stamp is carried along but is part of neither the hash nor the signature: the stamped message is
      received with the hash of the unstamped one, and verifies exactly if that one does. */
  lemma StampChangesNothing(c: Suite, m: Message, stamp: Bytes, public: Bytes)
    requires Valid(c, m) && (|stamp| == 16 || |stamp| == 32)
    ensures var stamped := m.(stamp := Some(stamp));
            && Valid(c, stamped)
            && Unpack(c, Pack(stamped)) == Ok(stamped)
            && stamped.hash == m.hash
            && (Verify(c, stamped, public) <==> Verify(c, m, public))
  {
    hide WirePayload, EncodePayload, Unpack, FieldsMap, Finite;
    UnpackPack(c, m.(stamp := Some(stamp)));
  }

  /** A built message is valid, and verifies under its author's key after the wire, stamped or not. */
  lemma BuiltVerifies(c: Suite, id: Identity, destination: Bytes, source: Bytes, timestamp: Bytes, title: Bytes,
                      content: Bytes, fields: Bytes, stamp: Option<Bytes>)
    requires Lawful(c) && |destination| == 16 && |source| == 16 && |timestamp| == 8 && Finite(timestamp)
    requires |title| < LIMIT && |content| < LIMIT && FieldsMap(fields)
    requires stamp.Some? ==> |stamp.value| == 16 || |stamp.value| == 32
    ensures var m := Build(c, id, destination, source, timestamp, title, content, fields).(stamp := stamp);
            Valid(c, m) && Unpack(c, Pack(m)) == Ok(m) && Verify(c, m, Public(c, id))
  {
    hide WirePayload, EncodePayload, Unpack, FieldsMap, Finite;
    PublicHalves(c, id);
    UnpackPack(c, Build(c, id, destination, source, timestamp, title, content, fields).(stamp := stamp));
  }

  // ------------------------------------------------------------------ what is accepted is a message

  lemma FieldsAreMap(input: Bytes)
    requires ReadFieldsMap(input).Ok?
    ensures FieldsMap(ReadFieldsMap(input).value.value)
  {
    hide Skip, Print, WellFormed, Fits;
    var v := Parse(input, 0);
    var rest := Skip(input, 0).value;
    PrintStarts(v);
    assert input[..|input| - |rest|] == Print(v);
    MapIsGroup(v);
    assert IsFieldsMap(v, Print(v));
  }

  lemma MapIsGroup(v: Value)
    requires WellFormed(v) && IsMap(v.marker)
    ensures v.Group?
  {
    assert ScalarSize(v.marker).None? && BlobWidth(v.marker) == 0;
  }

  /** Whatever unpacks is a valid message; packing it again and unpacking it changes nothing. */
  lemma UnpackedIsValid(c: Suite, bytes: Bytes)
    requires Unpack(c, bytes).Ok?
    ensures Valid(c, Unpack(c, bytes).value)
    ensures Unpack(c, Pack(Unpack(c, bytes).value)) == Unpack(c, bytes)
  {
    hide EncodePayload, Skip, ReadBinary, FieldsMap, Finite, ReadCollectionLen;
    var payload := bytes[96..];
    var length := ReadCollectionLen(payload, 0x90, 0xdc, 0xdd).value;
    var timestamp := ReadTimestamp(length.rest).value;
    var title := ReadBinary(timestamp.rest).value;
    var content := ReadBinary(title.rest).value;
    FieldsAreMap(content.rest);
    UnpackPack(c, Unpack(c, bytes).value);
  }

  // ------------------------------------------------------------------ the whole input, and nothing less

  lemma TakeExtends(input: Bytes, n: nat, more: Bytes)
    requires Take(input, n).Ok?
    ensures Take(input + more, n) == Ok(Read(Take(input, n).value.value, Take(input, n).value.rest + more))
  {
    assert (input + more)[..n] == input[..n] && (input + more)[n..] == input[n..] + more;
  }

  lemma ByteExtends(input: Bytes, more: Bytes)
    requires TakeByte(input).Ok?
    ensures TakeByte(input + more) == Ok(Read(TakeByte(input).value.value, TakeByte(input).value.rest + more))
  {
    assert (input + more)[1..] == input[1..] + more;
  }

  lemma UintExtends(input: Bytes, k: nat, more: Bytes)
    requires ReadUint(input, k).Ok?
    ensures ReadUint(input + more, k) == Ok(Read(ReadUint(input, k).value.value, ReadUint(input, k).value.rest + more))
  {
    hide BigEndian, Take;
    TakeExtends(input, k, more);
  }

  lemma BinaryExtends(input: Bytes, more: Bytes)
    requires ReadBinary(input).Ok?
    ensures ReadBinary(input + more) == Ok(Read(ReadBinary(input).value.value, ReadBinary(input).value.rest + more))
  {
    hide ReadUint, Take;
    ByteExtends(input, more);
    var k := match input[0] case 0xc4 => 1 case 0xc5 => 2 case 0xc6 => 4 case _ => 0;
    UintExtends(input[1..], k, more);
    var length := ReadUint(input[1..], k).value;
    TakeExtends(length.rest, length.value, more);
  }

  lemma CollectionLenExtends(input: Bytes, more: Bytes)
    requires ReadCollectionLen(input, 0x90, 0xdc, 0xdd).Ok?
    ensures var was := ReadCollectionLen(input, 0x90, 0xdc, 0xdd).value;
            ReadCollectionLen(input + more, 0x90, 0xdc, 0xdd) == Ok(Read(was.value, was.rest + more))
  {
    hide ReadUint;
    ByteExtends(input, more);
    if input[0] == 0xdc {
      UintExtends(input[1..], 2, more);
    } else if input[0] == 0xdd {
      UintExtends(input[1..], 4, more);
    }
  }

  lemma TimestampExtends(input: Bytes, more: Bytes)
    requires ReadTimestamp(input).Ok?
    ensures ReadTimestamp(input + more)
            == Ok(Read(ReadTimestamp(input).value.value, ReadTimestamp(input).value.rest + more))
  {
    hide Take;
    ByteExtends(input, more);
    TakeExtends(input[1..], 8, more);
  }

  lemma FieldsExtends(input: Bytes, more: Bytes)
    requires ReadFieldsMap(input).Ok?
    ensures ReadFieldsMap(input + more)
            == Ok(Read(ReadFieldsMap(input).value.value, ReadFieldsMap(input).value.rest + more))
  {
    hide Skip;
    SkipExtends(input, 0, more);
    var rest := Skip(input, 0).value;
    assert (input + more)[..|input| - |rest|] == input[..|input| - |rest|];
  }

  lemma StampExtends(input: Bytes, present: bool, more: Bytes)
    requires ReadStamp(input, present).Ok?
    ensures ReadStamp(input + more, present)
            == Ok(Read(ReadStamp(input, present).value.value, ReadStamp(input, present).value.rest + more))
  {
    hide ReadBinary;
    if present {
      BinaryExtends(input, more);
    }
  }

  /** Decoding looks at nothing behind the payload. */
  lemma FrontExtends(input: Bytes, more: Bytes)
    requires DecodeFront(input).Ok?
    ensures DecodeFront(input + more) == Ok(Read(DecodeFront(input).value.value, DecodeFront(input).value.rest + more))
  {
    hide ReadCollectionLen, ReadTimestamp, ReadBinary, ReadFieldsMap, ReadStamp;
    var length := ReadCollectionLen(input, 0x90, 0xdc, 0xdd).value;
    CollectionLenExtends(input, more);
    var timestamp := ReadTimestamp(length.rest).value;
    TimestampExtends(length.rest, more);
    var title := ReadBinary(timestamp.rest).value;
    BinaryExtends(timestamp.rest, more);
    var content := ReadBinary(title.rest).value;
    BinaryExtends(title.rest, more);
    var fields := ReadFieldsMap(content.rest).value;
    FieldsExtends(content.rest, more);
    StampExtends(fields.rest, length.value == 5, more);
  }

  /** No accepted message is the beginning of a longer accepted one. */
  lemma NoExtension(c: Suite, bytes: Bytes, more: Bytes)
    requires Unpack(c, bytes).Ok? && more != []
    ensures Unpack(c, bytes + more).Err?
  {
    hide DecodeFront, EncodePayload;
    FrontExtends(bytes[96..], more);
    assert (bytes + more)[96..] == bytes[96..] + more;
  }

  /** Of an accepted message every strict prefix and every extension is rejected. */
  lemma OnlyTheWhole(c: Suite, bytes: Bytes, other: Bytes)
    requires Unpack(c, bytes).Ok? && (other < bytes || bytes < other)
    ensures Unpack(c, other).Err?
  {
    hide Unpack;
    if bytes < other {
      assert other == bytes + other[|bytes|..];
      NoExtension(c, bytes, other[|bytes|..]);
    } else if Unpack(c, other).Ok? {
      assert bytes == other + bytes[|other|..];
      NoExtension(c, other, bytes[|other|..]);
    }
  }
}

/** Propagation containers (reticulum-lxmf/src/propagation.rs). */
module Propagation {
  import opened Base
  import opened MessagePack
  import opened Skipper
  import opened Grammar
  import opened Lxmf
  import opened LxmfLaws

  datatype Container = Container(timestamp: Bytes, messages: seq<Bytes>)

  function PackAll(messages: seq<Bytes>): Bytes
    requires forall m | m in messages :: |m| < LIMIT
  {
    if messages == [] then [] else Bin(messages[0]) + PackAll(messages[1..])
  }

  function PackContainer(timestamp: Bytes, messages: seq<Bytes>): Bytes
    requires |messages| < LIMIT && forall m | m in messages :: |m| < LIMIT
  {
    ArrayHead(2) + ([0xcb] + (timestamp + (ArrayHead(|messages|) + PackAll(messages))))
  }

  function ReadMessages(input: Bytes, count: nat): Result<Read<seq<Bytes>>>
    decreases count
  {
    if count == 0 then Ok(Read([], input))
    else
      var first :- ReadBinary(input);
      var later :- ReadMessages(first.rest, count - 1);
      Ok(Read([first.value] + later.value, later.rest))
  }

  /** The container in front of an input of `total` bytes. */
  function ContainerFront(input: Bytes, total: nat): Result<Read<Container>> {
    var length :- ReadCollectionLen(input, 0x90, 0xdc, 0xdd);
    var marker :- if length.value == 2 then TakeByte(length.rest) else Err(InvalidField);
    if marker.value != 0xcb then Err(InvalidField)
    else
      var timestamp :- Take(marker.rest, 8);
      if !Finite(timestamp.value) then Err(InvalidField)
      else
        var count :- ReadCollectionLen(timestamp.rest, 0x90, 0xdc, 0xdd);
        if count.value > total then Err(InvalidField)
        else
          var messages :- ReadMessages(count.rest, count.value);
          Ok(Read(Container(timestamp.value, messages.value), messages.rest))
  }

  function UnpackContainer(bytes: Bytes): Result<Container> {
    var front :- ContainerFront(bytes, |bytes|);
    if front.rest != [] then Err(InvalidField) else Ok(front.value)
  }

  // ------------------------------------------------------------------ the code

  lemma PackAllStep(messages: seq<Bytes>, i: nat)
    requires i < |messages| && forall m | m in messages :: |m| < LIMIT
    ensures PackAll(messages[i..]) == Bin(messages[i]) + PackAll(messages[i + 1..])
  {
    hide Bin;
    assert messages[i..][0] == messages[i] && messages[i..][1..] == messages[i + 1..];
  }

  method PackContainerBytes(timestamp: Bytes, messages: seq<Bytes>) returns (packed: Bytes)
    requires |messages| < LIMIT && forall m | m in messages :: |m| < LIMIT
    ensures packed == PackContainer(timestamp, messages)
  {
    hide ArrayHead, Bin, PackAll;
    packed := ArrayHead(2);
    packed := packed + [0xcb] + timestamp;
    packed := packed + ArrayHead(|messages|);
    ghost var head := packed;
    var i := 0;
    assert messages[0..] == messages;
    while i < |messages|
      invariant 0 <= i <= |messages|
      invariant packed + PackAll(messages[i..]) == head + PackAll(messages)
    {
      PackAllStep(messages, i);
      assert packed + (Bin(messages[i]) + PackAll(messages[i + 1..]))
          == packed + Bin(messages[i]) + PackAll(messages[i + 1..]);
      packed := packed + Bin(messages[i]);
      i := i + 1;
    }
    PackNothing(messages[i..]);
    assert packed + [] == packed;
  }

  lemma PackNothing(messages: seq<Bytes>)
    requires messages == []
    ensures PackAll(messages) == []
  {
  }

  method UnpackContainerBytes(bytes: Bytes) returns (r: Result<Container>)
    ensures r == UnpackContainer(bytes)
  {
    hide ReadBinary, ReadCollectionLen, ReadMessages, Finite;
    var cursor := new Cursor(bytes);
    assert cursor.Rest() == bytes;
    var length := NextCollectionLen(cursor);
    if length.Err? {
      return Err(length.error);
    }
    if length.value != 2 {
      return Err(InvalidField);
    }
    var marker := cursor.NextByte();
    if marker.Err? {
      return Err(marker.error);
    }
    if marker.value != 0xcb {
      return Err(InvalidField);
    }
    var timestamp := cursor.Next(8);
    if timestamp.Err? {
      return Err(timestamp.error);
    }
    if !Finite(timestamp.value) {
      return Err(InvalidField);
    }
    var count := NextCollectionLen(cursor);
    if count.Err? {
      return Err(count.error);
    }
    if count.value > |bytes| {
      return Err(InvalidField);
    }
    var messages := NextMessages(cursor, count.value);
    if messages.Err? {
      return Err(messages.error);
    }
    if cursor.position != |bytes| {
      assert cursor.Rest() != [];
      return Err(InvalidField);
    }
    r := Ok(Container(timestamp.value, messages.value));
  }

  /** What the messages still to be read make of those already read. */
  function Joined(before: seq<Bytes>, r: Result<Read<seq<Bytes>>>): Result<Read<seq<Bytes>>> {
    match r
    case Ok(read) => Ok(Read(before + read.value, read.rest))
    case Err(error) => Err(error)
  }

  lemma JoinOne(before: seq<Bytes>, input: Bytes, count: nat)
    requires count > 0
    ensures ReadBinary(input).Ok? ==>
              Joined(before, ReadMessages(input, count))
              == Joined(before + [ReadBinary(input).value.value],
                        ReadMessages(ReadBinary(input).value.rest, count - 1))
    ensures ReadBinary(input).Err? ==> Joined(before, ReadMessages(input, count)) == Err(ReadBinary(input).error)
  {
    hide ReadBinary;
    if ReadBinary(input).Ok? {
      var first := ReadBinary(input).value;
      var later := ReadMessages(first.rest, count - 1);
      if later.Ok? {
        assert before + ([first.value] + later.value.value) == before + [first.value] + later.value.value;
      }
    }
  }

  method NextMessages(cursor: Cursor, count: nat) returns (r: Result<seq<Bytes>>)
    requires cursor.Valid()
    modifies cursor
    ensures cursor.Valid()
    ensures var was := ReadMessages(old(cursor.Rest()), count);
            if r.Ok? then was == Ok(Read(r.value, cursor.Rest())) else was.Err? && was.error == r.error
  {
    hide ReadBinary;
    var messages: seq<Bytes> := [];
    var i := 0;
    ghost var all := ReadMessages(cursor.Rest(), count);
    assert Joined([], all) == all by {
      if all.Ok? { assert [] + all.value.value == all.value.value; }
    }
    while i < count
      invariant 0 <= i <= count && cursor.Valid()
      invariant all == Joined(messages, ReadMessages(cursor.Rest(), count - i))
    {
      JoinOne(messages, cursor.Rest(), count - i);
      var message := cursor.NextBinary();
      if message.Err? {
        return Err(message.error);
      }
      messages := messages + [message.value];
      i := i + 1;
    }
    assert messages + [] == messages;
    r := Ok(messages);
  }

  // ------------------------------------------------------------------ laws

  lemma {:induction false} MessagesRead(messages: seq<Bytes>, rest: Bytes)
    requires forall m | m in messages :: |m| < LIMIT
    ensures ReadMessages(PackAll(messages) + rest, |messages|) == Ok(Read(messages, rest))
    ensures |messages| <= |PackAll(messages)|
    decreases |messages|
  {
    hide ReadBinary, BinHead;
    if messages == [] {
      assert PackAll(messages) + rest == rest;
    } else {
      var m, later := messages[0], PackAll(messages[1..]) + rest;
      assert PackAll(messages) + rest == Bin(m) + later;
      BinaryRead(m, later);
      HeadNotEmpty(|m|);
      MessagesRead(messages[1..], rest);
      assert messages == [m] + messages[1..];
    }
  }

  lemma HeadNotEmpty(n: nat)
    requires n < LIMIT
    ensures |BinHead(n)| >= 1
  {
  }

  /** A container survives the wire. */
  lemma UnpackPackContainer(timestamp: Bytes, messages: seq<Bytes>)
    requires |timestamp| == 8 && Finite(timestamp)
    requires |messages| < LIMIT && forall m | m in messages :: |m| < LIMIT
    ensures UnpackContainer(PackContainer(timestamp, messages)) == Ok(Container(timestamp, messages))
  {
    hide ArrayHead, ReadCollectionLen, ReadMessages, PackAll, Finite, Take;
    var tail := PackAll(messages);
    var counted := ArrayHead(|messages|) + tail;
    CollectionLenRead(2, [0xcb] + (timestamp + counted));
    assert ([0xcb] + (timestamp + counted))[1..] == timestamp + counted;
    TakeBody(timestamp, counted);
    CollectionLenRead(|messages|, tail);
    MessagesRead(messages, []);
    assert tail + [] == tail;
  }

  lemma {:induction false} MessagesExtend(input: Bytes, count: nat, more: Bytes)
    requires ReadMessages(input, count).Ok?
    ensures var was := ReadMessages(input, count).value;
            ReadMessages(input + more, count) == Ok(Read(was.value, was.rest + more))
    decreases count
  {
    hide ReadBinary;
    if count > 0 {
      BinaryExtends(input, more);
      MessagesExtend(ReadBinary(input).value.rest, count - 1, more);
    }
  }

  lemma ContainerExtends(input: Bytes, total: nat, more: Bytes, larger: nat)
    requires ContainerFront(input, total).Ok? && total <= larger
    ensures var was := ContainerFront(input, total).value;
            ContainerFront(input + more, larger) == Ok(Read(was.value, was.rest + more))
  {
    hide ReadCollectionLen, ReadMessages, Finite, Take, TakeByte;
    var length := ReadCollectionLen(input, 0x90, 0xdc, 0xdd).value;
    CollectionLenExtends(input, more);
    var marker := TakeByte(length.rest).value;
    ByteExtends(length.rest, more);
    var timestamp := Take(marker.rest, 8).value;
    TakeExtends(marker.rest, 8, more);
    var count := ReadCollectionLen(timestamp.rest, 0x90, 0xdc, 0xdd).value;
    CollectionLenExtends(timestamp.rest, more);
    MessagesExtend(count.rest, count.value, more);
  }

  lemma NoLongerContainer(bytes: Bytes, more: Bytes)
    requires UnpackContainer(bytes).Ok? && more != []
    ensures UnpackContainer(bytes + more).Err?
  {
    hide ContainerFront;
    ContainerExtends(bytes, |bytes|, more, |bytes + more|);
  }

  /** Of an accepted container every strict prefix and every extension is rejected. */
  lemma OnlyTheWholeContainer(bytes: Bytes, other: Bytes)
    requires UnpackContainer(bytes).Ok? && (other < bytes || bytes < other)
    ensures UnpackContainer(other).Err?
  {
    hide UnpackContainer;
    if bytes < other {
      assert other == bytes + other[|bytes|..];
      NoLongerContainer(bytes, other[|bytes|..]);
    } else if UnpackContainer(other).Ok? {
      assert bytes == other + bytes[|other|..];
      NoLongerContainer(other, bytes[|other|..]);
    }
  }
}
