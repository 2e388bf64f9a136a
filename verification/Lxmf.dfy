/** LXMF messages (reticulum-lxmf/src/message.rs): pack, unpack, hash and signature. */
module Lxmf {
  import opened Base
  import opened Crypto
  import opened MessagePack
  import opened Skipper
  import opened Grammar

  const DESTINATION_LENGTH: nat := 16
  const SIGNATURE_LENGTH: nat := 64
  const HEADER_LENGTH: nat := 2 * DESTINATION_LENGTH + SIGNATURE_LENGTH
  const LIMIT: nat := 0x1_0000_0000

  /** The timestamp is the eight bytes of an IEEE 754 double; `fields` is one encoded map. */
  datatype Message = Message(
    destination: Bytes, source: Bytes, timestamp: Bytes, title: Bytes, content: Bytes, fields: Bytes,
    stamp: Option<Bytes>, signature: Bytes, hash: Bytes)

  datatype Decoded = Decoded(timestamp: Bytes, title: Bytes, content: Bytes, fields: Bytes, stamp: Option<Bytes>)

  /** Not all eleven exponent bits are set: neither infinite nor not-a-number. */
  predicate Finite(timestamp: Bytes)
    requires |timestamp| == 8
  {
    !(timestamp[0] % 128 == 127 && timestamp[1] / 16 == 15)
  }

  // ------------------------------------------------------------------ encoding

  function EncodePayload(timestamp: Bytes, title: Bytes, content: Bytes, fields: Bytes): Bytes
    requires |title| < LIMIT && |content| < LIMIT
  {
    ArrayHead(4) + ([0xcb] + (timestamp + (Bin(title) + (Bin(content) + fields))))
  }

  predicate Short(m: Message) {
    |m.title| < LIMIT && |m.content| < LIMIT && (m.stamp.Some? ==> |m.stamp.value| < LIMIT)
  }

  function Payload(m: Message): Bytes
    requires Short(m)
  {
    EncodePayload(m.timestamp, m.title, m.content, m.fields)
  }

  function WirePayload(m: Message): Bytes
    requires Short(m)
  {
    match m.stamp
    case None => Payload(m)
    case Some(stamp) =>
      ArrayHead(5) + ([0xcb] + (m.timestamp + (Bin(m.title) + (Bin(m.content) + (m.fields + Bin(stamp))))))
  }

  function Pack(m: Message): Bytes
    requires Short(m)
  {
    m.destination + m.source + m.signature + WirePayload(m)
  }

  function HashedPart(destination: Bytes, source: Bytes, payload: Bytes): Bytes {
    destination + source + payload
  }

  function Build(c: Suite, id: Identity, destination: Bytes, source: Bytes, timestamp: Bytes, title: Bytes,
                 content: Bytes, fields: Bytes): Message
    requires |title| < LIMIT && |content| < LIMIT
  {
    var hashed := HashedPart(destination, source, EncodePayload(timestamp, title, content, fields));
    var hash := c.sha(hashed);
    Message(destination, source, timestamp, title, content, fields, None, c.sign(id.sig, hashed + hash), hash)
  }

  predicate Verify(c: Suite, m: Message, public: Bytes)
    requires Short(m)
  {
    var hashed := HashedPart(m.destination, m.source, Payload(m));
    c.sha(hashed) == m.hash && c.verify(SigHalf(public), hashed + m.hash, m.signature)
  }

  // ------------------------------------------------------------------ decoding

  predicate StartsMap(input: Bytes) {
    input != [] && IsMap(input[0])
  }

  lemma BinaryBounded(input: Bytes)
    ensures ReadBinary(input).Ok? ==> |ReadBinary(input).value.value| < LIMIT
  {
    if ReadBinary(input).Ok? {
      var k := match input[0] case 0xc4 => 1 case 0xc5 => 2 case 0xc6 => 4 case _ => 0;
      BigEndianBound(input[1..][..k]);
      Widths();
      hide BigEndian, Pow256;
    }
  }

  /** One map value, kept byte for byte. */
  function ReadFieldsMap(input: Bytes): Result<Read<Bytes>> {
    if !StartsMap(input) then Err(InvalidField)
    else
      var rest :- Skip(input, 0);
      Ok(Read(input[..|input| - |rest|], rest))
  }

  function ReadStamp(input: Bytes, present: bool): Result<Read<Option<Bytes>>> {
    if !present then Ok(Read(None, input))
    else
      var stamp :- ReadBinary(input);
      if |stamp.value| != 16 && |stamp.value| != 32 then Err(InvalidField)
      else Ok(Read(Some(stamp.value), stamp.rest))
  }

  function ReadTimestamp(input: Bytes): (r: Result<Read<Bytes>>)
    ensures r.Ok? ==> |r.value.value| == 8 && Finite(r.value.value)
  {
    var marker :- TakeByte(input);
    if marker.value != 0xcb then Err(InvalidField)
    else
      var timestamp :- Take(marker.rest, 8);
      if !Finite(timestamp.value) then Err(InvalidField) else Ok(timestamp)
  }

  /** The four or five values of a payload, after its array head. */
  function DecodeValues(input: Bytes, stamped: bool): (r: Result<Read<Decoded>>)
    ensures r.Ok? ==> |r.value.value.title| < LIMIT && |r.value.value.content| < LIMIT
    ensures r.Ok? ==> |r.value.value.timestamp| == 8
  {
    var timestamp :- ReadTimestamp(input);
    var title :- ReadBinary(timestamp.rest);
    BinaryBounded(timestamp.rest);
    var content :- ReadBinary(title.rest);
    BinaryBounded(title.rest);
    var fields :- ReadFieldsMap(content.rest);
    var stamp :- ReadStamp(fields.rest, stamped);
    Ok(Read(Decoded(timestamp.value, title.value, content.value, fields.value, stamp.value), stamp.rest))
  }

  /** The payload in front of an input, and what follows it. */
  function DecodeFront(input: Bytes): (r: Result<Read<Decoded>>)
    ensures r.Ok? ==> |r.value.value.title| < LIMIT && |r.value.value.content| < LIMIT
    ensures r.Ok? ==> |r.value.value.timestamp| == 8
  {
    var length :- ReadCollectionLen(input, 0x90, 0xdc, 0xdd);
    if length.value != 4 && length.value != 5 then Err(InvalidField)
    else DecodeValues(length.rest, length.value == 5)
  }

  function DecodePayload(payload: Bytes): (r: Result<Decoded>)
    ensures r.Ok? ==> |r.value.title| < LIMIT && |r.value.content| < LIMIT && |r.value.timestamp| == 8
  {
    var front :- DecodeFront(payload);
    if front.rest != [] then Err(InvalidField) else Ok(front.value)
  }

  function Unpack(c: Suite, bytes: Bytes): Result<Message> {
    if |bytes| < HEADER_LENGTH then Err(Truncated)
    else
      var destination, source, signature := bytes[..16], bytes[16..32], bytes[32..96];
      var d :- DecodePayload(bytes[96..]);
      var hash := c.sha(HashedPart(destination, source, EncodePayload(d.timestamp, d.title, d.content, d.fields)));
      Ok(Message(destination, source, d.timestamp, d.title, d.content, d.fields, d.stamp, signature, hash))
  }

  // ------------------------------------------------------------------ the code

  lemma WireIs(m: Message)
    requires Short(m)
    ensures WirePayload(m)
            == ArrayHead(if m.stamp.None? then 4 else 5) + [0xcb] + m.timestamp + Bin(m.title) + Bin(m.content)
               + m.fields + if m.stamp.Some? then Bin(m.stamp.value) else []
  {
    hide ArrayHead, Bin;
    var t := [0xcb] + m.timestamp + Bin(m.title) + Bin(m.content) + m.fields;
    match m.stamp {
      case None =>
        assert [0xcb] + (m.timestamp + (Bin(m.title) + (Bin(m.content) + m.fields))) == t;
      case Some(stamp) =>
        assert [0xcb] + (m.timestamp + (Bin(m.title) + (Bin(m.content) + (m.fields + Bin(stamp))))) == t + Bin(stamp);
    }
  }

  method PackBytes(m: Message) returns (packed: Bytes)
    requires Short(m)
    ensures packed == Pack(m)
  {
    hide WirePayload, ArrayHead, Bin;
    WireIs(m);
    var payload := ArrayHead(if m.stamp.None? then 4 else 5);
    payload := payload + [0xcb] + m.timestamp;
    payload := payload + Bin(m.title);
    payload := payload + Bin(m.content);
    payload := payload + m.fields;
    if m.stamp.Some? {
      payload := payload + Bin(m.stamp.value);
    }
    packed := m.destination;
    packed := packed + m.source;
    packed := packed + m.signature;
    packed := packed + payload;
  }

  /** The cursor walk over a payload. */
  method Decode(payload: Bytes) returns (r: Result<Decoded>)
    ensures r == DecodePayload(payload)
  {
    hide ReadCollectionLen, DecodeValues;
    var cursor := new Cursor(payload);
    assert cursor.Rest() == payload;
    var length := NextCollectionLen(cursor);
    if length.Err? {
      return Err(length.error);
    }
    if length.value != 4 && length.value != 5 {
      return Err(InvalidField);
    }
    r := NextValues(cursor, length.value == 5);
    if r.Ok? && cursor.position != |payload| {
      assert cursor.Rest() != [];
      r := Err(InvalidField);
    }
  }

  method NextValues(cursor: Cursor, stamped: bool) returns (r: Result<Decoded>)
    requires cursor.Valid()
    modifies cursor
    ensures cursor.Valid()
    ensures var was := DecodeValues(old(cursor.Rest()), stamped);
            if r.Ok? then was == Ok(Read(r.value, cursor.Rest())) else was.Err? && was.error == r.error
  {
    hide ReadBinary, ReadTimestamp, ReadFieldsMap, ReadStamp;
    var timestamp := NextTimestamp(cursor);
    if timestamp.Err? {
      return Err(timestamp.error);
    }
    var title := cursor.NextBinary();
    if title.Err? {
      return Err(title.error);
    }
    var content := cursor.NextBinary();
    if content.Err? {
      return Err(content.error);
    }
    var fields := NextFields(cursor);
    if fields.Err? {
      return Err(fields.error);
    }
    var stamp := NextStamp(cursor, stamped);
    if stamp.Err? {
      return Err(stamp.error);
    }
    r := Ok(Decoded(timestamp.value, title.value, content.value, fields.value, stamp.value));
  }

  method UnpackBytes(c: Suite, bytes: Bytes) returns (r: Result<Message>)
    ensures r == Unpack(c, bytes)
  {
    hide DecodePayload, EncodePayload;
    if |bytes| < HEADER_LENGTH {
      return Err(Truncated);
    }
    var decoded := Decode(bytes[HEADER_LENGTH..]);
    if decoded.Err? {
      return Err(decoded.error);
    }
    var d := decoded.value;
    var payload := EncodePayload(d.timestamp, d.title, d.content, d.fields);
    var hash := c.sha(HashedPart(bytes[..16], bytes[16..32], payload));
    r := Ok(Message(bytes[..16], bytes[16..32], d.timestamp, d.title, d.content, d.fields, d.stamp, bytes[32..96], hash));
  }

  method NextCollectionLen(cursor: Cursor) returns (r: Result<nat>)
    requires cursor.Valid()
    modifies cursor
    ensures cursor.Valid()
    ensures var was := ReadCollectionLen(old(cursor.Rest()), 0x90, 0xdc, 0xdd);
            if r.Ok? then was == Ok(Read(r.value, cursor.Rest())) else was.Err? && was.error == r.error
  {
    hide ReadUint;
    var marker := cursor.NextByte();
    if marker.Err? {
      return Err(marker.error);
    }
    if marker.value / 16 * 16 == 0x90 {
      r := Ok(marker.value % 16);
    } else if marker.value == 0xdc {
      r := cursor.NextUint(2);
    } else if marker.value == 0xdd {
      r := cursor.NextUint(4);
    } else {
      r := Err(InvalidField);
    }
  }

  method NextTimestamp(cursor: Cursor) returns (r: Result<Bytes>)
    requires cursor.Valid()
    modifies cursor
    ensures cursor.Valid()
    ensures var was := ReadTimestamp(old(cursor.Rest()));
            if r.Ok? then was == Ok(Read(r.value, cursor.Rest())) else was.Err? && was.error == r.error
  {
    var marker := cursor.NextByte();
    if marker.Err? {
      return Err(marker.error);
    }
    if marker.value != 0xcb {
      return Err(InvalidField);
    }
    r := cursor.Next(8);
    if r.Ok? && !Finite(r.value) {
      r := Err(InvalidField);
    }
  }

  method NextFields(cursor: Cursor) returns (r: Result<Bytes>)
    requires cursor.Valid()
    modifies cursor
    ensures cursor.Valid()
    ensures var was := ReadFieldsMap(old(cursor.Rest()));
            if r.Ok? then was == Ok(Read(r.value, cursor.Rest())) else was.Err? && was.error == r.error
  {
    hide Skip;
    var start := cursor.position;
    if start >= |cursor.input| || !IsMap(cursor.input[start]) {
      return Err(InvalidField);
    }
    var skipped := cursor.SkipValue(0);
    if skipped.Err? {
      return Err(skipped.error);
    }
    r := Ok(cursor.input[start..cursor.position]);
    assert cursor.input[start..][..cursor.position - start] == cursor.input[start..cursor.position];
  }

  method NextStamp(cursor: Cursor, present: bool) returns (r: Result<Option<Bytes>>)
    requires cursor.Valid()
    modifies cursor
    ensures cursor.Valid()
    ensures var was := ReadStamp(old(cursor.Rest()), present);
            if r.Ok? then was == Ok(Read(r.value, cursor.Rest())) else was.Err? && was.error == r.error
  {
    hide ReadBinary;
    if !present {
      return Ok(None);
    }
    var stamp := cursor.NextBinary();
    if stamp.Err? {
      return Err(stamp.error);
    }
    if |stamp.value| != 16 && |stamp.value| != 32 {
      return Err(InvalidField);
    }
    r := Ok(Some(stamp.value));
  }
}
