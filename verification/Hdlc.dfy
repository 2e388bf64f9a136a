/** HDLC framing, and the TCP reader that reassembles frames from arbitrary chunks. */
module Hdlc {
  import opened Base

  const FLAG: Byte := 0x7E
  const ESC: Byte := 0x7D

  /** Exclusive or with 0x20: bit 5 toggled. */
  function Toggle(b: Byte): (r: Byte)
    ensures r / 64 == b / 64 && r % 32 == b % 32 && r != b
  {
    if b / 32 % 2 == 1 then b - 32 else b + 32
  }

  /** The bytes one byte becomes. */
  function Stuffed(b: Byte): Bytes {
    if b == FLAG || b == ESC then [ESC, Toggle(b)] else [b]
  }

  function Stuff(data: Bytes): Bytes {
    if data == [] then [] else Stuffed(data[0]) + Stuff(data[1..])
  }

  function Frame(data: Bytes): Bytes {
    [FLAG] + Stuff(data) + [FLAG]
  }

  function Before(b: Byte, rest: Option<Bytes>): Option<Bytes> {
    if rest.None? then None else Some([b] + rest.value)
  }

  function Unstuff(escaped: bool, body: Bytes): Option<Bytes>
    decreases |body|
  {
    if body == [] then (if escaped then None else Some([]))
    else if escaped then Before(Toggle(body[0]), Unstuff(false, body[1..]))
    else if body[0] == ESC then Unstuff(true, body[1..])
    else if body[0] == FLAG then None
    else Before(body[0], Unstuff(false, body[1..]))
  }

  function Deframe(framed: Bytes): Option<Bytes> {
    if |framed| < 2 || framed[0] != FLAG || framed[|framed| - 1] != FLAG then None
    else Unstuff(false, framed[1..|framed| - 1])
  }

  lemma {:induction false} UnstuffStuff(data: Bytes)
    ensures Unstuff(false, Stuff(data)) == Some(data)
    ensures FLAG !in Stuff(data) && |Stuff(data)| >= |data|
  {
    if data != [] {
      UnstuffStuff(data[1..]);
      var rest, body := Stuff(data[1..]), Stuff(data);
      assert data == [data[0]] + data[1..];
      if data[0] == FLAG || data[0] == ESC {
        assert body[0] == ESC && body[1..][0] == body[1] && body[1..][1..] == rest;
        assert Toggle(Toggle(data[0])) == data[0];
      } else {
        assert body[1..] == rest;
      }
    }
  }

  lemma DeframeFrame(data: Bytes)
    ensures Deframe(Frame(data)) == Some(data)
  {
    UnstuffStuff(data);
    var framed := Frame(data);
    assert framed[1..|framed| - 1] == Stuff(data);
    hide Stuff;
  }

  lemma StuffFirst(data: Bytes)
    ensures Stuff([]) == []
    ensures data != [] ==> Stuff(data) == Stuffed(data[0]) + Stuff(data[1..])
  {
  }

  lemma {:induction false} StuffAppend(a: Bytes, b: Byte)
    ensures Stuff(a + [b]) == Stuff(a) + Stuffed(b)
    decreases |a|
  {
    hide Stuff, Stuffed;
    StuffFirst(a);
    StuffFirst(a + [b]);
    if a == [] {
      assert (a + [b])[1..] == [];
    } else {
      StuffAppend(a[1..], b);
      assert (a + [b])[1..] == a[1..] + [b];
    }
  }

  method FrameBytes(data: Bytes) returns (out: Bytes)
    ensures out == Frame(data)
  {
    hide Stuff;
    out := [FLAG];
    var i := 0;
    StuffFirst([]);
    while i < |data|
      invariant 0 <= i <= |data|
      invariant out == [FLAG] + Stuff(data[..i])
    {
      StuffAppend(data[..i], data[i]);
      assert data[..i + 1] == data[..i] + [data[i]];
      if data[i] == FLAG || data[i] == ESC {
        out := out + [ESC];
        out := out + [Toggle(data[i])];
      } else {
        out := out + [data[i]];
      }
      i := i + 1;
    }
    assert data[..i] == data;
    out := out + [FLAG];
  }

  /** Puts the bytes decoded so far before the rest. */
  function Prefixed(out: Bytes, rest: Option<Bytes>): Option<Bytes> {
    if rest.None? then None else Some(out + rest.value)
  }

  lemma PrefixedBefore(out: Bytes, b: Byte, rest: Option<Bytes>)
    ensures Prefixed(out, Before(b, rest)) == Prefixed(out + [b], rest)
    ensures Prefixed([], rest) == rest
  {
    if rest.Some? {
      assert out + ([b] + rest.value) == out + [b] + rest.value;
      assert [] + rest.value == rest.value;
    }
  }

  method DeframeBytes(framed: Bytes) returns (r: Option<Bytes>)
    ensures r == Deframe(framed)
  {
    if |framed| < 2 || framed[0] != FLAG || framed[|framed| - 1] != FLAG {
      return None;
    }
    var body := framed[1..|framed| - 1];
    var out: Bytes := [];
    var esc := false;
    var i := 0;
    assert body[0..] == body;
    PrefixedBefore([], 0, Unstuff(false, body));
    while i < |body|
      invariant 0 <= i <= |body|
      invariant Unstuff(false, body) == Prefixed(out, Unstuff(esc, body[i..]))
    {
      var b := body[i];
      assert body[i..][0] == b && body[i..][1..] == body[i + 1..];
      if esc {
        PrefixedBefore(out, Toggle(b), Unstuff(false, body[i + 1..]));
        out := out + [Toggle(b)];
        esc := false;
      } else if b == ESC {
        esc := true;
      } else if b == FLAG {
        return None;
      } else {
        PrefixedBefore(out, b, Unstuff(false, body[i + 1..]));
        out := out + [b];
      }
      i := i + 1;
    }
    assert body[i..] == [];
    assert out + [] == out;
    r := if esc then None else Some(out);
  }
}

/** Frames over a byte stream that arrives in arbitrary chunks. */
module TcpReader {
  import opened Base
  import opened Hdlc

  const READ_CHUNK: nat := 4096
  const MAX_BUFFER: nat := 512 * 1024

  /** The first flag, or the length. */
  function FlagIndex(b: Bytes): (i: nat)
    ensures i <= |b| && FLAG !in b[..i] && (i < |b| ==> b[i] == FLAG)
  {
    if b == [] || b[0] == FLAG then 0 else 1 + FlagIndex(b[1..])
  }

  /** The next packet in the buffer, if any, and the buffer left: malformed and empty frames are skipped,
      the closing flag is kept as the opening one of the next frame. */
  function TakePacket(buffer: Bytes): (r: (Bytes, Option<Bytes>))
    ensures r.1.Some? ==> |r.0| < |buffer|
    decreases |buffer|
  {
    var start := FlagIndex(buffer);
    if start == |buffer| then (buffer, None)
    else
      var aligned := buffer[start..];
      var end := 1 + FlagIndex(aligned[1..]);
      if end == |aligned| then (aligned, None)
      else
        var framed, left := aligned[..end + 1], aligned[end..];
        if |framed| == 2 then TakePacket(left)
        else
          match Deframe(framed)
          case Some(packet) => (left, Some(packet))
          case None => TakePacket(left)
  }

  function Extend(buffer: Bytes, chunk: Bytes): Bytes {
    if |buffer + chunk| > MAX_BUFFER then [] else buffer + chunk
  }

  /** One receive call on a stream that will deliver `chunks` and then end: the packet, the buffer, and the
      chunks not read yet. */
  function Receive(buffer: Bytes, chunks: seq<Bytes>): (r: (Bytes, seq<Bytes>, Option<Bytes>))
    ensures |r.1| <= |chunks|
    decreases |chunks|
  {
    var (left, packet) := TakePacket(buffer);
    if packet.Some? || chunks == [] then (left, chunks, packet)
    else Receive(Extend(left, chunks[0]), chunks[1..])
  }

  /** The reader of one connection.  The stream itself is a list of chunks. */
  class TcpClientInterface {
    var readBuffer: Bytes

    constructor ()
      ensures readBuffer == []
    {
      readBuffer := [];
    }

    method TakeNext() returns (packet: Option<Bytes>)
      modifies this
      ensures (readBuffer, packet) == TakePacket(old(readBuffer))
    {
      while true
        invariant TakePacket(readBuffer) == TakePacket(old(readBuffer))
        decreases |readBuffer|
      {
        hide FlagIndex, Deframe;
        TakeUnfolds(readBuffer);
        var start := FlagIndex(readBuffer);
        if start == |readBuffer| {
          return None;
        }
        readBuffer := readBuffer[start..];
        var offset := FlagIndex(readBuffer[1..]);
        if offset == |readBuffer[1..]| {
          return None;
        }
        var end := offset + 1;
        var framed := readBuffer[..end + 1];
        readBuffer := readBuffer[end..];
        if |framed| == 2 {
          continue;
        }
        packet := DeframeBytes(framed);
        if packet.Some? {
          return;
        }
      }
    }

    method RecvPacket(chunks: seq<Bytes>) returns (packet: Option<Bytes>, unread: seq<Bytes>)
      modifies this
      ensures (readBuffer, unread, packet) == Receive(old(readBuffer), chunks)
    {
      unread := chunks;
      while true
        invariant Receive(readBuffer, unread) == Receive(old(readBuffer), chunks)
        decreases |unread|
      {
        packet := TakeNext();
        if packet.Some? || unread == [] {
          return;
        }
        readBuffer := readBuffer + unread[0];
        unread := unread[1..];
        if |readBuffer| > MAX_BUFFER {
          readBuffer := [];
        }
      }
    }
  }

  /** One turn of the loop. */
  lemma TakeUnfolds(buffer: Bytes)
    ensures FlagIndex(buffer) == |buffer| ==> TakePacket(buffer) == (buffer, None)
    ensures FlagIndex(buffer) < |buffer| ==>
              var aligned := buffer[FlagIndex(buffer)..];
              var end := 1 + FlagIndex(aligned[1..]);
              TakePacket(buffer)
              == if end == |aligned| then (aligned, None)
                 else if |aligned[..end + 1]| == 2 then TakePacket(aligned[end..])
                 else match Deframe(aligned[..end + 1])
                   case Some(packet) => (aligned[end..], Some(packet))
                   case None => TakePacket(aligned[end..])
  {
    hide FlagIndex, Deframe;
  }

  // ------------------------------------------------------------------ every packet, whatever the chunks

  /** All packets received until the stream ends. */
  function ReceiveAll(buffer: Bytes, chunks: seq<Bytes>): seq<Bytes>
    decreases |chunks|, |buffer|
  {
    var (left, packet) := TakePacket(buffer);
    if packet.Some? then [packet.value] + ReceiveAll(left, chunks)
    else if chunks == [] then []
    else ReceiveAll(Extend(left, chunks[0]), chunks[1..])
  }

  function Frames(packets: seq<Bytes>): Bytes {
    if packets == [] then [] else Frame(packets[0]) + Frames(packets[1..])
  }

  function Concat(chunks: seq<Bytes>): Bytes {
    if chunks == [] then [] else chunks[0] + Concat(chunks[1..])
  }

  /** What is still to come, buffered or not: the frames of `packets`, perhaps after a kept closing flag. */
  predicate Upcoming(stream: Bytes, packets: seq<Bytes>) {
    stream == Frames(packets) || stream == [FLAG] + Frames(packets)
  }

  predicate Sendable(packets: seq<Bytes>) {
    forall p | p in packets :: p != [] && |Frame(p)| + READ_CHUNK <= MAX_BUFFER
  }

  lemma {:induction false} FlagIndexIs(b: Bytes, i: nat)
    requires i <= |b| && FLAG !in b[..i] && (i < |b| ==> b[i] == FLAG)
    ensures FlagIndex(b) == i
  {
    hide FlagIndex;
    var j := FlagIndex(b);
    NotBefore(b, i, j);
    NotBefore(b, j, i);
  }

  lemma NotBefore(b: Bytes, end: nat, i: nat)
    ensures i < end <= |b| && FLAG !in b[..end] ==> b[i] != FLAG
  {
    if i < end <= |b| {
      assert b[..end][i] == b[i];
    }
  }

  /** A buffer that starts with a whole frame yields its packet and keeps the closing flag. */
  lemma TakeWhole(p: Bytes, rest: Bytes)
    requires p != []
    ensures TakePacket(Frame(p) + rest) == ([FLAG] + rest, Some(p))
  {
    UnstuffStuff(p);
    DeframeFrame(p);
    hide Stuff, Deframe, Unstuff;
    var buffer := Frame(p) + rest;
    FlagIndexIs(buffer, 0);
    assert buffer[0..] == buffer;
    var tail := buffer[1..];
    assert tail == Stuff(p) + ([FLAG] + rest);
    assert tail[..|Stuff(p)|] == Stuff(p) && tail[|Stuff(p)|] == FLAG;
    FlagIndexIs(tail, |Stuff(p)|);
    assert buffer[..|Stuff(p)| + 2] == Frame(p);
    assert buffer[|Stuff(p)| + 1..] == [FLAG] + rest;
  }

  /** Two flags in a row are one flag. */
  lemma TakeDoubled(rest: Bytes)
    ensures TakePacket([FLAG, FLAG] + rest) == TakePacket([FLAG] + rest)
  {
    hide Deframe;
    var buffer := [FLAG, FLAG] + rest;
    FlagIndexIs(buffer, 0);
    FlagIndexIs(buffer[1..], 0);
    assert buffer[0..] == buffer;
    assert buffer[1..] == [FLAG] + rest;
  }

  /** An incomplete frame yields nothing and stays. */
  lemma TakeIncomplete(body: Bytes)
    requires FLAG !in body
    ensures TakePacket([FLAG] + body) == ([FLAG] + body, None)
    ensures TakePacket([]) == ([], None)
  {
    hide Deframe;
    var buffer := [FLAG] + body;
    FlagIndexIs(buffer, 0);
    assert buffer[0..] == buffer;
    assert buffer[1..] == body && body[..|body|] == body;
    FlagIndexIs(body, |body|);
  }

  /** Taking yields either the next packet, with the rest of the stream still to come, or nothing, and then
      the buffer is shorter than the next frame. */
  predicate Takes(taken: (Bytes, Option<Bytes>), ahead: Bytes, packets: seq<Bytes>) {
    if taken.1.Some? then
      packets != [] && taken.1.value == packets[0] && Upcoming(taken.0 + ahead, packets[1..])
    else
      && Upcoming(taken.0 + ahead, packets)
      && |taken.0| <= (if packets == [] then 1 else |Frame(packets[0])|)
      && (ahead == [] ==> packets == [])
  }

  /** What a buffer that is a prefix of the stream yields. */
  lemma TakeFromPrefix(buffer: Bytes, ahead: Bytes, packets: seq<Bytes>)
    requires Sendable(packets) && Upcoming(buffer + ahead, packets)
    ensures Takes(TakePacket(buffer), ahead, packets)
  {
    hide TakePacket, Frame, Takes;
    if buffer + ahead == Frames(packets) {
      TakeFromFrames(buffer, ahead, packets);
    } else {
      TakeAfterFlag(buffer, ahead, packets);
    }
  }

  lemma TakeAfterFlag(buffer: Bytes, ahead: Bytes, packets: seq<Bytes>)
    requires Sendable(packets) && buffer + ahead == [FLAG] + Frames(packets)
    ensures Takes(TakePacket(buffer), ahead, packets)
  {
    hide TakePacket, Frame;
    var stream := buffer + ahead;
    if |buffer| < 2 {
      assert buffer == [] || buffer == [FLAG] + [] by {
        if buffer != [] { assert buffer[0] == stream[0]; }
      }
      TakeIncomplete([]);
      if packets != [] {
        FrameStarts(packets);
      }
    } else {
      assert packets != [];
      FrameStarts(packets);
      assert buffer[0] == stream[0] && buffer[1] == stream[1];
      assert buffer == [FLAG, FLAG] + buffer[2..];
      TakeDoubled(buffer[2..]);
      var tighter := [FLAG] + buffer[2..];
      assert tighter + ahead == stream[1..] == Frames(packets);
      TakeFromFrames(tighter, ahead, packets);
      hide Takes;
    }
  }

  lemma FrameStarts(packets: seq<Bytes>)
    requires packets != []
    ensures |Frames(packets)| >= |Frame(packets[0])| >= 2 && Frames(packets)[0] == FLAG
  {
  }

  lemma TakeFromFrames(buffer: Bytes, ahead: Bytes, packets: seq<Bytes>)
    requires Sendable(packets) && buffer + ahead == Frames(packets)
    ensures Takes(TakePacket(buffer), ahead, packets)
  {
    hide TakePacket, Frame;
    if packets == [] {
      assert buffer == [];
      TakeIncomplete([]);
    } else if buffer == [] {
      FrameStarts(packets);
      TakeIncomplete([]);
    } else {
      assert packets[0] in packets;
      assert packets == [packets[0]] + packets[1..];
      hide Takes;
      if |buffer| < |Frame(packets[0])| {
        TakeShort(buffer, ahead, packets[0], packets[1..]);
      } else {
        TakeFull(buffer, ahead, packets[0], packets[1..]);
      }
    }
  }

  lemma TakeShort(buffer: Bytes, ahead: Bytes, p: Bytes, later: seq<Bytes>)
    requires buffer != [] && buffer + ahead == Frame(p) + Frames(later) && |buffer| < |Frame(p)|
    ensures Takes(TakePacket(buffer), ahead, [p] + later)
  {
    hide TakePacket, Stuff, Unstuff;
    var stream := buffer + ahead;
    UnstuffStuff(p);
    var body := Stuff(p)[..|buffer| - 1];
    assert buffer == stream[..|buffer|] == Frame(p)[..|buffer|] == [FLAG] + body;
    TakeIncomplete(body);
    assert ([p] + later)[1..] == later;
  }

  lemma TakeFull(buffer: Bytes, ahead: Bytes, p: Bytes, later: seq<Bytes>)
    requires p != [] && buffer + ahead == Frame(p) + Frames(later) && |buffer| >= |Frame(p)|
    ensures Takes(TakePacket(buffer), ahead, [p] + later)
  {
    hide TakePacket, Frame, Frames;
    var stream, n := buffer + ahead, |Frame(p)|;
    var rest := buffer[n..];
    assert buffer == stream[..|buffer|] == Frame(p) + rest;
    TakeWhole(p, rest);
    assert rest + ahead == stream[n..] == Frames(later);
    assert [FLAG] + rest + ahead == [FLAG] + Frames(later);
    assert ([p] + later)[1..] == later;
  }

  lemma ChunkFits(left: Bytes, chunks: seq<Bytes>, packets: seq<Bytes>)
    requires Sendable(packets) && chunks != [] && 1 <= |chunks[0]| <= READ_CHUNK
    requires Takes((left, None), Concat(chunks), packets)
    ensures Extend(left, chunks[0]) == left + chunks[0]
    ensures Upcoming(left + chunks[0] + Concat(chunks[1..]), packets)
  {
    hide Frame;
    if packets != [] {
      assert packets[0] in packets;
    }
    assert left + chunks[0] + Concat(chunks[1..]) == left + Concat(chunks);
  }

  /** Whatever the chunks, exactly the packets sent come out, in order. */
  lemma {:induction false} Reassembles(buffer: Bytes, chunks: seq<Bytes>, packets: seq<Bytes>)
    requires Sendable(packets) && Upcoming(buffer + Concat(chunks), packets)
    requires forall k | k in chunks :: 1 <= |k| <= READ_CHUNK
    ensures ReceiveAll(buffer, chunks) == packets
    decreases |chunks|, |buffer|
  {
    hide TakePacket, Frame, Upcoming, Extend, Concat;
    TakeFromPrefix(buffer, Concat(chunks), packets);
    var (left, packet) := TakePacket(buffer);
    if packet.Some? {
      Reassembles(left, chunks, packets[1..]);
      assert packets == [packets[0]] + packets[1..];
    } else if chunks != [] {
      assert chunks[0] in chunks;
      ChunkFits(left, chunks, packets);
      Reassembles(left + chunks[0], chunks[1..], packets);
    } else {
      NothingAhead(chunks);
    }
  }

  lemma NothingAhead(chunks: seq<Bytes>)
    requires chunks == []
    ensures Concat(chunks) == []
  {
  }

  /** The reader on any chunking of a row of frames of non-empty packets that leave room for one read. */
  lemma ReaderIsExact(chunks: seq<Bytes>, packets: seq<Bytes>)
    requires Sendable(packets) && Concat(chunks) == Frames(packets)
    requires forall k | k in chunks :: 1 <= |k| <= READ_CHUNK
    ensures ReceiveAll([], chunks) == packets
  {
    assert [] + Concat(chunks) == Concat(chunks);
    Reassembles([], chunks, packets);
  }

  /** Receiving until the stream ends, call by call, yields the same packets. */
  lemma ReceiveAllIsReceive(buffer: Bytes, chunks: seq<Bytes>)
    ensures var (left, unread, packet) := Receive(buffer, chunks);
            ReceiveAll(buffer, chunks) == if packet.Some? then [packet.value] + ReceiveAll(left, unread) else []
    decreases |chunks|
  {
    var (left, packet) := TakePacket(buffer);
    hide TakePacket, Extend;
    if packet.None? && chunks != [] {
      ReceiveAllIsReceive(Extend(left, chunks[0]), chunks[1..]);
    }
  }
}
