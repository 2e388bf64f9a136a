/** KISS framing, batch and byte by byte. */
module Kiss {
  import opened Base

  const FEND: Byte := 0xC0
  const FESC: Byte := 0xDB
  const TFEND: Byte := 0xDC
  const TFESC: Byte := 0xDD
  const CMD_DATA: Byte := 0x00

  function Escape(data: Bytes): Bytes {
    if data == [] then []
    else
      (if data[0] == FEND then [FESC, TFEND] else if data[0] == FESC then [FESC, TFESC] else [data[0]])
      + Escape(data[1..])
  }

  function Frame(data: Bytes): Bytes {
    [FEND, CMD_DATA] + Escape(data) + [FEND]
  }

  /** Puts `b` before an unescaped rest, if there is one. */
  function Before(b: Bytes, rest: Option<Bytes>): Option<Bytes> {
    if rest.None? then None else Some(b + rest.value)
  }

  /** The data bytes of a frame body; `escaped` says whether an escape byte came just before. */
  function Unescape(escaped: bool, body: Bytes): Option<Bytes>
    decreases |body|
  {
    if body == [] then (if escaped then None else Some([]))
    else if escaped then
      if body[0] == TFEND then Before([FEND], Unescape(false, body[1..]))
      else if body[0] == TFESC then Before([FESC], Unescape(false, body[1..]))
      else None
    else if body[0] == FESC then Unescape(true, body[1..])
    else if body[0] == FEND then None
    else Before([body[0]], Unescape(false, body[1..]))
  }

  function Deframe(framed: Bytes): Option<Bytes> {
    if |framed| < 3 || framed[0] != FEND || framed[|framed| - 1] != FEND then None
    else if framed[1] % 16 != CMD_DATA then None
    else Unescape(false, framed[2..|framed| - 1])
  }

  // ------------------------------------------------------------------ the loops of the code

  lemma {:induction false} EscapeAppend(a: Bytes, b: Byte)
    ensures Escape(a + [b]) == Escape(a) + Escape([b])
    decreases |a|
  {
    if a == [] {
      assert a + [b] == [b];
    } else {
      EscapeAppend(a[1..], b);
      assert (a + [b])[1..] == a[1..] + [b];
    }
  }

  method FrameBytes(data: Bytes) returns (out: Bytes)
    ensures out == Frame(data)
  {
    out := [FEND];
    out := out + [CMD_DATA];
    var i := 0;
    while i < |data|
      invariant 0 <= i <= |data|
      invariant out == [FEND, CMD_DATA] + Escape(data[..i])
    {
      EscapeAppend(data[..i], data[i]);
      assert data[..i + 1] == data[..i] + [data[i]];
      assert Escape([data[i]][1..]) == [];
      if data[i] == FEND {
        out := out + [FESC, TFEND];
      } else if data[i] == FESC {
        out := out + [FESC, TFESC];
      } else {
        out := out + [data[i]];
      }
      i := i + 1;
    }
    assert data[..i] == data;
    out := out + [FEND];
  }

  method DeframeBytes(framed: Bytes) returns (r: Option<Bytes>)
    ensures r == Deframe(framed)
  {
    if |framed| < 3 || framed[0] != FEND || framed[|framed| - 1] != FEND {
      return None;
    }
    if framed[1] % 16 != CMD_DATA {
      return None;
    }
    var body := framed[2..|framed| - 1];
    var out: Bytes := [];
    var escaped := false;
    var i := 0;
    assert body[0..] == body;
    BeforeNothing(Unescape(false, body));
    while i < |body|
      invariant 0 <= i <= |body|
      invariant Unescape(false, body) == Before(out, Unescape(escaped, body[i..]))
    {
      var byte := body[i];
      assert body[i..][0] == byte && body[i..][1..] == body[i + 1..];
      if escaped {
        if byte == TFEND {
          BeforeBefore(out, [FEND], Unescape(false, body[i + 1..]));
          out := out + [FEND];
        } else if byte == TFESC {
          BeforeBefore(out, [FESC], Unescape(false, body[i + 1..]));
          out := out + [FESC];
        } else {
          return None;
        }
        escaped := false;
      } else {
        if byte == FESC {
          escaped := true;
        } else if byte == FEND {
          return None;
        } else {
          BeforeBefore(out, [byte], Unescape(false, body[i + 1..]));
          out := out + [byte];
        }
      }
      i := i + 1;
    }
    assert body[i..] == [];
    assert out + [] == out;
    r := if escaped then None else Some(out);
  }

  lemma BeforeNothing(rest: Option<Bytes>)
    ensures Before([], rest) == rest
  {
    if rest.Some? {
      assert [] + rest.value == rest.value;
    }
  }

  lemma BeforeBefore(a: Bytes, b: Bytes, rest: Option<Bytes>)
    ensures Before(a, Before(b, rest)) == Before(a + b, rest)
  {
    if rest.Some? {
      assert a + (b + rest.value) == a + b + rest.value;
    }
  }

  // ------------------------------------------------------------------ framing is exact

  lemma {:induction false} UnescapeEscape(data: Bytes)
    ensures Unescape(false, Escape(data)) == Some(data)
    ensures FEND !in Escape(data)
  {
    if data != [] {
      UnescapeEscape(data[1..]);
      var rest := Escape(data[1..]);
      var body := Escape(data);
      assert data == [data[0]] + data[1..];
      if data[0] == FEND || data[0] == FESC {
        assert body[0] == FESC && body[1..][0] == body[1] && body[1..][1..] == rest;
      } else {
        assert body[1..] == rest;
      }
    }
  }

  lemma {:induction false} EscapeUnescape(escaped: bool, body: Bytes)
    ensures Unescape(escaped, body).Some? ==>
              Escape(Unescape(escaped, body).value) == (if escaped then [FESC] else []) + body
    decreases |body|
  {
    if body != [] {
      var next := !escaped && body[0] == FESC;
      EscapeUnescape(next, body[1..]);
      var r := Unescape(escaped, body);
      if r.Some? {
        var rest := Unescape(next, body[1..]);
        assert rest.Some?;
        if escaped {
          assert r.value[1..] == rest.value;
          assert [FESC] + body == [FESC, body[0]] + body[1..];
        } else if next {
          assert [FESC] + body[1..] == body;
        } else {
          assert r.value[1..] == rest.value;
          assert body == [body[0]] + body[1..];
        }
      }
    }
  }

  /** A byte string deframes to `data` exactly if it is the frame of `data`, up to the port in the high
      half of the command byte. */
  lemma DeframeExactly(framed: Bytes, data: Bytes)
    ensures Deframe(framed) == Some(data)
       <==> |framed| >= 3 && framed[1] % 16 == CMD_DATA && framed == [FEND, framed[1]] + Escape(data) + [FEND]
  {
    if |framed| >= 3 && framed[0] == FEND && framed[|framed| - 1] == FEND && framed[1] % 16 == CMD_DATA {
      var body := framed[2..|framed| - 1];
      assert framed == [FEND, framed[1]] + body + [FEND];
      EscapeUnescape(false, body);
      UnescapeEscape(data);
      if framed == [FEND, framed[1]] + Escape(data) + [FEND] {
        assert body == Escape(data);
      }
    }
  }

  lemma DeframeFrame(data: Bytes)
    ensures Deframe(Frame(data)) == Some(data)
  {
    DeframeExactly(Frame(data), data);
    hide Escape, Deframe;
  }
}

/** The incremental decoder of the serial interface. */
module KissStream {
  import opened Base
  import opened Kiss

  datatype State = State(packet: Bytes, inFrame: bool, hasCommand: bool, escaped: bool, invalid: bool)

  const INITIAL: State := State([], false, false, false, false)

  /** One byte from the line: the next state and the packet it completes. */
  function Step(s: State, max: nat, byte: Byte): (State, Option<Bytes>) {
    if byte == FEND then
      (State([], true, false, false, false),
       if s.inFrame && s.hasCommand && !s.escaped && !s.invalid && s.packet != [] then Some(s.packet) else None)
    else if !s.inFrame || s.invalid then (s, None)
    else if !s.hasCommand then (s.(hasCommand := true, invalid := byte % 16 != CMD_DATA), None)
    else if s.escaped then
      if byte == TFEND then (Append(s.(escaped := false), max, FEND), None)
      else if byte == TFESC then (Append(s.(escaped := false), max, FESC), None)
      else (s.(escaped := false, invalid := true), None)
    else if byte == FESC then (s.(escaped := true), None)
    else (Append(s, max, byte), None)
  }

  function Append(s: State, max: nat, byte: Byte): State {
    if |s.packet| == max then s.(packet := [], invalid := true) else s.(packet := s.packet + [byte])
  }

  /** A decoder with its bounded buffer, fed one byte at a time. */
  class KissStreamDecoder {
    var packet: Bytes
    const maxPacketLen: nat
    var inFrame: bool
    var hasCommand: bool
    var escaped: bool
    var invalid: bool

    function View(): State
      reads this
    {
      State(packet, inFrame, hasCommand, escaped, invalid)
    }

    constructor (max: nat)
      ensures View() == INITIAL && maxPacketLen == max
    {
      packet := [];
      maxPacketLen := max;
      inFrame, hasCommand, escaped, invalid := false, false, false, false;
    }

    method Push(byte: Byte) returns (complete: Option<Bytes>)
      modifies this
      ensures (View(), complete) == Step(old(View()), maxPacketLen, byte)
      ensures old(|packet|) <= maxPacketLen ==> |packet| <= maxPacketLen
    {
      if byte == FEND {
        if inFrame && hasCommand && !escaped && !invalid && packet != [] {
          complete := Some(packet);
        } else {
          complete := None;
        }
        packet := [];
        inFrame := true;
        hasCommand := false;
        escaped := false;
        invalid := false;
        return;
      }
      complete := None;
      if !inFrame || invalid {
        return;
      }
      if !hasCommand {
        hasCommand := true;
        invalid := byte % 16 != CMD_DATA;
        return;
      }
      var decoded: Byte := byte;
      if escaped {
        escaped := false;
        if byte == TFEND {
          decoded := FEND;
        } else if byte == TFESC {
          decoded := FESC;
        } else {
          invalid := true;
          return;
        }
      } else if byte == FESC {
        escaped := true;
        return;
      }
      if |packet| == maxPacketLen {
        packet := [];
        invalid := true;
      } else {
        packet := packet + [decoded];
      }
    }

    /** Feeds a row of bytes, as the serial pump does. */
    method PushAll(bytes: Bytes) returns (packets: seq<Bytes>)
      modifies this
      ensures (View(), packets) == Feed(old(View()), maxPacketLen, bytes)
    {
      packets := [];
      var i := 0;
      while i < |bytes|
        invariant 0 <= i <= |bytes|
        invariant (View(), packets) == Feed(old(View()), maxPacketLen, bytes[..i])
      {
        var complete := Push(bytes[i]);
        FeedLast(old(View()), maxPacketLen, bytes[..i], bytes[i]);
        assert bytes[..i + 1] == bytes[..i] + [bytes[i]];
        if complete.Some? {
          packets := packets + [complete.value];
        }
        i := i + 1;
      }
      assert bytes[..i] == bytes;
    }
  }

  /** What a row of bytes does to the decoder, and the packets it emits. */
  function Feed(s: State, max: nat, bytes: Bytes): (State, seq<Bytes>)
    decreases |bytes|
  {
    if bytes == [] then (s, [])
    else
      var before := Feed(s, max, bytes[..|bytes| - 1]);
      var last := Step(before.0, max, bytes[|bytes| - 1]);
      (last.0, before.1 + Emit(last.1))
  }

  function Emit(packet: Option<Bytes>): seq<Bytes> {
    if packet.Some? then [packet.value] else []
  }

  lemma FeedLast(s: State, max: nat, bytes: Bytes, byte: Byte)
    ensures var before := Feed(s, max, bytes);
            var last := Step(before.0, max, byte);
            Feed(s, max, bytes + [byte])
            == (last.0, if last.1.Some? then before.1 + [last.1.value] else before.1)
  {
    var all := bytes + [byte];
    assert all[..|all| - 1] == bytes;
    assert Feed(s, max, bytes).1 + [] == Feed(s, max, bytes).1;
    hide Step;
  }

  lemma {:induction false} FeedAppend(s: State, max: nat, a: Bytes, b: Bytes)
    ensures Feed(s, max, a + b)
            == (Feed(Feed(s, max, a).0, max, b).0, Feed(s, max, a).1 + Feed(Feed(s, max, a).0, max, b).1)
    decreases |b|
  {
    hide Step, Emit;
    var mid := Feed(s, max, a);
    if b == [] {
      assert a + b == a;
      assert mid.1 + [] == mid.1;
    } else {
      FeedAppend(s, max, a, b[..|b| - 1]);
      assert (a + b)[..|a + b| - 1] == a + b[..|b| - 1];
      var before := Feed(mid.0, max, b[..|b| - 1]);
      var last := Emit(Step(before.0, max, b[|b| - 1]).1);
      assert mid.1 + before.1 + last == mid.1 + (before.1 + last);
    }
  }

  lemma FeedOne(s: State, max: nat, byte: Byte)
    ensures Feed(s, max, [byte]) == (Step(s, max, byte).0, Emit(Step(s, max, byte).1))
  {
    hide Step, Emit;
    assert [byte][..0] == [];
    assert Feed(s, max, []) == (s, []);
    assert [] + Emit(Step(s, max, byte).1) == Emit(Step(s, max, byte).1);
  }

  lemma FeedFirst(s: State, max: nat, byte: Byte, rest: Bytes)
    ensures Feed(s, max, [byte] + rest)
            == (Feed(Step(s, max, byte).0, max, rest).0,
                Emit(Step(s, max, byte).1) + Feed(Step(s, max, byte).0, max, rest).1)
    ensures Step(s, max, byte).1.None? ==> Feed(s, max, [byte] + rest) == Feed(Step(s, max, byte).0, max, rest)
  {
    hide Step, Feed;
    FeedOne(s, max, byte);
    FeedAppend(s, max, [byte], rest);
    var after := Feed(Step(s, max, byte).0, max, rest);
    assert [] + after.1 == after.1;
  }

  /** What one delimiter-free body between two delimiters is worth. */
  function Accepted(body: Bytes, max: nat): seq<Bytes> {
    var p := Deframe([FEND] + body + [FEND]);
    if p.Some? && 1 <= |p.value| <= max then [p.value] else []
  }

  const OPENED: State := State([], true, false, false, false)

  lemma {:induction false} InvalidEmitsNothing(s: State, max: nat, body: Bytes)
    requires s.inFrame && s.invalid && FEND !in body
    ensures Feed(s, max, body + [FEND]) == (OPENED, [])
    decreases |body|
  {
    hide Feed;
    if body == [] {
      FeedOne(s, max, FEND);
      assert body + [FEND] == [FEND];
    } else {
      InvalidEmitsNothing(s, max, body[1..]);
      FeedFirst(s, max, body[0], body[1..] + [FEND]);
      assert body + [FEND] == [body[0]] + (body[1..] + [FEND]);
    }
  }

  /** Inside a data frame: the buffered bytes followed by what is still to be unescaped. */
  function Outcome(packet: Bytes, rest: Option<Bytes>, max: nat): seq<Bytes> {
    if rest.Some? && 1 <= |packet + rest.value| <= max then [packet + rest.value] else []
  }

  lemma {:induction false} BodyOutcome(s: State, max: nat, body: Bytes)
    requires s.inFrame && s.hasCommand && !s.invalid && |s.packet| <= max && FEND !in body
    ensures Feed(s, max, body + [FEND]) == (OPENED, Outcome(s.packet, Unescape(s.escaped, body), max))
    decreases |body|
  {
    hide Feed;
    if body == [] {
      FeedOne(s, max, FEND);
      assert body + [FEND] == [FEND];
      assert s.packet + [] == s.packet;
    } else {
      var byte, rest := body[0], body[1..];
      FeedFirst(s, max, byte, rest + [FEND]);
      assert body + [FEND] == [byte] + (rest + [FEND]);
      var s' := Step(s, max, byte).0;
      if s'.invalid {
        InvalidEmitsNothing(s', max, rest);
      } else {
        BodyOutcome(s', max, rest);
      }
      var tail := Unescape(false, rest);
      if tail.Some? && (s.escaped || byte != FESC) {
        var decoded: Byte := if !s.escaped then byte else if byte == TFEND then FEND else FESC;
        assert s.packet + [decoded] + tail.value == s.packet + ([decoded] + tail.value);
      }
    }
  }

  /** Between two delimiters the decoder emits a packet exactly if the batch decoder reads it from that
      frame and it fits, whatever state the decoder was in before. */
  lemma BetweenDelimiters(max: nat, body: Bytes)
    requires FEND !in body
    ensures Feed(OPENED, max, body + [FEND]) == (OPENED, Accepted(body, max))
  {
    hide Feed;
    var framed := [FEND] + body + [FEND];
    if body == [] {
      FeedOne(OPENED, max, FEND);
      assert body + [FEND] == [FEND];
    } else {
      FeedFirst(OPENED, max, body[0], body[1..] + [FEND]);
      assert body + [FEND] == [body[0]] + (body[1..] + [FEND]);
      assert framed[1] == body[0] && framed[2..|framed| - 1] == body[1..];
      var s := Step(OPENED, max, body[0]).0;
      if s.invalid {
        InvalidEmitsNothing(s, max, body[1..]);
      } else {
        BodyOutcome(s, max, body[1..]);
        var p := Unescape(false, body[1..]);
        if p.Some? {
          assert [] + p.value == p.value;
        }
      }
    }
  }

  lemma DelimiterOpens(s: State, max: nat)
    ensures Feed(s, max, [FEND]).0 == OPENED
  {
    FeedOne(s, max, FEND);
  }

  /** Bodies, each closed by a delimiter. */
  function Closed(bodies: seq<Bytes>): Bytes {
    if bodies == [] then [] else bodies[0] + [FEND] + Closed(bodies[1..])
  }

  function AllAccepted(bodies: seq<Bytes>, max: nat): seq<Bytes> {
    if bodies == [] then [] else Accepted(bodies[0], max) + AllAccepted(bodies[1..], max)
  }

  lemma {:induction false} ClosedDecodes(max: nat, bodies: seq<Bytes>)
    requires forall b | b in bodies :: FEND !in b
    ensures Feed(OPENED, max, Closed(bodies)) == (OPENED, AllAccepted(bodies, max))
    decreases |bodies|
  {
    hide Feed, Accepted;
    if bodies == [] {
      FeedNothing(OPENED, max);
    } else {
      BetweenDelimiters(max, bodies[0]);
      ClosedDecodes(max, bodies[1..]);
      FeedAppend(OPENED, max, bodies[0] + [FEND], Closed(bodies[1..]));
    }
  }

  lemma FeedNothing(s: State, max: nat)
    ensures Feed(s, max, []) == (s, [])
  {
  }

  /** A whole line: from any prior state, the first delimiter synchronises, and from then on exactly the
      acceptable frames come out, in order. */
  lemma StreamDecodes(s: State, max: nat, noise: Bytes, bodies: seq<Bytes>)
    requires forall b | b in bodies :: FEND !in b
    ensures Feed(s, max, noise + [FEND] + Closed(bodies))
            == (OPENED, Feed(s, max, noise + [FEND]).1 + AllAccepted(bodies, max))
  {
    hide Accepted;
    FeedAppend(s, max, noise + [FEND], Closed(bodies));
    FeedAppend(s, max, noise, [FEND]);
    DelimiterOpens(Feed(s, max, noise).0, max);
    ClosedDecodes(max, bodies);
    hide Feed;
  }

  /** Frames, one after the other. */
  function Frames(packets: seq<Bytes>): Bytes {
    if packets == [] then [] else Frame(packets[0]) + Frames(packets[1..])
  }

  lemma FrameDecodes(max: nat, p: Bytes)
    requires 1 <= |p| <= max
    ensures Feed(OPENED, max, Frame(p)) == (OPENED, [p])
  {
    UnescapeEscape(p);
    DeframeFrame(p);
    hide Feed, Deframe, Escape, Step;
    var body := [CMD_DATA] + Escape(p);
    assert Frame(p) == [FEND] + (body + [FEND]) && [FEND] + body + [FEND] == Frame(p);
    BetweenDelimiters(max, body);
    FeedOpened(max, body + [FEND]);
  }

  /** A second delimiter in a row changes nothing. */
  lemma FeedOpened(max: nat, rest: Bytes)
    ensures Feed(OPENED, max, [FEND] + rest) == Feed(OPENED, max, rest)
  {
    FeedFirst(OPENED, max, FEND, rest);
    hide Feed;
  }

  /** Sent packets that fit arrive, in order, once the line is synchronised. */
  lemma {:induction false} FramesDecode(max: nat, packets: seq<Bytes>)
    requires forall p | p in packets :: 1 <= |p| <= max
    ensures Feed(OPENED, max, Frames(packets)) == (OPENED, packets)
    decreases |packets|
  {
    hide Feed, Frame;
    if packets == [] {
      FeedNothing(OPENED, max);
    } else {
      FramesDecode(max, packets[1..]);
      FrameDecodes(max, packets[0]);
      FeedAppend(OPENED, max, Frame(packets[0]), Frames(packets[1..]));
      assert packets == [packets[0]] + packets[1..];
    }
  }
}
