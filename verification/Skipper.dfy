/** Readers over the rest of an input, and the MessagePack skipper (reticulum-lxmf/src/message.rs). */
module Skipper {
  import opened Base
  import opened MessagePack

  const MAX_DEPTH: nat := 64

  function TakeByte(input: Bytes): Result<Read<Byte>> {
    if input == [] then Err(Truncated) else Ok(Read(input[0], input[1..]))
  }

  /** A big-endian number of `k` bytes. */
  function ReadUint(input: Bytes, k: nat): Result<Read<nat>> {
    var b :- Take(input, k);
    Ok(Read(BigEndian(b.value), b.rest))
  }

  function ReadBinary(input: Bytes): Result<Read<Bytes>> {
    var marker :- TakeByte(input);
    var k := match marker.value case 0xc4 => 1 case 0xc5 => 2 case 0xc6 => 4 case _ => 0;
    if k == 0 then Err(InvalidField)
    else
      var length :- ReadUint(marker.rest, k);
      Take(length.rest, length.value)
  }

  /** `fixed` is the high half of the markers that carry the length in their low half. */
  function ReadCollectionLen(input: Bytes, fixed: Byte, marker16: Byte, marker32: Byte): Result<Read<nat>> {
    var marker :- TakeByte(input);
    if marker.value / 16 * 16 == fixed then Ok(Read(marker.value % 16, marker.rest))
    else if marker.value == marker16 then ReadUint(marker.rest, 2)
    else if marker.value == marker32 then ReadUint(marker.rest, 4)
    else Err(InvalidField)
  }

  // ------------------------------------------------------------------ the skipper

  /** What follows a marker: so many bytes, or so many values. */
  datatype Shape = Raw(size: nat) | Items(count: nat)

  function RawAfter(input: Bytes, k: nat, extra: nat): Result<Read<Shape>> {
    var n :- ReadUint(input, k);
    Ok(Read(Raw(n.value + extra), n.rest))
  }

  function ItemsAfter(input: Bytes, k: nat, each: nat): Result<Read<Shape>> {
    var n :- ReadUint(input, k);
    Ok(Read(Items(n.value * each), n.rest))
  }

  /** The dispatch on the marker. */
  function Dispatch(m: Byte, rest: Bytes): Result<Read<Shape>> {
    if m <= 0x7f || m == 0xc0 || m == 0xc2 || m == 0xc3 || m >= 0xe0 then Ok(Read(Raw(0), rest))
    else if m <= 0x8f then Ok(Read(Items((m - 0x80) * 2), rest))
    else if m <= 0x9f then Ok(Read(Items(m - 0x90), rest))
    else if m <= 0xbf then Ok(Read(Raw(m - 0xa0), rest))
    else if m == 0xc4 || m == 0xd9 then RawAfter(rest, 1, 0)
    else if m == 0xc5 || m == 0xda then RawAfter(rest, 2, 0)
    else if m == 0xc6 || m == 0xdb then RawAfter(rest, 4, 0)
    else if m == 0xc7 then RawAfter(rest, 1, 1)
    else if m == 0xc8 then RawAfter(rest, 2, 1)
    else if m == 0xc9 then RawAfter(rest, 4, 1)
    else if m == 0xca || m == 0xce || m == 0xd2 then Ok(Read(Raw(4), rest))
    else if m == 0xcb || m == 0xcf || m == 0xd3 then Ok(Read(Raw(8), rest))
    else if m == 0xcc || m == 0xd0 then Ok(Read(Raw(1), rest))
    else if m == 0xcd || m == 0xd1 then Ok(Read(Raw(2), rest))
    else if m == 0xd4 then Ok(Read(Raw(2), rest))
    else if m == 0xd5 then Ok(Read(Raw(3), rest))
    else if m == 0xd6 then Ok(Read(Raw(5), rest))
    else if m == 0xd7 then Ok(Read(Raw(9), rest))
    else if m == 0xd8 then Ok(Read(Raw(17), rest))
    else if m == 0xdc then ItemsAfter(rest, 2, 1)
    else if m == 0xdd then ItemsAfter(rest, 4, 1)
    else if m == 0xde then ItemsAfter(rest, 2, 2)
    else if m == 0xdf then ItemsAfter(rest, 4, 2)
    else Err(InvalidField)
  }

  lemma DispatchShrinks(m: Byte, rest: Bytes)
    ensures Dispatch(m, rest).Ok? ==> |Dispatch(m, rest).value.rest| <= |rest|
  {
    hide BigEndian;
  }

  /** The input after one value. */
  function Skip(input: Bytes, depth: nat): (r: Result<Bytes>)
    ensures r.Ok? ==> |r.value| < |input|
    decreases |input|, 0
  {
    if depth >= MAX_DEPTH then Err(InvalidField)
    else
      var marker :- TakeByte(input);
      DispatchShrinks(marker.value, marker.rest);
      var head :- Dispatch(marker.value, marker.rest);
      match head.value
      case Raw(size) =>
        var body :- Take(head.rest, size);
        Ok(body.rest)
      case Items(count) => SkipMany(head.rest, count, depth)
  }

  function SkipMany(input: Bytes, count: nat, depth: nat): (r: Result<Bytes>)
    ensures r.Ok? ==> |r.value| <= |input| && (count > 0 ==> |r.value| < |input|)
    decreases |input|, 1
  {
    if count == 0 then Ok(input)
    else
      var rest :- Skip(input, depth + 1);
      SkipMany(rest, count - 1, depth)
  }

  /** How often the skipper is entered, this call included. */
  function Calls(input: Bytes, depth: nat): nat
    decreases |input|, 0
  {
    if depth >= MAX_DEPTH || input == [] then 1
    else
      var head := Dispatch(input[0], input[1..]);
      DispatchShrinks(input[0], input[1..]);
      if head.Ok? && head.value.value.Items? then 1 + CallsMany(head.value.rest, head.value.value.count, depth)
      else 1
  }

  function CallsMany(input: Bytes, count: nat, depth: nat): nat
    decreases |input|, 1
  {
    if count == 0 then 0
    else
      var first := Skip(input, depth + 1);
      Calls(input, depth + 1) + if first.Ok? then CallsMany(first.value, count - 1, depth) else 0
  }

  // ------------------------------------------------------------------ work is bounded by the input

  lemma {:induction false} CallsBounded(input: Bytes, depth: nat)
    ensures Calls(input, depth) <= |input| + 1
    ensures Skip(input, depth).Ok? ==> Calls(input, depth) <= |input| - |Skip(input, depth).value|
    decreases |input|, 0
  {
    hide Dispatch;
    if depth < MAX_DEPTH && input != [] {
      DispatchShrinks(input[0], input[1..]);
      var head := Dispatch(input[0], input[1..]);
      if head.Ok? && head.value.value.Items? {
        CallsManyBounded(head.value.rest, head.value.value.count, depth);
      }
    }
  }

  lemma {:induction false} CallsManyBounded(input: Bytes, count: nat, depth: nat)
    ensures CallsMany(input, count, depth) <= |input| + 1
    ensures SkipMany(input, count, depth).Ok? ==>
              CallsMany(input, count, depth) <= |input| - |SkipMany(input, count, depth).value|
    decreases |input|, 1
  {
    hide Skip, Calls;
    if count > 0 {
      CallsBounded(input, depth + 1);
      var first := Skip(input, depth + 1);
      if first.Ok? {
        CallsManyBounded(first.value, count - 1, depth);
      }
    }
  }

  // ------------------------------------------------------------------ the cursor of the code

  /** An input and the position reached in it; `calls` counts the entries into the skipper. */
  class Cursor {
    const input: Bytes
    var position: nat
    ghost var calls: nat

    constructor (bytes: Bytes)
      ensures input == bytes && position == 0 && calls == 0
    {
      input := bytes;
      position := 0;
      calls := 0;
    }

    predicate Valid()
      reads this
    {
      position <= |input|
    }

    function Rest(): Bytes
      requires Valid()
      reads this
    {
      input[position..]
    }

    method NextByte() returns (r: Result<Byte>)
      requires Valid()
      modifies this`position
      ensures Valid() && old(position) <= position
      ensures var was := TakeByte(old(Rest()));
              if r.Ok? then was == Ok(Read(r.value, Rest())) else was.Err? && was.error == r.error
    {
      if position >= |input| {
        return Err(Truncated);
      }
      r := Ok(input[position]);
      position := position + 1;
    }

    method Next(length: nat) returns (r: Result<Bytes>)
      requires Valid()
      modifies this`position
      ensures Valid() && old(position) <= position
      ensures var was := Take(old(Rest()), length);
              if r.Ok? then was == Ok(Read(r.value, Rest())) else was.Err? && was.error == r.error
    {
      var end := position + length;
      if end > |input| {
        return Err(Truncated);
      }
      r := Ok(input[position..end]);
      assert input[position..][..length] == input[position..end];
      assert input[position..][length..] == input[end..];
      position := end;
    }

    method NextUint(k: nat) returns (r: Result<nat>)
      requires Valid()
      modifies this`position
      ensures Valid() && old(position) <= position
      ensures var was := ReadUint(old(Rest()), k);
              if r.Ok? then was == Ok(Read(r.value, Rest())) else was.Err? && was.error == r.error
    {
      var b := Next(k);
      match b {
        case Ok(value) => r := Ok(BigEndian(value));
        case Err(error) => r := Err(error);
      }
    }

    method NextBinary() returns (r: Result<Bytes>)
      requires Valid()
      modifies this`position
      ensures Valid() && old(position) <= position
      ensures var was := ReadBinary(old(Rest()));
              if r.Ok? then was == Ok(Read(r.value, Rest())) else was.Err? && was.error == r.error
    {
      var marker := NextByte();
      if marker.Err? {
        return Err(marker.error);
      }
      var k := match marker.value case 0xc4 => 1 case 0xc5 => 2 case 0xc6 => 4 case _ => 0;
      if k == 0 {
        return Err(InvalidField);
      }
      var length := NextUint(k);
      if length.Err? {
        return Err(length.error);
      }
      r := Next(length.value);
    }

    method NextShape() returns (r: Result<Shape>)
      requires Valid()
      modifies this`position
      ensures Valid() && old(position) <= position
      ensures var rest := old(Rest());
              if rest == [] then r == Err(Truncated)
              else
                var was := Dispatch(rest[0], rest[1..]);
                if r.Ok? then was == Ok(Read(r.value, Rest())) else was.Err? && was.error == r.error
    {
      var marker := NextByte();
      if marker.Err? {
        return Err(marker.error);
      }
      var m := marker.value;
      var k := if m in {0xc4, 0xc7, 0xd9} then 1 else if m in {0xc5, 0xc8, 0xda, 0xdc, 0xde} then 2
               else if m in {0xc6, 0xc9, 0xdb, 0xdd, 0xdf} then 4 else 0;
      if k == 0 {
        var fixed := Dispatch(m, Rest());
        return match fixed case Ok(head) => Ok(head.value) case Err(error) => Err(error);
      }
      var n := NextUint(k);
      if n.Err? {
        return Err(n.error);
      }
      r := Ok(if m >= 0xdc then Items(n.value * if m >= 0xde then 2 else 1)
              else Raw(n.value + if 0xc7 <= m <= 0xc9 then 1 else 0));
    }

    method SkipValue(depth: nat) returns (r: Result<()>)
      requires Valid()
      modifies this
      ensures Valid() && old(position) <= position
      ensures var was := Skip(old(Rest()), depth);
              if r.Ok? then was == Ok(Rest()) else was.Err? && was.error == r.error
      ensures calls == old(calls) + Calls(old(Rest()), depth)
      decreases |input| - position, 0
    {
      hide Dispatch;
      calls := calls + 1;
      if depth >= MAX_DEPTH {
        return Err(InvalidField);
      }
      ghost var before := Rest();
      if before != [] {
        DispatchShrinks(before[0], before[1..]);
      }
      var shape := NextShape();
      if shape.Err? {
        return Err(shape.error);
      }
      match shape.value {
        case Raw(size) =>
          var body := Next(size);
          r := if body.Ok? then Ok(()) else Err(body.error);
        case Items(count) =>
          assert |Rest()| < |before|;
          r := SkipValues(count, depth);
      }
    }

    method SkipValues(count: nat, depth: nat) returns (r: Result<()>)
      requires Valid()
      modifies this
      ensures Valid() && old(position) <= position
      ensures var was := SkipMany(old(Rest()), count, depth);
              if r.Ok? then was == Ok(Rest()) else was.Err? && was.error == r.error
      ensures calls == old(calls) + CallsMany(old(Rest()), count, depth)
      decreases |input| - position, 1
    {
      hide Skip, Calls;
      var left: nat := count;
      while left > 0
        invariant Valid() && old(position) <= position
        invariant left <= count
        invariant left < count ==> old(position) < position
        invariant SkipMany(old(Rest()), count, depth) == SkipMany(Rest(), left, depth)
        invariant old(calls) + CallsMany(old(Rest()), count, depth) == calls + CallsMany(Rest(), left, depth)
      {
        var one := SkipValue(depth + 1);
        if one.Err? {
          return Err(one.error);
        }
        left := left - 1;
      }
      r := Ok(());
    }
  }
}
