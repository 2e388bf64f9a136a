/** The MessagePack encodings the stack writes and reads (the `rmp` calls it makes). */
module MessagePack {
  import opened Base

  function Pow256(k: nat): nat {
    if k == 0 then 1 else 256 * Pow256(k - 1)
  }

  /** `n` in `k` bytes, most significant first. */
  function ToBigEndian(n: nat, k: nat): (b: Bytes)
    ensures |b| == k
  {
    if k == 0 then [] else ToBigEndian(n / 256, k - 1) + [n % 256]
  }

  lemma {:induction false} BigEndianRoundTrip(n: nat, k: nat)
    requires n < Pow256(k)
    ensures BigEndian(ToBigEndian(n, k)) == n
  {
    if k > 0 {
      BigEndianRoundTrip(n / 256, k - 1);
      var b := ToBigEndian(n, k);
      assert b[..k - 1] == ToBigEndian(n / 256, k - 1);
    }
  }

  lemma {:induction false} BigEndianBound(b: Bytes)
    ensures BigEndian(b) < Pow256(|b|)
    decreases |b|
  {
    if b != [] {
      BigEndianBound(b[..|b| - 1]);
    }
  }

  lemma Widths()
    ensures Pow256(1) == 0x100 && Pow256(2) == 0x1_0000 && Pow256(4) == 0x1_0000_0000
    ensures Pow256(8) == 0x1_0000_0000_0000_0000
  {
    assert Pow256(0) == 1;
    assert Pow256(3) == 0x100_0000;
    assert Pow256(5) == 0x100_0000_0000 && Pow256(6) == 0x1_0000_0000_0000 && Pow256(7) == 0x100_0000_0000_0000;
  }

  // ------------------------------------------------------------------ writing

  function Uint(n: nat): Bytes
    requires n < 0x1_0000_0000_0000_0000
  {
    if n < 0x80 then [n]
    else if n < 0x100 then [0xcc, n]
    else if n < 0x1_0000 then [0xcd] + ToBigEndian(n, 2)
    else if n < 0x1_0000_0000 then [0xce] + ToBigEndian(n, 4)
    else [0xcf] + ToBigEndian(n, 8)
  }

  function BinHead(n: nat): Bytes
    requires n < 0x1_0000_0000
  {
    if n < 0x100 then [0xc4, n]
    else if n < 0x1_0000 then [0xc5] + ToBigEndian(n, 2)
    else [0xc6] + ToBigEndian(n, 4)
  }

  function Bin(data: Bytes): Bytes
    requires |data| < 0x1_0000_0000
  {
    BinHead(|data|) + data
  }

  function ArrayHead(n: nat): Bytes
    requires n < 0x1_0000_0000
  {
    if n < 16 then [0x90 + n]
    else if n < 0x1_0000 then [0xdc] + ToBigEndian(n, 2)
    else [0xdd] + ToBigEndian(n, 4)
  }

  // ------------------------------------------------------------------ reading

  /** A value and the input after it. */
  datatype Read<+T> = Read(value: T, rest: Bytes)

  function Take(input: Bytes, n: nat): Result<Read<Bytes>> {
    if |input| < n then Err(Truncated) else Ok(Read(input[..n], input[n..]))
  }

  /** A big-endian number of `k` bytes after the marker. */
  function Wide(input: Bytes, k: nat): Result<Read<nat>>
    requires input != []
  {
    if |input| < 1 + k then Err(InvalidField) else Ok(Read(BigEndian(input[1..1 + k]), input[1 + k..]))
  }

  /** A signed number of `k` bytes that is not negative. */
  function WideSigned(input: Bytes, k: nat): Result<Read<nat>>
    requires input != [] && k > 0
  {
    if |input| < 1 + k || input[1] >= 0x80 then Err(InvalidField) else Wide(input, k)
  }

  /** `rmp::read_int` into an unsigned 64-bit value: any integer marker, negative values refused. */
  function ReadInt(input: Bytes): Result<Read<nat>> {
    if input == [] then Err(InvalidField)
    else if input[0] < 0x80 then Ok(Read(input[0], input[1..]))
    else if input[0] == 0xcc then Wide(input, 1)
    else if input[0] == 0xcd then Wide(input, 2)
    else if input[0] == 0xce then Wide(input, 4)
    else if input[0] == 0xcf then Wide(input, 8)
    else if input[0] == 0xd0 then WideSigned(input, 1)
    else if input[0] == 0xd1 then WideSigned(input, 2)
    else if input[0] == 0xd2 then WideSigned(input, 4)
    else if input[0] == 0xd3 then WideSigned(input, 8)
    else Err(InvalidField)
  }

  function ReadBinLen(input: Bytes): Result<Read<nat>> {
    if input == [] then Err(InvalidField)
    else if input[0] == 0xc4 then Wide(input, 1)
    else if input[0] == 0xc5 then Wide(input, 2)
    else if input[0] == 0xc6 then Wide(input, 4)
    else Err(InvalidField)
  }

  function ReadBin(input: Bytes): Result<Read<Bytes>> {
    var len :- ReadBinLen(input);
    Take(len.rest, len.value)
  }

  /** The length of a fixed, 16-bit or 32-bit collection head. */
  function ReadHead(input: Bytes, fixed: Byte, wide16: Byte, wide32: Byte): Result<Read<nat>> {
    if input == [] then Err(InvalidField)
    else if fixed <= input[0] < fixed + 16 then Ok(Read(input[0] - fixed, input[1..]))
    else if input[0] == wide16 then Wide(input, 2)
    else if input[0] == wide32 then Wide(input, 4)
    else Err(InvalidField)
  }

  function ReadArrayLen(input: Bytes): Result<Read<nat>> {
    ReadHead(input, 0x90, 0xdc, 0xdd)
  }

  function ReadMapLen(input: Bytes): Result<Read<nat>> {
    ReadHead(input, 0x80, 0xde, 0xdf)
  }

  // ------------------------------------------------------------------ round trips

  lemma WideRead(marker: Byte, n: nat, k: nat, rest: Bytes)
    requires n < Pow256(k)
    ensures Wide([marker] + ToBigEndian(n, k) + rest, k) == Ok(Read(n, rest))
  {
    BigEndianRoundTrip(n, k);
    var input := [marker] + ToBigEndian(n, k) + rest;
    assert input[1..1 + k] == ToBigEndian(n, k);
    assert input[1 + k..] == rest;
  }

  lemma OneByte(n: Byte)
    ensures ToBigEndian(n, 1) == [n]
  {
    assert ToBigEndian(n / 256, 0) == [];
  }

  lemma UintRead(n: nat, rest: Bytes)
    requires n < 0x1_0000_0000_0000_0000
    ensures ReadInt(Uint(n) + rest) == Ok(Read(n, rest))
  {
    Widths();
    hide ToBigEndian, Wide, BigEndian, Pow256;
    if n < 0x80 {
      assert ([n] + rest)[1..] == rest;
    } else if n < 0x100 {
      OneByte(n);
      WideRead(0xcc, n, 1, rest);
      assert [0xcc, n] == [0xcc] + [n];
    } else if n < 0x1_0000 {
      WideRead(0xcd, n, 2, rest);
    } else if n < 0x1_0000_0000 {
      WideRead(0xce, n, 4, rest);
    } else {
      WideRead(0xcf, n, 8, rest);
    }
  }

  lemma BinHeadRead(n: nat, rest: Bytes)
    requires n < 0x1_0000_0000
    ensures ReadBinLen(BinHead(n) + rest) == Ok(Read(n, rest))
  {
    Widths();
    hide ToBigEndian, Wide, BigEndian, Pow256;
    if n < 0x100 {
      OneByte(n);
      WideRead(0xc4, n, 1, rest);
      assert [0xc4, n] == [0xc4] + [n];
    } else if n < 0x1_0000 {
      WideRead(0xc5, n, 2, rest);
    } else {
      WideRead(0xc6, n, 4, rest);
    }
  }

  lemma BinRead(data: Bytes, rest: Bytes)
    requires |data| < 0x1_0000_0000
    ensures ReadBin(Bin(data) + rest) == Ok(Read(data, rest))
  {
    assert Bin(data) + rest == BinHead(|data|) + (data + rest);
    BinHeadRead(|data|, data + rest);
    hide BinHead, ReadBinLen;
    assert (data + rest)[..|data|] == data && (data + rest)[|data|..] == rest;
  }

  lemma ArrayHeadRead(n: nat, rest: Bytes)
    requires n < 0x1_0000_0000
    ensures ReadArrayLen(ArrayHead(n) + rest) == Ok(Read(n, rest))
  {
    Widths();
    hide ToBigEndian, Wide, BigEndian, Pow256;
    if n < 16 {
      assert ([0x90 + n] + rest)[1..] == rest;
    } else if n < 0x1_0000 {
      WideRead(0xdc, n, 2, rest);
    } else {
      WideRead(0xdd, n, 4, rest);
    }
  }
}
