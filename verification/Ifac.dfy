/** Bitwise operations on bytes, defined bit by bit. */
module Bits {
  import opened Base

  function Pow2(n: nat): nat {
    if n == 0 then 1 else 2 * Pow2(n - 1)
  }

  /** Exclusive or of the low `n` bits. */
  function XorBits(a: nat, b: nat, n: nat): nat {
    if n == 0 then 0 else (a % 2 + b % 2) % 2 + 2 * XorBits(a / 2, b / 2, n - 1)
  }

  function OrBits(a: nat, b: nat, n: nat): nat {
    if n == 0 then 0 else (if a % 2 + b % 2 == 0 then 0 else 1) + 2 * OrBits(a / 2, b / 2, n - 1)
  }

  lemma {:induction false} BitsBound(a: nat, b: nat, n: nat)
    ensures XorBits(a, b, n) < Pow2(n) && OrBits(a, b, n) < Pow2(n)
  {
    if n > 0 {
      BitsBound(a / 2, b / 2, n - 1);
    }
  }

  /** The lowest bit and the rest of a number put together from them. */
  lemma LowBit(bit: nat, rest: nat)
    requires bit < 2
    ensures (bit + 2 * rest) % 2 == bit && (bit + 2 * rest) / 2 == rest
  {
  }

  lemma XorBitTwice(a: nat, b: nat)
    ensures ((a % 2 + b % 2) % 2 + b % 2) % 2 == a % 2
  {
  }

  lemma {:induction false} XorBitsTwice(a: nat, b: nat, n: nat)
    requires a < Pow2(n)
    ensures XorBits(XorBits(a, b, n), b, n) == a
  {
    if n > 0 {
      XorBitsTwice(a / 2, b / 2, n - 1);
      LowBit((a % 2 + b % 2) % 2, XorBits(a / 2, b / 2, n - 1));
      XorBitTwice(a, b);
      XorBitsSplit(XorBits(a, b, n), b, n);
    }
  }

  lemma XorBitsSplit(a: nat, b: nat, n: nat)
    requires n > 0
    ensures XorBits(a, b, n) == (a % 2 + b % 2) % 2 + 2 * XorBits(a / 2, b / 2, n - 1)
  {
  }

  lemma {:induction false} XorBitsZero(a: nat, b: nat, n: nat)
    requires a < Pow2(n) && b < Pow2(n)
    ensures XorBits(a, b, n) == 0 <==> a == b
  {
    if n > 0 {
      XorBitsZero(a / 2, b / 2, n - 1);
    }
  }

  lemma {:induction false} OrBitsZero(a: nat, b: nat, n: nat)
    requires a < Pow2(n) && b < Pow2(n)
    ensures OrBits(a, b, n) == 0 <==> a == 0 && b == 0
  {
    if n > 0 {
      OrBitsZero(a / 2, b / 2, n - 1);
    }
  }

  lemma Pow2Values()
    ensures Pow2(7) == 128 && Pow2(8) == 256
  {
    assert Pow2(4) == 16;
  }

  /** The top bit and the seven low bits apart. */
  function Xor(a: Byte, b: Byte): Byte {
    BitsBound(a % 128, b % 128, 7);
    Pow2Values();
    (if (a >= 128) != (b >= 128) then 128 else 0) + XorBits(a % 128, b % 128, 7)
  }

  function Or(a: Byte, b: Byte): Byte {
    BitsBound(a, b, 8);
    Pow2Values();
    OrBits(a, b, 8)
  }

  /** The top bit and the low bits of an exclusive or. */
  lemma XorParts(a: Byte, b: Byte)
    ensures Xor(a, b) >= 128 <==> ((a >= 128) != (b >= 128))
    ensures Xor(a, b) % 128 == XorBits(a % 128, b % 128, 7)
  {
    hide XorBits, Pow2;
    BitsBound(a % 128, b % 128, 7);
    Pow2Values();
  }

  lemma SameParts(a: Byte, b: Byte)
    requires (a >= 128 <==> b >= 128) && a % 128 == b % 128
    ensures a == b
  {
  }

  lemma XorTwice(a: Byte, b: Byte)
    ensures Xor(Xor(a, b), b) == a
    ensures Xor(a, b) % 128 == Xor(a % 128, b % 128)
  {
    hide XorBits, Pow2, Xor;
    XorParts(a, b);
    XorParts(Xor(a, b), b);
    Pow2Values();
    XorBitsTwice(a % 128, b % 128, 7);
    SameParts(Xor(Xor(a, b), b), a);
    XorParts(a % 128, b % 128);
  }

  lemma XorZero(a: Byte, b: Byte)
    ensures Xor(a, b) == 0 <==> a == b
  {
    hide XorBits, Pow2, Xor;
    XorParts(a, b);
    Pow2Values();
    XorBitsZero(a % 128, b % 128, 7);
    if Xor(a, b) == 0 {
      SameParts(a, b);
    }
    if a == b {
      SameParts(Xor(a, b), 0);
    }
  }

  lemma OrZero(a: Byte, b: Byte)
    ensures Or(a, b) == 0 <==> a == 0 && b == 0
  {
    Pow2Values();
    OrBitsZero(a, b, 8);
    hide OrBits, Pow2;
  }

  /** The comparison that folds the differences of two byte strings into one byte. */
  method ConstantTimeEq(left: Bytes, right: Bytes) returns (equal: bool)
    ensures equal <==> left == right
  {
    if |left| != |right| {
      return false;
    }
    var difference: Byte := 0;
    var i := 0;
    while i < |left|
      invariant 0 <= i <= |left|
      invariant difference == 0 <==> left[..i] == right[..i]
    {
      XorZero(left[i], right[i]);
      OrZero(difference, Xor(left[i], right[i]));
      difference := Or(difference, Xor(left[i], right[i]));
      assert left[..i + 1] == left[..i] + [left[i]] && right[..i + 1] == right[..i] + [right[i]];
      i := i + 1;
    }
    assert left[..i] == left && right[..i] == right;
    equal := difference == 0;
  }
}

/** Interface access codes (reticulum-interface/src/ifac.rs). */
module Ifac {
  import opened Base
  import opened Bits

  const FLAG: Byte := 0x80
  const MAX_EXPAND: nat := 255 * 32

  datatype IfacError = InvalidSize | TooShort | Authentication | Derivation
  datatype IfacResult = Done(frame: Bytes) | Failed(error: IfacError)

  /** Deterministic signing with a 32-byte seed, and key expansion to a given length. */
  datatype Primitives = Primitives(sign: (Bytes, Bytes) -> Bytes, expand: (Bytes, Bytes, nat) -> Bytes)

  ghost predicate Sized(f: Primitives) {
    && (forall seed, m :: |f.sign(seed, m)| == 64)
    && (forall key, salt, n :: |f.expand(key, salt, n)| == n)
  }

  function SetFlag(b: Byte): Byte {
    if b < 128 then b + 128 else b
  }

  function ClearFlag(b: Byte): Byte {
    b % 128
  }

  /** Every byte but the access code is masked. */
  function Masked(frame: Bytes, mask: Bytes, size: nat): (r: Bytes)
    requires |mask| == |frame|
    ensures |r| == |frame|
    ensures forall i | 0 <= i < |frame| ::
              r[i] == if i <= 1 || i > size + 1 then Xor(frame[i], mask[i]) else frame[i]
  {
    seq(|frame|, i requires 0 <= i < |frame| => if i <= 1 || i > size + 1 then Xor(frame[i], mask[i]) else frame[i])
  }

  /** The last `size` bytes of the signature over a frame. */
  function Code(f: Primitives, frame: Bytes, key: Bytes, size: nat): (r: Bytes)
    requires Sized(f) && |key| == 64 && size <= 64
    ensures |r| == size
  {
    f.sign(key[32..], frame)[64 - size..]
  }

  function ApplyWithSize(f: Primitives, frame: Bytes, key: Bytes, size: nat): IfacResult
    requires Sized(f) && |key| == 64
  {
    if size < 1 || size > 64 then Failed(InvalidSize)
    else if |frame| < 2 then Failed(TooShort)
    else
      var code := Code(f, frame, key, size);
      var wire := [SetFlag(frame[0]), frame[1]] + code + frame[2..];
      if |wire| > MAX_EXPAND then Failed(Derivation)
      else
        var masked := Masked(wire, f.expand(key, code, |wire|), size);
        Done(masked[0 := SetFlag(masked[0])])
  }

  function StripWithSize(f: Primitives, frame: Bytes, key: Bytes, size: nat): IfacResult
    requires Sized(f) && |key| == 64
  {
    if size < 1 || size > 64 then Failed(InvalidSize)
    else if |frame| < 2 then Failed(TooShort)
    else if frame[0] < 128 || |frame| <= size + 2 then Failed(TooShort)
    else
      var code := frame[2..2 + size];
      if |frame| > MAX_EXPAND then Failed(Derivation)
      else
        var unmasked := Masked(frame, f.expand(key, code, |frame|), size);
        var plain := [ClearFlag(unmasked[0]), unmasked[1]] + unmasked[2 + size..];
        if code == Code(f, plain, key, size) then Done(plain) else Failed(Authentication)
  }

  // ------------------------------------------------------------------ the code, in place

  method MaskInPlace(frame: array<Byte>, mask: Bytes, size: nat)
    requires |mask| == frame.Length
    modifies frame
    ensures frame[..] == Masked(old(frame[..]), mask, size)
  {
    var index := 0;
    while index < frame.Length
      invariant 0 <= index <= frame.Length
      invariant frame[..index] == Masked(old(frame[..]), mask, size)[..index]
      invariant forall i | index <= i < frame.Length :: frame[i] == old(frame[i])
    {
      if index <= 1 || index > size + 1 {
        frame[index] := Xor(frame[index], mask[index]);
      }
      index := index + 1;
    }
    hide Xor;
  }

  method Apply(f: Primitives, frame: Bytes, key: Bytes, size: nat) returns (r: IfacResult)
    requires Sized(f) && |key| == 64
    ensures r == ApplyWithSize(f, frame, key, size)
  {
    if size < 1 || size > 64 {
      return Failed(InvalidSize);
    }
    if |frame| < 2 {
      return Failed(TooShort);
    }
    var signature := f.sign(key[32..], frame);
    var code := signature[|signature| - size..];
    var bytes := [SetFlag(frame[0]), frame[1]] + code + frame[2..];
    var wire := new Byte[|bytes|](i requires 0 <= i < |bytes| => bytes[i]);
    assert wire[..] == bytes;
    if wire.Length > MAX_EXPAND {
      return Failed(Derivation);
    }
    MaskInPlace(wire, f.expand(key, code, wire.Length), size);
    wire[0] := SetFlag(wire[0]);
    r := Done(wire[..]);
    hide Masked;
  }

  method Strip(f: Primitives, frame: Bytes, key: Bytes, size: nat) returns (r: IfacResult)
    requires Sized(f) && |key| == 64
    ensures r == StripWithSize(f, frame, key, size)
  {
    if size < 1 || size > 64 {
      return Failed(InvalidSize);
    }
    if |frame| < 2 || frame[0] < 128 || |frame| <= size + 2 {
      return Failed(TooShort);
    }
    var code := frame[2..2 + size];
    var unmasked := new Byte[|frame|](i requires 0 <= i < |frame| => frame[i]);
    assert unmasked[..] == frame;
    if unmasked.Length > MAX_EXPAND {
      return Failed(Derivation);
    }
    MaskInPlace(unmasked, f.expand(key, code, unmasked.Length), size);
    ghost var masked := unmasked[..];
    unmasked[0] := ClearFlag(unmasked[0]);
    var plain := unmasked[..2] + unmasked[2 + size..];
    assert plain == [ClearFlag(masked[0]), masked[1]] + masked[2 + size..];
    var expected := f.sign(key[32..], plain);
    var equal := ConstantTimeEq(code, expected[|expected| - size..]);
    r := if equal then Done(plain) else Failed(Authentication);
    hide Masked;
  }

  // ------------------------------------------------------------------ exactly inverse

  /** Unmasking what was masked gives every byte back, up to the flag bit. */
  lemma UnmaskMasked(wire: Bytes, mask: Bytes, size: nat)
    requires |mask| == |wire| >= 2
    ensures var masked := Masked(wire, mask, size);
            var again := Masked(masked[0 := SetFlag(masked[0])], mask, size);
            again[1..] == wire[1..] && ClearFlag(again[0]) == ClearFlag(wire[0])
  {
    hide Xor;
    forall i | 0 <= i < |wire| ensures Xor(Xor(wire[i], mask[i]), mask[i]) == wire[i] {
      XorTwice(wire[i], mask[i]);
    }
    var once := Xor(wire[0], mask[0]);
    XorTwice(once, mask[0]);
    XorTwice(SetFlag(once), mask[0]);
    assert SetFlag(once) % 128 == once % 128;
  }

  /** What strip makes of a wire frame that apply made. */
  lemma StripOfApply(f: Primitives, frame: Bytes, key: Bytes, size: nat)
    requires Sized(f) && |key| == 64 && ApplyWithSize(f, frame, key, size).Done?
    ensures var wire := ApplyWithSize(f, frame, key, size).frame;
            StripWithSize(f, wire, key, size)
            == if |frame| < 3 then Failed(TooShort)
               else
                 var plain := frame[0 := ClearFlag(frame[0])];
                 if Code(f, frame, key, size) == Code(f, plain, key, size) then Done(plain)
                 else Failed(Authentication)
  {
    hide Xor;
    var code := Code(f, frame, key, size);
    var bare := [SetFlag(frame[0]), frame[1]] + code + frame[2..];
    var mask := f.expand(key, code, |bare|);
    var masked := Masked(bare, mask, size);
    var wire := masked[0 := SetFlag(masked[0])];
    UnmaskMasked(bare, mask, size);
    assert wire[2..2 + size] == code by {
      assert bare[2..2 + size] == code;
    }
    var again := Masked(wire, mask, size);
    if |frame| >= 3 {
      assert again[2 + size..] == again[1..][1 + size..] == bare[1..][1 + size..] == frame[2..];
      assert again[1] == again[1..][0] == bare[1];
      assert [ClearFlag(again[0]), again[1]] + again[2 + size..] == frame[0 := ClearFlag(frame[0])];
    }
    hide Masked, Code;
  }

  /** Strip undoes apply exactly on frames of at least three bytes whose flag bit is clear. */
  lemma StripUndoesApply(f: Primitives, frame: Bytes, key: Bytes, size: nat)
    requires Sized(f) && |key| == 64 && ApplyWithSize(f, frame, key, size).Done?
    ensures StripWithSize(f, ApplyWithSize(f, frame, key, size).frame, key, size) == Done(frame)
       <==> |frame| >= 3 && frame[0] < 128
  {
    hide ApplyWithSize, StripWithSize, Code;
    StripOfApply(f, frame, key, size);
    if |frame| >= 3 {
      assert frame[0 := ClearFlag(frame[0])][0] == ClearFlag(frame[0]);
      if frame[0] < 128 {
        assert frame[0 := ClearFlag(frame[0])] == frame;
      }
    }
  }

  /** On all inputs: a frame survives apply and strip if and only if the code size is 1 to 64, the frame has
      at least three bytes with the flag bit clear, and frame and code fit one key expansion. */
  lemma RoundTripExactly(f: Primitives, frame: Bytes, key: Bytes, size: nat)
    requires Sized(f) && |key| == 64
    ensures (ApplyWithSize(f, frame, key, size).Done?
             && StripWithSize(f, ApplyWithSize(f, frame, key, size).frame, key, size) == Done(frame))
       <==> 1 <= size <= 64 && |frame| >= 3 && frame[0] < 128 && |frame| + size <= MAX_EXPAND
  {
    if ApplyWithSize(f, frame, key, size).Done? {
      StripUndoesApply(f, frame, key, size);
    }
    hide StripWithSize, Masked;
  }

  /** Every wire frame that strip accepts is exactly apply of its result, which is again a frame that apply
      and strip carry over. */
  lemma ApplyUndoesStrip(f: Primitives, wire: Bytes, key: Bytes, size: nat)
    requires Sized(f) && |key| == 64 && StripWithSize(f, wire, key, size).Done?
    ensures var plain := StripWithSize(f, wire, key, size).frame;
            ApplyWithSize(f, plain, key, size) == Done(wire) && |plain| >= 3 && plain[0] < 128
  {
    hide Xor;
    var code := wire[2..2 + size];
    var mask := f.expand(key, code, |wire|);
    var unmasked := Masked(wire, mask, size);
    var plain := [ClearFlag(unmasked[0]), unmasked[1]] + unmasked[2 + size..];
    var bare := [SetFlag(plain[0]), plain[1]] + code + plain[2..];
    assert |bare| == |wire|;
    BareIs(wire, mask, size);
    var masked := Masked(bare, mask, size);
    Remasked(wire, mask, size);
    assert masked[0 := SetFlag(masked[0])] == wire;
    hide Masked, Code;
  }

  /** The frame apply masks, rebuilt from an unmasked wire frame. */
  lemma BareIs(wire: Bytes, mask: Bytes, size: nat)
    requires |mask| == |wire| > size + 2
    ensures var unmasked := Masked(wire, mask, size);
            [SetFlag(ClearFlag(unmasked[0])), unmasked[1]] + wire[2..2 + size] + unmasked[2 + size..]
            == unmasked[0 := SetFlag(unmasked[0])]
  {
    hide Xor;
  }

  lemma Remasked(wire: Bytes, mask: Bytes, size: nat)
    requires |mask| == |wire| > size + 2 && wire[0] >= 128
    ensures var unmasked := Masked(wire, mask, size);
            var masked := Masked(unmasked[0 := SetFlag(unmasked[0])], mask, size);
            masked[0 := SetFlag(masked[0])] == wire
  {
    hide Xor;
    forall i | 0 <= i < |wire| ensures Xor(Xor(wire[i], mask[i]), mask[i]) == wire[i] {
      XorTwice(wire[i], mask[i]);
    }
    var once := Xor(wire[0], mask[0]);
    XorTwice(once, mask[0]);
    XorTwice(SetFlag(once), mask[0]);
    assert SetFlag(once) % 128 == once % 128;
  }
}
