/** Every scalar the encoder writes is decoded to the value it was. */
module NanopbScalars {
  import opened Coding
  import opened NanopbFormat
  import opened NanopbDecode
  import opened Wrappers

  // ------------------------------------------------------------------ varints

  lemma {:induction false} OrZero(y: nat)
    ensures BitOr(0, y) == y
  {
    if y > 0 {
      OrZero(y / 2);
    }
  }

  // Bits above n join a value below it.
  lemma {:induction false} OrAdds(r: nat, y: nat, n: nat)
    requires r < ShiftLeft(1, n)
    ensures BitOr(r, ShiftLeft(y, n)) == r + ShiftLeft(y, n)
  {
    if n == 0 {
      OrZero(y);
    } else {
      OrAdds(r / 2, y, n - 1);
    }
  }

  // The last step of a 32-bit varint: what is left fits the bits from bitpos on.
  lemma TailEnds(y: nat, bitpos: nat, r: nat, rest: seq<byte>)
    requires y < 128 && bitpos <= 28 && (bitpos == 28 ==> y < 16) && r + ShiftLeft(y, bitpos) < TWO32
    requires r < ShiftLeft(1, bitpos)
    ensures Varint32Tail(Varint(y) + rest, bitpos, r) == Got(r + ShiftLeft(y, bitpos), rest)
  {
    hide ShiftLeft, BitOr;
    OrAdds(r, y, bitpos);
    assert (Varint(y) + rest)[1..] == rest;
  }

  lemma TailStep(y: nat, bitpos: nat, r: nat, rest: seq<byte>)
    requires y >= 128 && bitpos < 28 && r + ShiftLeft(y % 128, bitpos) < TWO32 && r < ShiftLeft(1, bitpos)
    ensures Varint32Tail(Varint(y) + rest, bitpos, r) ==
              Varint32Tail(Varint(y / 128) + rest, bitpos + 7, r + ShiftLeft(y % 128, bitpos))
  {
    hide ShiftLeft, BitOr;
    OrAdds(r, y % 128, bitpos);
    assert (Varint(y) + rest)[1..] == Varint(y / 128) + rest;
  }

  lemma Shifts(x: nat)
    ensures ShiftLeft(x, 7) == x * 0x80 && ShiftLeft(x, 14) == x * 0x4000
    ensures ShiftLeft(x, 21) == x * 0x20_0000 && ShiftLeft(x, 28) == x * 0x1000_0000
  {
    ShiftSeven(x, 0);
    ShiftSeven(x, 7);
    ShiftSeven(x, 14);
    ShiftSeven(x, 21);
  }

  lemma ShiftSeven(x: nat, n: nat)
    ensures ShiftLeft(x, n + 7) == 128 * ShiftLeft(x, n)
  {
    assert ShiftLeft(x, n + 1) == 2 * ShiftLeft(x, n);
    assert ShiftLeft(x, n + 2) == 2 * ShiftLeft(x, n + 1);
    assert ShiftLeft(x, n + 3) == 2 * ShiftLeft(x, n + 2);
    assert ShiftLeft(x, n + 4) == 2 * ShiftLeft(x, n + 3);
    assert ShiftLeft(x, n + 5) == 2 * ShiftLeft(x, n + 4);
    assert ShiftLeft(x, n + 6) == 2 * ShiftLeft(x, n + 5);
  }

  lemma Tail28(y: nat, r: nat, rest: seq<byte>)
    requires y < 16 && r < 0x1000_0000
    ensures Varint32Tail(Varint(y) + rest, 28, r) == Got(r + y * 0x1000_0000, rest)
  {
    hide Varint32Tail, Varint, ShiftLeft;
    Shifts(1);
    Shifts(y);
    TailEnds(y, 28, r, rest);
  }

  lemma Tail21(y: nat, r: nat, rest: seq<byte>)
    requires y < 0x800 && r < 0x20_0000
    ensures Varint32Tail(Varint(y) + rest, 21, r) == Got(r + y * 0x20_0000, rest)
  {
    hide Varint32Tail, Varint, ShiftLeft;
    Shifts(1);
    Shifts(y);
    Shifts(y % 128);
    if y < 128 {
      TailEnds(y, 21, r, rest);
    } else {
      TailStep(y, 21, r, rest);
      Tail28(y / 128, r + y % 128 * 0x20_0000, rest);
    }
  }

  lemma Tail14(y: nat, r: nat, rest: seq<byte>)
    requires y < 0x4_0000 && r < 0x4000
    ensures Varint32Tail(Varint(y) + rest, 14, r) == Got(r + y * 0x4000, rest)
  {
    hide Varint32Tail, Varint, ShiftLeft;
    Shifts(1);
    Shifts(y);
    Shifts(y % 128);
    if y < 128 {
      TailEnds(y, 14, r, rest);
    } else {
      TailStep(y, 14, r, rest);
      Tail21(y / 128, r + y % 128 * 0x4000, rest);
    }
  }

  lemma Tail7(y: nat, r: nat, rest: seq<byte>)
    requires y < 0x200_0000 && r < 0x80
    ensures Varint32Tail(Varint(y) + rest, 7, r) == Got(r + y * 0x80, rest)
  {
    hide Varint32Tail, Varint, ShiftLeft;
    Shifts(1);
    Shifts(y);
    Shifts(y % 128);
    if y < 128 {
      TailEnds(y, 7, r, rest);
    } else {
      TailStep(y, 7, r, rest);
      Tail14(y / 128, r + y % 128 * 0x80, rest);
    }
  }

  lemma VarintStarts(x: nat, rest: seq<byte>)
    ensures x < 128 ==> Varint(x) + rest == [x] + rest
    ensures x >= 128 ==> Varint(x) + rest == [128 + x % 128] + (Varint(x / 128) + rest)
  {
  }

  lemma SplitFirst(b: byte, s: seq<byte>)
    ensures ([b] + s)[0] == b && ([b] + s)[1..] == s
  {
  }

  // The 32-bit decoder reads back what the encoder writes.
  lemma Varint32Decodes(x: nat, rest: seq<byte>)
    requires x < TWO32
    ensures DecodeVarint32(Varint(x) + rest) == Got(x, rest)
  {
    hide Varint32Tail, Varint;
    VarintStarts(x, rest);
    if x < 128 {
      SplitFirst(x, rest);
    } else {
      SplitFirst(128 + x % 128, Varint(x / 128) + rest);
      Tail7(x / 128, x % 128, rest);
    }
  }

  lemma Pow128Ten()
    ensures Pow128(10) >= TWO64
  {
    assert Pow128(5) == 0x8_0000_0000;
    assert Pow128(10) == 128 * (128 * (128 * (128 * (128 * Pow128(5)))));
  }

  lemma Varint64Decodes(x: nat, rest: seq<byte>)
    requires x < TWO64
    ensures DecodeVarint64(Varint(x) + rest) == Got(x, rest)
  {
    hide Varint, ParseVarint, Pow128;
    Pow128Ten();
    VarintRoundTrip(x, rest, 10);
    assert (Varint(x) + rest)[|Varint(x)|..] == rest;
  }

  lemma StringReads(b: seq<byte>, rest: seq<byte>)
    requires |b| < TWO32
    ensures ReadString(LengthPrefixed(b) + rest) == Got(b, rest)
    ensures DecodeVarint32(LengthPrefixed(b) + rest) == Got(|b|, b + rest)
  {
    hide DecodeVarint32, Varint;
    assert LengthPrefixed(b) + rest == Varint(|b|) + (b + rest);
    Varint32Decodes(|b|, b + rest);
    assert (b + rest)[..|b|] == b && (b + rest)[|b|..] == rest;
  }

  lemma ReadsBytes(b: seq<byte>, rest: seq<byte>)
    ensures ReadBytes(b + rest, |b|) == Got(VBytes(b), rest)
  {
    assert (b + rest)[..|b|] == b && (b + rest)[|b|..] == rest;
  }

  // ------------------------------------------------------------------ integers

  lemma SignedKeeps(i: int, bits: nat)
    requires SignedFits(i, bits)
    ensures ToSigned(i, bits) == i
  {
    PowersOfTwo();
    hide Pow2;
    HalfOf(bits);
    if i >= 0 {
      DivModUnique(i, Pow2(bits), 0, i);
    } else {
      DivModUnique(i, Pow2(bits), -1, i + Pow2(bits));
    }
  }

  lemma HalfOf(bits: nat)
    requires bits > 0
    ensures Pow2(bits) == 2 * Pow2(bits - 1)
  {
  }

  // The value was cast to 64 unsigned bits; its low bits, taken at 64 or 32, give it back.
  lemma CastsBack(i: int, bits: nat)
    requires SignedFits(i, bits)
    ensures ToSigned(i % TWO64, if bits == 64 then 64 else 32) == i
  {
    if bits == 64 {
      SameLowBits(i, 64);
      SignedKeeps(i, 64);
    } else {
      SameLowBits(i, 32);
      Wider(i, bits);
      SignedKeeps(i, 32);
    }
  }

  lemma SameLowBits(i: int, bits: nat)
    requires bits == 64 || bits == 32
    ensures ToSigned(i % TWO64, bits) == ToSigned(i, bits)
  {
    PowersOfTwo();
    hide Pow2;
    assert i % TWO64 % TWO64 == i % TWO64;
    assert i % TWO64 % TWO32 == i % TWO32;
  }

  lemma Wider(i: int, bits: nat)
    requires SignedFits(i, bits) && bits < 64
    ensures SignedFits(i, 32)
  {
    PowersOfTwo();
    hide Pow2;
  }

  lemma UnZigs(i: int, bits: nat)
    requires SignedFits(i, bits)
    ensures ZigZag(i) < TWO64 && UnZigZag(ZigZag(i)) == i
  {
    PowersOfTwo();
  }

  lemma UnsignedKeeps(i: int, bits: nat)
    requires Width(bits) && 0 <= i < Pow2(bits)
    ensures i < TWO64 && i % Pow2(bits) == i
  {
    PowersOfTwo();
    hide Pow2;
    assert Pow2(bits) <= TWO64;
  }

  // ------------------------------------------------------------------ values

  /** A scalar is read back, whatever follows it. */
  lemma ScalarRoundTrip(l: LType, v: Value, cur: Value, rest: seq<byte>)
    requires TypeOk(l) && ValueOk(l, v) && !l.TSubmessage?
    ensures DecodeValue(l, cur, EncodeValue(l, v) + rest) == Got(v, rest)
  {
    hide Varint, DecodeVarint32, DecodeVarint64, Fixed32, Fixed64, LengthPrefixed, ToSigned, ZigZag, UnZigZag, Pow2,
      ReadBytes, FromLittleEndian;
    match l {
      case TBool =>
        Varint32Decodes(if v.b then 1 else 0, rest);
      case TVarint(bits) =>
        CastsBack(v.i, bits);
        SignedKeeps(v.i, bits);
        Varint64Decodes(v.i % TWO64, rest);
      case TUVarint(bits) =>
        UnsignedKeeps(v.i, bits);
        Varint64Decodes(v.i, rest);
      case TSVarint(bits) =>
        UnZigs(v.i, bits);
        SignedKeeps(v.i, bits);
        Varint64Decodes(ZigZag(v.i), rest);
      case TFixed32 =>
        FixedReads(v.i, 4, rest);
      case TFixed64 =>
        FixedReads(v.i, 8, rest);
      case TBytes(max) =>
        StringReads(v.bytes, rest);
        ReadsBytes(v.bytes, rest);
      case TString(max) =>
        StringReads(v.bytes, rest);
        ReadsBytes(v.bytes, rest);
      case TFixedBytes(size) =>
        StringReads(v.bytes, rest);
        ReadsBytes(v.bytes, rest);
        if size == 0 {
          assert v.bytes == Zeroes(0) == [];
          assert v.bytes + rest == rest;
        }
    }
  }

  lemma FixedReads(i: nat, n: nat, rest: seq<byte>)
    requires (n == 4 && i < TWO32) || (n == 8 && i < TWO64)
    ensures n == 4 ==> Read(Fixed32(i) + rest, 4) == Got(Fixed32(i), rest) && FromLittleEndian(Fixed32(i)) == i
    ensures n == 8 ==> Read(Fixed64(i) + rest, 8) == Got(Fixed64(i), rest) && FromLittleEndian(Fixed64(i)) == i
  {
    hide LittleEndian, FromLittleEndian, Pow256;
    ReadsPrefix(LittleEndian(i, n), rest);
    LittleEndianRoundTrip(i, n);
    WordSizes();
  }

  lemma ReadsPrefix(b: seq<byte>, rest: seq<byte>)
    ensures Read(b + rest, |b|) == Got(b, rest)
  {
    assert (b + rest)[..|b|] == b && (b + rest)[|b|..] == rest;
  }

  lemma WordSizes()
    ensures Pow256(4) == TWO32 && Pow256(8) == TWO64
  {
    assert Pow256(4) == TWO32;
    assert Pow256(8) == TWO64;
  }
}
