/** How long a 32-bit varint may be: the decoder counts bit positions in eight bits. */
module NanopbVarint {
  import opened Coding
  import opened NanopbDecode
  import NanopbScalars

  // The decoder with positions that do not wrap: past the 32nd bit it accepts nothing but padding.
  function PlainTail(s: seq<byte>, bitpos: nat, result: nat): Parse<nat>
    requires result < TWO32
    decreases |s|
  {
    if s == [] || Overflows(s[0], bitpos, result) then Fail
    else
      var next := if bitpos >= 32 then result else BitOr(result, ShiftLeft(s[0] % 128, bitpos)) % TWO32;
      if s[0] >= 128 then PlainTail(s[1..], bitpos + 7, next)
      else if bitpos == 28 && s[0] / 16 % 8 != 0 then Fail
      else Got(next, s[1..])
  }

  function PlainVarint32(s: seq<byte>): Parse<nat> {
    if s == [] then Fail
    else if s[0] < 128 then Got(s[0], s[1..])
    else PlainTail(s[1..], 7, s[0] - 128)
  }

  // A varint of n bytes that announce another one, and the last.
  ghost predicate Continues(s: seq<byte>, n: nat) {
    n < |s| && (forall i :: 0 <= i < n ==> s[i] >= 128) && s[n] < 128
  }

  lemma {:induction false} SameBelow(s: seq<byte>, bitpos: nat, result: nat, n: nat)
    requires result < TWO32 && Continues(s, n) && bitpos + 7 * n < 256
    ensures Varint32Tail(s, bitpos, result) == PlainTail(s, bitpos, result)
    decreases n
  {
    hide BitOr, ShiftLeft;
    if n > 0 && !Overflows(s[0], bitpos, result) {
      var next := if bitpos >= 32 then result else BitOr(result, ShiftLeft(s[0] % 128, bitpos)) % TWO32;
      assert Continues(s[1..], n - 1);
      SameBelow(s[1..], bitpos + 7, next, n - 1);
    }
  }

  // One byte of padding.
  lemma PaddingStep(s: seq<byte>, bitpos: nat, result: nat)
    requires result < TWO32 && s != [] && s[0] == 0x80
    ensures Varint32Tail(s, bitpos, result) == Varint32Tail(s[1..], NextBit(bitpos), result)
    ensures PlainTail(s, bitpos, result) == PlainTail(s[1..], bitpos + 7, result)
  {
    hide BitOr, ShiftLeft;
    NoBits(result, bitpos);
  }

  lemma {:induction false} NoBits(r: nat, n: nat)
    ensures BitOr(r, ShiftLeft(0, n)) == r
  {
    NoShift(n);
    OrNothing(r);
  }

  lemma NoShift(n: nat)
    ensures ShiftLeft(0, n) == 0
  {
  }

  lemma {:induction false} OrNothing(r: nat)
    ensures BitOr(r, 0) == r
  {
    if r > 0 {
      OrNothing(r / 2);
    }
  }

  lemma NextPosition(k: nat)
    ensures NextBit(7 * k % 256) == 7 * (k + 1) % 256 && 7 * k + 7 == 7 * (k + 1)
  {
    DivModUnique(7 * k + 7, 256, 7 * k / 256 + (7 * k % 256 + 7) / 256, NextBit(7 * k % 256));
  }

  lemma {:induction false} Padding(s: seq<byte>, k: nat, m: nat, result: nat)
    requires result < TWO32 && k <= m <= |s| && forall i :: k <= i < m ==> s[i] == 0x80
    ensures Varint32Tail(s[k..], 7 * k % 256, result) == Varint32Tail(s[m..], 7 * m % 256, result)
    ensures PlainTail(s[k..], 7 * k, result) == PlainTail(s[m..], 7 * m, result)
    decreases m - k
  {
    hide Varint32Tail, PlainTail, NextBit;
    if k < m {
      PaddingStep(s[k..], 7 * k % 256, result);
      PaddingStep(s[k..], 7 * k, result);
      assert s[k..][1..] == s[k + 1..];
      NextPosition(k);
      Padding(s, k + 1, m, result);
    }
  }

  // Padding, a bit in the 38th byte, and padding again.
  function LateBit(n: nat): (s: seq<byte>)
    requires n >= 37
    ensures |s| == n + 1
  {
    seq(n + 1, i => (if i == 37 then 1 else 0) + if i < n then 128 else 0)
  }

  // The late byte, at position 3 again, or at 259.
  lemma LateByte(s: seq<byte>)
    requires s != [] && s[0] % 128 == 1
    ensures PlainTail(s, 259, 0) == Fail
    ensures Varint32Tail(s, 3, 0) == if s[0] == 1 then Got(8, s[1..]) else Varint32Tail(s[1..], 10, 8)
  {
    hide ShiftLeft, BitOr;
    NanopbScalars.Shifts(1);
    ThreeUp();
  }

  lemma ThreeUp()
    ensures BitOr(0, ShiftLeft(1, 3)) == 8
  {
    hide BitOr;
    assert ShiftLeft(1, 3) == 2 * (2 * (2 * 1));
    NanopbScalars.OrZero(8);
  }

  lemma LastPadding(s: seq<byte>, bitpos: nat, result: nat)
    requires result < TWO32 && s == [0]
    ensures Varint32Tail(s, bitpos, result) == Got(result, [])
  {
    hide ShiftLeft, BitOr;
    NoBits(result, bitpos);
  }

  lemma LateBitAccepted(n: nat)
    requires n >= 37
    ensures DecodeVarint32(LateBit(n)) == Got(8, []) && PlainVarint32(LateBit(n)) == Fail
  {
    hide Varint32Tail, PlainTail, ShiftLeft, BitOr;
    var s := LateBit(n);
    Padding(s, 1, 37, 0);
    assert s[37..][1..] == s[38..];
    LateByte(s[37..]);
    if n > 37 {
      Padding(s, 38, n, 8);
      LastPadding(s[n..], 7 * n % 256, 8);
    }
  }

  /** The 32-bit decoder reads a varint as one without the wrap exactly when it has at most 37 bytes: of any greater
      length there is one whose late bits it takes for low bits of the value instead of reporting an overflow.
   */
  lemma WrapsExactly(n: nat)
    ensures (forall s :: Continues(s, n) ==> DecodeVarint32(s) == PlainVarint32(s)) <==> n <= 36
  {
    hide Varint32Tail, PlainTail;
    if n <= 36 {
      forall s | Continues(s, n) ensures DecodeVarint32(s) == PlainVarint32(s) {
        if n > 0 {
          assert Continues(s[1..], n - 1);
          SameBelow(s[1..], 7, s[0] - 128, n - 1);
        }
      }
    } else {
      LateBitAccepted(n);
      assert Continues(LateBit(n), n);
    }
  }

  // ------------------------------------------------------------------ what a 32-bit varint is

  // After the 35th bit a byte may only be padding, or ones that extend the sign of a 32-bit value.
  predicate Strays(b: byte, i: nat, negative: bool) {
    b % 128 != 0 && (!negative || b != if i < 9 then 0xff else 0x01)
  }

  // Some of the bytes k, k + 1, ... of a varint stray.
  predicate AnyStrays(s: seq<byte>, k: nat, n: nat, negative: bool)
    requires n < |s|
  {
    exists i :: 0 <= i <= n && k + i >= 5 && Strays(s[i], k + i, negative)
  }

  lemma StraysLater(s: seq<byte>, k: nat, n: nat, negative: bool)
    requires 0 < n < |s|
    ensures AnyStrays(s, k, n, negative)
       <==> (k >= 5 && Strays(s[0], k, negative)) || AnyStrays(s[1..], k + 1, n - 1, negative)
  {
    hide Strays;
    if i :| 0 <= i <= n && k + i >= 5 && Strays(s[i], k + i, negative) {
      assert i > 0 ==> s[1..][i - 1] == s[i] && Strays(s[1..][i - 1], k + 1 + (i - 1), negative);
    }
    if i :| 0 <= i <= n - 1 && k + 1 + i >= 5 && Strays(s[1..][i], k + 1 + i, negative) {
      assert Strays(s[i + 1], k + (i + 1), negative);
    }
  }

  lemma {:induction false} LateBytes(s: seq<byte>, k: nat, r: nat, n: nat)
    requires r < TWO32 && Continues(s, n) && k >= 5
    ensures PlainTail(s, 7 * k, r)
         == if AnyStrays(s, k, n, r >= 0x8000_0000) then Fail else Got(r, s[n + 1..])
    decreases n
  {
    hide BitOr, ShiftLeft;
    if n == 0 {
      assert AnyStrays(s, k, 0, r >= 0x8000_0000) == Strays(s[0], k, r >= 0x8000_0000);
    } else {
      StraysLater(s, k, n, r >= 0x8000_0000);
      assert Continues(s[1..], n - 1) && 7 * (k + 1) == 7 * k + 7;
      LateBytes(s[1..], k + 1, r, n - 1);
      assert s[1..][n..] == s[n + 1..];
    }
  }

  // What a bit of byte k weighs.
  function Weight(k: nat): nat {
    match k
    case 0 => 1
    case 1 => 0x80
    case 2 => 0x4000
    case 3 => 0x20_0000
    case _ => 0x1000_0000
  }

  lemma Joined(r: nat, y: nat, k: nat)
    requires 1 <= k <= 4 && r < Weight(k)
    ensures BitOr(r, ShiftLeft(y, 7 * k)) == r + Weight(k) * y
  {
    hide BitOr, ShiftLeft;
    NanopbScalars.Shifts(1);
    NanopbScalars.Shifts(y);
    NanopbScalars.OrAdds(r, y, 7 * k);
  }

  lemma NoBytes()
    ensures SevenBits([]) == 0
  {
  }

  // The fifth byte has the last four bits of the value; unless it is the last one, its others are dropped.
  lemma FifthByte(s: seq<byte>, r: nat, n: nat)
    requires r < 0x1000_0000 && Continues(s, n)
    ensures var total := r + 0x1000_0000 * SevenBits(s[..n + 1]);
            PlainTail(s, 28, r) == if (n == 0 && s[0] >= 16) ||
                AnyStrays(s, 4, n, total / 0x8000_0000 % 2 == 1) then Fail
                                   else Got(total % 0x1_0000_0000, s[n + 1..])
  {
    hide PlainTail, Strays, AnyStrays, SevenBits;
    FifthStep(s, r);
    FirstSeven(s, n);
    NoneStrays(s, 4);
    if n > 0 {
      var x: nat := r + 0x1000_0000 * (s[0] as int % 128);
      StraysLater(s, 4, n, (r + 0x1000_0000 * SevenBits(s[..n + 1])) / 0x8000_0000 % 2 == 1);
      assert Continues(s[1..], n - 1) && s[1..][n..] == s[n + 1..];
      LateBytes(s[1..], 5, x % TWO32, n - 1);
      DropHigh(x, SevenBits(s[1..][..n]));
    } else {
      assert s[1..][..0] == [];
      NoBytes();
    }
  }

  lemma FifthStep(s: seq<byte>, r: nat)
    requires s != [] && r < 0x1000_0000
    ensures var x: nat := r + 0x1000_0000 * (s[0] as int % 128);
            PlainTail(s, 28, r) == if s[0] >= 128 then PlainTail(s[1..], 35, x % TWO32)
                                   else if s[0] >= 16 then Fail else Got(x, s[1..])
  {
    hide BitOr, ShiftLeft;
    Joined(r, s[0] % 128, 4);
  }

  lemma NoneStrays(s: seq<byte>, k: nat)
    requires s != [] && k < 5
    ensures !AnyStrays(s, k, 0, true) && !AnyStrays(s, k, 0, false)
  {
  }

  lemma FirstSeven(s: seq<byte>, n: nat)
    requires n < |s|
    ensures SevenBits(s[..n + 1]) == s[0] % 128 + 128 * SevenBits(s[1..][..n])
  {
    assert s[..n + 1][1..] == s[1..][..n];
  }

  lemma DropHigh(x: nat, y: nat)
    ensures (x + 0x8_0000_0000 * y) % 0x1_0000_0000 == x % 0x1_0000_0000
    ensures (x + 0x8_0000_0000 * y) / 0x8000_0000 % 2 == 1 <==> x % 0x1_0000_0000 >= 0x8000_0000
  {
    var h, l := x / 0x8000_0000, x % 0x8000_0000;
    DivModUnique(x + 0x8_0000_0000 * y, 0x8000_0000, h + 16 * y, l);
    DivModUnique(h + 16 * y, 2, h / 2 + 8 * y, h % 2);
    DivModUnique(x, 0x1_0000_0000, h / 2, 0x8000_0000 * (h % 2) + l);
    DivModUnique(x + 0x8_0000_0000 * y, 0x1_0000_0000, h / 2 + 8 * y, 0x8000_0000 * (h % 2) + l);
  }

  // One byte before the fifth.
  lemma EarlyByte(s: seq<byte>, k: nat, r: nat)
    requires s != [] && 1 <= k < 4 && r < Weight(k)
    ensures var next := r + Weight(k) * (s[0] % 128);
            && next < Weight(k + 1)
            && PlainTail(s, 7 * k, r) == if s[0] >= 128 then PlainTail(s[1..], 7 * (k + 1), next) else Got(next, s[1..])
  {
    hide BitOr, ShiftLeft;
    Joined(r, s[0] % 128, k);
  }

  lemma Distribute(k: nat, y: nat, z: nat)
    requires k < 4
    ensures Weight(k) * (y + 128 * z) == Weight(k) * y + Weight(k + 1) * z
  {
  }

  // The bytes before the fifth.
  lemma {:induction false} EarlyBytes(s: seq<byte>, k: nat, r: nat, n: nat)
    requires 1 <= k <= 4 && Continues(s, n) && r < Weight(k)
    ensures var total := r + Weight(k) * SevenBits(s[..n + 1]);
            PlainTail(s, 7 * k, r) == if (k + n == 4 && s[n] >= 16) || AnyStrays(s, k, n, total / 0x8000_0000 % 2 == 1)
                                      then Fail else Got(total % 0x1_0000_0000, s[n + 1..])
    decreases 4 - k
  {
    hide PlainTail, Strays, AnyStrays, SevenBits;
    if k == 4 {
      FifthByte(s, r, n);
    } else {
      var y, z := s[0] % 128, SevenBits(s[1..][..n]);
      var total := r + Weight(k) * SevenBits(s[..n + 1]);
      FirstSeven(s, n);
      Distribute(k, y, z);
      EarlyByte(s, k, r);
      NoneStrays(s, k);
      if n > 0 {
        StraysLater(s, k, n, total / 0x8000_0000 % 2 == 1);
        assert Continues(s[1..], n - 1) && s[1..][n..] == s[n + 1..];
        EarlyBytes(s[1..], k + 1, r + Weight(k) * y, n - 1);
      } else {
        assert s[..1][1..] == [] && s[1..][..0] == [];
        NoBytes();
      }
    }
  }

  /** What the 32-bit decoder makes of any varint of up to 37 bytes: the low 32 bits of its value, unless it is one of
      five bytes with more than 32 bits, or a byte from the sixth on is neither padding nor part of the sign of a
      negative number.
   */
  lemma Varint32Means(s: seq<byte>, n: nat)
    requires Continues(s, n) && n <= 36
    ensures var v := SevenBits(s[..n + 1]);
            DecodeVarint32(s) == if (n == 4 && s[4] >= 16) || AnyStrays(s, 0, n, v / 0x8000_0000 % 2 == 1) then Fail
                                 else Got(v % 0x1_0000_0000, s[n + 1..])
  {
    hide DecodeVarint32, Strays, AnyStrays, SevenBits;
    WrapsExactly(n);
    PlainMeans(s, n);
  }

  lemma PlainMeans(s: seq<byte>, n: nat)
    requires Continues(s, n)
    ensures var v := SevenBits(s[..n + 1]);
            PlainVarint32(s) == if (n == 4 && s[4] >= 16) || AnyStrays(s, 0, n, v / 0x8000_0000 % 2 == 1) then Fail
                                else Got(v % 0x1_0000_0000, s[n + 1..])
  {
    hide PlainTail, Strays, AnyStrays, SevenBits;
    if n > 0 {
      FirstSeven(s, n);
      StraysLater(s, 0, n, SevenBits(s[..n + 1]) / 0x8000_0000 % 2 == 1);
      assert Continues(s[1..], n - 1) && s[1..][n..] == s[n + 1..];
      EarlyBytes(s[1..], 1, s[0] - 128, n - 1);
    } else {
      OneByte(s);
    }
  }

  lemma OneByte(s: seq<byte>)
    requires s != [] && s[0] < 128
    ensures SevenBits(s[..1]) == s[0] && !AnyStrays(s, 0, 0, false)
  {
    assert s[..1][1..] == [];
  }

  lemma {:induction false} ParsedInSevens(s: seq<byte>, n: nat, fuel: nat)
    requires Continues(s, n)
    ensures ParseVarint(s, fuel) == if n < fuel then Parsed(SevenBits(s[..n + 1]), n + 1) else Malformed
    decreases fuel
  {
    if fuel > 0 {
      FirstSeven(s, n);
      if n > 0 {
        assert Continues(s[1..], n - 1);
        ParsedInSevens(s[1..], n - 1, fuel - 1);
      } else {
        assert s[1..][..0] == [];
      }
    }
  }

  /** The 64-bit decoder: the low 64 bits of the value of any varint of up to ten bytes, and no longer one. */
  lemma Varint64Means(s: seq<byte>, n: nat)
    requires Continues(s, n)
    ensures DecodeVarint64(s)
         == if n <= 9 then Got(SevenBits(s[..n + 1]) % 0x1_0000_0000_0000_0000, s[n + 1..]) else Fail
  {
    hide ParseVarint, SevenBits;
    ParsedInSevens(s, n, 10);
  }

  /** Neither takes bytes that announce another one to the end. */
  lemma {:induction false} UnendedFails(s: seq<byte>, bitpos: nat, result: nat, fuel: nat)
    requires result < TWO32 && forall i :: 0 <= i < |s| ==> s[i] >= 128
    ensures Varint32Tail(s, bitpos, result) == Fail && ParseVarint(s, fuel) == Malformed
    ensures DecodeVarint32(s) == Fail
    decreases |s|
  {
    hide BitOr, ShiftLeft;
    if s != [] {
      var next := if bitpos >= 32 then result else BitOr(result, ShiftLeft(s[0] % 128, bitpos)) % TWO32;
      UnendedFails(s[1..], NextBit(bitpos), next, if fuel > 0 then fuel - 1 else 0);
      if |s| > 1 {
        UnendedFails(s[1..], 7, s[0] - 128, 0);
      }
    }
  }
}
