/** Fixed-width and varint integers: the standard little-endian encodings every format here is built from. */
module Coding {

  type byte = x: int | 0 <= x < 256

  const TWO32: nat := 0x1_0000_0000
  const TWO64: nat := 0x1_0000_0000_0000_0000

  // The value types of an entry.
  const TYPE_DELETION: byte := 0
  const TYPE_VALUE: byte := 1

  // ------------------------------------------------------------------ fixed width

  // The n low bytes of x, least significant first.
  function LittleEndian(x: nat, n: nat): (r: seq<byte>)
    ensures |r| == n
  {
    if n == 0 then [] else [x % 256] + LittleEndian(x / 256, n - 1)
  }

  function FromLittleEndian(s: seq<byte>): nat {
    if s == [] then 0 else s[0] + 256 * FromLittleEndian(s[1..])
  }

  function Pow256(n: nat): (r: nat)
    ensures r > 0
  {
    if n == 0 then 1 else 256 * Pow256(n - 1)
  }

  // Decoding gives back the value modulo the width.
  lemma {:induction false} LittleEndianRoundTrip(x: nat, n: nat)
    ensures FromLittleEndian(LittleEndian(x, n)) == x % Pow256(n)
  {
    if n > 0 {
      LittleEndianRoundTrip(x / 256, n - 1);
      assert LittleEndian(x, n)[1..] == LittleEndian(x / 256, n - 1);
      ModSplit(x, Pow256(n - 1));
    }
  }

  lemma ModSplit(x: nat, p: nat)
    requires p > 0
    ensures x % (256 * p) == x % 256 + 256 * ((x / 256) % p)
  {
    var q, r := x / 256, x % 256;
    var a, b := q / p, q % p;
    assert q == p * a + b;
    assert x == 256 * (p * a + b) + r == (256 * p) * a + (256 * b + r);
    DivModUnique(x, 256 * p, a, 256 * b + r);
  }

  lemma MulAtLeast(d: int, k: int)
    requires d > 0 && k > 0
    ensures d * k >= d
  {
  }

  lemma MulMonotone(a: nat, x: int, y: int)
    ensures x <= y ==> a * x <= a * y
  {
    if x <= y {
      assert a * (y - x) == a * y - a * x;
    }
  }

  lemma DivModUnique(x: int, d: int, q: int, r: int)
    requires d > 0 && 0 <= r < d && x == d * q + r
    ensures x / d == q && x % d == r
  {
    var k, m := x / d, x % d;
    assert x == d * k + m && 0 <= m < d;
    assert d * (q - k) == d * q - d * k;
    assert d * (k - q) == d * k - d * q;
    if q - k > 0 {
      MulAtLeast(d, q - k);
    } else if k - q > 0 {
      MulAtLeast(d, k - q);
    }
  }

  lemma {:induction false} BytesRoundTrip(s: seq<byte>)
    ensures LittleEndian(FromLittleEndian(s), |s|) == s
  {
    if s != [] {
      BytesRoundTrip(s[1..]);
      DivModUnique(FromLittleEndian(s), 256, FromLittleEndian(s[1..]), s[0]);
    }
  }

  lemma {:induction false} FromBound(s: seq<byte>)
    ensures FromLittleEndian(s) < Pow256(|s|)
  {
    if s != [] {
      FromBound(s[1..]);
    }
  }

  lemma Fixed64Bound(s: seq<byte>)
    requires |s| >= 8
    ensures DecodeFixed64(s) < TWO64
  {
    FromBound(s[..8]);
    assert Pow256(8) == 256 * (256 * (256 * (256 * Pow256(4))));
    assert Pow256(4) == 256 * (256 * (256 * (256 * Pow256(0))));
  }

  function Fixed32(x: nat): (r: seq<byte>)
    ensures |r| == 4
  {
    LittleEndian(x, 4)
  }

  function DecodeFixed32(s: seq<byte>): nat
    requires |s| >= 4
  {
    FromLittleEndian(s[..4])
  }

  function Fixed64(x: nat): (r: seq<byte>)
    ensures |r| == 8
  {
    LittleEndian(x, 8)
  }

  function DecodeFixed64(s: seq<byte>): nat
    requires |s| >= 8
  {
    FromLittleEndian(s[..8])
  }

  lemma Fixed32RoundTrip(x: nat, rest: seq<byte>)
    ensures DecodeFixed32(Fixed32(x) + rest) == x % TWO32
  {
    assert (Fixed32(x) + rest)[..4] == Fixed32(x);
    LittleEndianRoundTrip(x, 4);
    assert Pow256(4) == 256 * (256 * (256 * (256 * Pow256(0))));
  }

  lemma Fixed64RoundTrip(x: nat, rest: seq<byte>)
    ensures DecodeFixed64(Fixed64(x) + rest) == x % TWO64
  {
    assert (Fixed64(x) + rest)[..8] == Fixed64(x);
    LittleEndianRoundTrip(x, 8);
    assert Pow256(8) == 256 * (256 * (256 * (256 * Pow256(4))));
    assert Pow256(4) == 256 * (256 * (256 * (256 * Pow256(0))));
  }

  // Four bytes, the lowest first.
  function Word(b: seq<byte>): int
    requires |b| == 4
  {
    b[0] as int + 0x100 * (b[1] as int) + 0x1_0000 * (b[2] as int) + 0x100_0000 * (b[3] as int)
  }

  /** The low byte comes first. */
  lemma Fixed32Bytes(x: nat)
    requires x < 0x1_0000_0000
    ensures Word(Fixed32(x)) == x
  {
    var b := Fixed32(x);
    Fixed32RoundTrip(x, []);
    assert b + [] == b && b[..4] == b && b[4..] == [];
    LowestFirst(b);
  }

  lemma Fixed64Bytes(x: nat)
    requires x < 0x1_0000_0000_0000_0000
    ensures Word(Fixed64(x)[..4]) + 0x1_0000_0000 * Word(Fixed64(x)[4..]) == x
  {
    var b := Fixed64(x);
    Fixed64RoundTrip(x, []);
    assert b + [] == b && b[..8] == b;
    LowestFirst(b);
    LowestFirst(b[4..]);
    assert b[4..][..4] == b[4..] && b[4..][4..] == [];
  }

  lemma LowestFirst(b: seq<byte>)
    requires |b| >= 4
    ensures FromLittleEndian(b) == Word(b[..4]) + 0x1_0000_0000 * FromLittleEndian(b[4..])
  {
    var c, d, e := b[1..], b[2..], b[3..];
    assert b[1..] == c && c[1..] == d && d[1..] == e && e[1..] == b[4..];
    assert FromLittleEndian(e) == e[0] + 256 * FromLittleEndian(b[4..]);
    assert FromLittleEndian(d) == d[0] + 256 * FromLittleEndian(e);
    assert FromLittleEndian(c) == c[0] + 256 * FromLittleEndian(d);
  }

  // ------------------------------------------------------------------ varints

  datatype Parsed = Parsed(value: nat, size: nat) | Malformed

  // Seven bits a byte, low bits first; all bytes but the last have the top bit set.
  function Varint(x: nat): (r: seq<byte>)
    ensures |r| >= 1
  {
    if x < 128 then [x] else [128 + x % 128] + Varint(x / 128)
  }

  // Reads at most limit bytes.
  function ParseVarint(s: seq<byte>, limit: nat): (r: Parsed)
    ensures r.Parsed? ==> 1 <= r.size <= |s| && r.size <= limit
  {
    if limit == 0 || s == [] then Malformed
    else if s[0] < 128 then Parsed(s[0], 1)
    else match ParseVarint(s[1..], limit - 1)
         case Malformed => Malformed
         case Parsed(v, n) => Parsed(s[0] - 128 + 128 * v, n + 1)
  }

  function Pow128(n: nat): (r: nat)
    ensures r > 0
  {
    if n == 0 then 1 else 128 * Pow128(n - 1)
  }

  lemma {:induction false} VarintRoundTrip(x: nat, rest: seq<byte>, limit: nat)
    requires 0 < limit && x < Pow128(limit)
    ensures ParseVarint(Varint(x) + rest, limit) == Parsed(x, |Varint(x)|)
  {
    if x >= 128 {
      assert limit > 1;
      VarintRoundTrip(x / 128, rest, limit - 1);
      assert (Varint(x) + rest)[1..] == Varint(x / 128) + rest;
    }
  }

  // The low seven bits of the bytes, those of the first byte lowest.
  function SevenBits(v: seq<byte>): nat {
    if v == [] then 0 else v[0] % 128 + 128 * SevenBits(v[1..])
  }

  /** Seven bits a byte, the lowest first; the top bit is set in all bytes but the last; and none is wasted. */
  lemma {:induction false} VarintInSevens(x: nat)
    ensures var v := Varint(x);
            && v != [] && SevenBits(v) == x && v[|v| - 1] < 128 && (|v| > 1 ==> v[|v| - 1] != 0)
            && forall i :: 0 <= i < |v| - 1 ==> v[i] >= 128
  {
    if x >= 128 {
      VarintInSevens(x / 128);
      var v, w := Varint(x), Varint(x / 128);
      assert v[1..] == w && forall i :: 0 < i < |v| ==> v[i] == w[i - 1];
    }
  }

  // Varints of values below 2^32 take at most five bytes.
  function ParseVarint32(s: seq<byte>): (r: Parsed)
    ensures r.Parsed? ==> 1 <= r.size <= |s| && r.size <= 5 && r.value < TWO32
  {
    match ParseVarint(s, 5)
    case Malformed => Malformed
    case Parsed(v, n) => Parsed(v % TWO32, n)
  }

  lemma Pow128Five()
    ensures Pow128(5) == 0x8_0000_0000
  {
    assert Pow128(5) == 128 * (128 * (128 * (128 * Pow128(1))));
  }

  lemma Varint32RoundTrip(x: nat, rest: seq<byte>)
    requires x < TWO32
    ensures ParseVarint32(Varint(x) + rest) == Parsed(x, |Varint(x)|)
  {
    Pow128Five();
    VarintRoundTrip(x, rest, 5);
  }

  // ------------------------------------------------------------------ length-prefixed slices

  function LengthPrefixed(s: seq<byte>): seq<byte> {
    Varint(|s|) + s
  }

  datatype Slice = Slice(data: seq<byte>, rest: seq<byte>) | BadSlice

  function ParseLengthPrefixed(s: seq<byte>): (r: Slice)
    ensures r.Slice? ==> |r.rest| < |s|
  {
    match ParseVarint32(s)
    case Malformed => BadSlice
    case Parsed(n, size) =>
      if size + n <= |s| then Slice(s[size..size + n], s[size + n..]) else BadSlice
  }

  lemma LengthPrefixedRoundTrip(s: seq<byte>, rest: seq<byte>)
    requires |s| < TWO32
    ensures ParseLengthPrefixed(LengthPrefixed(s) + rest) == Slice(s, rest)
  {
    var n := |Varint(|s|)|;
    var all := LengthPrefixed(s) + rest;
    assert all == Varint(|s|) + (s + rest);
    Varint32RoundTrip(|s|, s + rest);
    assert all[n..n + |s|] == s && all[n + |s|..] == rest;
  }

  // ------------------------------------------------------------------ arrays of 32-bit words

  // The words one after the other.
  function EncodeWords(ws: seq<nat>): (r: seq<byte>)
    ensures |r| == 4 * |ws|
    decreases |ws|
  {
    if ws == [] then [] else EncodeWords(ws[..|ws| - 1]) + Fixed32(ws[|ws| - 1])
  }

  lemma {:induction false} WordAt(ws: seq<nat>, i: nat, before: seq<byte>, after: seq<byte>)
    requires i < |ws| && forall k :: 0 <= k < |ws| ==> ws[k] < TWO32
    ensures DecodeFixed32((before + EncodeWords(ws) + after)[|before| + 4 * i..]) == ws[i]
    decreases |ws|
  {
    var front, last := ws[..|ws| - 1], ws[|ws| - 1];
    hide Fixed32, DecodeFixed32;
    var all := before + EncodeWords(ws) + after;
    if i < |front| {
      WordAt(front, i, before, Fixed32(last) + after);
      assert all == before + EncodeWords(front) + (Fixed32(last) + after);
    } else {
      assert all[|before| + 4 * i..] == Fixed32(last) + after;
      Fixed32RoundTrip(last, after);
    }
  }

  lemma EncodeWordsLast(ws: seq<nat>)
    requires ws != []
    ensures EncodeWords(ws) == EncodeWords(ws[..|ws| - 1]) + Fixed32(ws[|ws| - 1])
  {
  }

  lemma WordAfter(before: seq<byte>, words: seq<byte>, last: nat, after: seq<byte>)
    requires last < TWO32
    ensures DecodeFixed32((before + (words + Fixed32(last)) + after)[|before| + |words|..]) == last
  {
    hide Fixed32, DecodeFixed32;
    DropPrefix(before, words, Fixed32(last), after);
    Fixed32RoundTrip(last, after);
  }

  lemma DropPrefix(a: seq<byte>, b: seq<byte>, c: seq<byte>, d: seq<byte>)
    ensures (a + (b + c) + d)[|a| + |b|..] == c + d
  {
  }

  lemma SlicePrefix(a: seq<byte>, b: seq<byte>, i: nat, j: nat)
    requires |a| <= |b| && b[..|a|] == a && i <= j <= |a|
    ensures b[i..j] == a[i..j]
  {
    forall k | 0 <= k < j - i ensures b[i..j][k] == a[i..j][k] {
      assert b[..|a|][i + k] == b[i + k];
    }
  }
}
