/** The block format: entries whose keys share a prefix with the key before, and restart points. */
module BlockFormat {
  import opened Coding

  type Bytes = seq<byte>

  // An entry and how many key bytes it shares with the entry before.
  datatype Item = Item(shared: nat, key: Bytes, value: Bytes)

  function From(s: Bytes, n: nat): Bytes {
    if n <= |s| then s[n..] else []
  }

  function EncodeItem(x: Item): (r: Bytes)
    ensures |r| >= 3
  {
    Varint(x.shared) + Varint(|From(x.key, x.shared)|) + Varint(|x.value|) + From(x.key, x.shared) + x.value
  }

  function Data(items: seq<Item>): Bytes
    decreases |items|
  {
    if items == [] then [] else Data(items[..|items| - 1]) + EncodeItem(items[|items| - 1])
  }

  // Where entry i starts.
  function Offset(items: seq<Item>, i: nat): nat
    requires i <= |items|
  {
    |Data(items[..i])|
  }

  // Each entry shares what it says with the entry before.
  ghost predicate ItemOk(items: seq<Item>, i: nat)
    requires i < |items|
  {
    && items[i].shared <= |items[i].key|
    && (i == 0 ==> items[i].shared == 0)
    && (i > 0 ==>
        items[i].shared <= |items[i - 1].key| && items[i].key[..items[i].shared] == items[i - 1].key[..items[i].shared])
  }

  // The entries at which restarts are: the first one (even of an empty block), then later and later ones,
  // none of which shares anything.
  ghost predicate RestartsOk(items: seq<Item>, at: seq<nat>) {
    && at != [] && at[0] == 0
    && (forall j, k :: 0 <= j < k < |at| ==> at[j] < at[k])
    && (forall j :: 0 < j < |at| ==> at[j] < |items|)
    && (forall j :: 0 <= j < |at| && at[j] < |items| ==> items[at[j]].shared == 0)
  }

  ghost predicate BlockOk(items: seq<Item>, at: seq<nat>) {
    (forall i :: 0 <= i < |items| ==> ItemOk(items, i)) && RestartsOk(items, at)
  }

  // n is the length of the longest common prefix.
  ghost predicate LongestPrefix(a: Bytes, b: Bytes, n: nat) {
    n <= |a| && n <= |b| && a[..n] == b[..n] && (n == |a| || n == |b| || a[n] != b[n])
  }

  // An entry that is no restart shares as much as it can.
  ghost predicate SharesAll(items: seq<Item>, at: seq<nat>, i: nat)
    requires i < |items|
  {
    i > 0 && i !in at ==> LongestPrefix(items[i - 1].key, items[i].key, items[i].shared)
  }

  // What the builder makes of the entries: a restart at every interval-th of them, and as much sharing as possible.
  ghost predicate Packed(items: seq<Item>, at: seq<nat>, interval: nat) {
    && at != [] && at[0] == 0 && (items == [] ==> |at| == 1)
    && (items != [] ==> at[|at| - 1] < |items| <= at[|at| - 1] + interval)
    && (forall j, k :: 0 <= j < k < |at| && k == j + 1 ==> at[k] == at[j] + interval)
    && forall i :: 0 <= i < |items| ==> SharesAll(items, at, i)
  }

  function RestartOffsets(items: seq<Item>, at: seq<nat>): (r: seq<nat>)
    requires forall j :: 0 <= j < |at| ==> at[j] <= |items|
    ensures |r| == |at| && forall j :: 0 <= j < |at| ==> r[j] == Offset(items, at[j])
    decreases |at|
  {
    if at == [] then [] else RestartOffsets(items, at[..|at| - 1]) + [Offset(items, at[|at| - 1])]
  }

  // A finished block: entries, restart offsets, number of restarts.
  function Layout(data: Bytes, restarts: seq<nat>): Bytes {
    data + EncodeWords(restarts + [|restarts|])
  }

  // ------------------------------------------------------------------ where the bytes of an entry are

  lemma {:induction false} OffsetStep(items: seq<Item>, i: nat)
    requires i < |items|
    ensures Offset(items, i + 1) == Offset(items, i) + |EncodeItem(items[i])|
  {
    hide EncodeItem;
    assert items[..i + 1][..i] == items[..i];
  }

  lemma {:induction false} OffsetsGrow(items: seq<Item>, i: nat, k: nat)
    requires i <= k <= |items|
    ensures Offset(items, i) + 3 * (k - i) <= Offset(items, k)
    decreases k - i
  {
    hide Offset, EncodeItem;
    if i < k {
      OffsetStep(items, i);
      OffsetsGrow(items, i + 1, k);
    }
  }

  lemma {:induction false} BytesOfItem(items: seq<Item>, i: nat)
    requires i < |items|
    ensures Offset(items, i) <= Offset(items, i + 1) <= |Data(items)|
    ensures Data(items)[Offset(items, i)..Offset(items, i + 1)] == EncodeItem(items[i])
    decreases |items|
  {
    hide EncodeItem;
    OffsetStep(items, i);
    var front := items[..|items| - 1];
    if i < |front| {
      BytesOfItem(front, i);
      assert front[..i] == items[..i] && front[..i + 1] == items[..i + 1];
      SlicePrefix(Data(front), Data(items), Offset(items, i), Offset(items, i + 1));
    } else {
      assert items[..i] == front && items[..i + 1] == items;
    }
  }

  // ------------------------------------------------------------------ decoding an entry

  datatype Entry = Entry(shared: nat, nonShared: nat, valueLength: nat, p: nat) | BadEntry

  datatype Lengths = Lengths(shared: nat, nonShared: nat, valueLength: nat, size: nat) | BadLengths

  // The three lengths an entry starts with.
  function ParseLengths(s: Bytes): (r: Lengths)
    ensures r.Lengths? ==> 3 <= r.size <= |s|
  {
    if |s| < 3 then BadLengths
    else if s[0] < 128 && s[1] < 128 && s[2] < 128 then
      // Three lengths below 128 are read without the varint decoder
      Lengths(s[0], s[1], s[2], 3)
    else match ParseVarint32(s)
         case Malformed => BadLengths
         case Parsed(shared, n1) =>
           match ParseVarint32(s[n1..])
           case Malformed => BadLengths
           case Parsed(nonShared, n2) =>
             match ParseVarint32(s[n1 + n2..])
             case Malformed => BadLengths
             case Parsed(valueLength, n3) => Lengths(shared, nonShared, valueLength, n1 + n2 + n3)
  }

  // Decodes the entry that starts at p; never looks past limit.  The sum is taken in 32-bit arithmetic.
  function DecodeEntry(data: Bytes, p: nat, limit: nat): (e: Entry)
    requires limit <= |data|
    ensures e.Entry? ==> p < e.p <= limit
  {
    if limit < p then BadEntry
    else match ParseLengths(data[p..limit])
    case BadLengths => BadEntry
    case Lengths(shared, nonShared, valueLength, size) =>
      if (limit - p - size) % TWO32 < (nonShared + valueLength) % TWO32 then BadEntry
      else Entry(shared, nonShared, valueLength, p + size)
  }

  lemma OneByte(s: Bytes)
    requires s != [] && s[0] < 128
    ensures ParseVarint32(s) == Parsed(s[0], 1)
  {
  }

  lemma SplitThree(a: Bytes, b: Bytes, d: Bytes, rest: Bytes)
    ensures var s := a + (b + (d + rest)); s[|a|..] == b + (d + rest) && s[|a| + |b|..] == d + rest
  {
  }

  lemma FastPathParses(s: Bytes)
    requires |s| >= 3 && s[0] < 128 && s[1] < 128 && s[2] < 128
    ensures ParseVarint32(s) == Parsed(s[0], 1) && ParseVarint32(s[1..]) == Parsed(s[1], 1)
    ensures ParseVarint32(s[2..]) == Parsed(s[2], 1)
  {
    OneByte(s);
    OneByte(s[1..]);
    OneByte(s[2..]);
  }

  // The fast path reads what the slow path would.
  lemma LengthsRoundTrip(a: nat, b: nat, d: nat, rest: Bytes)
    requires a < TWO32 && b < TWO32 && d < TWO32
    ensures ParseLengths(Varint(a) + (Varint(b) + (Varint(d) + rest)))
         == Lengths(a, b, d, |Varint(a)| + |Varint(b)| + |Varint(d)|)
  {
    hide Varint, ParseVarint32, TWO32;
    var va, vb, vd := Varint(a), Varint(b), Varint(d);
    var s := va + (vb + (vd + rest));
    SplitThree(va, vb, vd, rest);
    Varint32RoundTrip(a, vb + (vd + rest));
    Varint32RoundTrip(b, vd + rest);
    Varint32RoundTrip(d, rest);
    if s[0] < 128 && s[1] < 128 && s[2] < 128 {
      FastPathParses(s);
    }
  }

  lemma EntryRoundTrip(x: Item, data: Bytes, p: nat, limit: nat)
    requires x.shared <= |x.key| < TWO32 && p <= limit <= |data| && limit < TWO32
    requires EncodeItem(x) <= data[p..limit]
    ensures var e := DecodeEntry(data, p, limit);
            && e.Entry? && e.shared == x.shared && e.nonShared == |x.key| - x.shared && e.valueLength == |x.value|
            && e.p + e.nonShared + e.valueLength == p + |EncodeItem(x)|
            && data[e.p..e.p + e.nonShared] == x.key[x.shared..]
            && data[e.p + e.nonShared..e.p + e.nonShared + e.valueLength] == x.value
  {
    hide Varint, ParseLengths;
    var suffix, s := From(x.key, x.shared), data[p..limit];
    var head := Varint(x.shared) + Varint(|suffix|) + Varint(|x.value|);
    var more := s[|EncodeItem(x)|..];
    Regroup(Varint(x.shared), Varint(|suffix|), Varint(|x.value|), suffix, x.value, more);
    assert s == EncodeItem(x) + more;
    LengthsRoundTrip(x.shared, |suffix|, |x.value|, suffix + x.value + more);
    SmallMod32(limit - p - |head|);
    SmallMod32(|suffix| + |x.value|);
    MiddleSlice3(head, suffix, x.value, more);
    SliceShift(data, p, limit, |head|, |head| + |suffix|);
    SliceShift(data, p, limit, |head| + |suffix|, |head| + |suffix| + |x.value|);
  }

  lemma Regroup(a: Bytes, b: Bytes, d: Bytes, k: Bytes, v: Bytes, more: Bytes)
    ensures a + b + d + k + v + more == a + (b + (d + (k + v + more))) == a + b + d + (k + v + more)
  {
  }

  lemma SmallMod32(x: nat)
    requires x < TWO32
    ensures x % TWO32 == x
  {
  }

  lemma MiddleSlice3(a: Bytes, b: Bytes, d: Bytes, e: Bytes)
    ensures var s := a + (b + d + e);
            s[|a|..|a| + |b|] == b && s[|a| + |b|..|a| + |b| + |d|] == d
  {
  }

  lemma SliceShift(data: Bytes, p: nat, limit: nat, i: nat, j: nat)
    requires p <= limit <= |data| && i <= j <= limit - p
    ensures data[p..limit][i..j] == data[p + i..p + j]
  {
    forall k | 0 <= k < j - i ensures data[p..limit][i..j][k] == data[p + i..p + j][k] {
    }
  }
}
