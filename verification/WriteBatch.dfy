/** Write batches: a byte string of updates with a sequence number, and its replay into a memtable. */
module WriteBatch {
  import opened Coding

  // Eight bytes of sequence number and four of count.
  const HEADER: nat := 12

  datatype Update = Put(key: seq<byte>, value: seq<byte>) | Delete(key: seq<byte>)

  datatype Status = Fine | TooSmall | BadPut | BadDelete | UnknownTag | WrongCount

  // ------------------------------------------------------------------ encoding

  // The lengths fit the 32-bit prefixes.
  predicate Encodable(u: Update) {
    |u.key| < TWO32 && (u.Put? ==> |u.value| < TWO32)
  }

  function EncodeUpdate(u: Update): (r: seq<byte>)
    ensures |r| > 0
  {
    match u
    case Put(key, value) => [TYPE_VALUE] + LengthPrefixed(key) + LengthPrefixed(value)
    case Delete(key) => [TYPE_DELETION] + LengthPrefixed(key)
  }

  function EncodeUpdates(us: seq<Update>): seq<byte>
    decreases |us|
  {
    if us == [] then [] else EncodeUpdate(us[0]) + EncodeUpdates(us[1..])
  }

  function Encode(sequence: nat, us: seq<Update>): (r: seq<byte>)
    ensures |r| >= HEADER
  {
    Fixed64(sequence) + Fixed32(|us|) + EncodeUpdates(us)
  }

  lemma {:induction false} EncodeAppend(us: seq<Update>, vs: seq<Update>)
    ensures EncodeUpdates(us + vs) == EncodeUpdates(us) + EncodeUpdates(vs)
    decreases |us|
  {
    hide EncodeUpdate;
    if us == [] {
      assert us + vs == vs;
    } else {
      EncodeAppend(us[1..], vs);
      assert (us + vs)[1..] == us[1..] + vs;
    }
  }

  // ------------------------------------------------------------------ decoding

  // The updates handed to the handler before the end or an error, and how the scan of the body ends.
  datatype Scan = Scan(updates: seq<Update>, status: Status)

  function ScanUpdate(input: seq<byte>): (r: (OneScan, seq<byte>))
    requires input != []
    ensures |r.1| < |input|
  {
    var tag, rest := input[0], input[1..];
    if tag == TYPE_VALUE then
      match ParseLengthPrefixed(rest)
      case BadSlice => (Error(BadPut), [])
      case Slice(key, rest1) =>
        match ParseLengthPrefixed(rest1)
        case BadSlice => (Error(BadPut), [])
        case Slice(value, rest2) => (Found(Put(key, value)), rest2)
    else if tag == TYPE_DELETION then
      match ParseLengthPrefixed(rest)
      case BadSlice => (Error(BadDelete), [])
      case Slice(key, rest1) => (Found(Delete(key)), rest1)
    else (Error(UnknownTag), [])
  }

  datatype OneScan = Found(update: Update) | Error(status: Status)

  function ScanUpdates(input: seq<byte>): Scan
    decreases |input|
  {
    if input == [] then Scan([], Fine)
    else
      var (r, rest) := ScanUpdate(input);
      match r
      case Error(status) => Scan([], status)
      case Found(u) => var s := ScanUpdates(rest); Scan([u] + s.updates, s.status)
  }

  lemma UpdateRoundTrip(u: Update, rest: seq<byte>)
    requires Encodable(u)
    ensures ScanUpdate(EncodeUpdate(u) + rest) == (Found(u), rest)
  {
    hide ParseLengthPrefixed, LengthPrefixed;
    var all := EncodeUpdate(u) + rest;
    match u {
      case Put(key, value) =>
        assert all[1..] == LengthPrefixed(key) + (LengthPrefixed(value) + rest);
        LengthPrefixedRoundTrip(key, LengthPrefixed(value) + rest);
        LengthPrefixedRoundTrip(value, rest);
      case Delete(key) =>
        assert all[1..] == LengthPrefixed(key) + rest;
        LengthPrefixedRoundTrip(key, rest);
    }
  }

  /** The body of a batch scans back to the updates it was built from. */
  lemma {:induction false} UpdatesRoundTrip(us: seq<Update>)
    requires forall u :: u in us ==> Encodable(u)
    ensures ScanUpdates(EncodeUpdates(us)) == Scan(us, Fine)
    decreases |us|
  {
    hide EncodeUpdate, ScanUpdate;
    if us != [] {
      UpdateRoundTrip(us[0], EncodeUpdates(us[1..]));
      UpdatesRoundTrip(us[1..]);
    }
  }

  // The count is kept as a 32-bit int.
  function CountOf(rep: seq<byte>): int
    requires |rep| >= HEADER
  {
    var n := DecodeFixed32(rep[8..]);
    if n < 0x8000_0000 then n else n - TWO32
  }

  lemma CountIsSigned(rep: seq<byte>)
    requires |rep| >= HEADER
    ensures -0x8000_0000 <= CountOf(rep) < 0x8000_0000
    ensures CountOf(rep) == DecodeFixed32(rep[8..]) || CountOf(rep) == DecodeFixed32(rep[8..]) - 0x1_0000_0000
  {
    FromBound(rep[8..][..4]);
    assert Pow256(4) == 256 * (256 * (256 * (256 * Pow256(0))));
  }

  function SequenceOf(rep: seq<byte>): nat
    requires |rep| >= HEADER
  {
    DecodeFixed64(rep)
  }

  // What Iterate does with any byte string.
  function Replay(rep: seq<byte>): Scan {
    if |rep| < HEADER then Scan([], TooSmall)
    else
      var s := ScanUpdates(rep[HEADER..]);
      if s.status == Fine && |s.updates| != CountOf(rep) then Scan(s.updates, WrongCount) else s
  }

  /** Iterate gives back what was put in, and the header its sequence number and count. */
  lemma ReplayRoundTrip(sequence: nat, us: seq<Update>)
    requires sequence < TWO64 && |us| < 0x8000_0000 && forall u :: u in us ==> Encodable(u)
    ensures Replay(Encode(sequence, us)) == Scan(us, Fine)
    ensures SequenceOf(Encode(sequence, us)) == sequence && CountOf(Encode(sequence, us)) == |us|
  {
    hide Encode, ScanUpdates, EncodeUpdates, Fixed32, Fixed64, DecodeFixed32, DecodeFixed64, Encodable;
    EncodeParts(sequence, us);
    Fixed64RoundTrip(sequence, Fixed32(|us|) + EncodeUpdates(us));
    Fixed32RoundTrip(|us|, EncodeUpdates(us));
    UpdatesRoundTrip(us);
  }

  lemma EncodeParts(sequence: nat, us: seq<Update>)
    ensures var rep := Encode(sequence, us);
            && rep == Fixed64(sequence) + (Fixed32(|us|) + EncodeUpdates(us)) && rep[..8] == Fixed64(sequence)
            && rep[8..] == Fixed32(|us|) + EncodeUpdates(us) && rep[HEADER..] == EncodeUpdates(us)
  {
    hide Fixed64, Fixed32, EncodeUpdates;
  }

  lemma ExtendEncoding(sequence: nat, us: seq<Update>, vs: seq<Update>)
    ensures Encode(sequence, us + vs) == Fixed64(sequence) + Fixed32(|us| + |vs|)
            + EncodeUpdates(us) + EncodeUpdates(vs)
  {
    EncodeAppend(us, vs);
    hide EncodeUpdates, Fixed32, Fixed64;
  }

  // ------------------------------------------------------------------ the batch

  class Batch {
    var rep: seq<byte>
    ghost var sequence: nat
    ghost var updates: seq<Update>

    ghost predicate Valid()
      reads this
    {
      && rep == Encode(sequence, updates) && sequence < TWO64 && |updates| < 0x8000_0000
      && forall u :: u in updates ==> Encodable(u)
    }

    constructor ()
      ensures Valid() && updates == [] && sequence == 0
    {
      rep := Fixed64(0) + Fixed32(0);
      sequence, updates := 0, [];
      new;
      assert rep == Fixed64(0) + Fixed32(0) + [];
    }

    function Count(): int
      requires |rep| >= HEADER
      reads this
    {
      CountOf(rep)
    }

    method SetCount(n: nat)
      requires |rep| >= HEADER
      modifies this`rep
      ensures rep == old(rep)[..8] + Fixed32(n) + old(rep)[HEADER..]
    {
      rep := rep[..8] + Fixed32(n) + rep[HEADER..];
    }

    method SetSequence(s: nat)
      requires Valid() && s < TWO64
      modifies this
      ensures Valid() && sequence == s && updates == old(updates)
    {
      hide Fixed32, Fixed64, EncodeUpdates, Encodable;
      EncodeParts(sequence, updates);
      rep := Fixed64(s) + rep[8..];
      sequence := s;
      EncodeParts(s, updates);
    }

    // Appends updates that are encoded already.
    method Extend(bytes: seq<byte>, ghost us: seq<Update>, n: nat)
      requires Valid() && bytes == EncodeUpdates(us) && n == |us| && |updates| + n < 0x8000_0000
      requires forall u :: u in us ==> Encodable(u)
      modifies this
      ensures Valid() && updates == old(updates) + us && sequence == old(sequence)
    {
      hide Encode, EncodeUpdates, Fixed32, Fixed64, Replay, CountOf, Encodable;
      ReplayRoundTrip(sequence, updates);
      EncodeParts(sequence, updates);
      SetCount(Count() + n);
      rep := rep + bytes;
      ExtendEncoding(sequence, updates, us);
      updates := updates + us;
    }

    method Put(key: seq<byte>, value: seq<byte>)
      requires Valid() && |updates| + 1 < 0x8000_0000 && |key| < TWO32 && |value| < TWO32
      modifies this
      ensures Valid() && updates == old(updates) + [Update.Put(key, value)] && sequence == old(sequence)
    {
      ghost var u := Update.Put(key, value);
      assert EncodeUpdates([u]) == EncodeUpdate(u) + EncodeUpdates([]);
      Extend([TYPE_VALUE] + LengthPrefixed(key) + LengthPrefixed(value), [u], 1);
    }

    method Delete(key: seq<byte>)
      requires Valid() && |updates| + 1 < 0x8000_0000 && |key| < TWO32
      modifies this
      ensures Valid() && updates == old(updates) + [Update.Delete(key)] && sequence == old(sequence)
    {
      ghost var u := Update.Delete(key);
      assert EncodeUpdates([u]) == EncodeUpdate(u) + EncodeUpdates([]);
      Extend([TYPE_DELETION] + LengthPrefixed(key), [u], 1);
    }

    method Append(source: Batch)
      requires Valid() && source.Valid() && |updates| + |source.updates| < 0x8000_0000
      modifies this
      ensures Valid() && updates == old(updates) + old(source.updates) && sequence == old(sequence)
    {
      ReplayRoundTrip(source.sequence, source.updates);
      assert source.rep[HEADER..] == EncodeUpdates(source.updates);
      Extend(source.rep[HEADER..], source.updates, source.Count());
    }
  }

  // Iterate: the calls made on the handler, and the status.
  method Iterate(rep: seq<byte>) returns (calls: seq<Update>, status: Status)
    ensures Scan(calls, status) == Replay(rep)
  {
    calls := [];
    if |rep| < HEADER {
      return calls, TooSmall;
    }
    var input := rep[HEADER..];
    var found := 0;
    while input != []
      invariant found == |calls|
      invariant ScanUpdates(rep[HEADER..]) ==
                Scan(calls + ScanUpdates(input).updates, ScanUpdates(input).status)
      decreases |input|
    {
      found := found + 1;
      var (r, rest) := ScanUpdate(input);
      match r {
        case Error(error) =>
          return calls, error;
        case Found(u) =>
          assert calls + [u] + ScanUpdates(rest).updates == calls + ([u] + ScanUpdates(rest).updates);
          calls := calls + [u];
          input := rest;
      }
    }
    if found != CountOf(rep) {
      status := WrongCount;
    } else {
      status := Fine;
    }
  }

  // ------------------------------------------------------------------ replay into a memtable

  // A memtable entry, before its bytes are laid out.
  datatype MemEntry = MemEntry(sequence: nat, update: Update)

  // Consecutive sequence numbers from first on, in 64-bit arithmetic.
  function Numbered(first: nat, us: seq<Update>): (es: seq<MemEntry>)
    ensures |es| == |us| && forall i :: 0 <= i < |us| ==> es[i] == MemEntry((first + i) % TWO64, us[i])
  {
    seq(|us|, i requires 0 <= i < |us| => MemEntry((first + i) % TWO64, us[i]))
  }

  lemma OneMore(first: nat, us: seq<Update>, i: nat)
    requires i < |us|
    ensures Numbered(first, us[..i + 1]) == Numbered(first, us[..i]) + [MemEntry((first + i) % TWO64, us[i])]
    ensures ((first + i) % TWO64 + 1) % TWO64 == (first + i + 1) % TWO64
  {
  }

  class MemTable {
    var entries: seq<MemEntry>   // in the order of insertion

    constructor ()
      ensures entries == []
    {
      entries := [];
    }

    method Add(sequence: nat, update: Update)
      modifies this
      ensures entries == old(entries) + [MemEntry(sequence, update)]
    {
      entries := entries + [MemEntry(sequence, update)];
    }
  }

  // InsertInto: replays a batch with sequence numbers counted up from its own.
  method InsertInto(rep: seq<byte>, mem: MemTable) returns (status: Status)
    requires |rep| >= HEADER
    modifies mem
    ensures status == Replay(rep).status
    ensures mem.entries == old(mem.entries) + Numbered(SequenceOf(rep), Replay(rep).updates)
  {
    hide Numbered, Replay, DecodeFixed64;
    var sequence := SequenceOf(rep);
    Fixed64Bound(rep);
    var calls;
    calls, status := Iterate(rep);
    var i := 0;
    while i < |calls|
      invariant 0 <= i <= |calls| && sequence == (SequenceOf(rep) + i) % TWO64
      invariant mem.entries == old(mem.entries) + Numbered(SequenceOf(rep), calls[..i])
    {
      mem.Add(sequence, calls[i]);
      OneMore(SequenceOf(rep), calls, i);
      sequence := (sequence + 1) % TWO64;
      i := i + 1;
    }
    assert calls[..i] == calls;
  }
}
