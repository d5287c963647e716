/** The wire format on its own: what any reader of protocol buffers finds in the encoder's bytes, and what the decoder
    skips and demands.  All numbers of the format are written out here.
 */
module NanopbWire {
  import opened Coding
  import opened NanopbCommon
  import opened NanopbDecode
  import opened NanopbFormat
  import NanopbScalars
  import NanopbVarint
  import opened Wrappers

  // ------------------------------------------------------------------ reading without a schema

  // A field as it stands on the wire: a number, eight bytes, bytes with their length, or four bytes.
  datatype Content = Number(n: nat) | Eight(bytes: seq<byte>) | Bytes(bytes: seq<byte>) | Four(bytes: seq<byte>)

  datatype Raw = Raw(tag: nat, content: Content)

  // A number in groups of seven bits, and the bytes it takes.
  function ReadNumber(s: seq<byte>): (r: Option<(nat, nat)>)
    ensures r.Some? ==> 0 < r.value.1 <= |s|
  {
    if s == [] then None
    else if s[0] < 128 then Some((s[0], 1))
    else match ReadNumber(s[1..])
         case None => None
         case Some((n, size)) => Some((s[0] - 128 + 128 * n, size + 1))
  }

  function ReadContent(kind: nat, s: seq<byte>): (r: Option<(Content, seq<byte>)>)
    ensures r.Some? ==> |r.value.1| <= |s|
  {
    match kind
    case 0 => (match ReadNumber(s) case None => None case Some((n, size)) => Some((Number(n), s[size..])))
    case 1 => if |s| >= 8 then Some((Eight(s[..8]), s[8..])) else None
    case 2 =>
      (match ReadNumber(s)
       case None => None
       case Some((n, size)) =>
         if |s| - size >= n then Some((Bytes(s[size..size + n]), s[size + n..])) else None)
    case 5 => if |s| >= 4 then Some((Four(s[..4]), s[4..])) else None
    case _ => None
  }

  function ReadFields(s: seq<byte>): Option<seq<Raw>>
    decreases |s|
  {
    if s == [] then Some([])
    else match ReadNumber(s)
         case None => None
         case Some((key, size)) =>
           match ReadContent(key % 8, s[size..])
           case None => None
           case Some((content, rest)) =>
             match ReadFields(rest)
             case None => None
             case Some(more) => Some([Raw(key / 8, content)] + more)
  }

  // ------------------------------------------------------------------ what a message is on the wire

  // Negative numbers in two's complement of 64 bits, signed ones zigzag.
  function ContentOf(l: LType, v: Value): Content
    requires ValueOk(l, v)
  {
    match l
    case TBool => Number(if v.b then 1 else 0)
    case TVarint(_) => SignedFitsLong(v.i, l.bits); Number(if v.i < 0 then v.i + 0x1_0000_0000_0000_0000 else v.i)
    case TUVarint(_) => Number(v.i)
    case TSVarint(_) => Number(if v.i < 0 then -2 * v.i - 1 else 2 * v.i)
    case TFixed32 => Four(Fixed32(v.i))
    case TFixed64 => Eight(Fixed64(v.i))
    case TSubmessage(fields) => Bytes(EncodeMessage(fields, v.slots))
    case _ => Bytes(v.bytes)
  }

  lemma SignedFitsLong(i: int, bits: nat)
    requires SignedFits(i, bits)
    ensures -0x8000_0000_0000_0000 <= i < 0x8000_0000_0000_0000
  {
    PowersOfTwo();
    hide Pow2;
  }

  /** The numbers of a field are those of its C type: none that the original can hold is excluded. */
  lemma NumbersOf(l: LType, i: int)
    ensures l == TVarint(8) || l == TSVarint(8) ==> (ValueOk(l, VInt(i)) <==> -0x80 <= i < 0x80)
    ensures l == TVarint(16) || l == TSVarint(16) ==> (ValueOk(l, VInt(i)) <==> -0x8000 <= i < 0x8000)
    ensures l == TVarint(32) || l == TSVarint(32) ==> (ValueOk(l, VInt(i)) <==> -0x8000_0000 <= i < 0x8000_0000)
    ensures l == TVarint(64) || l == TSVarint(64) ==>
              (ValueOk(l, VInt(i)) <==> -0x8000_0000_0000_0000 <= i < 0x8000_0000_0000_0000)
    ensures l == TUVarint(8) ==> (ValueOk(l, VInt(i)) <==> 0 <= i < 0x100)
    ensures l == TUVarint(16) ==> (ValueOk(l, VInt(i)) <==> 0 <= i < 0x1_0000)
    ensures l == TUVarint(32) || l.TFixed32? ==> (ValueOk(l, VInt(i)) <==> 0 <= i < 0x1_0000_0000)
    ensures l == TUVarint(64) || l.TFixed64? ==> (ValueOk(l, VInt(i)) <==> 0 <= i < 0x1_0000_0000_0000_0000)
  {
    PowersOfTwo();
    hide Pow2;
  }

  function ContentsOf(f: Field, vs: seq<Value>): seq<Raw>
    requires forall k :: 0 <= k < |vs| ==> ValueOk(f.ltype, vs[k])
  {
    if vs == [] then []
    else ContentsOf(f, vs[..|vs| - 1]) + [Raw(f.tag, ContentOf(f.ltype, vs[|vs| - 1]))]
  }

  // An array of numbers is packed into one field, whatever else is present is a field of its own.
  function RawsOf(f: Field, s: Slot): seq<Raw>
    requires SlotOk(f, s)
  {
    match f.htype
    case Required => ContentsOf(f, [s.v])
    case Optional => if s.has then ContentsOf(f, [s.v]) else []
    case OneOf(_) => if s.which then ContentsOf(f, [s.v]) else []
    case Repeated(_) =>
      if s.vs == [] then []
      else if Packable(f.ltype) then [Raw(f.tag, Bytes(EncodeValues(f, s.vs)))]
      else ContentsOf(f, s.vs)
  }

  function MessageRaws(fields: seq<Field>, slots: seq<Slot>, n: nat): seq<Raw>
    requires MessageOk(fields, slots) && n <= |fields|
  {
    if n == 0 then [] else MessageRaws(fields, slots, n - 1) + RawsOf(fields[n - 1], slots[n - 1])
  }

  // ------------------------------------------------------------------ the encoder's bytes, read without the schema

  lemma {:induction false} NumberReads(x: nat, rest: seq<byte>)
    ensures ReadNumber(Varint(x) + rest) == Some((x, |Varint(x)|))
  {
    if x >= 128 {
      NumberReads(x / 128, rest);
      assert (Varint(x) + rest)[1..] == Varint(x / 128) + rest;
    }
  }

  lemma ReadAfter(a: seq<byte>, b: seq<byte>)
    ensures (a + b)[|a|..] == b && (a + b)[..|a|] == a
  {
  }

  lemma LengthReads(b: seq<byte>, rest: seq<byte>)
    ensures ReadContent(2, LengthPrefixed(b) + rest) == Some((Bytes(b), rest))
  {
    hide Varint, ReadNumber;
    var v := Varint(|b|);
    assert LengthPrefixed(b) + rest == v + (b + rest);
    NumberReads(|b|, b + rest);
    ReadAfter(v, b + rest);
    var s := v + (b + rest);
    assert s[|v|..|v| + |b|] == b && s[|v| + |b|..] == rest;
  }

  // The literal wire type of each kind of field.
  lemma KindOf(l: LType)
    ensures WireType(l) == match l
                           case TBool => 0
                           case TVarint(_) => 0
                           case TUVarint(_) => 0
                           case TSVarint(_) => 0
                           case TFixed64 => 1
                           case TFixed32 => 5
                           case _ => 2
  {
  }

  lemma ValueReads(l: LType, v: Value, rest: seq<byte>)
    requires ValueOk(l, v)
    ensures ReadContent(WireType(l), EncodeValue(l, v) + rest) == Some((ContentOf(l, v), rest))
  {
    hide Varint, ReadNumber, Fixed32, Fixed64, LengthPrefixed, EncodeMessage, MessageOk, Pow2;
    KindOf(l);
    match l
    case TBool => NumberContent(if v.b then 1 else 0, rest);
    case TVarint(bits) =>
      SignedFitsLong(v.i, bits);
      WrapsOnce(v.i);
      NumberContent(v.i % TWO64, rest);
    case TUVarint(_) => NumberContent(v.i, rest);
    case TSVarint(_) => NumberContent(ZigZag(v.i), rest);
    case TFixed32 => ReadAfter(Fixed32(v.i), rest);
    case TFixed64 => ReadAfter(Fixed64(v.i), rest);
    case TSubmessage(fields) => LengthReads(EncodeMessage(fields, v.slots), rest);
    case _ => LengthReads(v.bytes, rest);
  }

  lemma NumberContent(x: nat, rest: seq<byte>)
    ensures ReadContent(0, Varint(x) + rest) == Some((Number(x), rest))
  {
    hide Varint, ReadNumber;
    NumberReads(x, rest);
    ReadAfter(Varint(x), rest);
  }

  lemma WrapsOnce(i: int)
    requires -0x8000_0000_0000_0000 <= i < 0x8000_0000_0000_0000
    ensures i % TWO64 == if i < 0 then i + 0x1_0000_0000_0000_0000 else i
  {
  }

  lemma FieldReads(tag: nat, kind: nat, body: seq<byte>, content: Content, rest: seq<byte>)
    requires kind < 8 && ReadContent(kind, body + rest) == Some((content, rest))
    ensures ReadFields(Tag(tag, kind) + body + rest) ==
              match ReadFields(rest) case None => None case Some(more) => Some([Raw(tag, content)] + more)
  {
    hide Varint, ReadNumber, ReadContent;
    var t, s := Tag(tag, kind), Tag(tag, kind) + body + rest;
    assert s == t + (body + rest);
    NumberReads(8 * tag + kind, body + rest);
    ReadAfter(t, body + rest);
    DivModUnique(8 * tag + kind, 8, tag, kind);
  }

  lemma {:induction false} TaggedReads(f: Field, vs: seq<Value>, rest: seq<byte>)
    requires forall k :: 0 <= k < |vs| ==> ValueOk(f.ltype, vs[k])
    ensures ReadFields(EncodeTagged(f, vs) + rest) ==
              match ReadFields(rest) case None => None case Some(more) => Some(ContentsOf(f, vs) + more)
    decreases |vs|
  {
    hide EncodeValue, Tag, WireType, ValueOk, ContentOf, ReadFields;
    if vs == [] {
      assert EncodeTagged(f, vs) + rest == rest;
      assert ReadFields(rest).Some? ==> [] + ReadFields(rest).value == ReadFields(rest).value;
    } else {
      var front, last := vs[..|vs| - 1], vs[|vs| - 1];
      var body := EncodeValue(f.ltype, last);
      var one := Tag(f.tag, WireType(f.ltype)) + body;
      KindOf(f.ltype);
      ValueReads(f.ltype, last, rest);
      KindIsSmall(f.ltype);
      FieldReads(f.tag, WireType(f.ltype), body, ContentOf(f.ltype, last), rest);
      TaggedReads(f, front, one + rest);
      assert EncodeTagged(f, vs) + rest == EncodeTagged(f, front) + (one + rest);
      if ReadFields(rest).Some? {
        var r, more := Raw(f.tag, ContentOf(f.ltype, last)), ReadFields(rest).value;
        assert ContentsOf(f, front) + ([r] + more) == ContentsOf(f, vs) + more;
      }
    }
  }

  lemma KindIsSmall(l: LType)
    ensures WireType(l) < 8
  {
  }

  lemma SlotReads(f: Field, s: Slot, rest: seq<byte>)
    requires SlotOk(f, s)
    ensures ReadFields(EncodeSlot(f, s) + rest) ==
              match ReadFields(rest) case None => None case Some(more) => Some(RawsOf(f, s) + more)
  {
    hide ReadFields, EncodeTagged, EncodeValues, ContentsOf, Tag, LengthPrefixed, ValueOk, ReadContent;
    NothingReads(rest);
    if f.htype.Repeated? {
      if s.vs != [] && Packable(f.ltype) {
        var b := EncodeValues(f, s.vs);
        LengthReads(b, rest);
        FieldReads(f.tag, 2, LengthPrefixed(b), Bytes(b), rest);
      } else {
        TaggedReads(f, s.vs, rest);
      }
    } else if s.One? || (s.Opt? && s.has) || (s.Alt? && s.which) {
      TaggedReads(f, [s.v], rest);
    }
  }

  lemma NothingReads(rest: seq<byte>)
    ensures [] + rest == rest
    ensures ReadFields(rest).Some? ==> [] + ReadFields(rest).value == ReadFields(rest).value
  {
  }

  lemma {:induction false} FirstReads(fields: seq<Field>, slots: seq<Slot>, n: nat, rest: seq<byte>)
    requires MessageOk(fields, slots) && n <= |fields|
    ensures ReadFields(EncodeFirst(fields, slots, n) + rest) ==
              match ReadFields(rest) case None => None case Some(more) => Some(MessageRaws(fields, slots, n) + more)
    decreases n
  {
    hide ReadFields, EncodeSlot, RawsOf, MessageOk;
    NothingReads(rest);
    if n > 0 {
      SlotIsOk(fields, slots, n - 1);
      var one := EncodeSlot(fields[n - 1], slots[n - 1]);
      SlotReads(fields[n - 1], slots[n - 1], rest);
      FirstReads(fields, slots, n - 1, one + rest);
      assert EncodeFirst(fields, slots, n) + rest == EncodeFirst(fields, slots, n - 1) + (one + rest);
      if ReadFields(rest).Some? {
        var raws, more := RawsOf(fields[n - 1], slots[n - 1]), ReadFields(rest).value;
        assert MessageRaws(fields, slots, n - 1) + (raws + more) == MessageRaws(fields, slots, n) + more;
      }
    }
  }

  /** A reader that knows the wire format and not the schema finds the present fields of a message in their order, each
      under its tag and in the form of its type.
   */
  lemma EncodingOnTheWire(fields: seq<Field>, slots: seq<Slot>)
    requires MessageOk(fields, slots)
    ensures ReadFields(EncodeMessage(fields, slots)) == Some(MessageRaws(fields, slots, |fields|))
  {
    hide MessageOk, EncodeFirst, MessageRaws;
    FirstReads(fields, slots, |fields|, []);
    assert EncodeFirst(fields, slots, |fields|) + [] == EncodeFirst(fields, slots, |fields|);
    assert MessageRaws(fields, slots, |fields|) + [] == MessageRaws(fields, slots, |fields|);
  }

  /** A packed array of numbers is their encodings one after the other; an array of fixed width has four or eight
      bytes an element.
   */
  lemma {:induction false} PackedOnTheWire(f: Field, vs: seq<Value>, i: nat, rest: seq<byte>)
    requires i < |vs| && Packable(f.ltype) && forall k :: 0 <= k < |vs| ==> ValueOk(f.ltype, vs[k])
    ensures |EncodeValues(f, vs[..i])| <= |EncodeValues(f, vs)|
    ensures ReadContent(if f.ltype.TFixed32? then 5 else if f.ltype.TFixed64? then 1 else 0,
                        EncodeValues(f, vs)[|EncodeValues(f, vs[..i])|..] + rest).Some?
    ensures ReadContent(if f.ltype.TFixed32? then 5 else if f.ltype.TFixed64? then 1 else 0,
                        EncodeValues(f, vs)[|EncodeValues(f, vs[..i])|..] + rest).value.0 == ContentOf(f.ltype, vs[i])
    decreases |vs|
  {
    hide EncodeValue, ValueOk, ContentOf, ReadContent;
    var front, last := vs[..|vs| - 1], vs[|vs| - 1];
    var body := EncodeValue(f.ltype, last);
    KindOf(f.ltype);
    if i < |front| {
      assert front[..i] == vs[..i];
      PackedOnTheWire(f, front, i, body + rest);
      var n := |EncodeValues(f, vs[..i])|;
      assert EncodeValues(f, vs)[n..] + rest == EncodeValues(f, front)[n..] + (body + rest);
    } else {
      ReadAfter(EncodeValues(f, front), body);
      ValueReads(f.ltype, last, rest);
    }
  }

  // ------------------------------------------------------------------ what the decoder skips

  lemma {:induction false} SkipsNumber(s: seq<byte>, n: nat)
    requires n < |s| && s[n] < 128 && forall i :: 0 <= i < n ==> s[i] >= 128
    ensures SkipVarint(s) == Got((), s[n + 1..])
  {
    if n > 0 {
      SkipsNumber(s[1..], n - 1);
    }
  }

  /** An unknown field is skipped by its wire type: a number up to its first byte without the top bit, eight bytes, a
      length and so many bytes, or four bytes.  Nothing else can be skipped.
   */
  lemma SkipsByWireType(s: seq<byte>, b: seq<byte>, rest: seq<byte>, n: nat, kind: nat)
    ensures n < |s| && s[n] < 128 && (forall i :: 0 <= i < n ==> s[i] >= 128) ==> SkipField(0, s) == Got((), s[n + 1..])
    ensures SkipField(1, s) == if |s| >= 8 then Got((), s[8..]) else Fail
    ensures |b| < 0x1_0000_0000 ==> SkipField(2, Varint(|b|) + b + rest) == Got((), rest)
    ensures SkipField(5, s) == if |s| >= 4 then Got((), s[4..]) else Fail
    ensures kind != 0 && kind != 1 && kind != 2 && kind != 5 ==> SkipField(kind, s) == Fail
  {
    hide Varint, DecodeVarint32, SkipVarint;
    if n < |s| && s[n] < 128 && forall i :: 0 <= i < n ==> s[i] >= 128 {
      SkipsNumber(s, n);
    }
    if |b| < 0x1_0000_0000 {
      assert Varint(|b|) + b + rest == Varint(|b|) + (b + rest);
      NanopbScalars.Varint32Decodes(|b|, b + rest);
      ReadAfter(b, rest);
    }
  }

  // ------------------------------------------------------------------ what the decoder makes of numbers

  // The number of the low bits, in two's complement.
  function Signed(x: nat, half: nat): int
    requires half > 0
  {
    if x % (2 * half) >= half then x % (2 * half) - 2 * half else x % (2 * half)
  }

  // The number, if the field can hold it.
  function Fitted(x: int, low: int, high: int, rest: seq<byte>): Parse<Value> {
    if low <= x < high then Got(VInt(x), rest) else Fail
  }

  /** Any varint of up to ten bytes, whoever wrote it, in a field of each integer type: unsigned ones take all 64 bits
      and must fit; signed ones of up to 32 bits take the low 32 bits, and must fit if the field is smaller; zigzag
      ones take all 64 bits and must fit.
   */
  lemma NumbersRead(bits: nat, s: seq<byte>, n: nat)
    requires NanopbVarint.Continues(s, n) && n <= 9 && (bits == 8 || bits == 16 || bits == 32 || bits == 64)
    ensures var v, rest := SevenBits(s[..n + 1]) % 0x1_0000_0000_0000_0000, s[n + 1..];
            var high := if bits == 8 then 0x80 else if bits == 16 then 0x8000 else if bits == 32 then 0x8000_0000
                        else 0x8000_0000_0000_0000;
            && DecodeValue(TUVarint(bits), VInt(0), s) == Fitted(v, 0, 2 * high, rest)
            && DecodeValue(TVarint(bits), VInt(0), s)
               == Fitted(Signed(v, if bits == 64 then high else 0x8000_0000), -high, high, rest)
            && DecodeValue(TSVarint(bits), VInt(0), s)
               == Fitted(if v % 2 == 1 then -(v / 2) - 1 else v / 2, -high, high, rest)
  {
    hide SevenBits, DecodeVarint64, NarrowSigned, ToSigned, Width, Pow2;
    NanopbVarint.Varint64Means(s, n);
    var v, rest := SevenBits(s[..n + 1]) % 0x1_0000_0000_0000_0000, s[n + 1..];
    UnsignedFits(v, bits);
    LowBits(v);
    Narrowed(ToSigned(v, if bits == 64 then 64 else 32), bits, rest);
    Narrowed(UnZigZag(v), bits, rest);
  }

  lemma UnsignedFits(v: nat, bits: nat)
    requires bits == 8 || bits == 16 || bits == 32 || bits == 64
    ensures Width(bits) && (v % Pow2(bits) == v <==> v < Pow2(bits))
    ensures Pow2(bits) == if bits == 8 then 0x100 else if bits == 16 then 0x1_0000 else if bits == 32 then 0x1_0000_0000
                          else 0x1_0000_0000_0000_0000
  {
    PowersOfTwo();
    hide Pow2;
  }

  lemma LowBits(v: nat)
    ensures ToSigned(v, 32) == Signed(v, 0x8000_0000) && ToSigned(v, 64) == Signed(v, 0x8000_0000_0000_0000)
  {
    PowersOfTwo();
    hide Pow2;
  }

  lemma Narrowed(x: int, bits: nat, rest: seq<byte>)
    requires bits == 8 || bits == 16 || bits == 32 || bits == 64
    ensures var high := if bits == 8 then 0x80 else if bits == 16 then 0x8000 else if bits == 32 then 0x8000_0000
                        else 0x8000_0000_0000_0000;
            NarrowSigned(x, bits, rest) == Fitted(x, -high, high, rest)
  {
    PowersOfTwo();
    hide Pow2;
  }

  /** What a message has before its fields are read: no optional field, no element, no member of a oneof. */
  lemma {:induction false} NothingPresent(fields: seq<Field>, i: nat)
    requires i < |fields|
    ensures match fields[i].htype
            case Required => Defaults(fields)[i].One?
            case Optional => Defaults(fields)[i].Opt? && !Defaults(fields)[i].has
            case Repeated(_) => Defaults(fields)[i] == Many([])
            case OneOf(_) => Defaults(fields)[i].Alt? && !Defaults(fields)[i].which
    ensures (fields[i].htype.Required? || fields[i].htype.Optional?) && !fields[i].ltype.TSubmessage? ==>
              Defaults(fields)[i].v == fields[i].init
    decreases |fields|
  {
    assert !fields[i].ltype.TSubmessage? ==> DefaultValue(fields[i]) == fields[i].init;
    if i < |fields| - 1 {
      NothingPresent(fields[..|fields| - 1], i);
    }
  }

  /** A zero where a key is due ends the message, whatever follows. */
  lemma ZeroEnds(fields: seq<Field>, slots: seq<Slot>, seen: set<nat>, rest: seq<byte>)
    requires |slots| == |fields|
    ensures DecodeLoop(fields, slots, seen, [0] + rest) == Some((slots, seen))
  {
  }

  // ------------------------------------------------------------------ what the decoder demands

  ghost predicate Ends(rest: seq<byte>, s: seq<byte>) {
    |rest| <= |s| && rest == s[|s| - |rest|..]
  }

  lemma EndsEnds(a: seq<byte>, b: seq<byte>, c: seq<byte>)
    requires Ends(a, b) && Ends(b, c)
    ensures Ends(a, c)
  {
  }

  lemma {:induction false} TailEnds(s: seq<byte>, bitpos: nat, result: nat)
    requires result < TWO32
    ensures Varint32Tail(s, bitpos, result).Got? ==> Ends(Varint32Tail(s, bitpos, result).rest, s)
    decreases |s|
  {
    hide BitOr, ShiftLeft;
    if s != [] && s[0] >= 128 && !Overflows(s[0], bitpos, result) {
      var next := if bitpos >= 32 then result else BitOr(result, ShiftLeft(s[0] % 128, bitpos)) % TWO32;
      TailEnds(s[1..], NextBit(bitpos), next);
    }
  }

  lemma Varint32Ends(s: seq<byte>)
    ensures DecodeVarint32(s).Got? ==> Ends(DecodeVarint32(s).rest, s)
  {
    hide Varint32Tail;
    if s != [] && s[0] >= 128 {
      TailEnds(s[1..], 7, s[0] - 128);
    }
  }

  lemma StringEnds(s: seq<byte>)
    ensures ReadString(s).Got? ==> Ends(ReadString(s).rest, s)
  {
    hide DecodeVarint32;
    Varint32Ends(s);
  }

  lemma {:induction false} VarintEnds(s: seq<byte>)
    ensures SkipVarint(s).Got? ==> Ends(SkipVarint(s).rest, s)
    decreases |s|
  {
    if s != [] {
      VarintEnds(s[1..]);
    }
  }

  lemma SkipEnds(kind: nat, s: seq<byte>)
    ensures SkipField(kind, s).Got? ==> Ends(SkipField(kind, s).rest, s)
  {
    hide ReadString, SkipVarint;
    StringEnds(s);
    VarintEnds(s);
  }

  lemma ValueEnds(l: LType, cur: Value, s: seq<byte>)
    ensures DecodeValue(l, cur, s).Got? ==> Ends(DecodeValue(l, cur, s).rest, s)
  {
    hide DecodeVarint32, ReadString, ParseVarint, Pow2, ToSigned, UnZigZag, FromLittleEndian, DecodeNoInit, SlotsOf;
    Varint32Ends(s);
    StringEnds(s);
  }

  lemma FieldEnds(f: Field, kind: nat, slot: Slot, s: seq<byte>)
    ensures DecodeField(f, kind, slot, s).Got? ==> Ends(DecodeField(f, kind, slot, s).rest, s)
  {
    hide DecodeValue, ReadString, DecodeElements, Held;
    StringEnds(s);
    ValueEnds(f.ltype, Held(f, slot), s);
    ValueEnds(f.ltype, DefaultValue(f), s);
  }

  // A key of the tag stands somewhere in the bytes.
  ghost predicate HasKeyOf(s: seq<byte>, tag: nat) {
    exists i :: 0 <= i <= |s| && IsKeyOf(s[i..], tag)
  }

  predicate IsKeyOf(s: seq<byte>, tag: nat) {
    DecodeVarint32(s).Got? && DecodeVarint32(s).value / 8 == tag
  }

  lemma KeyStays(rest: seq<byte>, s: seq<byte>, tag: nat)
    requires Ends(rest, s) && HasKeyOf(rest, tag)
    ensures HasKeyOf(s, tag)
  {
    var i :| 0 <= i <= |rest| && IsKeyOf(rest[i..], tag);
    assert rest[i..] == s[|s| - |rest| + i..];
  }

  lemma RequiredAscend(fields: seq<Field>, i: nat, j: nat)
    requires i < j <= |fields| && fields[i].htype.Required?
    ensures RequiredBefore(fields, i) < RequiredBefore(fields, j)
    decreases j
  {
    if i < j - 1 {
      RequiredAscend(fields, i, j - 1);
    }
  }

  // The bit of a required field is set only by a key of its tag.
  lemma {:induction false} SeenHasKey(fields: seq<Field>, slots: seq<Slot>, seen: set<nat>, s: seq<byte>, i: nat)
    requires |slots| == |fields| && i < |fields| && fields[i].htype.Required? && RequiredBefore(fields, i) !in seen
    requires DecodeLoop(fields, slots, seen, s).Some?
    requires RequiredBefore(fields, i) in DecodeLoop(fields, slots, seen, s).value.1
    ensures HasKeyOf(s, fields[i].tag)
    decreases |s|
  {
    hide DecodeVarint32, SkipField, DecodeField, SetSlot, RequiredBefore;
    Varint32Ends(s);
    var key, rest := DecodeVarint32(s).value, DecodeVarint32(s).rest;
    var j := FindField(fields, key / 8);
    if j == |fields| {
      SkipEnds(key % 8, rest);
      var rest1 := SkipField(key % 8, rest).rest;
      SeenHasKey(fields, slots, seen, rest1, i);
      EndsEnds(rest1, rest, s);
      KeyStays(rest1, s, fields[i].tag);
    } else if j == i {
      assert s[0..] == s && IsKeyOf(s[0..], fields[i].tag);
    } else {
      FieldEnds(fields[j], key % 8, slots[j], rest);
      var x, rest1 := DecodeField(fields[j], key % 8, slots[j], rest).value,
        DecodeField(fields[j], key % 8, slots[j], rest).rest;
      if fields[j].htype.Required? {
        if j < i { RequiredAscend(fields, j, i); } else { RequiredAscend(fields, i, j); }
      }
      SeenHasKey(fields, SetSlot(fields, slots, j, x), seen + SeenBit(fields, j), rest1, i);
      EndsEnds(rest1, rest, s);
      KeyStays(rest1, s, fields[i].tag);
    }
  }

  /** All required fields among the first 64 of them must be met, and no others. */
  lemma DemandsFirst64(fields: seq<Field>, seen: set<nat>)
    ensures AllSeen(fields, seen) <==>
            forall i :: 0 <= i < |fields| && fields[i].htype.Required? && RequiredBefore(fields, i) < 64 ==>
                          RequiredBefore(fields, i) in seen
  {
    hide RequiredBefore;
    forall i | 0 <= i < |fields| && fields[i].htype.Required?
      ensures RequiredBefore(fields, i) < RequiredBefore(fields, |fields|)
    {
      RequiredAscend(fields, i, |fields|);
    }
    if forall i :: 0 <= i < |fields| && fields[i].htype.Required? && RequiredBefore(fields, i) < 64 ==>
                     RequiredBefore(fields, i) in seen
    {
      forall k | 0 <= k < RequiredCount(fields) ensures k in seen {
        var i := RequiredAt(fields, k, |fields|);
      }
    }
  }

  lemma {:induction false} RequiredAt(fields: seq<Field>, k: nat, n: nat) returns (i: nat)
    requires n <= |fields| && k < RequiredBefore(fields, n)
    ensures i < n && fields[i].htype.Required? && RequiredBefore(fields, i) == k
    decreases n
  {
    if k < RequiredBefore(fields, n - 1) {
      i := RequiredAt(fields, k, n - 1);
    } else {
      i := n - 1;
    }
  }

  /** A message in whose bytes no key of one of the first 64 required fields stands is refused. */
  lemma MissingRequiredIsRefused(fields: seq<Field>, slots: seq<Slot>, s: seq<byte>, i: nat)
    requires |slots| == |fields| && i < |fields| && fields[i].htype.Required? && RequiredBefore(fields, i) < 64
    requires !HasKeyOf(s, fields[i].tag)
    ensures DecodeNoInit(fields, slots, s) == None
  {
    hide DecodeLoop, RequiredBefore, AllSeen;
    if DecodeLoop(fields, slots, {}, s).Some? {
      var seen := DecodeLoop(fields, slots, {}, s).value.1;
      DemandsFirst64(fields, seen);
      if RequiredBefore(fields, i) in seen {
        SeenHasKey(fields, slots, {}, s, i);
      }
    }
  }
}
