/** The ways to write a message: its fields in order, with unknown fields anywhere between them. */
module NanopbSpelling {
  import opened Coding
  import opened NanopbFormat
  import opened NanopbDecode

  // One piece of a message: an unknown field, a value under its own tag (inner says how a submessage is written), or a
  // packed array.
  datatype Part =
    | Noise(tag: nat, wireType: nat, data: seq<byte>)
    | Single(index: nat, v: Value, inner: seq<Part>)
    | Packed(index: nat, vs: seq<Value>)

  // ------------------------------------------------------------------ bytes

  // The bytes after the tag of an unknown field.
  function NoiseBytes(wireType: nat, data: seq<byte>): seq<byte> {
    if wireType == WT_STRING then LengthPrefixed(data) else data
  }

  predicate VarintShaped(data: seq<byte>) {
    data != [] && data[|data| - 1] < 128 && forall k :: 0 <= k < |data| - 1 ==> data[k] >= 128
  }

  // A well-formed field that the schema does not know.
  predicate NoiseOk(fields: seq<Field>, tag: nat, wireType: nat, data: seq<byte>) {
    && 0 < tag < 0x2000_0000
    && (forall i :: 0 <= i < |fields| ==> fields[i].tag != tag)
    && ((wireType == WT_VARINT && VarintShaped(data)) || (wireType == WT_64BIT && |data| == 8)
        || (wireType == WT_STRING && |data| < TWO32) || (wireType == WT_32BIT && |data| == 4))
  }

  predicate ValuesOk(f: Field, vs: seq<Value>) {
    forall k :: 0 <= k < |vs| ==> ValueOk(f.ltype, vs[k])
  }

  // Unknown fields are well formed, and every submessage is itself written in one of these ways; lengths fit 32 bits.
  ghost predicate PartOk(fields: seq<Field>, p: Part)
    decreases fields, 0
  {
    match p
    case Noise(tag, wireType, data) => NoiseOk(fields, tag, wireType, data)
    case Packed(i, vs) => i < |fields| && Packable(fields[i].ltype) && ValuesOk(fields[i], vs) &&
        |EncodeValues(fields[i], vs)| < TWO32
    case Single(i, v, inner) => i < |fields| && InnerOk(fields[i], v, inner)
  }

  ghost predicate InnerOk(f: Field, v: Value, inner: seq<Part>)
    decreases f, 0
  {
    && ValueOk(f.ltype, v)
    && (f.ltype.TSubmessage? ==> Spelling(f.ltype.fields, v.slots, inner) && |Render(f.ltype.fields, inner)| < TWO32)
  }

  ghost predicate PartsOk(fields: seq<Field>, parts: seq<Part>)
    decreases fields, 1, |parts|
  {
    parts == [] || (PartOk(fields, parts[0]) && PartsOk(fields, parts[1..]))
  }

  ghost function Render(fields: seq<Field>, parts: seq<Part>): seq<byte>
    requires PartsOk(fields, parts)
    decreases fields, 2, |parts|
  {
    if parts == [] then [] else RenderPart(fields, parts[0]) + Render(fields, parts[1..])
  }

  ghost function RenderPart(fields: seq<Field>, p: Part): seq<byte>
    requires PartOk(fields, p)
    decreases fields, 1
  {
    match p
    case Noise(tag, wireType, data) => Tag(tag, wireType) + NoiseBytes(wireType, data)
    case Packed(i, vs) => Tag(fields[i].tag, WT_STRING) + LengthPrefixed(EncodeValues(fields[i], vs))
    case Single(i, v, inner) => Tag(fields[i].tag, WireType(fields[i].ltype)) + RenderValue(fields[i], v, inner)
  }

  ghost function RenderValue(f: Field, v: Value, inner: seq<Part>): seq<byte>
    requires InnerOk(f, v, inner)
    decreases f, 1
  {
    if f.ltype.TSubmessage? then LengthPrefixed(Render(f.ltype.fields, inner)) else EncodeValue(f.ltype, v)
  }

  // ------------------------------------------------------------------ what is said

  // The parts without the unknown fields, whatever way submessages are written.
  function Said(parts: seq<Part>): seq<Part>
    decreases |parts|
  {
    if parts == [] then [] else Bare(parts[0]) + Said(parts[1..])
  }

  function Bare(p: Part): seq<Part> {
    match p
    case Noise(_, _, _) => []
    case Single(i, v, _) => [Single(i, v, [])]
    case Packed(_, _) => [p]
  }

  // What the encoder writes.
  function Plain(fields: seq<Field>, slots: seq<Slot>): seq<Part>
    requires MessageOk(fields, slots)
    decreases fields
  {
    PlainFirst(fields, slots, |fields|)
  }

  function PlainFirst(fields: seq<Field>, slots: seq<Slot>, n: nat): seq<Part>
    requires MessageOk(fields, slots) && n <= |fields|
    decreases fields, 0, n
  {
    if n == 0 then [] else PlainFirst(fields, slots, n - 1) + PlainSlot(fields[n - 1], n - 1, slots[n - 1])
  }

  function PlainSlot(f: Field, i: nat, s: Slot): seq<Part>
    requires SlotOk(f, s)
    decreases f, 2
  {
    match f.htype
    case Required => [PlainValue(f, i, s.v)]
    case Optional => if s.has then [PlainValue(f, i, s.v)] else []
    case OneOf(_) => if s.which then [PlainValue(f, i, s.v)] else []
    case Repeated(_) => if s.vs == [] then [] else if Packable(f.ltype) then [Packed(i, s.vs)]
        else PlainValues(f, i, s.vs)
  }

  function PlainValues(f: Field, i: nat, vs: seq<Value>): seq<Part>
    requires ValuesOk(f, vs)
    decreases f, 1, |vs|
  {
    if vs == [] then [] else PlainValues(f, i, vs[..|vs| - 1]) + [PlainValue(f, i, vs[|vs| - 1])]
  }

  function PlainValue(f: Field, i: nat, v: Value): Part
    requires ValueOk(f.ltype, v)
    decreases f, 0
  {
    Single(i, v, if f.ltype.TSubmessage? then Plain(f.ltype.fields, v.slots) else [])
  }

  /** The parts write the message: they say what the encoder would, and unknown fields may stand anywhere, inside
      submessages too.
   */
  ghost predicate Spelling(fields: seq<Field>, slots: seq<Slot>, parts: seq<Part>): (r: bool)
    ensures r ==> PartsOk(fields, parts)
    decreases fields, 3
  {
    MessageOk(fields, slots) && PartsOk(fields, parts) && Said(parts) == Said(Plain(fields, slots))
  }

  // ------------------------------------------------------------------ what is restored

  // The message with what is not present at its default.
  function Restored(fields: seq<Field>, slots: seq<Slot>): (r: seq<Slot>)
    requires MessageOk(fields, slots)
    ensures |r| == |fields|
    decreases fields
  {
    RestoredFirst(fields, slots, |fields|)
  }

  function RestoredFirst(fields: seq<Field>, slots: seq<Slot>, n: nat): (r: seq<Slot>)
    requires MessageOk(fields, slots) && n <= |fields|
    ensures |r| == n
    decreases fields, 0, n
  {
    if n == 0 then [] else RestoredFirst(fields, slots, n - 1) + [RestoredSlot(fields[n - 1], slots[n - 1])]
  }

  function RestoredSlot(f: Field, s: Slot): Slot
    requires SlotOk(f, s)
    decreases f, 1
  {
    match f.htype
    case Required => One(RestoredValue(f.ltype, s.v))
    case Optional => if s.has then Opt(true, RestoredValue(f.ltype, s.v)) else DefaultSlot(f)
    case OneOf(_) => if s.which then Alt(true, RestoredValue(f.ltype, s.v)) else DefaultSlot(f)
    case Repeated(_) => Many(RestoredValues(f, s.vs))
  }

  function RestoredValues(f: Field, vs: seq<Value>): (r: seq<Value>)
    requires ValuesOk(f, vs)
    ensures |r| == |vs|
    decreases f, 0, |vs|
  {
    if vs == [] then [] else RestoredValues(f, vs[..|vs| - 1]) + [RestoredValue(f.ltype, vs[|vs| - 1])]
  }

  function RestoredValue(l: LType, v: Value): Value
    requires ValueOk(l, v)
    decreases l
  {
    if l.TSubmessage? then VMessage(Restored(l.fields, v.slots)) else v
  }
}
