/** Protocol buffer messages of static fields: schemas, values, and the bytes a message is written as. */
module NanopbFormat {
  import opened Coding
  import opened Wrappers

  // ------------------------------------------------------------------ schemas and values

  // How a field's data is stored; bits is the width of an integer, max and size are in bytes.
  datatype LType =
    | TBool
    | TVarint(bits: nat)
    | TUVarint(bits: nat)
    | TSVarint(bits: nat)
    | TFixed32
    | TFixed64
    | TBytes(max: nat)
    | TString(max: nat)
    | TSubmessage(fields: seq<Field>)
    | TFixedBytes(size: nat)

  // How often it occurs; members of a oneof share a group.
  datatype HType = Required | Optional | Repeated(arraySize: nat) | OneOf(group: nat)

  // One entry of a field array; init is the value before decoding.
  datatype Field = Field(tag: nat, ltype: LType, htype: HType, init: Value)

  datatype Value = VBool(b: bool) | VInt(i: int) | VBytes(bytes: seq<byte>) | VMessage(slots: seq<Slot>)

  // The place of a field in the message struct: value, has flag and value, array, or which flag and value.
  datatype Slot = One(v: Value) | Opt(has: bool, v: Value) | Many(vs: seq<Value>) | Alt(which: bool, v: Value)

  const MAX_REQUIRED_FIELDS: nat := 64

  predicate Packable(l: LType) {
    l.TBool? || l.TVarint? || l.TUVarint? || l.TSVarint? || l.TFixed32? || l.TFixed64?
  }

  predicate Width(bits: nat) {
    bits == 8 || bits == 16 || bits == 32 || bits == 64
  }

  predicate SignedFits(i: int, bits: nat) {
    Width(bits) && 0 <= i + Pow2(bits - 1) < 2 * Pow2(bits - 1)
  }

  // A value of the right C type.
  predicate ShapeOk(l: LType, v: Value)
    decreases l
  {
    match l
    case TBool => v.VBool?
    case TVarint(bits) => v.VInt? && SignedFits(v.i, bits)
    case TUVarint(bits) => v.VInt? && Width(bits) && 0 <= v.i < Pow2(bits)
    case TSVarint(bits) => v.VInt? && SignedFits(v.i, bits)
    case TFixed32 => v.VInt? && 0 <= v.i < TWO32
    case TFixed64 => v.VInt? && 0 <= v.i < TWO64
    case TSubmessage(fields) => v.VMessage? && MessageShape(fields, v.slots)
    case TFixedBytes(size) => v.VBytes? && |v.bytes| == size < TWO64
    case _ => v.VBytes? && |v.bytes| < TWO64
  }

  predicate SlotShape(f: Field, s: Slot)
    decreases f
  {
    match f.htype
    case Required => s.One? && ShapeOk(f.ltype, s.v)
    case Optional => s.Opt? && ShapeOk(f.ltype, s.v)
    case Repeated(n) => s.Many? && forall k :: 0 <= k < |s.vs| ==> ShapeOk(f.ltype, s.vs[k])
    case OneOf(_) => s.Alt? && (s.which ==> ShapeOk(f.ltype, s.v))
  }

  predicate MessageShape(fields: seq<Field>, slots: seq<Slot>)
    decreases fields
  {
    |slots| == |fields| && forall i :: 0 <= i < |fields| ==> SlotShape(fields[i], slots[i])
  }

  // A value that the encoder takes whole and the struct can hold.
  predicate ValueOk(l: LType, v: Value)
    decreases l
  {
    match l
    case TBool => v.VBool?
    case TVarint(bits) => v.VInt? && SignedFits(v.i, bits)
    case TUVarint(bits) => v.VInt? && Width(bits) && 0 <= v.i < Pow2(bits)
    case TSVarint(bits) => v.VInt? && SignedFits(v.i, bits)
    case TFixed32 => v.VInt? && 0 <= v.i < TWO32
    case TFixed64 => v.VInt? && 0 <= v.i < TWO64
    case TBytes(max) => v.VBytes? && |v.bytes| <= max
    case TString(max) => v.VBytes? && |v.bytes| < max && forall k :: 0 <= k < |v.bytes| ==> v.bytes[k] != 0
    case TFixedBytes(size) => v.VBytes? && |v.bytes| == size
    case TSubmessage(fields) => v.VMessage? && MessageOk(fields, v.slots)
  }

  // The slot has the shape of its field; values that are not present may be anything of the right shape.
  predicate SlotOk(f: Field, s: Slot)
    decreases f
  {
    match f.htype
    case Required => s.One? && ValueOk(f.ltype, s.v)
    case Optional => s.Opt? && (s.has ==> ValueOk(f.ltype, s.v))
    case Repeated(n) => s.Many? && |s.vs| <= n && forall k :: 0 <= k < |s.vs| ==> ValueOk(f.ltype, s.vs[k])
    case OneOf(_) => s.Alt? && (s.which ==> ValueOk(f.ltype, s.v))
  }

  // At most one member of a oneof is present.
  predicate Exclusive(fields: seq<Field>, slots: seq<Slot>) {
    |slots| == |fields| &&
    forall i, j ::
      && 0 <= i < j < |fields| && fields[i].htype.OneOf? && fields[i].htype == fields[j].htype
      && slots[i].Alt? && slots[j].Alt?
      ==> !(slots[i].which && slots[j].which)
  }

  predicate MessageOk(fields: seq<Field>, slots: seq<Slot>)
    decreases fields
  {
    |slots| == |fields| && Exclusive(fields, slots) && forall i :: 0 <= i < |fields| ==> SlotOk(fields[i], slots[i])
  }

  // Distinct tags that fit a 32-bit key, at every depth.
  predicate SchemaOk(fields: seq<Field>)
    decreases fields
  {
    && (forall i, j :: 0 <= i < j < |fields| ==> fields[i].tag != fields[j].tag)
    && (forall i :: 0 <= i < |fields| ==> FieldOk(fields[i]))
  }

  predicate FieldOk(f: Field)
    decreases f
  {
    0 < f.tag < 0x2000_0000 && TypeOk(f.ltype) && (f.htype.Repeated? ==> f.htype.arraySize < TWO32)
  }

  predicate TypeOk(l: LType)
    decreases l
  {
    match l
    case TSubmessage(fields) => SchemaOk(fields)
    case TBytes(max) => max < TWO32
    case TString(max) => max < TWO32
    case TFixedBytes(size) => size < TWO32
    case _ => true
  }

  // ------------------------------------------------------------------ wire format

  const WT_VARINT: nat := 0
  const WT_64BIT: nat := 1
  const WT_STRING: nat := 2
  const WT_32BIT: nat := 5

  function WireType(l: LType): nat {
    match l
    case TBool => WT_VARINT
    case TVarint(_) => WT_VARINT
    case TUVarint(_) => WT_VARINT
    case TSVarint(_) => WT_VARINT
    case TFixed32 => WT_32BIT
    case TFixed64 => WT_64BIT
    case _ => WT_STRING
  }

  function Tag(tag: nat, wireType: nat): seq<byte> {
    Varint(8 * tag + wireType)
  }

  function ZigZag(i: int): nat {
    if i < 0 then -2 * i - 1 else 2 * i
  }

  // The bytes of a value without its tag.
  function EncodeValue(l: LType, v: Value): seq<byte>
    requires ValueOk(l, v)
    decreases l
  {
    match l
    case TBool => Varint(if v.b then 1 else 0)
    case TVarint(_) => Varint(v.i % TWO64)
    case TUVarint(_) => Varint(v.i)
    case TSVarint(_) => Varint(ZigZag(v.i))
    case TFixed32 => Fixed32(v.i)
    case TFixed64 => Fixed64(v.i)
    case TSubmessage(fields) => LengthPrefixed(EncodeMessage(fields, v.slots))
    case _ => LengthPrefixed(v.bytes)
  }

  function EncodeValues(f: Field, vs: seq<Value>): seq<byte>
    requires forall k :: 0 <= k < |vs| ==> ValueOk(f.ltype, vs[k])
    decreases f, 0, |vs|
  {
    if vs == [] then [] else EncodeValues(f, vs[..|vs| - 1]) + EncodeValue(f.ltype, vs[|vs| - 1])
  }

  // Each value with its own tag.
  function EncodeTagged(f: Field, vs: seq<Value>): seq<byte>
    requires forall k :: 0 <= k < |vs| ==> ValueOk(f.ltype, vs[k])
    decreases f, 0, |vs|
  {
    if vs == [] then []
    else EncodeTagged(f, vs[..|vs| - 1]) + (Tag(f.tag, WireType(f.ltype)) + EncodeValue(f.ltype, vs[|vs| - 1]))
  }

  function EncodeSlot(f: Field, s: Slot): seq<byte>
    requires SlotOk(f, s)
    decreases f, 1
  {
    match f.htype
    case Required => EncodeTagged(f, [s.v])
    case Optional => if s.has then EncodeTagged(f, [s.v]) else []
    case OneOf(_) => if s.which then EncodeTagged(f, [s.v]) else []
    case Repeated(_) =>
      if s.vs == [] then []
      else if Packable(f.ltype) then Tag(f.tag, WT_STRING) + LengthPrefixed(EncodeValues(f, s.vs))
      else EncodeTagged(f, s.vs)
  }

  // The fields one after the other.
  function EncodeMessage(fields: seq<Field>, slots: seq<Slot>): seq<byte>
    requires MessageOk(fields, slots)
    decreases fields
  {
    EncodeFirst(fields, slots, |fields|)
  }

  function EncodeFirst(fields: seq<Field>, slots: seq<Slot>, n: nat): seq<byte>
    requires MessageOk(fields, slots) && n <= |fields|
    decreases fields, 0, n
  {
    if n == 0 then [] else EncodeFirst(fields, slots, n - 1) + EncodeSlot(fields[n - 1], slots[n - 1])
  }

  // ------------------------------------------------------------------ sizes

  lemma ValuesStep(f: Field, vs: seq<Value>, i: nat)
    requires i < |vs| && forall k :: 0 <= k < |vs| ==> ValueOk(f.ltype, vs[k])
    ensures EncodeValues(f, vs[..i + 1]) == EncodeValues(f, vs[..i]) + EncodeValue(f.ltype, vs[i])
    ensures EncodeTagged(f, vs[..i + 1]) == EncodeTagged(f, vs[..i])
            + (Tag(f.tag, WireType(f.ltype)) + EncodeValue(f.ltype, vs[i]))
  {
    hide EncodeValue, Tag, ValueOk;
    assert vs[..i + 1][..i] == vs[..i];
  }

  lemma {:induction false} ValuesGrow(f: Field, vs: seq<Value>, i: nat)
    requires i <= |vs| && forall k :: 0 <= k < |vs| ==> ValueOk(f.ltype, vs[k])
    ensures |EncodeValues(f, vs[..i])| <= |EncodeValues(f, vs)| && |EncodeTagged(f, vs[..i])| <= |EncodeTagged(f, vs)|
    decreases |vs| - i
  {
    hide EncodeValue, EncodeValues, EncodeTagged, Tag, ValueOk;
    if i < |vs| {
      ValuesStep(f, vs, i);
      ValuesGrow(f, vs, i + 1);
    } else {
      assert vs[..i] == vs;
    }
  }

  lemma {:induction false} FixedSizes(f: Field, vs: seq<Value>)
    requires forall k :: 0 <= k < |vs| ==> ValueOk(f.ltype, vs[k])
    ensures f.ltype.TFixed32? ==> |EncodeValues(f, vs)| == 4 * |vs|
    ensures f.ltype.TFixed64? ==> |EncodeValues(f, vs)| == 8 * |vs|
    decreases |vs|
  {
    if vs != [] {
      FixedSizes(f, vs[..|vs| - 1]);
    }
  }

  lemma {:induction false} FirstGrows(fields: seq<Field>, slots: seq<Slot>, n: nat)
    requires MessageOk(fields, slots) && n <= |fields|
    ensures |EncodeFirst(fields, slots, n)| <= |EncodeMessage(fields, slots)|
    decreases |fields| - n
  {
    hide EncodeSlot, MessageOk;
    if n < |fields| {
      assert SlotOk(fields[n], slots[n]) by { SlotIsOk(fields, slots, n); }
      FirstGrows(fields, slots, n + 1);
    }
  }

  lemma SlotIsOk(fields: seq<Field>, slots: seq<Slot>, i: nat)
    requires MessageOk(fields, slots) && i < |fields|
    ensures |slots| == |fields| && SlotOk(fields[i], slots[i])
  {
  }

  lemma PowersOfTwo()
    ensures Pow2(7) == 0x80 && Pow2(8) == 0x100 && Pow2(15) == 0x8000 && Pow2(16) == 0x1_0000
    ensures Pow2(31) == 0x8000_0000 && Pow2(32) == TWO32
    ensures Pow2(63) == 0x8000_0000_0000_0000 && Pow2(64) == TWO64
  {
    assert Pow2(7) == 0x80 && Pow2(8) == 0x100;
    assert Pow2(15) == 0x8000 && Pow2(16) == 0x1_0000;
    assert Pow2(23) == 0x80_0000 && Pow2(24) == 0x100_0000;
    assert Pow2(31) == 0x8000_0000 && Pow2(32) == TWO32;
    assert Pow2(39) == 0x80_0000_0000 && Pow2(40) == 0x100_0000_0000;
    assert Pow2(47) == 0x8000_0000_0000 && Pow2(48) == 0x1_0000_0000_0000;
    assert Pow2(55) == 0x80_0000_0000_0000 && Pow2(56) == 0x100_0000_0000_0000;
  }
}
