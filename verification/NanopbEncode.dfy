/** The protocol buffer encoder: a stream that writes or only counts, and the field encoders. */
module NanopbEncode {
  import opened Coding
  import opened NanopbCommon
  import opened NanopbFormat
  import opened Wrappers

  datatype Error = NoError | StreamFull | ArrayMaxSizeExceeded | BytesSizeExceeded | SubmsgSizeChanged

  // What an encoder takes: no byte array and no array of values above its size, at any depth.
  predicate TakesValue(l: LType, v: Value)
    decreases l
  {
    match l
    case TBytes(max) => v.VBytes? ==> |v.bytes| <= max
    case TSubmessage(fields) => v.VMessage? ==> TakesMessage(fields, v.slots)
    case _ => true
  }

  predicate TakesSlot(f: Field, s: Slot)
    decreases f
  {
    match f.htype
    case Required => s.One? ==> TakesValue(f.ltype, s.v)
    case Optional => s.Opt? && s.has ==> TakesValue(f.ltype, s.v)
    case Repeated(n) => s.Many? ==> |s.vs| <= n && forall k :: 0 <= k < |s.vs| ==> TakesValue(f.ltype, s.vs[k])
    case OneOf(_) => s.Alt? && s.which ==> TakesValue(f.ltype, s.v)
  }

  predicate TakesMessage(fields: seq<Field>, slots: seq<Slot>)
    decreases fields
  {
    forall i :: 0 <= i < |fields| && i < |slots| ==> TakesSlot(fields[i], slots[i])
  }

  ghost predicate TakesFirst(fields: seq<Field>, slots: seq<Slot>, n: nat) {
    forall i :: 0 <= i < n && i < |fields| && i < |slots| ==> TakesSlot(fields[i], slots[i])
  }

  lemma TakesAll(fields: seq<Field>, slots: seq<Slot>)
    ensures TakesFirst(fields, slots, 0) && (TakesFirst(fields, slots, |fields|) <==> TakesMessage(fields, slots))
  {
    hide TakesSlot;
  }

  lemma TakesNext(fields: seq<Field>, slots: seq<Slot>, i: nat)
    requires i < |fields| && |slots| == |fields| && TakesFirst(fields, slots, i) && TakesSlot(fields[i], slots[i])
    ensures TakesFirst(fields, slots, i + 1)
  {
    hide TakesSlot;
  }

  class OStream {
    var sizing: bool           // no write callback: only count
    var state: seq<byte>       // the bytes written so far
    var maxSize: nat
    var bytesWritten: nat
    var error: Error

    constructor (sizing: bool, state: seq<byte>, maxSize: nat)
      requires maxSize < TWO64
      ensures Valid() && this.sizing == sizing && this.state == state && this.maxSize == maxSize
      ensures bytesWritten == 0 && error == NoError
    {
      this.sizing, this.state, this.maxSize, bytesWritten, error := sizing, state, maxSize, 0, NoError;
    }

    ghost predicate Valid()
      reads this
    {
      bytesWritten < TWO64 && maxSize < TWO64 && (sizing || bytesWritten <= maxSize)
    }

    ghost predicate Room(n: nat)
      reads this
    {
      sizing || bytesWritten + n <= maxSize
    }

    // Writing b succeeds exactly when there is room for it; sizing only counts it.
    twostate predicate Wrote(ok: bool, b: seq<byte>)
      reads this
    {
      && (ok <==> old(Room(|b|)))
      && (ok ==> bytesWritten == old(bytesWritten) + |b| && (error == old(error) || error == NoError)
                 && state == if sizing then old(state) else old(state) + b)
      && (!ok ==> error == StreamFull)
    }

    // The stream is still valid and of its kind, with an error after a failure; unless the size does not fit 64 bits, b
    // was written.
    twostate predicate Writes(ok: bool, b: seq<byte>)
      reads this
    {
      && Valid() && sizing == old(sizing) && maxSize == old(maxSize) && (!ok ==> error != NoError)
      && (old(bytesWritten) + |b| < TWO64 ==> Wrote(ok, b))
    }

    // pb_write; a sizing stream may be given no buffer.
    method Write(buf: seq<byte>, count: nat, ghost b: seq<byte>) returns (ok: bool)
      requires Valid() && |b| == count && (sizing || b == buf)
      modifies this
      ensures Writes(ok, b)
    {
      if count > 0 && !sizing {
        // The sum is a size_t
        if (bytesWritten + count) % TWO64 < bytesWritten || (bytesWritten + count) % TWO64 > maxSize {
          error := StreamFull;
          return false;
        }
        state := state + buf;
      }
      bytesWritten := (bytesWritten + count) % TWO64;
      return true;
    }

    // pb_encode_varint
    method EncodeVarint(value0: nat) returns (ok: bool)
      requires Valid() && value0 < TWO64
      modifies this
      ensures Writes(ok, Varint(value0))
    {
      var value := value0;
      if value <= 0x7f {
        ok := Write([value], 1, [value]);
        return;
      }
      var buffer: seq<byte> := VarintBytes(value);
      ok := Write(buffer, |buffer|, buffer);
    }

    // pb_encode_svarint
    method EncodeSVarint(value: int) returns (ok: bool)
      requires Valid() && -0x8000_0000_0000_0000 <= value < 0x8000_0000_0000_0000
      modifies this
      ensures Writes(ok, Varint(ZigZag(value)))
    {
      hide Varint;
      var shifted := 2 * value % TWO64;                               // (uint64_t)value << 1
      var zigzagged := if value < 0 then TWO64 - 1 - shifted else shifted;
      assert zigzagged == ZigZag(value);
      ok := EncodeVarint(zigzagged);
    }

    method EncodeFixed32(value: nat) returns (ok: bool)
      requires Valid() && value < TWO32
      modifies this
      ensures Writes(ok, Fixed32(value))
    {
      var bytes := Fixed32(value);
      ok := Write(bytes, 4, bytes);
    }

    method EncodeFixed64(value: nat) returns (ok: bool)
      requires Valid() && value < TWO64
      modifies this
      ensures Writes(ok, Fixed64(value))
    {
      var bytes := Fixed64(value);
      ok := Write(bytes, 8, bytes);
    }

    // pb_encode_tag
    method EncodeTag(wireType: nat, tag: nat) returns (ok: bool)
      requires Valid() && wireType < 8 && tag < TWO32
      modifies this
      ensures Writes(ok, Tag(tag, wireType))
    {
      ok := EncodeVarint(8 * tag + wireType);
    }

    // pb_encode_string: the length and the bytes.
    method EncodeString(buffer: seq<byte>) returns (ok: bool)
      requires Valid() && |buffer| < TWO64
      modifies this
      ensures Writes(ok, LengthPrefixed(buffer))
    {
      hide Varint;
      ok := EncodeVarint(|buffer|);
      if !ok {
        return;
      }
      ok := Write(buffer, |buffer|, buffer);
    }

    // pb_encode_tag_for_field
    method EncodeTagForField(f: Field) returns (ok: bool)
      requires Valid() && FieldOk(f)
      modifies this
      ensures Writes(ok, Tag(f.tag, WireType(f.ltype)))
    {
      ok := EncodeTag(WireType(f.ltype), f.tag);
    }

    ghost predicate SameKind(sizing: bool, maxSize: nat)
      reads this
    {
      Valid() && this.sizing == sizing && this.maxSize == maxSize
    }

    // The field encoders: what the type says goes after the tag.
    method EncodeFieldValue(l: LType, v: Value) returns (ok: bool)
      requires Valid() && TypeOk(l) && ShapeOk(l, v)
      modifies this
      ensures !ok ==> error != NoError
      ensures SameKind(old(sizing), old(maxSize)) && (ValueOk(l, v) ==> Writes(ok, EncodeValue(l, v)))
      ensures ok ==> TakesValue(l, v)
      decreases l
    {
      hide TakesMessage, Varint, Tag, Fixed32, Fixed64, LengthPrefixed, ZigZag, Wrote, EncodeMessage, MessageOk,
        MessageShape, SchemaOk;
      match l {
        case TBool =>
          ok := EncodeVarint(if v.b then 1 else 0);
        case TVarint(bits) =>
          SignedRange(v.i, bits);
          ok := EncodeVarint(v.i % TWO64);
        case TUVarint(bits) =>
          UnsignedRange(v.i, bits);
          ok := EncodeVarint(v.i);
        case TSVarint(bits) =>
          SignedRange(v.i, bits);
          ok := EncodeSVarint(v.i);
        case TFixed32 =>
          ok := EncodeFixed32(v.i);
        case TFixed64 =>
          ok := EncodeFixed64(v.i);
        case TBytes(max) =>
          ok := EncBytes(max, v.bytes);
        case TString(max) =>
          ok := EncString(max, v.bytes);
        case TFixedBytes(size) =>
          ok := EncodeString(v.bytes);
        case TSubmessage(fields) =>
          ok := EncodeSubmessage(fields, v.slots);
      }
    }

    // pb_enc_bytes
    method EncBytes(max: nat, bytes: seq<byte>) returns (ok: bool)
      requires Valid() && |bytes| < TWO64
      modifies this
      ensures SameKind(old(sizing), old(maxSize)) && (!ok ==> error != NoError)
      ensures if |bytes| > max then !ok && error == BytesSizeExceeded else Writes(ok, LengthPrefixed(bytes))
    {
      if |bytes| > max {
        error := BytesSizeExceeded;
        return false;
      }
      ok := EncodeString(bytes);
    }

    // pb_enc_string: up to the terminator or the end of the buffer.
    method EncString(max: nat, bytes: seq<byte>) returns (ok: bool)
      requires Valid() && |bytes| < TWO64
      modifies this
      ensures SameKind(old(sizing), old(maxSize)) && (!ok ==> error != NoError)
      ensures |bytes| <= max && (forall k :: 0 <= k < |bytes| ==> bytes[k] != 0) ==> Writes(ok, LengthPrefixed(bytes))
    {
      hide LengthPrefixed;
      var size := 0;
      while size < max && size < |bytes| && bytes[size] != 0
        invariant size <= max && size <= |bytes|
      {
        size := size + 1;
      }
      assert |bytes| <= max && (forall k :: 0 <= k < |bytes| ==> bytes[k] != 0) ==> bytes[..size] == bytes;
      ok := EncodeString(bytes[..size]);
    }

    /** pb_encode_submessage: sizes the message with a stream that only counts, then writes it through a substream of
        exactly that size.  The substream is never full, and the size never differs.
     */
    method EncodeSubmessage(fields: seq<Field>, slots: seq<Slot>) returns (ok: bool)
      requires Valid() && SchemaOk(fields) && MessageShape(fields, slots)
      modifies this
      ensures SameKind(old(sizing), old(maxSize)) && (!ok ==> error != NoError)
      ensures MessageOk(fields, slots) ==> Writes(ok, LengthPrefixed(EncodeMessage(fields, slots)))
      ensures ok ==> TakesMessage(fields, slots)
      decreases fields, 1
    {
      hide TakesMessage, EncodeMessage, MessageOk, MessageShape, SchemaOk, Varint;
      // A sizing stream runs over the message first.
      var substream := new OStream(true, [], 0);
      ok := substream.PbEncode(fields, slots);
      if !ok {
        error := substream.error;
        return;
      }
      var size := substream.bytesWritten;
      ok := EncodeVarint(size);
      if !ok {
        return;
      }
      ok := WriteSubmessage(substream, fields, slots, size);
    }

    // The second half of pb_encode_submessage, after the length.
    method WriteSubmessage(substream: OStream, fields: seq<Field>, slots: seq<Slot>, size: nat) returns (ok: bool)
      requires Valid() && SchemaOk(fields) && MessageShape(fields, slots) && substream != this && size < TWO64
      modifies this, substream
      ensures SameKind(old(sizing), old(maxSize)) && (!ok ==> error != NoError)
      ensures MessageOk(fields, slots) && |EncodeMessage(fields, slots)| == size ==>
                Writes(ok, EncodeMessage(fields, slots))
      decreases fields, 0, 1
    {
      hide TakesMessage, EncodeMessage, MessageOk, MessageShape, SchemaOk;
      if sizing {
        // Just sizing
        ghost var b := SizedLike(if MessageOk(fields, slots) then EncodeMessage(fields, slots) else [], size);
        ok := Write([], size, b);
        return;
      }
      if bytesWritten + size > maxSize {
        error := StreamFull;
        return false;
      }
      // The message goes to a stream that takes no more than the size announced.
      substream.sizing := sizing;
      substream.state := state;
      substream.maxSize := size;
      substream.bytesWritten := 0;
      substream.error := NoError;
      ok := substream.PbEncode(fields, slots);
      bytesWritten := bytesWritten + substream.bytesWritten;
      state := substream.state;
      error := substream.error;
      if substream.bytesWritten != size {
        error := SubmsgSizeChanged;
        return false;
      }
    }

    /** pb_encode: the fields one after the other.  It fails if one of them is too large. */
    method PbEncode(fields: seq<Field>, slots: seq<Slot>) returns (ok: bool)
      requires Valid() && SchemaOk(fields) && MessageShape(fields, slots)
      modifies this
      ensures SameKind(old(sizing), old(maxSize)) && (!ok ==> error != NoError)
      ensures MessageOk(fields, slots) ==> Writes(ok, EncodeMessage(fields, slots))
      ensures ok ==> TakesMessage(fields, slots)
      decreases fields, 0, 0
    {
      hide TakesSlot, TakesFirst, TakesMessage, MessageOk, MessageShape, SchemaOk, EncodeSlot, EncodeFirst,
        EncodeMessage, Varint, SlotOk, SlotShape, FieldOk;
      NoFields(fields, slots);
      TakesAll(fields, slots);
      var iter := new FieldIter(fields);
      var more := iter.Begin();
      ok := true;
      if !more {
        // There is nothing to write
        return;
      }
      while more
        invariant fresh(iter) && iter.Valid() && iter.fields == fields && (more ==> iter.pos < |fields|)
        invariant SameKind(old(sizing), old(maxSize)) && ok
        invariant MessageOk(fields, slots) ==>
                    Writes(true, EncodeFirst(fields, slots, if more then iter.pos else |fields|))
        invariant TakesFirst(fields, slots, if more then iter.pos else |fields|)
        decreases |fields| - iter.pos + if more then |fields| else 0
      {
        var i := iter.pos;
        FieldFacts(fields, slots, i);
        ok := EncodeBasicField(fields[i], slots[i]);
        if !ok {
          return;
        }
        TakesNext(fields, slots, i);
        more := iter.Next();
      }
    }

    /** pb_get_encoded_size: a buffer of that size is exactly filled by pb_encode. */
    static method GetEncodedSize(fields: seq<Field>, slots: seq<Slot>) returns (ok: bool, size: nat)
      requires SchemaOk(fields) && MessageShape(fields, slots)
      ensures MessageOk(fields, slots) && |EncodeMessage(fields, slots)| < TWO64 ==>
                ok && size == |EncodeMessage(fields, slots)|
      ensures ok ==> TakesMessage(fields, slots)
    {
      hide TakesMessage, EncodeMessage, MessageOk, MessageShape, SchemaOk;
      var stream := new OStream(true, [], 0);
      ok := stream.PbEncode(fields, slots);
      size := stream.bytesWritten;
    }

    lemma NoFields(fields: seq<Field>, slots: seq<Slot>)
      ensures MessageOk(fields, slots) ==>
                EncodeFirst(fields, slots, 0) == [] &&
                    EncodeFirst(fields, slots, |fields|) == EncodeMessage(fields, slots)
    {
    }

    lemma FieldFacts(fields: seq<Field>, slots: seq<Slot>, i: nat)
      requires SchemaOk(fields) && MessageShape(fields, slots) && i < |fields|
      ensures |slots| == |fields| && FieldOk(fields[i]) && SlotShape(fields[i], slots[i])
      ensures MessageOk(fields, slots) ==>
                && SlotOk(fields[i], slots[i])
                && EncodeFirst(fields, slots, i + 1) == EncodeFirst(fields, slots, i) + EncodeSlot(fields[i], slots[i])
                && |EncodeFirst(fields, slots, i + 1)| <= |EncodeMessage(fields, slots)|
    {
      hide EncodeSlot;
      if MessageOk(fields, slots) {
        FirstGrows(fields, slots, i + 1);
      }
    }

    // encode_basic_field
    method EncodeBasicField(f: Field, s: Slot) returns (ok: bool)
      requires Valid() && FieldOk(f) && SlotShape(f, s)
      modifies this
      ensures !ok ==> error != NoError
      ensures SameKind(old(sizing), old(maxSize)) && (SlotOk(f, s) ==> Writes(ok, EncodeSlot(f, s)))
      ensures ok ==> TakesSlot(f, s)
      decreases f, 2
    {
      hide TakesValue, EncodeTagged, EncodeValues, Varint, TypeOk, Tag, LengthPrefixed;
      match f.htype {
        case Required =>
          ok := EncodeTaggedValue(f, s.v);
        case Optional =>
          ok := true;
          if s.has {
            ok := EncodeTaggedValue(f, s.v);
          }
        case Repeated(_) =>
          ok := EncodeArray(f, s.vs);
        case OneOf(_) =>
          ok := true;
          if s.which {
            ok := EncodeTaggedValue(f, s.v);
          }
      }
    }

    // The tag of the field and a value.
    method EncodeTaggedValue(f: Field, v: Value) returns (ok: bool)
      requires Valid() && FieldOk(f) && ShapeOk(f.ltype, v)
      modifies this
      ensures !ok ==> error != NoError
      ensures SameKind(old(sizing), old(maxSize)) && (ValueOk(f.ltype, v) ==> Writes(ok, EncodeTagged(f, [v])))
      ensures ok ==> TakesValue(f.ltype, v)
      decreases f, 0, 0
    {
      hide TakesValue, EncodeValue, ValueOk, ShapeOk, Varint, TypeOk, Tag;
      OneTagged(f, v);
      ok := EncodeTagForField(f);
      if !ok {
        return;
      }
      ok := EncodeFieldValue(f.ltype, v);
    }

    lemma OneTagged(f: Field, v: Value)
      requires FieldOk(f)
      ensures TypeOk(f.ltype)
      ensures ValueOk(f.ltype, v) ==> EncodeTagged(f, [v]) == Tag(f.tag, WireType(f.ltype)) + EncodeValue(f.ltype, v)
    {
      hide EncodeValue, ValueOk, Tag;
      if ValueOk(f.ltype, v) {
        assert EncodeTagged(f, [v][..0]) == [];
      }
    }

    // encode_array
    method EncodeArray(f: Field, vs: seq<Value>) returns (ok: bool)
      requires Valid() && FieldOk(f) && f.htype.Repeated? && forall k :: 0 <= k < |vs| ==> ShapeOk(f.ltype, vs[k])
      modifies this
      ensures SameKind(old(sizing), old(maxSize)) && (!ok ==> error != NoError)
      ensures |vs| > f.htype.arraySize ==> !ok && error == ArrayMaxSizeExceeded
      ensures SlotOk(f, Many(vs)) ==> Writes(ok, EncodeSlot(f, Many(vs)))
      ensures ok ==> forall k :: 0 <= k < |vs| ==> TakesValue(f.ltype, vs[k])
      decreases f, 1
    {
      hide EncodeValues, EncodeTagged, Varint, Tag, TypeOk, ShapeOk, ValueOk;
      ok := true;
      if |vs| == 0 {
        return;
      }
      if |vs| > f.htype.arraySize {
        error := ArrayMaxSizeExceeded;
        return false;
      }
      // Packable arrays are always written packed.
      if Packable(f.ltype) {
        forall k | 0 <= k < |vs| ensures ValueOk(f.ltype, vs[k]) {
          PackableShape(f, vs[k]);
        }
        ok := EncodePacked(f, vs);
      } else {
        ok := EncodeUnpacked(f, vs);
      }
    }

    method EncodeUnpacked(f: Field, vs: seq<Value>) returns (ok: bool)
      requires Valid() && FieldOk(f) && forall k :: 0 <= k < |vs| ==> ShapeOk(f.ltype, vs[k])
      modifies this
      ensures SameKind(old(sizing), old(maxSize)) && (!ok ==> error != NoError)
      ensures (forall k :: 0 <= k < |vs| ==> ValueOk(f.ltype, vs[k])) ==> Writes(ok, EncodeTagged(f, vs))
      ensures ok ==> forall k :: 0 <= k < |vs| ==> TakesValue(f.ltype, vs[k])
      decreases f, 0, 1
    {
      hide TakesValue, EncodeValue, EncodeTagged, EncodeValues, Varint, Tag, TypeOk, ShapeOk, ValueOk;
      ok := true;
      ghost var good := forall k :: 0 <= k < |vs| ==> ValueOk(f.ltype, vs[k]);
      var i := 0;
      TaggedStart(f, vs);
      while i < |vs|
        invariant 0 <= i <= |vs| && ok && SameKind(old(sizing), old(maxSize))
        invariant good ==> Writes(true, EncodeTagged(f, vs[..i]))
        invariant forall k :: 0 <= k < i ==> TakesValue(f.ltype, vs[k])
      {
        if good { TaggedStep(f, vs, i); }
        ok := EncodeTaggedValue(f, vs[i]);
        if !ok {
          return;
        }
        i := i + 1;
      }
      assert vs[..i] == vs;
    }

    lemma TaggedStart(f: Field, vs: seq<Value>)
      ensures EncodeTagged(f, vs[..0]) == [] && EncodeValues(f, vs[..0]) == []
    {
    }

    lemma TaggedStep(f: Field, vs: seq<Value>, i: nat)
      requires i < |vs| && FieldOk(f) && forall k :: 0 <= k < |vs| ==> ValueOk(f.ltype, vs[k])
      ensures EncodeTagged(f, vs[..i + 1]) == EncodeTagged(f, vs[..i]) + EncodeTagged(f, [vs[i]])
      ensures |EncodeTagged(f, vs[..i + 1])| <= |EncodeTagged(f, vs)|
    {
      hide EncodeTagged, EncodeValue, EncodeValues, ValueOk, Tag;
      ValuesStep(f, vs, i);
      OneTagged(f, vs[i]);
      ValuesGrow(f, vs, i + 1);
    }

    method EncodePacked(f: Field, vs: seq<Value>) returns (ok: bool)
      requires Valid() && FieldOk(f) && Packable(f.ltype) && |vs| < TWO32
      requires forall k :: 0 <= k < |vs| ==> ValueOk(f.ltype, vs[k])
      modifies this
      ensures Writes(ok, Tag(f.tag, WT_STRING) + LengthPrefixed(EncodeValues(f, vs)))
      decreases f, 0, 2
    {
      hide EncodeValue, EncodeTagged, EncodeValues, Varint, Tag, TypeOk, ShapeOk, ValueOk;
      ok := EncodeTag(WT_STRING, f.tag);
      if !ok {
        return;
      }
      // The length that goes before the elements.
      var size := PackedSize(f, vs);
      ok := EncodeVarint(size);
      if !ok {
        return;
      }
      if sizing {
        // Just sizing
        ghost var b := SizedLike(EncodeValues(f, vs), size);
        ok := Write([], size, b);
        return;
      }
      ok := EncodeElements(f, vs);
    }

    // Writes the elements of a packed array.
    method EncodeElements(f: Field, vs: seq<Value>) returns (ok: bool)
      requires Valid() && FieldOk(f) && Packable(f.ltype) && forall k :: 0 <= k < |vs| ==> ValueOk(f.ltype, vs[k])
      modifies this
      ensures Writes(ok, EncodeValues(f, vs))
      decreases f, 0, 0
    {
      hide EncodeValue, EncodeTagged, EncodeValues, Varint, Tag, TypeOk, ShapeOk, ValueOk;
      ok := true;
      var i := 0;
      TaggedStart(f, vs);
      while i < |vs|
        invariant 0 <= i <= |vs| && ok && Writes(true, EncodeValues(f, vs[..i]))
      {
        ValuesStep(f, vs, i);
        ValuesGrow(f, vs, i + 1);
        PackableShape(f, vs[i]);
        ok := EncodeFieldValue(f.ltype, vs[i]);
        if !ok {
          return;
        }
        i := i + 1;
      }
      assert vs[..i] == vs;
    }

    lemma PackableShape(f: Field, v: Value)
      requires Packable(f.ltype)
      ensures TypeOk(f.ltype) && (ShapeOk(f.ltype, v) <==> ValueOk(f.ltype, v))
    {
    }

    // The size of a packed array, counted with a sizing stream unless the elements have a fixed size.
    static method PackedSize(f: Field, vs: seq<Value>) returns (size: nat)
      requires FieldOk(f) && Packable(f.ltype) && |vs| < TWO32 && forall k :: 0 <= k < |vs| ==> ValueOk(f.ltype, vs[k])
      ensures size < TWO64 && (|EncodeValues(f, vs)| < TWO64 ==> size == |EncodeValues(f, vs)|)
      decreases f, 0, 1
    {
      hide EncodeValue, EncodeTagged, EncodeValues, Varint, Tag, TypeOk, ShapeOk, ValueOk;
      FixedSizes(f, vs);
      if f.ltype.TFixed32? {
        size := 4 * |vs|;
      } else if f.ltype.TFixed64? {
        size := 8 * |vs|;
      } else {
        var sizestream := new OStream(true, [], 0);
        var _ := sizestream.EncodeElements(f, vs);
        size := sizestream.bytesWritten;
      }
    }
  }

  // Bytes of a given number: these when there are that many.
  lemma SizedLike(b: seq<byte>, n: nat) returns (r: seq<byte>)
    ensures |r| == n && (|b| == n ==> r == b)
  {
    r := if |b| == n then b else seq(n, i => 0);
  }

  lemma SignedRange(i: int, bits: nat)
    requires SignedFits(i, bits)
    ensures -0x8000_0000_0000_0000 <= i < 0x8000_0000_0000_0000
  {
    PowersOfTwo();
  }

  lemma UnsignedRange(i: int, bits: nat)
    requires Width(bits) && 0 <= i < Pow2(bits)
    ensures i < TWO64
  {
    PowersOfTwo();
  }

  // The loop of pb_encode_varint.
  method VarintBytes(value0: nat) returns (buffer: seq<byte>)
    requires 0x7f < value0
    ensures buffer == Varint(value0)
  {
    var value: nat := value0;
    buffer := [];
    while value != 0
      invariant value > 0 ==> buffer + Varint(value) == Varint(value0)
      invariant value == 0 ==> |buffer| > 0 && buffer[|buffer| - 1] >= 128
                               && buffer[..|buffer| - 1] + [buffer[|buffer| - 1] - 128] == Varint(value0)
      decreases value
    {
      ghost var before := buffer;
      buffer := buffer + [128 + value % 128];
      assert value >= 128 ==> before + Varint(value) == buffer + Varint(value / 128);
      value := value / 128;
    }
    // The last byte has no continuation bit
    buffer := buffer[..|buffer| - 1] + [buffer[|buffer| - 1] - 128];
  }
}
