/** The protocol buffer decoder as it runs: a stream over a buffer, substreams, and the decoding loop. */
module NanopbIStream {
  import opened Coding
  import opened NanopbCommon
  import opened NanopbDecode
  import opened NanopbFormat
  import opened Wrappers

  class IStream {
    const buffer: seq<byte>
    var state: nat        // the next byte
    var bytesLeft: nat

    constructor (buffer: seq<byte>, state: nat, bytesLeft: nat)
      requires state + bytesLeft <= |buffer|
      ensures Valid() && this.buffer == buffer && this.state == state && this.bytesLeft == bytesLeft
    {
      this.buffer, this.state, this.bytesLeft := buffer, state, bytesLeft;
    }

    ghost predicate Valid()
      reads this
    {
      state + bytesLeft <= |buffer|
    }

    // The bytes still to be read.
    ghost function Rest(): (s: seq<byte>)
      reads this
      requires Valid()
      ensures |s| == bytesLeft
    {
      buffer[state..state + bytesLeft]
    }

    ghost function End(): nat
      reads this
    {
      state + bytesLeft
    }

    // The outcome is r, the parse of the bytes that were left.
    twostate predicate Took<T(!new)>(ok: bool, new v: T, new r: Parse<T>)
      reads this
    {
      && Valid() && End() <= old(End())
      && (ok <==> r.Got?)
      && (ok ==> v == r.value && Rest() == r.rest && End() == old(End()))
    }

    // pb_read; the skipping of bytes without a buffer is the same for a stream over a buffer.
    method Read(count: nat) returns (ok: bool, buf: seq<byte>)
      requires Valid()
      modifies this
      ensures Took(ok, buf, NanopbDecode.Read(old(Rest()), count))
    {
      if count == 0 {
        return true, [];
      }
      if bytesLeft < count {
        return false, [];
      }
      buf := buffer[state..state + count];
      state := state + count;
      bytesLeft := bytesLeft - count;
      assert old(Rest())[..count] == buf && old(Rest())[count..] == Rest();
      return true, buf;
    }

    // pb_readbyte
    method ReadByte() returns (ok: bool, b: byte)
      requires Valid()
      modifies this
      ensures Valid() && End() == old(End()) && (ok <==> old(Rest()) != [])
      ensures if ok then old(Rest()) == [b] + Rest() else Rest() == []
    {
      if bytesLeft == 0 {
        return false, 0;
      }
      b := buffer[state];
      state := state + 1;
      bytesLeft := bytesLeft - 1;
      return true, b;
    }

    // pb_decode_varint32_eof
    method DecodeVarint32Eof() returns (ok: bool, dest: nat, eof: bool)
      requires Valid()
      modifies this
      ensures Took(ok, dest, DecodeVarint32(old(Rest()))) && (eof <==> old(Rest()) == [])
    {
      hide ShiftLeft, BitOr, Varint32Tail;
      dest, eof := 0, false;
      ghost var all := Rest();
      var b;
      ok, b := ReadByte();
      if !ok {
        eof := bytesLeft == 0;
        return;
      }
      assert all[0] == b && all[1..] == Rest();
      if b < 0x80 {
        // A single byte without continuation bit
        dest := b;
        return;
      }
      // Multibyte case
      var bitpos: nat := 7;
      var result: nat := b % 0x80;
      while b >= 0x80
        invariant Valid() && End() == old(End()) && result < TWO32 && bitpos < 256
        invariant b >= 0x80 ==> Varint32Tail(Rest(), bitpos, result) == DecodeVarint32(all)
        invariant b < 0x80 ==>
                    DecodeVarint32(all) == if bitpos == 35 && b / 16 % 8 != 0 then Fail else Got(result, Rest())
        decreases bytesLeft, b
      {
        ghost var rest := Rest();
        ok, b := ReadByte();
        if !ok {
          return;
        }
        assert rest[0] == b && rest[1..] == Rest();
        Varint32Step(rest, bitpos, result);
        if bitpos >= 32 {
          // Beyond 32 bits only padding is accepted: zeros, or ones for a negative number.
          var signExtension := if bitpos < 63 then 0xff else 0x01;
          if b % 0x80 != 0 && (result / 0x8000_0000 == 0 || b != signExtension) {
            return false, 0, false;
          }
        } else {
          result := BitOr(result, ShiftLeft(b % 0x80, bitpos)) % TWO32;
        }
        bitpos := (bitpos + 7) % 256;
      }
      if bitpos == 35 && b / 16 % 8 != 0 {
        // The byte at position 28 has bits beyond the 32 of the value.
        return false, 0, false;
      }
      return true, result, false;
    }

    // pb_decode_varint
    method DecodeVarint() returns (ok: bool, dest: nat)
      requires Valid()
      modifies this
      ensures Took(ok, dest, DecodeVarint64(old(Rest())))
    {
      hide ShiftLeft, DecodeVarint64;
      ghost var all := Rest();
      Varint64Start(all);
      var bitpos: nat := 0;
      var result: nat := 0;
      var b: byte := 0x80;
      while b >= 0x80
        invariant Valid() && End() == old(End()) && result < TWO64
        invariant b >= 0x80 ==> Varint64Tail(Rest(), bitpos, result) == DecodeVarint64(all)
        invariant b < 0x80 ==> DecodeVarint64(all) == Got(result, Rest())
        decreases bytesLeft, b
      {
        if bitpos >= 64 {
          return false, 0;
        }
        ghost var rest := Rest();
        ok, b := ReadByte();
        if !ok {
          return false, 0;
        }
        assert rest[0] == b && rest[1..] == Rest();
        result := (result + ShiftLeft(b % 0x80, bitpos)) % TWO64;
        bitpos := bitpos + 7;
      }
      return true, result;
    }

    // pb_skip_varint
    method SkipVarint() returns (ok: bool)
      requires Valid()
      modifies this
      ensures Took(ok, (), NanopbDecode.SkipVarint(old(Rest())))
    {
      ghost var all := Rest();
      var b: byte := 0x80;
      while b >= 0x80
        invariant Valid() && End() == old(End())
        invariant b >= 0x80 ==> NanopbDecode.SkipVarint(Rest()) == NanopbDecode.SkipVarint(all)
        invariant b < 0x80 ==> NanopbDecode.SkipVarint(all) == Got((), Rest())
        decreases bytesLeft, b
      {
        ghost var rest := Rest();
        var buf;
        ok, buf := Read(1);
        if !ok {
          return;
        }
        b := buf[0];
        assert rest[0] == b && rest[1..] == Rest();
      }
      return true;
    }

    // pb_skip_string
    method SkipString() returns (ok: bool)
      requires Valid()
      modifies this
      ensures Took(ok, (), Done(ReadString(old(Rest()))))
    {
      hide DecodeVarint32;
      var length, eof, buf;
      ok, length, eof := DecodeVarint32Eof();
      if !ok {
        return;
      }
      ok, buf := Read(length);
    }

    // pb_skip_field
    method SkipField(wireType: nat) returns (ok: bool)
      requires Valid()
      modifies this
      ensures Took(ok, (), NanopbDecode.SkipField(wireType, old(Rest())))
    {
      hide ReadString, NanopbDecode.SkipVarint;
      var buf;
      if wireType == WT_VARINT {
        ok := SkipVarint();
      } else if wireType == WT_64BIT {
        ok, buf := Read(8);
      } else if wireType == WT_STRING {
        ok := SkipString();
      } else if wireType == WT_32BIT {
        ok, buf := Read(4);
      } else {
        ok := false;
      }
    }

    // pb_decode_tag: a zero key ends the message.
    method DecodeTag() returns (ok: bool, wireType: nat, tag: nat, eof: bool)
      requires Valid()
      modifies this
      ensures Valid() && End() <= old(End())
      ensures ok ==> var key := 8 * tag + wireType;
                     key != 0 && wireType < 8 && DecodeVarint32(old(Rest())) == Got(key, Rest()) && End() == old(End())
      ensures !ok && eof && old(Rest()) != [] ==>
                DecodeVarint32(old(Rest())).Got? && DecodeVarint32(old(Rest())).value == 0
                                                  && Rest() == DecodeVarint32(old(Rest())).rest && End() == old(End())
      ensures !ok && !eof ==> DecodeVarint32(old(Rest())) == Fail
    {
      hide DecodeVarint32;
      wireType, tag := 0, 0;
      var temp;
      ok, temp, eof := DecodeVarint32Eof();
      if !ok {
        return;
      }
      if temp == 0 {
        return false, 0, 0, true;   // A zero byte in place of a tag ends the message.
      }
      return true, temp % 8, temp / 8, false;
    }

    // pb_make_string_substream
    method MakeSubstream() returns (ok: bool, substream: IStream)
      requires Valid()
      modifies this
      ensures Valid() && End() <= old(End()) && fresh(substream) && substream.Valid() && substream.buffer == buffer
      ensures ok <==> ReadString(old(Rest())).Got?
      ensures ok ==> var r := ReadString(old(Rest()));
                     && substream.Rest() == r.value && |r.rest| == bytesLeft
                     && substream.End() + bytesLeft == old(End()) && buffer[substream.End()..old(End())] == r.rest
    {
      hide DecodeVarint32;
      var size, eof;
      ok, size, eof := DecodeVarint32Eof();
      if !ok || bytesLeft < size {
        substream := new IStream(buffer, 0, 0);
        return false, substream;
      }
      ghost var rest := Rest();
      substream := new IStream(buffer, state, size);
      bytesLeft := bytesLeft - size;
      assert rest[..size] == substream.Rest() && rest[size..] == buffer[substream.End()..old(End())];
      return true, substream;
    }

    // pb_close_string_substream: what the substream left is skipped.
    method CloseSubstream(substream: IStream) returns (ok: bool)
      requires Valid() && substream.Valid() && substream != this && substream.buffer == buffer
      requires substream.End() + bytesLeft <= |buffer|
      modifies this, substream
      ensures ok && Valid() && bytesLeft == old(bytesLeft) && state == old(substream.End())
    {
      if substream.bytesLeft > 0 {
        var buf;
        ok, buf := substream.Read(substream.bytesLeft);
        if !ok {
          return;
        }
      }
      state := substream.state;
      return true;
    }

    // pb_decode_svarint
    method DecodeSVarint() returns (ok: bool, dest: int)
      requires Valid()
      modifies this
      ensures Valid() && End() <= old(End()) && (ok <==> DecodeVarint64(old(Rest())).Got?)
      ensures ok ==>
                var r := DecodeVarint64(old(Rest()));
                    dest == UnZigZag(r.value) && Rest() == r.rest && End() == old(End())
    {
      hide DecodeVarint64;
      dest := 0;
      var value: int;
      ok, value := DecodeVarint();
      if ok {
        dest := if value % 2 == 1 then -(value / 2) - 1 else value / 2;   // ~(value >> 1) or value >> 1
      }
    }

    // pb_decode_fixed32
    method DecodeFixed32(cur: Value) returns (ok: bool, v: Value)
      requires Valid()
      modifies this
      ensures Took(ok, v, DecodeValue(TFixed32, cur, old(Rest())))
    {
      hide FromLittleEndian;
      var bytes: seq<int>;
      ok, bytes := Read(4);
      v := VInt(0);
      if ok {
        v := VInt(FourOf(bytes, 0));
        FourBytes(bytes);
      }
    }

    // pb_decode_fixed64
    method DecodeFixed64(cur: Value) returns (ok: bool, v: Value)
      requires Valid()
      modifies this
      ensures Took(ok, v, DecodeValue(TFixed64, cur, old(Rest())))
    {
      hide FromLittleEndian;
      var bytes: seq<int>;
      ok, bytes := Read(8);
      v := VInt(0);
      if ok {
        v := VInt(FourOf(bytes, 0) + 0x1_0000_0000 * FourOf(bytes, 4));
        EightBytes(bytes);
      }
    }

    // ---------------------------------------------------------------- field decoders

    // The decoder of the field's type; cur is what the struct holds there.
    method DecodeFieldValue(f: Field, cur: Value) returns (ok: bool, v: Value)
      requires Valid() && FieldOk(f) && (f.htype.Repeated? && f.ltype.TSubmessage? ==> cur == DefaultValue(f))
      modifies this
      ensures Took(ok, v, DecodeValue(f.ltype, cur, old(Rest())))
      decreases f, 1
    {
      hide DecodeValue, Took, DefaultValue;
      match f.ltype {
        case TBool =>
          ok, v := DecBool(cur);
        case TVarint(bits) =>
          ok, v := DecVarint(bits, cur);
        case TUVarint(bits) =>
          ok, v := DecUVarint(bits, cur);
        case TSVarint(bits) =>
          ok, v := DecSVarint(bits, cur);
        case TFixed32 =>
          ok, v := DecodeFixed32(cur);
        case TFixed64 =>
          ok, v := DecodeFixed64(cur);
        case TBytes(max) =>
          ok, v := DecBytes(max, cur);
        case TString(max) =>
          ok, v := DecString(max, cur);
        case TFixedBytes(size) =>
          ok, v := DecFixedLengthBytes(size, cur);
        case TSubmessage(fields) =>
          ok, v := DecSubmessage(f, cur);
      }
    }

    // pb_dec_bool
    method DecBool(cur: Value) returns (ok: bool, v: Value)
      requires Valid()
      modifies this
      ensures Took(ok, v, DecodeValue(TBool, cur, old(Rest())))
    {
      hide DecodeVarint32;
      var value, eof;
      ok, value, eof := DecodeVarint32Eof();
      v := VBool(value != 0);
    }

    // pb_dec_varint
    method DecVarint(bits: nat, cur: Value) returns (ok: bool, v: Value)
      requires Valid()
      modifies this
      ensures Took(ok, v, DecodeValue(TVarint(bits), cur, old(Rest())))
    {
      hide DecodeVarint64, ToSigned;
      v := VInt(0);
      var value;
      ok, value := DecodeVarint();
      if !ok {
        return;
      }
      // A field of at most 32 bits takes its sign from bit 31.
      var svalue := if bits == 64 then ToSigned(value, 64) else ToSigned(value, 32);
      if !Width(bits) {
        return false, v;
      }
      // The value must survive the width of the field
      var clamped := ToSigned(svalue, bits);
      return clamped == svalue, VInt(clamped);
    }

    // pb_dec_uvarint
    method DecUVarint(bits: nat, cur: Value) returns (ok: bool, v: Value)
      requires Valid()
      modifies this
      ensures Took(ok, v, DecodeValue(TUVarint(bits), cur, old(Rest())))
    {
      hide DecodeVarint64, Pow2;
      v := VInt(0);
      var value;
      ok, value := DecodeVarint();
      if !ok {
        return;
      }
      if !Width(bits) {
        return false, v;
      }
      var clamped := value % Pow2(bits);
      return clamped == value, VInt(clamped);
    }

    // pb_dec_svarint
    method DecSVarint(bits: nat, cur: Value) returns (ok: bool, v: Value)
      requires Valid()
      modifies this
      ensures Took(ok, v, DecodeValue(TSVarint(bits), cur, old(Rest())))
    {
      hide DecodeVarint64, ToSigned, UnZigZag;
      v := VInt(0);
      var value;
      ok, value := DecodeSVarint();
      if !ok {
        return;
      }
      if !Width(bits) {
        return false, v;
      }
      var clamped := ToSigned(value, bits);
      return clamped == value, VInt(clamped);
    }

    // pb_dec_bytes
    method DecBytes(max: nat, cur: Value) returns (ok: bool, v: Value)
      requires Valid()
      modifies this
      ensures Took(ok, v, DecodeValue(TBytes(max), cur, old(Rest())))
    {
      hide DecodeVarint32;
      v := VInt(0);
      var size, eof, bytes;
      ok, size, eof := DecodeVarint32Eof();
      if !ok {
        return;
      }
      if size > max {
        return false, v;
      }
      ok, bytes := Read(size);
      v := VBytes(bytes);
    }

    // pb_dec_string
    method DecString(max: nat, cur: Value) returns (ok: bool, v: Value)
      requires Valid()
      modifies this
      ensures Took(ok, v, DecodeValue(TString(max), cur, old(Rest())))
    {
      hide DecodeVarint32;
      v := VInt(0);
      var size, eof, bytes;
      ok, size, eof := DecodeVarint32Eof();
      if !ok {
        return;
      }
      // One more byte for the terminator
      var allocSize := size + 1;
      if allocSize > max {
        return false, v;
      }
      ok, bytes := Read(size);
      v := VBytes(bytes);
    }

    // pb_dec_fixed_length_bytes
    method DecFixedLengthBytes(dataSize: nat, cur: Value) returns (ok: bool, v: Value)
      requires Valid()
      modifies this
      ensures Took(ok, v, DecodeValue(TFixedBytes(dataSize), cur, old(Rest())))
    {
      hide DecodeVarint32;
      v := VInt(0);
      var size, eof, bytes;
      ok, size, eof := DecodeVarint32Eof();
      if !ok {
        return;
      }
      if size == 0 {
        // No bytes at all stand for zeros
        return true, VBytes(Zeroes(dataSize));
      }
      if size != dataSize {
        return false, v;
      }
      ok, bytes := Read(dataSize);
      v := VBytes(bytes);
    }

    // pb_dec_submessage
    method DecSubmessage(f: Field, cur: Value) returns (ok: bool, v: Value)
      requires Valid() && FieldOk(f) && f.ltype.TSubmessage? && (f.htype.Repeated? ==> cur == DefaultValue(f))
      modifies this
      ensures Took(ok, v, DecodeValue(f.ltype, cur, old(Rest())))
      decreases f, 0
    {
      hide ReadString, DecodeNoInit, Defaults, SchemaOk;
      var fields := f.ltype.fields;
      v := VInt(0);
      var substream;
      ok, substream := MakeSubstream();
      if !ok {
        return;
      }
      // A submessage in a new element starts from its defaults
      var slots;
      if f.htype.Repeated? {
        ok, slots := substream.PbDecode(fields);
      } else {
        ok, slots := substream.PbDecodeNoInit(fields, SlotsOf(fields, cur));
      }
      var closed := CloseSubstream(substream);
      return ok && closed, VMessage(slots);
    }

    // ---------------------------------------------------------------- fields

    // decode_static_field
    method DecodeStaticField(wireType: nat, f: Field, slot: Slot) returns (ok: bool, x: Slot)
      requires Valid() && FieldOk(f)
      modifies this
      ensures Took(ok, x, DecodeField(f, wireType, slot, old(Rest())))
      decreases f, 4
    {
      hide ReadString, DecodeValue, DecodeElements, Defaults;
      x := slot;
      var v;
      match f.htype {
        case Required =>
          ok, v := DecodeFieldValue(f, Held(f, slot));
          x := One(v);
        case Optional =>
          ok, v := DecodeFieldValue(f, Held(f, slot));
          x := Opt(true, v);
        case OneOf(_) =>
          ok, v := DecodeFieldValue(f, Held(f, slot));
          x := Alt(true, v);
        case Repeated(arraySize) =>
          var vs := if slot.Many? then slot.vs else [];
          if wireType == WT_STRING && Packable(f.ltype) {
            ok, vs := DecodePacked(f, vs);
            x := Many(vs);
          } else {
            if |vs| >= arraySize {
              return false, x;
            }
            ok, v := DecodeFieldValue(f, DefaultValue(f));
            x := Many(vs + [v]);
          }
      }
    }

    // A packed array, from a substream.
    method DecodePacked(f: Field, vs0: seq<Value>) returns (ok: bool, vs: seq<Value>)
      requires Valid() && FieldOk(f) && f.htype.Repeated? && Packable(f.ltype)
      modifies this
      ensures Took(ok, Many(vs), DecodeField(f, WT_STRING, Many(vs0), old(Rest())))
      decreases f, 3
    {
      hide ReadString, DecodeValue, DecodeElements, Defaults;
      vs := vs0;
      var substream;
      ok, substream := MakeSubstream();
      if !ok {
        return;
      }
      var status;
      status, vs := substream.DecodeArray(f, vs0);
      if substream.bytesLeft != 0 {
        return false, vs;
      }
      var closed := CloseSubstream(substream);
      return status, vs;
    }

    // The elements, until the bytes are used up or the array is full.
    method DecodeArray(f: Field, vs0: seq<Value>) returns (ok: bool, vs: seq<Value>)
      requires Valid() && FieldOk(f) && f.htype.Repeated? && Packable(f.ltype)
      modifies this
      ensures Took(ok, vs, DecodeElements(f, vs0, old(Rest())))
      decreases f, 2
    {
      hide DecodeValue;
      vs := vs0;
      while bytesLeft > 0 && |vs| < f.htype.arraySize
        invariant Valid() && End() == old(End())
        invariant DecodeElements(f, vs, Rest()) == DecodeElements(f, vs0, old(Rest()))
        decreases bytesLeft
      {
        var v;
        ok, v := DecodeFieldValue(f, f.init);
        if !ok {
          return;
        }
        vs := vs + [v];
      }
      return true, vs;
    }

    // ---------------------------------------------------------------- messages

    /** pb_decode: the defaults, then what the bytes say. */
    method PbDecode(fields: seq<Field>) returns (ok: bool, slots: seq<Slot>)
      requires Valid() && SchemaOk(fields)
      modifies this
      ensures Valid() && End() <= old(End()) && |slots| == |fields|
      ensures DecodeMessage(fields, old(Rest())) == if ok then Some(slots) else None
      ensures ok ==> End() == old(End())
      decreases fields, 1
    {
      hide DecodeNoInit, Defaults, SchemaOk;
      slots := SetToDefaults(fields);
      ok, slots := PbDecodeNoInit(fields, slots);
    }

    // One turn of the loop of pb_decode_noinit; done when a zero key ended the message.
    method DecodeNext(fields: seq<Field>, slots0: seq<Slot>, iter: FieldIter, words0: seq<Word>, ghost seen0: set<nat>)
      returns (ok: bool, slots: seq<Slot>, words: seq<Word>, done: bool, ghost seen: set<nat>)
      requires Valid() && SchemaOk(fields) && |slots0| == |fields|
      requires bytesLeft > 0 && iter.Valid() && iter.fields == fields
      requires WordsAre(fields, words0, seen0)
      modifies this, iter
      ensures Valid() && End() <= old(End()) && |slots| == |fields| && iter.Valid()
      ensures !ok ==> DecodeLoop(fields, slots0, seen0, old(Rest())) == None
      ensures ok ==> WordsAre(fields, words, seen) && End() == old(End()) && bytesLeft < old(bytesLeft)
      ensures ok && !done ==> DecodeLoop(fields, slots0, seen0, old(Rest())) == DecodeLoop(fields, slots, seen, Rest())
      ensures ok && done ==> DecodeLoop(fields, slots0, seen0, old(Rest())) == Some((slots, seen))
      decreases fields, 0, 0
    {
      hide DecodeVarint32, NanopbDecode.SkipField, DecodeField, WordsAre, SeenBit, SetSlot, FindField, SchemaOk;
      slots, words, done, seen := slots0, words0, false, seen0;
      var wireType, tag, eof;
      ok, wireType, tag, eof := DecodeTag();
      if !ok {
        ok, done := eof, eof;
        return;
      }
      var found := iter.Find(tag);
      FoundWhere(fields, tag, found, iter.pos);
      if !found {
        // No field has this tag
        ok := SkipField(wireType);
        return;
      }
      if fields == [] {
        // The terminator: a required bool at the end of the struct
        var v;
        ok, v := DecBool(VBool(false));
        return;
      }
      if fields[iter.pos].htype.Required? && iter.requiredFieldIndex < MAX_REQUIRED_FIELDS {
        words := MarkSeen(fields, words0, seen0, iter.pos, iter.requiredFieldIndex);
      }
      seen := seen0 + SeenBit(fields, iter.pos);
      SeenOthers(fields, iter.pos, seen0);
      var x;
      ok, x := DecodeStaticField(wireType, fields[iter.pos], slots0[iter.pos]);
      if ok {
        slots := SetSlot(fields, slots0, iter.pos, x);
      }
    }

    /** pb_decode_noinit: merges the bytes into the struct, field after field, and checks that all required fields were
        seen.
     */
    method PbDecodeNoInit(fields: seq<Field>, slots0: seq<Slot>) returns (ok: bool, slots: seq<Slot>)
      requires Valid() && SchemaOk(fields) && |slots0| == |fields|
      modifies this
      ensures Valid() && End() <= old(End()) && |slots| == |fields|
      ensures DecodeNoInit(fields, slots0, old(Rest())) == if ok then Some(slots) else None
      ensures ok ==> End() == old(End())
      decreases fields, 0
    {
      hide DecodeLoop, AllSeen, WordsAre, SchemaOk;
      ghost var all := Rest();
      slots := slots0;
      ghost var seen: set<nat> := {};
      var fieldsSeen := [NoBits(), NoBits()];
      NothingSeen(fields);
      var iter := new FieldIter(fields);
      var _ := iter.Begin();
      var done := false;
      while bytesLeft > 0 && !done
        invariant Valid() && End() == old(End()) && |slots| == |fields|
        invariant fresh(iter) && iter.Valid() && iter.fields == fields
        invariant WordsAre(fields, fieldsSeen, seen)
        invariant !done ==> DecodeLoop(fields, slots, seen, Rest()) == DecodeLoop(fields, slots0, {}, all)
        invariant done ==> DecodeLoop(fields, slots0, {}, all) == Some((slots, seen))
        decreases bytesLeft, !done
      {
        ok, slots, fieldsSeen, done, seen := DecodeNext(fields, slots, iter, fieldsSeen, seen);
        if !ok {
          return;
        }
      }
      if !done {
        NothingLeft(fields, slots, seen);
      }
      ok := CheckRequired(iter, fieldsSeen, seen);
    }
  }

  // ------------------------------------------------------------------ the varint loops

  lemma Varint32Step(s: seq<byte>, bitpos: nat, result: nat)
    requires result < TWO32
    ensures Varint32Tail(s, bitpos, result) ==
              if s == [] || Overflows(s[0], bitpos, result) then Fail
              else
                var next := if bitpos >= 32 then result else BitOr(result, ShiftLeft(s[0] % 128, bitpos)) % TWO32;
                if s[0] >= 128 then Varint32Tail(s[1..], NextBit(bitpos), next)
                else if bitpos == 28 && s[0] / 16 % 8 != 0 then Fail
                else Got(next, s[1..])
  {
    hide ShiftLeft, BitOr;
  }

  // The bytes of a 64-bit varint from bitpos on.
  ghost function Varint64Tail(s: seq<byte>, bitpos: nat, result: nat): Parse<nat>
    decreases |s|
  {
    if bitpos >= 64 || s == [] then Fail
    else
      var next := (result + ShiftLeft(s[0] % 0x80, bitpos)) % TWO64;
      if s[0] >= 0x80 then Varint64Tail(s[1..], bitpos + 7, next) else Got(next, s[1..])
  }

  lemma {:induction false} ShiftAdds(a: nat, b: nat, n: nat)
    ensures ShiftLeft(a + b, n) == ShiftLeft(a, n) + ShiftLeft(b, n)
  {
    if n > 0 {
      ShiftAdds(a, b, n - 1);
    }
  }

  lemma {:induction false} ShiftMore(a: nat, n: nat, k: nat)
    ensures ShiftLeft(ShiftLeft(a, k), n) == ShiftLeft(a, n + k)
  {
    if n > 0 {
      ShiftMore(a, n - 1, k);
    }
  }

  lemma ShiftByte(v: nat, n: nat)
    ensures ShiftLeft(128 * v, n) == ShiftLeft(v, n + 7)
  {
    assert ShiftLeft(v, 1) == 2 * v;
    assert ShiftLeft(v, 2) == 2 * ShiftLeft(v, 1) && ShiftLeft(v, 3) == 2 * ShiftLeft(v, 2);
    assert ShiftLeft(v, 4) == 2 * ShiftLeft(v, 3) && ShiftLeft(v, 5) == 2 * ShiftLeft(v, 4);
    assert ShiftLeft(v, 6) == 2 * ShiftLeft(v, 5) && ShiftLeft(v, 7) == 2 * ShiftLeft(v, 6);
    ShiftMore(v, n, 7);
  }

  lemma {:induction false} Varint64Loop(s: seq<byte>, n: nat, r: nat)
    requires n <= 10
    ensures Varint64Tail(s, 7 * n, r) ==
              match ParseVarint(s, 10 - n) case Malformed => Fail
                  case Parsed(v, size) => Got((r + ShiftLeft(v, 7 * n)) % TWO64, s[size..])
    decreases |s|
  {
    hide ShiftLeft;
    if n < 10 && s != [] && s[0] >= 0x80 {
      var low := s[0] % 0x80;
      var next := (r + ShiftLeft(low, 7 * n)) % TWO64;
      Varint64Loop(s[1..], n + 1, next);
      match ParseVarint(s[1..], 10 - (n + 1)) {
        case Malformed =>
        case Parsed(v, size) =>
          ShiftAdds(low, 128 * v, 7 * n);
          ShiftByte(v, 7 * n);
          ModAdds(r + ShiftLeft(low, 7 * n), ShiftLeft(v, 7 * n + 7));
          assert s[1..][size..] == s[size + 1..];
      }
    }
  }

  lemma ModAdds(a: nat, b: nat)
    ensures (a % TWO64 + b) % TWO64 == (a + b) % TWO64
  {
  }

  // The loop computes the varint modulo 2^64.
  lemma Varint64Start(s: seq<byte>)
    ensures Varint64Tail(s, 0, 0) == DecodeVarint64(s)
  {
    hide ParseVarint, Varint64Tail;
    Varint64Loop(s, 0, 0);
  }

  // Four bytes shifted into a word.
  function FourOf(s: seq<int>, at: nat): int
    requires at + 4 <= |s|
  {
    s[at] + 0x100 * s[at + 1] + 0x1_0000 * s[at + 2] + 0x100_0000 * s[at + 3]
  }

  lemma FourBytes(s: seq<byte>)
    requires |s| == 4
    ensures FromLittleEndian(s) == FourOf(s, 0)
  {
    assert s == [s[0], s[1], s[2], s[3]];
    assert FromLittleEndian(s) == s[0] + 0x100 * FromLittleEndian(s[1..]);
    assert FromLittleEndian(s[1..]) == s[1] + 0x100 * FromLittleEndian(s[1..][1..]) && s[1..][1..] == s[2..];
    assert FromLittleEndian(s[2..]) == s[2] + 0x100 * FromLittleEndian(s[2..][1..]) && s[2..][1..] == s[3..];
  }

  lemma {:induction false} LittleEndianAppend(a: seq<byte>, b: seq<byte>)
    ensures FromLittleEndian(a + b) == FromLittleEndian(a) + Pow256(|a|) * FromLittleEndian(b)
    decreases |a|
  {
    if a == [] {
      assert a + b == b;
    } else {
      LittleEndianAppend(a[1..], b);
      assert (a + b)[1..] == a[1..] + b;
      assert Pow256(|a|) * FromLittleEndian(b) == 256 * (Pow256(|a| - 1) * FromLittleEndian(b));
    }
  }

  lemma EightBytes(s: seq<byte>)
    requires |s| == 8
    ensures FromLittleEndian(s) == FourOf(s, 0) + 0x1_0000_0000 * FourOf(s, 4)
  {
    hide FromLittleEndian;
    assert s == s[..4] + s[4..];
    LittleEndianAppend(s[..4], s[4..]);
    FourBytes(s[..4]);
    FourBytes(s[4..]);
    assert Pow256(4) == 0x1_0000_0000;
  }

  // ------------------------------------------------------------------ defaults

  // pb_message_set_to_defaults
  method SetToDefaults(fields: seq<Field>) returns (slots: seq<Slot>)
    ensures slots == Defaults(fields)
    decreases fields
  {
    hide DefaultSlot;
    slots := [];
    var iter := new FieldIter(fields);
    var more := iter.Begin();
    if !more {
      return;   // There are no fields
    }
    while more
      invariant fresh(iter) && iter.Valid() && iter.fields == fields && (more ==> iter.pos < |fields|)
      invariant slots == Defaults(fields[..if more then iter.pos else |fields|])
      decreases |fields| - iter.pos + if more then |fields| else 0
    {
      ghost var i := iter.pos;
      var x := SetToDefault(fields[iter.pos]);
      slots := slots + [x];
      assert fields[..i + 1][..i] == fields[..i];
      more := iter.Next();
    }
    assert fields[..|fields|] == fields;
  }

  // pb_field_set_to_default
  method SetToDefault(f: Field) returns (x: Slot)
    ensures x == DefaultSlot(f)
    decreases f
  {
    hide Defaults;
    var v := f.init;
    if f.ltype.TSubmessage? && (f.htype.Required? || f.htype.Optional?) {
      // A submessage gets its own defaults
      var sub := SetToDefaults(f.ltype.fields);
      v := VMessage(sub);
    }
    match f.htype {
      case Required => x := One(v);
      case Optional => x := Opt(false, v);
      case Repeated(_) => x := Many([]);
      case OneOf(_) => x := Alt(false, v);
    }
  }

  // ------------------------------------------------------------------ fields_seen

  // A 32-bit word, as its bits.
  type Word = w: seq<bool> | |w| == 32 witness seq(32, i => false)

  function NoBits(): Word {
    seq(32, i => false)
  }

  function AllBits(): Word {
    seq(32, i => true)
  }

  // All bits shifted right so that the n low ones are left.
  function LowBits(n: nat): Word {
    seq(32, i => i < n)
  }

  predicate Bit(words: seq<Word>, k: nat)
    requires |words| == 2 && k < 64
  {
    words[k / 32][k % 32]
  }

  // The bits set are those seen, and only required fields are.
  ghost predicate WordsAre(fields: seq<Field>, words: seq<Word>, seen: set<nat>) {
    && |words| == 2
    && (forall k: nat :: k < 64 ==> (Bit(words, k) <==> k in seen))
    && (forall k :: k in seen ==> k < RequiredCount(fields))
  }

  lemma NothingSeen(fields: seq<Field>)
    ensures WordsAre(fields, [NoBits(), NoBits()], {})
  {
  }

  lemma NothingLeft(fields: seq<Field>, slots: seq<Slot>, seen: set<nat>)
    requires |slots| == |fields|
    ensures DecodeLoop(fields, slots, seen, []) == Some((slots, seen))
  {
  }

  // Tags are distinct, so it does not matter where the search started.
  lemma FoundWhere(fields: seq<Field>, tag: nat, found: bool, pos: nat)
    requires SchemaOk(fields)
    requires found <==> (fields == [] && tag == 0) || exists i :: 0 <= i < |fields| && fields[i].tag == tag
    requires found && fields != [] ==> pos < |fields| && fields[pos].tag == tag
    ensures !found ==> FindField(fields, tag) == |fields| && !(fields == [] && tag == 0)
    ensures found && fields != [] ==> FindField(fields, tag) == pos && FieldOk(fields[pos])
  {
    hide FindField, FieldOk;
    var i := FindField(fields, tag);
    if i < |fields| && found {
      assert !(i < pos) && !(pos < i);
    }
  }

  lemma {:induction false} CountsUp(fields: seq<Field>, i: nat, n: nat)
    requires i <= n <= |fields|
    ensures RequiredBefore(fields, i) <= RequiredBefore(fields, n)
    decreases n
  {
    if i < n {
      CountsUp(fields, i, n - 1);
    }
  }

  lemma SeenOthers(fields: seq<Field>, i: nat, seen: set<nat>)
    requires i < |fields|
    ensures !(fields[i].htype.Required? && RequiredBefore(fields, i) < MAX_REQUIRED_FIELDS) ==>
              seen + SeenBit(fields, i) == seen
  {
    hide RequiredBefore;
  }

  // fields_seen[index >> 5] |= 1 << (index & 31)
  method MarkSeen(fields: seq<Field>, words0: seq<Word>, ghost seen: set<nat>, i: nat, index: nat)
      returns (words: seq<Word>)
    requires WordsAre(fields, words0, seen) && i < |fields| && fields[i].htype.Required?
    requires index == RequiredBefore(fields, i) < MAX_REQUIRED_FIELDS
    ensures WordsAre(fields, words, seen + SeenBit(fields, i))
  {
    hide RequiredBefore;
    IndexCounts(fields, i);
    words := words0[index / 32 := words0[index / 32][index % 32 := true]];
    forall k: nat | k < 64 ensures Bit(words, k) == (Bit(words0, k) || k == index) {
    }
  }

  lemma IndexCounts(fields: seq<Field>, i: nat)
    requires i < |fields| && fields[i].htype.Required? && RequiredBefore(fields, i) < MAX_REQUIRED_FIELDS
    ensures RequiredBefore(fields, i) < RequiredCount(fields)
  {
    CountsUp(fields, i + 1, |fields|);
  }

  // The end of pb_decode_noinit: all required fields must have been seen.
  method CheckRequired(iter: FieldIter, fieldsSeen: seq<Word>, ghost seen: set<nat>) returns (ok: bool)
    requires iter.Valid() && WordsAre(iter.fields, fieldsSeen, seen)
    modifies iter
    ensures iter.Valid() && (ok <==> AllSeen(iter.fields, seen))
  {
    hide WordsAre, AllSeen;
    // Only required fields can have been missed; each has a bit.
    var reqFieldCount := CountRequired(iter);
    if reqFieldCount > MAX_REQUIRED_FIELDS {
      reqFieldCount := MAX_REQUIRED_FIELDS;
    }
    ok := CheckWords(iter.fields, fieldsSeen, seen, reqFieldCount);
  }

  method CountRequired(iter: FieldIter) returns (reqFieldCount: nat)
    requires iter.Valid()
    modifies iter
    ensures iter.Valid() && reqFieldCount == RequiredBefore(iter.fields, |iter.fields|)
  {
    var fields := iter.fields;
    var more := true;
    var lastRequired := true;
    reqFieldCount := 0;
    while more
      invariant iter.Valid() && (more && fields != [] ==> iter.pos < |fields|)
      invariant !more && fields != [] ==>
                  reqFieldCount == RequiredBefore(fields, |fields| - 1) &&
                      lastRequired == fields[|fields| - 1].htype.Required?
      invariant fields == [] ==> reqFieldCount == 0
      decreases |fields| - iter.pos + if more then |fields| + 1 else 0
    {
      reqFieldCount := iter.requiredFieldIndex;
      lastRequired := if fields == [] then true else fields[iter.pos].htype.Required?;   // the terminator has type 0
      more := iter.Next();
    }
    // The index of the last field does not count that field itself.
    if lastRequired && fields != [] {
      reqFieldCount := reqFieldCount + 1;
    }
  }

  method CheckWords(fields: seq<Field>, fieldsSeen: seq<Word>, ghost seen: set<nat>, reqFieldCount: nat)
      returns (ok: bool)
    requires WordsAre(fields, fieldsSeen, seen) && reqFieldCount == RequiredCount(fields)
    ensures ok <==> AllSeen(fields, seen)
  {
    hide RequiredCount, RequiredBefore;
    // Words all of whose bits stand for required fields
    var i := 0;
    while i < reqFieldCount / 32
      invariant i <= reqFieldCount / 32 && forall k: nat :: k < 32 * i ==> k in seen
    {
      if fieldsSeen[i] != AllBits() {
        ghost var j :| 0 <= j < 32 && !fieldsSeen[i][j];
        assert !Bit(fieldsSeen, 32 * i + j);
        return false;
      }
      forall k: nat | 32 * i <= k < 32 * i + 32 ensures k in seen {
        assert Bit(fieldsSeen, k);
      }
      i := i + 1;
    }
    // The word that is only partly used
    if reqFieldCount % 32 != 0 {
      if fieldsSeen[reqFieldCount / 32] != LowBits(reqFieldCount % 32) {
        ghost var j :| 0 <= j < 32 && fieldsSeen[reqFieldCount / 32][j] != (j < reqFieldCount % 32);
        assert Bit(fieldsSeen, 32 * i + j) == fieldsSeen[reqFieldCount / 32][j];
        return false;
      }
      forall k: nat | 32 * i <= k < reqFieldCount ensures k in seen {
        assert Bit(fieldsSeen, k);
      }
    }
    return true;
  }
}
