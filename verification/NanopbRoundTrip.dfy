/** Decoding what was encoded restores the message, also when unknown fields stand between its fields. */
module NanopbRoundTrip {
  import opened Coding
  import opened NanopbFormat
  import opened NanopbCommon
  import opened NanopbDecode
  import opened NanopbSpelling
  import NanopbScalars
  import opened Wrappers

  // ------------------------------------------------------------------ what one part does to the message

  // The part can be stored: a field met once is still at its default, an array has room.
  ghost predicate Fits(fields: seq<Field>, slots: seq<Slot>, p: Part) {
    && |slots| == |fields| && !p.Noise? && p.index < |fields|
    && var f, slot := fields[p.index], slots[p.index];
       match p
       case Single(_, v, _) =>
         ValueOk(f.ltype, v) &&
         if f.htype.Repeated? then !Packable(f.ltype) && slot.Many? && |slot.vs| < f.htype.arraySize
            else slot == DefaultSlot(f)
       case Packed(_, vs) =>
         f.htype.Repeated? && Packable(f.ltype) && ValuesOk(f, vs) && slot.Many? &&
             |slot.vs| + |vs| <= f.htype.arraySize
       case _ => false
  }

  ghost function NewSlot(fields: seq<Field>, slots: seq<Slot>, p: Part): Slot
    requires Fits(fields, slots, p)
  {
    var f, slot := fields[p.index], slots[p.index];
    if p.Packed? then Many(slot.vs + p.vs)
    else
      var v := RestoredValue(f.ltype, p.v);
      match f.htype
      case Required => One(v)
      case Optional => Opt(true, v)
      case OneOf(_) => Alt(true, v)
      case Repeated(_) => Many(slot.vs + [v])
  }

  ghost function Apply(fields: seq<Field>, slots: seq<Slot>, p: Part): (r: seq<Slot>)
    requires Fits(fields, slots, p)
    ensures |r| == |fields|
  {
    SetSlot(fields, slots, p.index, NewSlot(fields, slots, p))
  }

  ghost predicate AllFit(fields: seq<Field>, slots: seq<Slot>, parts: seq<Part>)
    decreases |parts|
  {
    parts == [] || (Fits(fields, slots, parts[0]) && AllFit(fields, Apply(fields, slots, parts[0]), parts[1..]))
  }

  ghost function ApplyAll(fields: seq<Field>, slots: seq<Slot>, parts: seq<Part>): (r: seq<Slot>)
    requires |slots| == |fields| && AllFit(fields, slots, parts)
    ensures |r| == |fields|
    decreases |parts|
  {
    if parts == [] then slots else ApplyAll(fields, Apply(fields, slots, parts[0]), parts[1..])
  }

  // The required fields among the parts.
  ghost function SeenBy(fields: seq<Field>, parts: seq<Part>): set<nat>
    decreases |parts|
  {
    if parts == [] then {}
    else (if !parts[0].Noise? && parts[0].index < |fields| then SeenBit(fields, parts[0].index) else {})
         + SeenBy(fields, parts[1..])
  }

  // ------------------------------------------------------------------ decoding one part

  lemma TagReads(tag: nat, wireType: nat, rest: seq<byte>)
    requires 0 < tag < 0x2000_0000 && wireType < 8
    ensures DecodeVarint32(Tag(tag, wireType) + rest) == Got(8 * tag + wireType, rest)
    ensures (8 * tag + wireType) / 8 == tag && (8 * tag + wireType) % 8 == wireType
    ensures Tag(tag, wireType) + rest != []
  {
    hide DecodeVarint32, Varint;
    NanopbScalars.Varint32Decodes(8 * tag + wireType, rest);
  }

  lemma {:induction false} SkipsVarint(data: seq<byte>, rest: seq<byte>)
    requires VarintShaped(data)
    ensures SkipVarint(data + rest) == Got((), rest)
    decreases |data|
  {
    assert (data + rest)[1..] == data[1..] + rest;
    if |data| > 1 {
      assert data[0] >= 128;
      SkipsVarint(data[1..], rest);
    } else {
      assert data[0] == data[|data| - 1];
      assert data[1..] + rest == rest;
    }
  }

  // An unknown field is skipped as a whole.
  lemma SkipsNoise(fields: seq<Field>, p: Part, rest: seq<byte>)
    requires p.Noise? && PartOk(fields, p)
    ensures SkipField(p.wireType, NoiseBytes(p.wireType, p.data) + rest) == Got((), rest)
    ensures FindField(fields, p.tag) == |fields| && p.wireType < 8 && 0 < p.tag < 0x2000_0000
  {
    hide LengthPrefixed, ReadString, SkipVarint, VarintShaped;
    if p.wireType == WT_VARINT {
      SkipsVarint(p.data, rest);
    } else if p.wireType == WT_STRING {
      NanopbScalars.StringReads(p.data, rest);
    } else {
      NanopbScalars.ReadsPrefix(p.data, rest);
    }
  }

  lemma NoiseStep(fields: seq<Field>, slots: seq<Slot>, seen: set<nat>, p: Part, rest: seq<byte>)
    requires p.Noise? && PartOk(fields, p) && |slots| == |fields|
    ensures DecodeLoop(fields, slots, seen, RenderPart(fields, p) + rest) == DecodeLoop(fields, slots, seen, rest)
  {
    hide DecodeVarint32, Tag, NoiseBytes, SkipField, DecodeField, SetSlot, SeenBit, FindField, NoiseOk;
    var body := NoiseBytes(p.wireType, p.data) + rest;
    SkipsNoise(fields, p, rest);
    TagReads(p.tag, p.wireType, body);
    assert RenderPart(fields, p) + rest == Tag(p.tag, p.wireType) + body;
  }

  // The wire type and the bytes after the tag.
  ghost function WireOf(fields: seq<Field>, p: Part): nat
    requires !p.Noise? && p.index < |fields|
  {
    if p.Packed? then WT_STRING else WireType(fields[p.index].ltype)
  }

  ghost function Body(fields: seq<Field>, p: Part): seq<byte>
    requires !p.Noise? && PartOk(fields, p)
  {
    if p.Packed? then LengthPrefixed(EncodeValues(fields[p.index], p.vs))
       else RenderValue(fields[p.index], p.v, p.inner)
  }

  lemma KnownField(fields: seq<Field>, i: nat)
    requires SchemaOk(fields) && i < |fields|
    ensures FindField(fields, fields[i].tag) == i && FieldOk(fields[i]) && 0 < fields[i].tag < 0x2000_0000
  {
    hide FindField;
    var k := FindField(fields, fields[i].tag);
    assert fields[i].tag == fields[i].tag;
    assert !(i < k);
    assert k < |fields| && !(k < i);
  }

  lemma {:induction false} ValuesFront(f: Field, vs: seq<Value>)
    requires vs != [] && ValuesOk(f, vs)
    ensures EncodeValues(f, vs) == EncodeValue(f.ltype, vs[0]) + EncodeValues(f, vs[1..])
    decreases |vs|
  {
    hide EncodeValue, ValueOk;
    var front := vs[..|vs| - 1];
    if |vs| == 1 {
      assert front == [] && vs[1..] == [];
    } else {
      ValuesFront(f, front);
      assert front[1..] == vs[1..][..|vs[1..]| - 1];
    }
  }

  // A packed array is decoded element by element.
  lemma {:induction false} ElementsDecode(f: Field, had: seq<Value>, vs: seq<Value>)
    requires f.htype.Repeated? && Packable(f.ltype) && ValuesOk(f, vs) && |had| + |vs| <= f.htype.arraySize
    ensures DecodeElements(f, had, EncodeValues(f, vs)) == Got(had + vs, [])
    decreases |vs|
  {
    hide EncodeValue, DecodeValue, ValueOk;
    if vs == [] {
      assert had + vs == had;
    } else {
      var rest := EncodeValues(f, vs[1..]);
      ValuesFront(f, vs);
      ScalarsDecode(f, vs[0], rest);
      ElementsDecode(f, had + [vs[0]], vs[1..]);
      assert had + [vs[0]] + vs[1..] == had + vs;
    }
  }

  lemma ScalarsDecode(f: Field, v: Value, rest: seq<byte>)
    requires Packable(f.ltype) && ValueOk(f.ltype, v)
    ensures DecodeValue(f.ltype, f.init, EncodeValue(f.ltype, v) + rest) == Got(v, rest)
    ensures EncodeValue(f.ltype, v) + rest != []
  {
    hide EncodeValue, DecodeValue;
    NanopbScalars.ScalarRoundTrip(f.ltype, v, f.init, rest);
    if EncodeValue(f.ltype, v) + rest == [] {
      NothingDecodes(f);
    }
  }

  lemma NothingDecodes(f: Field)
    requires Packable(f.ltype)
    ensures DecodeValue(f.ltype, f.init, []) == Fail
  {
    hide ToSigned, Pow2;
  }

  // What a part says is stored in its field.
  lemma FieldDecodes(fields: seq<Field>, slots: seq<Slot>, p: Part, rest: seq<byte>)
    requires SchemaOk(fields) && !p.Noise? && PartOk(fields, p) && Fits(fields, slots, p)
    ensures DecodeField(fields[p.index], WireOf(fields, p), slots[p.index], Body(fields, p) + rest) ==
            Got(NewSlot(fields, slots, p), rest)
    decreases fields, 1
  {
    hide EncodeValue, EncodeValues, DecodeValue, DecodeElements, Render, RenderValue, InnerOk, ValueOk, RestoredValue,
      SchemaOk;
    var f, slot := fields[p.index], slots[p.index];
    KnownField(fields, p.index);
    if p.Packed? {
      PackedDecodes(f, slot, p.vs, rest);
    } else {
      if f.ltype.TSubmessage? { HeldDefault(f, slot); }
      ValueDecodes(f, Held(f, slot), p.v, p.inner, rest);
      NotPacked(f);
    }
  }

  lemma NotPacked(f: Field)
    ensures WireType(f.ltype) == WT_STRING ==> !Packable(f.ltype)
  {
  }

  lemma PackedDecodes(f: Field, slot: Slot, vs: seq<Value>, rest: seq<byte>)
    requires f.htype.Repeated? && Packable(f.ltype) && ValuesOk(f, vs)
    requires slot.Many? && |slot.vs| + |vs| <= f.htype.arraySize
    requires |EncodeValues(f, vs)| < TWO32
    ensures DecodeField(f, WT_STRING, slot, LengthPrefixed(EncodeValues(f, vs)) + rest) == Got(Many(slot.vs + vs), rest)
  {
    hide EncodeValues, DecodeValue, DecodeElements, ValueOk, LengthPrefixed, ReadString;
    NanopbScalars.StringReads(EncodeValues(f, vs), rest);
    ElementsDecode(f, slot.vs, vs);
  }

  lemma HeldDefault(f: Field, slot: Slot)
    requires f.ltype.TSubmessage? && (slot == DefaultSlot(f) || slot.Many?)
    ensures Held(f, slot) == DefaultValue(f) == VMessage(Defaults(f.ltype.fields))
  {
  }

  lemma ValueDecodes(f: Field, cur: Value, v: Value, inner: seq<Part>, rest: seq<byte>)
    requires TypeOk(f.ltype) && InnerOk(f, v, inner)
    requires f.ltype.TSubmessage? ==> cur == VMessage(Defaults(f.ltype.fields))
    ensures DecodeValue(f.ltype, cur, RenderValue(f, v, inner) + rest) == Got(RestoredValue(f.ltype, v), rest)
    decreases f
  {
    hide EncodeValue, Render, Spelling, DecodeNoInit, Restored, ReadString, LengthPrefixed, MessageOk, SchemaOk;
    if f.ltype.TSubmessage? {
      var fields := f.ltype.fields;
      SpellingDecodes(fields, v.slots, inner);
      NanopbScalars.StringReads(Render(fields, inner), rest);
    } else {
      NanopbScalars.ScalarRoundTrip(f.ltype, v, cur, rest);
    }
  }

  lemma FieldStep(fields: seq<Field>, slots: seq<Slot>, seen: set<nat>, p: Part, rest: seq<byte>)
    requires SchemaOk(fields) && !p.Noise? && PartOk(fields, p) && Fits(fields, slots, p)
    ensures DecodeLoop(fields, slots, seen, RenderPart(fields, p) + rest)
              == DecodeLoop(fields, Apply(fields, slots, p), seen + SeenBit(fields, p.index), rest)
    decreases fields, 2
  {
    hide DecodeVarint32, Tag, RenderValue, InnerOk, SkipField, DecodeField, NewSlot, SetSlot, SeenBit, FindField,
      SchemaOk, EncodeValues, LengthPrefixed;
    var body := Body(fields, p) + rest;
    KnownField(fields, p.index);
    FieldDecodes(fields, slots, p, rest);
    TagReads(fields[p.index].tag, WireOf(fields, p), body);
    assert RenderPart(fields, p) + rest == Tag(fields[p.index].tag, WireOf(fields, p)) + body;
  }

  // ------------------------------------------------------------------ decoding all parts

  // The decoder's loop stores what the parts say, one after the other, and nothing else.
  lemma {:induction false} PartsDecode(fields: seq<Field>, slots: seq<Slot>, seen: set<nat>, parts: seq<Part>)
    requires SchemaOk(fields) && PartsOk(fields, parts) && |slots| == |fields| && AllFit(fields, slots, Said(parts))
    ensures DecodeLoop(fields, slots, seen, Render(fields, parts))
              == Some((ApplyAll(fields, slots, Said(parts)), seen + SeenBy(fields, Said(parts))))
    decreases fields, 3, |parts|
  {
    hide DecodeLoop, RenderPart, PartOk, Fits, Apply, SeenBit, SchemaOk;
    if parts == [] {
      NothingLeft(fields, slots, seen);
      assert seen + {} == seen;
    } else {
      var p, more := parts[0], parts[1..];
      var rest := Render(fields, more);
      if p.Noise? {
        NoiseStep(fields, slots, seen, p, rest);
        assert Said(parts) == Said(more);
        PartsDecode(fields, slots, seen, more);
      } else {
        var q := Bare(p)[0];
        assert Said(parts)[0] == q && Said(parts)[1..] == Said(more);
        BareSame(fields, slots, p);
        FieldStep(fields, slots, seen, p, rest);
        PartsDecode(fields, Apply(fields, slots, p), seen + SeenBit(fields, p.index), more);
        assert seen + SeenBy(fields, Said(parts)) == seen + SeenBit(fields, p.index) + SeenBy(fields, Said(more));
      }
    }
  }

  lemma NothingLeft(fields: seq<Field>, slots: seq<Slot>, seen: set<nat>)
    requires |slots| == |fields|
    ensures DecodeLoop(fields, slots, seen, []) == Some((slots, seen))
  {
  }

  lemma BareSame(fields: seq<Field>, slots: seq<Slot>, p: Part)
    requires !p.Noise? && Fits(fields, slots, Bare(p)[0])
    ensures Fits(fields, slots, p) && Apply(fields, slots, p) == Apply(fields, slots, Bare(p)[0])
    ensures p.index == Bare(p)[0].index < |fields|
  {
  }

  // ------------------------------------------------------------------ the parts of a message

  lemma {:induction false} ApplyAppend(fields: seq<Field>, slots: seq<Slot>, a: seq<Part>, b: seq<Part>)
    requires |slots| == |fields| && AllFit(fields, slots, a) && AllFit(fields, ApplyAll(fields, slots, a), b)
    ensures AllFit(fields, slots, a + b)
    ensures ApplyAll(fields, slots, a + b) == ApplyAll(fields, ApplyAll(fields, slots, a), b)
    decreases |a|
  {
    hide Fits, Apply;
    if a == [] {
      assert a + b == b;
    } else {
      ApplyAppend(fields, Apply(fields, slots, a[0]), a[1..], b);
      assert (a + b)[1..] == a[1..] + b;
    }
  }

  lemma {:induction false} SaidAppend(a: seq<Part>, b: seq<Part>)
    ensures Said(a + b) == Said(a) + Said(b)
    decreases |a|
  {
    hide Bare;
    if a == [] {
      assert a + b == b;
    } else {
      SaidAppend(a[1..], b);
      assert (a + b)[1..] == a[1..] + b;
    }
  }

  // The first n fields are restored, the others still at their defaults.
  ghost predicate Stage(fields: seq<Field>, slots: seq<Slot>, n: nat, now: seq<Slot>)
    requires MessageOk(fields, slots) && n <= |fields|
  {
    && |now| == |fields|
    && (forall j :: 0 <= j < n ==> now[j] == RestoredSlot(fields[j], slots[j]))
    && (forall j :: n <= j < |fields| ==> now[j] == DefaultSlot(fields[j]))
  }

  // Storing field n as it is restored, and unchoosing its oneof, leads to the next stage.
  lemma SetAdvances(fields: seq<Field>, slots: seq<Slot>, n: nat, now: seq<Slot>, x: Slot)
    requires MessageOk(fields, slots) && n < |fields| && Stage(fields, slots, n, now)
    requires x == RestoredSlot(fields[n], slots[n]) && (fields[n].htype.OneOf? ==> slots[n].which)
    ensures Stage(fields, slots, n + 1, SetSlot(fields, now, n, x))
  {
    hide RestoredValue, RestoredValues, DefaultValue, ValueOk;
    forall j | 0 <= j < |fields| && j != n ensures SlotAfter(fields, now, n, x, j) == now[j] {
      assert SlotOk(fields[j], slots[j]) && SlotOk(fields[n], slots[n]);
      if j < n {
        assert Exclusive(fields, slots);
      }
    }
  }

  lemma NoneAdvances(fields: seq<Field>, slots: seq<Slot>, n: nat, now: seq<Slot>)
    requires MessageOk(fields, slots) && n < |fields| && Stage(fields, slots, n, now)
    requires RestoredSlot(fields[n], slots[n]) == DefaultSlot(fields[n])
    ensures Stage(fields, slots, n + 1, now)
  {
    hide RestoredSlot, DefaultSlot, MessageOk;
  }

  lemma OneFits(fields: seq<Field>, slots: seq<Slot>, p: Part)
    requires |slots| == |fields| && Fits(fields, slots, p)
    ensures AllFit(fields, slots, [p]) && ApplyAll(fields, slots, [p]) == Apply(fields, slots, p)
  {
    hide Fits, Apply;
    assert AllFit(fields, Apply(fields, slots, p), [p][1..]);
  }

  lemma {:induction false} ScalarsRestored(f: Field, vs: seq<Value>)
    requires ValuesOk(f, vs) && !f.ltype.TSubmessage?
    ensures RestoredValues(f, vs) == vs
    decreases |vs|
  {
    hide ValueOk;
    if vs != [] {
      ScalarsRestored(f, vs[..|vs| - 1]);
    }
  }

  // Storing into an array only changes that array.
  lemma SetArray(fields: seq<Field>, slots: seq<Slot>, n: nat, x: Slot)
    requires |slots| == |fields| && n < |fields| && !fields[n].htype.OneOf?
    ensures SetSlot(fields, slots, n, x) == slots[n := x]
  {
  }

  // The values of an array under their own tags are appended one by one.
  lemma {:induction false} ArrayFits(fields: seq<Field>, now: seq<Slot>, n: nat, vs: seq<Value>)
    requires |now| == |fields| && n < |fields| && fields[n].htype.Repeated?
    requires !Packable(fields[n].ltype) && now[n] == Many([])
    requires ValuesOk(fields[n], vs) && |vs| <= fields[n].htype.arraySize
    ensures AllFit(fields, now, Said(PlainValues(fields[n], n, vs)))
    ensures ApplyAll(fields, now, Said(PlainValues(fields[n], n, vs))) == now[n := Many(RestoredValues(fields[n], vs))]
    decreases |vs|
  {
    hide SetSlot, ValueOk, RestoredValue, Plain, AllFit, ApplyAll;
    var f := fields[n];
    if vs == [] {
      NoParts(fields, now);
      assert now[n := Many([])] == now;
    } else {
      var front, last := vs[..|vs| - 1], vs[|vs| - 1];
      var p := Single(n, last, []);
      ArrayFits(fields, now, n, front);
      SaidAppend(PlainValues(f, n, front), [PlainValue(f, n, last)]);
      SaidOne(PlainValue(f, n, last), p);
      var mid := now[n := Many(RestoredValues(f, front))];
      assert Fits(fields, mid, p);
      OneFits(fields, mid, p);
      ApplyAppend(fields, now, Said(PlainValues(f, n, front)), [p]);
      SetArray(fields, mid, n, NewSlot(fields, mid, p));
    }
  }

  lemma NoParts(fields: seq<Field>, now: seq<Slot>)
    requires |now| == |fields|
    ensures AllFit(fields, now, []) && ApplyAll(fields, now, []) == now && Said([]) == []
  {
  }

  lemma SaidOne(p: Part, q: Part)
    requires Bare(p) == [q]
    ensures Said([p]) == [q]
  {
    assert Said([p][1..]) == [];
  }

  // What the encoder writes for a field restores that field.
  lemma SlotFits(fields: seq<Field>, slots: seq<Slot>, n: nat, now: seq<Slot>)
    requires MessageOk(fields, slots) && n < |fields| && Stage(fields, slots, n, now)
    requires |slots| == |fields| && SlotOk(fields[n], slots[n])
    ensures AllFit(fields, now, Said(PlainSlot(fields[n], n, slots[n])))
    ensures Stage(fields, slots, n + 1, ApplyAll(fields, now, Said(PlainSlot(fields[n], n, slots[n]))))
  {
    hide MessageOk, SetSlot, ValueOk, RestoredValue, RestoredValues, Plain, AllFit, ApplyAll, Stage, DefaultValue,
      PlainValues;
    var f, s := fields[n], slots[n];
    StageAt(fields, slots, n, now);
    NoParts(fields, now);
    if f.htype.Repeated? {
      ArraySlotFits(fields, slots, n, now);
    } else if (f.htype.Optional? && !s.has) || (f.htype.OneOf? && !s.which) {
      NoneAdvances(fields, slots, n, now);
    } else {
      var p := Single(n, s.v, []);
      SaidOne(PlainValue(f, n, s.v), p);
      OneFits(fields, now, p);
      SetAdvances(fields, slots, n, now, NewSlot(fields, now, p));
    }
  }

  lemma StageAt(fields: seq<Field>, slots: seq<Slot>, n: nat, now: seq<Slot>)
    requires MessageOk(fields, slots) && n < |fields| && Stage(fields, slots, n, now)
    ensures |now| == |slots| == |fields| && now[n] == DefaultSlot(fields[n])
  {
    hide RestoredSlot, DefaultSlot;
  }

  lemma ArraySlotFits(fields: seq<Field>, slots: seq<Slot>, n: nat, now: seq<Slot>)
    requires MessageOk(fields, slots) && n < |fields| && Stage(fields, slots, n, now)
    requires |slots| == |fields| && SlotOk(fields[n], slots[n])
    requires fields[n].htype.Repeated?
    ensures AllFit(fields, now, Said(PlainSlot(fields[n], n, slots[n])))
    ensures Stage(fields, slots, n + 1, ApplyAll(fields, now, Said(PlainSlot(fields[n], n, slots[n]))))
  {
    hide MessageOk, SetSlot, ValueOk, RestoredValue, Plain, AllFit, ApplyAll, Stage, DefaultValue;
    var f, s := fields[n], slots[n];
    StageAt(fields, slots, n, now);
    NoParts(fields, now);
    if s.vs == [] {
      NoneAdvances(fields, slots, n, now);
    } else if Packable(f.ltype) {
      var p := Packed(n, s.vs);
      SaidOne(p, p);
      OneFits(fields, now, p);
      ScalarsRestored(f, s.vs);
      assert [] + s.vs == s.vs;
      SetAdvances(fields, slots, n, now, NewSlot(fields, now, p));
    } else {
      ArrayFits(fields, now, n, s.vs);
      SetArray(fields, now, n, Many(RestoredValues(f, s.vs)));
      SetAdvances(fields, slots, n, now, Many(RestoredValues(f, s.vs)));
    }
  }

  lemma {:induction false} PlainFits(fields: seq<Field>, slots: seq<Slot>, n: nat)
    requires MessageOk(fields, slots) && n <= |fields|
    ensures AllFit(fields, Defaults(fields), Said(PlainFirst(fields, slots, n)))
    ensures Stage(fields, slots, n, ApplyAll(fields, Defaults(fields), Said(PlainFirst(fields, slots, n))))
    decreases n
  {
    hide MessageOk, AllFit, ApplyAll, PlainSlot, RestoredSlot, DefaultSlot, Defaults, SlotOk;
    if n == 0 {
      NoParts(fields, Defaults(fields));
      forall j | 0 <= j < |fields| ensures Defaults(fields)[j] == DefaultSlot(fields[j]) {
        DefaultsAt(fields, j);
      }
    } else {
      PlainFits(fields, slots, n - 1);
      SlotIsOk(fields, slots, n - 1);
      var before, more := PlainFirst(fields, slots, n - 1), PlainSlot(fields[n - 1], n - 1, slots[n - 1]);
      var now := ApplyAll(fields, Defaults(fields), Said(before));
      SlotFits(fields, slots, n - 1, now);
      SaidAppend(before, more);
      ApplyAppend(fields, Defaults(fields), Said(before), Said(more));
    }
  }

  lemma {:induction false} DefaultsAt(fields: seq<Field>, j: nat)
    requires j < |fields|
    ensures Defaults(fields)[j] == DefaultSlot(fields[j])
    decreases |fields|
  {
    hide DefaultSlot;
    if j < |fields| - 1 {
      DefaultsAt(fields[..|fields| - 1], j);
    }
  }

  lemma {:induction false} RestoredAt(fields: seq<Field>, slots: seq<Slot>, n: nat, j: nat)
    requires MessageOk(fields, slots) && j < n <= |fields|
    ensures RestoredFirst(fields, slots, n)[j] == RestoredSlot(fields[j], slots[j])
    decreases n
  {
    hide RestoredSlot;
    if j < n - 1 {
      RestoredAt(fields, slots, n - 1, j);
    }
  }

  lemma StageDone(fields: seq<Field>, slots: seq<Slot>, now: seq<Slot>)
    requires MessageOk(fields, slots) && Stage(fields, slots, |fields|, now)
    ensures now == Restored(fields, slots)
  {
    hide RestoredSlot, MessageOk;
    forall j | 0 <= j < |fields| ensures now[j] == Restored(fields, slots)[j] {
      RestoredAt(fields, slots, |fields|, j);
    }
  }

  // ------------------------------------------------------------------ required fields

  lemma {:induction false} SeenAppend(fields: seq<Field>, a: seq<Part>, b: seq<Part>)
    ensures SeenBy(fields, a + b) == SeenBy(fields, a) + SeenBy(fields, b)
    decreases |a|
  {
    hide SeenBit;
    if a == [] {
      assert a + b == b;
    } else {
      SeenAppend(fields, a[1..], b);
      assert (a + b)[1..] == a[1..] + b;
    }
  }

  lemma {:induction false} PlainSees(fields: seq<Field>, slots: seq<Slot>, n: nat, k: nat)
    requires MessageOk(fields, slots) && n <= |fields| && k < RequiredBefore(fields, n) && k < MAX_REQUIRED_FIELDS
    ensures k in SeenBy(fields, Said(PlainFirst(fields, slots, n)))
    decreases n
  {
    hide MessageOk, PlainSlot, SeenBit, SlotOk, SeenBy;
    SlotIsOk(fields, slots, n - 1);
    var before, more := PlainFirst(fields, slots, n - 1), PlainSlot(fields[n - 1], n - 1, slots[n - 1]);
    SaidAppend(before, more);
    SeenAppend(fields, Said(before), Said(more));
    if k < RequiredBefore(fields, n - 1) {
      PlainSees(fields, slots, n - 1, k);
    } else {
      RequiredSees(fields, slots[n - 1], n - 1);
    }
  }

  lemma RequiredSees(fields: seq<Field>, s: Slot, i: nat)
    requires i < |fields| && SlotOk(fields[i], s) && fields[i].htype.Required?
    requires RequiredBefore(fields, i) < MAX_REQUIRED_FIELDS
    ensures RequiredBefore(fields, i) in SeenBy(fields, Said(PlainSlot(fields[i], i, s)))
  {
    hide RequiredBefore, ValueOk, Plain;
    var p := Single(i, s.v, []);
    SaidOne(PlainValue(fields[i], i, s.v), p);
    assert SeenBy(fields, [p]) == SeenBit(fields, i) + SeenBy(fields, [p][1..]);
  }

  lemma PlainSeesAll(fields: seq<Field>, slots: seq<Slot>)
    requires MessageOk(fields, slots)
    ensures AllSeen(fields, {} + SeenBy(fields, Said(Plain(fields, slots))))
  {
    hide MessageOk, SeenBy, PlainFirst;
    forall k | 0 <= k < RequiredCount(fields) ensures k in SeenBy(fields, Said(Plain(fields, slots))) {
      PlainSees(fields, slots, |fields|, k);
    }
  }

  // ------------------------------------------------------------------ the encoder's bytes are one of the ways

  lemma {:induction false} RenderAppend(fields: seq<Field>, a: seq<Part>, b: seq<Part>)
    requires PartsOk(fields, a) && PartsOk(fields, b)
    ensures PartsOk(fields, a + b) && Render(fields, a + b) == Render(fields, a) + Render(fields, b)
    decreases |a|
  {
    hide PartOk, RenderPart;
    if a == [] {
      assert a + b == b;
    } else {
      RenderAppend(fields, a[1..], b);
      assert (a + b)[1..] == a[1..] + b && (a + b)[0] == a[0];
      assert Render(fields, a + b) == RenderPart(fields, a[0]) + Render(fields, (a + b)[1..]);
    }
  }

  lemma OneRendered(fields: seq<Field>, p: Part)
    requires PartOk(fields, p)
    ensures PartsOk(fields, [p]) && Render(fields, [p]) == RenderPart(fields, p)
  {
    hide PartOk, RenderPart;
    assert [p][1..] == [];
  }

  lemma ValueSpelled(fields: seq<Field>, i: nat, v: Value)
    requires i < |fields| && FieldOk(fields[i]) && ValueOk(fields[i].ltype, v)
    requires |EncodeValue(fields[i].ltype, v)| < TWO32
    ensures PartsOk(fields, [PlainValue(fields[i], i, v)])
    ensures Render(fields, [PlainValue(fields[i], i, v)]) == EncodeTagged(fields[i], [v])
    decreases fields, 0
  {
    hide Tag, Plain, Render, Spelling, SchemaOk, MessageOk, EncodeMessage, PartsOk, Varint;
    var f := fields[i];
    var p := PlainValue(f, i, v);
    InnerSpelled(f, v);
    OneRendered(fields, p);
    TaggedOne(f, v);
  }

  lemma InnerSpelled(f: Field, v: Value)
    requires FieldOk(f) && ValueOk(f.ltype, v) && |EncodeValue(f.ltype, v)| < TWO32
    ensures InnerOk(f, v, PlainValue(f, 0, v).inner)
    ensures RenderValue(f, v, PlainValue(f, 0, v).inner) == EncodeValue(f.ltype, v)
    decreases f
  {
    hide Plain, Render, Spelling, SchemaOk, MessageOk, EncodeMessage, Varint;
    if f.ltype.TSubmessage? {
      PlainSpelled(f.ltype.fields, v.slots);
    }
  }

  lemma TaggedOne(f: Field, v: Value)
    requires ValueOk(f.ltype, v)
    ensures EncodeTagged(f, [v]) == Tag(f.tag, WireType(f.ltype)) + EncodeValue(f.ltype, v)
  {
    hide EncodeValue, ValueOk, Tag;
    assert EncodeTagged(f, [v][..0]) == [];
  }

  lemma {:induction false} ArraySpelled(fields: seq<Field>, i: nat, vs: seq<Value>)
    requires i < |fields| && FieldOk(fields[i]) && ValuesOk(fields[i], vs) && |EncodeTagged(fields[i], vs)| < TWO32
    ensures PartsOk(fields, PlainValues(fields[i], i, vs))
    ensures Render(fields, PlainValues(fields[i], i, vs)) == EncodeTagged(fields[i], vs)
    decreases fields, 1, |vs|
  {
    hide Tag, PlainValue, Render, FieldOk, EncodeValue, PartsOk, ValueOk;
    if vs == [] {
      NothingRendered(fields);
    } else {
      var f, front, last := fields[i], vs[..|vs| - 1], vs[|vs| - 1];
      ArraySpelled(fields, i, front);
      ValueSpelled(fields, i, last);
      TaggedOne(f, last);
      RenderAppend(fields, PlainValues(f, i, front), [PlainValue(f, i, last)]);
    }
  }

  lemma NothingRendered(fields: seq<Field>)
    ensures PartsOk(fields, []) && Render(fields, []) == []
  {
  }

  lemma SlotSpelled(fields: seq<Field>, i: nat, s: Slot)
    requires i < |fields| && FieldOk(fields[i]) && SlotOk(fields[i], s) && |EncodeSlot(fields[i], s)| < TWO32
    ensures PartsOk(fields, PlainSlot(fields[i], i, s))
    ensures Render(fields, PlainSlot(fields[i], i, s)) == EncodeSlot(fields[i], s)
    decreases fields, 2
  {
    hide Tag, PlainValue, PlainValues, Render, FieldOk, EncodeValue, EncodeValues, EncodeTagged, PartsOk, ValueOk,
      Varint;
    var f := fields[i];
    NothingRendered(fields);
    if f.htype.Repeated? {
      if s.vs == [] {
      } else if Packable(f.ltype) {
        OneRendered(fields, Packed(i, s.vs));
      } else {
        ArraySpelled(fields, i, s.vs);
      }
    } else if PlainSlot(f, i, s) != [] {
      TaggedOne(f, s.v);
      ValueSpelled(fields, i, s.v);
    }
  }

  lemma {:induction false} FirstSpelled(fields: seq<Field>, slots: seq<Slot>, n: nat)
    requires SchemaOk(fields) && MessageOk(fields, slots) && n <= |fields| && |EncodeFirst(fields, slots, n)| < TWO32
    ensures PartsOk(fields, PlainFirst(fields, slots, n))
    ensures Render(fields, PlainFirst(fields, slots, n)) == EncodeFirst(fields, slots, n)
    decreases fields, 3, n
  {
    hide SchemaOk, MessageOk, PlainSlot, EncodeSlot, Render, PartsOk, FieldOk, SlotOk;
    if n == 0 {
      NothingRendered(fields);
    } else {
      SlotIsOk(fields, slots, n - 1);
      FieldIsOk(fields, n - 1);
      FirstSpelled(fields, slots, n - 1);
      SlotSpelled(fields, n - 1, slots[n - 1]);
      RenderAppend(fields, PlainFirst(fields, slots, n - 1), PlainSlot(fields[n - 1], n - 1, slots[n - 1]));
    }
  }

  lemma FieldIsOk(fields: seq<Field>, i: nat)
    requires SchemaOk(fields) && i < |fields|
    ensures FieldOk(fields[i])
  {
  }

  // The encoder's own bytes are the message without unknown fields.
  lemma PlainSpelled(fields: seq<Field>, slots: seq<Slot>)
    requires SchemaOk(fields) && MessageOk(fields, slots) && |EncodeMessage(fields, slots)| < TWO32
    ensures Spelling(fields, slots, Plain(fields, slots))
    ensures Render(fields, Plain(fields, slots)) == EncodeMessage(fields, slots)
    decreases fields, 4
  {
    hide SchemaOk, MessageOk, Render, PartsOk, PlainFirst, EncodeFirst, Said;
    FirstSpelled(fields, slots, |fields|);
  }

  // ------------------------------------------------------------------ the theorems

  /** Whatever way a message is written, with unknown fields anywhere between its fields and inside its submessages,
      decoding gives back every field that is present, and the defaults for the others.
   */
  lemma SpellingDecodes(fields: seq<Field>, slots: seq<Slot>, parts: seq<Part>)
    requires SchemaOk(fields) && Spelling(fields, slots, parts)
    ensures DecodeMessage(fields, Render(fields, parts)) == Some(Restored(fields, slots))
    decreases fields, 4
  {
    hide SchemaOk, MessageOk, PartsOk, Render, DecodeLoop, ApplyAll, AllFit, AllSeen, Stage, SeenBy, PlainFirst,
      Defaults, Restored, Said;
    PlainFits(fields, slots, |fields|);
    PartsDecode(fields, Defaults(fields), {}, parts);
    StageDone(fields, slots, ApplyAll(fields, Defaults(fields), Said(parts)));
    PlainSeesAll(fields, slots);
  }

  /** Decoding the encoder's bytes succeeds and restores the message. */
  lemma RoundTrip(fields: seq<Field>, slots: seq<Slot>)
    requires SchemaOk(fields) && MessageOk(fields, slots) && |EncodeMessage(fields, slots)| < TWO32
    ensures DecodeMessage(fields, EncodeMessage(fields, slots)) == Some(Restored(fields, slots))
  {
    hide SchemaOk, MessageOk, Render, PartsOk, Spelling, EncodeMessage, DecodeMessage, Plain, Restored;
    PlainSpelled(fields, slots);
    SpellingDecodes(fields, slots, Plain(fields, slots));
  }

  // ------------------------------------------------------------------ nothing that is present is lost

  lemma {:induction false} ValuesKept(f: Field, vs: seq<Value>)
    requires ValuesOk(f, vs)
    ensures ValuesOk(f, RestoredValues(f, vs))
    ensures EncodeValues(f, RestoredValues(f, vs)) == EncodeValues(f, vs)
    ensures EncodeTagged(f, RestoredValues(f, vs)) == EncodeTagged(f, vs)
    decreases f, 1, |vs|
  {
    hide RestoredValue, EncodeValue, Tag, ValueOk;
    if vs != [] {
      var front, last := vs[..|vs| - 1], vs[|vs| - 1];
      ValuesKept(f, front);
      ValueKept(f, last);
      assert RestoredValues(f, vs)[..|vs| - 1] == RestoredValues(f, front);
    }
  }

  lemma ValueKept(f: Field, v: Value)
    requires ValueOk(f.ltype, v)
    ensures ValueOk(f.ltype, RestoredValue(f.ltype, v))
    ensures EncodeValue(f.ltype, RestoredValue(f.ltype, v)) == EncodeValue(f.ltype, v)
    decreases f, 0
  {
    hide Restored, EncodeMessage, MessageOk, Varint;
    if f.ltype.TSubmessage? {
      MessageKept(f.ltype.fields, v.slots);
    }
  }

  lemma SlotKept(f: Field, s: Slot)
    requires SlotOk(f, s)
    ensures SlotOk(f, RestoredSlot(f, s)) && EncodeSlot(f, RestoredSlot(f, s)) == EncodeSlot(f, s)
    decreases f, 2
  {
    hide RestoredValue, RestoredValues, ValueOk, EncodeValue, EncodeValues, EncodeTagged, Tag, Varint, DefaultValue;
    if f.htype.Repeated? {
      ValuesKept(f, s.vs);
    } else if f.htype.Required? || (f.htype.Optional? && s.has) || (f.htype.OneOf? && s.which) {
      ValueKept(f, s.v);
      TaggedOne(f, s.v);
      TaggedOne(f, RestoredValue(f.ltype, s.v));
    }
  }

  /** The restored message is well formed and encodes to the very same bytes. */
  lemma MessageKept(fields: seq<Field>, slots: seq<Slot>)
    requires MessageOk(fields, slots)
    ensures MessageOk(fields, Restored(fields, slots))
    ensures EncodeMessage(fields, Restored(fields, slots)) == EncodeMessage(fields, slots)
    decreases fields, 1
  {
    hide RestoredSlot, EncodeSlot, SlotOk, Restored, EncodeFirst, Exclusive;
    var r := Restored(fields, slots);
    forall j | 0 <= j < |fields| ensures r[j] == RestoredSlot(fields[j], slots[j]) && SlotOk(fields[j], r[j]) {
      RestoredIs(fields, slots, j);
      SlotKept(fields[j], slots[j]);
    }
    StillExclusive(fields, slots);
    FirstKept(fields, slots, |fields|);
  }

  lemma RestoredIs(fields: seq<Field>, slots: seq<Slot>, j: nat)
    requires MessageOk(fields, slots) && j < |fields|
    ensures SlotOk(fields[j], slots[j]) && Restored(fields, slots)[j] == RestoredSlot(fields[j], slots[j])
  {
    hide RestoredSlot, RestoredFirst;
    RestoredAt(fields, slots, |fields|, j);
  }

  lemma StillExclusive(fields: seq<Field>, slots: seq<Slot>)
    requires MessageOk(fields, slots)
    ensures Exclusive(fields, Restored(fields, slots))
  {
    hide Restored, RestoredValue, RestoredValues, ValueOk, DefaultValue;
    forall j | 0 <= j < |fields|
        ensures Restored(fields, slots)[j] == RestoredSlot(fields[j], slots[j]) && SlotOk(fields[j], slots[j]) {
      RestoredIs(fields, slots, j);
    }
  }

  lemma {:induction false} FirstKept(fields: seq<Field>, slots: seq<Slot>, n: nat)
    requires MessageOk(fields, slots) && MessageOk(fields, Restored(fields, slots)) && n <= |fields|
    ensures EncodeFirst(fields, Restored(fields, slots), n) == EncodeFirst(fields, slots, n)
    decreases fields, 0, n
  {
    hide RestoredSlot, EncodeSlot, SlotOk, Restored, MessageOk;
    if n > 0 {
      FirstKept(fields, slots, n - 1);
      SlotIsOk(fields, slots, n - 1);
      RestoredIs(fields, slots, n - 1);
      SlotKept(fields[n - 1], slots[n - 1]);
    }
  }
}
