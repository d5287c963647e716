/** What bytes mean to the protocol buffer decoder, as functions. */
module NanopbDecode {
  import opened Coding
  import opened NanopbFormat
  import opened NanopbCommon
  import opened Wrappers

  datatype Parse<+T> = Got(value: T, rest: seq<byte>) | Fail

  // ------------------------------------------------------------------ varints

  function ShiftLeft(x: nat, n: nat): nat {
    if n == 0 then x else 2 * ShiftLeft(x, n - 1)
  }

  function BitOr(a: nat, b: nat): nat
    decreases a + b
  {
    if a == 0 && b == 0 then 0
    else 2 * BitOr(a / 2, b / 2) + if a % 2 == 1 || b % 2 == 1 then 1 else 0
  }

  // The position of the next byte in the value, in eight bits.
  function NextBit(bitpos: nat): nat {
    (bitpos + 7) % 256
  }

  // Bytes past the 32nd bit may only extend the sign.
  predicate Overflows(b: byte, bitpos: nat, result: nat) {
    bitpos >= 32 && b % 128 != 0 && (result / 0x8000_0000 == 0 || b != if bitpos < 63 then 0xff else 0x01)
  }

  // The bytes of a 32-bit varint after the first one.
  function Varint32Tail(s: seq<byte>, bitpos: nat, result: nat): (r: Parse<nat>)
    requires result < TWO32
    ensures r.Got? ==> |r.rest| < |s| && r.value < TWO32
    decreases |s|
  {
    if s == [] then Fail
    else
      var b := s[0];
      if Overflows(b, bitpos, result) then Fail
      else
        var next := if bitpos >= 32 then result else BitOr(result, ShiftLeft(b % 128, bitpos)) % TWO32;
        if b >= 128 then Varint32Tail(s[1..], NextBit(bitpos), next)
        else if bitpos == 28 && b / 16 % 8 != 0 then Fail   // only the bottom 4 bits fit
        else Got(next, s[1..])
  }

  // pb_decode_varint32
  function DecodeVarint32(s: seq<byte>): (r: Parse<nat>)
    ensures r.Got? ==> |r.rest| < |s| && r.value < TWO32
  {
    if s == [] then Fail
    else if s[0] < 128 then Got(s[0], s[1..])
    else Varint32Tail(s[1..], 7, s[0] - 128)
  }

  // A 64-bit varint takes at most ten bytes; what does not fit is lost.
  function DecodeVarint64(s: seq<byte>): (r: Parse<nat>)
    ensures r.Got? ==> |r.rest| < |s| && r.value < TWO64
  {
    match ParseVarint(s, 10)
    case Malformed => Fail
    case Parsed(v, n) => Got(v % TWO64, s[n..])
  }

  function SkipVarint(s: seq<byte>): (r: Parse<()>)
    ensures r.Got? ==> |r.rest| < |s|
    decreases |s|
  {
    if s == [] then Fail
    else if s[0] >= 128 then SkipVarint(s[1..])
    else Got((), s[1..])
  }

  function Read(s: seq<byte>, n: nat): (r: Parse<seq<byte>>)
    ensures r.Got? ==> |r.value| == n && |r.rest| == |s| - n
  {
    if n <= |s| then Got(s[..n], s[n..]) else Fail
  }

  // A length and so many bytes.
  function ReadString(s: seq<byte>): (r: Parse<seq<byte>>)
    ensures r.Got? ==> |r.rest| < |s| && |r.value| < |s|
  {
    match DecodeVarint32(s)
    case Fail => Fail
    case Got(n, rest) => Read(rest, n)
  }

  function SkipField(wireType: nat, s: seq<byte>): (r: Parse<()>)
    ensures r.Got? ==> |r.rest| <= |s|
  {
    if wireType == WT_VARINT then SkipVarint(s)
    else if wireType == WT_64BIT then Done(Read(s, 8))
    else if wireType == WT_STRING then Done(ReadString(s))
    else if wireType == WT_32BIT then Done(Read(s, 4))
    else Fail
  }

  function Done<T>(r: Parse<T>): Parse<()> {
    match r
    case Fail => Fail
    case Got(_, rest) => Got((), rest)
  }

  // ------------------------------------------------------------------ values

  // The two's complement value of the low bits.
  function ToSigned(x: int, bits: nat): int {
    var m := x % Pow2(bits);
    if bits > 0 && m >= Pow2(bits - 1) then m - Pow2(bits) else m
  }

  function UnZigZag(value: nat): int {
    if value % 2 == 1 then -(value / 2) - 1 else value / 2
  }

  function Zeroes(n: nat): (z: seq<byte>)
    ensures |z| == n && forall i :: 0 <= i < n ==> z[i] == 0
  {
    if n == 0 then [] else [0] + Zeroes(n - 1)
  }

  function DefaultValue(f: Field): Value
    decreases f, 0
  {
    if f.ltype.TSubmessage? then VMessage(Defaults(f.ltype.fields)) else f.init
  }

  function DefaultSlot(f: Field): Slot
    decreases f, 1
  {
    match f.htype
    case Required => One(DefaultValue(f))
    case Optional => Opt(false, DefaultValue(f))
    case Repeated(_) => Many([])
    case OneOf(_) => Alt(false, f.init)
  }

  // pb_message_set_to_defaults
  function Defaults(fields: seq<Field>): (slots: seq<Slot>)
    ensures |slots| == |fields|
    decreases fields
  {
    if fields == [] then []
    else Defaults(fields[..|fields| - 1]) + [DefaultSlot(fields[|fields| - 1])]
  }

  // ------------------------------------------------------------------ fields

  // The value after the tag; cur is what the struct holds there, into which a submessage is merged.
  function DecodeValue(l: LType, cur: Value, s: seq<byte>): (r: Parse<Value>)
    ensures r.Got? ==> |r.rest| <= |s| && (Packable(l) ==> |r.rest| < |s|)
    decreases l, 0
  {
    match l
    case TBool =>
      (match DecodeVarint32(s) case Fail => Fail case Got(n, rest) => Got(VBool(n != 0), rest))
    case TVarint(bits) =>
      (match DecodeVarint64(s)
       case Fail => Fail
       case Got(n, rest) => NarrowSigned(if bits == 64 then ToSigned(n, 64) else ToSigned(n, 32), bits, rest))
    case TUVarint(bits) =>
      (match DecodeVarint64(s)
       case Fail => Fail
       case Got(n, rest) => if Width(bits) && n % Pow2(bits) == n then Got(VInt(n), rest) else Fail)
    case TSVarint(bits) =>
      (match DecodeVarint64(s) case Fail => Fail case Got(n, rest) => NarrowSigned(UnZigZag(n), bits, rest))
    case TFixed32 =>
      (match Read(s, 4) case Fail => Fail case Got(b, rest) => Got(VInt(FromLittleEndian(b)), rest))
    case TFixed64 =>
      (match Read(s, 8) case Fail => Fail case Got(b, rest) => Got(VInt(FromLittleEndian(b)), rest))
    case TBytes(max) =>
      (match DecodeVarint32(s) case Fail => Fail case Got(n, rest) => if n > max then Fail else ReadBytes(rest, n))
    case TString(max) =>
      // One more byte for the terminator
      (match DecodeVarint32(s) case Fail => Fail case Got(n, rest) => if n + 1 > max then Fail else ReadBytes(rest, n))
    case TFixedBytes(size) =>
      // An empty string stands for all zeros
      (match DecodeVarint32(s)
       case Fail => Fail
       case Got(n, rest) => if n == 0 then Got(VBytes(Zeroes(size)), rest) else if n != size then Fail
           else ReadBytes(rest, n))
    case TSubmessage(fields) =>
      (match ReadString(s)
       case Fail => Fail
       case Got(sub, rest) =>
         match DecodeNoInit(fields, SlotsOf(fields, cur), sub)
         case None => Fail
         case Some(slots) => Got(VMessage(slots), rest))
  }

  function NarrowSigned(value: int, bits: nat, rest: seq<byte>): Parse<Value> {
    if Width(bits) && ToSigned(value, bits) == value then Got(VInt(value), rest) else Fail
  }

  function ReadBytes(s: seq<byte>, n: nat): (r: Parse<Value>)
    ensures r.Got? ==> |r.rest| <= |s|
  {
    match Read(s, n)
    case Fail => Fail
    case Got(b, rest) => Got(VBytes(b), rest)
  }

  function SlotsOf(fields: seq<Field>, v: Value): (slots: seq<Slot>)
    ensures |slots| == |fields|
  {
    if v.VMessage? && |v.slots| == |fields| then v.slots else Defaults(fields)
  }

  // A packed array: elements until the bytes are used up or the array is full.
  function DecodeElements(f: Field, vs: seq<Value>, s: seq<byte>): (r: Parse<seq<Value>>)
    requires f.htype.Repeated? && Packable(f.ltype)
    decreases f, 1, |s|
  {
    if s == [] || |vs| >= f.htype.arraySize then Got(vs, s)
    else match DecodeValue(f.ltype, f.init, s)
         case Fail => Fail
         case Got(v, rest) => DecodeElements(f, vs + [v], rest)
  }

  // decode_static_field
  function DecodeField(f: Field, wireType: nat, slot: Slot, s: seq<byte>): (r: Parse<Slot>)
    ensures r.Got? ==> |r.rest| <= |s|
    decreases f, 2
  {
    match f.htype
    case Required =>
      (match DecodeValue(f.ltype, Held(f, slot), s) case Fail => Fail case Got(v, rest) => Got(One(v), rest))
    case Optional =>
      (match DecodeValue(f.ltype, Held(f, slot), s) case Fail => Fail case Got(v, rest) => Got(Opt(true, v), rest))
    case OneOf(_) =>
      (match DecodeValue(f.ltype, Held(f, slot), s) case Fail => Fail case Got(v, rest) => Got(Alt(true, v), rest))
    case Repeated(n) =>
      var vs := if slot.Many? then slot.vs else [];
      if wireType == WT_STRING && Packable(f.ltype) then
        match ReadString(s)
        case Fail => Fail
        case Got(sub, rest) =>
          match DecodeElements(f, vs, sub)
          case Fail => Fail
          case Got(all, left) => if left != [] then Fail else Got(Many(all), rest)
      else if |vs| >= n then Fail
      else match DecodeValue(f.ltype, DefaultValue(f), s) case Fail => Fail
           case Got(v, rest) => Got(Many(vs + [v]), rest)
  }

  // What a submessage is merged into: a oneof member that was not chosen, and a new array element, start
  // from the defaults.
  function Held(f: Field, slot: Slot): Value {
    match slot
    case One(v) => v
    case Opt(_, v) => v
    case Alt(which, v) => if f.ltype.TSubmessage? && !which then VMessage(Defaults(f.ltype.fields)) else v
    case Many(_) => DefaultValue(f)
  }

  // ------------------------------------------------------------------ messages

  function FindField(fields: seq<Field>, tag: nat): (i: nat)
    ensures i <= |fields| && (i < |fields| ==> fields[i].tag == tag) && forall k :: 0 <= k < i ==> fields[k].tag != tag
    decreases |fields|
  {
    if fields == [] then 0 else if fields[0].tag == tag then 0 else 1 + FindField(fields[1..], tag)
  }

  // Stores a field; choosing a oneof member unchooses the others of its group.
  function SetSlot(fields: seq<Field>, slots: seq<Slot>, i: nat, x: Slot): (r: seq<Slot>)
    requires |slots| == |fields| && i < |fields|
    ensures |r| == |fields| && forall j :: 0 <= j < |fields| ==> r[j] == SlotAfter(fields, slots, i, x, j)
  {
    seq(|fields|, j requires 0 <= j < |fields| => SlotAfter(fields, slots, i, x, j))
  }

  function SlotAfter(fields: seq<Field>, slots: seq<Slot>, i: nat, x: Slot, j: nat): Slot
    requires |slots| == |fields| && i < |fields| && j < |fields|
  {
    if j == i then x
    else if fields[i].htype.OneOf? && fields[j].htype == fields[i].htype && slots[j].Alt? then slots[j].(which := false)
    else slots[j]
  }

  // The bits of fields_seen: required fields by their index among the required ones.
  function SeenBit(fields: seq<Field>, i: nat): set<nat>
    requires i < |fields|
  {
    if fields[i].htype.Required? && RequiredBefore(fields, i) < MAX_REQUIRED_FIELDS then {RequiredBefore(fields, i)}
       else {}
  }

  // The loop of pb_decode_noinit.
  function DecodeLoop(fields: seq<Field>, slots: seq<Slot>, seen: set<nat>,
                      s: seq<byte>): (r: Option<(seq<Slot>, set<nat>)>)
    requires |slots| == |fields|
    ensures r.Some? ==> |r.value.0| == |fields|
    decreases fields, 0, |s|
  {
    if s == [] then Some((slots, seen))
    else match DecodeVarint32(s)
         case Fail => None
         case Got(key, rest) =>
           if key == 0 then Some((slots, seen))   // 0-terminated messages are allowed
           else
             var tag, wireType := key / 8, key % 8;
             var i := FindField(fields, tag);
             if fields == [] && tag == 0 then
               // The terminator of an empty field array has tag 0 and the type of a required bool
               match DecodeVarint32(rest)
               case Fail => None
               case Got(_, rest1) => DecodeLoop(fields, slots, seen, rest1)
             else if i == |fields| then
               // No field has this tag
               match SkipField(wireType, rest)
               case Fail => None
               case Got(_, rest1) => DecodeLoop(fields, slots, seen, rest1)
             else
               match DecodeField(fields[i], wireType, slots[i], rest)
               case Fail => None
               case Got(x, rest1) => DecodeLoop(fields, SetSlot(fields, slots, i, x), seen + SeenBit(fields, i), rest1)
  }

  function RequiredCount(fields: seq<Field>): (n: nat)
    ensures n <= MAX_REQUIRED_FIELDS
  {
    var n := RequiredBefore(fields, |fields|);
    if n > MAX_REQUIRED_FIELDS then MAX_REQUIRED_FIELDS else n
  }

  predicate AllSeen(fields: seq<Field>, seen: set<nat>) {
    forall k :: 0 <= k < RequiredCount(fields) ==> k in seen
  }

  // pb_decode_noinit: merges the bytes into the slots.
  function DecodeNoInit(fields: seq<Field>, slots: seq<Slot>, s: seq<byte>): (r: Option<seq<Slot>>)
    requires |slots| == |fields|
    ensures r.Some? ==> |r.value| == |fields|
    decreases fields, 1
  {
    match DecodeLoop(fields, slots, {}, s)
    case None => None
    case Some((all, seen)) => if AllSeen(fields, seen) then Some(all) else None
  }

  // pb_decode
  function DecodeMessage(fields: seq<Field>, s: seq<byte>): Option<seq<Slot>> {
    DecodeNoInit(fields, Defaults(fields), s)
  }
}
