/** Small examples of every byte format, written out. */
module KnownBytes {
  import opened Coding
  import opened Wrappers
  import BlockFormat
  import Entries
  import FilterBlock
  import LogFormat
  import MemTable
  import NanopbFormat
  import WriteBatch

  // ------------------------------------------------------------------ integers

  lemma OneByte(x: nat)
    requires x < 128
    ensures Varint(x) == [x]
  {
  }

  lemma TwoBytes(x: nat)
    requires 128 <= x < 0x4000
    ensures Varint(x) == [x % 128 + 128, x / 128]
  {
    OneByte(x / 128);
  }

  lemma Word32(x: nat)
    requires x < 256
    ensures Fixed32(x) == [x, 0, 0, 0]
  {
    assert LittleEndian(0, 1) == [0 % 256] + LittleEndian(0, 0);
    assert LittleEndian(0, 2) == [0 % 256] + LittleEndian(0, 1);
    assert LittleEndian(0, 3) == [0 % 256] + LittleEndian(0, 2);
  }

  lemma Word64(x: nat)
    requires x < 0x1_0000
    ensures Fixed64(x) == [x % 256, x / 256, 0, 0, 0, 0, 0, 0]
  {
    assert LittleEndian(0, 1) == [0 % 256] + LittleEndian(0, 0);
    assert LittleEndian(0, 2) == [0 % 256] + LittleEndian(0, 1);
    assert LittleEndian(0, 3) == [0 % 256] + LittleEndian(0, 2);
    assert LittleEndian(0, 4) == [0 % 256] + LittleEndian(0, 3);
    assert LittleEndian(0, 5) == [0 % 256] + LittleEndian(0, 4);
    assert LittleEndian(0, 6) == [0 % 256] + LittleEndian(0, 5);
    assert LittleEndian(x / 256, 7) == [x / 256 % 256] + LittleEndian(x / 256 / 256, 6);
  }

  // ------------------------------------------------------------------ LevelDB

  lemma PutBytes()
    ensures WriteBatch.EncodeUpdate(WriteBatch.Put([0x66, 0x6f, 0x6f], [0x62, 0x61, 0x72]))
         == [1, 3, 0x66, 0x6f, 0x6f, 3, 0x62, 0x61, 0x72]
  {
    hide Varint;
    OneByte(3);
  }

  lemma DeleteBytes()
    ensures WriteBatch.EncodeUpdate(WriteBatch.Delete([0x62, 0x61, 0x7a])) == [0, 3, 0x62, 0x61, 0x7a]
  {
    hide Varint;
    OneByte(3);
  }

  lemma UpdatesBytes()
    ensures WriteBatch.EncodeUpdates([WriteBatch.Put([0x66, 0x6f, 0x6f], [0x62, 0x61, 0x72]),
                                      WriteBatch.Delete([0x62, 0x61, 0x7a])])
         == [1, 3, 0x66, 0x6f, 0x6f, 3, 0x62, 0x61, 0x72, 0, 3, 0x62, 0x61, 0x7a]
  {
    hide WriteBatch.EncodeUpdate;
    PutBytes();
    DeleteBytes();
    var p, d := WriteBatch.Put([0x66, 0x6f, 0x6f], [0x62, 0x61, 0x72]), WriteBatch.Delete([0x62, 0x61, 0x7a]);
    assert [p, d][1..] == [d] && [d][1..] == [];
    assert WriteBatch.EncodeUpdates([]) == [];
    assert WriteBatch.EncodeUpdates([d]) == WriteBatch.EncodeUpdate(d) + [];
    assert WriteBatch.EncodeUpdates([p, d]) == WriteBatch.EncodeUpdate(p) + WriteBatch.EncodeUpdates([d]);
  }

  // Put foo = bar and delete baz, at sequence number 100.
  lemma Batch()
    ensures WriteBatch.Encode(100, [WriteBatch.Put([0x66, 0x6f, 0x6f], [0x62, 0x61, 0x72]),
                                    WriteBatch.Delete([0x62, 0x61, 0x7a])])
         == [100, 0, 0, 0, 0, 0, 0, 0, 2, 0, 0, 0, 1, 3, 0x66, 0x6f, 0x6f, 3, 0x62, 0x61, 0x72, 0, 3, 0x62, 0x61, 0x7a]
  {
    hide Fixed32, Fixed64, WriteBatch.EncodeUpdates;
    UpdatesBytes();
    Word32(2);
    Word64(100);
  }

  // The same put in a memtable: key size, key, tag, value size, value.
  lemma MemTableEntry()
    ensures MemTable.EncodeEntry(MemTable.Rec([0x66, 0x6f, 0x6f], 100, Entries.Present([0x62, 0x61, 0x72])))
         == [11, 0x66, 0x6f, 0x6f, 1, 100, 0, 0, 0, 0, 0, 0, 3, 0x62, 0x61, 0x72]
    ensures MemTable.EncodeEntry(MemTable.Rec([0x66, 0x6f, 0x6f], 100, Entries.Deleted))
         == [11, 0x66, 0x6f, 0x6f, 0, 100, 0, 0, 0, 0, 0, 0, 0]
  {
    hide Varint, Fixed64;
    OneByte(11);
    OneByte(3);
    OneByte(0);
    Word64(25601);
    Word64(25600);
  }

  // A record of two bytes alone in its block, and block trailers.
  lemma LogRecord(c: LogFormat.Config, n: nat, i: nat)
    requires c.crc(1, [7, 9]) == 200
    ensures LogFormat.Physical(c, LogFormat.KindOf(true, true), [7, 9]) == [200, 0, 0, 0, 2, 0, 1, 7, 9]
    ensures LogFormat.KindOf(true, false) == 2
    ensures LogFormat.KindOf(false, false) == 3 && LogFormat.KindOf(false, true) == 4
    ensures i < n ==> LogFormat.Zeros(n)[i] == 0
  {
    hide Fixed32;
    Word32(200);
    if 0 < i < n {
      LogRecord(c, n - 1, i - 1);
    }
  }

  // An entry of a block that shares two bytes with the one before.
  lemma BlockEntry()
    ensures BlockFormat.EncodeItem(BlockFormat.Item(2, [0x66, 0x6f, 0x6f], [0x62])) == [2, 1, 1, 0x6f, 0x62]
  {
    hide Varint;
    OneByte(2);
    OneByte(1);
  }

  // Two filters of two bytes and none: their bytes, their offsets, where the offsets start, and the logarithm of 2048.
  lemma Filters()
    ensures FilterBlock.Layout([5, 6], [0, 2]) == [5, 6, 0, 0, 0, 0, 2, 0, 0, 0, 2, 0, 0, 0, 11]
  {
    hide Fixed32;
    Word32(0);
    Word32(2);
    var ws := [0, 2] + [2];
    assert ws == [0, 2, 2] && ws[..2] == [0, 2] && [0, 2][..1] == [0] && [0][..0] == [];
    assert EncodeWords([0]) == EncodeWords([]) + Fixed32(0);
    assert EncodeWords([0, 2]) == EncodeWords([0]) + Fixed32(2);
    assert EncodeWords(ws) == EncodeWords([0, 2]) + Fixed32(2);
  }

  // ------------------------------------------------------------------ protocol buffers

  // Field 1 with the number 150.
  lemma NumberField()
    ensures var f := NanopbFormat.Field(1, NanopbFormat.TVarint(32), NanopbFormat.Required, NanopbFormat.VInt(0));
            NanopbFormat.ValueOk(f.ltype, NanopbFormat.VInt(150)) &&
            NanopbFormat.EncodeTagged(f, [NanopbFormat.VInt(150)]) == [0x08, 0x96, 0x01]
  {
    hide Varint, Pow2;
    NanopbFormat.PowersOfTwo();
    OneByte(8);
    TwoBytes(150);
    var f := NanopbFormat.Field(1, NanopbFormat.TVarint(32), NanopbFormat.Required, NanopbFormat.VInt(0));
    TaggedOnce(f, NanopbFormat.VInt(150));
  }

  // Field 2 with the bytes "ok".
  lemma BytesField()
    ensures var f := NanopbFormat.Field(2, NanopbFormat.TBytes(9), NanopbFormat.Required, NanopbFormat.VBytes([]));
            NanopbFormat.EncodeTagged(f, [NanopbFormat.VBytes([0x6f, 0x6b])]) == [0x12, 2, 0x6f, 0x6b]
  {
    hide Varint;
    OneByte(0x12);
    OneByte(2);
    var f := NanopbFormat.Field(2, NanopbFormat.TBytes(9), NanopbFormat.Required, NanopbFormat.VBytes([]));
    TaggedOnce(f, NanopbFormat.VBytes([0x6f, 0x6b]));
  }

  // Field 1 as a fixed32 with the value 7.
  lemma FixedField()
    ensures var f := NanopbFormat.Field(1, NanopbFormat.TFixed32, NanopbFormat.Required, NanopbFormat.VInt(0));
            NanopbFormat.EncodeTagged(f, [NanopbFormat.VInt(7)]) == [0x0d, 7, 0, 0, 0]
  {
    hide Varint, Fixed32;
    OneByte(0x0d);
    Word32(7);
    var f := NanopbFormat.Field(1, NanopbFormat.TFixed32, NanopbFormat.Required, NanopbFormat.VInt(0));
    TaggedOnce(f, NanopbFormat.VInt(7));
  }

  lemma TaggedOnce(f: NanopbFormat.Field, v: NanopbFormat.Value)
    requires NanopbFormat.ValueOk(f.ltype, v)
    ensures NanopbFormat.EncodeTagged(f, [v]) ==
              NanopbFormat.Tag(f.tag, NanopbFormat.WireType(f.ltype)) + NanopbFormat.EncodeValue(f.ltype, v)
  {
    hide NanopbFormat.Tag, NanopbFormat.EncodeValue, NanopbFormat.ValueOk;
    assert [v][..0] == [];
  }
}
