/** Internal keys and memtable entries as bytes: the order that makes a memtable lookup see the newest visible entry.

    The user comparator is given by the rank of each user key in its order.
 */
module MemTable {
  import opened Coding
  import Entries
  import opened SkipList
  import opened Wrappers

  type Ranking = seq<byte> -> int

  // ------------------------------------------------------------------ internal keys

  // PackSequenceAndType
  function Pack(seqno: nat, t: nat): nat {
    256 * seqno + t
  }

  function InternalKey(user: seq<byte>, seqno: nat, t: nat): (k: seq<byte>)
    ensures |k| == |user| + 8
  {
    user + Fixed64(Pack(seqno, t))
  }

  datatype ParsedKey = ParsedKey(user: seq<byte>, seqno: nat, t: nat) | BadKey

  // ParseInternalKey
  function ParseInternalKey(k: seq<byte>): ParsedKey {
    if |k| < 8 then BadKey
    else
      var num := DecodeFixed64(k[|k| - 8..]);
      if num % 256 <= TYPE_VALUE then ParsedKey(k[..|k| - 8], num / 256, num % 256) else BadKey
  }

  lemma TagReads(user: seq<byte>, seqno: nat, t: nat)
    requires seqno <= Entries.MAX_SEQUENCE_NUMBER && t <= TYPE_VALUE
    ensures var k := InternalKey(user, seqno, t);
            k[..|k| - 8] == user && DecodeFixed64(k[|k| - 8..]) == Pack(seqno, t)
  {
    hide Fixed64, DecodeFixed64;
    var k := InternalKey(user, seqno, t);
    assert k[..|k| - 8] == user && k[|k| - 8..] == Fixed64(Pack(seqno, t)) + [];
    Fixed64RoundTrip(Pack(seqno, t), []);
  }

  /** A packed key is parsed to what it was made of. */
  lemma ParseRoundTrip(user: seq<byte>, seqno: nat, t: nat)
    requires seqno <= Entries.MAX_SEQUENCE_NUMBER && t <= TYPE_VALUE
    ensures ParseInternalKey(InternalKey(user, seqno, t)) == ParsedKey(user, seqno, t)
  {
    hide DecodeFixed64, InternalKey;
    TagReads(user, seqno, t);
  }

  // InternalKeyComparator::Compare
  function Compare(rank: Ranking, a: seq<byte>, b: seq<byte>): int
    requires |a| >= 8 && |b| >= 8
  {
    var r := rank(a[..|a| - 8]) - rank(b[..|b| - 8]);
    if r != 0 then r
    else
      var anum, bnum := DecodeFixed64(a[|a| - 8..]), DecodeFixed64(b[|b| - 8..]);
      if anum > bnum then -1 else if anum < bnum then 1 else 0
  }

  /** Keys are ordered by increasing user key, then by decreasing sequence number, then by decreasing type. */
  lemma CompareOrders(rank: Ranking, u: seq<byte>, s: nat, t: nat, u': seq<byte>, s': nat, t': nat)
    requires s <= Entries.MAX_SEQUENCE_NUMBER && t <= TYPE_VALUE
    requires s' <= Entries.MAX_SEQUENCE_NUMBER && t' <= TYPE_VALUE
    ensures Compare(rank, InternalKey(u, s, t), InternalKey(u', s', t')) < 0 <==>
            rank(u) < rank(u') || (rank(u) == rank(u') && (s > s' || (s == s' && t > t')))
    ensures Compare(rank, InternalKey(u, s, t), InternalKey(u', s', t')) == 0 <==>
            rank(u) == rank(u') && s == s' && t == t'
  {
    hide DecodeFixed64, InternalKey;
    TagReads(u, s, t);
    TagReads(u', s', t');
  }

  // ------------------------------------------------------------------ memtable entries

  // One update: a user key, its sequence number and what it does.
  datatype Rec = Rec(user: seq<byte>, seqno: nat, slot: Entries.Slot)

  predicate RecOk(r: Rec) {
    && r.seqno <= Entries.MAX_SEQUENCE_NUMBER && |r.user| + 8 < TWO32
    && (r.slot.Present? ==>
        |r.slot.value| < TWO32 && forall i :: 0 <= i < |r.slot.value| ==> 0 <= r.slot.value[i] < 256)
  }

  function TypeOf(r: Rec): nat {
    if r.slot.Present? then TYPE_VALUE else TYPE_DELETION
  }

  function ValueOf(r: Rec): seq<byte>
    requires RecOk(r)
  {
    if r.slot.Present? then r.slot.value else []
  }

  // key size, key, value size, value
  function EncodeEntry(r: Rec): seq<byte>
    requires RecOk(r)
  {
    LengthPrefixed(InternalKey(r.user, r.seqno, TypeOf(r))) + LengthPrefixed(ValueOf(r))
  }

  // GetLengthPrefixedSlice
  function EntryKey(entry: seq<byte>): seq<byte> {
    match ParseLengthPrefixed(entry)
    case Slice(key, _) => key
    case BadSlice => []
  }

  function EntryValue(entry: seq<byte>): seq<byte> {
    match ParseLengthPrefixed(entry)
    case Slice(_, rest) => EntryKey(rest)
    case BadSlice => []
  }

  lemma EntryRoundTrip(r: Rec)
    requires RecOk(r)
    ensures EntryKey(EncodeEntry(r)) == InternalKey(r.user, r.seqno, TypeOf(r))
    ensures EntryValue(EncodeEntry(r)) == ValueOf(r)
  {
    hide LengthPrefixed, ParseLengthPrefixed, InternalKey;
    LengthPrefixedRoundTrip(InternalKey(r.user, r.seqno, TypeOf(r)), LengthPrefixed(ValueOf(r)));
    LengthPrefixedRoundTrip(ValueOf(r), []);
    assert LengthPrefixed(ValueOf(r)) + [] == LengthPrefixed(ValueOf(r));
  }

  function EntryOf(rank: Ranking, r: Rec): Entries.Entry {
    Entries.Entry(rank(r.user), r.seqno, r.slot)
  }

  // ------------------------------------------------------------------ the memtable

  // A packed key as a number for the skip list, which compares keys only through the comparator.
  function Code(rank: Ranking, k: seq<byte>): int
    requires |k| >= 8
  {
    rank(k[..|k| - 8]) * TWO64 + (TWO64 - 1 - DecodeFixed64(k[|k| - 8..]))
  }

  /** Numbers are ordered as the comparator orders the keys. */
  lemma CodeOrders(rank: Ranking, a: seq<byte>, b: seq<byte>)
    requires |a| >= 8 && |b| >= 8
    ensures Code(rank, a) < Code(rank, b) <==> Compare(rank, a, b) < 0
    ensures Code(rank, a) == Code(rank, b) <==> Compare(rank, a, b) == 0
  {
    hide DecodeFixed64;
    TagFits(a[|a| - 8..]);
    TagFits(b[|b| - 8..]);
  }

  lemma TagFits(tag: seq<byte>)
    requires |tag| == 8
    ensures DecodeFixed64(tag) < TWO64
  {
    var x := DecodeFixed64(tag);
    assert tag[..8] == tag && tag + [] == tag;
    BytesRoundTrip(tag);
    Fixed64RoundTrip(x, []);
  }

  function RecCode(rank: Ranking, r: Rec): int {
    Code(rank, InternalKey(r.user, r.seqno, TypeOf(r)))
  }

  lemma RecCodeOrders(rank: Ranking, r: Rec, user: seq<byte>, s: nat, t: nat)
    requires RecOk(r) && s <= Entries.MAX_SEQUENCE_NUMBER && t <= TYPE_VALUE
    ensures RecCode(rank, r) < Code(rank, InternalKey(user, s, t)) <==>
            rank(r.user) < rank(user) ||
              (rank(r.user) == rank(user) && (r.seqno > s || (r.seqno == s && TypeOf(r) > t)))
    ensures RecCode(rank, r) == Code(rank, InternalKey(user, s, t)) <==>
            rank(r.user) == rank(user) && r.seqno == s && TypeOf(r) == t
  {
    hide Compare, Code, InternalKey;
    CodeOrders(rank, InternalKey(r.user, r.seqno, TypeOf(r)), InternalKey(user, s, t));
    CompareOrders(rank, r.user, r.seqno, TypeOf(r), user, s, t);
  }

  datatype Found = Missing | Value(v: seq<byte>) | NotFound

  class MemTable {
    const rank: Ranking
    const list: SkipList
    var buffers: seq<seq<byte>>   // the encoded entry of each node of the list, by node number
    ghost var recs: seq<Rec>      // what they encode

    ghost predicate Valid()
      reads this, list
    {
      && list.Valid() && |buffers| == |recs| == |list.m.nodes|
      && (forall n :: n in list.levels[0] ==> NodeOk(n))
      && (forall a, b :: a in list.levels[0] && b in list.levels[0] && a != b ==> Differ(a, b))
    }

    // The node stands in the list for the entry in its buffer.
    ghost predicate NodeOk(n: nat)
      reads this, list
    {
      && n < |recs| && n < |buffers| && n < |list.m.nodes|
      && RecOk(recs[n]) && buffers[n] == EncodeEntry(recs[n]) && list.m.nodes[n].key == RecCode(rank, recs[n])
    }

    ghost predicate Differ(a: nat, b: nat)
      reads this
    {
      a < |recs| && b < |recs| && (rank(recs[a].user) == rank(recs[b].user) ==> recs[a].seqno != recs[b].seqno)
    }

    ghost function Contents(): set<Entries.Entry>
      reads this, list
    {
      if list.levels == [] then {} else set n | n in list.levels[0] && n < |recs| :: EntryOf(rank, recs[n])
    }

    constructor (rank: Ranking)
      ensures Valid() && this.rank == rank && Contents() == {} && fresh(list)
    {
      this.rank, buffers, recs := rank, [[]], [Rec([], 0, Entries.Deleted)];
      list := new SkipList();
    }

    /** Adds an update, whose key and sequence number are not there yet, with the height drawn for its node. */
    method Add(s: nat, t: nat, key: seq<byte>, value: seq<byte>, height: nat)
      requires Valid() && s <= Entries.MAX_SEQUENCE_NUMBER && t <= TYPE_VALUE && |key| + 8 < TWO32 && |value| < TWO32
      requires t == TYPE_DELETION ==> value == []
      requires forall e :: e in Contents() && e.key == rank(key) ==> e.seqno != s
      requires 1 <= height <= MAX_HEIGHT
      modifies this, list
      ensures Valid()
      ensures Contents() == old(Contents()) +
                            {Entries.Entry(rank(key), s, if t == TYPE_VALUE then Entries.Present(value)
                                           else Entries.Deleted)}
    {
      hide Compare, Code, EncodeEntry, EntryKey, InternalKey, LengthPrefixed, Fixed64, RecOk, Linked, Ascending,
        Contained;
      ghost var r := Rec(key, s, if t == TYPE_VALUE then Entries.Present(value) else Entries.Deleted);
      RecIs(r, t, value);
      var buf := LengthPrefixed(key + Fixed64(256 * s + t)) + LengthPrefixed(value);
      EntryRoundTrip(r);
      NotThere(r);
      ghost var x := |buffers|;
      list.Insert(Code(rank, EntryKey(buf)), height);
      buffers := buffers + [buf];
      recs := recs + [r];
      forall n | n in list.levels[0] ensures NodeOk(n) {
        assert n != x ==> old(NodeOk(n));
      }
      forall a, b | a in list.levels[0] && b in list.levels[0] && a != b ensures Differ(a, b) {
        if a != x && b != x {
          assert old(Differ(a, b));
        } else {
          assert EntryOf(rank, recs[if a == x then b else a]) in old(Contents());
        }
      }
    }

    // The list has no key that compares equal.
    lemma NotThere(r: Rec)
      requires Valid() && RecOk(r)
      requires forall e :: e in Contents() && e.key == rank(r.user) ==> e.seqno != r.seqno
      ensures Absent(list.m, list.levels[0], RecCode(rank, r))
    {
      hide Linked, Ascending, Contained, Code, EncodeEntry;
      forall n | n in list.levels[0] && n < |list.m.nodes| ensures list.m.nodes[n].key != RecCode(rank, r) {
        assert NodeOk(n);
        RecCodeOrders(rank, recs[n], r.user, r.seqno, TypeOf(r));
        assert EntryOf(rank, recs[n]) in Contents();
      }
    }

    static lemma RecIs(r: Rec, t: nat, value: seq<byte>)
      requires r.slot == if t == TYPE_VALUE then Entries.Present(value) else Entries.Deleted
      requires r.seqno <= Entries.MAX_SEQUENCE_NUMBER && t <= TYPE_VALUE && |r.user| + 8 < TWO32 && |value| < TWO32
      requires t == TYPE_DELETION ==> value == []
      ensures RecOk(r) && LengthPrefixed(r.user + Fixed64(256 * r.seqno + t)) + LengthPrefixed(value) == EncodeEntry(r)
    {
      hide LengthPrefixed, Fixed64;
    }

    /** Get: finds the newest update of the key that the sequence number covers: its value, or that it was deleted. */
    method Get(user: seq<byte>, s: nat) returns (found: Found)
      requires Valid() && s <= Entries.MAX_SEQUENCE_NUMBER
      ensures found.Missing? <==> forall e :: e in Contents() && e.key == rank(user) ==> e.seqno > s
      ensures !found.Missing? ==>
                Entries.Lookup(Contents(), rank(user), s) == if found.Value? then Some(found.v) else None
    {
      hide Compare, Code, EncodeEntry, EntryKey, EntryValue, DecodeFixed64, RecOk, InternalKey, Entries.Lookup,
        Entries.Newest, Ascending, Contained;
      var memkey := InternalKey(user, s, TYPE_VALUE);
      var iter := new Iterator(list);
      ghost var j := iter.Seek(Code(rank, memkey));
      if iter.node != NULL {
        assert iter.node in list.levels[0] && NodeOk(iter.node);
        var entry := buffers[iter.node];
        EntryDecodes(recs[iter.node]);
        var key := EntryKey(entry);
        if rank(key[..|key| - 8]) == rank(user) {
          // The same user key
          SeekFindsNewest(j, user, s);
          var tag := DecodeFixed64(key[|key| - 8..]);
          if tag % 256 == TYPE_VALUE {
            return Value(EntryValue(entry));
          } else {
            return NotFound;
          }
        }
      }
      SeekFindsNone(j, user, s);
      return Missing;
    }

    static lemma EntryDecodes(r: Rec)
      requires RecOk(r)
      ensures var key := EntryKey(EncodeEntry(r));
              |key| >= 8 && key[..|key| - 8] == r.user && DecodeFixed64(key[|key| - 8..]) == Pack(r.seqno, TypeOf(r))
      ensures Pack(r.seqno, TypeOf(r)) % 256 == TypeOf(r)
      ensures r.slot.Present? ==> EntryValue(EncodeEntry(r)) == r.slot.value
    {
      hide EntryKey, EntryValue, EncodeEntry, DecodeFixed64, InternalKey;
      EntryRoundTrip(r);
      TagReads(r.user, r.seqno, TypeOf(r));
    }

    // Entries before the place of (user, s) are of smaller keys or newer than s, the others of larger keys or covered.
    lemma AtPlace(j: nat, user: seq<byte>, s: nat, i: nat)
      requires Valid() && s <= Entries.MAX_SEQUENCE_NUMBER && i < |list.levels[0]|
      requires Position(list.m, list.levels[0], Code(rank, InternalKey(user, s, TYPE_VALUE)), j)
      ensures NodeOk(list.levels[0][i])
      ensures var r := recs[list.levels[0][i]];
              if i < j then rank(r.user) < rank(user) || (rank(r.user) == rank(user) && r.seqno > s)
              else rank(r.user) > rank(user) || (rank(r.user) == rank(user) && r.seqno <= s)
    {
      hide Linked, Ascending, Contained, Code, InternalKey, EncodeEntry, RecOk;
      var n := list.levels[0][i];
      assert NodeOk(n);
      RecCodeOrders(rank, recs[n], user, s, TYPE_VALUE);
    }

    // An entry of the key that s covers is at or behind the place.
    lemma SeekFindsNone(j: nat, user: seq<byte>, s: nat)
      requires Valid() && s <= Entries.MAX_SEQUENCE_NUMBER
      requires Position(list.m, list.levels[0], Code(rank, InternalKey(user, s, TYPE_VALUE)), j)
      requires j < |list.levels[0]| ==> rank(recs[list.levels[0][j]].user) != rank(user)
      ensures forall e :: e in Contents() && e.key == rank(user) ==> e.seqno > s
    {
      hide Linked, Ascending, Contained, Code, InternalKey, NodeOk, Differ, Position;
      forall e | e in Contents() && e.key == rank(user) ensures e.seqno > s {
        var i :| 0 <= i < |list.levels[0]| && list.levels[0][i] < |recs| && e == EntryOf(rank, recs[list.levels[0][i]]);
        AtPlace(j, user, s, i);
        if i > j {
          AtPlace(j, user, s, j);
          InOrder(j, i);
        }
      }
    }

    // Entries further on in the list are of larger keys, or older.
    lemma InOrder(i: nat, k: nat)
      requires Valid() && i < k < |list.levels[0]|
      ensures NodeOk(list.levels[0][i]) && NodeOk(list.levels[0][k])
      ensures var a, b := recs[list.levels[0][i]], recs[list.levels[0][k]];
              rank(a.user) < rank(b.user) || (rank(a.user) == rank(b.user) && a.seqno > b.seqno)
    {
      hide Code, InternalKey, EncodeEntry, Linked;
      var a, b := list.levels[0][i], list.levels[0][k];
      assert NodeOk(a) && NodeOk(b);
      assert Ascending(list.m, list.levels[0]);
      assert Differ(a, b);
      RecCodeOrders(rank, recs[a], recs[b].user, recs[b].seqno, TypeOf(recs[b]));
    }

    // The first entry at or after (key, s), when it is of that key, decides what a read at s sees.
    lemma SeekFindsNewest(j: nat, user: seq<byte>, s: nat)
      requires Valid() && s <= Entries.MAX_SEQUENCE_NUMBER && j < |list.levels[0]|
      requires Position(list.m, list.levels[0], Code(rank, InternalKey(user, s, TYPE_VALUE)), j)
      requires var n := list.levels[0][j]; rank(recs[n].user) == rank(user)
      ensures var r := recs[list.levels[0][j]];
              && EntryOf(rank, r) in Contents() && r.seqno <= s
              && Entries.Lookup(Contents(), rank(user), s) == Entries.SlotValue(r.slot)
    {
      hide Linked, Ascending, Contained, Code, InternalKey, Position, Entries.Lookup;
      AtPlace(j, user, s, j);
      var es, e := Contents(), EntryOf(rank, recs[list.levels[0][j]]);
      forall f | f in es && f.key == rank(user) && f.seqno <= s ensures f.seqno <= e.seqno {
        var i :| 0 <= i < |list.levels[0]| && list.levels[0][i] < |recs| && f == EntryOf(rank, recs[list.levels[0][i]]);
        AtPlace(j, user, s, i);
        if i > j {
          InOrder(j, i);
        }
      }
      assert Entries.Newest(es, rank(user), s, e);
      OneOfEach();
      Entries.LookupNewest(es, rank(user), s, e);
    }

    lemma OneOfEach()
      requires Valid()
      ensures Entries.Unique(Contents())
    {
      hide Linked, Ascending, Contained, NodeOk;
      forall a, b | a in Contents() && b in Contents() && a.key == b.key && a.seqno == b.seqno ensures a == b {
        var j :| j in list.levels[0] && j < |recs| && EntryOf(rank, recs[j]) == a;
        var k :| k in list.levels[0] && k < |recs| && EntryOf(rank, recs[k]) == b;
        assert j != k ==> Differ(j, k);
      }
    }
  }
}
