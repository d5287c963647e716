/** Versioned entries and what a read at a sequence number sees in a set of them.

    User keys occur only through the user comparator, so they are numbered in comparator
    order: any run compares finitely many keys, and finitely many keys embed in the integers.
 */
module Entries {
  import opened Wrappers

  // 2^56 - 1: eight bits of the packed tag hold the value type.
  const MAX_SEQUENCE_NUMBER: nat := 0xff_ffff_ffff_ffff

  type Key = int
  type Value = seq<int>

  // TYPE_DELETION and TYPE_VALUE with its payload.
  datatype Slot = Deleted | Present(value: Value)

  datatype Entry = Entry(key: Key, seqno: nat, slot: Slot)

  // One update of a write batch, before it has a sequence number.
  datatype Op = Op(key: Key, slot: Slot)

  // A write batch group as it is logged: the sequence number of its first update, and the updates.
  datatype Group = Group(first: nat, ops: seq<Op>)
  {
    function End(): nat { first + |ops| }

    function At(i: nat): Entry
      requires i < |ops|
    {
      Entry(ops[i].key, first + i, ops[i].slot)
    }

    // The entries of the first n updates.
    ghost function Prefix(n: nat): set<Entry>
      requires n <= |ops|
    {
      set i: nat | i < n :: At(i)
    }

    ghost function All(): set<Entry> { Prefix(|ops|) }
  }

  // Internal keys sort by increasing user key, then by decreasing sequence number.
  predicate InternalLess(a: Entry, b: Entry) {
    a.key < b.key || (a.key == b.key && a.seqno > b.seqno)
  }

  ghost predicate Unique(es: set<Entry>) {
    forall a, b :: a in es && b in es && a.key == b.key && a.seqno == b.seqno ==> a == b
  }

  ghost predicate Newest(es: set<Entry>, k: Key, s: nat, e: Entry) {
    && e in es && e.key == k && e.seqno <= s
    && forall f :: f in es && f.key == k && f.seqno <= s ==> f.seqno <= e.seqno
  }

  // What a read of k at sequence number s returns from the entries es.
  ghost function Lookup(es: set<Entry>, k: Key, s: nat): Option<Value> {
    if exists e :: Newest(es, k, s, e) then
      var e :| Newest(es, k, s, e);
      SlotValue(e.slot)
    else None
  }

  function SlotValue(slot: Slot): Option<Value> {
    match slot
    case Deleted => None
    case Present(v) => Some(v)
  }

  // Two entry sets answer every read at or above the horizon alike.
  ghost predicate Agree(a: set<Entry>, b: set<Entry>, horizon: nat) {
    forall k: Key, s: nat :: horizon <= s ==> Lookup(a, k, s) == Lookup(b, k, s)
  }

  lemma LookupNewest(es: set<Entry>, k: Key, s: nat, e: Entry)
    requires Unique(es) && Newest(es, k, s, e)
    ensures Lookup(es, k, s) == SlotValue(e.slot)
  {
    forall f | Newest(es, k, s, f) ensures f == e {
      assert f.seqno <= e.seqno <= f.seqno;
    }
  }

  lemma {:induction false} NewestExists(es: set<Entry>, k: Key, s: nat, e: Entry) returns (n: Entry)
    requires e in es && e.key == k && e.seqno <= s
    ensures Newest(es, k, s, n)
    decreases s - e.seqno
  {
    if f :| f in es && f.key == k && f.seqno <= s && f.seqno > e.seqno {
      n := NewestExists(es, k, s, f);
    } else {
      n := e;
    }
  }

  // A read looks only at the entries of its key that its sequence number covers.
  lemma LookupLocal(a: set<Entry>, b: set<Entry>, k: Key, s: nat)
    requires forall e: Entry :: e.key == k && e.seqno <= s ==> (e in a <==> e in b)
    requires Unique(a)
    ensures Lookup(a, k, s) == Lookup(b, k, s)
  {
    assert forall e :: Newest(a, k, s, e) <==> Newest(b, k, s, e);
    if e :| Newest(a, k, s, e) {
      var f :| Newest(b, k, s, f) && Lookup(b, k, s) == SlotValue(f.slot);
      LookupNewest(a, k, s, f);
    }
  }

  // Entries newer than everything in a and b do not disturb their agreement.
  lemma AgreeWithNewer(a: set<Entry>, b: set<Entry>, x: set<Entry>, horizon: nat)
    requires Unique(a + x) && Unique(b + x) && Agree(a, b, horizon)
    requires forall e, f :: e in x && f in a + b && e.key == f.key ==> e.seqno > f.seqno
    ensures Agree(a + x, b + x, horizon)
  {
    forall k: Key, s: nat | horizon <= s
      ensures Lookup(a + x, k, s) == Lookup(b + x, k, s)
    {
      if e :| e in x && e.key == k && e.seqno <= s {
        var n := NewestExists(x, k, s, e);
        assert Newest(a + x, k, s, n) && Newest(b + x, k, s, n);
        LookupNewest(a + x, k, s, n);
        LookupNewest(b + x, k, s, n);
      } else {
        LookupLocal(a + x, a, k, s);
        LookupLocal(b + x, b, k, s);
      }
    }
  }
}
