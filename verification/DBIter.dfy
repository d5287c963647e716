/** The database iterator: turns a cursor over all versions of all keys into a cursor over the keys
    visible at one sequence number, in both directions.
 */
module DBIter {
  import opened Entries
  import opened Compaction
  import opened Coding
  import M = MemTable
  import opened Wrappers

  // ------------------------------------------------------------------ what is visible

  ghost predicate VisibleAt(es: seq<Entry>, i: int, s: nat) {
    0 <= i < |es| && es[i].seqno <= s
  }

  // The key has a live value at sequence number s.
  ghost predicate Shown(es: seq<Entry>, s: nat, k: Key) {
    Lookup(Elements(es), k, s).Some?
  }

  lemma SortedUnique(es: seq<Entry>)
    requires Sorted(es)
    ensures Unique(Elements(es))
  {
    forall a, b | a in Elements(es) && b in Elements(es) && a.key == b.key && a.seqno == b.seqno ensures a == b {
      var i :| 0 <= i < |es| && es[i] == a;
      var j :| 0 <= j < |es| && es[j] == b;
    }
  }

  // The first visible entry of a key is the newest one.
  ghost predicate FirstVisible(es: seq<Entry>, s: nat, i: int) {
    VisibleAt(es, i, s) && forall j :: 0 <= j < i && es[j].key == es[i].key ==> es[j].seqno > s
  }

  lemma FirstVisibleDecides(es: seq<Entry>, s: nat, i: int)
    requires Sorted(es) && FirstVisible(es, s, i)
    ensures Lookup(Elements(es), es[i].key, s) == SlotValue(es[i].slot)
  {
    SortedUnique(es);
    forall f | f in Elements(es) && f.key == es[i].key && f.seqno <= s ensures f.seqno <= es[i].seqno {
      var j :| 0 <= j < |es| && es[j] == f;
      assert j > i ==> InternalLess(es[i], es[j]);
    }
    assert Newest(Elements(es), es[i].key, s, es[i]);
    LookupNewest(Elements(es), es[i].key, s, es[i]);
  }

  lemma ShownHasFirst(es: seq<Entry>, s: nat, k: Key) returns (i: nat)
    requires Sorted(es) && Shown(es, s, k)
    ensures FirstVisible(es, s, i) && es[i].key == k && es[i].slot.Present?
  {
    SortedUnique(es);
    var e :| Newest(Elements(es), k, s, e);
    LookupNewest(Elements(es), k, s, e);
    i :| 0 <= i < |es| && es[i] == e;
    forall j | 0 <= j < i && es[j].key == k ensures es[j].seqno > s {
      assert InternalLess(es[j], es[i]);
      assert es[j] in Elements(es);
    }
  }

  // ------------------------------------------------------------------ the inner cursor

  // A correct cursor over a sorted sequence; off either end it is not valid.
  class Cursor {
    const entries: seq<Entry>
    var pos: int

    constructor (entries: seq<Entry>)
      ensures this.entries == entries && pos == -1
    {
      this.entries := entries;
      pos := -1;
    }

    predicate Valid()
      reads this
    {
      0 <= pos < |entries|
    }

    method SeekToFirst()
      modifies this
      ensures pos == 0
    {
      pos := 0;
    }

    method SeekToLast()
      modifies this
      ensures pos == |entries| - 1
    {
      pos := |entries| - 1;
    }

    // The first entry that does not come before (key, s).
    method Seek(key: Key, s: nat)
      requires Sorted(entries)
      modifies this
      ensures 0 <= pos <= |entries|
      ensures forall i :: 0 <= i < pos ==> entries[i].key < key || (entries[i].key == key && entries[i].seqno > s)
      ensures forall i ::
                pos <= i < |entries| ==> entries[i].key > key || (entries[i].key == key && entries[i].seqno <= s)
    {
      var lo, hi := 0, |entries|;
      while lo < hi
        invariant 0 <= lo <= hi <= |entries|
        invariant forall i :: 0 <= i < lo ==> entries[i].key < key || (entries[i].key == key && entries[i].seqno > s)
        invariant forall i ::
                    hi <= i < |entries| ==> entries[i].key > key || (entries[i].key == key && entries[i].seqno <= s)
      {
        var mid := (lo + hi) / 2;
        if entries[mid].key < key || (entries[mid].key == key && entries[mid].seqno > s) {
          forall i | 0 <= i < mid ensures entries[i].key < key || (entries[i].key == key && entries[i].seqno > s) {
            assert InternalLess(entries[i], entries[mid]);
          }
          lo := mid + 1;
        } else {
          forall i | mid < i < |entries|
              ensures entries[i].key > key || (entries[i].key == key && entries[i].seqno <= s) {
            assert InternalLess(entries[mid], entries[i]);
          }
          hi := mid;
        }
      }
      pos := lo;
    }

    method Next()
      requires Valid()
      modifies this
      ensures pos == old(pos) + 1
    {
      pos := pos + 1;
    }

    method Prev()
      requires Valid()
      modifies this
      ensures pos == old(pos) - 1
    {
      pos := pos - 1;
    }
  }

  // ------------------------------------------------------------------ moving over shown keys

  // A range of keys: everything, from a key on, after a key, or before a key.
  datatype Bound = All | From(key: Key) | After(key: Key) | Before(key: Key)

  predicate Within(b: Bound, k: Key) {
    match b
    case All => true
    case From(key) => k >= key
    case After(key) => k > key
    case Before(key) => k < key
  }

  // The entry at i is the value of the least shown key in the range.
  ghost predicate FirstShown(es: seq<Entry>, s: nat, b: Bound, i: int) {
    && 0 <= i < |es| && es[i].slot.Present? && Within(b, es[i].key)
    && Lookup(Elements(es), es[i].key, s) == Some(es[i].slot.value)
    && forall k :: Shown(es, s, k) && Within(b, k) ==> k >= es[i].key
  }

  ghost predicate NoneShown(es: seq<Entry>, s: nat, b: Bound) {
    forall k :: Within(b, k) ==> !Shown(es, s, k)
  }

  // What FindNextUserEntry knows before it looks at position p.
  ghost predicate ScanningForward(es: seq<Entry>, s: nat, b: Bound, p: int, skipping: bool, skip: Key) {
    && 0 <= p <= |es|
    && (forall j :: 0 <= j < p && VisibleAt(es, j, s) && Within(b, es[j].key) ==> skipping && es[j].key <= skip)
    && (forall j :: p <= j < |es| && VisibleAt(es, j, s) ==> Within(b, es[j].key) || (skipping && es[j].key <= skip))
    && (skipping ==> forall j :: p <= j < |es| && VisibleAt(es, j, s) ==> es[j].key >= skip)
    && (skipping ==> forall k :: Shown(es, s, k) && Within(b, k) ==> k > skip)
  }

  lemma ForwardHit(es: seq<Entry>, s: nat, b: Bound, p: int, skipping: bool, skip: Key)
    requires Sorted(es) && ScanningForward(es, s, b, p, skipping, skip) && VisibleAt(es, p, s)
    requires es[p].slot.Present? && !(skipping && es[p].key <= skip)
    ensures FirstVisible(es, s, p) && FirstShown(es, s, b, p)
  {
    assert FirstVisible(es, s, p) by {
      forall j | 0 <= j < p && VisibleAt(es, j, s) ensures es[j].key != es[p].key {
        assert Within(b, es[j].key) ==> es[j].key <= skip;
      }
      assert forall j :: 0 <= j < p && es[j].seqno <= s ==> VisibleAt(es, j, s);
    }
    FirstVisibleDecides(es, s, p);
    forall k | Shown(es, s, k) && Within(b, k) ensures k >= es[p].key {
      var i := ShownHasFirst(es, s, k);
      if i > p {
        assert InternalLess(es[p], es[i]);
      }
    }
  }

  lemma ForwardDeletion(es: seq<Entry>, s: nat, b: Bound, p: int, skipping: bool, skip: Key)
    requires Sorted(es) && ScanningForward(es, s, b, p, skipping, skip) && VisibleAt(es, p, s)
    requires es[p].slot.Deleted?
    ensures ScanningForward(es, s, b, p + 1, true, es[p].key)
  {
    forall j | 0 <= j <= p ensures es[j].key <= es[p].key {
      assert j < p ==> InternalLess(es[j], es[p]);
    }
    forall j | p < j < |es| ensures es[j].key >= es[p].key {
      assert InternalLess(es[p], es[j]);
    }
    forall k | Shown(es, s, k) && Within(b, k) ensures k > es[p].key {
      var i := ShownHasFirst(es, s, k);
      assert i > p ==> InternalLess(es[p], es[i]);
      assert i < p ==> VisibleAt(es, i, s);
    }
  }

  lemma ForwardEnd(es: seq<Entry>, s: nat, b: Bound, skipping: bool, skip: Key)
    requires Sorted(es) && ScanningForward(es, s, b, |es|, skipping, skip)
    ensures NoneShown(es, s, b)
  {
    forall k | Shown(es, s, k) ensures !Within(b, k) {
      var i := ShownHasFirst(es, s, k);
      assert VisibleAt(es, i, s);
    }
  }

  // What FindPrevUserEntry knows before it looks at position p: the newest candidate found so far.
  ghost predicate ScanningBack(es: seq<Entry>, s: nat, b: Bound, p: int, found: bool, key: Key, value: Value) {
    && -1 <= p < |es|
    && (forall j :: 0 <= j <= p ==> Within(b, es[j].key))
    && (forall k :: Shown(es, s, k) && Within(b, k) ==> HasVisibleUpTo(es, s, p, k) || (found && k == key))
    && (found ==>
          && Within(b, key) && (forall j :: 0 <= j <= p ==> es[j].key <= key)
          && (forall j :: p < j < |es| && VisibleAt(es, j, s) ==> es[j].key >= key)
          && (!HasVisibleUpTo(es, s, p, key) ==> Lookup(Elements(es), key, s) == Some(value)))
  }

  // Some visible entry of the key is at position p or before.
  ghost predicate HasVisibleUpTo(es: seq<Entry>, s: nat, p: int, k: Key) {
    exists j :: 0 <= j <= p && VisibleAt(es, j, s) && es[j].key == k
  }

  // The last shown key of the range.
  ghost predicate LastShown(es: seq<Entry>, s: nat, b: Bound, k: Key) {
    Shown(es, s, k) && Within(b, k) && forall k' :: Shown(es, s, k') && Within(b, k') ==> k' <= k
  }

  // The visible entry at p does not end the scan.
  ghost predicate BackMoves(es: seq<Entry>, s: nat, p: int, found: bool, key: Key) {
    VisibleAt(es, p, s) && (found ==> es[p].key >= key)
  }

  lemma UpToStep(es: seq<Entry>, s: nat, p: int)
    requires 0 <= p < |es|
    ensures forall k ::
              HasVisibleUpTo(es, s, p, k) <==>
                  HasVisibleUpTo(es, s, p - 1, k) || (VisibleAt(es, p, s) && es[p].key == k)
  {
  }

  lemma LastVisibleDecides(es: seq<Entry>, s: nat, p: int)
    requires Sorted(es) && VisibleAt(es, p, s) && !HasVisibleUpTo(es, s, p - 1, es[p].key)
    ensures Lookup(Elements(es), es[p].key, s) == SlotValue(es[p].slot)
  {
    assert FirstVisible(es, s, p) by {
      assert forall j :: 0 <= j < p && es[j].seqno <= s ==> VisibleAt(es, j, s);
    }
    FirstVisibleDecides(es, s, p);
  }

  lemma BackStep(es: seq<Entry>, s: nat, b: Bound, p: int, found: bool, key: Key, value: Value)
    requires Sorted(es) && ScanningBack(es, s, b, p, found, key, value) && p >= 0
    ensures !VisibleAt(es, p, s) ==> ScanningBack(es, s, b, p - 1, found, key, value)
    ensures BackMoves(es, s, p, found, key) && es[p].slot.Present? ==>
              ScanningBack(es, s, b, p - 1, true, es[p].key, es[p].slot.value)
    ensures BackMoves(es, s, p, found, key) && es[p].slot.Deleted? ==> ScanningBack(es, s, b, p - 1, false, key, value)
  {
    AtCurrent(es, s, p);
    UpToStep(es, s, p);
    if VisibleAt(es, p, s) && !HasVisibleUpTo(es, s, p - 1, es[p].key) {
      LastVisibleDecides(es, s, p);
    }
    hide HasVisibleUpTo, Lookup, Sorted;
  }

  // The scan stops at a visible entry of a smaller key, or at the front.
  lemma BackHit(es: seq<Entry>, s: nat, b: Bound, p: int, key: Key, value: Value)
    requires Sorted(es) && ScanningBack(es, s, b, p, true, key, value)
    requires p >= 0 ==> VisibleAt(es, p, s) && es[p].key < key
    ensures Lookup(Elements(es), key, s) == Some(value) && LastShown(es, s, b, key)
    ensures JustBefore(es, s, p, key, value)
  {
    forall j | 0 <= j <= p ensures es[j].key < key {
      assert j < p ==> InternalLess(es[j], es[p]);
    }
    assert !HasVisibleUpTo(es, s, p, key);
    forall k | Shown(es, s, k) && Within(b, k) ensures k <= key {
      if HasVisibleUpTo(es, s, p, k) {
        var j :| 0 <= j <= p && VisibleAt(es, j, s) && es[j].key == k;
      }
    }
  }

  // ------------------------------------------------------------------ the iterator

  // Position p is just before the visible entries of a shown key.
  ghost predicate JustBefore(es: seq<Entry>, s: nat, p: int, key: Key, value: Value) {
    && -1 <= p < |es| && Lookup(Elements(es), key, s) == Some(value)
    && (forall j :: 0 <= j <= p ==> es[j].key < key)
    && (forall j :: p < j < |es| && VisibleAt(es, j, s) ==> es[j].key >= key)
  }

  class DBIter {
    const iter: Cursor
    const sequence: nat
    var savedKey: Key
    var savedValue: Value
    var forward: bool
    var valid: bool

    ghost predicate Ok()
      reads this, iter
    {
      var es, p := iter.entries, iter.pos;
      && Sorted(es) && -1 <= p <= |es|
      && (valid && forward ==> FirstVisible(es, sequence, p) && es[p].slot.Present?)
      && (valid && !forward ==> JustBefore(es, sequence, p, savedKey, savedValue))
    }

    constructor (iter: Cursor, sequence: nat)
      requires Sorted(iter.entries) && -1 <= iter.pos <= |iter.entries|
      ensures Ok() && !valid && this.iter == iter && this.sequence == sequence
    {
      this.iter, this.sequence := iter, sequence;
      savedKey, savedValue, forward, valid := 0, [], true, false;
    }

    function Key(): Key
      requires Ok() && valid
      reads this, iter
    {
      if forward then iter.entries[iter.pos].key else savedKey
    }

    function Val(): Value
      requires Ok() && valid
      reads this, iter
    {
      if forward then iter.entries[iter.pos].slot.value else savedValue
    }

    // At the first shown key of the range, or at the end because there is none.
    ghost predicate AtFirst(b: Bound)
      reads this, iter
    {
      && Ok()
      && if valid then Shown(iter.entries, sequence, Key()) && Within(b, Key())
                       && Lookup(Elements(iter.entries), Key(), sequence) == Some(Val())
                       && forall k :: Shown(iter.entries, sequence, k) && Within(b, k) ==> k >= Key()
         else NoneShown(iter.entries, sequence, b)
    }

    ghost predicate AtLast(b: Bound)
      reads this, iter
    {
      && Ok()
      && if valid then LastShown(iter.entries, sequence, b, Key())
                       && Lookup(Elements(iter.entries), Key(), sequence) == Some(Val())
         else NoneShown(iter.entries, sequence, b)
    }

    method FindNextUserEntry(skipping0: bool, skip0: Key, ghost b: Bound)
      requires Sorted(iter.entries) && forward && iter.Valid()
      requires ScanningForward(iter.entries, sequence, b, iter.pos, skipping0, skip0)
      modifies this, iter
      ensures forward && AtFirst(b)
    {
      var skipping, skip := skipping0, skip0;
      ghost var es := iter.entries;
      while iter.Valid()
        invariant 0 <= iter.pos <= |es| && ScanningForward(es, sequence, b, iter.pos, skipping, skip)
        invariant forward
        decreases |es| - iter.pos
      {
        var ikey := iter.entries[iter.pos];
        if ikey.seqno <= sequence {
          match ikey.slot {
            case Deleted =>
              ForwardDeletion(es, sequence, b, iter.pos, skipping, skip);
              skip := ikey.key;
              skipping := true;
            case Present(_) =>
              if skipping && ikey.key <= skip {
                // Entry hidden
              } else {
                ForwardHit(es, sequence, b, iter.pos, skipping, skip);
                valid := true;
                return;
              }
          }
        }
        iter.Next();
      }
      ForwardEnd(es, sequence, b, skipping, skip);
      valid := false;
    }

    // The loop of FindPrevUserEntry: saves the newest value of the last shown key it passes.
    method ScanBackward(ghost b: Bound) returns (found: bool)
      requires Sorted(iter.entries) && !forward
      requires ScanningBack(iter.entries, sequence, b, iter.pos, false, 0, [])
      modifies this`savedKey, this`savedValue, iter
      ensures -1 <= iter.pos < |iter.entries|
      ensures found ==> LastShown(iter.entries, sequence, b, savedKey)
      ensures found ==> JustBefore(iter.entries, sequence, iter.pos, savedKey, savedValue)
      ensures !found ==> NoneShown(iter.entries, sequence, b)
    {
      found := false;   // value_type is TYPE_DELETION
      ghost var es, key, value := iter.entries, 0, [];
      assert iter.pos < |es|;
      hide ScanningBack, LastShown, NoneShown, Sorted, HasVisibleUpTo, JustBefore;
      while iter.Valid()
        invariant -1 <= iter.pos < |es|
        invariant ScanningBack(es, sequence, b, iter.pos, found, key, value)
        invariant found ==> key == savedKey && value == savedValue
        decreases iter.pos
      {
        var ikey := iter.entries[iter.pos];
        BackStep(es, sequence, b, iter.pos, found, key, value);
        if ikey.seqno <= sequence {
          if found && ikey.key < savedKey {
            // A value of a larger key is saved; its entries end here
            break;
          }
          match ikey.slot {
            case Deleted =>
              found := false;
            case Present(v) =>
              found := true;
              savedKey, savedValue := ikey.key, v;
              key, value := ikey.key, v;
          }
        }
        iter.Prev();
      }
      if found {
        BackHit(es, sequence, b, iter.pos, key, value);
      } else {
        BackEnd(es, sequence, b, iter.pos, key, value);
      }
    }

    method FindPrevUserEntry(ghost b: Bound)
      requires Sorted(iter.entries) && !forward
      requires ScanningBack(iter.entries, sequence, b, iter.pos, false, 0, [])
      modifies this, iter
      ensures AtLast(b) && valid == !forward
    {
      hide ScanningBack;
      var found := ScanBackward(b);
      if found {
        valid := true;
      } else {
        // End
        valid := false;
        forward := true;
      }
    }

    method SeekToFirst()
      requires Ok()
      modifies this, iter
      ensures AtFirst(All)
    {
      forward := true;
      iter.SeekToFirst();
      if iter.Valid() {
        FindNextUserEntry(false, 0, All);
      } else {
        valid := false;
        ForwardEnd(iter.entries, sequence, All, false, 0);
      }
    }

    method Seek(target: Key)
      requires Ok()
      modifies this, iter
      ensures AtFirst(From(target))
    {
      forward := true;
      iter.Seek(target, sequence);
      if iter.Valid() {
        FindNextUserEntry(false, 0, From(target));
      } else {
        valid := false;
        ForwardEnd(iter.entries, sequence, From(target), false, 0);
      }
    }

    method SeekToLast()
      requires Ok()
      modifies this, iter
      ensures AtLast(All)
    {
      forward := false;
      iter.SeekToLast();
      AllVisible(iter.entries, sequence, All, iter.pos);
      FindPrevUserEntry(All);
    }

    method Next()
      requires Ok() && valid
      modifies this, iter
      ensures AtFirst(After(old(Key())))
    {
      ghost var es, k := iter.entries, Key();
      if !forward {
        // Switch directions: iter is before the entries of this key
        forward := true;
        if !iter.Valid() {
          iter.SeekToFirst();
        } else {
          iter.Next();
        }
        if !iter.Valid() {
          // The entries of the current key lie ahead, so the cursor cannot have run off the end.
          assert false;
        }
      } else {
        savedKey := iter.entries[iter.pos].key;
        AtCurrent(es, sequence, iter.pos);
      }
      AfterCurrent(es, sequence, k, iter.pos);
      FindNextUserEntry(true, savedKey, After(k));
    }

    method Prev()
      requires Ok() && valid
      modifies this, iter
      ensures AtLast(Before(old(Key())))
    {
      ghost var es, k := iter.entries, Key();
      if forward {
        // Leave the entries of the current key behind
        savedKey := iter.entries[iter.pos].key;
        iter.Prev();
        while iter.Valid() && iter.entries[iter.pos].key >= savedKey
          invariant -1 <= iter.pos < |es| && savedKey == k && forward && valid
          invariant forall j :: iter.pos < j < |es| ==> es[j].key >= k
          decreases iter.pos
        {
          iter.Prev();
        }
        if !iter.Valid() {
          valid := false;
          BeforeCurrent(es, sequence, k, iter.pos);
          BackEnd(es, sequence, Before(k), iter.pos, 0, []);
          return;
        }
        forward := false;
      }
      BeforeCurrent(es, sequence, k, iter.pos);
      FindPrevUserEntry(Before(k));
    }
  }

  lemma BackEnd(es: seq<Entry>, s: nat, b: Bound, p: int, key: Key, value: Value)
    requires p < 0 && ScanningBack(es, s, b, p, false, key, value)
    ensures NoneShown(es, s, b)
  {
  }

  // A position up to which every visible entry of the range lies.
  lemma AllVisible(es: seq<Entry>, s: nat, b: Bound, p: int)
    requires Sorted(es) && -1 <= p < |es| && (forall j :: 0 <= j <= p ==> Within(b, es[j].key))
    requires forall j :: p < j < |es| && VisibleAt(es, j, s) ==> !Within(b, es[j].key)
    ensures ScanningBack(es, s, b, p, false, 0, [])
  {
    forall k | Shown(es, s, k) && Within(b, k) ensures HasVisibleUpTo(es, s, p, k) {
      var i := ShownHasFirst(es, s, k);
      assert VisibleAt(es, i, s);
    }
  }

  lemma BeforeCurrent(es: seq<Entry>, s: nat, k: Key, p: int)
    requires Sorted(es) && -1 <= p < |es| && (p >= 0 ==> es[p].key < k)
    requires forall j :: p < j < |es| && VisibleAt(es, j, s) ==> es[j].key >= k
    ensures ScanningBack(es, s, Before(k), p, false, 0, [])
  {
    forall j | 0 <= j <= p ensures es[j].key < k {
      assert j < p ==> InternalLess(es[j], es[p]);
    }
    AllVisible(es, s, Before(k), p);
  }

  lemma AfterCurrent(es: seq<Entry>, s: nat, k: Key, p: int)
    requires Sorted(es) && 0 <= p <= |es| && (forall j :: 0 <= j < p ==> es[j].key <= k)
    requires forall j :: p <= j < |es| && VisibleAt(es, j, s) ==> es[j].key >= k
    ensures ScanningForward(es, s, After(k), p, true, k)
  {
  }

  // Around the current entry.
  lemma AtCurrent(es: seq<Entry>, s: nat, p: int)
    requires Sorted(es) && 0 <= p < |es|
    ensures (forall j :: 0 <= j < p ==> es[j].key <= es[p].key) && forall j :: p <= j < |es| ==> es[j].key >= es[p].key
  {
    forall j | 0 <= j < p ensures es[j].key <= es[p].key {
      assert InternalLess(es[j], es[p]);
    }
    forall j | p < j < |es| ensures es[j].key >= es[p].key {
      assert InternalLess(es[p], es[j]);
    }
  }

  /** Seek agrees with MemTable::Get on the same entries: it stops on the key asked for exactly when Get finds a value,
      and then with that value.
   */
  method SeekAgreesWithGet(it: DBIter, table: M.MemTable, user: seq<byte>) returns (got: M.Found)
    requires it.Ok() && table.Valid() && it.sequence <= MAX_SEQUENCE_NUMBER
    requires table.Contents() == Elements(it.iter.entries)
    modifies it, it.iter
    ensures it.AtFirst(From(table.rank(user)))
    ensures got.Value? <==> it.valid && it.Key() == table.rank(user)
    ensures got.Value? ==> it.Val() == got.v
  {
    hide Lookup, M.EncodeEntry, M.RecOk;
    got := table.Get(user, it.sequence);
    ghost var key := table.rank(user);
    NothingVisible(it.iter.entries, key, it.sequence);
    it.Seek(table.rank(user));
    assert got.Value? ==> Shown(it.iter.entries, it.sequence, key);
  }

  lemma NothingVisible(es: seq<Entry>, k: Key, s: nat)
    ensures (forall e :: e in Elements(es) && e.key == k ==> e.seqno > s) ==> Lookup(Elements(es), k, s) == None
  {
  }
}
