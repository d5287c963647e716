/** The iterator over a finished block: binary search over restart points, then a linear scan. */
module BlockIter {
  import opened Coding
  import opened BlockFormat
  import opened Block

  // ------------------------------------------------------------------ opening a block

  datatype Opened = BadContents | NoRestarts | Opened(restarts: nat, numRestarts: nat)

  // The checks of the Block constructor and of NewIterator.
  function Open(contents: Bytes): Opened {
    var size := |contents|;
    if size < 4 then BadContents
    else
      var num := DecodeFixed32(contents[size - 4..]);
      if num > (size - 4) / 4 then BadContents
      else if num == 0 then NoRestarts
      else Opened(size - (1 + num) * 4, num)
  }

  // A finished block of these entries, small enough for 32-bit offsets.
  ghost predicate BlockOf(contents: Bytes, items: seq<Item>, at: seq<nat>) {
    && BlockOk(items, at) && (forall j :: 0 <= j < |at| ==> at[j] <= |items|)
    && contents == Layout(Data(items), RestartOffsets(items, at)) && |contents| < TWO32
  }

  lemma OpensFinished(contents: Bytes, items: seq<Item>, at: seq<nat>)
    requires BlockOf(contents, items, at)
    ensures Open(contents) == Opened(|Data(items)|, |at|)
  {
    hide Data, RestartOffsets, BlockOk, EncodeWords, DecodeFixed32;
    var rs := RestartOffsets(items, at);
    assert at != [] by { AtNotEmpty(items, at); }
    assert (rs + [|rs|])[..|rs|] == rs;
    EncodeWordsLast(rs + [|rs|]);
    WordAfter(Data(items), EncodeWords(rs), |rs|, []);
    assert contents == Data(items) + (EncodeWords(rs) + Fixed32(|rs|)) + [];
  }

  lemma AtNotEmpty(items: seq<Item>, at: seq<nat>)
    requires BlockOk(items, at)
    ensures at != [] && at[0] == 0
  {
  }

  lemma RestartPointIs(contents: Bytes, items: seq<Item>, at: seq<nat>, j: nat)
    requires BlockOf(contents, items, at) && j < |at|
    ensures |Data(items)| + 4 * j + 4 <= |contents|
    ensures DecodeFixed32(contents[|Data(items)| + 4 * j..]) == Offset(items, at[j])
  {
    hide Data, BlockOk, EncodeWords, DecodeFixed32, Offset, RestartOffsets;
    var ws := RestartOffsets(items, at) + [|at|];
    WordsFit(contents, items, at);
    WordAt(ws, j, Data(items), []);
    assert contents == Data(items) + EncodeWords(ws) + [];
  }

  lemma WordsFit(contents: Bytes, items: seq<Item>, at: seq<nat>)
    requires BlockOf(contents, items, at)
    ensures |contents| == |Data(items)| + 4 * (|at| + 1)
    ensures forall k :: 0 <= k < |at| ==> RestartOffsets(items, at)[k] < TWO32
  {
    hide BlockOk, EncodeWords, EncodeItem, Data;
    assert items[..|items|] == items;
    forall k | 0 <= k < |at| ensures RestartOffsets(items, at)[k] < TWO32 {
      OffsetsGrow(items, at[k], |items|);
    }
  }

  lemma ItemIs(contents: Bytes, items: seq<Item>, at: seq<nat>, i: nat)
    requires BlockOf(contents, items, at) && i < |items|
    ensures |Data(items)| <= |contents| && Offset(items, i) + 3 <= Offset(items, i + 1) <= |Data(items)|
    ensures ItemOk(items, i)
    ensures var e := DecodeEntry(contents, Offset(items, i), |Data(items)|);
            && e.Entry? && e.shared == items[i].shared && e.nonShared == |items[i].key| - items[i].shared
            && e.valueLength == |items[i].value|
            && e.p + e.nonShared + e.valueLength == Offset(items, i + 1)
            && contents[e.p..e.p + e.nonShared] == items[i].key[items[i].shared..]
            && contents[e.p + e.nonShared..e.p + e.nonShared + e.valueLength] == items[i].value
  {
    hide EncodeItem, RestartOffsets, Data, DecodeEntry, BlockOf, Offset;
    DataIsPrefix(contents, items, at);
    assert ItemOk(items, i);
    BytesOfItem(items, i);
    OffsetStep(items, i);
    var d, p := Data(items), Offset(items, i);
    SlicePrefix(d, contents, p, Offset(items, i + 1));
    SliceGrows(contents, p, Offset(items, i + 1), |d|);
    KeyFits(items, i);
    OffsetsGrow(items, i + 1, |items|);
    EntryRoundTrip(items[i], contents, p, |d|);
  }

  lemma DataIsPrefix(contents: Bytes, items: seq<Item>, at: seq<nat>)
    requires BlockOf(contents, items, at)
    ensures |Data(items)| <= |contents| < TWO32 && contents[..|Data(items)|] == Data(items)
    ensures Offset(items, |items|) == |Data(items)| && forall k :: 0 <= k < |items| ==> ItemOk(items, k)
  {
    hide EncodeItem, RestartOffsets, Data, EncodeWords, ItemOk;
    assert items[..|items|] == items;
  }

  lemma SliceGrows(s: Bytes, i: nat, j: nat, k: nat)
    requires i <= j <= k <= |s|
    ensures s[i..j] <= s[i..k]
  {
  }

  // A key is no longer than what is written up to it.
  lemma {:induction false} KeyFits(items: seq<Item>, i: nat)
    requires i < |items| && forall k :: 0 <= k < |items| ==> ItemOk(items, k)
    ensures |items[i].key| <= Offset(items, i + 1)
    decreases i
  {
    hide Offset, EncodeItem;
    assert ItemOk(items, i);
    OffsetStep(items, i);
    SuffixFits(items[i]);
    if i > 0 {
      KeyFits(items, i - 1);
    }
  }

  lemma SuffixFits(x: Item)
    requires x.shared <= |x.key|
    ensures |x.key| - x.shared <= |EncodeItem(x)|
  {
  }

  // ------------------------------------------------------------------ the iterator

  // The bytes at start; what lies outside the block contents is not part of the model.
  function SubBytes(s: Bytes, start: nat, size: nat): Bytes {
    if start + size <= |s| then s[start..start + size] else []
  }

  // The entry i can be decoded with this key before it.
  predicate Extends(items: seq<Item>, i: nat, key: Bytes)
    requires i < |items|
  {
    && items[i].shared <= |key| && items[i].shared <= |items[i].key|
    && key[..items[i].shared] == items[i].key[..items[i].shared]
  }

  class Iter {
    const less: (Bytes, Bytes) -> bool
    const data: Bytes            // the whole block, trailer included
    const restarts: nat          // where the trailer starts
    const numRestarts: nat
    var current: nat             // offset of current entry; at restarts if not valid
    var restartIndex: nat        // the restart whose run holds current
    var key: Bytes
    var valueStart: nat
    var valueSize: nat
    var corrupt: bool
    ghost const items: seq<Item>
    ghost const at: seq<nat>

    // What holds for any contents.
    ghost predicate Safe()
      reads this
    {
      && numRestarts > 0 && restarts + 4 * numRestarts + 4 <= |data| && current <= restarts
      && (current < restarts ==> restartIndex < numRestarts)
    }

    // The contents are a finished block of the entries.
    ghost predicate Ok()
    {
      && BlockOf(data, items, at) && restarts == |Data(items)| && numRestarts == |at|
      && WeakOrder(less) && Increasing(less, items)
    }

    constructor (less: (Bytes, Bytes) -> bool, data: Bytes, restarts: nat, numRestarts: nat,
                 ghost items: seq<Item>, ghost at: seq<nat>)
      requires numRestarts > 0 && restarts + 4 * numRestarts + 4 <= |data|
      ensures Safe() && AtEnd() && !corrupt && this.less == less && this.data == data
      ensures this.restarts == restarts && this.numRestarts == numRestarts && this.items == items && this.at == at
    {
      this.less, this.data, this.restarts, this.numRestarts := less, data, restarts, numRestarts;
      current, restartIndex, key, valueStart, valueSize, corrupt := restarts, numRestarts, [], 0, 0, false;
      this.items, this.at := items, at;
    }

    predicate Valid()
      reads this
    {
      current < restarts
    }

    function Value(): Bytes
      reads this
    {
      SubBytes(data, valueStart, valueSize)
    }

    ghost predicate AtItem(i: nat)
      reads this
    {
      && i < |items| && current == Offset(items, i) && key == items[i].key && RestartFits(at, restartIndex, i, 0)
      && valueStart + valueSize == Offset(items, i + 1) && Value() == items[i].value
    }

    ghost predicate AtEnd()
      reads this
    {
      current == restarts && restartIndex == numRestarts
    }

    // ParseNextKey would come to entry i.
    ghost predicate Before(i: nat)
      reads this
    {
      && i <= |items| && valueStart + valueSize == Offset(items, i) && RestartFits(at, restartIndex, i, 1)
      && (i < |items| ==> Extends(items, i, key))
    }

    function NextEntryOffset(): nat
      reads this
    {
      valueStart + valueSize
    }

    method GetRestartPoint(index: nat) returns (offset: nat)
      requires Safe() && index < numRestarts
      ensures Ok() ==> offset == Offset(items, at[index])
    {
      hide Ok;
      OkRestart(index);
      offset := DecodeFixed32(data[restarts + index * 4..]);
    }

    lemma OkRestart(j: nat)
      ensures Ok() && j < numRestarts ==>
                |at| == numRestarts && at[j] <= |items| &&
                    DecodeFixed32(data[restarts + j * 4..]) == Offset(items, at[j])
    {
      hide Data, RestartOffsets, Offset, WeakOrder, Increasing, DecodeFixed32;
      if Ok() && j < numRestarts {
        RestartPointIs(data, items, at, j);
      }
    }

    method SeekToRestartPoint(index: nat)
      requires Safe() && index < numRestarts
      modifies this`key, this`restartIndex, this`valueStart, this`valueSize
      ensures Safe() && restartIndex == index && key == [] && (Ok() ==> Before(at[index]))
    {
      hide Ok, Offset;
      key := [];
      restartIndex := index;
      // An empty value that ends where the next entry starts
      valueStart := GetRestartPoint(index);
      valueSize := 0;
      RestartExtends(index);
    }

    lemma RestartExtends(index: nat)
      ensures Ok() && index < numRestarts ==>
                && |at| == numRestarts && at[index] <= |items| && RestartFits(at, index, at[index], 1)
                && (at[index] < |items| ==> Extends(items, at[index], []))
    {
      hide Data, RestartOffsets, WeakOrder, Increasing;
    }

    // Offsets are ordered as the entries are.
    lemma OffsetOrder(i: nat, k: nat)
      requires i <= |items| && k <= |items|
      ensures Offset(items, i) < Offset(items, k) <==> i < k
      ensures Offset(items, i) == Offset(items, k) <==> i == k
    {
      hide Offset;
      if i < k {
        OffsetsGrow(items, i, k);
      } else {
        OffsetsGrow(items, k, i);
      }
    }

    lemma EndOffset()
      ensures Offset(items, |items|) == |Data(items)|
      ensures Ok() ==> restarts == |Data(items)|
    {
      hide Data;
      assert items[..|items|] == items;
    }

    method CorruptionError()
      modifies this
      ensures corrupt && AtEnd()
    {
      current, restartIndex, corrupt, key, valueStart, valueSize := restarts, numRestarts, true, [], 0, 0;
    }

    /** Parses the entry after the current one, wherever the iterator came from. */
    method ParseNextKey(ghost i: nat) returns (ok: bool)
      requires Safe() && restartIndex < numRestarts
      modifies this
      ensures Safe() && (ok ==> Valid() && current == old(NextEntryOffset()) < NextEntryOffset()) && (!ok ==> AtEnd())
      ensures Ok() && old(Before(i)) ==> corrupt == old(corrupt) && ok == (i < |items|) && (ok ==> AtItem(i))
    {
      hide Ok, Offset, DecodeEntry, SubBytes;
      ParseFacts(i);
      current := NextEntryOffset();
      if current >= restarts {
        // Past the last entry: the iterator points nowhere.
        current := restarts;
        restartIndex := numRestarts;
        return false;
      }
      // One more entry
      var e := DecodeEntry(data, current, restarts);
      if e.BadEntry? || |key| < e.shared {
        CorruptionError();
        return false;
      }
      key := key[..e.shared] + SubBytes(data, e.p, e.nonShared);
      valueStart, valueSize := e.p + e.nonShared, e.valueLength;
      AdvanceRestart(i);
      return true;
    }

    // What the code will find at entry i.
    lemma ParseFacts(i: nat)
      ensures Ok() && i == |items| ==> Offset(items, i) == restarts
      ensures Ok() && i < |items| && restarts <= |data| ==>
                && Offset(items, i) < restarts
                && var e := DecodeEntry(data, Offset(items, i), restarts);
                   && e.Entry? && e.shared == items[i].shared &&
                      e.p + e.nonShared + e.valueLength == Offset(items, i + 1)
                   && SubBytes(data, e.p + e.nonShared, e.valueLength) == items[i].value
                   && forall k ::
                        Extends(items, i, k) ==> k[..e.shared] + SubBytes(data, e.p, e.nonShared) == items[i].key
    {
      hide Offset, DecodeEntry;
      EndOffset();
      if Ok() && i < |items| {
        ItemHere(i);
        OffsetOrder(i, |items|);
      }
    }

    lemma ItemHere(i: nat)
      requires Ok() && i < |items|
      ensures Offset(items, i) < restarts <= |data|
      ensures var e := DecodeEntry(data, Offset(items, i), restarts);
              && e.Entry? && e.shared == items[i].shared && e.p + e.nonShared + e.valueLength == Offset(items, i + 1)
              && SubBytes(data, e.p + e.nonShared, e.valueLength) == items[i].value
              && e.shared <= |items[i].key| && SubBytes(data, e.p, e.nonShared) == items[i].key[e.shared..]
    {
      hide Offset, DecodeEntry, Data;
      ItemIs(data, items, at, i);
    }

    method AdvanceRestart(ghost i: nat)
      requires Safe() && restartIndex < numRestarts
      modifies this`restartIndex
      ensures Safe() && restartIndex < numRestarts
      ensures Ok() && i < |items| && current == Offset(items, i) && old(RestartFits(at, restartIndex, i, 1)) ==>
                RestartFits(at, restartIndex, i, 0)
    {
      hide Ok, Offset;
      AdvanceFacts(restartIndex, i);
      while restartIndex + 1 < numRestarts
        invariant restartIndex < numRestarts
        invariant Ok() && i < |items| && current == Offset(items, i) && old(RestartFits(at, restartIndex, i, 1)) ==>
                    RestartFits(at, restartIndex, i, 1)
        decreases numRestarts - restartIndex
      {
        var next := GetRestartPoint(restartIndex + 1);
        AdvanceFacts(restartIndex, i);
        if next >= current {
          break;
        }
        restartIndex := restartIndex + 1;
      }
    }

    lemma AdvanceFacts(r: nat, i: nat)
      ensures Ok() && i < |items| && r + 1 < numRestarts ==>
                && |at| == numRestarts && at[r + 1] <= |items|
                && (Offset(items, at[r + 1]) < Offset(items, i) <==> at[r + 1] < i)
                && (r + 2 < |at| ==> at[r + 1] < at[r + 2])
      ensures Ok() ==> |at| == numRestarts
    {
      hide Data, Offset, WeakOrder, Increasing;
      if Ok() && i < |items| && r + 1 < numRestarts {
        OffsetOrder(at[r + 1], i);
      }
    }

    // Where an operation leaves the iterator: at entry pos, or at the end when there is none.
    ghost predicate Position(pos: nat)
      reads this
    {
      pos <= |items| && if pos < |items| then AtItem(pos) else AtEnd()
    }

    lemma AtItemNext(i: nat)
      ensures Safe() && Ok() && AtItem(i) ==> i < |items| && Valid() && Before(i + 1)
      ensures Safe() && Valid() ==> restartIndex < numRestarts
    {
      hide Data, Offset, RestartOffsets, WeakOrder, Increasing;
      if Safe() && Ok() && AtItem(i) {
        ParseFacts(i);
        if i + 1 < |items| {
          assert ItemOk(items, i + 1);
        }
      }
    }

    lemma Shows(pos: nat)
      ensures Safe() && Ok() && Position(pos) ==>
                && pos <= |items| && (Valid() <==> pos < |items|)
                && (pos < |items| ==> AtItem(pos) && key == items[pos].key && Value() == items[pos].value)
    {
      hide Ok, Offset, SubBytes;
      AtItemNext(pos);
    }

    method Next(ghost i: nat)
      requires Safe() && Valid()
      modifies this
      ensures Safe() && (Ok() && old(AtItem(i)) ==> corrupt == old(corrupt) && Position(i + 1))
    {
      hide Ok, AtItem, Before;
      AtItemNext(i);
      var _ := ParseNextKey(i + 1);
    }

    method SeekToFirst()
      requires Safe()
      modifies this
      ensures Safe() && (Ok() ==> corrupt == old(corrupt) && Position(0))
    {
      hide Ok, AtItem, Before;
      FirstRestart();
      SeekToRestartPoint(0);
      var _ := ParseNextKey(0);
    }

    lemma FirstRestart()
      ensures Ok() ==> |at| == numRestarts > 0 && at[0] == 0
    {
      hide Data, Offset, RestartOffsets, WeakOrder, Increasing;
    }

    /** Goes back to the entry before. */
    method Prev(ghost i: nat)
      requires Safe() && Valid()
      modifies this
      ensures Safe()
      ensures Ok() && old(AtItem(i)) ==> corrupt == old(corrupt) && if i == 0 then AtEnd() else AtItem(i - 1)
    {
      hide Ok, AtItem, Before, Offset;
      // Go back restart by restart until one lies before the entry
      var original := current;
      ghost var good := Ok() && AtItem(i);
      CurrentIs(i);
      while true
        invariant Safe() && Valid() && current == original && corrupt == old(corrupt)
        invariant good ==> i < |items| && original == Offset(items, i)
        decreases restartIndex
      {
        var point := GetRestartPoint(restartIndex);
        BackFacts(restartIndex, i);
        if point < original {
          break;
        }
        if restartIndex == 0 {
          // It was the first entry
          current := restarts;
          restartIndex := numRestarts;
          return;
        }
        restartIndex := restartIndex - 1;
      }
      ghost var k: nat := if good then at[restartIndex] else 0;
      SeekToRestartPoint(restartIndex);
      // Read forward up to the entry before it
      while true
        invariant Safe() && restartIndex < numRestarts
        invariant good ==> Before(k) && k < i < |items| && original == Offset(items, i) && corrupt == old(corrupt)
        decreases if NextEntryOffset() < original then original - NextEntryOffset() + 1 else 0
      {
        AfterParse(k, i);
        var more := ParseNextKey(k);
        AtItemNext(k);
        NextIs(k);
        if !(more && NextEntryOffset() < original) {
          break;
        }
        k := k + 1;
      }
    }

    method SeekToLast()
      requires Safe()
      modifies this
      ensures Safe() && (Ok() ==> corrupt == old(corrupt) && if items == [] then AtEnd() else AtItem(|items| - 1))
    {
      hide Ok, AtItem, Before, Offset;
      BackFacts(numRestarts - 1, 0);
      LastRestart();
      SeekToRestartPoint(numRestarts - 1);
      ghost var k: nat := if Ok() then at[numRestarts - 1] else 0;
      while true
        invariant Safe() && restartIndex < numRestarts
        invariant Ok() ==> Before(k) && (k < |items| || items == []) && corrupt == old(corrupt)
        decreases if NextEntryOffset() < restarts then restarts - NextEntryOffset() + 1 else 0
      {
        EndAfter(k);
        var more := ParseNextKey(k);
        AtItemNext(k);
        NextIs(k);
        // Keep skipping
        if !(more && NextEntryOffset() < restarts) {
          break;
        }
        k := k + 1;
      }
    }

    lemma LastRestart()
      ensures Ok() ==>
                |at| == numRestarts > 0 && at[numRestarts - 1] <= |items| &&
                    (items != [] ==> at[numRestarts - 1] < |items|)
    {
      hide Data, Offset, RestartOffsets, WeakOrder, Increasing;
    }

    lemma EndAfter(k: nat)
      ensures Ok() && k < |items| ==> (Offset(items, k + 1) < restarts <==> k + 1 < |items|)
    {
      hide Offset;
      if Ok() && k < |items| {
        EndOffset();
        OffsetOrder(k + 1, |items|);
      }
    }

    /** Lands on the first entry whose key is at or above the target. */
    method Seek(target: Bytes) returns (ghost pos: nat)
      requires Safe()
      modifies this
      ensures Safe()
      ensures Ok() ==> corrupt == old(corrupt) && Position(pos) && FirstAtOrAbove(less, items, target, pos)
    {
      hide Ok, AtItem, Before, Offset, DecodeEntry, FirstAtOrAbove;
      // Narrows left..right down to the last restart whose key is below the target
      var left, right := 0, numRestarts - 1;
      while left < right
        invariant 0 <= left <= right < numRestarts && Safe() && corrupt == old(corrupt)
        invariant Ok() && left > 0 ==> left < |at| && at[left] < |items| && less(items[at[left]].key, target)
      {
        var mid := (left + right + 1) / 2;
        var regionOffset := GetRestartPoint(mid);
        MidFacts(mid);
        var e := DecodeEntry(data, regionOffset, restarts);
        if e.BadEntry? || e.shared != 0 {
          CorruptionError();
          pos := 0;
          return;
        }
        var midKey := SubBytes(data, e.p, e.nonShared);
        if less(midKey, target) {
          // Nothing before mid can be the answer
          left := mid;
        } else {
          // Key at "mid" is >= "target": all blocks at or after it are uninteresting
          right := mid - 1;
        }
      }

      // Step through the entries after that restart
      SeekToRestartPoint(left);
      StartFacts(left, target);
      pos := if Ok() then at[left] else 0;
      while true
        invariant Safe() && restartIndex < numRestarts
        invariant Ok() ==> Before(pos) && AllBelow(less, items, target, pos) && corrupt == old(corrupt)
        decreases if NextEntryOffset() < restarts then restarts - NextEntryOffset() + 1 else 0
      {
        var more := ParseNextKey(pos);
        FoundFacts(target, pos);
        AtItemNext(pos);
        if !more {
          return;
        }
        if !less(key, target) {
          return;
        }
        pos := pos + 1;
      }
    }

    lemma MidFacts(mid: nat)
      ensures Ok() && 0 < mid < numRestarts && restarts <= |data| ==>
                && |at| == numRestarts && at[mid] < |items|
                && var e := DecodeEntry(data, Offset(items, at[mid]), restarts);
                   e.Entry? && e.shared == 0 && SubBytes(data, e.p, e.nonShared) == items[at[mid]].key
    {
      hide Data, Offset, RestartOffsets, DecodeEntry, WeakOrder, Increasing;
      if Ok() && 0 < mid < numRestarts && restarts <= |data| {
        ItemHere(at[mid]);
      }
    }

    lemma StartFacts(left: nat, target: Bytes)
      ensures Ok() && left < numRestarts &&
              (left > 0 ==> left < |at| && at[left] < |items| && less(items[at[left]].key, target)) ==>
                left < |at| && AllBelow(less, items, target, at[left])
    {
      hide Data, Offset, RestartOffsets;
      if Ok() && left < numRestarts && left > 0 && at[left] < |items| && less(items[at[left]].key, target) {
        forall m | 0 <= m < at[left] ensures less(items[m].key, target) {
          assert less(items[m].key, items[at[left]].key);
        }
      }
    }

    // What it means to be at entry i, or at the end, when all before it is below the target.
    lemma FoundFacts(target: Bytes, i: nat)
      ensures AtItem(i) ==> i < |items| && key == items[i].key
      ensures AtItem(i) && AllBelow(less, items, target, i) && !less(key, target) ==>
                FirstAtOrAbove(less, items, target, i)
      ensures AtItem(i) && AllBelow(less, items, target, i) && less(key, target) ==>
                AllBelow(less, items, target, i + 1)
      ensures i == |items| && AllBelow(less, items, target, i) ==> FirstAtOrAbove(less, items, target, i)
      ensures Before(i) ==> i <= |items|
    {
      hide Offset;
    }

    lemma CurrentIs(i: nat)
      ensures Ok() && AtItem(i) ==> i < |items| && current == Offset(items, i)
    {
      hide Data, Offset;
    }

    lemma NextIs(i: nat)
      ensures AtItem(i) ==> i < |items| && NextEntryOffset() == Offset(items, i + 1)
    {
      hide Data, Offset;
    }

    // Restart points and entry i.
    lemma BackFacts(r: nat, i: nat)
      ensures Ok() ==> |at| == numRestarts
      ensures Ok() && r < numRestarts && i < |items| ==>
                at[r] <= |items| && (Offset(items, at[r]) < Offset(items, i) <==> at[r] < i) && (r == 0 ==> at[r] == 0)
    {
      hide Data, Offset, WeakOrder, Increasing;
      if Ok() && r < numRestarts && i < |items| {
        OffsetOrder(at[r], i);
      }
    }

    lemma AfterParse(k: nat, i: nat)
      ensures k < i <= |items| ==> (Offset(items, k + 1) < Offset(items, i) <==> k + 1 < i)
    {
      hide Offset, Ok;
      if k < i <= |items| {
        OffsetOrder(k + 1, i);
      }
    }
  }

  ghost predicate AllBelow(less: (Bytes, Bytes) -> bool, items: seq<Item>, target: Bytes, i: nat) {
    i <= |items| && forall m :: 0 <= m < i ==> less(items[m].key, target)
  }

  ghost predicate FirstAtOrAbove(less: (Bytes, Bytes) -> bool, items: seq<Item>, target: Bytes, i: nat) {
    AllBelow(less, items, target, i) && (i < |items| ==> !less(items[i].key, target))
  }

  // Restart block r is that of entry i, or the one before when the next restart is at i, or slack entries before it.
  ghost predicate RestartFits(at: seq<nat>, r: nat, i: nat, slack: nat) {
    r < |at| && at[r] <= i && (r + 1 < |at| ==> i <= at[r + 1] + slack)
  }

  // Block::NewIterator: no iterator over malformed contents or a block without restarts.
  method NewIterator(less: (Bytes, Bytes) -> bool, contents: Bytes, ghost items: seq<Item>, ghost at: seq<nat>)
      returns (it: Iter?)
    ensures it == null <==> !Open(contents).Opened?
    ensures it != null ==> fresh(it) && it.Safe() && !it.corrupt && it.items == items && it.at == at
    ensures BlockOf(contents, items, at) && WeakOrder(less) && Increasing(less, items) ==> it != null && it.Ok()
  {
    hide Data, RestartOffsets, BlockOk, WeakOrder, Increasing, DecodeFixed32;
    if BlockOf(contents, items, at) {
      OpensFinished(contents, items, at);
    }
    var found := Open(contents);
    match found {
      case BadContents => return null;
      case NoRestarts => return null;
      case Opened(restarts, numRestarts) =>
        it := new Iter(less, contents, restarts, numRestarts, items, at);
    }
  }

  /** Round trip: a scan of a finished block reads exactly the entries it was built from. */
  method ReadAll(less: (Bytes, Bytes) -> bool, contents: Bytes, ghost items: seq<Item>, ghost at: seq<nat>)
    returns (entries: seq<(Bytes, Bytes)>)
    requires BlockOf(contents, items, at) && WeakOrder(less) && Increasing(less, items)
    ensures |entries| == |items| && forall i :: 0 <= i < |items| ==> entries[i] == (items[i].key, items[i].value)
  {
    hide BlockOf, WeakOrder, Increasing, Open, Iter.Ok, Iter.AtItem, Iter.Before, Iter.Position, SubBytes;
    var it := NewIterator(less, contents, items, at);
    entries := [];
    it.SeekToFirst();
    while true
      invariant fresh(it) && it.Safe() && it.Ok() && it.items == items && it.Position(|entries|)
      invariant |entries| <= |items|
      invariant forall i :: 0 <= i < |entries| ==> entries[i] == (items[i].key, items[i].value)
      decreases |items| - |entries|
    {
      it.Shows(|entries|);
      if !it.Valid() {
        break;
      }
      entries := entries + [(it.key, it.Value())];
      it.Next(|entries| - 1);
    }
  }

  /** Prev undoes Next. */
  method PrevUndoesNext(it: Iter, ghost i: nat)
    requires it.Safe() && it.Ok() && it.AtItem(i) && i + 1 < |it.items|
    modifies it
    ensures it.Safe() && it.AtItem(i) && it.corrupt == old(it.corrupt)
    ensures it.key == old(it.key) && it.Value() == old(it.Value())
  {
    it.AtItemNext(i);
    it.Next(i);
    it.AtItemNext(i + 1);
    it.Prev(i + 1);
  }
}
