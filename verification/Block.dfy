/** Building a block of sorted entries, and the iterator over a finished block. */
module Block {
  import opened Coding
  import opened BlockFormat

  // The comparator's order: Compare(a, b) < 0.  Keys that are neither below nor above each other compare alike.
  ghost predicate WeakOrder(less: (Bytes, Bytes) -> bool) {
    && (forall a :: !less(a, a))
    && (forall a, b, c :: less(a, b) ==> less(a, c) || less(c, b))
    && (forall a, b, c :: less(a, b) && less(b, c) ==> less(a, c))
  }

  ghost predicate Increasing(less: (Bytes, Bytes) -> bool, items: seq<Item>) {
    forall i, j :: 0 <= i < j < |items| ==> less(items[i].key, items[j].key)
  }

  function LastKey(items: seq<Item>): Bytes {
    if items == [] then [] else items[|items| - 1].key
  }

  // ------------------------------------------------------------------ one more entry

  lemma DataMore(items: seq<Item>, x: Item)
    ensures Data(items + [x]) == Data(items) + EncodeItem(x)
  {
    hide EncodeItem;
    assert (items + [x])[..|items|] == items;
  }

  lemma {:induction false} RestartOffsetsMore(items: seq<Item>, x: Item, at: seq<nat>)
    requires forall j :: 0 <= j < |at| ==> at[j] <= |items|
    ensures RestartOffsets(items + [x], at) == RestartOffsets(items, at)
    decreases |at|
  {
    hide Data;
    if at != [] {
      RestartOffsetsMore(items, x, at[..|at| - 1]);
      assert (items + [x])[..at[|at| - 1]] == items[..at[|at| - 1]];
    }
  }

  lemma RestartOffsetsPush(items: seq<Item>, at: seq<nat>)
    requires forall j :: 0 <= j < |at| ==> at[j] <= |items|
    ensures RestartOffsets(items, at + [|items|]) == RestartOffsets(items, at) + [|Data(items)|]
  {
    hide Data;
    assert (at + [|items|])[..|at|] == at;
    assert items[..|items|] == items;
  }

  lemma BlockOkMore(items: seq<Item>, x: Item, at: seq<nat>, next: seq<nat>)
    requires BlockOk(items, at) && ItemOk(items + [x], |items|)
    requires next == at || (next == at + [|items|] && at[|at| - 1] < |items| && x.shared == 0)
    ensures BlockOk(items + [x], next)
  {
    var more := items + [x];
    forall i | 0 <= i < |more| ensures ItemOk(more, i) {
      assert i < |items| ==> ItemOk(items, i);
    }
  }

  lemma EncodeItemIs(x: Item)
    requires x.shared <= |x.key|
    ensures EncodeItem(x) == Varint(x.shared) + Varint(|x.key| - x.shared) + Varint(|x.value|)
            + x.key[x.shared..] + x.value
  {
  }

  lemma EmptyBlock()
    ensures RestartOffsets([], [0]) == [0] && Data([]) == []
  {
    assert RestartOffsets([], [0]) == RestartOffsets([], []) + [0];
  }

  lemma IncreasingMore(less: (Bytes, Bytes) -> bool, items: seq<Item>, x: Item)
    requires Increasing(less, items) && WeakOrder(less) && (items == [] || less(LastKey(items), x.key))
    ensures Increasing(less, items + [x])
  {
    var more := items + [x];
    forall i, j | 0 <= i < j < |more| ensures less(more[i].key, more[j].key) {
      if j == |items| && i < |items| - 1 {
        assert less(items[i].key, LastKey(items));
      }
    }
  }

  // A new entry starts a run of its own only when the last run is full.
  lemma PackedMore(items: seq<Item>, x: Item, at: seq<nat>, next: seq<nat>, interval: nat)
    requires Packed(items, at, interval) && interval >= 1
    requires if |items| < at[|at| - 1] + interval then next == at && LongestPrefix(LastKey(items), x.key, x.shared)
             else next == at + [|items|]
    ensures Packed(items + [x], next, interval)
  {
    hide LongestPrefix;
    var more := items + [x];
    forall i | 0 <= i < |more| ensures SharesAll(more, next, i) {
      assert i < |items| ==> SharesAll(items, at, i);
    }
  }

  // What the entry x adds to the invariant.
  lemma Grow(less: (Bytes, Bytes) -> bool, items: seq<Item>, x: Item, at: seq<nat>, next: seq<nat>)
    requires BlockOk(items, at) && Increasing(less, items) && WeakOrder(less)
    requires (forall j :: 0 <= j < |at| ==> at[j] <= |items|) && at != []
    requires items == [] || less(LastKey(items), x.key)
    requires x.shared <= |LastKey(items)| && x.shared <= |x.key| && x.key[..x.shared] == LastKey(items)[..x.shared]
    requires next == at || (next == at + [|items|] && at[|at| - 1] < |items| && x.shared == 0)
    ensures BlockOk(items + [x], next) && Increasing(less, items + [x]) && LastKey(items + [x]) == x.key
    ensures next != [] && forall j :: 0 <= j < |next| ==> next[j] <= |items| + 1
    ensures Data(items + [x]) == Data(items)
              + (Varint(x.shared) + Varint(|x.key| - x.shared) + Varint(|x.value|) + x.key[x.shared..] + x.value)
    ensures RestartOffsets(items + [x], next) == RestartOffsets(items, next)
    ensures LastKey(items)[..x.shared] + x.key[x.shared..] == x.key
  {
    hide Data, RestartOffsets, EncodeItem, WeakOrder, Increasing, BlockOk, Varint;
    DataMore(items, x);
    EncodeItemIs(x);
    RestartOffsetsMore(items, x, next);
    BlockOkMore(items, x, at, next);
    IncreasingMore(less, items, x);
  }

  lemma NoWords()
    ensures EncodeWords([]) == []
  {
  }

  lemma WordsStep(ws: seq<nat>, i: nat)
    requires i < |ws|
    ensures EncodeWords(ws[..i + 1]) == EncodeWords(ws[..i]) + Fixed32(ws[i])
  {
    hide Fixed32;
    assert ws[..i + 1][..i] == ws[..i];
    EncodeWordsLast(ws[..i + 1]);
  }

  lemma WordsEnd(ws: seq<nat>, last: nat)
    ensures EncodeWords(ws + [last]) == EncodeWords(ws[..|ws|]) + Fixed32(last)
  {
    hide Fixed32;
    assert ws[..|ws|] == ws && (ws + [last])[..|ws|] == ws;
    EncodeWordsLast(ws + [last]);
  }

  class BlockBuilder {
    const less: (Bytes, Bytes) -> bool
    const interval: nat
    var buffer: Bytes
    var restarts: seq<nat>
    var counter: nat           // entries since the last restart
    var lastKey: Bytes
    var finished: bool
    ghost var items: seq<Item>
    ghost var at: seq<nat>     // the entries at which restarts are

    ghost predicate Valid()
      reads this
    {
      && interval >= 1 && BlockOk(items, at) && Increasing(less, items)
      && at != [] && (forall j :: 0 <= j < |at| ==> at[j] <= |items|)
      && restarts == RestartOffsets(items, at) && lastKey == LastKey(items)
      && counter == |items| - at[|at| - 1] && counter <= interval
      && Packed(items, at, interval) && (!finished ==> buffer == Data(items))
    }

    constructor (less: (Bytes, Bytes) -> bool, interval: nat)
      requires interval >= 1
      ensures Valid() && !finished && items == [] && this.less == less
    {
      this.less, this.interval := less, interval;
      buffer, restarts, counter, lastKey, finished := [], [0], 0, [], false;
      items, at := [], [0];
      new;
      EmptyBlock();
    }

    /** Adds an entry whose key is greater than any before. */
    method Add(key: Bytes, value: Bytes)
      requires Valid() && !finished && WeakOrder(less) && (items == [] || less(lastKey, key))
      modifies this
      ensures Valid() && !finished && |items| == |old(items)| + 1 && items[..|old(items)|] == old(items)
      ensures items[|old(items)|].key == key && items[|old(items)|].value == value
    {
      hide Data, RestartOffsets, WeakOrder, BlockOk, Packed, LongestPrefix, Increasing, EncodeItem, Varint, LastKey;
      var shared; ghost var next;
      shared, next := Share(key);
      ghost var x := Item(shared, key, value);
      Grow(less, items, x, at, next);
      PackedMore(items, x, at, next, interval);
      var nonShared := |key| - shared;

      // The three lengths first, then the suffix of the key and the value
      buffer := buffer + (Varint(shared) + Varint(nonShared) + Varint(|value|) + key[shared..] + value);

      // Update state
      lastKey := lastKey[..shared] + key[shared..];
      counter := counter + 1;
      items, at := items + [x], next;
    }

    // How much of the key is shared with the last one, or a new restart.
    method Share(key: Bytes) returns (shared: nat, ghost next: seq<nat>)
      requires Valid() && !finished
      modifies this`restarts, this`counter
      ensures shared <= |lastKey| && shared <= |key| && key[..shared] == lastKey[..shared]
      ensures next == at || (next == at + [|items|] && at[|at| - 1] < |items| && shared == 0)
      ensures next != [] && (forall j :: 0 <= j < |next| ==> next[j] <= |items|)
      ensures restarts == RestartOffsets(items, next)
      ensures counter == |items| - next[|next| - 1] && counter < interval
      ensures if |items| < at[|at| - 1] + interval then next == at && LongestPrefix(lastKey, key, shared)
              else next == at + [|items|]
    {
      hide Data, RestartOffsets, BlockOk, Packed, Increasing, LastKey;
      shared, next := 0, at;
      if counter < interval {
        shared := SharedPrefix(lastKey, key);
      } else {
        // Restart compression
        RestartOffsetsPush(items, at);
        restarts := restarts + [|buffer|];
        next := at + [|items|];
        counter := 0;
      }
    }

    // How long a prefix of the last key can be shared
    method SharedPrefix(last: Bytes, key: Bytes) returns (shared: nat)
      ensures LongestPrefix(last, key, shared)
    {
      var minLength := if |last| < |key| then |last| else |key|;
      shared := 0;
      while shared < minLength && last[shared] == key[shared]
        invariant shared <= minLength && key[..shared] == last[..shared]
      {
        shared := shared + 1;
      }
    }

    method Finish() returns (contents: Bytes)
      requires Valid() && !finished
      modifies this`buffer, this`finished
      ensures Valid() && finished && contents == Layout(Data(items), RestartOffsets(items, at))
    {
      hide Data, RestartOffsets, Fixed32, EncodeWords, BlockOk, Packed, Increasing, LastKey;
      // The trailer: all restart offsets
      var i := 0;
      NoWords();
      while i < |restarts|
        invariant 0 <= i <= |restarts| && buffer == Data(items) + EncodeWords(restarts[..i])
      {
        WordsStep(restarts, i);
        buffer := buffer + Fixed32(restarts[i]);
        i := i + 1;
      }
      WordsEnd(restarts, |restarts|);
      buffer := buffer + Fixed32(|restarts|);
      finished := true;
      contents := buffer;
    }
  }
}
