/** The filter block of a table: one filter for every 2KB of block offsets. */
module FilterBlock {
  import opened Coding

  const FILTER_BASE_LG: byte := 11
  const FILTER_BASE: nat := 2048

  type Bytes = seq<byte>

  // CreateFilter appends the filter of a list of keys; KeyMayMatch asks a filter for a key.
  datatype Policy = Policy(create: seq<Bytes> -> Bytes, mayMatch: (Bytes, Bytes) -> bool)

  // The policy accepts the keys a filter was built from.
  ghost predicate Sound(policy: Policy) {
    forall ks, k :: k in ks ==> policy.mayMatch(k, policy.create(ks))
  }

  // A key and the block it was added under.
  datatype Added = Added(blockOffset: nat, key: Bytes)

  // ------------------------------------------------------------------ the flattened keys

  // The keys that start_ and keys_ hold.
  function Flat(ks: seq<Bytes>): Bytes
    decreases |ks|
  {
    if ks == [] then [] else Flat(ks[..|ks| - 1]) + ks[|ks| - 1]
  }

  function Starts(ks: seq<Bytes>): (s: seq<nat>)
    ensures |s| == |ks|
    decreases |ks|
  {
    if ks == [] then [] else Starts(ks[..|ks| - 1]) + [|Flat(ks[..|ks| - 1])|]
  }

  lemma {:induction false} SlicesAreKeys(ks: seq<Bytes>, i: nat)
    requires i < |ks|
    ensures var ends := Starts(ks) + [|Flat(ks)|];
            0 <= ends[i] <= ends[i + 1] <= |Flat(ks)| && Flat(ks)[ends[i]..ends[i + 1]] == ks[i]
    decreases |ks|
  {
    var front := ks[..|ks| - 1];
    if i < |front| {
      SlicesAreKeys(front, i);
      var ends, fronts := Starts(ks) + [|Flat(ks)|], Starts(front) + [|Flat(front)|];
      assert ends[i] == fronts[i] && ends[i + 1] == fronts[i + 1];
      assert Flat(ks)[ends[i]..ends[i + 1]] == Flat(front)[ends[i]..ends[i + 1]];
    }
  }

  // ------------------------------------------------------------------ the format

  // The offsets of all filters and the end of the last one.
  function Word(offsets: seq<nat>, end: nat, i: nat): nat
    requires i <= |offsets|
  {
    if i < |offsets| then offsets[i] else end
  }

  // The finished block: filters, offset array, offset of the array, base.
  function Layout(result: Bytes, offsets: seq<nat>): Bytes {
    result + EncodeWords(offsets + [|result|]) + [FILTER_BASE_LG]
  }

  // ------------------------------------------------------------------ the reader

  datatype Reader = Reader(data: Bytes, offset: nat, num: nat, baseLg: nat)

  function ShiftRight(x: nat, n: nat): nat
    decreases n
  {
    if n == 0 then x else ShiftRight(x / 2, n - 1)
  }

  // A reader of malformed contents has no filters.
  function Open(contents: Bytes): (r: Reader)
    ensures r.offset + 4 * r.num + 5 <= |contents| || r.num == 0
    ensures r.data == contents || r.num == 0
  {
    var n := |contents|;
    if n < 5 then Reader([], 0, 0, 0)
    else
      var lastWord := DecodeFixed32(contents[n - 5..]);
      if lastWord > n - 5 then Reader([], 0, 0, contents[n - 1])
      else Reader(contents, lastWord, (n - 5 - lastWord) / 4, contents[n - 1])
  }

  function KeyMayMatch(policy: Policy, contents: Bytes, blockOffset: nat, key: Bytes): bool {
    var r := Open(contents);
    var index := ShiftRight(blockOffset, r.baseLg);
    if index < r.num then
      var start := DecodeFixed32(contents[r.offset + 4 * index..]);
      var limit := DecodeFixed32(contents[r.offset + 4 * index + 4..]);
      if start <= limit && limit <= r.offset then policy.mayMatch(key, contents[start..limit])
      else if start == limit then false   // A filter without bytes was made for no keys
      else true
    else true   // A malformed block excludes nothing
  }

  // ------------------------------------------------------------------ what the block says

  // No keys, no filter bytes.
  function Filter(policy: Policy, ks: seq<Bytes>): Bytes {
    if ks == [] then [] else policy.create(ks)
  }

  // The filters of lists of keys, one after the other, and where each of them starts.
  function Filters(policy: Policy, lists: seq<seq<Bytes>>): Bytes
    decreases |lists|
  {
    if lists == [] then [] else Filters(policy, lists[..|lists| - 1]) + Filter(policy, lists[|lists| - 1])
  }

  function Offsets(policy: Policy, lists: seq<seq<Bytes>>): (r: seq<nat>)
    ensures |r| == |lists|
    decreases |lists|
  {
    if lists == [] then []
    else Offsets(policy, lists[..|lists| - 1]) + [|Filters(policy, lists[..|lists| - 1])|]
  }

  lemma FiltersMore(policy: Policy, lists: seq<seq<Bytes>>, ks: seq<Bytes>)
    ensures Filters(policy, lists + [ks]) == Filters(policy, lists) + Filter(policy, ks)
    ensures Offsets(policy, lists + [ks]) == Offsets(policy, lists) + [|Filters(policy, lists)|]
  {
    assert (lists + [ks])[..|lists|] == lists;
  }

  lemma {:induction false} FilterIsAt(policy: Policy, lists: seq<seq<Bytes>>, i: nat)
    requires i < |lists|
    ensures var all := Filters(policy, lists);
            var start, limit := Offsets(policy, lists)[i], Word(Offsets(policy, lists), |all|, i + 1);
            start <= limit <= |all| && all[start..limit] == Filter(policy, lists[i])
    decreases |lists|
  {
    hide Filter;
    var front := lists[..|lists| - 1];
    if i < |front| {
      FilterIsAt(policy, front, i);
      var start, limit := Offsets(policy, front)[i], Word(Offsets(policy, front), |Filters(policy, front)|, i + 1);
      SlicePrefix(Filters(policy, front), Filters(policy, lists), start, limit);
    }
  }

  /** A reader of the block of these key lists asks the policy about the filter of the 2KB range the offset lies in, and
      excludes nothing beyond the last range.
   */
  lemma AsksTheFilter(policy: Policy, lists: seq<seq<Bytes>>, blockOffset: nat, key: Bytes)
    requires |Layout(Filters(policy, lists), Offsets(policy, lists))| < TWO32
    ensures KeyMayMatch(policy, Layout(Filters(policy, lists), Offsets(policy, lists)), blockOffset, key)
       <==> (blockOffset / 2048 < |lists| ==> policy.mayMatch(key, Filter(policy, lists[blockOffset / 2048])))
    ensures Layout(Filters(policy, lists), Offsets(policy, lists))[
              |Layout(Filters(policy, lists), Offsets(policy, lists))| - 1] == 11
  {
    hide Open, DecodeFixed32, EncodeWords, Filters, Offsets, Filter;
    var result, offsets := Filters(policy, lists), Offsets(policy, lists);
    var contents, ws := Layout(result, offsets), offsets + [|result|];
    var i := blockOffset / FILTER_BASE;
    OpenLayout(result, offsets);
    ShiftIsDivision(blockOffset);
    if i < |lists| {
      forall k | 0 <= k < |lists| ensures offsets[k] <= |result| {
        FilterIsAt(policy, lists, k);
      }
      FilterIsAt(policy, lists, i);
      WordsAt(ws, i, result);
      assert contents[ws[i]..ws[i + 1]] == result[ws[i]..ws[i + 1]];
    }
  }

  lemma WordsAt(ws: seq<nat>, i: nat, result: Bytes)
    requires i + 1 < |ws| && |result + EncodeWords(ws) + [FILTER_BASE_LG]| < TWO32
    requires forall k :: 0 <= k < |ws| ==> ws[k] < TWO32
    ensures var contents := result + EncodeWords(ws) + [FILTER_BASE_LG];
            && |result| + 4 * i + 4 <= |contents|
            && DecodeFixed32(contents[|result| + 4 * i..]) == ws[i]
            && DecodeFixed32(contents[|result| + 4 * i + 4..]) == ws[i + 1]
  {
    hide EncodeWords, DecodeFixed32;
    WordAt(ws, i, result, [FILTER_BASE_LG]);
    WordAt(ws, i + 1, result, [FILTER_BASE_LG]);
  }

  // ------------------------------------------------------------------ the builder

  // Filter i is the one of a list of keys that has this key.
  ghost predicate InFilter(policy: Policy, result: Bytes, offsets: seq<nat>, i: nat, key: Bytes) {
    && i < |offsets| && offsets[i] <= Word(offsets, |result|, i + 1) <= |result|
    && exists ks :: key in ks && result[offsets[i]..Word(offsets, |result|, i + 1)] == policy.create(ks)
  }

  // Every key is in the filter of its block, or waits for the filter that is being collected.
  ghost predicate Covered(policy: Policy, result: Bytes, offsets: seq<nat>, waiting: seq<Bytes>, added: set<Added>) {
    forall a :: a in added ==>
      InFilter(policy, result, offsets, a.blockOffset / FILTER_BASE, a.key)
      || (a.blockOffset / FILTER_BASE == |offsets| && a.key in waiting)
  }

  class FilterBlockBuilder {
    const policy: Policy
    var keys: Bytes             // the waiting keys, end to end
    var start: seq<nat>         // where each of them starts
    var result: Bytes
    var filterOffsets: seq<nat>
    ghost var waiting: seq<Bytes>
    ghost var lists: seq<seq<Bytes>>     // the keys of each generated filter
    ghost var added: set<Added>

    ghost predicate Valid()
      reads this
    {
      && keys == Flat(waiting) && start == Starts(waiting)
      && result == Filters(policy, lists) && filterOffsets == Offsets(policy, lists)
      && (forall i :: 0 <= i < |filterOffsets| ==> filterOffsets[i] <= |result|)
      && Covered(policy, result, filterOffsets, waiting, added)
    }

    constructor (policy: Policy)
      ensures Valid() && added == {} && this.policy == policy && lists == [] && waiting == []
    {
      this.policy, lists := policy, [];
      keys, start, result, filterOffsets, waiting, added := [], [], [], [], [], {};
    }

    // The waiting keys went to the first filter generated since, if any; the others have none.
    ghost predicate Advanced(lists0: seq<seq<Bytes>>, waiting0: seq<Bytes>)
      reads this
    {
      && |lists0| <= |lists| && lists[..|lists0|] == lists0
      && waiting == (if |lists| == |lists0| then waiting0 else [])
      && forall i :: |lists0| <= i < |lists| ==> lists[i] == if i == |lists0| then waiting0 else []
    }

    // Block offsets never decrease below a filter that is already generated.
    method StartBlock(blockOffset: nat)
      requires Valid() && blockOffset / FILTER_BASE >= |filterOffsets|
      modifies this
      ensures Valid() && added == old(added) && |lists| == |filterOffsets| == blockOffset / FILTER_BASE
      ensures Advanced(old(lists), old(waiting))
    {
      hide Covered, Flat, Starts, Filters, Offsets;
      var filterIndex := blockOffset / FILTER_BASE;
      while filterIndex > |filterOffsets|
        invariant Valid() && added == old(added) && |lists| == |filterOffsets| <= filterIndex
        invariant Advanced(old(lists), old(waiting))
      {
        GenerateFilter();
      }
    }

    // Adds a key under the block started last.
    method AddKey(key: Bytes, ghost blockOffset: nat)
      requires Valid() && blockOffset / FILTER_BASE == |filterOffsets|
      modifies this
      ensures Valid() && added == old(added) + {Added(blockOffset, key)} && filterOffsets == old(filterOffsets)
      ensures waiting == old(waiting) + [key] && lists == old(lists)
    {
      start := start + [|keys|];
      keys := keys + key;
      ghost var more := waiting + [key];
      assert more[..|more| - 1] == waiting;
      waiting := more;
      added := added + {Added(blockOffset, key)};
    }

    method GenerateFilter()
      requires Valid()
      modifies this
      ensures Valid() && added == old(added) && |filterOffsets| == |old(filterOffsets)| + 1 && start == []
      ensures lists == old(lists) + [old(waiting)] && waiting == []
    {
      hide Covered, Filters, Offsets;
      FiltersMore(policy, lists, waiting);
      var numKeys := |start|;
      if numKeys == 0 {
        // No keys: the filter is empty
        filterOffsets := filterOffsets + [|result|];
        assert waiting == [];
        CoverNext(policy, old(result), old(filterOffsets), waiting, added, result);
        lists := lists + [waiting];
        return;
      }
      // Cut the keys apart again
      var tmpKeys := KeyList();
      filterOffsets := filterOffsets + [|result|];
      result := result + policy.create(tmpKeys);
      CoverNext(policy, old(result), old(filterOffsets), waiting, added, result);
      lists := lists + [waiting];
      keys, start, waiting := [], [], [];
    }

    lemma NothingWaits()
      requires Valid()
      ensures result == Filters(policy, lists) && filterOffsets == Offsets(policy, lists)
      ensures (start == [] <==> waiting == [])
      ensures forall i :: 0 <= i < |filterOffsets| ==> filterOffsets[i] <= |result|
    {
      hide Covered, Flat;
    }

    method KeyList() returns (tmpKeys: seq<Bytes>)
      requires Valid()
      ensures tmpKeys == waiting
    {
      var ends := start + [|keys|];
      tmpKeys := [];
      var i := 0;
      while i < |start|
        invariant 0 <= i <= |start| && tmpKeys == waiting[..i]
      {
        SlicesAreKeys(waiting, i);
        tmpKeys := tmpKeys + [keys[ends[i]..ends[i + 1]]];
        i := i + 1;
      }
    }

    /** The block of all the key lists; and no false negatives: a reader of it may match every key under the block it
        was added to.
     */
    method Finish() returns (contents: Bytes)
      requires Valid() && Sound(policy)
      modifies this
      ensures added == old(added) && lists == old(lists + if waiting == [] then [] else [waiting])
      ensures contents == Layout(Filters(policy, lists), Offsets(policy, lists))
      ensures |contents| < TWO32 ==> forall a :: a in added ==> KeyMayMatch(policy, contents, a.blockOffset, a.key)
    {
      hide Fixed32, Covered, Flat, Starts, KeyMayMatch, Sound, Filters, Offsets;
      NothingWaits();
      if start != [] {
        GenerateFilter();
      }
      NothingWaits();
      // The trailer: where each filter starts
      var arrayOffset := |result|;
      ghost var filters, offsets := result, filterOffsets;
      var i := 0;
      while i < |filterOffsets|
        invariant 0 <= i <= |offsets| && filterOffsets == offsets && added == old(added)
        invariant lists == old(lists + if waiting == [] then [] else [waiting])
        invariant result == filters + EncodeWords(offsets[..i])
      {
        assert offsets[..i + 1][..i] == offsets[..i];
        result := result + Fixed32(filterOffsets[i]);
        i := i + 1;
      }
      assert offsets[..i] == offsets && (offsets + [arrayOffset])[..i] == offsets;
      result := result + Fixed32(arrayOffset);
      assert result == filters + EncodeWords(offsets + [arrayOffset]);
      result := result + [FILTER_BASE_LG];
      contents := result;
      if |contents| < TWO32 {
        forall a | a in added ensures KeyMayMatch(policy, contents, a.blockOffset, a.key) {
          FinishedMatches(policy, filters, offsets, added, a);
        }
      }
    }
  }

  // One more filter, of the waiting keys.
  lemma CoverNext(policy: Policy, result: Bytes, offsets: seq<nat>, waiting: seq<Bytes>, added: set<Added>, next: Bytes)
    requires Covered(policy, result, offsets, waiting, added)
    requires forall i :: 0 <= i < |offsets| ==> offsets[i] <= |result|
    requires next == if waiting == [] then result else result + policy.create(waiting)
    ensures Covered(policy, next, offsets + [|result|], [], added)
    ensures forall i :: 0 <= i < |offsets| + 1 ==> (offsets + [|result|])[i] <= |next|
  {
    var more := offsets + [|result|];
    forall a | a in added ensures InFilter(policy, next, more, a.blockOffset / FILTER_BASE, a.key) {
      var i := a.blockOffset / FILTER_BASE;
      if a.key in waiting && i == |offsets| {
        assert next[more[i]..Word(more, |next|, i + 1)] == policy.create(waiting);
      } else {
        FilterStays(policy, result, offsets, i, a.key, next);
      }
    }
  }

  lemma FilterStays(policy: Policy, result: Bytes, offsets: seq<nat>, i: nat, key: Bytes, next: Bytes)
    requires InFilter(policy, result, offsets, i, key) && |result| <= |next| && next[..|result|] == result
    ensures InFilter(policy, next, offsets + [|result|], i, key)
  {
    var more := offsets + [|result|];
    assert Word(more, |next|, i + 1) == Word(offsets, |result|, i + 1);
    var limit := Word(offsets, |result|, i + 1);
    var ks :| key in ks && result[offsets[i]..limit] == policy.create(ks);
    SlicePrefix(result, next, offsets[i], limit);
  }

  lemma OpenLayout(result: Bytes, offsets: seq<nat>)
    requires |Layout(result, offsets)| < TWO32
    ensures Open(Layout(result, offsets)) == Reader(Layout(result, offsets), |result|, |offsets|, FILTER_BASE_LG)
  {
    hide EncodeWords, DecodeFixed32;
    var ws := offsets + [|result|];
    var all := Layout(result, offsets);
    assert ws[..|ws| - 1] == offsets;
    EncodeWordsLast(ws);
    WordAfter(result, EncodeWords(offsets), |result|, [FILTER_BASE_LG]);
    assert |all| == |result| + 4 * |ws| + 1;
  }

  lemma ShiftIsDivision(x: nat)
    ensures ShiftRight(x, 11) == x / FILTER_BASE
  {
    var y := x / 2 / 2 / 2 / 2;
    assert ShiftRight(x, 11) == ShiftRight(y, 7);
    var z := y / 2 / 2 / 2 / 2;
    assert ShiftRight(y, 7) == ShiftRight(z, 3) == z / 2 / 2 / 2;
  }

  lemma FinishedMatches(policy: Policy, result: Bytes, offsets: seq<nat>, added: set<Added>, a: Added)
    requires Sound(policy) && Covered(policy, result, offsets, [], added) && a in added
    requires (forall i :: 0 <= i < |offsets| ==> offsets[i] <= |result|) && |Layout(result, offsets)| < TWO32
    ensures KeyMayMatch(policy, Layout(result, offsets), a.blockOffset, a.key)
  {
    hide Open, DecodeFixed32, EncodeWords;
    var contents, ws := Layout(result, offsets), offsets + [|result|];
    var i := a.blockOffset / FILTER_BASE;
    assert InFilter(policy, result, offsets, i, a.key);
    OpenLayout(result, offsets);
    ShiftIsDivision(a.blockOffset);
    WordAt(ws, i, result, [FILTER_BASE_LG]);
    WordAt(ws, i + 1, result, [FILTER_BASE_LG]);
    var start, limit := ws[i], ws[i + 1];
    var ks :| a.key in ks && result[start..limit] == policy.create(ks);
    assert contents[start..limit] == result[start..limit];
  }
}
