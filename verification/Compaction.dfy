/** The merge loop of a compaction: which entries it drops, how it cuts the rest into output
    files, and why the dropped entries cannot be missed by any later read.
 */
module Compaction {
  import opened Entries
  import opened Wrappers

  ghost predicate Sorted(input: seq<Entry>) {
    forall i, j :: 0 <= i < j < |input| ==> InternalLess(input[i], input[j])
  }

  ghost function Elements(input: seq<Entry>): set<Entry> {
    set e | e in input
  }

  // An entry is hidden when a newer entry of its key is already covered by every live snapshot.
  ghost predicate Hidden(es: set<Entry>, e: Entry, oldest: nat) {
    exists f :: f in es && f.key == e.key && f.seqno > e.seqno && f.seqno <= oldest
  }

  ghost predicate Dropped(es: set<Entry>, e: Entry, oldest: nat, isBase: Key -> bool) {
    || Hidden(es, e, oldest)
    || (e.slot.Deleted? && e.seqno <= oldest && isBase(e.key))
  }

  // What a compaction of es keeps, independent of the order it visits the entries in.
  ghost function Kept(es: set<Entry>, oldest: nat, isBase: Key -> bool): (kept: set<Entry>) {
    set e | e in es && !Dropped(es, e, oldest, isBase)
  }

  ghost predicate AllNewer(newer: set<Entry>, older: set<Entry>) {
    forall e, f :: e in newer && f in older && e.key == f.key ==> e.seqno > f.seqno
  }

  // IsBaseLevelForKey: asked about a key of the inputs, yes means that no deeper level has it.
  ghost predicate BaseIsSound(inputs: set<Entry>, deep: set<Entry>, isBase: Key -> bool) {
    forall e, f :: e in deep && f in inputs && e.key == f.key ==> !isBase(e.key)
  }

  // A deletion marker that decides what reads at the oldest snapshot see.
  ghost predicate LastWord(shallow: set<Entry>, inputs: set<Entry>, e: Entry, oldest: nat) {
    && e in inputs && e.slot.Deleted? && e.seqno <= oldest && !Hidden(inputs, e, oldest)
    && forall f :: f in shallow && f.key == e.key ==> f.seqno > oldest
  }

  /** Entries at shallower levels are newer than the inputs of their key, entries at deeper levels are older.  Reads
      at or above the oldest snapshot cannot tell the compacted entries from the inputs exactly when no deletion
      marker that decides such a read is dropped from above a value.
   */
  lemma CompactionKeepsExactly(shallow: set<Entry>, inputs: set<Entry>, deep: set<Entry>,
                               oldest: nat, isBase: Key -> bool)
    requires Unique(shallow + inputs + deep)
    requires AllNewer(shallow, inputs) && AllNewer(inputs, deep)
    ensures Agree(shallow + inputs + deep, shallow + Kept(inputs, oldest, isBase) + deep, oldest) <==>
            forall e :: LastWord(shallow, inputs, e, oldest) && isBase(e.key) ==> Lookup(deep, e.key, oldest) == None
  {
    hide Hidden, Lookup, Kept, LastWord;
    var before, after := shallow + inputs + deep, shallow + Kept(inputs, oldest, isBase) + deep;
    if forall e :: LastWord(shallow, inputs, e, oldest) && isBase(e.key) ==> Lookup(deep, e.key, oldest) == None {
      forall k: Key, s: nat | oldest <= s ensures Lookup(before, k, s) == Lookup(after, k, s) {
        ReadAfter(shallow, inputs, deep, oldest, isBase, k, s);
      }
    } else {
      var e :| LastWord(shallow, inputs, e, oldest) && isBase(e.key) && Lookup(deep, e.key, oldest) != None;
      MarkerDecides(shallow, inputs, deep, oldest, e);
      ReadWithout(shallow, inputs, deep, oldest, isBase, e, oldest);
    }
  }

  lemma MarkerDecides(shallow: set<Entry>, inputs: set<Entry>, deep: set<Entry>, oldest: nat, e: Entry)
    requires Unique(shallow + inputs + deep) && AllNewer(inputs, deep) && LastWord(shallow, inputs, e, oldest)
    ensures Newest(shallow + inputs + deep, e.key, oldest, e) && Lookup(shallow + inputs + deep, e.key, oldest) == None
  {
    assert Newest(shallow + inputs + deep, e.key, oldest, e);
    LookupNewest(shallow + inputs + deep, e.key, oldest, e);
  }

  // Once a deciding marker is dropped, only what the deeper levels have is seen.
  lemma ReadWithout(shallow: set<Entry>, inputs: set<Entry>, deep: set<Entry>, oldest: nat, isBase: Key -> bool,
                    e: Entry, s: nat)
    requires Unique(shallow + inputs + deep) && AllNewer(shallow, inputs) && AllNewer(inputs, deep) && oldest <= s
    requires LastWord(shallow, inputs, e, oldest) && isBase(e.key) && Newest(shallow + inputs + deep, e.key, s, e)
    ensures Lookup(shallow + Kept(inputs, oldest, isBase) + deep, e.key, s) == Lookup(deep, e.key, oldest)
  {
    var after := shallow + Kept(inputs, oldest, isBase) + deep;
    forall f: Entry | f.key == e.key && f.seqno <= s ensures f in after <==> f in deep && f.seqno <= oldest {
    }
    assert Unique(after) && Unique(deep);
    assert forall f :: Newest(after, e.key, s, f) <==> Newest(deep, e.key, oldest, f);
    if f :| Newest(after, e.key, s, f) {
      LookupNewest(after, e.key, s, f);
      LookupNewest(deep, e.key, oldest, f);
    }
  }

  // A read after the compaction is changed only by the loss of a deciding marker.
  lemma ReadAfter(shallow: set<Entry>, inputs: set<Entry>, deep: set<Entry>, oldest: nat, isBase: Key -> bool,
                  k: Key, s: nat)
    requires Unique(shallow + inputs + deep) && AllNewer(shallow, inputs) && AllNewer(inputs, deep) && oldest <= s
    requires forall e :: LastWord(shallow, inputs, e, oldest) && isBase(e.key) ==> Lookup(deep, e.key, oldest) == None
    ensures Lookup(shallow + inputs + deep, k, s) == Lookup(shallow + Kept(inputs, oldest, isBase) + deep, k, s)
  {
    hide Lookup;
    var before := shallow + inputs + deep;
    var after := shallow + Kept(inputs, oldest, isBase) + deep;
    if e :| Newest(before, k, s, e) {
      LookupNewest(before, k, s, e);
      if e in after {
        assert Newest(after, k, s, e);
        LookupNewest(after, k, s, e);
      } else {
        assert !Hidden(inputs, e, oldest);
        assert LastWord(shallow, inputs, e, oldest);
        ReadWithout(shallow, inputs, deep, oldest, isBase, e, s);
      }
    } else {
      NothingThere(before, k, s);
      NothingThere(after, k, s);
    }
  }

  lemma NothingThere(es: set<Entry>, k: Key, s: nat)
    ensures (forall e :: !Newest(es, k, s, e)) ==>
              Lookup(es, k, s) == None && forall e :: e in es && e.key == k ==> e.seqno > s
    ensures (forall e :: e in es && e.key == k ==> e.seqno > s) ==> Lookup(es, k, s) == None
  {
    if e :| e in es && e.key == k && e.seqno <= s {
      var n := NewestExists(es, k, s, e);
    }
  }

  /** When isBase holds of no input key that a deeper level has, reads at or above the oldest snapshot cannot tell the
      compacted entries from the inputs.
   */
  lemma CompactionPreservesMeaning(shallow: set<Entry>, inputs: set<Entry>, deep: set<Entry>,
                                   oldest: nat, isBase: Key -> bool)
    requires Unique(shallow + inputs + deep)
    requires AllNewer(shallow, inputs) && AllNewer(inputs, deep)
    requires BaseIsSound(inputs, deep, isBase)
    ensures Agree(shallow + inputs + deep, shallow + Kept(inputs, oldest, isBase) + deep, oldest)
  {
    hide Lookup, Kept, Agree;
    forall e | LastWord(shallow, inputs, e, oldest) && isBase(e.key) ensures Lookup(deep, e.key, oldest) == None {
      NothingThere(deep, e.key, oldest);
    }
    CompactionKeepsExactly(shallow, inputs, deep, oldest, isBase);
  }

  // With sorted input the previous entry alone decides whether the next one is hidden.
  lemma HiddenByPrevious(input: seq<Entry>, i: nat, oldest: nat)
    requires Sorted(input) && i < |input|
    ensures Hidden(Elements(input), input[i], oldest)
      <==> i > 0 && input[i-1].key == input[i].key && input[i-1].seqno <= oldest
  {
    if i > 0 && input[i-1].key == input[i].key && input[i-1].seqno <= oldest {
      assert input[i-1] in Elements(input);
    }
  }

  // The kept entries among the first n, in order.
  ghost function KeptSeq(input: seq<Entry>, n: nat, oldest: nat, isBase: Key -> bool): seq<Entry>
    requires n <= |input|
  {
    if n == 0 then [] else
      var earlier := KeptSeq(input, n - 1, oldest, isBase);
      if Dropped(Elements(input), input[n-1], oldest, isBase) then earlier else earlier + [input[n-1]]
  }

  lemma {:induction false} KeptSeqElements(input: seq<Entry>, n: nat, oldest: nat, isBase: Key -> bool)
    requires n <= |input|
    ensures forall e :: e in KeptSeq(input, n, oldest, isBase)
                   <==> e in input[..n] && !Dropped(Elements(input), e, oldest, isBase)
  {
    if n > 0 {
      KeptSeqElements(input, n - 1, oldest, isBase);
      assert input[..n] == input[..n-1] + [input[n-1]];
    }
  }

  lemma {:induction false} KeptSeqSorted(input: seq<Entry>, n: nat, oldest: nat, isBase: Key -> bool)
    requires Sorted(input) && n <= |input|
    ensures Sorted(KeptSeq(input, n, oldest, isBase))
  {
    hide Hidden;
    if n > 0 {
      KeptSeqSorted(input, n - 1, oldest, isBase);
      KeptSeqElements(input, n - 1, oldest, isBase);
      var r := KeptSeq(input, n - 1, oldest, isBase);
      forall i | 0 <= i < |r| ensures InternalLess(r[i], input[n-1]) {
        assert r[i] in input[..n-1];
      }
    }
  }

  // Does the merge loop drop the i-th entry, going by the sequence number it saw last?
  predicate ScanDrops(input: seq<Entry>, i: nat, oldest: nat, isBase: Key -> bool)
    requires i < |input|
  {
    var last := if i > 0 && input[i-1].key == input[i].key then input[i-1].seqno else MAX_SEQUENCE_NUMBER;
    last <= oldest || (input[i].slot.Deleted? && input[i].seqno <= oldest && isBase(input[i].key))
  }

  function ScanKept(input: seq<Entry>, n: nat, oldest: nat, isBase: Key -> bool): seq<Entry>
    requires n <= |input|
  {
    if n == 0 then [] else
      var earlier := ScanKept(input, n - 1, oldest, isBase);
      if ScanDrops(input, n - 1, oldest, isBase) then earlier else earlier + [input[n-1]]
  }

  // Where in the input the kept entries stand.
  function ScanPlaces(input: seq<Entry>, n: nat, oldest: nat, isBase: Key -> bool): seq<nat>
    requires n <= |input|
  {
    if n == 0 then [] else
      var earlier := ScanPlaces(input, n - 1, oldest, isBase);
      if ScanDrops(input, n - 1, oldest, isBase) then earlier else earlier + [n - 1]
  }

  lemma {:induction false} PlacesHold(input: seq<Entry>, n: nat, oldest: nat, isBase: Key -> bool)
    requires n <= |input|
    ensures var kept, places := ScanKept(input, n, oldest, isBase), ScanPlaces(input, n, oldest, isBase);
            |places| == |kept| && forall p :: 0 <= p < |places| ==> places[p] < n && input[places[p]] == kept[p]
  {
    hide ScanDrops;
    if n > 0 {
      PlacesHold(input, n - 1, oldest, isBase);
    }
  }

  // Between the i-th and the j-th entry of the input an output file was to end.
  ghost predicate CutBetween(i: nat, j: nat, stopBefore: nat -> bool, full: nat -> bool) {
    full(i) || exists m :: i < m <= j && stopBefore(m)
  }

  ghost predicate CutsAre(places: seq<nat>, starts: seq<nat>, stopBefore: nat -> bool, full: nat -> bool) {
    && (forall p :: p in starts ==> p < |places|) && (places != [] ==> 0 in starts)
    && forall p :: 0 < p < |places| ==> (p in starts <==> CutBetween(places[p - 1], places[p], stopBefore, full))
  }

  // The file of the last entry kept so far is still open.
  ghost predicate NoCutSince(places: seq<nat>, i: nat, stopBefore: nat -> bool, full: nat -> bool) {
    places != [] && var last := places[|places| - 1];
    !full(last) && forall m :: last < m < i ==> !stopBefore(m)
  }

  /** On sorted input the scan keeps exactly what the order-independent rule keeps.  The exception
      is a smallest snapshot of MAX_SEQUENCE_NUMBER, also the scan's initial last sequence number:
      then the first entry of every key looks hidden and nothing at all is kept.
   */
  lemma {:induction false} ScanKeepsExactly(input: seq<Entry>, n: nat, oldest: nat, isBase: Key -> bool)
    requires Sorted(input) && n <= |input| && oldest <= MAX_SEQUENCE_NUMBER
    requires forall i :: 0 <= i < |input| ==> input[i].seqno <= MAX_SEQUENCE_NUMBER
    ensures ScanKept(input, n, oldest, isBase)
         == if oldest < MAX_SEQUENCE_NUMBER then KeptSeq(input, n, oldest, isBase) else []
  {
    if n > 0 {
      ScanKeepsExactly(input, n - 1, oldest, isBase);
      HiddenByPrevious(input, n - 1, oldest);
    }
  }

  // A table file written by the compaction, with the key range recorded for it.
  datatype Output = Output(number: nat, smallest: Entry, largest: Entry, entries: seq<Entry>)
  {
    ghost predicate Valid() {
      entries != [] && smallest == entries[0] && largest == entries[|entries| - 1]
    }
  }

  ghost function Contents(outputs: seq<Output>): seq<Entry> {
    if outputs == [] then [] else Contents(outputs[..|outputs|-1]) + outputs[|outputs|-1].entries
  }

  lemma ContentsAppend(outputs: seq<Output>, o: Output)
    ensures Contents(outputs + [o]) == Contents(outputs) + o.entries
  {
    assert (outputs + [o])[..|outputs|] == outputs;
  }

  // The position of each output's first entry among all that are kept.
  ghost predicate StartAt(outputs: seq<Output>, starts: seq<nat>) {
    |starts| == |outputs| && forall k :: 0 <= k < |outputs| ==> starts[k] == |Contents(outputs[..k])|
  }

  // One more entry: a new output starts there exactly if the last one is not open any more.
  lemma CutHere(outputs: seq<Output>, open: bool, places: seq<nat>, starts: seq<nat>, i: nat,
                stopBefore: nat -> bool, full: nat -> bool)
    requires |Contents(outputs)| == |places| && CutsAre(places, starts, stopBefore, full)
    requires open <==> NoCutSince(places, i + 1, stopBefore, full)
    requires forall p :: 0 <= p < |places| ==> places[p] < i
    ensures CutsAre(places + [i], if open then starts else starts + [|places|], stopBefore, full)
    ensures NoCutSince(places + [i], i + 1, stopBefore, full) <==> !full(i)
  {
    var more, starts' := places + [i], if open then starts else starts + [|places|];
    forall p | 0 < p < |more| ensures p in starts' <==> CutBetween(more[p - 1], more[p], stopBefore, full) {
      if p < |places| {
        assert CutBetween(more[p - 1], more[p], stopBefore, full) <==>
               CutBetween(places[p - 1], places[p], stopBefore, full);
      }
    }
  }

  lemma NothingCut(input: seq<Entry>, oldest: nat, isBase: Key -> bool, stopBefore: nat -> bool, full: nat -> bool)
    ensures StartAt([], []) && CutsAre([], [], stopBefore, full) && !NoCutSince([], 0, stopBefore, full)
    ensures Contents([]) == ScanKept(input, 0, oldest, isBase) && ScanPlaces(input, 0, oldest, isBase) == []
  {
  }

  // The next entry, with the sequence number that was seen last for its key.
  lemma ScanStep(input: seq<Entry>, i: nat, oldest: nat, isBase: Key -> bool, last: nat)
    requires i < |input|
    requires last == if i > 0 && input[i-1].key == input[i].key then input[i-1].seqno else MAX_SEQUENCE_NUMBER
    ensures var drop := last <= oldest || (input[i].slot.Deleted? && input[i].seqno <= oldest && isBase(input[i].key));
            var kept, places := ScanKept(input, i, oldest, isBase), ScanPlaces(input, i, oldest, isBase);
            && ScanKept(input, i + 1, oldest, isBase) == (if drop then kept else kept + [input[i]])
            && ScanPlaces(input, i + 1, oldest, isBase) == (if drop then places else places + [i])
  {
  }

  lemma OneMore(places: seq<nat>, i: nat, stopBefore: nat -> bool, full: nat -> bool)
    requires forall p :: 0 <= p < |places| ==> places[p] < i
    ensures NoCutSince(places, i + 1, stopBefore, full) <==> NoCutSince(places, i, stopBefore, full) && !stopBefore(i)
  {
  }

  lemma StartsKept(outputs: seq<Output>, outputs': seq<Output>, starts: seq<nat>)
    requires outputs' != [] && |outputs| <= |outputs'| <= |outputs| + 1
    requires outputs'[..|outputs'| - 1] == if |outputs'| == |outputs| then outputs[..|outputs| - 1] else outputs
    requires |starts| == |outputs'|
    requires StartAt(outputs, starts[..|outputs|])
    requires |outputs'| > |outputs| ==> starts[|outputs|] == |Contents(outputs)|
    ensures StartAt(outputs', starts)
  {
    forall k | 0 <= k < |outputs'| ensures starts[k] == |Contents(outputs'[..k])| {
      assert outputs'[..k] == outputs'[..|outputs'| - 1][..k];
      if k < |outputs| {
        assert outputs[..k] == outputs'[..k];
        assert starts[..|outputs|][k] == starts[k];
      } else {
        assert outputs'[..k] == outputs;
      }
    }
  }

  class CompactionState {
    const smallestSnapshot: nat
    var outputs: seq<Output>
    var open: bool        // is there a builder for the last output?
    var nextFile: nat     // file numbers handed out by the version set
    ghost var base: nat   // the number of the first output

    constructor (oldest: nat, firstFile: nat)
      ensures smallestSnapshot == oldest && outputs == [] && !open && Valid()
      ensures nextFile == base == firstFile
    {
      smallestSnapshot, outputs, open, nextFile, base := oldest, [], false, firstFile, firstFile;
    }

    // Outputs are never empty, their recorded ranges are exact, and their numbers are fresh.
    ghost predicate Valid()
      reads this
    {
      && (open ==> outputs != [])
      && nextFile == base + |outputs|
      && (forall i :: 0 <= i < |outputs| ==> outputs[i].Valid() && outputs[i].number == base + i)
    }

    // Opens an output if there is none, then appends the entry to it.
    method Add(e: Entry)
      requires Valid()
      modifies this
      ensures Valid() && open && base == old(base) && outputs != []
      ensures outputs[..|outputs| - 1] == old(if open then outputs[..|outputs| - 1] else outputs)
      ensures Contents(outputs) == old(Contents(outputs)) + [e]
    {
      if !open {
        var created := Output(nextFile, e, e, [e]);
        ContentsAppend(outputs, created);
        outputs := outputs + [created];
        nextFile := nextFile + 1;
        open := true;
      } else {
        var earlier, last := outputs[..|outputs|-1], outputs[|outputs|-1];
        var grown := last.(largest := e, entries := last.entries + [e]);
        assert outputs == earlier + [last];
        ContentsAppend(earlier, last);
        ContentsAppend(earlier, grown);
        outputs := earlier + [grown];
      }
    }

    // Closes the current output file.
    method Finish()
      requires Valid() && open
      modifies this`open
      ensures Valid() && !open
    {
      open := false;
    }

    // Writes the i-th entry of the input and closes its file if that is full.
    method AddKept(e: Entry, i: nat, stopBefore: nat -> bool, full: nat -> bool, ghost places: seq<nat>,
                   ghost starts0: seq<nat>)
      returns (ghost starts: seq<nat>)
      requires Valid() && StartAt(outputs, starts0) && CutsAre(places, starts0, stopBefore, full)
      requires |Contents(outputs)| == |places| && (forall p :: 0 <= p < |places| ==> places[p] < i)
      requires open <==> NoCutSince(places, i + 1, stopBefore, full)
      modifies this
      ensures Valid() && Contents(outputs) == old(Contents(outputs)) + [e]
      ensures StartAt(outputs, starts) && CutsAre(places + [i], starts, stopBefore, full)
      ensures open <==> NoCutSince(places + [i], i + 1, stopBefore, full)
    {
      CutHere(outputs, open, places, starts0, i, stopBefore, full);
      hide CutsAre, NoCutSince, CutBetween, Contents;
      ghost var earlier := outputs;
      starts := if open then starts0 else starts0 + [|places|];
      Add(e);
      StartsKept(earlier, outputs, starts);
      if full(i) {
        Finish();
      }
    }

    /** The merge loop over the input.  stopBefore and full are the version set's and the table
        builder's decisions to end an output file around the i-th entry.  The output files hold
        exactly the kept entries in order, and a file begins exactly where such a decision lies between two of them.
     */
    method DoCompactionWork(input: seq<Entry>, isBase: Key -> bool, stopBefore: nat -> bool, full: nat -> bool)
      returns (ghost starts: seq<nat>)
      requires Valid() && outputs == [] && !open
      modifies this
      ensures Valid() && !open
      ensures Contents(outputs) == ScanKept(input, |input|, smallestSnapshot, isBase)
      ensures StartAt(outputs, starts)
      ensures CutsAre(ScanPlaces(input, |input|, smallestSnapshot, isBase), starts, stopBefore, full)
    {
      hide StartAt, CutsAre, NoCutSince, CutBetween, Contents, Valid, ScanKept, ScanPlaces, ScanDrops;
      starts := [];
      NothingCut(input, smallestSnapshot, isBase, stopBefore, full);
      var currentUserKey: Key, hasCurrentUserKey := 0, false;
      var lastSequenceForKey := MAX_SEQUENCE_NUMBER;
      var i := 0;
      while i < |input|
        invariant i <= |input| && Valid()
        invariant hasCurrentUserKey == (i > 0)
        invariant i > 0 ==> currentUserKey == input[i-1].key && lastSequenceForKey == input[i-1].seqno
        invariant Contents(outputs) == ScanKept(input, i, smallestSnapshot, isBase)
        invariant StartAt(outputs, starts)
        invariant CutsAre(ScanPlaces(input, i, smallestSnapshot, isBase), starts, stopBefore, full)
        invariant open <==> NoCutSince(ScanPlaces(input, i, smallestSnapshot, isBase), i, stopBefore, full)
      {
        ghost var places := ScanPlaces(input, i, smallestSnapshot, isBase);
        PlacesHold(input, i, smallestSnapshot, isBase);
        var ikey := input[i];
        if stopBefore(i) && open {
          Finish();
        }
        OneMore(places, i, stopBefore, full);
        var drop := false;
        if !hasCurrentUserKey || ikey.key != currentUserKey {
          // A user key not met before
          currentUserKey := ikey.key;
          hasCurrentUserKey := true;
          lastSequenceForKey := MAX_SEQUENCE_NUMBER;
        }
        if lastSequenceForKey <= smallestSnapshot ||
            (ikey.slot.Deleted? && ikey.seqno <= smallestSnapshot && isBase(ikey.key)) {
          drop := true;
        }
        ScanStep(input, i, smallestSnapshot, isBase, lastSequenceForKey);
        lastSequenceForKey := ikey.seqno;
        if !drop {
          starts := AddKept(ikey, i, stopBefore, full, places, starts);
        }
        i := i + 1;
      }
      if open {
        Finish();
      }
    }
  }

  /** The files written by the loop carry the meaning of its inputs: for the entries in the
      compacted files, the merge of shallower, compacted and deeper entries reads the same.
   */
  lemma MergeOutputPreservesMeaning(shallow: set<Entry>, input: seq<Entry>, deep: set<Entry>,
                                    oldest: nat, isBase: Key -> bool)
    requires Sorted(input) && Unique(shallow + Elements(input) + deep)
    requires AllNewer(shallow, Elements(input)) && AllNewer(Elements(input), deep)
    requires BaseIsSound(Elements(input), deep, isBase)
    requires oldest < MAX_SEQUENCE_NUMBER
    requires forall i :: 0 <= i < |input| ==> input[i].seqno <= MAX_SEQUENCE_NUMBER
    ensures var output := Elements(ScanKept(input, |input|, oldest, isBase));
      && output == Kept(Elements(input), oldest, isBase)
      && Agree(shallow + Elements(input) + deep, shallow + output + deep, oldest)
  {
    ScanKeepsExactly(input, |input|, oldest, isBase);
    KeptSeqElements(input, |input|, oldest, isBase);
    assert input[..|input|] == input;
    CompactionPreservesMeaning(shallow, Elements(input), deep, oldest, isBase);
  }

  // The horizon cannot be lowered: below the oldest snapshot a hidden entry may be the answer.
  lemma HorizonIsTight(oldest: nat, isBase: Key -> bool, k: Key, v: Value, w: Value)
    requires oldest >= 2 && v != w
    ensures var es := {Entry(k, oldest - 1, Present(v)), Entry(k, oldest, Present(w))};
            && Lookup(es, k, oldest - 1) == Some(v)
            && Lookup(Kept(es, oldest, isBase), k, oldest - 1) == None
  {
    var old_, new_ := Entry(k, oldest - 1, Present(v)), Entry(k, oldest, Present(w));
    var es := {old_, new_};
    assert Newest(es, k, oldest - 1, old_);
    LookupNewest(es, k, oldest - 1, old_);
    assert Hidden(es, old_, oldest);
  }
}
