/** Which files a compaction takes, and for which keys it may drop deletion markers.

    Module Store takes both from contracts of the version set; here they are proved of the searches that the version set
    does, with the exact condition where they fail.
 */
module CompactionInputs {
  import opened Compaction
  import opened Entries
  import opened VersionFiles
  import opened Wrappers
  import B = StoreBackground
  import I = StoreInvariant
  import S = Store

  // ------------------------------------------------------------------ the files that overlap a range

  function Overlapping(files: seq<File>, n: nat, begin: Option<Key>, end: Option<Key>): seq<File>
    requires n <= |files|
  {
    if n == 0 then []
    else Overlapping(files, n - 1, begin, end) + if Overlaps(files[n - 1], begin, end) then [files[n - 1]] else []
  }

  lemma {:induction false} OverlappingHas(files: seq<File>, n: nat, begin: Option<Key>, end: Option<Key>)
    requires n <= |files|
    ensures forall f :: f in Overlapping(files, n, begin, end) <==> f in files[..n] && Overlaps(f, begin, end)
  {
    if n > 0 {
      OverlappingHas(files, n - 1, begin, end);
      assert files[..n] == files[..n - 1] + [files[n - 1]];
    }
  }

  predicate Inside(f: File, begin: Option<Key>, end: Option<Key>) {
    (begin.Some? ==> begin.value <= f.smallest.key) && (end.Some? ==> f.largest.key <= end.value)
  }

  // Files that reach into the range lie inside it.
  ghost predicate Closed(files: seq<File>, begin: Option<Key>, end: Option<Key>) {
    forall f :: f in files && Overlaps(f, begin, end) ==> Inside(f, begin, end)
  }

  ghost predicate Covers(begin: Option<Key>, end: Option<Key>, begin': Option<Key>, end': Option<Key>) {
    && (begin.Some? ==> begin'.Some? && begin.value <= begin'.value)
    && (end.Some? ==> end'.Some? && end'.value <= end.value)
  }

  // How many ends of files stick out of the range.
  function Sticking(files: seq<File>, n: nat, begin: Option<Key>, end: Option<Key>): nat
    requires n <= |files|
  {
    if n == 0 then 0
    else
      Sticking(files, n - 1, begin, end)
      + (if begin.Some? && files[n - 1].smallest.key < begin.value then 1 else 0)
      + (if end.Some? && files[n - 1].largest.key > end.value then 1 else 0)
  }

  lemma {:induction false} StickingLess(files: seq<File>, n: nat, begin: Option<Key>,
                                        end: Option<Key>, begin': Option<Key>,
                                        end': Option<Key>)
    requires n <= |files| && Covers(begin', end', begin, end) && begin'.Some? == begin.Some? && end'.Some? == end.Some?
    ensures Sticking(files, n, begin', end') <= Sticking(files, n, begin, end)
    ensures forall i :: 0 <= i < n && ((begin.Some? && begin'.value <= files[i].smallest.key < begin.value) ||
                                       (end.Some? && end.value < files[i].largest.key <= end'.value)) ==>
              Sticking(files, n, begin', end') < Sticking(files, n, begin, end)
  {
    if n > 0 {
      StickingLess(files, n - 1, begin, end, begin', end');
    }
  }

  // Whatever closed range covers [begin, end] covers [lo, hi] too.
  ghost predicate InEveryClosed(files: seq<File>, begin: Option<Key>, end: Option<Key>,
                                lo: Option<Key>, hi: Option<Key>) {
    forall b, e :: Covers(b, e, begin, end) && Closed(files, b, e) ==> Covers(b, e, lo, hi)
  }

  lemma Grows(files: seq<File>, begin: Option<Key>, end: Option<Key>, lo: Option<Key>, hi: Option<Key>, f: File)
    requires InEveryClosed(files, begin, end, lo, hi) && f in files && Overlaps(f, lo, hi)
    ensures lo.Some? && f.smallest.key < lo.value ==> InEveryClosed(files, begin, end, Some(f.smallest.key), hi)
    ensures hi.Some? && f.largest.key > hi.value ==> InEveryClosed(files, begin, end, lo, Some(f.largest.key))
  {
    forall b, e | Covers(b, e, begin, end) && Closed(files, b, e)
      ensures Covers(b, e, lo, hi) && Inside(f, b, e)
    {
      assert Overlaps(f, b, e);
    }
  }

  /** The files of a level that overlap the range.  On level 0, where files overlap each other, the range grows to the
      least one that no file sticks out of.
   */
  method GetOverlappingInputs(files: seq<File>, level0: bool, begin: Option<Key>, end: Option<Key>)
    returns (inputs: seq<File>, ghost userBegin: Option<Key>, ghost userEnd: Option<Key>)
    ensures inputs == Overlapping(files, |files|, userBegin, userEnd) && Covers(userBegin, userEnd, begin, end)
    ensures !level0 ==> userBegin == begin && userEnd == end
    ensures level0 ==> Closed(files, userBegin, userEnd)
    ensures InEveryClosed(files, begin, end, userBegin, userEnd)
  {
    var lo, hi := begin, end;
    inputs := [];
    var i := 0;
    while i < |files|
      invariant i <= |files| && inputs == Overlapping(files, i, lo, hi)
      invariant Covers(lo, hi, begin, end) && lo.Some? == begin.Some? && hi.Some? == end.Some?
      invariant !level0 ==> lo == begin && hi == end
      invariant level0 ==> forall j :: 0 <= j < i && Overlaps(files[j], lo, hi) ==> Inside(files[j], lo, hi)
      invariant InEveryClosed(files, begin, end, lo, hi)
      decreases Sticking(files, |files|, lo, hi), |files| - i
    {
      var f := files[i];
      i := i + 1;
      if lo.Some? && f.largest.key < lo.value {
        // The file lies before the range
      } else if hi.Some? && f.smallest.key > hi.value {
        // The file lies behind the range
      } else {
        inputs := inputs + [f];
        if level0 {
          if lo.Some? && f.smallest.key < lo.value {
            StickingLess(files, |files|, lo, hi, Some(f.smallest.key), hi);
            Grows(files, begin, end, lo, hi, f);
            lo := Some(f.smallest.key);
            inputs, i := [], 0;
          } else if hi.Some? && f.largest.key > hi.value {
            StickingLess(files, |files|, lo, hi, lo, Some(f.largest.key));
            Grows(files, begin, end, lo, hi, f);
            hi := Some(f.largest.key);
            inputs, i := [], 0;
          }
        }
      }
    }
    userBegin, userEnd := lo, hi;
  }

  // ------------------------------------------------------------------ a user key split over two files

  ghost predicate IsLargest(files: seq<File>, key: Entry) {
    (exists f :: f in files && f.largest == key) && forall f :: f in files ==> !InternalLess(key, f.largest)
  }

  method FindLargestKey(files: seq<File>) returns (largest: Option<Entry>)
    ensures largest.None? <==> files == []
    ensures largest.Some? ==> IsLargest(files, largest.value)
  {
    if files == [] {
      return None;
    }
    var key := files[0].largest;
    for i := 1 to |files|
      invariant IsLargest(files[..i], key)
    {
      assert files[..i + 1] == files[..i] + [files[i]];
      if InternalLess(key, files[i].largest) {
        key := files[i].largest;
      }
    }
    assert files[..|files|] == files;
    return Some(key);
  }

  // A file that goes on with the user key of the largest key.
  predicate IsBoundary(f: File, largest: Entry) {
    InternalLess(largest, f.smallest) && f.smallest.key == largest.key
  }

  method FindSmallestBoundaryFile(levelFiles: seq<File>, largest: Entry) returns (found: Option<File>)
    ensures found.None? ==> forall f :: f in levelFiles ==> !IsBoundary(f, largest)
    ensures found.Some? ==> found.value in levelFiles && IsBoundary(found.value, largest)
    ensures found.Some? ==> forall f :: f in levelFiles && IsBoundary(f, largest) ==>
                                          !InternalLess(f.smallest, found.value.smallest)
  {
    found := None;
    for i := 0 to |levelFiles|
      invariant found.None? ==> forall j :: 0 <= j < i ==> !IsBoundary(levelFiles[j], largest)
      invariant found.Some? ==> found.value in levelFiles && IsBoundary(found.value, largest)
      invariant found.Some? ==> forall j :: 0 <= j < i && IsBoundary(levelFiles[j], largest) ==>
                                              !InternalLess(levelFiles[j].smallest, found.value.smallest)
    {
      var f := levelFiles[i];
      if IsBoundary(f, largest) {
        if found.None? || InternalLess(f.smallest, found.value.smallest) {
          found := Some(f);
        }
      }
    }
  }

  // Between two of the files every file of the level is among them.
  ghost predicate Unbroken(files: seq<File>, some: seq<File>) {
    forall i, j, k :: 0 <= i < j < k < |files| && files[i] in some && files[k] in some ==> files[j] in some
  }

  ghost function Behind(levelFiles: seq<File>, key: Entry): set<File> {
    set f | f in levelFiles && InternalLess(key, f.largest)
  }

  // The first of the files that go on with the last user key of some.
  ghost predicate GoesOnFirst(files: seq<File>, some: seq<File>, f: File) {
    exists key :: IsLargest(some, key) && IsBoundary(f, key) &&
                  forall g :: g in files && IsBoundary(g, key) ==> !InternalLess(g.smallest, f.smallest)
  }

  ghost predicate NoneGoesOn(files: seq<File>, some: seq<File>) {
    exists key :: IsLargest(some, key) && forall f :: f in files ==> !IsBoundary(f, key)
  }

  // Each file added is the first that goes on with those before it, until none does.
  ghost predicate AddsBoundaries(files: seq<File>, inputs: seq<File>, more: seq<File>) {
    && inputs <= more
    && (forall i :: |inputs| <= i < |more| ==> GoesOnFirst(files, more[..i], more[i]))
    && (inputs != [] ==> NoneGoesOn(files, more))
  }

  /** Adds the files that go on with the last user key of the inputs, one after the other, and no others. */
  method AddBoundaryInputs(levelFiles: seq<File>, inputs: seq<File>, ghost disjoint: bool) returns (more: seq<File>)
    requires LevelOk(levelFiles, disjoint) && forall f :: f in inputs ==> f in levelFiles
    ensures AddsBoundaries(levelFiles, inputs, more) && forall f :: f in more ==> f in levelFiles
    ensures disjoint && Unbroken(levelFiles, inputs) ==> Unbroken(levelFiles, more)
  {
    hide Disjoint, Unbroken, GoesOnFirst;
    more := inputs;
    var largest := FindLargestKey(inputs);
    if largest.None? {
      return;
    }
    var key := largest.value;
    var searching := true;
    while searching
      invariant inputs <= more && IsLargest(more, key) && forall f :: f in more ==> f in levelFiles
      invariant forall i :: |inputs| <= i < |more| ==> GoesOnFirst(levelFiles, more[..i], more[i])
      invariant !searching ==> forall f :: f in levelFiles ==> !IsBoundary(f, key)
      invariant disjoint && Unbroken(levelFiles, inputs) ==> Unbroken(levelFiles, more)
      decreases Behind(levelFiles, key), searching
    {
      var found := FindSmallestBoundaryFile(levelFiles, key);
      if found.Some? {
        BoundaryNext(levelFiles, disjoint, more, key, found.value);
        ghost var before := more;
        more := more + [found.value];
        assert forall i :: 0 <= i <= |before| ==> more[..i] == before[..i];
        key := found.value.largest;
      } else {
        searching := false;
      }
    }
  }

  lemma BoundaryNext(files: seq<File>, disjoint: bool, some: seq<File>, key: Entry, f: File)
    requires LevelOk(files, disjoint) && IsLargest(some, key) && f in files && IsBoundary(f, key)
    requires forall g :: g in files && IsBoundary(g, key) ==> !InternalLess(g.smallest, f.smallest)
    requires forall g :: g in some ==> g in files
    ensures IsLargest(some + [f], f.largest) && Behind(files, f.largest) < Behind(files, key)
    ensures GoesOnFirst(files, some, f)
    ensures disjoint && Unbroken(files, some) ==> Unbroken(files, some + [f])
  {
    InRange(f, f.largest);
    assert f in Behind(files, key) && f !in Behind(files, f.largest);
    if disjoint && Unbroken(files, some) {
      forall i, j, k | 0 <= i < j < k < |files| && files[i] in some + [f] && files[k] in some + [f]
        ensures files[j] in some + [f]
      {
        NextInLine(files, some, key, f, i, j, k);
      }
    }
  }

  lemma NextInLine(files: seq<File>, some: seq<File>, key: Entry, f: File, i: nat, j: nat, k: nat)
    requires LevelOk(files, true) && IsLargest(some, key) && f in files && IsBoundary(f, key) && Unbroken(files, some)
    requires forall g :: g in files && IsBoundary(g, key) ==> !InternalLess(g.smallest, f.smallest)
    requires forall g :: g in some ==> g in files
    requires i < j < k < |files| && files[i] in some + [f] && files[k] in some + [f]
    ensures files[j] in some + [f]
  {
    var m :| m in some && m.largest == key;
    var x :| 0 <= x < |files| && files[x] == m;
    InRange(files[i], files[i].smallest);
    InRange(files[j], files[j].smallest);
    InRange(files[k], files[k].smallest);
  }

  // ------------------------------------------------------------------ what stays behind

  // Files that are not taken have only newer entries of the keys.
  ghost predicate RestNewer(files: seq<File>, some: seq<File>, es: set<Entry>) {
    forall g, e, x :: g in files && g !in some && e in g.entries && x in es && e.key == x.key ==> e.seqno > x.seqno
  }

  lemma RestTables(files: seq<File>, disjoint: bool, some: seq<File>, es: set<Entry>)
    requires LevelOk(files, disjoint) && forall f :: f in some ==> f in files
    ensures Tables(some) <= Tables(files)
    ensures AllNewer(S.TableEntries(Tables(files) - Tables(some)), es) <==> RestNewer(files, some, es)
  {
    forall g | g in files && g !in some ensures TableOf(g) in Tables(files) - Tables(some) {
      assert forall f :: f in some ==> f in files && f.number != g.number;
    }
    if AllNewer(S.TableEntries(Tables(files) - Tables(some)), es) {
      forall g, e | g in files && g !in some && e in g.entries
        ensures e in S.TableEntries(Tables(files) - Tables(some))
      {
        assert e in TableOf(g).entries;
      }
    }
  }

  // The last file taken and the next one share a user key.
  ghost predicate SplitBehind(files: seq<File>, some: seq<File>) {
    exists i :: 0 <= i < |files| - 1 && SplitAt(files, some, i)
  }

  ghost predicate SplitAt(files: seq<File>, some: seq<File>, i: nat)
    requires i + 1 < |files|
  {
    files[i] in some && files[i + 1] !in some && files[i].largest.key == files[i + 1].smallest.key
  }

  /** Older entries stay behind exactly when a user key is split between the last file taken and the next. */
  lemma SplitExactly(files: seq<File>, some: seq<File>)
    requires LevelOk(files, true) && Unbroken(files, some) && forall f :: f in some ==> f in files
    ensures RestNewer(files, some, EntriesOf(some)) <==> !SplitBehind(files, some)
  {
    hide LevelOk, SplitAt, Unbroken;
    if i :| 0 <= i < |files| - 1 && SplitAt(files, some, i) {
      SplitLeavesOlder(files, some, i);
    } else {
      forall g, e, f, x | g in files && g !in some && e in g.entries && f in some && x in f.entries && e.key == x.key
        ensures e.seqno > x.seqno
      {
        NothingOlder(files, some, g, e, f, x);
      }
    }
  }

  lemma SplitLeavesOlder(files: seq<File>, some: seq<File>, i: nat)
    requires LevelOk(files, true) && i + 1 < |files| && SplitAt(files, some, i)
    ensures !RestNewer(files, some, EntriesOf(some))
  {
    var last, first := files[i].largest, files[i + 1].smallest;
    assert FileOk(files[i]) && FileOk(files[i + 1]) && InternalLess(last, first);
    assert last in files[i].entries && first in files[i + 1].entries;
    assert last in EntriesOf(some);
  }

  lemma NothingOlder(files: seq<File>, some: seq<File>, g: File, e: Entry, f: File, x: Entry)
    requires LevelOk(files, true) && Unbroken(files, some) && !SplitBehind(files, some)
    requires g in files && g !in some && e in g.entries && f in files && f in some && x in f.entries && e.key == x.key
    ensures e.seqno > x.seqno
  {
    var i :| 0 <= i < |files| && files[i] == f;
    var j :| 0 <= j < |files| && files[j] == g;
    InRange(f, x);
    InRange(g, e);
    if i < j {
      LastTaken(files, some, i, j);
    }
  }

  // Behind the last file taken a new user key begins.
  lemma {:induction false} LastTaken(files: seq<File>, some: seq<File>, i: nat, j: nat)
    requires LevelOk(files, true) && Unbroken(files, some) && !SplitBehind(files, some)
    requires i < j < |files| && files[i] in some && files[j] !in some
    ensures files[i].largest.key < files[j].smallest.key
    decreases j - i
  {
    InRange(files[i], files[i].largest);
    InRange(files[i + 1], files[i + 1].largest);
    assert InternalLess(files[i].largest, files[i + 1].smallest);
    if files[i + 1] in some {
      LastTaken(files, some, i + 1, j);
    } else {
      assert !SplitAt(files, some, i);
      assert i + 1 < j ==> InternalLess(files[i + 1].largest, files[j].smallest);
    }
  }

  lemma OverlapBetween(files: seq<File>, begin: Option<Key>, end: Option<Key>, i: nat, j: nat, k: nat)
    requires LevelOk(files, true) && i < j < k < |files|
    requires Overlaps(files[i], begin, end) && Overlaps(files[k], begin, end)
    ensures Overlaps(files[j], begin, end)
  {
    InRange(files[j], files[j].largest);
    assert InternalLess(files[i].largest, files[j].smallest) && InternalLess(files[j].largest, files[k].smallest);
  }

  lemma OverlappingUnbroken(files: seq<File>, begin: Option<Key>, end: Option<Key>)
    requires LevelOk(files, true)
    ensures Unbroken(files, Overlapping(files, |files|, begin, end))
  {
    hide LevelOk, Overlaps;
    OverlappingHas(files, |files|, begin, end);
    assert files[..|files|] == files;
    forall i, j, k | 0 <= i < j < k < |files| && Overlaps(files[i], begin, end) && Overlaps(files[k], begin, end)
      ensures Overlaps(files[j], begin, end)
    {
      OverlapBetween(files, begin, end, i, j, k);
    }
  }

  // How the files of a level are picked at first: on level 0 all that overlap a closed range, else a stretch of them.
  ghost predicate Picked(files: seq<File>, level0: bool, some: seq<File>) {
    && (forall f :: f in some ==> f in files)
    && if level0 then exists b, e :: Closed(files, b, e) && IsOverlap(files, b, e, some) else Unbroken(files, some)
  }

  ghost predicate IsOverlap(files: seq<File>, begin: Option<Key>, end: Option<Key>, some: seq<File>) {
    forall f :: f in some <==> f in files && Overlaps(f, begin, end)
  }

  // And then no file goes on with their last user key.
  ghost predicate PickedWhole(files: seq<File>, level0: bool, some: seq<File>) {
    Picked(files, level0, some) && some != [] && NoneGoesOn(files, some)
  }

  lemma WholeNotSplit(files: seq<File>, some: seq<File>, i: nat)
    requires LevelOk(files, true) && PickedWhole(files, false, some) && i + 1 < |files|
    ensures !SplitAt(files, some, i)
  {
    var key :| IsLargest(some, key) && forall f :: f in files ==> !IsBoundary(f, key);
    var m :| m in some && m.largest == key;
    var x :| 0 <= x < |files| && files[x] == m;
    InRange(files[x], files[x].largest);
    InRange(files[i], files[i].largest);
    if x == i {
      assert InternalLess(files[i].largest, files[i + 1].smallest) && !IsBoundary(files[i + 1], key);
    } else if x < i {
      assert InternalLess(files[x].largest, files[i].smallest);
    }
  }

  lemma WholeLeavesNewer(files: seq<File>, level0: bool, some: seq<File>)
    requires LevelOk(files, !level0) && PickedWhole(files, level0, some)
    ensures RestNewer(files, some, EntriesOf(some))
  {
    hide Disjoint, SplitAt, IsBoundary;
    if level0 {
      var b, e :| Closed(files, b, e) && IsOverlap(files, b, e, some);
      forall g, x, f, y | g in files && g !in some && x in g.entries && f in some && y in f.entries
          ensures x.key != y.key {
        InRange(g, x);
        InRange(f, y);
      }
    } else {
      forall i | 0 <= i < |files| - 1 ensures !SplitAt(files, some, i) {
        WholeNotSplit(files, some, i);
      }
      SplitExactly(files, some);
    }
  }

  // On level 0 a closed range has no boundary files outside.
  lemma NoBoundaryOutside(files: seq<File>, some: seq<File>, key: Entry, f: File)
    requires LevelOk(files, false) && Picked(files, true, some) && IsLargest(some, key) && f in files
    ensures !IsBoundary(f, key)
  {
    var b, e :| Closed(files, b, e) && IsOverlap(files, b, e, some);
    var m :| m in some && m.largest == key;
    InRange(m, m.largest);
    InRange(f, f.largest);
  }

  // ------------------------------------------------------------------ the inputs of a compaction

  // The user keys from the first to the last of the files.
  ghost predicate Spans(files: seq<File>, lo: Key, hi: Key) {
    && (forall f :: f in files ==> lo <= f.smallest.key && f.largest.key <= hi)
    && (exists f :: f in files && f.smallest.key == lo) && (exists f :: f in files && f.largest.key == hi)
  }

  // GetRange, of internal keys
  method GetRange(files: seq<File>) returns (smallest: Entry, largest: Entry)
    requires files != []
    ensures Spans(files, smallest.key, largest.key)
  {
    smallest, largest := files[0].smallest, files[0].largest;
    for i := 1 to |files|
      invariant Spans(files[..i], smallest.key, largest.key)
    {
      assert files[..i + 1] == files[..i] + [files[i]];
      if InternalLess(files[i].smallest, smallest) {
        smallest := files[i].smallest;
      }
      if InternalLess(largest, files[i].largest) {
        largest := files[i].largest;
      }
    }
    assert files[..|files|] == files;
  }

  // The files of the next level are those that overlap the range of the others.
  ghost predicate NextLevel(files: seq<File>, in0: seq<File>, in1: seq<File>) {
    exists lo, hi :: Spans(in0, lo, hi) && IsOverlap(files, Some(lo), Some(hi), in1)
  }

  // Files picked, with those that go on with their last user key; on level 0 there are none.
  method WithBoundary(files: seq<File>, level0: bool, some: seq<File>) returns (more: seq<File>)
    requires LevelOk(files, !level0) && Picked(files, level0, some) && some != []
    ensures PickedWhole(files, level0, more) && forall f :: f in some ==> f in more
    ensures AddsBoundaries(files, some, more)
  {
    hide Disjoint, LevelOk, Unbroken;
    more := AddBoundaryInputs(files, some, !level0);
    if level0 && |more| > |some| {
      assert GoesOnFirst(files, more[..|some|], more[|some|]) && more[..|some|] == some;
      ghost var key :| IsLargest(some, key) && IsBoundary(more[|some|], key);
      NoBoundaryOutside(files, some, key, more[|some|]);
      assert false;
    }
  }

  // The files that overlap the range, grown on level 0 to the least one that no file sticks out of.
  ghost predicate IsPick(files: seq<File>, level0: bool, begin: Key, end: Key, some: seq<File>) {
    exists b, e :: Covers(b, e, Some(begin), Some(end)) && some == Overlapping(files, |files|, b, e) &&
                   InEveryClosed(files, Some(begin), Some(end), b, e) &&
                   if level0 then Closed(files, b, e) else b == Some(begin) && e == Some(end)
  }

  method PickOverlapping(files: seq<File>, level0: bool, begin: Key, end: Key) returns (some: seq<File>)
    requires LevelOk(files, !level0)
    ensures IsPick(files, level0, begin, end, some) && Picked(files, level0, some)
    ensures forall f :: f in files && Overlaps(f, Some(begin), Some(end)) ==> f in some
    ensures !level0 ==> IsOverlap(files, Some(begin), Some(end), some)
  {
    hide LevelOk, Unbroken, Closed;
    ghost var b, e;
    some, b, e := GetOverlappingInputs(files, level0, Some(begin), Some(end));
    OverlappingHas(files, |files|, b, e);
    assert files[..|files|] == files;
    if !level0 {
      OverlappingUnbroken(files, b, e);
    }
  }

  // The files that overlap the user keys from the first to the last of some.
  ghost predicate PicksRange(files: seq<File>, level0: bool, some: seq<File>, more: seq<File>) {
    exists lo, hi :: Spans(some, lo, hi) && IsPick(files, level0, lo, hi, more)
  }

  // The files of the first level that overlap all the inputs, with those that go on with their last user key.
  ghost predicate Widened(files: seq<File>, level0: bool, inputs: seq<File>, wide: seq<File>) {
    exists some :: PicksRange(files, level0, inputs, some) && AddsBoundaries(files, some, wide)
  }

  /** The files of two levels that a compaction takes, from those picked on the first of them.  It leaves behind only
      newer entries of the keys it merges, exactly unless a user key is split behind the last file taken from the next.
      It takes more of the first level, wide0, exactly if that fits and brings in no more of the next.
   */
  method SetupOtherInputs(levels: seq<seq<File>>, level: nat, picked: seq<File>,
                          fits: (seq<File>, seq<File>) -> bool, ghost v: S.Version)
    returns (in0: seq<File>, in1: seq<File>, ghost least0: seq<File>, ghost wide0: seq<File>, ghost wide1: seq<File>)
    requires Lays(levels, v) && I.LevelsOrdered(v) && level + 1 < S.NUM_LEVELS
    requires picked != [] && Picked(levels[level], level == 0, picked)
    ensures PickedWhole(levels[level], level == 0, in0) && forall f :: f in picked ==> f in in0
    ensures NextLevel(levels[level + 1], in0, in1)
    ensures S.GoodInputs(v, level, Tables(in0), Tables(in1)) <==> !SplitBehind(levels[level + 1], in1)
    ensures AddsBoundaries(levels[level], picked, least0) && PicksRange(levels[level + 1], false, least0, in1)
    ensures in1 != [] ==> Widened(levels[level], level == 0, least0 + in1, wide0)
    ensures in1 != [] && |wide0| > |least0| && fits(wide0, in1) ==> PicksRange(levels[level + 1], false, wide0, wide1)
    ensures in0 == if in1 != [] && |wide0| > |least0| && fits(wide0, in1) && |wide1| == |in1| then wide0 else least0
  {
    hide LevelOk, Picked, PickedWhole, Spans, I.LevelsOrdered, S.GoodInputs, SplitBehind, AddsBoundaries, IsPick;
    wide0, wide1 := [], [];
    in0 := WithBoundary(levels[level], level == 0, picked);
    least0 := in0;
    PickedParts(levels[level], level == 0, in0);
    var smallest, largest := GetRange(in0);
    in1 := PickOverlapping(levels[level + 1], false, smallest.key, largest.key);
    if in1 != [] {
      // Can more files of the level be merged with the same files of the next level?
      var allStart, allLimit := GetRange(in0 + in1);
      var expanded0 := PickOverlapping(levels[level], level == 0, allStart.key, allLimit.key);
      RangeOverlaps(levels[level], level == 0, in0, in0 + in1, allStart.key, allLimit.key);
      expanded0 := WithBoundary(levels[level], level == 0, expanded0);
      wide0 := expanded0;
      if |expanded0| > |in0| && fits(expanded0, in1) {
        var newStart, newLimit := GetRange(expanded0);
        var expanded1 := PickOverlapping(levels[level + 1], false, newStart.key, newLimit.key);
        wide1 := expanded1;
        if |expanded1| == |in1| {
          SameFiles(levels[level + 1], in0, expanded0, in1, expanded1);
          in0, in1 := expanded0, expanded1;
        }
      }
    }
    InputsAreGood(levels, level, in0, in1, v);
  }

  // As many files for more keys are the same files.
  lemma SameFiles(files: seq<File>, in0: seq<File>, wide0: seq<File>, in1: seq<File>, wide1: seq<File>)
    requires PicksRange(files, false, in0, in1) && PicksRange(files, false, wide0, wide1) && |in1| == |wide1|
    requires forall f :: f in in0 ==> f in wide0
    ensures in1 == wide1
  {
    var lo, hi :| Spans(in0, lo, hi) && IsPick(files, false, lo, hi, in1);
    var lo', hi' :| Spans(wide0, lo', hi') && IsPick(files, false, lo', hi', wide1);
    MoreOverlap(files, |files|, Some(lo), Some(hi), Some(lo'), Some(hi'));
  }

  lemma {:induction false} MoreOverlap(files: seq<File>, n: nat, begin: Option<Key>, end: Option<Key>,
                                       begin': Option<Key>, end': Option<Key>)
    requires n <= |files| && Covers(begin', end', begin, end)
    ensures |Overlapping(files, n, begin, end)| <= |Overlapping(files, n, begin', end')|
    ensures |Overlapping(files, n, begin, end)| == |Overlapping(files, n, begin', end')| ==>
              Overlapping(files, n, begin, end) == Overlapping(files, n, begin', end')
  {
    if n > 0 {
      MoreOverlap(files, n - 1, begin, end, begin', end');
    }
  }

  lemma PickedParts(files: seq<File>, level0: bool, some: seq<File>)
    requires PickedWhole(files, level0, some)
    ensures some != [] && forall f :: f in some ==> f in files
  {
  }

  lemma RangeOverlaps(files: seq<File>, level0: bool, some: seq<File>, all: seq<File>, lo: Key, hi: Key)
    requires LevelOk(files, !level0) && Spans(all, lo, hi)
    requires forall f :: f in some ==> f in files && f in all
    ensures forall f :: f in some ==> Overlaps(f, Some(lo), Some(hi))
  {
    forall f | f in some ensures Overlaps(f, Some(lo), Some(hi)) {
      InRange(f, f.largest);
    }
  }

  lemma InputsAreGood(levels: seq<seq<File>>, level: nat, in0: seq<File>, in1: seq<File>, v: S.Version)
    requires Lays(levels, v) && I.LevelsOrdered(v) && level + 1 < S.NUM_LEVELS
    requires PickedWhole(levels[level], level == 0, in0) && NextLevel(levels[level + 1], in0, in1)
    ensures S.GoodInputs(v, level, Tables(in0), Tables(in1)) <==> !SplitBehind(levels[level + 1], in1)
  {
    hide LevelOk, PickedWhole, NextLevel, SplitBehind, AllNewer, RestNewer, I.LevelsOrdered, S.TableEntries, EntriesOf,
      Tables;
    var files0, files1 := levels[level], levels[level + 1];
    var es := S.TableEntries(Tables(in0) + Tables(in1));
    PickedParts(files0, level == 0, in0);
    NextLevelParts(files1, in0, in1);
    AllFilesOk(files0, level != 0);
    BothEntries(in0, in1);
    RestTables(files0, level != 0, in0, es);
    RestTables(files1, true, in1, es);
    Level0Side(levels, level, in0, in1, v);
    Level1Side(files1, in0, in1);
  }

  lemma AllFilesOk(files: seq<File>, disjoint: bool)
    requires LevelOk(files, disjoint)
    ensures forall f :: f in files ==> FileOk(f)
  {
  }

  lemma NextLevelParts(files: seq<File>, in0: seq<File>, in1: seq<File>)
    requires NextLevel(files, in0, in1)
    ensures forall f :: f in in1 ==> f in files
  {
  }

  lemma BothEntries(in0: seq<File>, in1: seq<File>)
    ensures S.TableEntries(Tables(in0) + Tables(in1)) == EntriesOf(in0) + EntriesOf(in1)
  {
    EntriesOfTables(in0);
    EntriesOfTables(in1);
  }

  // What stays on the first level is newer than what is taken there, and than all of the next level.
  lemma Level0Side(levels: seq<seq<File>>, level: nat, in0: seq<File>, in1: seq<File>, v: S.Version)
    requires Lays(levels, v) && I.LevelsOrdered(v) && level + 1 < S.NUM_LEVELS
    requires PickedWhole(levels[level], level == 0, in0) && forall f :: f in in1 ==> f in levels[level + 1]
    ensures RestNewer(levels[level], in0, EntriesOf(in0) + EntriesOf(in1))
  {
    hide LevelOk, PickedWhole, I.LevelsOrdered, Tables, S.TableEntries, AllNewer;
    WholeLeavesNewer(levels[level], level == 0, in0);
    EntriesOfTables(levels[level]);
    EntriesOfTables(levels[level + 1]);
    TwoLevels(v, level);
    NextIsOlder(levels[level], levels[level + 1], in0, in1);
  }

  lemma TwoLevels(v: S.Version, level: nat)
    requires I.LevelsOrdered(v) && level + 1 < S.NUM_LEVELS
    ensures AllNewer(S.TableEntries(v[level]), S.TableEntries(v[level + 1]))
  {
    hide S.TableEntries, AllNewer, S.NewestHighest;
  }

  lemma NextIsOlder(files: seq<File>, next: seq<File>, in0: seq<File>, in1: seq<File>)
    requires AllNewer(EntriesOf(files), EntriesOf(next)) && forall f :: f in in1 ==> f in next
    ensures RestNewer(files, in0, EntriesOf(in1))
  {
  }

  // What stays on the next level has no key of the range of in0.
  lemma Level1Side(files: seq<File>, in0: seq<File>, in1: seq<File>)
    requires LevelOk(files, true) && NextLevel(files, in0, in1) && (forall f :: f in in0 ==> FileOk(f))
    ensures RestNewer(files, in1, EntriesOf(in0) + EntriesOf(in1)) <==> !SplitBehind(files, in1)
  {
    hide Disjoint, SplitBehind, Unbroken, FileOk, Spans;
    var lo, hi :| Spans(in0, lo, hi) && IsOverlap(files, Some(lo), Some(hi), in1);
    OverlapUnbroken(files, lo, hi, in1);
    SplitExactly(files, in1);
    OutOfRange(files, in0, in1, lo, hi);
  }

  lemma OutOfRange(files: seq<File>, in0: seq<File>, in1: seq<File>, lo: Key, hi: Key)
    requires (forall f :: f in files ==> FileOk(f)) && (forall f :: f in in0 ==> FileOk(f))
    requires Spans(in0, lo, hi) && IsOverlap(files, Some(lo), Some(hi), in1)
    ensures RestNewer(files, in1, EntriesOf(in0))
  {
    hide FileOk, Spans;
    forall g, e, f, x | g in files && g !in in1 && e in g.entries && f in in0 && x in f.entries ensures e.key != x.key {
      KeysApart(g, e, f, x, in0, lo, hi);
    }
  }

  lemma KeysApart(g: File, e: Entry, f: File, x: Entry, some: seq<File>, lo: Key, hi: Key)
    requires FileOk(g) && FileOk(f) && e in g.entries && x in f.entries
    requires Spans(some, lo, hi) && f in some && !Overlaps(g, Some(lo), Some(hi))
    ensures e.key != x.key
  {
    InRange(g, e);
    InRange(f, x);
  }

  lemma OverlapUnbroken(files: seq<File>, lo: Key, hi: Key, some: seq<File>)
    requires LevelOk(files, true) && IsOverlap(files, Some(lo), Some(hi), some)
    ensures Unbroken(files, some)
  {
    OverlappingUnbroken(files, Some(lo), Some(hi));
    OverlappingHas(files, |files|, Some(lo), Some(hi));
    assert files[..|files|] == files;
  }

  // ------------------------------------------------------------------ dropping deletion markers

  // No file below the two levels of the compaction may have the key.
  predicate IsBase(levels: seq<seq<File>>, level: nat, k: Key) {
    forall i, f :: level + 2 <= i < |levels| && f in levels[i] ==> !HasKey(f, k)
  }

  /** IsBaseLevelForKey keeps a place in the files of every level, which only moves forward: the keys it is asked about
      ascend, as the merge loop meets them.
   */
  class BaseLevel {
    const levels: seq<seq<File>>
    const level: nat
    var levelPtrs: seq<nat>
    ghost var asked: Option<Key>

    // The files passed by end before the keys still to be asked about.
    ghost predicate Valid()
      reads this
    {
      && (forall i :: 0 <= i < |levels| ==> LevelOk(levels[i], i > 0))
      && |levelPtrs| == |levels|
      && forall i :: 0 <= i < |levels| ==> Passed(levels[i], levelPtrs[i], asked)
    }

    static ghost predicate Passed(files: seq<File>, n: nat, asked: Option<Key>) {
      n <= |files| && forall j :: 0 <= j < n ==> asked.Some? && files[j].largest.key < asked.value
    }

    // All files before a key are passed by, and no others.
    static ghost predicate Reached(files: seq<File>, n: nat, k: Key) {
      n <= |files| && (forall j :: 0 <= j < n ==> files[j].largest.key < k) &&
          (n < |files| ==> k <= files[n].largest.key)
    }

    // Level i is asked about a key: no level from the second below on answers before it.
    ghost predicate Asks(i: nat, k: Key) {
      level + 2 <= i && forall j, f :: level + 2 <= j < i && j < |levels| && f in levels[j] ==> !HasKey(f, k)
    }

    constructor (levels: seq<seq<File>>, level: nat)
      requires forall i :: 0 <= i < |levels| ==> LevelOk(levels[i], i > 0)
      ensures Valid() && this.levels == levels && this.level == level && asked == None
    {
      this.levels, this.level, levelPtrs, asked := levels, level, seq(|levels|, i => 0), None;
    }

    method IsBaseLevelForKey(k: Key) returns (base: bool)
      requires Valid() && (asked.Some? ==> asked.value <= k)
      modifies this
      ensures Valid() && asked == Some(k)
      ensures base <==> IsBase(levels, level, k)
      ensures forall i :: 0 <= i < |levels| ==>
                if Asks(i, k) then Reached(levels[i], levelPtrs[i], k) else levelPtrs[i] == old(levelPtrs[i])
    {
      hide LevelOk, HasKey;
      asked := Some(k);
      var lvl := level + 2;
      while lvl < |levels|
        invariant Valid() && asked == Some(k)
        invariant forall i, f :: level + 2 <= i < lvl && i < |levels| && f in levels[i] ==> !HasKey(f, k)
        invariant forall i :: level + 2 <= i < lvl && i < |levels| ==> Reached(levels[i], levelPtrs[i], k)
        invariant forall i :: 0 <= i < |levels| && !(level + 2 <= i < lvl) ==> levelPtrs[i] == old(levelPtrs[i])
      {
        var n, found := PassFiles(levels[lvl], levelPtrs[lvl], k);
        levelPtrs := levelPtrs[lvl := n];
        if found {
          assert levels[lvl][n] in levels[lvl];
          return false;
        }
        lvl := lvl + 1;
      }
      return true;
    }

    // Goes on to the first file that does not end before the key: does it have the key in its range?
    static method PassFiles(files: seq<File>, from: nat, k: Key) returns (n: nat, found: bool)
      requires LevelOk(files, true) && Passed(files, from, Some(k))
      ensures Reached(files, n, k) && Passed(files, n, Some(k)) && (found ==> n < |files| && HasKey(files[n], k))
      ensures !found ==> forall f :: f in files ==> !HasKey(f, k)
    {
      n := from;
      while n < |files|
        invariant Passed(files, n, Some(k))
      {
        if k <= files[n].largest.key {
          // Far enough
          EarlierEnd(files, n);
          return n, k >= files[n].smallest.key;
        }
        n := n + 1;
      }
      return n, false;
    }
  }

  lemma BaseIsGood(levels: seq<seq<File>>, level: nat, v: S.Version, es: set<Entry>)
    requires Lays(levels, v)
    ensures S.GoodBase(v, level, es, k => IsBase(levels, level, k))
  {
    forall i, e | level + 2 <= i < S.NUM_LEVELS && e in S.TableEntries(v[i]) ensures !IsBase(levels, level, e.key) {
      EntriesOfTables(levels[i]);
      var f :| f in levels[i] && e in f.entries;
      InRange(f, e);
      assert HasKey(f, e.key);
    }
  }

  // ------------------------------------------------------------------ a merge that leaves older entries behind

  // A file of the level behind one of those taken.
  ghost predicate Follows(g: File, some: seq<File>) {
    exists f :: f in some && InternalLess(f.largest, g.smallest)
  }

  ghost function LeftBehind(files: seq<File>, some: seq<File>): set<Entry> {
    set g, e | g in files && g !in some && Follows(g, some) && e in g.entries :: e
  }

  ghost function LeftBefore(files: seq<File>, some: seq<File>): set<Entry> {
    set g, e | g in files && g !in some && !Follows(g, some) && e in g.entries :: e
  }

  // What a merge does not touch and a read meets before what it merges.
  ghost function NotMerged(levels: seq<seq<File>>, level: nat, in0: seq<File>, in1: seq<File>, v: S.Version): set<Entry>
    requires level + 1 < |levels| && level < S.NUM_LEVELS
  {
    (set i, e | 0 <= i < level && e in S.TableEntries(v[i]) :: e) + S.TableEntries(v[level] - Tables(in0))
    + LeftBefore(levels[level + 1], in1)
  }

  // A merge of these files with the answers of IsBaseLevelForKey, and its output files.
  ghost predicate Merges(levels: seq<seq<File>>, level: nat, in0: seq<File>, in1: seq<File>, c: S.Merge) {
    && c.level == level && c.in0 == Tables(in0) && c.in1 == Tables(in1)
    && (forall k :: c.isBase(k) <==> IsBase(levels, level, k)) && S.TableEntries(c.outputs) == c.Output()
  }

  /** Installing the merge of the files that SetupOtherInputs takes leaves all reads at or above the oldest snapshot
      as they were exactly when no deletion marker that decides a read at the oldest snapshot is dropped while the
      next level keeps a value of its key in a file behind those taken.
   */
  lemma MergeKeepsExactly(levels: seq<seq<File>>, level: nat, in0: seq<File>, in1: seq<File>, v: S.Version, c: S.Merge)
    requires Lays(levels, v) && I.LevelsOrdered(v) && level + 1 < S.NUM_LEVELS
    requires PickedWhole(levels[level], level == 0, in0) && NextLevel(levels[level + 1], in0, in1)
    requires Merges(levels, level, in0, in1, c)
    ensures Agree(S.VersionEntries(v), S.VersionEntries(S.MergedVersion(v, c)), c.oldest) <==>
            forall e ::
              LastWord(NotMerged(levels, level, in0, in1, v), c.Inputs(), e, c.oldest) &&
                  IsBase(levels, level, e.key) ==>
                Lookup(LeftBehind(levels[level + 1], in1), e.key, c.oldest) == None
  {
    hide Agree, LastWord, Lookup, IsBase, NotMerged, LeftBehind, LevelOk, PickedWhole, NextLevel, S.VersionEntries,
      S.MergedVersion, I.LevelsOrdered, B.ShallowOf, B.DeepOf, S.TableEntries, AllNewer, Unique, Kept;
    var sh, es, bh, d := NotMerged(levels, level, in0, in1, v), c.Inputs(), LeftBehind(levels[level + 1], in1),
      B.DeepOf(v, c);
    MergeParts(levels, level, in0, in1, v, c);
    assert S.VersionEntries(v) == sh + es + (bh + d);
    assert S.VersionEntries(S.MergedVersion(v, c)) == sh + c.Output() + (bh + d);
    CompactionKeepsExactly(sh, es, bh + d, c.oldest, c.isBase);
    forall k | IsBase(levels, level, k) ensures Lookup(bh + d, k, c.oldest) == Lookup(bh, k, c.oldest) {
      OnlyBehind(levels, level, v, c, bh, k);
    }
  }

  lemma OnlyBehind(levels: seq<seq<File>>, level: nat, v: S.Version, c: S.Merge, bh: set<Entry>, k: Key)
    requires Lays(levels, v) && c.level == level && Unique(bh + B.DeepOf(v, c)) && IsBase(levels, level, k)
    ensures Lookup(bh + B.DeepOf(v, c), k, c.oldest) == Lookup(bh, k, c.oldest)
  {
    hide Lookup, LevelOk, IsBase, S.TableEntries;
    forall e | e in B.DeepOf(v, c) ensures e.key != k {
      var i :| level + 2 <= i < S.NUM_LEVELS && e in S.TableEntries(v[i]);
      NotInLevel(levels, level, v, i, e, k);
    }
    LookupLocal(bh + B.DeepOf(v, c), bh, k, c.oldest);
  }

  lemma NotInLevel(levels: seq<seq<File>>, level: nat, v: S.Version, i: nat, e: Entry, k: Key)
    requires Lays(levels, v) && IsBase(levels, level, k) && level + 2 <= i < S.NUM_LEVELS && e in S.TableEntries(v[i])
    ensures e.key != k
  {
    EntriesOfTables(levels[i]);
    var f :| f in levels[i] && e in f.entries;
    InRange(f, e);
    assert e.key == k ==> HasKey(f, k);
  }

  // A version, split at the files that are merged.
  lemma MergeParts(levels: seq<seq<File>>, level: nat, in0: seq<File>, in1: seq<File>, v: S.Version, c: S.Merge)
    requires Lays(levels, v) && I.LevelsOrdered(v) && level + 1 < S.NUM_LEVELS && Merges(levels, level, in0, in1, c)
    requires PickedWhole(levels[level], level == 0, in0) && NextLevel(levels[level + 1], in0, in1)
    ensures c.level + 1 < S.NUM_LEVELS
    ensures var sh, es, bh, d := NotMerged(levels, level, in0, in1, v), c.Inputs(), LeftBehind(levels[level + 1], in1),
              B.DeepOf(v, c);
            && S.VersionEntries(v) == sh + es + (bh + d)
            && S.VersionEntries(S.MergedVersion(v, c)) == sh + c.Output() + (bh + d)
            && AllNewer(sh, es) && AllNewer(es, bh + d) && Unique(sh + es + (bh + d)) && Unique(bh + d)
  {
    hide LevelOk, PickedWhole, NextLevel, LeftBehind, NotMerged, S.TableEntries, S.VersionEntries, I.LevelsOrdered,
      S.MergedVersion, AllNewer, Kept, EntriesOf, IsBase, B.ShallowOf, B.DeepOf, Tables;
    Taken(levels, level, in0, in1);
    RestTables(levels[level], level != 0, in0, {});
    RestTables(levels[level + 1], true, in1, {});
    BothEntries(in0, in1);
    B.SplitAtMerge(v, c);
    ShallowParts(levels, level, in0, in1, v, c);
    OneOfEach(levels, v);
    NotMergedNewer(levels, level, in0, in1, v, c);
    BeforeAndBehind(levels[level + 1], in0, in1);
    LevelsAround(levels, level, in0, in1, v, c);
    AllNewerBoth(c.Inputs(), LeftBehind(levels[level + 1], in1), B.DeepOf(v, c));
  }

  lemma AllNewerBoth(a: set<Entry>, b: set<Entry>, c: set<Entry>)
    ensures AllNewer(a, b) && AllNewer(a, c) ==> AllNewer(a, b + c)
    ensures AllNewer(a, c) && AllNewer(b, c) ==> AllNewer(a + b, c)
  {
  }

  lemma ShallowParts(levels: seq<seq<File>>, level: nat, in0: seq<File>, in1: seq<File>, v: S.Version, c: S.Merge)
    requires Lays(levels, v) && level + 1 < S.NUM_LEVELS && c.level == level
    requires c.in0 == Tables(in0) && c.in1 == Tables(in1) && forall f :: f in in1 ==> f in levels[level + 1]
    ensures B.ShallowOf(v, c) == NotMerged(levels, level, in0, in1, v) + LeftBehind(levels[level + 1], in1)
  {
    hide LevelOk, S.TableEntries, LeftBefore, LeftBehind, Tables;
    RestSplits(levels[level + 1], in1);
  }

  lemma NotMergedNewer(levels: seq<seq<File>>, level: nat, in0: seq<File>, in1: seq<File>, v: S.Version, c: S.Merge)
    requires Lays(levels, v) && I.LevelsOrdered(v) && level + 1 < S.NUM_LEVELS && Merges(levels, level, in0, in1, c)
    requires PickedWhole(levels[level], level == 0, in0) && NextLevel(levels[level + 1], in0, in1)
    ensures AllNewer(NotMerged(levels, level, in0, in1, v), EntriesOf(in0) + EntriesOf(in1))
  {
    hide LevelOk, PickedWhole, NextLevel, LeftBefore, S.TableEntries, I.LevelsOrdered, AllNewer, EntriesOf, Tables,
      IsBase,
      Kept, RestNewer;
    var es := EntriesOf(in0) + EntriesOf(in1);
    Taken(levels, level, in0, in1);
    RestTables(levels[level], level != 0, in0, es);
    Level0Side(levels, level, in0, in1, v);
    BeforeAndBehind(levels[level + 1], in0, in1);
    LevelsAround(levels, level, in0, in1, v, c);
    var above := set i, e | 0 <= i < level && e in S.TableEntries(v[i]) :: e;
    AllNewerBoth(above, S.TableEntries(v[level] - Tables(in0)), es);
    AllNewerBoth(above + S.TableEntries(v[level] - Tables(in0)), LeftBefore(levels[level + 1], in1), es);
  }

  lemma Taken(levels: seq<seq<File>>, level: nat, in0: seq<File>, in1: seq<File>)
    requires level + 1 < |levels| && PickedWhole(levels[level], level == 0, in0)
    requires NextLevel(levels[level + 1], in0, in1)
    requires forall i :: 0 <= i < |levels| ==> LevelOk(levels[i], i > 0)
    ensures forall f :: f in in0 ==> f in levels[level] && FileOk(f)
    ensures forall f :: f in in1 ==> f in levels[level + 1] && FileOk(f)
  {
  }

  lemma RestSplits(files: seq<File>, some: seq<File>)
    requires LevelOk(files, true) && forall f :: f in some ==> f in files
    ensures S.TableEntries(Tables(files) - Tables(some)) == LeftBefore(files, some) + LeftBehind(files, some)
  {
    forall g, e | g in files && g !in some && e in g.entries ensures e in S.TableEntries(Tables(files) - Tables(some)) {
      assert forall f :: f in some ==> f in files && f.number != g.number;
      assert TableOf(g) in Tables(files) - Tables(some) && e in TableOf(g).entries;
    }
    forall e | e in S.TableEntries(Tables(files) - Tables(some))
      ensures exists g :: g in files && g !in some && e in g.entries
    {
      var t :| t in Tables(files) - Tables(some) && e in t.entries;
      var g :| g in files && TableOf(g) == t;
      assert g !in some;
    }
  }

  lemma BeforeAndBehind(files: seq<File>, in0: seq<File>, in1: seq<File>)
    requires LevelOk(files, true) && NextLevel(files, in0, in1) && (forall f :: f in in0 ==> FileOk(f))
    ensures AllNewer(LeftBefore(files, in1), EntriesOf(in0) + EntriesOf(in1))
    ensures AllNewer(EntriesOf(in0) + EntriesOf(in1), LeftBehind(files, in1))
  {
    hide Disjoint, Unbroken, FileOk, Spans, Follows;
    var lo, hi :| Spans(in0, lo, hi) && IsOverlap(files, Some(lo), Some(hi), in1);
    OverlapUnbroken(files, lo, hi, in1);
    forall g, e, f, x | g in files && g !in in1 && e in g.entries && f in in0 && x in f.entries ensures e.key != x.key {
      KeysApart(g, e, f, x, in0, lo, hi);
    }
    forall g, e, f, x | g in files && g !in in1 && e in g.entries && f in in1 && x in f.entries && e.key == x.key
      ensures if Follows(g, in1) then e.seqno < x.seqno else e.seqno > x.seqno
    {
      SideOf(files, in1, g, e, f, x);
    }
  }

  lemma SideOf(files: seq<File>, some: seq<File>, g: File, e: Entry, f: File, x: Entry)
    requires LevelOk(files, true) && Unbroken(files, some) && forall f :: f in some ==> f in files
    requires g in files && g !in some && e in g.entries && f in some && x in f.entries && e.key == x.key
    ensures if Follows(g, some) then e.seqno < x.seqno else e.seqno > x.seqno
  {
    var i :| 0 <= i < |files| && files[i] == f;
    var j :| 0 <= j < |files| && files[j] == g;
    InRange(f, x);
    InRange(g, e);
    if Follows(g, some) {
      var h :| h in some && InternalLess(h.largest, g.smallest);
      var m :| 0 <= m < |files| && files[m] == h;
      ComesFirst(files, m, j);
    }
  }

  lemma ComesFirst(files: seq<File>, i: nat, j: nat)
    requires LevelOk(files, true) && i < |files| && j < |files| && InternalLess(files[i].largest, files[j].smallest)
    ensures i < j
  {
    InRange(files[i], files[i].largest);
    InRange(files[j], files[j].largest);
  }

  lemma LevelsAround(levels: seq<seq<File>>, level: nat, in0: seq<File>, in1: seq<File>, v: S.Version, c: S.Merge)
    requires Lays(levels, v) && I.LevelsOrdered(v) && level + 1 < S.NUM_LEVELS && c.level == level
    requires forall f :: f in in0 ==> f in levels[level]
    requires forall f :: f in in1 ==> f in levels[level + 1]
    ensures AllNewer(EntriesOf(in0) + EntriesOf(in1), B.DeepOf(v, c))
    ensures AllNewer(set i, e | 0 <= i < level && e in S.TableEntries(v[i]) :: e, EntriesOf(in0) + EntriesOf(in1))
  {
    hide LevelOk, S.TableEntries, S.NewestHighest;
    EntriesOfTables(levels[level]);
    EntriesOfTables(levels[level + 1]);
    assert EntriesOf(in0) <= S.TableEntries(v[level]) && EntriesOf(in1) <= S.TableEntries(v[level + 1]);
  }

  // Level 1 has key 1.  Level 2 has key 1 and the deletion of key 2 in one file, an older value of key 2 in the next.
  function Upper(w: Value): File {
    Output(7, Entry(1, 9, Present(w)), Entry(1, 9, Present(w)), [Entry(1, 9, Present(w))])
  }

  function Lower(w: Value): File {
    Output(5, Entry(1, 3, Present(w)), Entry(2, 6, Deleted), [Entry(1, 3, Present(w)), Entry(2, 6, Deleted)])
  }

  function Next(x: Value): File {
    Output(6, Entry(2, 4, Present(x)), Entry(2, 4, Present(x)), [Entry(2, 4, Present(x))])
  }

  function SplitLevels(w: Value, x: Value): seq<seq<File>> {
    [[], [Upper(w)], [Lower(w), Next(x)], [], [], [], []]
  }

  ghost function VersionOf(levels: seq<seq<File>>): S.Version
    requires |levels| == S.NUM_LEVELS
  {
    seq(S.NUM_LEVELS, i requires 0 <= i < S.NUM_LEVELS => Tables(levels[i]))
  }

  ghost function MergeOf(levels: seq<seq<File>>, level: nat, in0: seq<File>, in1: seq<File>, oldest: nat, number: nat):
    S.Merge
  {
    var isBase := k => IsBase(levels, level, k);
    var kept := Kept(S.TableEntries(Tables(in0) + Tables(in1)), oldest, isBase);
    S.Merge(level, Tables(in0), Tables(in1), oldest, isBase, {S.Table(number, kept)})
  }

  lemma OneTable(t: S.Table)
    ensures S.TableEntries({t}) == t.entries
  {
  }

  lemma SplitLaid(w: Value, x: Value)
    ensures Lays(SplitLevels(w, x), VersionOf(SplitLevels(w, x))) && I.LevelsOrdered(VersionOf(SplitLevels(w, x)))
  {
    var levels := SplitLevels(w, x);
    var v := VersionOf(levels);
    hide S.TableEntries;
    forall i | 0 <= i < S.NUM_LEVELS ensures S.TableEntries(v[i]) == EntriesOf(levels[i]) {
      EntriesOfTables(levels[i]);
    }
  }

  lemma SplitPicked(w: Value, x: Value)
    ensures var levels := SplitLevels(w, x);
      PickedWhole(levels[1], false, [Upper(w)]) && NextLevel(levels[2], [Upper(w)], [Lower(w)])
  {
    var levels := SplitLevels(w, x);
    assert IsLargest([Upper(w)], Upper(w).largest);
    assert Upper(w) in [Upper(w)];
    assert Spans([Upper(w)], 1, 1);
    assert IsOverlap(levels[2], Some(1), Some(1), [Lower(w)]);
  }

  lemma SplitMerges(w: Value, x: Value)
    ensures Merges(SplitLevels(w, x), 1, [Upper(w)], [Lower(w)],
                   MergeOf(SplitLevels(w, x), 1, [Upper(w)], [Lower(w)], 10, 8))
  {
    hide Kept, IsBase, S.TableEntries, Tables;
    var c := MergeOf(SplitLevels(w, x), 1, [Upper(w)], [Lower(w)], 10, 8);
    OneTable(S.Table(8, c.Output()));
  }

  // The marker decides the read, and behind it there is only the value in the next file.
  lemma SplitDecides(w: Value, x: Value)
    ensures var levels := SplitLevels(w, x);
      var v, e := VersionOf(levels), Entry(2, 6, Deleted);
      && LastWord(NotMerged(levels, 1, [Upper(w)], [Lower(w)], v), EntriesOf([Upper(w)]) + EntriesOf([Lower(w)]), e, 10)
      && IsBase(levels, 1, 2) && LeftBehind(levels[2], [Lower(w)]) == {Entry(2, 4, Present(x))}
  {
    var levels, e, value := SplitLevels(w, x), Entry(2, 6, Deleted), Entry(2, 4, Present(x));
    assert Lower(w) in [Lower(w)] && e in Lower(w).entries;
    assert e in EntriesOf([Lower(w)]);
    assert Next(x) in levels[2] && Follows(Next(x), [Lower(w)]) && value in Next(x).entries;
    assert value in LeftBehind(levels[2], [Lower(w)]);
    NoneAbove(w, x);
  }

  lemma NoneAbove(w: Value, x: Value)
    ensures NotMerged(SplitLevels(w, x), 1, [Upper(w)], [Lower(w)], VersionOf(SplitLevels(w, x))) == {}
  {
    var levels := SplitLevels(w, x);
    var v := VersionOf(levels);
    assert v[0] == {} && v[1] - Tables([Upper(w)]) == {};
    assert Follows(Next(x), [Lower(w)]);
  }

  /** A deleted key comes back: the compaction of level 1 takes one file of level 2 and leaves the next one, drops the
      deletion marker, for which no deeper level has the key, and the value in the file left behind is read again.
   */
  lemma SplitKeyResurrects(w: Value, x: Value)
    ensures var levels := SplitLevels(w, x);
      var v, c := VersionOf(levels), MergeOf(levels, 1, [Upper(w)], [Lower(w)], 10, 8);
      && Lays(levels, v) && I.LevelsOrdered(v) && Merges(levels, 1, [Upper(w)], [Lower(w)], c)
      && PickedWhole(levels[1], false, [Upper(w)]) && NextLevel(levels[2], [Upper(w)], [Lower(w)])
      && Lookup(S.VersionEntries(v), 2, 10) == None
      && Lookup(S.VersionEntries(S.MergedVersion(v, c)), 2, 10) == Some(x)
  {
    hide Lays, I.LevelsOrdered, Merges, PickedWhole, NextLevel, Lookup, NotMerged, LeftBehind, IsBase, Kept,
      S.VersionEntries, S.MergedVersion, B.DeepOf, AllNewer, Unique, EntriesOf, S.TableEntries, VersionOf, LastWord;
    var levels := SplitLevels(w, x);
    var v, c := VersionOf(levels), MergeOf(levels, 1, [Upper(w)], [Lower(w)], 10, 8);
    var e, value := Entry(2, 6, Deleted), Entry(2, 4, Present(x));
    SplitLaid(w, x);
    SplitPicked(w, x);
    SplitMerges(w, x);
    SplitDecides(w, x);
    BothEntries([Upper(w)], [Lower(w)]);
    MergeParts(levels, 1, [Upper(w)], [Lower(w)], v, c);
    var sh, es, bh, d := NotMerged(levels, 1, [Upper(w)], [Lower(w)], v), c.Inputs(), LeftBehind(levels[2], [Lower(w)]),
      B.DeepOf(v, c);
    MarkerDecides(sh, es, bh + d, 10, e);
    ReadWithout(sh, es, bh + d, 10, c.isBase, e, 10);
    OnlyBehind(levels, 1, v, c, bh, 2);
    assert Newest(bh, 2, 10, value);
    LookupNewest(bh, 2, 10, value);
  }
}
