/** The files of a version: which ones a read looks into, and how far down a new table may go.

    Module Store has the tables of a level as a set and states what it expects of the version set; here are the searches
    over lists of files that the version set does.
 */
module VersionFiles {
  import opened Compaction
  import opened Entries
  import opened Wrappers
  import I = StoreInvariant
  import P = StoreSteps
  import R = StoreReads
  import S = Store
  import T = StoreTheorems

  // FileMetaData, with the entries that its table holds.
  type File = Output

  ghost predicate FileOk(f: File) {
    f.Valid() && Sorted(f.entries)
  }

  // Files of a level above 0 follow one another; a user key may end one file and begin the next.
  ghost predicate Disjoint(files: seq<File>) {
    forall i, j :: 0 <= i < j < |files| ==> InternalLess(files[i].largest, files[j].smallest)
  }

  ghost predicate Numbered(files: seq<File>) {
    forall i, j :: 0 <= i < j < |files| ==> files[i].number != files[j].number
  }

  ghost predicate LevelOk(files: seq<File>, disjoint: bool) {
    && (forall f :: f in files ==> FileOk(f))
    && Numbered(files)
    && (disjoint ==> Disjoint(files))
  }

  ghost function EntriesOf(files: seq<File>): set<Entry> {
    set f, e | f in files && e in f.entries :: e
  }

  ghost function TableOf(f: File): S.Table {
    S.Table(f.number, Elements(f.entries))
  }

  ghost function Tables(files: seq<File>): set<S.Table> {
    set f | f in files :: TableOf(f)
  }

  // The lists of files of a version.
  ghost predicate Lays(levels: seq<seq<File>>, v: S.Version) {
    && |levels| == S.NUM_LEVELS
    && forall i :: 0 <= i < S.NUM_LEVELS ==> LevelOk(levels[i], i > 0) && v[i] == Tables(levels[i])
  }

  lemma EntriesOfTables(files: seq<File>)
    ensures S.TableEntries(Tables(files)) == EntriesOf(files)
  {
    forall e | e in EntriesOf(files) ensures e in S.TableEntries(Tables(files)) {
      var f :| f in files && e in f.entries;
      assert TableOf(f) in Tables(files) && e in TableOf(f).entries;
    }
  }

  lemma InRange(f: File, e: Entry)
    requires FileOk(f) && e in f.entries
    ensures !InternalLess(e, f.smallest) && !InternalLess(f.largest, e)
    ensures f.smallest.key <= e.key <= f.largest.key
  {
    var i :| 0 <= i < |f.entries| && f.entries[i] == e;
    assert i > 0 ==> InternalLess(f.entries[0], e);
    assert i < |f.entries| - 1 ==> InternalLess(e, f.entries[|f.entries| - 1]);
  }

  // ------------------------------------------------------------------ looking a key up

  /** The earliest file whose largest key is at or after the target. */
  method FindFile(files: seq<File>, target: Entry) returns (right: nat)
    requires LevelOk(files, true)
    ensures right <= |files|
    ensures forall i :: 0 <= i < right ==> InternalLess(files[i].largest, target)
    ensures forall i :: right <= i < |files| ==> !InternalLess(files[i].largest, target)
  {
    var left := 0;
    right := |files|;
    while left < right
      invariant left <= right <= |files|
      invariant forall i :: 0 <= i < left ==> InternalLess(files[i].largest, target)
      invariant forall i :: right <= i < |files| ==> !InternalLess(files[i].largest, target)
    {
      var mid := (left + right) / 2;
      LargestAscend(files, mid);
      if InternalLess(files[mid].largest, target) {
        left := mid + 1;
      } else {
        right := mid;
      }
    }
  }

  lemma LargestAscend(files: seq<File>, mid: nat)
    requires LevelOk(files, true) && mid < |files|
    ensures forall i :: 0 <= i < mid ==> InternalLess(files[i].largest, files[mid].largest)
    ensures forall i :: mid < i < |files| ==> InternalLess(files[mid].largest, files[i].largest)
  {
    forall i | 0 <= i < |files| ensures files[i].largest in files[i].entries {
      assert FileOk(files[i]);
    }
    forall i | 0 <= i < |files| ensures !InternalLess(files[i].largest, files[i].smallest) {
      InRange(files[i], files[i].largest);
    }
  }

  // What a search in es for the newest entry of k up to s may answer.
  ghost predicate Tells(es: set<Entry>, k: Key, s: nat, answer: Option<Slot>) {
    match answer
    case None => forall e :: e in es && e.key == k ==> e.seqno > s
    case Some(slot) => exists e :: Newest(es, k, s, e) && e.slot == slot
  }

  lemma TellsFirst(a: set<Entry>, b: set<Entry>, k: Key, s: nat, answer: Option<Slot>)
    requires Tells(a, k, s, answer) && answer.Some? && AllNewer(a, b)
    ensures Tells(a + b, k, s, answer)
  {
    var e :| Newest(a, k, s, e) && e.slot == answer.value;
    assert Newest(a + b, k, s, e);
  }

  lemma TellsNext(a: set<Entry>, b: set<Entry>, k: Key, s: nat, answer: Option<Slot>)
    requires Tells(a, k, s, None) && Tells(b, k, s, answer)
    ensures Tells(a + b, k, s, answer)
  {
    if answer.Some? {
      var e :| Newest(b, k, s, e) && e.slot == answer.value;
      assert Newest(a + b, k, s, e);
    }
  }

  lemma TellsLookup(es: set<Entry>, k: Key, s: nat, answer: Option<Slot>)
    requires Unique(es) && Tells(es, k, s, answer)
    ensures Lookup(es, k, s) == if answer.Some? then SlotValue(answer.value) else None
  {
    if answer.Some? {
      var e :| Newest(es, k, s, e) && e.slot == answer.value;
      LookupNewest(es, k, s, e);
    }
  }

  function FirstAtOrAfter(es: seq<Entry>, target: Entry): (i: nat)
    ensures i <= |es|
  {
    if es == [] || !InternalLess(es[0], target) then 0 else 1 + FirstAtOrAfter(es[1..], target)
  }

  // TableCache::Get with SaveValue: the first entry at or after the key asked for, if it is of the same user key.
  function GetFromFile(f: File, k: Key, s: nat): Option<Slot> {
    var i := FirstAtOrAfter(f.entries, Entry(k, s, Deleted));
    if i < |f.entries| && f.entries[i].key == k then Some(f.entries[i].slot) else None
  }

  lemma {:induction false} FirstSplits(es: seq<Entry>, target: Entry)
    requires Sorted(es)
    ensures forall j :: 0 <= j < |es| ==> (InternalLess(es[j], target) <==> j < FirstAtOrAfter(es, target))
  {
    if es != [] && InternalLess(es[0], target) {
      FirstSplits(es[1..], target);
      assert forall j :: 0 < j < |es| ==> es[j] == es[1..][j - 1];
    } else if es != [] {
      assert forall j :: 0 < j < |es| ==> InternalLess(es[0], es[j]);
    }
  }

  lemma FileTells(f: File, k: Key, s: nat)
    requires FileOk(f)
    ensures Tells(Elements(f.entries), k, s, GetFromFile(f, k, s))
  {
    var target := Entry(k, s, Deleted);
    FirstSplits(f.entries, target);
    var i := FirstAtOrAfter(f.entries, target);
    if i < |f.entries| && f.entries[i].key == k {
      assert Newest(Elements(f.entries), k, s, f.entries[i]);
    }
  }

  function AddByAge(order: seq<File>, f: File): seq<File> {
    if order == [] || f.number > order[0].number then [f] + order else [order[0]] + AddByAge(order[1..], f)
  }

  // std::sort with NewestFirst
  function NewestFirst(files: seq<File>): seq<File> {
    if files == [] then [] else AddByAge(NewestFirst(files[..|files| - 1]), files[|files| - 1])
  }

  ghost predicate Descending(order: seq<File>) {
    forall i, j :: 0 <= i < j < |order| ==> order[i].number > order[j].number
  }

  lemma {:induction false} AddByAgeKeeps(order: seq<File>, f: File)
    requires Descending(order) && forall g :: g in order ==> g.number != f.number
    ensures Descending(AddByAge(order, f)) && forall g :: g in AddByAge(order, f) <==> g in order || g == f
  {
    if order != [] && f.number < order[0].number {
      AddByAgeKeeps(order[1..], f);
      var rest := AddByAge(order[1..], f);
      forall i | 0 <= i < |rest| ensures order[0].number > rest[i].number {
        assert rest[i] in order[1..] || rest[i] == f;
      }
    }
  }

  lemma {:induction false} NewestFirstSorts(files: seq<File>)
    requires Numbered(files)
    ensures Descending(NewestFirst(files)) && forall g :: g in NewestFirst(files) <==> g in files
  {
    if files != [] {
      var n := |files| - 1;
      NewestFirstSorts(files[..n]);
      AddByAgeKeeps(NewestFirst(files[..n]), files[n]);
    }
  }

  predicate HasKey(f: File, k: Key) {
    f.smallest.key <= k <= f.largest.key
  }

  function Having(files: seq<File>, k: Key, n: nat): seq<File>
    requires n <= |files|
  {
    if n == 0 then [] else Having(files, k, n - 1) + if HasKey(files[n - 1], k) then [files[n - 1]] else []
  }

  lemma HavingHas(files: seq<File>, k: Key, n: nat)
    requires n <= |files| && Numbered(files)
    ensures forall f :: f in Having(files, k, n) <==> f in files[..n] && HasKey(f, k)
    ensures Numbered(Having(files, k, n))
  {
    if n > 0 {
      HavingHas(files, k, n - 1);
      assert files[..n] == files[..n - 1] + [files[n - 1]];
      var h := Having(files, k, n - 1);
      forall i | 0 <= i < |h| ensures h[i].number != files[n - 1].number {
        assert h[i] in files[..n - 1];
      }
    }
  }

  lemma TellsLocal(a: set<Entry>, b: set<Entry>, k: Key, s: nat, answer: Option<Slot>)
    requires Tells(a, k, s, answer) && forall e: Entry :: e.key == k ==> (e in a <==> e in b)
    ensures Tells(b, k, s, answer)
  {
    if answer.Some? {
      var e :| Newest(a, k, s, e) && e.slot == answer.value;
      assert Newest(b, k, s, e);
    }
  }

  // Of files that may overlap, only those with the key in their range matter, the newest first.
  lemma SearchByAge(files: seq<File>, k: Key, s: nat) returns (order: seq<File>)
    requires LevelOk(files, false) && S.NewestHighest(Tables(files))
    ensures order == NewestFirst(Having(files, k, |files|)) && forall f :: f in order ==> FileOk(f)
    ensures forall i, j :: 0 <= i < j < |order| ==> AllNewer(Elements(order[i].entries), Elements(order[j].entries))
    ensures forall e: Entry :: e.key == k ==> (e in EntriesOf(order) <==> e in EntriesOf(files))
  {
    HavingHas(files, k, |files|);
    NewestFirstSorts(Having(files, k, |files|));
    order := NewestFirst(Having(files, k, |files|));
    assert files[..|files|] == files;
    forall e: Entry | e.key == k && e in EntriesOf(files) ensures e in EntriesOf(order) {
      var f :| f in files && e in f.entries;
      InRange(f, e);
    }
    forall i, j | 0 <= i < j < |order| ensures AllNewer(Elements(order[i].entries), Elements(order[j].entries)) {
      var t, u := TableOf(order[i]), TableOf(order[j]);
      assert t in Tables(files) && u in Tables(files) && t.number > u.number;
    }
  }

  // Of files that follow one another, only the earliest one that ends at or after (k, s) matters.
  lemma OneFileTells(files: seq<File>, k: Key, s: nat, index: nat)
    requires LevelOk(files, true) && index <= |files|
    requires forall i :: 0 <= i < index ==> InternalLess(files[i].largest, Entry(k, s, Deleted))
    requires index < |files| ==> !InternalLess(files[index].largest, Entry(k, s, Deleted))
    ensures Tells(EntriesOf(files), k, s,
                  if index < |files| && files[index].smallest.key <= k then GetFromFile(files[index], k, s) else None)
  {
    forall e | e in EntriesOf(files) && e.key == k && e.seqno <= s
      ensures index < |files| && files[index].smallest.key <= k
      ensures e in files[index].entries ||
              exists g :: g in files[index].entries && g.key == k && g.seqno <= s && g.seqno > e.seqno
    {
      EntryBehind(files, k, s, index, e);
    }
    if index < |files| && files[index].smallest.key <= k {
      FileTells(files[index], k, s);
      if GetFromFile(files[index], k, s).Some? {
        var n :| Newest(Elements(files[index].entries), k, s, n) && n.slot == GetFromFile(files[index], k, s).value;
        assert Newest(EntriesOf(files), k, s, n);
      }
    }
  }

  // An entry in a later file is older than the last entry of the file found.
  lemma EntryBehind(files: seq<File>, k: Key, s: nat, index: nat, e: Entry)
    requires LevelOk(files, true) && index <= |files|
    requires forall i :: 0 <= i < index ==> InternalLess(files[i].largest, Entry(k, s, Deleted))
    requires index < |files| ==> !InternalLess(files[index].largest, Entry(k, s, Deleted))
    requires e in EntriesOf(files) && e.key == k && e.seqno <= s
    ensures index < |files| && files[index].smallest.key <= k
    ensures e in files[index].entries ||
            (var g := files[index].largest; g in files[index].entries && g.key == k && e.seqno < g.seqno <= s)
  {
    var f :| f in files && e in f.entries;
    var i :| 0 <= i < |files| && files[i] == f;
    InRange(f, e);
    if i > index {
      assert FileOk(files[index]) && InternalLess(files[index].largest, f.smallest);
      InRange(files[index], files[index].largest);
    }
  }

  // What a read finds in one level.
  method GetFromLevel(files: seq<File>, level0: bool, k: Key, s: nat) returns (found: Option<Slot>)
    requires LevelOk(files, !level0) && (level0 ==> S.NewestHighest(Tables(files)))
    ensures Tells(EntriesOf(files), k, s, found)
  {
    hide Tells, GetFromFile, S.NewestHighest, Disjoint, NewestFirst, FileOk;
    if level0 {
      var tmp := [];
      for i := 0 to |files|
        invariant tmp == Having(files, k, i)
      {
        if k >= files[i].smallest.key && k <= files[i].largest.key {
          tmp := tmp + [files[i]];
        }
      }
      tmp := NewestFirst(tmp);
      ghost var order := SearchByAge(files, k, s);
      found := SearchInOrder(tmp, k, s);
      TellsLocal(EntriesOf(tmp), EntriesOf(files), k, s, found);
    } else {
      var index := FindFile(files, Entry(k, s, Deleted));
      OneFileTells(files, k, s, index);
      if index >= |files| || k < files[index].smallest.key {
        // All of the file is behind the key
        return None;
      }
      found := GetFromFile(files[index], k, s);
    }
  }

  method SearchInOrder(files: seq<File>, k: Key, s: nat) returns (found: Option<Slot>)
    requires forall f :: f in files ==> FileOk(f)
    requires forall i, j :: 0 <= i < j < |files| ==> AllNewer(Elements(files[i].entries), Elements(files[j].entries))
    ensures Tells(EntriesOf(files), k, s, found)
  {
    hide Tells, GetFromFile, FileOk;
    var i := 0;
    NothingTells(k, s);
    assert EntriesOf(files[..0]) == {};
    while i < |files|
      invariant i <= |files| && Tells(EntriesOf(files[..i]), k, s, None)
    {
      found := GetFromFile(files[i], k, s);
      FileTells(files[i], k, s);
      EntriesSplit(files, i);
      TellsNext(EntriesOf(files[..i]), Elements(files[i].entries), k, s, found);
      if found.Some? {
        TellsFirst(Elements(files[i].entries), EntriesOf(files[i + 1..]), k, s, found);
        TellsNext(EntriesOf(files[..i]), Elements(files[i].entries) + EntriesOf(files[i + 1..]), k, s, found);
        return;
      }
      i := i + 1;
    }
    assert files[..|files|] == files;
    return None;
  }

  lemma NothingTells(k: Key, s: nat)
    ensures Tells({}, k, s, None)
  {
  }

  lemma EntriesSplit(files: seq<File>, i: nat)
    requires i < |files|
    requires forall i, j :: 0 <= i < j < |files| ==> AllNewer(Elements(files[i].entries), Elements(files[j].entries))
    ensures EntriesOf(files[..i + 1]) == EntriesOf(files[..i]) + Elements(files[i].entries)
    ensures EntriesOf(files) == EntriesOf(files[..i]) + (Elements(files[i].entries) + EntriesOf(files[i + 1..]))
    ensures AllNewer(Elements(files[i].entries), EntriesOf(files[i + 1..]))
  {
    assert files[..i + 1] == files[..i] + [files[i]];
    assert files == files[..i] + [files[i]] + files[i + 1..];
    forall f, e | f in files[i + 1..] && e in f.entries
      ensures forall g :: g in Elements(files[i].entries) && g.key == e.key ==> g.seqno > e.seqno
    {
      var j :| i < j < |files| && files[j] == f;
      assert AllNewer(Elements(files[i].entries), Elements(files[j].entries));
    }
  }

  // The entries of the levels lo <= i < hi.
  ghost function Between(v: S.Version, lo: nat, hi: nat): set<Entry>
    requires hi <= S.NUM_LEVELS
  {
    set i, e | lo <= i < hi && e in S.TableEntries(v[i]) :: e
  }

  lemma LevelsSplit(v: S.Version, n: nat)
    requires n < S.NUM_LEVELS
    ensures Between(v, 0, n + 1) == Between(v, 0, n) + S.TableEntries(v[n])
    ensures Between(v, 0, S.NUM_LEVELS) ==
            Between(v, 0, n) + (S.TableEntries(v[n]) + Between(v, n + 1, S.NUM_LEVELS))
    ensures I.LevelsOrdered(v) ==> AllNewer(S.TableEntries(v[n]), Between(v, n + 1, S.NUM_LEVELS))
  {
    hide S.TableEntries, S.NewestHighest;
  }

  lemma AllLevels(v: S.Version)
    ensures S.VersionEntries(v) == Between(v, 0, S.NUM_LEVELS)
  {
    forall e | e in Between(v, 0, S.NUM_LEVELS) ensures e in S.VersionEntries(v) {
      var i :| 0 <= i < S.NUM_LEVELS && e in S.TableEntries(v[i]);
      var t :| t in v[i] && e in t.entries;
      assert t in S.TablesOf(v);
    }
    forall e | e in S.VersionEntries(v) ensures e in Between(v, 0, S.NUM_LEVELS) {
      var t :| t in S.TablesOf(v) && e in t.entries;
      var i :| 0 <= i < S.NUM_LEVELS && t in v[i];
      assert e in S.TableEntries(v[i]);
    }
  }

  /** Version::Get: goes down the levels and stops at the first file that has the key, at most one file of each level
      below level 0; what it finds is the newest entry of the key in the whole version, up to the sequence number.
   */
  method Get(levels: seq<seq<File>>, k: Key, s: nat, ghost v: S.Version) returns (found: Option<Slot>)
    requires Lays(levels, v) && I.LevelsOrdered(v)
    ensures Tells(S.VersionEntries(v), k, s, found)
    ensures Lookup(S.VersionEntries(v), k, s) == if found.Some? then SlotValue(found.value) else None
  {
    hide Lookup, Unique, Tells, LevelOk, S.TableEntries, Between, S.VersionEntries, I.LevelsOrdered;
    AllLevels(v);
    OneOfEach(levels, v);
    NothingTells(k, s);
    assert Between(v, 0, 0) == {} by { NoLevels(v); }
    var level := 0;
    while level < S.NUM_LEVELS
      invariant level <= S.NUM_LEVELS && Tells(Between(v, 0, level), k, s, None)
    {
      Level0(v);
      found := GetFromLevel(levels[level], level == 0, k, s);
      EntriesOfTables(levels[level]);
      LevelsSplit(v, level);
      TellsNext(Between(v, 0, level), S.TableEntries(v[level]), k, s, found);
      if found.Some? {
        var deeper := Between(v, level + 1, S.NUM_LEVELS);
        TellsFirst(S.TableEntries(v[level]), deeper, k, s, found);
        TellsNext(Between(v, 0, level), S.TableEntries(v[level]) + deeper, k, s, found);
        TellsLookup(S.VersionEntries(v), k, s, found);
        return;
      }
      level := level + 1;
    }
    TellsLookup(S.VersionEntries(v), k, s, None);
    return None;
  }

  // No two entries of a version have the same key and sequence number.
  lemma OneOfEach(levels: seq<seq<File>>, v: S.Version)
    requires Lays(levels, v) && I.LevelsOrdered(v)
    ensures Unique(S.VersionEntries(v))
  {
    hide LevelOk, S.TableEntries, S.VersionEntries;
    AllLevels(v);
    forall a, b | a in S.VersionEntries(v) && b in S.VersionEntries(v) && a.key == b.key && a.seqno == b.seqno
      ensures a == b
    {
      var i :| 0 <= i < S.NUM_LEVELS && a in S.TableEntries(v[i]);
      var j :| 0 <= j < S.NUM_LEVELS && b in S.TableEntries(v[j]);
      SameLevel(v, i, j, a, b);
      EntriesOfTables(levels[i]);
      OneInLevel(levels[i], i == 0, a, b);
    }
  }

  lemma SameLevel(v: S.Version, i: nat, j: nat, a: Entry, b: Entry)
    requires I.LevelsOrdered(v) && i < S.NUM_LEVELS && j < S.NUM_LEVELS
    requires a in S.TableEntries(v[i]) && b in S.TableEntries(v[j]) && a.key == b.key && a.seqno == b.seqno
    ensures i == j
  {
    hide S.TableEntries, S.NewestHighest;
  }

  lemma OneInLevel(files: seq<File>, level0: bool, a: Entry, b: Entry)
    requires LevelOk(files, !level0) && (level0 ==> S.NewestHighest(Tables(files)))
    requires a in EntriesOf(files) && b in EntriesOf(files) && a.key == b.key && a.seqno == b.seqno
    ensures a == b
  {
    var f :| f in files && a in f.entries;
    var g :| g in files && b in g.entries;
    InRange(f, a);
    InRange(g, b);
    assert TableOf(f) in Tables(files) && TableOf(g) in Tables(files) && (f != g ==> f.number != g.number);
    if f == g {
      var i :| 0 <= i < |f.entries| && f.entries[i] == a;
      var j :| 0 <= j < |f.entries| && f.entries[j] == b;
    }
  }

  lemma NoLevels(v: S.Version)
    ensures Between(v, 0, 0) == {}
  {
  }

  lemma Level0(v: S.Version)
    requires I.LevelsOrdered(v)
    ensures S.NewestHighest(v[0])
  {
  }

  /** DBImpl::Get, in any reachable state: asking the memtable, then the one being flushed, then the files of the
      version, gives what the completed writes say: the newest update of those completed when the read began, or when
      its snapshot was taken.  The arguments mem and imm are the answers of the two memtables.
   */
  method DbGet(ghost states: seq<S.State>, ghost actions: seq<S.Action>, ghost n: nat, ghost rd: S.Reader,
               levels: seq<seq<File>>, mem: Option<Slot>, imm: Option<Slot>, k: Key, s: nat)
    returns (value: Option<Value>)
    requires S.Run(states, actions) && n < |states| && states[n].proc.Some? && rd in states[n].proc.value.readers
    requires Lays(levels, rd.version) && s == rd.at
    requires var memtables := states[n].proc.value.memtables;
             && I.ReaderShape(rd, memtables) && Tells(memtables[rd.mem], k, s, mem)
             && Tells(I.ReaderImm(rd, memtables), k, s, imm)
    ensures value == Lookup(states[n].proc.value.history, k, s)
    ensures forall t: nat, b: nat :: R.Reads(states, actions, t, b, n, rd) ==>
                             R.IsLatest(states[t].proc.value.history, k, value)
  {
    hide R.IsLatest, S.Run, I.Inv, Tells, Lays, I.ReaderEntries, I.ReaderImm, I.LevelsOrdered, S.VersionEntries, Lookup,
      I.Whole;
    ghost var memtables := states[n].proc.value.memtables;
    ghost var m, i, v := memtables[rd.mem], I.ReaderImm(rd, memtables), S.VersionEntries(rd.version);
    ReaderParts(states, actions, n, rd, k);
    var found := mem;
    if mem.Some? {
      TellsFirst(m, i + v, k, s, found);
    } else if imm.Some? {
      found := imm;
      TellsFirst(i, v, k, s, found);
      TellsNext(m, i + v, k, s, found);
    } else {
      found := Get(levels, k, s, rd.version);
      TellsNext(i, v, k, s, found);
      TellsNext(m, i + v, k, s, found);
    }
    TellsLookup(m + (i + v), k, s, found);
    value := if found.Some? then SlotValue(found.value) else None;
    forall t: nat, b: nat | R.Reads(states, actions, t, b, n, rd)
      ensures R.IsLatest(states[t].proc.value.history, k, value)
    {
      R.LookupIsLatest(states, actions, t, b, n, rd, k);
    }
  }

  lemma ReaderParts(states: seq<S.State>, actions: seq<S.Action>, n: nat, rd: S.Reader, k: Key)
    requires S.Run(states, actions) && n < |states| && states[n].proc.Some? && rd in states[n].proc.value.readers
    ensures var p := states[n].proc.value;
      && I.ReaderShape(rd, p.memtables) && I.LevelsOrdered(rd.version)
      && var m, i, v := p.memtables[rd.mem], I.ReaderImm(rd, p.memtables), S.VersionEntries(rd.version);
         && AllNewer(m, i + v) && AllNewer(i, v) && Unique(m + (i + v))
         && Lookup(m + (i + v), k, rd.at) == Lookup(p.history, k, rd.at)
  {
    hide S.Run, I.Inv, I.LevelsOrdered, S.VersionEntries, Lookup, I.Whole, I.NoSplit, I.AtMost, I.OnePerSequence;
    var s, p := states[n], states[n].proc.value;
    T.RunInv(states, actions, n);
    T.ReadFacts(s, rd, k);
    var m, i, v := p.memtables[rd.mem], I.ReaderImm(rd, p.memtables), S.VersionEntries(rd.version);
    assert m + (i + v) == I.ReaderEntries(rd, p.memtables);
    P.OnePerSequenceIsUnique(I.ReaderEntries(rd, p.memtables), I.Whole(s.rec, p).logged);
  }

  // ------------------------------------------------------------------ ranges of user keys

  // No begin lies before every key, and no end behind every key.
  predicate AfterFile(begin: Option<Key>, f: File) {
    begin.Some? && begin.value > f.largest.key
  }

  predicate BeforeFile(end: Option<Key>, f: File) {
    end.Some? && end.value < f.smallest.key
  }

  predicate Overlaps(f: File, begin: Option<Key>, end: Option<Key>) {
    !AfterFile(begin, f) && !BeforeFile(end, f)
  }

  ghost predicate NumbersFit(files: seq<File>) {
    forall f :: f in files ==> f.largest.seqno <= MAX_SEQUENCE_NUMBER
  }

  /** Does a file of the level overlap the range? */
  method SomeFileOverlapsRange(disjoint: bool, files: seq<File>, begin: Option<Key>, end: Option<Key>)
    returns (overlap: bool)
    requires LevelOk(files, disjoint) && NumbersFit(files)
    ensures overlap <==> exists f :: f in files && Overlaps(f, begin, end)
  {
    if !disjoint {
      for i := 0 to |files|
        invariant forall j :: 0 <= j < i ==> !Overlaps(files[j], begin, end)
      {
        if AfterFile(begin, files[i]) || BeforeFile(end, files[i]) {
          // It does not reach this file
        } else {
          assert files[i] in files && Overlaps(files[i], begin, end);
          return true;
        }
      }
      return false;
    }
    var index := 0;
    if begin.Some? {
      // The earliest internal key of the user key
      index := FindFile(files, Entry(begin.value, MAX_SEQUENCE_NUMBER, Deleted));
    }
    EarlierEnd(files, index);
    assert forall i :: 0 <= i < index ==> files[i] in files && AfterFile(begin, files[i]);
    if index >= |files| {
      return false;
    }
    assert !AfterFile(begin, files[index]);
    overlap := !BeforeFile(end, files[index]);
    assert files[index] in files;
    assert !overlap ==> forall i :: index <= i < |files| ==> BeforeFile(end, files[i]);
  }

  lemma EarlierEnd(files: seq<File>, index: nat)
    requires LevelOk(files, true)
    ensures forall i :: index <= i < |files| ==>
              files[index].smallest.key <= files[i].smallest.key && files[i].smallest.key <= files[i].largest.key
  {
    forall i | index <= i < |files|
      ensures files[index].smallest.key <= files[i].smallest.key && files[i].smallest.key <= files[i].largest.key
    {
      InRange(files[i], files[i].largest);
      InRange(files[index], files[index].largest);
    }
  }

  const MAX_MEM_COMPACT_LEVEL := 2

  ghost predicate Reaches(files: seq<File>, small: Key, large: Key) {
    exists f :: f in files && Overlaps(f, Some(small), Some(large))
  }

  // A new table may go down to this level: no file on its way overlaps it, and never too much lies two levels below.
  ghost predicate Admits(levels: seq<seq<File>>, small: Key, large: Key, tooMuch: nat -> bool, level: nat) {
    && level <= 2 && level < |levels|
    && (level > 0 ==> forall i :: 0 <= i <= level ==> !Reaches(levels[i], small, large))
    && forall i :: 2 <= i < level + 2 ==> !tooMuch(i)
  }

  /** The level for a table made of a memtable, the deepest one that admits it: it may skip levels that have none of its
      keys.  tooMuch is the decision about the bytes of a level in its range.
   */
  method PickLevelForMemTableOutput(levels: seq<seq<File>>, small: Key, large: Key, tooMuch: nat -> bool,
                                    ghost v: S.Version, ghost es: set<Entry>)
    returns (level: nat)
    requires Lays(levels, v) && forall i :: 0 <= i < |levels| ==> NumbersFit(levels[i])
    requires forall e :: e in es ==> small <= e.key <= large
    ensures level <= MAX_MEM_COMPACT_LEVEL && S.GoodFlushLevel(v, level, es)
    ensures Admits(levels, small, large, tooMuch, level)
    ensures forall l :: level < l ==> !Admits(levels, small, large, tooMuch, l)
  {
    hide LevelOk, S.SharesKey, S.TableEntries, NumbersFit, Overlaps;
    level := 0;
    var overlap := SomeFileOverlapsRange(false, levels[0], Some(small), Some(large));
    if !overlap {
      NothingShared(levels[0], false, small, large, es);
      while level < MAX_MEM_COMPACT_LEVEL
        invariant level <= MAX_MEM_COMPACT_LEVEL
        invariant forall i :: 0 <= i <= level ==> !S.SharesKey(es, S.TableEntries(v[i]))
        invariant forall i :: 0 <= i <= level ==> !Reaches(levels[i], small, large)
        invariant forall i :: 2 <= i < level + 2 ==> !tooMuch(i)
      {
        overlap := SomeFileOverlapsRange(true, levels[level + 1], Some(small), Some(large));
        if overlap {
          break;
        }
        if level + 2 < S.NUM_LEVELS && tooMuch(level + 2) {
          break;
        }
        NothingShared(levels[level + 1], true, small, large, es);
        level := level + 1;
      }
    }
  }

  lemma NothingShared(files: seq<File>, disjoint: bool, small: Key, large: Key, es: set<Entry>)
    requires LevelOk(files, disjoint) && (forall f :: f in files ==> !Overlaps(f, Some(small), Some(large)))
    requires forall e :: e in es ==> small <= e.key <= large
    ensures !S.SharesKey(es, S.TableEntries(Tables(files)))
  {
    EntriesOfTables(files);
    forall g | g in EntriesOf(files) ensures !(small <= g.key <= large) {
      var f :| f in files && g in f.entries;
      InRange(f, g);
    }
  }
}
