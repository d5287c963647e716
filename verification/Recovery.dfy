/** Replaying a write-ahead log into memtables when the database is opened. */
module Recovery {
  import opened Coding
  import opened LogFormat
  import opened LogReader
  import opened LogCrash
  import opened WriteBatch
  import opened Wrappers

  // ------------------------------------------------------------------ what a list of records means

  // The entries of the records in order; records too small for a batch header are dropped.
  function Replayed(rs: seq<Record>): seq<MemEntry>
    decreases |rs|
  {
    if rs == [] then [] else ReplayedOne(rs[0].data) + Replayed(rs[1..])
  }

  function ReplayedOne(data: seq<byte>): seq<MemEntry> {
    if |data| < HEADER then [] else Numbered(SequenceOf(data), Replay(data).updates)
  }

  predicate Sound(data: seq<byte>) {
    |data| >= HEADER && Replay(data).status == Fine
  }

  // The sequence number of the last update, in 64-bit arithmetic.
  function LastSequence(data: seq<byte>): nat
    requires |data| >= HEADER
  {
    (SequenceOf(data) + CountOf(data) - 1) % TWO64
  }

  // The largest sequence number used so far.
  function MaxSequence(rs: seq<Record>, start: nat): nat
    decreases |rs|
  {
    if rs == [] then start
    else MaxSequence(rs[1..], if |rs[0].data| < HEADER then start else Max(LastSequence(rs[0].data), start))
  }

  function Flatten(tables: seq<seq<MemEntry>>): seq<MemEntry>
    decreases |tables|
  {
    if tables == [] then [] else Flatten(tables[..|tables| - 1]) + tables[|tables| - 1]
  }

  // The options and outside calls that matter here.
  datatype Settings = Settings(paranoid: bool, reuse: bool, tooBig: seq<MemEntry> -> bool,
                               canWrite: seq<MemEntry> -> bool)

  predicate AllSound(rs: seq<Record>) {
    forall i :: 0 <= i < |rs| ==> Sound(rs[i].data)
  }

  // What is still to be replayed completes what is in the tables and the memtable.
  ghost predicate Remaining(tables: seq<seq<MemEntry>>, mem: seq<MemEntry>, maxSequence: nat, left: seq<Record>,
                            all: seq<Record>, start: nat)
  {
    && Flatten(tables) + mem + Replayed(left) == Replayed(all)
    && MaxSequence(left, maxSequence) == MaxSequence(all, start)
    && (AllSound(all) ==> AllSound(left))
  }

  lemma RemainingSkip(tables: seq<seq<MemEntry>>, mem: seq<MemEntry>, m: nat, left: seq<Record>,
                      all: seq<Record>, start: nat)
    requires left != [] && Remaining(tables, mem, m, left, all, start) && |left[0].data| < HEADER
    ensures Remaining(tables, mem, m, left[1..], all, start) && !AllSound(all)
  {
    assert !Sound(left[0].data);
    hide Sound;
    assert !AllSound(left);
    hide AllSound, Flatten;
    assert [] + Replayed(left[1..]) == Replayed(left[1..]);
  }

  lemma RemainingInsert(tables: seq<seq<MemEntry>>, mem: seq<MemEntry>, m: nat, left: seq<Record>,
                        all: seq<Record>, start: nat)
    requires left != [] && Remaining(tables, mem, m, left, all, start) && |left[0].data| >= HEADER
    ensures Remaining(tables, mem + Numbered(SequenceOf(left[0].data), Replay(left[0].data).updates),
                      Max(LastSequence(left[0].data), m), left[1..], all, start)
    ensures Replay(left[0].data).status != Fine ==> !AllSound(all)
  {
    hide Sound, Numbered, Replay, SequenceOf, CountOf;
    var one := Numbered(SequenceOf(left[0].data), Replay(left[0].data).updates);
    assert Flatten(tables) + (mem + one) + Replayed(left[1..]) == Flatten(tables) + mem + (one + Replayed(left[1..]));
    assert AllSound(all) ==> Sound(left[0].data) && AllSound(left[1..]);
    SoundIsFine(left[0].data);
  }

  lemma SoundIsFine(data: seq<byte>)
    ensures Sound(data) ==> Replay(data).status == Fine
  {
  }

  lemma RemainingFlush(tables: seq<seq<MemEntry>>, mem: seq<MemEntry>, m: nat, left: seq<Record>,
                       all: seq<Record>, start: nat)
    requires Remaining(tables, mem, m, left, all, start)
    ensures Remaining(tables + [mem], [], m, left, all, start)
  {
    hide AllSound, Replayed, MaxSequence;
    var more := tables + [mem];
    assert more[..|more| - 1] == tables;
    assert Flatten(more) + [] == Flatten(tables) + mem;
  }

  // A failure is due to a stretch of the replay that cannot be written or to damage under paranoid checks.
  ghost predicate Excused(settings: Settings, rs: seq<Record>, reports: seq<nat>) {
    (exists a, m, b :: Replayed(rs) == a + m + b && !settings.canWrite(m)) || Damaged(settings, rs, reports)
  }

  ghost predicate Damaged(settings: Settings, rs: seq<Record>, reports: seq<nat>) {
    settings.paranoid && (!AllSound(rs) || reports != [])
  }

  // Nothing replayed so far was damaged.
  ghost predicate SoundSoFar(left: seq<Record>, all: seq<Record>) {
    AllSound(left) ==> AllSound(all)
  }

  lemma SoundStep(left: seq<Record>, all: seq<Record>)
    requires left != [] && Sound(left[0].data) && SoundSoFar(left, all)
    ensures SoundSoFar(left[1..], all)
  {
    hide Sound;
  }

  // Tables written because the memtable was too big; the last one may be what was left at the end.
  ghost predicate Filled(settings: Settings, tables: seq<seq<MemEntry>>, n: nat) {
    n <= |tables| && forall i :: 0 <= i < n ==> settings.tooBig(tables[i])
  }

  ghost predicate Stored(settings: Settings, tables: seq<seq<MemEntry>>) {
    forall t :: t in tables ==> settings.canWrite(t)
  }

  function Contents(mem: MemTable?): seq<MemEntry>
    reads mem
  {
    if mem == null then [] else mem.entries
  }

  /** RecoverLogFile: what the level-0 tables and the kept memtable hold is the replay of the records the reader
      returns, in order, and all the tables were written.  It fails on damage under paranoid checks, and otherwise
      only on a table that cannot be written.  The log is reused exactly if that is asked for and it needed no table.
   */
  method RecoverLogFile(c: Config, file: seq<byte>, lastLog: bool, settings: Settings, maxSequence0: nat)
    returns (ok: bool, tables: seq<seq<MemEntry>>, kept: seq<MemEntry>, reused: bool, maxSequence: nat)
    requires c.Ok()
    ensures ok ==> Flatten(tables) + kept == Replayed(Records(0, Events(c, file, 0, 0), IDLE))
    ensures ok ==> maxSequence == MaxSequence(Records(0, Events(c, file, 0, 0), IDLE), maxSequence0)
    ensures !ok ==> Excused(settings, Records(0, Events(c, file, 0, 0), IDLE), Reports(0, Events(c, file, 0, 0), IDLE))
    ensures Damaged(settings, Records(0, Events(c, file, 0, 0), IDLE), Reports(0, Events(c, file, 0, 0), IDLE)) ==> !ok
    ensures ok ==> Stored(settings, tables) && Filled(settings, tables, if tables == [] then 0 else |tables| - 1)
    ensures kept == [] || !settings.tooBig(kept)
    ensures kept != [] ==> reused
    ensures reused <==> ok && settings.reuse && lastLog && tables == []
  {
    var reader := new Reader(c, file, 0);
    ghost var rs := Records(0, Events(c, file, 0, 0), IDLE);
    ghost var reports := Reports(0, Events(c, file, 0, 0), IDLE);
    assert InitialBlock(c, 0) == 0 && IDLE.(resync := false) == IDLE;
    assert reader.Pending() == rs && reader.PendingDrops() == reports;
    ok, tables, maxSequence := true, [], maxSequence0;
    var mem: MemTable? := null;
    hide Records, Reports, Events, Remaining, Excused, AllSound, SoundSoFar, Flatten, Replayed, MaxSequence, Stored,
      Reader.BufferOk, Reader.Pos, Reader.Valid, Reader.Pending, Reader.PendingDrops;
    RemainingStart(rs, maxSequence0);
    NothingYet(settings, rs);
    while true
      invariant fresh(reader) && (mem != null ==> fresh(mem)) && reader.Valid()
      invariant ok ==> Remaining(tables, Contents(mem), maxSequence, reader.Pending(), rs, maxSequence0)
      invariant reader.drops + reader.PendingDrops() == reports
      invariant !ok ==> Excused(settings, rs, reports)
      invariant ok ==> Stored(settings, tables) && Filled(settings, tables, |tables|)
      invariant ok && settings.paranoid ==> SoundSoFar(reader.Pending(), rs)
      invariant mem == null || (ok ==> !settings.tooBig(mem.entries))
      decreases |reader.Pending()|
    {
      ghost var left := reader.Pending();
      var more, record := reader.ReadRecord();
      assert reader.drops != [] ==> reports != [];
      if settings.paranoid && reader.drops != [] {
        // The reporter sets the status
        BlameDamage(settings, rs, reports);
        ok := false;
      }
      if !more || !ok {
        AllRead(left, rs);
        break;
      }
      ok, tables, mem,
          maxSequence := ReplayRecord(record, settings, tables, mem, maxSequence, left, rs, maxSequence0, reports);
    }
    kept, reused := [], false;
    if ok {
      ok, tables, kept, reused := FinishLog(lastLog, settings, tables, mem, maxSequence, rs, maxSequence0, reports);
    }
  }

  // One record of RecoverLogFile's loop.
  method ReplayRecord(record: seq<byte>, settings: Settings, tables0: seq<seq<MemEntry>>, mem0: MemTable?, max0: nat,
                      ghost left: seq<Record>, ghost rs: seq<Record>, ghost start: nat, ghost reports: seq<nat>)
    returns (ok: bool, tables: seq<seq<MemEntry>>, mem: MemTable?, maxSequence: nat)
    requires left != [] && left[0].data == record && Remaining(tables0, Contents(mem0), max0, left, rs, start)
    requires Stored(settings, tables0) && Filled(settings, tables0, |tables0|)
    requires mem0 == null || !settings.tooBig(mem0.entries)
    requires settings.paranoid ==> SoundSoFar(left, rs)
    modifies if mem0 == null then {} else {mem0}
    ensures mem == null || mem == mem0 || fresh(mem)
    ensures ok ==> Remaining(tables, Contents(mem), maxSequence, left[1..], rs, start)
    ensures !ok ==> Excused(settings, rs, reports)
    ensures ok ==> Stored(settings, tables) && Filled(settings, tables, |tables|)
    ensures ok && settings.paranoid ==> SoundSoFar(left[1..], rs)
    ensures ok && mem != null ==> !settings.tooBig(mem.entries)
  {
    hide Remaining, Excused, AllSound, SoundSoFar, Numbered, LastSequence, Replay;
    ok, tables, mem, maxSequence := true, tables0, mem0, max0;
    if |record| < HEADER {
      // log record too small
      RemainingSkip(tables, Contents(mem), maxSequence, left, rs, start);
      if settings.paranoid {
        BlameDamage(settings, rs, reports);
        ok := false;
      }
      return;
    }
    if mem == null {
      mem := new MemTable();
    }
    ghost var held := mem.entries;
    var status := InsertInto(record, mem);
    RemainingInsert(tables, held, maxSequence, left, rs, start);
    if settings.paranoid && status == Fine {
      assert Sound(left[0].data);
      SoundStep(left, rs);
    }
    if settings.paranoid && status != Fine {
      BlameDamage(settings, rs, reports);
      ok := false;
      return;
    }
    maxSequence := Max(LastSequence(record), maxSequence);
    if settings.tooBig(mem.entries) {
      ok := settings.canWrite(mem.entries);
      if !ok {
        BlameMemtable(settings, tables, mem.entries, maxSequence, left[1..], rs, start, reports);
        return;
      }
      RemainingFlush(tables, mem.entries, maxSequence, left[1..], rs, start);
      tables := tables + [mem.entries];
      mem := null;
    }
  }

  // After the last record: keep the memtable and its log, or write it to a table.
  method FinishLog(lastLog: bool, settings: Settings, tables0: seq<seq<MemEntry>>, mem: MemTable?,
                   ghost maxSequence: nat, ghost rs: seq<Record>, ghost start: nat, ghost reports: seq<nat>)
    returns (ok: bool, tables: seq<seq<MemEntry>>, kept: seq<MemEntry>, reused: bool)
    requires Remaining(tables0, Contents(mem), maxSequence, [], rs, start)
    requires Stored(settings, tables0) && Filled(settings, tables0, |tables0|)
    requires mem == null || !settings.tooBig(mem.entries)
    ensures ok ==> Flatten(tables) + kept == Replayed(rs) && maxSequence == MaxSequence(rs, start)
    ensures !ok ==> Excused(settings, rs, reports)
    ensures ok ==> Stored(settings, tables) && Filled(settings, tables, if tables == [] then 0 else |tables| - 1)
    ensures kept == [] || !settings.tooBig(kept)
    ensures kept != [] ==> reused
    ensures reused <==> ok && settings.reuse && lastLog && tables == []
  {
    ok, tables, kept, reused := true, tables0, [], false;
    RemainingEnd(tables, Contents(mem), maxSequence, rs, start);
    hide Remaining, Excused, AllSound, Flatten, Replayed, MaxSequence;
    if settings.reuse && lastLog && tables == [] {
      kept, reused := Contents(mem), true;
    } else if mem != null {
      // The last memtable becomes a table unless the log is reused
      ok := settings.canWrite(mem.entries);
      if ok {
        FlattenMore(tables, mem.entries);
        tables := tables + [mem.entries];
      } else {
        BlameMemtable(settings, tables, mem.entries, maxSequence, [], rs, start, reports);
      }
    } else {
      assert Flatten(tables) + [] == Flatten(tables) + kept;
    }
  }

  lemma RemainingStart(rs: seq<Record>, start: nat)
    ensures Remaining([], [], start, rs, rs, start)
  {
  }

  lemma RemainingEnd(tables: seq<seq<MemEntry>>, mem: seq<MemEntry>, m: nat, all: seq<Record>, start: nat)
    requires Remaining(tables, mem, m, [], all, start)
    ensures Flatten(tables) + mem == Replayed(all) && m == MaxSequence(all, start)
  {
  }

  lemma FlattenMore(tables: seq<seq<MemEntry>>, mem: seq<MemEntry>)
    ensures Flatten(tables + [mem]) + [] == Flatten(tables) + mem
  {
    var more := tables + [mem];
    assert more[..|more| - 1] == tables;
  }

  lemma NothingYet(settings: Settings, rs: seq<Record>)
    ensures Stored(settings, []) && SoundSoFar(rs, rs)
  {
  }

  lemma AllRead(left: seq<Record>, rs: seq<Record>)
    ensures left == [] && SoundSoFar(left, rs) ==> AllSound(rs)
  {
  }

  lemma BlameDamage(settings: Settings, rs: seq<Record>, reports: seq<nat>)
    requires Damaged(settings, rs, reports)
    ensures Excused(settings, rs, reports)
  {
  }

  // A memtable that cannot be written is a stretch of the replay.
  lemma BlameMemtable(settings: Settings, tables: seq<seq<MemEntry>>, mem: seq<MemEntry>, m: nat, left: seq<Record>,
                      rs: seq<Record>, start: nat, reports: seq<nat>)
    requires Remaining(tables, mem, m, left, rs, start) && !settings.canWrite(mem)
    ensures Excused(settings, rs, reports)
  {
    hide AllSound, Flatten, Replayed, MaxSequence;
  }

  // ------------------------------------------------------------------ crash recovery

  // A group as it was logged: the sequence number of its first update, and its updates.
  datatype Commit = Commit(first: nat, updates: seq<Update>)

  predicate CommitOk(g: Commit) {
    g.first < TWO64 && |g.updates| < 0x8000_0000 && forall u :: u in g.updates ==> Encodable(u)
  }

  function RecordsOf(gs: seq<Commit>): (rs: seq<seq<byte>>)
    ensures |rs| == |gs| && forall i :: 0 <= i < |gs| ==> rs[i] == Encode(gs[i].first, gs[i].updates)
  {
    seq(|gs|, i requires 0 <= i < |gs| => Encode(gs[i].first, gs[i].updates))
  }

  // The entries of whole groups under their original sequence numbers.
  function EntriesOf(gs: seq<Commit>): seq<MemEntry>
    decreases |gs|
  {
    if gs == [] then [] else Numbered(gs[0].first, gs[0].updates) + EntriesOf(gs[1..])
  }

  lemma {:induction false} ReplayedGroups(rs: seq<Record>, gs: seq<Commit>)
    requires |rs| == |gs| && forall g :: g in gs ==> CommitOk(g)
    requires forall i :: 0 <= i < |gs| ==> rs[i].data == Encode(gs[i].first, gs[i].updates)
    ensures Replayed(rs) == EntriesOf(gs) && AllSound(rs)
    decreases |gs|
  {
    hide Encode, Numbered, Replay, SequenceOf, CountOf;
    if gs != [] {
      assert CommitOk(gs[0]);
      ReplayRoundTrip(gs[0].first, gs[0].updates);
      hide CommitOk;
      assert rs[0].data == Encode(gs[0].first, gs[0].updates);
      ReplayedGroups(rs[1..], gs[1..]);
      assert Sound(rs[0].data);
      hide Sound, ReplayedOne;
      assert forall i :: 0 < i < |rs| ==> rs[i] == rs[1..][i - 1];
    }
  }

  /** Crash recovery is all or nothing: whatever byte the log is cut at, replay inserts exactly the updates of
      the first groups, those whose record ends before the cut, under their original sequence numbers, and
      meets no corruption.
   */
  lemma CrashRecovery(c: Config, gs: seq<Commit>, cut: nat)
    requires c.Ok() && (forall g :: g in gs ==> CommitOk(g)) && cut <= |LogBytes(c, RecordsOf(gs))|
    ensures var events := Events(c, LogBytes(c, RecordsOf(gs))[..cut], 0, 0);
            var k := |Complete(c, 0, RecordsOf(gs), cut)|;
            && k <= |gs| && Replayed(Records(0, events, IDLE)) == EntriesOf(gs[..k])
            && AllSound(Records(0, events, IDLE)) && Reports(0, events, IDLE) == []
  {
    var records := RecordsOf(gs);
    var rs := Complete(c, 0, records, cut);
    CutReturnsCompleteRecords(c, records, cut);
    CutReportsNothing(c, records, cut);
    ReplayedGroups(rs, gs[..|rs|]);
  }

  // The last sequence number of a group; of an empty one, the number before its own.
  predicate Fits(g: Commit) {
    CommitOk(g) && 0 < g.first + |g.updates| <= 0x1_0000_0000_0000_0000
  }

  lemma {:induction false} LargestOfGroups(rs: seq<Record>, gs: seq<Commit>, start: nat)
    requires |rs| == |gs| && forall g :: g in gs ==> Fits(g)
    requires forall i :: 0 <= i < |gs| ==> rs[i].data == Encode(gs[i].first, gs[i].updates)
    ensures var m := MaxSequence(rs, start);
            && m >= start && (m == start || exists g :: g in gs && m == g.first + |g.updates| - 1)
            && forall g :: g in gs ==> g.first + |g.updates| - 1 <= m
    decreases |rs|
  {
    hide Encode, Replay, SequenceOf, CountOf;
    if gs != [] {
      assert Fits(gs[0]) && rs[0].data == Encode(gs[0].first, gs[0].updates);
      ReplayRoundTrip(gs[0].first, gs[0].updates);
      assert forall i :: 0 < i < |rs| ==> rs[i] == rs[1..][i - 1];
      LargestOfGroups(rs[1..], gs[1..], Max(LastSequence(rs[0].data), start));
    }
  }

  /** And the database goes on from the largest sequence number of the groups recovered, or from its own. */
  lemma RecoveredSequence(c: Config, gs: seq<Commit>, cut: nat, start: nat)
    requires c.Ok() && (forall g :: g in gs ==> Fits(g)) && cut <= |LogBytes(c, RecordsOf(gs))|
    ensures var m := MaxSequence(Records(0, Events(c, LogBytes(c, RecordsOf(gs))[..cut], 0, 0), IDLE), start);
            var k := |Complete(c, 0, RecordsOf(gs), cut)|;
            && k <= |gs| && m >= start &&
               (m == start || exists i :: 0 <= i < k && m == gs[i].first + |gs[i].updates| - 1)
            && forall i :: 0 <= i < k ==> gs[i].first + |gs[i].updates| - 1 <= m
  {
    var rs := Complete(c, 0, RecordsOf(gs), cut);
    CutReturnsCompleteRecords(c, RecordsOf(gs), cut);
    LargestOfGroups(rs, gs[..|rs|], start);
  }

  /** A group is recovered exactly when the cut leaves its whole record. */
  lemma {:induction false} RecoveredExactly(c: Config, p: nat, records: seq<seq<byte>>, cut: nat, i: nat)
    requires c.Ok() && i < |records|
    ensures i < |Complete(c, p, records, cut)| <==> ChainEnd(p, AllPieces(c, p, records[..i + 1])) <= cut
    decreases |records|
  {
    var q := RecordEnd(c, p, records[0]);
    var ps := Pieces(c, p, records[0], true);
    PiecesChain(c, p, records[0], true);
    var firsts := records[..i + 1];
    assert firsts[0] == records[0] && firsts[1..] == records[1..][..i];
    AllPiecesChain(c, q, firsts[1..]);
    BytesLength(c, q, AllPieces(c, q, firsts[1..]));
    ChainAppend(c, p, ps, AllPieces(c, q, firsts[1..]));
    if i > 0 {
      RecoveredExactly(c, q, records[1..], cut, i - 1);
    } else {
      assert AllPieces(c, q, firsts[1..]) == [];
    }
  }
}
