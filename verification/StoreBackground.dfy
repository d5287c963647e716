/** The invariant is kept by the background thread: memtable flushes, compactions, installing
    versions and deleting obsolete files.
 */
module StoreBackground {
  import opened Entries
  import opened Compaction
  import opened Store
  import opened StoreInvariant
  import opened StoreSteps
  import opened Wrappers

  // ------------------------------------------------------------------ levels

  lemma VersionEntriesByLevel(v: Version, e: Entry)
    ensures e in VersionEntries(v) <==> exists i :: 0 <= i < NUM_LEVELS && e in TableEntries(v[i])
  {
    if e in VersionEntries(v) {
      var t :| t in TablesOf(v) && e in t.entries;
      var i :| 0 <= i < NUM_LEVELS && t in v[i];
      assert e in TableEntries(v[i]);
    }
    if i :| 0 <= i < NUM_LEVELS && e in TableEntries(v[i]) {
      var t :| t in v[i] && e in t.entries;
      assert t in TablesOf(v);
    }
  }

  lemma TableEntriesUnion(a: set<Table>, b: set<Table>)
    ensures TableEntries(a + b) == TableEntries(a) + TableEntries(b)
  {
    forall e | e in TableEntries(a) + TableEntries(b) ensures e in TableEntries(a + b) {
      var t :| (t in a || t in b) && e in t.entries;
      assert t in a + b;
    }
  }

  lemma TableEntriesMinus(a: set<Table>, b: set<Table>)
    requires b <= a
    ensures TableEntries(a) == TableEntries(a - b) + TableEntries(b)
  {
    TableEntriesUnion(a - b, b);
    assert a - b + b == a;
  }

  lemma AddedTables(v: Version, level: nat, ts: set<Table>)
    requires level < NUM_LEVELS
    ensures VersionEntries(AddTable(v, level, ts)) == VersionEntries(v) + TableEntries(ts)
    ensures TablesOf(AddTable(v, level, ts)) == TablesOf(v) + ts
  {
    var w := AddTable(v, level, ts);
    forall t | t in TablesOf(v) + ts ensures t in TablesOf(w) {
      if t in ts {
        assert t in w[level];
      } else {
        var i :| 0 <= i < NUM_LEVELS && t in v[i];
        assert t in w[i];
      }
    }
    assert TablesOf(w) == TablesOf(v) + ts;
    TableEntriesUnion(TablesOf(v), ts);
  }

  // A table placed above everything that shares a key with it keeps the levels ordered.
  lemma AddOrdered(v: Version, level: nat, ts: set<Table>)
    requires level < NUM_LEVELS && LevelsOrdered(v)
    requires forall i :: 0 <= i < level ==> AllNewer(TableEntries(v[i]), TableEntries(ts))
    requires forall j :: level < j < NUM_LEVELS ==> AllNewer(TableEntries(ts), TableEntries(v[j]))
    requires level == 0 ==> NewestHighest(v[0] + ts)
    ensures LevelsOrdered(AddTable(v, level, ts))
  {
    TableEntriesUnion(v[level], ts);
    hide TableEntries, NewestHighest;
  }

  lemma RemoveOrdered(v: Version, level: nat, ts: set<Table>)
    requires level < NUM_LEVELS && LevelsOrdered(v)
    ensures LevelsOrdered(RemoveTables(v, level, ts))
    ensures TablesOf(RemoveTables(v, level, ts)) <= TablesOf(v)
  {
    var w := RemoveTables(v, level, ts);
    forall i | 0 <= i < NUM_LEVELS ensures TableEntries(w[i]) <= TableEntries(v[i]) {
    }
    hide TableEntries;
  }

  // New tables on level 0 have higher numbers and newer entries.
  lemma Level0Grows(v: Version, ts: set<Table>, bound: nat)
    requires LevelsOrdered(v) && NewestHighest(ts) && AllLater(TableEntries(ts), VersionEntries(v))
    requires (forall u :: u in TablesOf(v) ==> u.number < bound) && forall t :: t in ts ==> bound <= t.number
    ensures NewestHighest(v[0] + ts)
  {
    forall t, u | t in ts && u in v[0] ensures u.number < t.number && AllNewer(t.entries, u.entries) {
      assert u in TablesOf(v);
      forall e | e in t.entries ensures e in TableEntries(ts) {
      }
      forall e | e in u.entries ensures e in VersionEntries(v) {
      }
    }
    hide TableEntries, VersionEntries;
  }

  // ------------------------------------------------------------------ files

  lemma FilesKept(v: Version, files: set<Table>, ts: set<Table>, nextFile: nat)
    requires VersionOk(v, files, nextFile) && forall t :: t in ts ==> t.number >= nextFile
    ensures VersionOk(v, WithFiles(files, ts), nextFile)
  {
  }

  lemma ManifestFilesKept(m: Manifest, d: Disk, files: set<Table>, r: Record)
    requires ManifestOk(m, d.logs, d.files, r)
    requires forall t :: t in TablesOf(m.version) ==> t in files
    ensures ManifestOk(m, d.logs, files, r)
  {
    hide LevelsOrdered, VersionEntries, AllLater, LiveLogs;
  }

  lemma DiskFilesKept(d: Disk, files: set<Table>, r: Record)
    requires DiskInv(d, r) && forall t :: t in TablesOf(d.manifest.version) ==> t in files
    ensures DiskInv(d.(files := files), r)
  {
    hide RecordOk, ManifestOk, LogsOrdered, Agree;
    assert ManifestOk(d.manifest, d.logs, d.files, r);
    ManifestFilesKept(d.manifest, d, files, r);
  }

  // ------------------------------------------------------------------ flushing imm_

  // Everything but the background phase is untouched.
  ghost predicate BackgroundOnly(p: Process, p': Process) {
    && p' == p.(bg := p'.bg, nextFile := p'.nextFile, pendingOutputs := p'.pendingOutputs, bgError := p'.bgError)
    && p'.nextFile >= p.nextFile && (p.bgError ==> p'.bgError)
    && (p'.bg.Halted? || (!p.bg.Committed? && !p.bg.Halted? && !p'.bg.Committed?))
    && p.memtables != []
  }

  lemma BackgroundOnlyKeeps(d: Disk, r: Record, p: Process, p': Process)
    requires NumbersOk(d, p) && OrderOk(p) && WriterOk(d, r, p) && LogsOk(d, p) && MeaningOk(r, p)
    requires SnapshotsOk(r, p) && ReadersOk(d, r, p) && BackgroundOnly(p, p')
    ensures NumbersOk(d, p') && OrderOk(p') && WriterOk(d, r, p') && LogsOk(d, p') && MeaningOk(r, p')
    ensures SnapshotsOk(r, p') && ReadersOk(d, r, p')
  {
    hide VersionOk, LevelsOrdered, VersionEntries, AllLater, GroupEntries, Begun, InFlight, ReaderOk, NoSplit,
      AllEntries;
    assert p'.Imm() == p.Imm() && p'.Mem() == p.Mem();
    assert p'.Sources() == p.Sources() && p'.Settled() == p.Settled();
  }

  // A step of the background thread that writes no manifest: only what it is doing is left to prove.
  lemma BackgroundOnlyInv(d: Disk, r: Record, p: Process, p': Process)
    requires MemoryInv(d, Whole(r, p), p) && RiskOk(d, r, p) && BackgroundOnly(p, p') && BackgroundOk(d, r, p')
    ensures ProcInv(d, r, p')
  {
    hide OrderOk, WriterOk, LogsOk, MeaningOk, SnapshotsOk, ReadersOk, BackgroundOk, RiskOk, Whole, VersionOk;
    BackgroundOnlyKeeps(d, Whole(r, p), p, p');
    assert p'.Imm() == p.Imm();
    RiskSame(d, r, p, p');
  }

  // New files whose numbers no version uses.
  lemma NewFilesKeep(d: Disk, r: Record, p: Process, ts: set<Table>)
    requires MemoryInv(d, Whole(r, p), p) && RiskOk(d, r, p) && DiskInv(d, r)
    requires forall t :: t in ts ==> t.number >= d.manifest.nextFile
    ensures var d' := d.(files := WithFiles(d.files, ts));
      MemoryInv(d', Whole(r, p), p) && RiskOk(d', r, p) && DiskInv(d', r)
  {
    hide OrderOk, MeaningOk, SnapshotsOk, RiskOk, DiskInv, Whole, RecordOk, WriterOk, LogsOk;
    DiskInvFiles(d, r);
    DiskFilesKept(d, WithFiles(d.files, ts), r);
    SameLogsMemory(d, d.(files := WithFiles(d.files, ts)), r, p);
    hide ReaderOk;
  }

  lemma DiskInvFiles(d: Disk, r: Record)
    requires DiskInv(d, r)
    ensures VersionOk(d.manifest.version, d.files, d.manifest.nextFile)
  {
  }

  // What depends on the logs and the manifest but not on the table files.
  lemma SameLogsMemory(d: Disk, d': Disk, r: Record, p: Process)
    requires d' == d.(files := d'.files) && p.memtables != [] && p.logFile in d.logs
    ensures WriterOk(d, Whole(r, p), p) ==> WriterOk(d', Whole(r, p), p)
    ensures LogsOk(d, p) ==> LogsOk(d', p)
    ensures RiskOk(d, r, p) ==> RiskOk(d', r, p)
  {
    hide Whole, RecordOk, AllEntries, AllLater, VersionEntries, GroupEntries, LogsBetween, InFlight;
  }

  lemma StartFlushBackground(d: Disk, r: Record, p: Process, p': Process, outer: Option<Merge>)
    requires BackgroundOk(d, r, p) && p.hasImm && d.manifest.nextFile <= p.nextFile
    requires (p.bg.Merging? && outer == Some(p.bg.merge)) || (p.bg.Resting? && outer == None)
    requires p' == p.(bg := Flushing(p.nextFile, outer),
                      nextFile := p.nextFile + 1, pendingOutputs := p.pendingOutputs + {p.nextFile})
    ensures BackgroundOk(d, r, p')
  {
    hide GoodInputs, GoodBase;
  }

  lemma StartFlushKeeps(s: State, s': State)
    requires Inv(s) && Up(s) && StartFlushStep(s, s')
    ensures Inv(s')
  {
    hide DiskInv, OrderOk, WriterOk, LogsOk, MeaningOk, SnapshotsOk, ReadersOk, BackgroundOk, RiskOk, Whole, VersionOk;
    var d, r, p, p' := s.disk, s.rec, s.proc.value, s'.proc.value;
    StartFlushBackground(d, r, p, p', p'.bg.outer);
    BackgroundOnlyInv(d, r, p, p');
  }

  lemma FailTableBackground(d: Disk, r: Record, p: Process, p': Process)
    requires BackgroundOk(d, r, p) && p.bg.Flushing?
    requires p' == p.(pendingOutputs := p.pendingOutputs - {p.bg.number}, bgError := true, bg := OuterPhase(p.bg.outer))
    ensures BackgroundOk(d, r, p')
  {
    hide GoodInputs, GoodBase;
  }

  lemma FailTableKeeps(s: State, s': State)
    requires Inv(s) && Up(s) && FailTableStep(s, s')
    ensures Inv(s')
  {
    hide DiskInv, NumbersOk, OrderOk, WriterOk, LogsOk, MeaningOk, SnapshotsOk, ReadersOk, BackgroundOk, RiskOk, Whole;
    var d, r, p, p' := s.disk, s.rec, s.proc.value, s'.proc.value;
    FailTableBackground(d, r, p, p');
    BackgroundOnlyInv(d, r, p, p');
  }

  lemma FailMergeKeeps(s: State, s': State)
    requires Inv(s) && Up(s) && FailMergeStep(s, s')
    ensures Inv(s')
  {
    hide DiskInv, NumbersOk, OrderOk, WriterOk, LogsOk, MeaningOk, SnapshotsOk, ReadersOk, RiskOk, Whole, PlanOk;
    var d, r, p, p' := s.disk, s.rec, s.proc.value, s'.proc.value;
    BackgroundOnlyInv(d, r, p, p');
  }

  lemma LastLogEntries(logs: Logs, logNumber: nat, logFile: nat)
    requires logFile in logs && logNumber <= logFile && forall n :: n in logs ==> n <= logFile
    ensures LiveLogs(logs, logFile) == GroupEntries(logs[logFile])
    ensures LiveLogs(logs, logNumber) == LogsBetween(logs, logNumber, logFile) + LiveLogs(logs, logFile)
    ensures LogsOrdered(logs, logNumber) ==> AllLater(LiveLogs(logs, logFile), LogsBetween(logs, logNumber, logFile))
  {
    hide GroupEntries, LogsOrdered;
    var live := LiveLogs(logs, logNumber);
    forall e | e in live ensures e in LogsBetween(logs, logNumber, logFile) + LiveLogs(logs, logFile) {
      var n :| n in logs && logNumber <= n && e in GroupEntries(logs[n]);
    }
    forall e | e in LogsBetween(logs, logNumber, logFile) + LiveLogs(logs, logFile) ensures e in live {
      var n :| n in logs && logNumber <= n && e in GroupEntries(logs[n]);
    }
    if LogsOrdered(logs, logNumber) {
      forall e, f | e in LiveLogs(logs, logFile) && f in LogsBetween(logs, logNumber, logFile)
        ensures e.seqno > f.seqno
      {
        var n :| n in logs && logNumber <= n < logFile && f in GroupEntries(logs[n]);
        LaterInOrder(logs, logNumber, n, logFile, e, f);
      }
    }
  }

  lemma LaterInOrder(logs: Logs, logNumber: nat, n: nat, m: nat, e: Entry, f: Entry)
    requires LogsOrdered(logs, logNumber) && n in logs && m in logs && logNumber <= n < m
    requires e in GroupEntries(logs[m]) && f in GroupEntries(logs[n])
    ensures e.seqno > f.seqno
  {
    hide GroupEntries;
  }

  // The level chosen for the flushed table keeps shallower levels newer.
  lemma FlushOrdered(v: Version, level: nat, t: Table)
    requires LevelsOrdered(v) && GoodFlushLevel(v, level, t.entries) && AllLater(t.entries, VersionEntries(v))
    requires forall u :: u in TablesOf(v) ==> u.number < t.number
    ensures LevelsOrdered(AddTable(v, level, {t}))
  {
    assert TableEntries({t}) == t.entries;
    Level0Grows(v, {t}, t.number);
    forall j | level < j < NUM_LEVELS ensures AllNewer(t.entries, TableEntries(v[j])) {
      forall f | f in TableEntries(v[j]) ensures f in VersionEntries(v) { VersionEntriesByLevel(v, f); }
    }
    forall i | 0 <= i < level ensures AllNewer(TableEntries(v[i]), t.entries) {
      assert !SharesKey(t.entries, TableEntries(v[i]));
    }
    AddOrdered(v, level, {t});
  }

  // A running merge does not notice a flush: no key of its inputs is placed at or below them.
  lemma FlushBesideMerge(v: Version, level: nat, t: Table, c: Merge)
    requires GoodInputs(v, c.level, c.in0, c.in1) && GoodBase(v, c.level, c.Inputs(), c.isBase)
    requires GoodFlushLevel(v, level, t.entries) && AllLater(t.entries, VersionEntries(v))
    ensures GoodInputs(AddTable(v, level, {t}), c.level, c.in0, c.in1)
    ensures GoodBase(AddTable(v, level, {t}), c.level, c.Inputs(), c.isBase)
  {
    var w := AddTable(v, level, {t});
    assert TableEntries({t}) == t.entries;
    forall e | e in c.Inputs()
        ensures e in VersionEntries(v) && (e in TableEntries(v[c.level]) || e in TableEntries(v[c.level+1])) {
      assert e in TableEntries(v[c.level]) || e in TableEntries(v[c.level+1]);
      VersionEntriesByLevel(v, e);
    }
    forall i, ts: set<Table> | 0 <= i < NUM_LEVELS && ts <= v[i] && AllNewer(TableEntries(v[i] - ts), c.Inputs())
      ensures AllNewer(TableEntries(w[i] - ts), c.Inputs())
    {
      assert w[i] - ts <= (v[i] - ts) + {t};
      TableEntriesUnion(v[i] - ts, {t});
      assert TableEntries(w[i] - ts) <= TableEntries(v[i] - ts) + t.entries;
    }
    forall e, i, f | e in c.Inputs() && c.level + 2 <= i < NUM_LEVELS && f in TableEntries(w[i]) && f.key == e.key
      ensures !c.isBase(e.key)
    {
      TableEntriesUnion(v[i], {t});
    }
  }

  lemma FlushManifestOk(v: Version, level: nat, t: Table, m: Manifest, logs: Logs, files: set<Table>, r: Record)
    requires level < NUM_LEVELS && LevelsOrdered(v) && GoodFlushLevel(v, level, t.entries)
    requires AllLater(t.entries, VersionEntries(v)) && forall u :: u in TablesOf(v) ==> u.number < t.number
    requires VersionOk(v, files, m.nextFile) && t.number < m.nextFile
    requires m.logNumber <= m.nextFile && (t.entries != {} ==> t in files)
    requires VersionEntries(v) + t.entries <= r.logged && AtMost(VersionEntries(v) + t.entries, m.lastSequence)
    requires LiveLogs(logs, m.logNumber) <= r.logged
    requires AllLater(LiveLogs(logs, m.logNumber), VersionEntries(v) + t.entries)
    requires forall g: Group :: g in r.groups ==> g.End() <= m.lastSequence + 1 || GroupIn(logs, m.logNumber, g)
    requires m.version == if t.entries == {} then v else AddTable(v, level, {t})
    ensures ManifestOk(m, logs, files, r) && VersionEntries(m.version) == VersionEntries(v) + t.entries
  {
    assert TableEntries({t}) == t.entries;
    AddedTables(v, level, {t});
    FlushOrdered(v, level, t);
    hide GoodFlushLevel, LevelsOrdered, TablesOf, TableEntries, LiveLogs, GroupIn;
    assert VersionEntries(m.version) == VersionEntries(v) + t.entries;
  }

  // What the invariant says about the memtable being flushed.
  lemma FlushFacts(d: Disk, r: Record, p: Process)
    requires DiskInv(d, r) && NumbersOk(d, p) && OrderOk(p) && LogsOk(d, p) && p.bg.Flushing? && p.hasImm
    ensures LevelsOrdered(p.current) && AllLater(p.Imm(), VersionEntries(p.current))
    ensures VersionEntries(p.current) + p.Imm() <= Saved(r, p.immRisk).logged
    ensures AtMost(VersionEntries(p.current) + p.Imm(), p.lastSequence)
    ensures VersionOk(p.current, d.files, d.manifest.nextFile)
  {
    hide VersionOk, LevelsOrdered, VersionEntries, Agree, GroupEntries, AllEntries, InFlight, RecordOk, LogsOrdered;
    BetweenIsLive(d.logs, d.manifest.logNumber, p.logFile);
  }

  lemma BetweenIsLive(logs: Logs, lo: nat, hi: nat)
    ensures LogsBetween(logs, lo, hi) <= LiveLogs(logs, lo)
  {
    hide GroupEntries;
  }

  lemma FlushLater(d: Disk, r: Record, p: Process)
    requires DiskInv(d, r) && NumbersOk(d, p) && OrderOk(p)
    requires LogsOk(d, p) && RiskOk(d, r, p) && WriterOk(d, Whole(r, p), p)
    requires p.bg.Flushing? && p.hasImm
    ensures AllLater(LiveLogs(d.logs, p.logFile), VersionEntries(p.current) + p.Imm())
    ensures LiveLogs(d.logs, p.logFile) <= LiveLogs(d.logs, d.manifest.logNumber)
  {
    hide VersionOk, LevelsOrdered, VersionEntries, GroupEntries, RecordOk, Agree, InFlight, AllEntries;
    LastLogEntries(d.logs, d.manifest.logNumber, p.logFile);
    LogAfterImm(d, r, p);
  }

  lemma LogAfterImm(d: Disk, r: Record, p: Process)
    requires p.memtables != [] && p.logFile in d.logs && RiskOk(d, r, p)
    ensures AllLater(GroupEntries(d.logs[p.logFile]), AllEntries(p.immRisk))
  {
    hide RecordOk, Whole, AllEntries, GroupEntries, VersionEntries, AllLater;
  }

  lemma FlushGroups(d: Disk, r: Record, p: Process)
    requires p.memtables != [] && p.logFile in d.logs && RiskOk(d, r, p)
    ensures forall g: Group ::
              g in Saved(r, p.immRisk).groups ==> g.End() <= p.lastSequence + 1 || GroupIn(d.logs, p.logFile, g)
  {
    hide RecordOk, Whole, AllEntries, GroupEntries, VersionEntries, AllLater;
  }

  lemma FlushPlanManifest(d: Disk, r: Record, p: Process, level: nat, t: Table, files: set<Table>)
    requires DiskInv(d, r) && ProcInv(d, r, p) && p.bg.Flushing?
    requires t == Table(p.bg.number, p.Imm()) && GoodFlushLevel(p.current, level, p.Imm())
    requires files == if t.entries == {} then d.files else WithFiles(d.files, {t})
    ensures ManifestOk(FlushManifest(p, level, t), d.logs, files, Saved(r, p.immRisk))
    ensures VersionEntries(FlushManifest(p, level, t).version) == VersionEntries(p.current) + p.Imm()
  {
    hide OrderOk, WriterOk, LogsOk, MeaningOk, SnapshotsOk, ReadersOk, RiskOk, DiskInv, ManifestOk, BackgroundOk;
    hide GoodFlushLevel, LevelsOrdered, VersionEntries, AllLater, LiveLogs, GroupIn, AtMost, Whole, AllEntries, Saved,
      VersionOk, WithFiles;
    FlushNumbers(d, r, p);
    FlushFacts(d, r, p);
    FlushLater(d, r, p);
    FlushGroups(d, r, p);
    FlushFiles(d, p, level, t, files);
    NumbersBelow(p.current, d.files, d.manifest.nextFile, t.number);
    FlushManifestOk(p.current, level, t, FlushManifest(p, level, t), d.logs, files, Saved(r, p.immRisk));
  }

  lemma NumbersBelow(v: Version, files: set<Table>, nextFile: nat, number: nat)
    requires VersionOk(v, files, nextFile) && nextFile <= number
    ensures forall u :: u in TablesOf(v) ==> u.number < number
  {
  }

  lemma FlushFiles(d: Disk, p: Process, level: nat, t: Table, files: set<Table>)
    requires VersionOk(p.current, d.files, d.manifest.nextFile)
    requires d.manifest.nextFile <= t.number && GoodFlushLevel(p.current, level, p.Imm())
    requires d.manifest.nextFile <= p.nextFile && files == if t.entries == {} then d.files else WithFiles(d.files, {t})
    ensures level < NUM_LEVELS && VersionOk(p.current, files, p.nextFile) && (t.entries != {} ==> t in files)
  {
    FilesKept(p.current, d.files, {t}, d.manifest.nextFile);
  }

  lemma FlushNumbers(d: Disk, r: Record, p: Process)
    requires DiskInv(d, r) && NumbersOk(d, p) && BackgroundOk(d, r, p) && p.bg.Flushing?
    ensures p.hasImm && d.manifest.nextFile <= p.bg.number < p.nextFile && p.logFile < p.nextFile
    ensures LiveLogs(d.logs, d.manifest.logNumber) <= Saved(r, p.immRisk).logged
  {
    hide VersionOk, MergeOk, VersionEntries, LiveLogs, AllEntries, RecordOk, LogsOrdered, Agree;
  }

  lemma FlushMergeOk(d: Disk, p: Process, level: nat, t: Table, c: Merge, d': Disk, p': Process)
    requires MergeOk(c, p.current, d, p) && p.memtables != [] && OrderOk(p)
    requires p.bg.Flushing? && t == Table(p.bg.number, p.Imm()) && GoodFlushLevel(p.current, level, p.Imm())
    requires forall o :: o in c.outputs ==> o.number != t.number
    requires d' == d.(files := if t.entries == {} then d.files else WithFiles(d.files, {t}))
    requires p' == p.(pendingOutputs := p.pendingOutputs - {p.bg.number}, bg := p'.bg)
    ensures MergeOk(c, p.current, d', p') && MergeOk(c, FlushManifest(p, level, t).version, d', p')
  {
    FlushBesideMerge(p.current, level, t, c);
    hide GoodInputs, GoodBase, GoodFlushLevel, OrderOk;
  }

  ghost predicate FlushPlanned(d: Disk, p: Process, level: nat, t: Table, d': Disk, p': Process) {
    && p.bg.Flushing? && t == Table(p.bg.number, p.Imm()) && GoodFlushLevel(p.current, level, p.Imm())
    && d' == d.(files := if t.entries == {} then d.files else WithFiles(d.files, {t}))
    && p' == p.(pendingOutputs := p.pendingOutputs - {p.bg.number},
                bg := Committing(FlushPlan(FlushManifest(p, level, t), level, t, p.bg.outer)))
  }

  // The interrupted merge is sound for the version before and after the flush.
  ghost predicate OuterMergeOk(outer: Option<Merge>, v: Version, v': Version, d: Disk, p: Process) {
    outer.Some? ==> MergeOk(outer.value, v, d, p) && MergeOk(outer.value, v', d, p)
  }

  lemma FlushMerges(d: Disk, r: Record, p: Process, level: nat, t: Table, d': Disk, p': Process)
    requires FlushPlanned(d, p, level, t, d', p')
    requires p.memtables != [] && OrderOk(p) && BackgroundOk(d, r, p)
    ensures OuterMergeOk(p.bg.outer, p.current, FlushManifest(p, level, t).version, d', p')
  {
    if p.bg.outer.Some? {
      assert MergeOk(p.bg.outer.value, p.current, d, p);
      hide MergeOk, GoodFlushLevel, OrderOk;
      FlushMergeOk(d, p, level, t, p.bg.outer.value, d', p');
    }
  }

  lemma FlushPlanOk(d: Disk, r: Record, p: Process, level: nat, t: Table, d': Disk, p': Process)
    requires FlushPlanned(d, p, level, t, d', p') && NumbersOk(d, p) && BackgroundOk(d, r, p)
    requires OuterMergeOk(p.bg.outer, p.current, FlushManifest(p, level, t).version, d', p')
    requires ManifestOk(FlushManifest(p, level, t), d.logs, d'.files, Saved(r, p.immRisk))
    requires VersionEntries(FlushManifest(p, level, t).version) == VersionEntries(p.current) + p.Imm()
    ensures BackgroundOk(d', r, p')
  {
    hide ManifestOk, MergeOk, GoodFlushLevel, VersionEntries, WithFiles, VersionOk;
    assert p'.Imm() == p.Imm();
  }

  lemma FinishTableKeeps(s: State, level: nat, s': State)
    requires Inv(s) && Up(s) && FinishTableStep(s, level, s')
    ensures Inv(s')
  {
    hide GoodFlushLevel, FlushManifest, DiskInv, NumbersOk, OrderOk, WriterOk, LogsOk, MeaningOk, SnapshotsOk,
      ReadersOk;
    hide BackgroundOk, RiskOk, Whole, Saved, LiveLogs, OuterMergeOk, WithFiles;
    var d, r, p, p' := s.disk, s.rec, s.proc.value, s'.proc.value;
    var t := Table(p.bg.number, p.Imm());
    FlushNumbers(d, r, p);
    FlushPlanManifest(d, r, p, level, t, s'.disk.files);
    FlushMerges(d, r, p, level, t, s'.disk, p');
    FlushPlanOk(d, r, p, level, t, s'.disk, p');
    NewFilesKeep(d, r, p, {t});
    BackgroundOnlyInv(s'.disk, r, p, p');
  }

  // ------------------------------------------------------------------ merging

  lemma StartMergeKeeps(s: State, level: nat, in0: set<Table>, in1: set<Table>, isBase: Key -> bool, s': State)
    requires Inv(s) && Up(s) && StartMergeStep(s, level, in0, in1, isBase, s')
    ensures Inv(s')
  {
    hide DiskInv, NumbersOk, OrderOk, WriterOk, LogsOk, MeaningOk, ReadersOk, GoodInputs, GoodBase, NoSplit, RiskOk,
      Whole;
    var d, r, p, p' := s.disk, s.rec, s.proc.value, s'.proc.value;
    assert TableEntries({}) == {};
    StartMergeHorizon(Whole(r, p), p);
    assert BackgroundOk(d, r, p');
    hide SnapshotsOk;
    BackgroundOnlyInv(d, r, p, p');
  }

  lemma StartMergeHorizon(r: Record, p: Process)
    requires SnapshotsOk(r, p)
    ensures Oldest(p) <= p.lastSequence && forall s :: s in p.snapshots ==> Oldest(p) <= s
  {
    hide NoSplit;
  }

  lemma EmitMerge(c: Merge, t: Table, v: Version, d: Disk, p: Process, d': Disk, p': Process)
    requires MergeOk(c, v, d, p) && t.entries <= c.Output() && t.number == p.nextFile
    requires d' == d.(files := WithFiles(d.files, {t}))
    requires p' == p.(nextFile := p.nextFile + 1, pendingOutputs := p.pendingOutputs + {t.number}, bg := p'.bg)
    ensures MergeOk(c.(outputs := c.outputs + {t}), v, d', p')
  {
    hide GoodInputs, GoodBase;
    var c' := c.(outputs := c.outputs + {t});
    assert c'.Output() == c.Output() && c'.Inputs() == c.Inputs();
    TableEntriesUnion(c.outputs, {t});
    assert TableEntries({t}) == t.entries;
  }

  lemma EmitOutputKeeps(s: State, chunk: set<Entry>, s': State)
    requires Inv(s) && Up(s) && EmitOutputStep(s, chunk, s')
    ensures Inv(s')
  {
    hide DiskInv, OrderOk, WriterOk, LogsOk, MeaningOk, ReadersOk, SnapshotsOk, MergeOk, RiskOk, Whole, VersionOk,
      PlanOk;
    var d, r, p, p' := s.disk, s.rec, s.proc.value, s'.proc.value;
    var t := Table(p.nextFile, chunk);
    NewFilesKeep(d, r, p, {t});
    EmitMerge(p.bg.merge, t, p.current, d, p, s'.disk, p');
    BackgroundOnlyInv(s'.disk, r, p, p');
  }

  // Replacing the inputs by what is kept of them leaves the levels ordered.
  lemma MergedOrdered(v: Version, c: Merge)
    requires LevelsOrdered(v) && GoodInputs(v, c.level, c.in0, c.in1)
    requires TableEntries(c.outputs) <= c.Inputs()
    ensures LevelsOrdered(MergedVersion(v, c))
  {
    var l := c.level;
    var w := RemoveTables(RemoveTables(v, l, c.in0), l + 1, c.in1);
    RemoveOrdered(v, l, c.in0);
    RemoveOrdered(RemoveTables(v, l, c.in0), l + 1, c.in1);
    TableEntriesUnion(c.in0, c.in1);
    assert TableEntries(c.in0) <= TableEntries(v[l]) && TableEntries(c.in1) <= TableEntries(v[l+1]);
    forall e | e in c.Inputs() ensures e in TableEntries(v[l]) || e in TableEntries(v[l+1]) {
    }
    hide TableEntries;
    forall i | 0 <= i < l + 1 ensures AllNewer(TableEntries(w[i]), TableEntries(c.outputs)) {
      assert i == l || w[i] == v[i];
    }
    AddOrdered(w, l + 1, c.outputs);
  }

  // The version after a merge, split at the merge: newer entries, merged entries, older entries.
  ghost function ShallowOf(v: Version, c: Merge): set<Entry>
    requires c.level + 1 < NUM_LEVELS
  {
    (set i, e | 0 <= i < c.level && e in TableEntries(v[i]) :: e)
    + TableEntries(v[c.level] - c.in0) + TableEntries(v[c.level+1] - c.in1)
  }

  ghost function DeepOf(v: Version, c: Merge): set<Entry> {
    set i, e | c.level + 2 <= i < NUM_LEVELS && e in TableEntries(v[i]) :: e
  }

  lemma SplitAtMerge(v: Version, c: Merge)
    requires c.level + 1 < NUM_LEVELS && c.in0 <= v[c.level] && c.in1 <= v[c.level+1]
    ensures VersionEntries(v) == ShallowOf(v, c) + c.Inputs() + DeepOf(v, c)
    ensures VersionEntries(MergedVersion(v, c)) == ShallowOf(v, c) + TableEntries(c.outputs) + DeepOf(v, c)
  {
    var l, w := c.level, MergedVersion(v, c);
    TableEntriesUnion(c.in0, c.in1);
    TableEntriesMinus(v[l], c.in0);
    TableEntriesMinus(v[l+1], c.in1);
    TableEntriesUnion(v[l+1] - c.in1, c.outputs);
    assert w[l] == v[l] - c.in0 && w[l+1] == v[l+1] - c.in1 + c.outputs;
    assert forall i :: 0 <= i < NUM_LEVELS && i != l && i != l + 1 ==> w[i] == v[i];
    hide TableEntries, MergedVersion;
    SplitByLevel(v, v, c, c.Inputs());
    SplitByLevel(v, w, c, TableEntries(c.outputs));
  }

  // w has the levels of v except that the merged entries replace the inputs.
  lemma SplitByLevel(v: Version, w: Version, c: Merge, merged: set<Entry>)
    requires c.level + 1 < NUM_LEVELS
    requires forall i :: 0 <= i < NUM_LEVELS && i != c.level && i != c.level + 1 ==> w[i] == v[i]
    requires TableEntries(w[c.level]) + TableEntries(w[c.level+1])
          == TableEntries(v[c.level] - c.in0) + TableEntries(v[c.level+1] - c.in1) + merged
    ensures VersionEntries(w) == ShallowOf(v, c) + merged + DeepOf(v, c)
  {
    hide TableEntries;
    var l := c.level;
    forall e ensures e in VersionEntries(w) <==> e in ShallowOf(v, c) + merged + DeepOf(v, c) {
      VersionEntriesByLevel(w, e);
      assert e in TableEntries(w[l]) + TableEntries(w[l+1])
        <==> e in TableEntries(v[l] - c.in0) + TableEntries(v[l+1] - c.in1) + merged;
    }
  }

  // Together with anything newer than the version, a finished merge reads the same from c.oldest on.
  lemma MergeMeaning(v: Version, c: Merge, newer: set<Entry>, all: set<Entry>)
    requires LevelsOrdered(v) && GoodInputs(v, c.level, c.in0, c.in1) && GoodBase(v, c.level, c.Inputs(), c.isBase)
    requires TableEntries(c.outputs) == c.Output()
    requires newer + VersionEntries(v) <= all && OnePerSequence(all) && AllLater(newer, VersionEntries(v))
    ensures Agree(newer + VersionEntries(v), newer + VersionEntries(MergedVersion(v, c)), c.oldest)
  {
    SplitAtMerge(v, c);
    MergeNeighbours(v, c);
    var s, i, o, d := ShallowOf(v, c), c.Inputs(), c.Output(), DeepOf(v, c);
    hide TableEntries, ShallowOf, DeepOf, LevelsOrdered, GoodInputs, GoodBase, MergedVersion, Kept, VersionEntries,
      Agree;
    assert newer + VersionEntries(v) == newer + s + i + d;
    assert newer + VersionEntries(MergedVersion(v, c)) == newer + s + o + d;
    OnePerSequenceIsUnique(newer + s + i + d, all);
    CompactionPreservesMeaning(newer + s, i, d, c.oldest, c.isBase);
  }

  lemma MergeNeighbours(v: Version, c: Merge)
    requires LevelsOrdered(v) && GoodInputs(v, c.level, c.in0, c.in1) && GoodBase(v, c.level, c.Inputs(), c.isBase)
    ensures AllNewer(ShallowOf(v, c), c.Inputs()) && AllNewer(c.Inputs(), DeepOf(v, c))
    ensures BaseIsSound(c.Inputs(), DeepOf(v, c), c.isBase)
  {
    var l := c.level;
    TableEntriesUnion(c.in0, c.in1);
    assert TableEntries(c.in0) <= TableEntries(v[l]) && TableEntries(c.in1) <= TableEntries(v[l+1]);
    hide TableEntries;
  }

  // A manifest with no new entries and no newer log number.
  lemma ShrunkManifestOk(m: Manifest, m': Manifest, logs: Logs, files: set<Table>, r: Record)
    requires ManifestOk(m, logs, files, r) && VersionEntries(m'.version) <= VersionEntries(m.version)
    requires m'.logNumber == m.logNumber && m'.lastSequence >= m.lastSequence && m'.nextFile >= m.nextFile
    requires LevelsOrdered(m'.version) && VersionOk(m'.version, files, m'.nextFile)
    ensures ManifestOk(m', logs, files, r)
  {
    hide LevelsOrdered, VersionEntries, VersionOk, LiveLogs, GroupIn;
  }

  lemma MergedTables(v: Version, c: Merge, files: set<Table>, nextFile: nat)
    requires c.level + 1 < NUM_LEVELS && VersionOk(v, files, nextFile)
    requires forall t :: t in c.outputs ==> t in files && t.number < nextFile
    ensures VersionOk(MergedVersion(v, c), files, nextFile)
  {
    forall t | t in TablesOf(MergedVersion(v, c)) ensures t in TablesOf(v) || t in c.outputs {
      var i :| 0 <= i < NUM_LEVELS && t in MergedVersion(v, c)[i];
      assert t in v[i] || t in c.outputs;
    }
  }

  lemma MergedManifest(d: Disk, r: Record, p: Process, c: Merge, m: Manifest)
    requires ManifestOk(d.manifest, d.logs, d.files, r) && NumbersOk(d, p) && MergeOk(c, p.current, d, p)
    requires d.manifest.version == p.current && d.manifest.logNumber == p.logNumber
    requires m == Manifest(MergedVersion(p.current, c), p.logNumber, p.lastSequence, p.nextFile)
    ensures ManifestOk(m, d.logs, d.files, r)
  {
    assert VersionOk(p.current, d.files, p.nextFile);
    MergedTables(p.current, c, d.files, p.nextFile);
    MergedOrdered(p.current, c);
    SplitAtMerge(p.current, c);
    hide GoodBase, GoodInputs, MergedVersion, ShallowOf, DeepOf, VersionEntries, LevelsOrdered, VersionOk, AllLater,
      GroupIn, LiveLogs;
    ShrunkManifestOk(d.manifest, m, d.logs, d.files, r);
  }

  lemma MergePlanOk(d: Disk, r: Record, p: Process, m: Manifest, p': Process)
    requires NumbersOk(d, p) && BackgroundOk(d, r, p) && p.bg.Merging? && p.bg.merge.level + 1 < NUM_LEVELS
    requires TableEntries(p.bg.merge.outputs) == p.bg.merge.Output()
    requires m == Manifest(MergedVersion(p.current, p.bg.merge), p.logNumber, p.lastSequence, p.nextFile)
    requires ManifestOk(m, d.logs, d.files, r) && p' == p.(bg := Committing(MergePlan(m, p.bg.merge)))
    ensures BackgroundOk(d, r, p')
  {
    hide ManifestOk, GoodInputs, GoodBase, VersionOk, MergedVersion, VersionEntries;
  }

  lemma PlanMergeKeeps(s: State, s': State)
    requires Inv(s) && Up(s) && PlanMergeStep(s, s')
    ensures Inv(s')
  {
    hide MergedVersion, TableEntries, OrderOk, WriterOk, LogsOk, MeaningOk, ReadersOk, SnapshotsOk, ManifestOk,
      RiskOk, Whole;
    hide VersionOk, RecordOk, LogsOrdered, Agree, Recoverable, MergeOk;
    var d, r, p, p' := s.disk, s.rec, s.proc.value, s'.proc.value;
    MergedManifest(d, r, p, p.bg.merge, p'.bg.plan.manifest);
    MergePlanOk(d, r, p, p'.bg.plan.manifest, p');
    BackgroundOnlyInv(d, r, p, p');
  }

  lemma RemoveNothing(v: Version, level: nat)
    requires level < NUM_LEVELS
    ensures RemoveTables(v, level, {}) == v
  {
    assert v[level] - {} == v[level];
  }

  lemma MovesOnlyOne(t: Table, level: nat, c: Merge)
    requires c == Merge(level, {t}, {}, 0, c.isBase, {t})
    ensures c.Inputs() == TableEntries(c.outputs)
  {
    assert {t} + {} == {t};
  }

  lemma MovedVersion(v: Version, level: nat, t: Table, files: set<Table>, nextFile: nat)
    requires LevelsOrdered(v) && GoodInputs(v, level, {t}, {}) && VersionOk(v, files, nextFile)
    requires t in files && t.number < nextFile
    ensures var w := AddTable(RemoveTables(v, level, {t}), level + 1, {t});
      LevelsOrdered(w) && VersionEntries(w) == VersionEntries(v) && VersionOk(w, files, nextFile)
  {
    hide RemoveTables, AddTable, LevelsOrdered, VersionEntries, VersionOk, TableEntries, Kept, AllNewer;
    var u := RemoveTables(v, level, {t});
    var c := Merge(level, {t}, {}, 0, k => false, {t});
    RemoveNothing(u, level + 1);
    assert {t} + {} == {t};
    MovesOnlyOne(t, level, c);
    MergedTables(v, c, files, nextFile);
    MergedOrdered(v, c);
    SplitAtMerge(v, c);
  }

  lemma MovePlanOk(d: Disk, r: Record, p: Process, level: nat, t: Table, m: Manifest, p': Process)
    requires NumbersOk(d, p) && ManifestOk(d.manifest, d.logs, d.files, r) && p.bg.Resting?
    requires GoodInputs(p.current, level, {t}, {})
    requires m == Manifest(AddTable(RemoveTables(p.current, level, {t}), level + 1, {t}),
                           p.logNumber, p.lastSequence, p.nextFile)
    requires p' == p.(bg := Committing(MovePlan(m, level, t)))
    ensures BackgroundOk(d, r, p')
  {
    assert t in TablesOf(p.current);
    MovedVersion(p.current, level, t, d.files, p.nextFile);
    hide GoodInputs, VersionOk, VersionEntries, LevelsOrdered, AllLater, GroupIn, LiveLogs, AddTable, RemoveTables;
    ShrunkManifestOk(d.manifest, m, d.logs, d.files, r);
  }

  lemma TrivialMoveKeeps(s: State, level: nat, t: Table, s': State)
    requires Inv(s) && Up(s) && TrivialMoveStep(s, level, t, s')
    ensures Inv(s')
  {
    hide NumbersOk, OrderOk, WriterOk, LogsOk, MeaningOk, ReadersOk, SnapshotsOk, BackgroundOk, ManifestOk, GoodInputs;
    hide AddTable, RemoveTables, RiskOk, Whole, RecordOk, LogsOrdered, Agree, Recoverable;
    var d, r, p, p' := s.disk, s.rec, s.proc.value, s'.proc.value;
    MovePlanOk(d, r, p, level, t, p'.bg.plan.manifest, p');
    BackgroundOnlyInv(d, r, p, p');
  }

  // ------------------------------------------------------------------ LogAndApply

  ghost function CommittedDisk(d: Disk, plan: Plan): Disk {
    d.(manifest := plan.manifest)
  }

  lemma AgreeTransitive(a: set<Entry>, b: set<Entry>, c: set<Entry>, h: nat, h': nat)
    requires Agree(a, b, h) && Agree(a, c, h')
    ensures Agree(b, c, Max(h, h'))
  {
    hide Lookup;
  }

  // A flush changes where an entry is found, not whether it is found.
  // A flush adds to what recovery finds exactly what the log had lost.
  lemma FlushRecoverable(d: Disk, p: Process, m: Manifest)
    requires NumbersOk(d, p) && LogsOk(d, p) && p.bg.Committing? && m.logNumber == p.logFile
    requires VersionEntries(m.version) == VersionEntries(p.current) + p.Imm()
    ensures Recoverable(d.(manifest := m)) == Recoverable(d) + AllEntries(p.immRisk)
  {
    hide VersionOk, VersionEntries, GroupEntries, InFlight, LogsOrdered, AllEntries;
    LastLogEntries(d.logs, d.manifest.logNumber, p.logFile);
  }

  // Entries newer than everything missing from a do not disturb its agreement with the larger b.
  lemma AgreeWithLater(a: set<Entry>, b: set<Entry>, x: set<Entry>, horizon: nat)
    requires Unique(b + x) && Agree(a, b, horizon) && a <= b
    requires forall e, f :: e in x && f in b && f !in a ==> e.seqno > f.seqno
    ensures Agree(a + x, b + x, horizon)
  {
    forall k: Key, s: nat | horizon <= s ensures Lookup(a + x, k, s) == Lookup(b + x, k, s) {
      if e :| e in b + x && e.key == k && e.seqno <= s {
        var n := NewestExists(b + x, k, s, e);
        LookupNewest(b + x, k, s, n);
        if n in a + x {
          LookupNewest(a + x, k, s, n);
        } else {
          LookupLocal(b + x, b, k, s);
          LookupLocal(a + x, a, k, s);
        }
      } else {
        LookupLocal(a + x, b + x, k, s);
      }
    }
  }

  // What the log had lost is durable once imm_ is a table of the version.
  lemma FlushSaves(d: Disk, r: Record, p: Process, m: Manifest)
    requires DiskInv(d, r) && NumbersOk(d, p) && LogsOk(d, p) && RiskOk(d, r, p) && p.bg.Committing?
    requires m.logNumber == p.logFile && VersionEntries(m.version) == VersionEntries(p.current) + p.Imm()
    ensures Agree(Recoverable(d.(manifest := m)), Saved(r, p.immRisk).logged, r.horizon)
    ensures Saved(r, p.immRisk).logged <= Recoverable(d.(manifest := m)) + r.dropped && RecordOk(Saved(r, p.immRisk))
  {
    FlushRecoverable(d, p, m);
    DurableFacts(d, r);
    hide NumbersOk, LogsOk, DiskInv, VersionEntries, RecordOk, Agree, Recoverable, GroupEntries;
    AllEntriesUnion(p.memRisk, p.immRisk);
    SavedRecord(r, p);
    hide AllEntries;
    OnePerSequenceIsUnique(r.logged + AllEntries(p.immRisk), Whole(r, p).logged);
    AgreeWithLater(Recoverable(d), r.logged, AllEntries(p.immRisk), r.horizon);
  }

  lemma DurableFacts(d: Disk, r: Record)
    requires DiskInv(d, r)
    ensures Recoverable(d) <= r.logged <= Recoverable(d) + r.dropped && Agree(Recoverable(d), r.logged, r.horizon)
  {
    hide VersionEntries, LiveLogs, RecordOk, LogsOrdered, Agree, VersionOk, LevelsOrdered, AllLater, GroupIn;
  }

  lemma SavedRecord(r: Record, p: Process)
    requires RecordOk(r) && RecordOk(Whole(r, p))
    ensures RecordOk(Saved(r, p.immRisk)) && OnePerSequence(Whole(r, p).logged)
  {
    AllEntriesUnion(p.memRisk, p.immRisk);
    var q := Saved(r, p.immRisk);
    forall e | e in q.logged ensures exists g: Group :: g in q.groups && e in g.All() {
      if e in r.logged {
        var g: Group :| g in r.groups && e in g.All();
        assert g in q.groups;
      }
    }
  }

  lemma MergeRecoverable(d: Disk, r: Record, p: Process, c: Merge, m: Manifest)
    requires DiskInv(d, r) && NumbersOk(d, p) && p.bg.Committing? && MergeOk(c, p.current, d, p)
    requires TableEntries(c.outputs) == c.Output()
    requires m.version == MergedVersion(p.current, c) && m.logNumber == d.manifest.logNumber
    ensures Agree(Recoverable(d.(manifest := m)), r.logged, Max(c.oldest, r.horizon))
    ensures r.logged <= Recoverable(d.(manifest := m)) + r.dropped + (c.Inputs() - c.Output())
  {
    var live := LiveLogs(d.logs, m.logNumber);
    assert d.manifest.version == p.current;
    assert LevelsOrdered(p.current) && AllLater(live, VersionEntries(p.current)) && OnePerSequence(r.logged);
    assert live + VersionEntries(p.current) <= r.logged;
    assert Agree(Recoverable(d), r.logged, r.horizon) && r.logged <= Recoverable(d) + r.dropped;
    hide GoodInputs, GoodBase, MergedVersion, VersionEntries, LevelsOrdered, LiveLogs, Kept, TableEntries, DiskInv,
      NumbersOk, AllLater, OnePerSequence;
    MergeMeaning(p.current, c, live, r.logged);
    SplitAtMerge(p.current, c);
    hide ShallowOf, DeepOf, Agree;
    assert Recoverable(d) == live + VersionEntries(p.current);
    assert Recoverable(d.(manifest := m)) == live + VersionEntries(m.version);
    AgreeTransitive(Recoverable(d), Recoverable(d.(manifest := m)), r.logged, c.oldest, r.horizon);
  }

  lemma LogsOrderedLater(logs: Logs, a: nat, b: nat)
    requires LogsOrdered(logs, a) && a <= b
    ensures LogsOrdered(logs, b)
  {
    hide AllLater, GroupEntries;
  }

  lemma CommitDisk(d: Disk, r: Record, p: Process, plan: Plan)
    requires DiskInv(d, r) && NumbersOk(d, p) && LogsOk(d, p)
    requires RiskOk(d, r, p) && PlanOk(plan, d, r, p) && p.bg == Committing(plan)
    ensures DiskInv(CommittedDisk(d, plan), RecordAfter(r, p, plan))
  {
    var m, d', r' := plan.manifest, CommittedDisk(d, plan), RecordAfter(r, p, plan);
    LogsOrderedLater(d.logs, d.manifest.logNumber, m.logNumber);
    if plan.FlushPlan? {
      FlushSaves(d, r, p, m);
    } else if plan.MergePlan? {
      MergeRecoverable(d, r, p, plan.merge, m);
    } else {
      assert Recoverable(d.(manifest := m)) == Recoverable(d);
    }
    CommitRecord(d, r, p, plan);
    hide LogsOrdered, LevelsOrdered, VersionEntries, VersionOk, LiveLogs, AllLater, GroupIn, MergeOk, Recoverable,
      Agree, TableEntries, MergedVersion, Kept, LogsBetween, GroupEntries, RecordOk, RiskOk, NumbersOk, LogsOk;
    assert ManifestOk(m, d.logs, d.files, r');
  }

  // What a merge drops was durable.
  lemma CommitRecord(d: Disk, r: Record, p: Process, plan: Plan)
    requires DiskInv(d, r) && NumbersOk(d, p) && PlanOk(plan, d, r, p) && p.bg == Committing(plan)
    ensures RecordAfter(r, p, plan).dropped <= RecordAfter(r, p, plan).logged
    ensures !plan.FlushPlan? ==> RecordOk(RecordAfter(r, p, plan))
  {
    hide LogsOrdered, LevelsOrdered, VersionOk, LiveLogs, AllLater, GroupIn, Agree, Kept, AllEntries, GoodBase,
      MergedVersion;
    if plan.MergePlan? {
      SplitAtMerge(p.current, plan.merge);
    }
  }

  lemma CommitProcess(d: Disk, r: Record, p: Process, plan: Plan)
    requires ProcInv(d, r, p) && p.bg == Committing(plan)
    ensures ProcInv(CommittedDisk(d, plan), RecordAfter(r, p, plan), ProcessAfter(p, plan))
  {
    hide OrderOk, WriterOk, LogsOk, MeaningOk, SnapshotsOk, ReadersOk, RiskOk, PlanOk, RecordAfter, Whole, VersionOk;
    CommitRisk(d, r, p, plan);
    CommitNumbers(d, p, r, plan);
    CommitFiles(d, r, p, plan);
    CommitMeaning(d, r, p, plan);
    CommitBackground(d, r, p, plan);
  }

  lemma CommitFiles(d: Disk, r: Record, p: Process, plan: Plan)
    requires PlanOk(plan, d, r, p)
    ensures d.manifest.nextFile <= plan.manifest.nextFile
  {
    hide ManifestOk, MergeOk, VersionEntries;
  }

  // The records name the same entries and groups.
  ghost predicate SameWhole(a: Record, b: Record) {
    a.logged == b.logged && a.groups == b.groups
  }

  lemma LaterShrinks(a: set<Entry>, b: set<Entry>, c: set<Entry>)
    requires AllLater(a, b) && c <= b
    ensures AllLater(a, c)
  {
  }

  // A merge drops only entries of its version.
  lemma DroppedAfter(d: Disk, r: Record, p: Process, plan: Plan)
    requires PlanOk(plan, d, r, p)
    ensures RecordAfter(r, p, plan).dropped <= r.dropped + VersionEntries(p.current)
    ensures !plan.FlushPlan? ==>
              RecordAfter(r, p, plan).logged == r.logged && RecordAfter(r, p, plan).groups == r.groups
  {
    hide ManifestOk, GoodBase, Kept, MergedVersion, AllEntries;
    if plan.MergePlan? {
      SplitAtMerge(p.current, plan.merge);
    }
  }

  // Committing a flush makes durable what was at risk in imm_.
  lemma CommitFlushRisk(d: Disk, r: Record, p: Process, plan: Plan)
    requires p.memtables != [] && p.logFile in d.logs && LogsOk(d, p) && RiskOk(d, r, p)
    requires plan.FlushPlan? && p.bg == Committing(plan)
    ensures RiskOk(CommittedDisk(d, plan), RecordAfter(r, p, plan), ProcessAfter(p, plan))
    ensures SameWhole(Whole(RecordAfter(r, p, plan), ProcessAfter(p, plan)), Whole(r, p))
  {
    hide RecordOk, VersionEntries, GroupEntries, AllEntries, LogsBetween, InFlight;
    AllEntriesUnion(p.memRisk, p.immRisk);
    NoGroups();
    assert p.memRisk + {} == p.memRisk;
    assert ProcessAfter(p, plan).Imm() == p.Imm();
    SameRecordOk(Whole(r, p), Whole(RecordAfter(r, p, plan), ProcessAfter(p, plan)));
  }

  lemma SameRecordOk(a: Record, b: Record)
    ensures SameWhole(a, b) && RecordOk(a) ==> RecordOk(b)
  {
    hide OnePerSequence;
  }

  // A merge drops nothing newer than what is at risk.
  lemma CommitRisk(d: Disk, r: Record, p: Process, plan: Plan)
    requires NumbersOk(d, p) && LogsOk(d, p) && RiskOk(d, r, p) && PlanOk(plan, d, r, p) && p.bg == Committing(plan)
    ensures RiskOk(CommittedDisk(d, plan), RecordAfter(r, p, plan), ProcessAfter(p, plan))
    ensures SameWhole(Whole(RecordAfter(r, p, plan), ProcessAfter(p, plan)), Whole(r, p))
  {
    if plan.FlushPlan? {
      hide NumbersOk, LogsOk, RiskOk, PlanOk, Whole, RecordAfter;
      CommitFlushRisk(d, r, p, plan);
    } else {
      DroppedAfter(d, r, p, plan);
      CommitMergeRisk(d, r, p, plan);
    }
  }

  lemma CommitMergeRisk(d: Disk, r: Record, p: Process, plan: Plan)
    requires p.memtables != [] && p.logFile in d.logs && RiskOk(d, r, p) && !plan.FlushPlan?
    requires plan.manifest.logNumber == d.manifest.logNumber
    requires RecordAfter(r, p, plan).dropped <= r.dropped + VersionEntries(p.current)
    requires RecordAfter(r, p, plan).logged == r.logged && RecordAfter(r, p, plan).groups == r.groups
    ensures RiskOk(CommittedDisk(d, plan), RecordAfter(r, p, plan), ProcessAfter(p, plan))
    ensures SameWhole(Whole(RecordAfter(r, p, plan), ProcessAfter(p, plan)), Whole(r, p))
  {
    hide RecordOk, VersionEntries, GroupEntries, AllEntries, RecordAfter, AllLater;
    var r' := RecordAfter(r, p, plan);
    assert ProcessAfter(p, plan).Imm() == p.Imm();
    SameRecordOk(Whole(r, p), Whole(r', ProcessAfter(p, plan)));
    LaterShrinks(AllEntries(p.memRisk), r.dropped + VersionEntries(p.current) + p.Imm(),
                 r'.dropped + VersionEntries(p.current) + p.Imm());
    LaterShrinks(AllEntries(p.immRisk), r.dropped + VersionEntries(p.current), r'.dropped + VersionEntries(p.current));
  }

  lemma CommitNumbers(d: Disk, p: Process, r: Record, plan: Plan)
    requires NumbersOk(d, p) && LogsOk(d, p) && PlanOk(plan, d, r, p) && p.bg == Committing(plan)
    ensures NumbersOk(CommittedDisk(d, plan), ProcessAfter(p, plan))
    ensures LogsOk(CommittedDisk(d, plan), ProcessAfter(p, plan))
  {
    hide ManifestOk, MergeOk, VersionEntries, GroupEntries, LogsBetween, InFlight, AllEntries, Saved;
    var p' := ProcessAfter(p, plan);
    assert p'.Imm() == p.Imm() && p'.Mem() == p.Mem();
  }

  lemma CommitMeaning(d: Disk, r: Record, p: Process, plan: Plan)
    requires p.memtables != [] && p.logFile in d.logs
    requires OrderOk(p) && WriterOk(d, Whole(r, p), p) && MeaningOk(Whole(r, p), p) && SnapshotsOk(Whole(r, p), p)
    requires ReadersOk(d, Whole(r, p), p) && d.manifest.nextFile <= plan.manifest.nextFile
    requires SameWhole(Whole(RecordAfter(r, p, plan), ProcessAfter(p, plan)), Whole(r, p))
    ensures var d', p' := CommittedDisk(d, plan), ProcessAfter(p, plan);
            var w' := Whole(RecordAfter(r, p, plan), p');
      OrderOk(p') && WriterOk(d', w', p') && MeaningOk(w', p') && SnapshotsOk(w', p') && ReadersOk(d', w', p')
  {
    hide LevelsOrdered, VersionEntries, AllLater, Begun, InFlight, Whole, RecordAfter;
    var p' := ProcessAfter(p, plan);
    assert p'.Imm() == p.Imm() && p'.Mem() == p.Mem();
    assert p'.Sources() == p.Sources() && p'.Settled() == p.Settled();
  }

  lemma CommitBackground(d: Disk, r: Record, p: Process, plan: Plan)
    requires PlanOk(plan, d, r, p) && p.bg == Committing(plan)
    ensures BackgroundOk(CommittedDisk(d, plan), RecordAfter(r, p, plan), ProcessAfter(p, plan))
  {
    hide GoodInputs, GoodBase, LevelsOrdered, VersionOk, VersionEntries, LiveLogs, GroupIn, AllLater;
    var p' := ProcessAfter(p, plan);
    assert p'.Imm() == p.Imm() && AllEntries({}) == {};
  }

  lemma WriteManifestKeeps(s: State, s': State)
    requires Inv(s) && Up(s) && WriteManifestStep(s, s')
    ensures Inv(s')
  {
    hide DiskInv, NumbersOk, LogsOk, PlanOk, OrderOk, WriterOk, MeaningOk, SnapshotsOk, ReadersOk, RecordAfter,
      RiskOk, Whole, ProcessAfter;
    var d, r, p := s.disk, s.rec, s.proc.value;
    CommitDisk(d, r, p, p.bg.plan);
    CommitProcess(d, r, p, p.bg.plan);
  }

  lemma FailManifestBackground(d: Disk, r: Record, p: Process, p': Process)
    requires BackgroundOk(d, r, p) && (p.bg.Committing? || p.bg.Committed?)
    requires p' == p.(bgError := true, bg := p'.bg, pendingOutputs := p.pendingOutputs - Abandoned(p.bg.plan))
    requires p'.bg == if p.bg.Committed? then Halted
                      else if p.bg.plan.FlushPlan? then OuterPhase(p.bg.plan.outer) else Resting
    ensures BackgroundOk(d, r, p')
  {
    hide GoodInputs, GoodBase, VersionOk, LevelsOrdered, VersionEntries, MergedVersion;
  }

  lemma FailManifestKeeps(s: State, s': State)
    requires Inv(s) && Up(s) && FailManifestStep(s, s')
    ensures Inv(s')
  {
    hide DiskInv, NumbersOk, OrderOk, WriterOk, LogsOk, MeaningOk, SnapshotsOk, ReadersOk, BackgroundOk, RiskOk, Whole;
    var d, r, p, p' := s.disk, s.rec, s.proc.value, s'.proc.value;
    FailManifestBackground(d, r, p, p');
    BackgroundOnlyInv(d, r, p, p');
  }

  // ------------------------------------------------------------------ installing a version

  lemma MergeInstallMeaning(r: Record, p: Process, c: Merge, d: Disk, p': Process)
    requires p.memtables != [] && OrderOk(p) && MeaningOk(r, p) && OnePerSequence(r.logged)
    requires MergeOk(c, p.current, d, p) && TableEntries(c.outputs) == c.Output()
    requires p' == p.(current := MergedVersion(p.current, c), horizon := Max(c.oldest, p.horizon),
                      logNumber := p'.logNumber, bg := p'.bg, pendingOutputs := p'.pendingOutputs)
    ensures MeaningOk(r, p')
  {
    var v, w := p.current, p'.current;
    var settled := set e | e in p.Mem() + p.Imm() && e.seqno <= p.lastSequence;
    MergeInstallFacts(r, p, settled);
    assert p'.Imm() == p.Imm() && p'.Mem() == p.Mem();
    hide OrderOk, VersionEntries, GoodBase, GoodInputs, TableEntries, Kept, MergedVersion, LevelsOrdered, AllLater,
      OnePerSequence, Agree;
    MergeMeaning(v, c, settled, r.logged);
    SplitAtMerge(v, c);
    hide ShallowOf, DeepOf;
    assert VersionEntries(w) <= VersionEntries(v);
    assert p'.Settled() == settled + VersionEntries(w);
    AgreeTransitive(p.Settled(), p'.Settled(), p.history, c.oldest, p.horizon);
  }

  lemma MergeInstallFacts(r: Record, p: Process, settled: set<Entry>)
    requires p.memtables != [] && OrderOk(p) && p.Sources() <= r.logged
    requires settled == set e | e in p.Mem() + p.Imm() && e.seqno <= p.lastSequence
    ensures AllLater(settled, VersionEntries(p.current)) && LevelsOrdered(p.current)
    ensures p.Settled() == settled + VersionEntries(p.current) && settled + VersionEntries(p.current) <= r.logged
  {
    hide VersionEntries, LevelsOrdered, Begun;
  }

  // A flushed or moved table leaves the entries a read can find unchanged.
  lemma SameInstallMeaning(r: Record, p: Process, p': Process)
    requires p.memtables != [] && MeaningOk(r, p)
    requires p'.memtables == p.memtables && p'.lastSequence == p.lastSequence
    requires p'.history == p.history && p'.horizon == p.horizon
    requires p'.Imm() + VersionEntries(p'.current) == p.Imm() + VersionEntries(p.current)
    ensures MeaningOk(r, p')
  {
    hide VersionEntries, Agree;
    assert p'.Sources() == p.Sources();
    assert p'.Settled() == p.Settled();
  }

  lemma InstallMeaning(r: Record, p: Process, plan: Plan, d: Disk)
    requires p.memtables != [] && OrderOk(p) && MeaningOk(Whole(r, p), p) && OnePerSequence(Whole(r, p).logged)
    requires PlanOk(plan, d, r, p)
    ensures MeaningOk(Whole(r, p), Installed(p, plan))
  {
    hide OrderOk, MeaningOk, ManifestOk, VersionEntries, TableEntries, Kept, MergedVersion, OnePerSequence, MergeOk;
    if plan.MergePlan? {
      MergeInstallMeaning(Whole(r, p), p, plan.merge, d, Installed(p, plan));
    } else {
      SameInstallMeaning(Whole(r, p), p, Installed(p, plan));
    }
  }

  // Levels stay ordered, and no table entry is newer than before.
  lemma InstallOrder(p: Process, p': Process)
    requires p.memtables != [] && OrderOk(p) && LevelsOrdered(p'.current)
    requires p'.memtables == p.memtables && p'.lastSequence == p.lastSequence && p'.writer == p.writer
    requires VersionEntries(p'.current) <= VersionEntries(p.current) + p.Imm()
    requires p.hasImm ==> |p.memtables| >= 2
    requires p'.Imm() == {} || (p'.Imm() == p.Imm() && VersionEntries(p'.current) <= VersionEntries(p.current))
    ensures OrderOk(p')
  {
    hide LevelsOrdered, VersionEntries, Begun;
  }

  lemma MergeShrinks(v: Version, c: Merge)
    requires GoodInputs(v, c.level, c.in0, c.in1) && TableEntries(c.outputs) == c.Output()
    ensures VersionEntries(MergedVersion(v, c)) <= VersionEntries(v)
  {
    SplitAtMerge(v, c);
    hide ShallowOf, DeepOf, TableEntries, VersionEntries, MergedVersion, GoodInputs;
  }

  lemma InstalledEntries(d: Disk, r: Record, p: Process, plan: Plan)
    requires PlanOk(plan, d, r, p)
    ensures var p' := Installed(p, plan);
      && LevelsOrdered(p'.current)
      && VersionEntries(p'.current) <= VersionEntries(p.current) + p.Imm()
      && (p'.Imm() == {} || (p'.Imm() == p.Imm() && VersionEntries(p'.current) <= VersionEntries(p.current)))
  {
    hide LevelsOrdered, VersionEntries, GoodBase, GoodInputs, TableEntries, MergedVersion, GroupIn, LiveLogs,
      AllLater, VersionOk, Kept;
    if plan.MergePlan? {
      MergeShrinks(p.current, plan.merge);
    }
  }

  lemma PlanVersion(plan: Plan, d: Disk, r: Record, p: Process)
    requires PlanOk(plan, d, r, p)
    ensures VersionOk(plan.manifest.version, d.files, plan.manifest.nextFile)
  {
    hide VersionOk, MergeOk, VersionEntries, LevelsOrdered, AllLater, LiveLogs, GroupIn;
  }

  lemma InstallNumbers(d: Disk, r: Record, p: Process, plan: Plan)
    requires NumbersOk(d, p) && WriterOk(d, Whole(r, p), p) && LogsOk(d, p) && p.bg == Committed(plan)
    requires PlanOk(plan, d, r, p) && d.manifest == plan.manifest
    ensures NumbersOk(d, Installed(p, plan))
    ensures WriterOk(d, Whole(r, p), Installed(p, plan)) && LogsOk(d, Installed(p, plan))
  {
    hide ManifestOk, VersionOk, MergeOk, VersionEntries, GroupEntries, InFlight, TableEntries, MergedVersion, Kept,
      AllEntries, Whole;
    PlanVersion(plan, d, r, p);
    NoGroups();
    var p' := Installed(p, plan);
    assert p'.Mem() == p.Mem();
    if plan.FlushPlan? {
      assert LogsBetween(d.logs, p.logFile, p.logFile) == {};
      assert p'.Imm() == {};
    } else {
      assert p'.Imm() == p.Imm();
    }
  }

  lemma InstallSnapshots(d: Disk, r: Record, p: Process, plan: Plan)
    requires PlanOk(plan, d, r, p) && SnapshotsOk(Whole(r, p), p) && ReadersOk(d, Whole(r, p), p)
    ensures SnapshotsOk(Whole(r, p), Installed(p, plan)) && ReadersOk(d, Whole(r, p), Installed(p, plan))
  {
    hide ManifestOk, VersionOk, ReaderOk, NoSplit, GoodInputs, GoodBase, VersionEntries, TableEntries, MergedVersion,
      Kept;
    if plan.MergePlan? {
      assert MergeOk(plan.merge, p.current, d, p);
      assert forall i :: 0 <= i < |p.snapshots| ==> p.snapshots[i] in p.snapshots;
    }
  }

  lemma InstallBackground(d: Disk, r: Record, p: Process, plan: Plan)
    requires PlanOk(plan, d, r, p)
    ensures BackgroundOk(d, r, Installed(p, plan))
  {
    hide ManifestOk, GoodInputs, GoodBase, VersionEntries, TableEntries, MergedVersion, Kept;
  }

  lemma NoGroups()
    ensures AllEntries({}) == {}
  {
  }

  lemma InstallRisk(d: Disk, r: Record, p: Process, plan: Plan)
    requires p.memtables != [] && p.logFile in d.logs && RiskOk(d, r, p) && (plan.FlushPlan? ==> p.immRisk == {})
    requires var p' := Installed(p, plan);
      && VersionEntries(p'.current) <= VersionEntries(p.current) + p.Imm()
      && (p'.Imm() == {} || (p'.Imm() == p.Imm() && VersionEntries(p'.current) <= VersionEntries(p.current)))
      && (!plan.FlushPlan? ==> VersionEntries(p'.current) <= VersionEntries(p.current))
    ensures RiskOk(d, r, Installed(p, plan)) && Whole(r, Installed(p, plan)) == Whole(r, p)
  {
    hide RecordOk, VersionEntries, GroupEntries, AllEntries, AllLater;
    var p' := Installed(p, plan);
    LaterShrinks(AllEntries(p.memRisk), r.dropped + VersionEntries(p.current) + p.Imm(),
                 r.dropped + VersionEntries(p'.current) + p'.Imm());
    if plan.FlushPlan? {
      NoGroups();
      NothingLater(r.dropped + VersionEntries(p'.current));
    } else {
      LaterShrinks(AllEntries(p.immRisk), r.dropped + VersionEntries(p.current),
                   r.dropped + VersionEntries(p'.current));
    }
  }

  lemma NothingLater(es: set<Entry>)
    ensures AllLater({}, es)
  {
  }

  lemma InstallFlushed(d: Disk, p: Process, plan: Plan)
    requires p.memtables != [] && p.logFile in d.logs && LogsOk(d, p) && p.bg == Committed(plan)
    ensures plan.FlushPlan? ==> p.immRisk == {}
  {
    hide VersionEntries, GroupEntries, AllEntries, LogsBetween, InFlight;
  }

  lemma KeepsImm(d: Disk, r: Record, p: Process, plan: Plan)
    requires PlanOk(plan, d, r, p)
    ensures !plan.FlushPlan? ==>
              Installed(p, plan).Imm() == p.Imm() &&
                  VersionEntries(Installed(p, plan).current) <= VersionEntries(p.current)
  {
    hide LevelsOrdered, VersionEntries, GoodBase, GoodInputs, TableEntries, MergedVersion, GroupIn, LiveLogs,
      AllLater, VersionOk, Kept, AllEntries;
    if plan.MergePlan? {
      MergeShrinks(p.current, plan.merge);
    }
  }

  lemma InstallKeeps(s: State, s': State)
    requires Inv(s) && Up(s) && InstallStep(s, s')
    ensures Inv(s')
  {
    hide DiskInv, OrderOk, WriterOk, LogsOk, MeaningOk, SnapshotsOk, ReadersOk, PlanOk, OnePerSequence,
      VersionEntries, LevelsOrdered, RiskOk, Whole, VersionOk;
    var d, r, p, plan := s.disk, s.rec, s.proc.value, s.proc.value.bg.plan;
    RiskRecord(d, r, p);
    var w := Whole(r, p);
    InstallNumbers(d, r, p, plan);
    InstallMeaning(r, p, plan, d);
    InstalledEntries(d, r, p, plan);
    InstallOrder(p, Installed(p, plan));
    InstallSnapshots(d, r, p, plan);
    InstallBackground(d, r, p, plan);
    InstallFlushed(d, p, plan);
    KeepsImm(d, r, p, plan);
    InstallRisk(d, r, p, plan);
  }

  // ------------------------------------------------------------------ deleting obsolete files

  // Logs below LogNumber, some or all of them, disappear; no entry recovery needs is lost.
  lemma PurgedLogs(logs: Logs, gone: set<nat>, logNumber: nat)
    requires forall n :: n in gone ==> n < logNumber
    ensures LiveLogs(logs - gone, logNumber) == LiveLogs(logs, logNumber)
    ensures forall hi: nat :: LogsBetween(logs - gone, logNumber, hi) == LogsBetween(logs, logNumber, hi)
    ensures forall g: Group :: GroupIn(logs - gone, logNumber, g) <==> GroupIn(logs, logNumber, g)
    ensures LogsOrdered(logs, logNumber) ==> LogsOrdered(logs - gone, logNumber)
  {
    SameLogs(logs, logs - gone, logNumber);
  }

  // The files are obsolete for p, and its version is the committed one.
  ghost predicate Obsolete(d: Disk, p: Process, oldLogs: set<nat>, oldFiles: set<Table>) {
    && d.manifest.logNumber == p.logNumber && d.manifest.version == p.current
    && (forall n :: n in oldLogs ==> n < p.logNumber)
    && (forall t :: t in oldFiles ==> t !in LiveTables(p) && t.number !in p.pendingOutputs)
  }

  lemma PurgeDisk(d: Disk, r: Record, p: Process, oldLogs: set<nat>, oldFiles: set<Table>)
    requires DiskInv(d, r) && Obsolete(d, p, oldLogs, oldFiles)
    ensures DiskInv(Purged(d, oldLogs, oldFiles), r)
  {
    PurgedLogs(d.logs, oldLogs, p.logNumber);
    hide RecordOk, LogsOrdered, LevelsOrdered, VersionEntries, LiveLogs, AllLater, GroupIn, Agree;
    assert forall t :: t in TablesOf(p.current) ==> t in LiveTables(p);
  }

  lemma PurgeMemory(d: Disk, r: Record, p: Process, oldLogs: set<nat>, oldFiles: set<Table>)
    requires NumbersOk(d, p) && WriterOk(d, r, p) && LogsOk(d, p) && Obsolete(d, p, oldLogs, oldFiles)
    ensures NumbersOk(Purged(d, oldLogs, oldFiles), p) && WriterOk(Purged(d, oldLogs, oldFiles), r, p)
    ensures LogsOk(Purged(d, oldLogs, oldFiles), p)
  {
    hide VersionEntries, GroupEntries, InFlight, LogsBetween, LogsOrdered, AllEntries;
    PurgedLogs(d.logs, oldLogs, p.logNumber);
    assert forall t :: t in TablesOf(p.current) ==> t in LiveTables(p);
  }

  lemma PurgeReaders(d: Disk, r: Record, p: Process, oldLogs: set<nat>, oldFiles: set<Table>)
    requires ReadersOk(d, r, p) && Obsolete(d, p, oldLogs, oldFiles)
    ensures ReadersOk(Purged(d, oldLogs, oldFiles), r, p)
  {
    hide ReaderOk;
    assert forall rd, t :: rd in p.readers && t in TablesOf(rd.version) ==> t in LiveTables(p);
  }

  lemma PurgeBackground(d: Disk, r: Record, p: Process, oldLogs: set<nat>, oldFiles: set<Table>)
    requires BackgroundOk(d, r, p) && (p.bg.Resting? || p.bg.Merging?) && Obsolete(d, p, oldLogs, oldFiles)
    ensures BackgroundOk(Purged(d, oldLogs, oldFiles), r, p)
  {
    hide GoodInputs, GoodBase, TableEntries, Kept, PlanOk;
  }

  lemma PurgeRisk(d: Disk, r: Record, p: Process, oldLogs: set<nat>, oldFiles: set<Table>)
    requires NumbersOk(d, p) && RiskOk(d, r, p) && Obsolete(d, p, oldLogs, oldFiles)
    ensures p.logFile in d.logs - oldLogs && RiskOk(Purged(d, oldLogs, oldFiles), r, p)
  {
    hide RecordOk, Whole, AllEntries, GroupEntries, VersionEntries, AllLater, VersionOk;
  }

  lemma DeleteObsoleteKeeps(s: State, oldLogs: set<nat>, oldFiles: set<Table>, s': State)
    requires Inv(s) && Up(s) && DeleteObsoleteStep(s, oldLogs, oldFiles, s')
    ensures Inv(s')
  {
    hide DiskInv, OrderOk, WriterOk, LogsOk, MeaningOk, SnapshotsOk, ReadersOk, BackgroundOk, RiskOk, Whole, Purged,
      VersionOk;
    var d, r, p := s.disk, s.rec, s.proc.value;
    assert Obsolete(d, p, oldLogs, oldFiles);
    hide NumbersOk, Obsolete;
    PurgeDisk(d, r, p, oldLogs, oldFiles);
    PurgeMemory(d, Whole(r, p), p, oldLogs, oldFiles);
    PurgeReaders(d, Whole(r, p), p, oldLogs, oldFiles);
    PurgeBackground(d, r, p, oldLogs, oldFiles);
    PurgeRisk(d, r, p, oldLogs, oldFiles);
  }
}
