/** Whole-run theorems about the database machine: reads return exactly the completed writes,
    completed writes survive any crash, and no read sees part of a batch.
 */
module StoreTheorems {
  import opened Entries
  import opened Compaction
  import opened Store
  import opened StoreInvariant
  import opened StoreSteps
  import opened StoreBackground
  import opened StoreStrays
  import opened Wrappers

  // ------------------------------------------------------------------ crash and reopen

  lemma AbandonRecoveryKeeps(s: State, junk: set<Table>, junkLog: nat, s': State)
    requires Inv(s) && AbandonRecoveryStep(s, junk, junkLog, s')
    ensures Inv(s')
  {
    var d, r := s.disk, s.rec;
    var files := WithFiles(d.files, junk);
    assert VersionOk(d.manifest.version, d.files, d.manifest.nextFile);
    FilesKept(d.manifest.version, d.files, junk, d.manifest.nextFile);
    hide DiskInv, TablesOf;
    DiskFilesKept(d, files, r);
    DiskSameLogs(d.(files := files), s'.disk, r);
  }

  // How a database is reopened: the arguments of ReopenStep.
  datatype Opening = Opening(reuse: bool, tables: set<Table>, save: bool, last: nat, logFile: nat, nextFile: nat)

  ghost predicate Opens(s: State, o: Opening, s': State) {
    ReopenStep(s, o.reuse, o.tables, o.save, o.last, o.logFile, o.nextFile, s')
  }

  // The replayed entries are split between the new level-0 tables and the memtable.
  lemma ReplayedEntries(s: State, o: Opening, s': State)
    requires Inv(s) && Opens(s, o, s')
    ensures var p := s'.proc.value; var d := s.disk;
      && p.Mem() + TableEntries(o.tables) == LiveLogs(d.logs, d.manifest.logNumber)
      && AllLater(p.Mem(), TableEntries(o.tables))
      && p.Mem() == GroupEntries(s'.disk.logs[p.logFile])
      && LiveLogs(s'.disk.logs, p.logFile) == p.Mem()
      && LogsBetween(s'.disk.logs, s'.disk.manifest.logNumber, p.logFile) == {}
  {
    hide LevelsOrdered, VersionEntries, RecordOk, Agree, GroupIn, TableEntries;
    var d, p, d' := s.disk, s'.proc.value, s'.disk;
    if o.reuse {
      LastLogEntries(d.logs, d.manifest.logNumber, o.logFile);
      hide GroupEntries;
      assert o.save ==> LogsBetween(d.logs, o.logFile, o.logFile) == {};
      assert !o.save ==> TableEntries({}) == {} by { EmptyTables(); }
    } else {
      assert GroupEntries([]) == {};
      LastLogEntries(d'.logs, o.logFile, o.logFile);
      if !o.save {
        EmptyTables();
        NoLogsBetween(d.logs, d'.logs, d.manifest.logNumber, o.logFile);
      }
    }
  }

  lemma EmptyTables()
    ensures TableEntries({}) == {}
  {
  }

  lemma NoLogsBetween(logs: Logs, logs': Logs, lo: nat, hi: nat)
    requires logs' == logs[hi := []]
    ensures LogsBetween(logs', lo, hi) <= LiveLogs(logs, lo)
  {
    forall e | e in LogsBetween(logs', lo, hi) ensures e in LiveLogs(logs, lo) {
      var n :| n in logs' && lo <= n < hi && e in GroupEntries(logs'[n]);
      assert n in logs;
    }
  }

  // Every logged update is below the recovered sequence number.
  lemma RecoveredCoversLogged(s: State, last: nat)
    requires DiskInv(s.disk, s.rec) && RecoveredSequence(s.disk, last)
    ensures AtMost(s.rec.logged, last)
    ensures forall g: Group :: g in s.rec.groups ==> g.End() <= last + 1
  {
    var r, m := s.rec, s.disk.manifest;
    assert forall g: Group :: g in r.groups ==> g.End() <= m.lastSequence + 1 || GroupIn(s.disk.logs, m.logNumber, g);
    hide ManifestOk, LogsOrdered, Agree, GroupIn;
    forall e | e in r.logged ensures e.seqno <= last {
      var g: Group :| g in r.groups && e in g.All();
      GroupSeqnos(g);
    }
  }

  lemma ReopenedVersion(s: State, o: Opening, s': State)
    requires Inv(s) && Opens(s, o, s') && TableEntries(o.tables) <= LiveLogs(s.disk.logs, s.disk.manifest.logNumber)
    ensures var v, d := s'.proc.value.current, s.disk;
      && LevelsOrdered(v) && VersionEntries(v) == VersionEntries(d.manifest.version) + TableEntries(o.tables)
      && VersionOk(v, s'.disk.files, s'.disk.manifest.nextFile)
      && (!o.save ==> v == d.manifest.version)
  {
    hide TableEntries, VersionEntries, LiveLogs, LevelsOrdered, VersionOk, DiskInv, TablesOf, RecoveredSequence,
      LogsBetween, GroupEntries;
    hide WithFiles;
    var d, v := s.disk, s.disk.manifest.version;
    AddedTables(v, 0, o.tables);
    ReopenedFrom(d, s.rec);
    FilesKept(v, d.files, o.tables, d.manifest.nextFile);
    if !o.save {
      assert v[0] + {} == v[0];
    }
    ReopenedFiles(s, o, s');
    NumbersBelow(v, d.files, d.manifest.nextFile, d.manifest.nextFile);
    ReopenedOrder(d.logs, d.manifest.logNumber, v, o.tables, d.manifest.nextFile);
  }

  lemma ReopenedFrom(d: Disk, r: Record)
    requires DiskInv(d, r)
    ensures VersionOk(d.manifest.version, d.files, d.manifest.nextFile) && LevelsOrdered(d.manifest.version)
    ensures AllLater(LiveLogs(d.logs, d.manifest.logNumber), VersionEntries(d.manifest.version))
  {
    hide RecordOk, LogsOrdered, Agree, VersionOk, LevelsOrdered, AllLater, LiveLogs, VersionEntries, GroupIn;
  }

  lemma ReopenedFiles(s: State, o: Opening, s': State)
    requires Opens(s, o, s') && VersionOk(s.disk.manifest.version, s'.disk.files, s.disk.manifest.nextFile)
    requires TablesOf(s'.proc.value.current) == TablesOf(s.disk.manifest.version) + o.tables
    ensures VersionOk(s'.proc.value.current, s'.disk.files, s'.disk.manifest.nextFile)
  {
    hide TablesOf, RecoveredSequence, LogsBetween, GroupEntries, TableEntries, LiveLogs, AddTable;
  }

  lemma ReopenedOrder(logs: Logs, logNumber: nat, v: Version, tables: set<Table>, bound: nat)
    requires AllLater(LiveLogs(logs, logNumber), VersionEntries(v)) && LevelsOrdered(v)
    requires TableEntries(tables) <= LiveLogs(logs, logNumber) && NewestHighest(tables)
    requires (forall u :: u in TablesOf(v) ==> u.number < bound) && forall t :: t in tables ==> bound <= t.number
    ensures LevelsOrdered(AddTable(v, 0, tables))
  {
    hide LiveLogs, VersionEntries, TableEntries, LevelsOrdered, TablesOf, NewestHighest;
    Level0Grows(v, tables, bound);
    forall j | 0 < j < NUM_LEVELS ensures AllNewer(TableEntries(tables), TableEntries(v[j])) {
      forall f | f in TableEntries(v[j]) ensures f in VersionEntries(v) { VersionEntriesByLevel(v, f); }
    }
    AddOrdered(v, 0, tables);
  }

  // What replaying the logs establishes.
  ghost predicate Replayed(d: Disk, d': Disk, p: Process, tables: set<Table>) {
    && p.memtables != [] && !p.hasImm
    && p.Mem() + TableEntries(tables) == LiveLogs(d.logs, d.manifest.logNumber)
    && AllLater(p.Mem(), TableEntries(tables))
    && LogsBetween(d'.logs, d'.manifest.logNumber, p.logFile) == {}
    && VersionEntries(p.current) == VersionEntries(d.manifest.version) + TableEntries(tables)
    && LevelsOrdered(p.current) && VersionOk(p.current, d'.files, d'.manifest.nextFile)
    && d'.manifest.version == p.current && d'.manifest.logNumber == p.logNumber
    && d.manifest.logNumber <= d'.manifest.logNumber <= p.logFile < p.nextFile
    && d'.manifest.nextFile <= p.nextFile && d'.manifest.lastSequence <= p.lastSequence
    && p.logFile in d'.logs && (forall n :: n in d'.logs ==> n <= p.logFile)
    && p.Mem() == GroupEntries(d'.logs[p.logFile])
  }

  lemma ReopenReplays(s: State, o: Opening, s': State)
    requires Inv(s) && Opens(s, o, s')
    ensures Replayed(s.disk, s'.disk, s'.proc.value, o.tables)
  {
    ReplayedEntries(s, o, s');
    ReopenedVersion(s, o, s');
    assert s.disk.manifest.logNumber <= s.disk.manifest.nextFile;
    hide VersionEntries, TableEntries, GroupEntries, LevelsOrdered, VersionOk, AllLater, DiskInv;
    hide LogsBetween, LiveLogs, WithFiles, RecoveredSequence, AddTable;
  }

  // Replaying moves entries between logs, tables and memtable, but loses and invents none.
  lemma ReplayedRecoverable(d: Disk, d': Disk, p: Process, tables: set<Table>)
    requires Replayed(d, d', p, tables)
    ensures Recoverable(d') == Recoverable(d) && p.Mem() + VersionEntries(p.current) == Recoverable(d)
    ensures LiveLogs(d'.logs, d'.manifest.logNumber) == p.Mem()
  {
    LastLogEntries(d'.logs, d'.manifest.logNumber, p.logFile);
    hide VersionEntries, TableEntries, GroupEntries, LevelsOrdered, VersionOk, AllLater;
  }

  lemma ReopenedLogs(s: State, o: Opening, s': State)
    requires Inv(s) && Opens(s, o, s') && s.disk.manifest.logNumber <= s'.disk.manifest.logNumber
    ensures LogsOrdered(s'.disk.logs, s'.disk.manifest.logNumber)
    ensures !o.save ==> forall g: Group ::
      GroupIn(s.disk.logs, s.disk.manifest.logNumber, g) ==> GroupIn(s'.disk.logs, s.disk.manifest.logNumber, g)
  {
    hide VersionEntries, TableEntries, GroupEntries, AllLater, RecordOk, Agree, WithFiles, AddTable, ManifestOk,
      LiveLogs, LogsBetween, RecoveredSequence;
    var d, d' := s.disk, s'.disk;
    if !o.reuse {
      SameLogs(d.logs, d'.logs, d.manifest.logNumber);
    }
    LogsOrderedLater(d'.logs, d.manifest.logNumber, d'.manifest.logNumber);
  }

  lemma ReopenManifest(d: Disk, d': Disk, r: Record, p: Process, tables: set<Table>)
    requires ManifestOk(d.manifest, d.logs, d.files, r) && Replayed(d, d', p, tables)
    requires d'.manifest.logNumber <= d'.manifest.nextFile
    requires AtMost(VersionEntries(d'.manifest.version), d'.manifest.lastSequence)
    requires forall g: Group :: g in r.groups ==>
      g.End() <= d'.manifest.lastSequence + 1 || GroupIn(d'.logs, d'.manifest.logNumber, g)
    ensures ManifestOk(d'.manifest, d'.logs, d'.files, r)
  {
    ReplayedRecoverable(d, d', p, tables);
    hide VersionEntries, TableEntries, GroupEntries, LevelsOrdered, VersionOk, GroupIn, LogsBetween, LiveLogs;
  }

  // The committed manifest covers every update it no longer finds in a log.
  lemma ReopenCovers(s: State, o: Opening, s': State)
    requires Inv(s) && Opens(s, o, s') && Replayed(s.disk, s'.disk, s'.proc.value, o.tables)
    ensures var m' := s'.disk.manifest;
      && AtMost(VersionEntries(m'.version), m'.lastSequence) && s.rec.horizon <= m'.lastSequence
      && m'.logNumber <= m'.nextFile
      && forall g: Group :: g in s.rec.groups ==>
           g.End() <= m'.lastSequence + 1 || GroupIn(s'.disk.logs, m'.logNumber, g)
  {
    RecoveredCoversLogged(s, o.last);
    ReopenedLogs(s, o, s');
    ReplayedRecoverable(s.disk, s'.disk, s'.proc.value, o.tables);
    assert Recoverable(s.disk) <= s.rec.logged;
    hide VersionEntries, TableEntries, GroupEntries, LevelsOrdered, VersionOk, GroupIn, LogsBetween, LiveLogs,
      LogsOrdered, RecordOk, Agree, AllLater, WithFiles, AddTable, RecoveredSequence, LastLog, Recoverable, Replayed;
  }

  lemma ReopenDisk(s: State, o: Opening, s': State)
    requires Inv(s) && Opens(s, o, s')
    ensures DiskInv(s'.disk, s.rec)
  {
    var d, d', p := s.disk, s'.disk, s'.proc.value;
    ReopenReplays(s, o, s');
    ReopenCovers(s, o, s');
    assert d.manifest.logNumber <= d'.manifest.logNumber;
    ReopenedLogs(s, o, s');
    ReplayedRecoverable(d, d', p, o.tables);
    hide ReopenStep, Replayed, RecordOk, LogsOrdered, Agree, Recoverable;
    assert ManifestOk(d.manifest, d.logs, d.files, s.rec);
    hide ManifestOk;
    ReopenManifest(d, d', s.rec, p, o.tables);
  }

  lemma LogsAfterTables(d: Disk, r: Record)
    requires DiskInv(d, r)
    ensures AllLater(LiveLogs(d.logs, d.manifest.logNumber), VersionEntries(d.manifest.version))
  {
    hide RecordOk, LogsOrdered, Agree, VersionOk, LevelsOrdered, AllLater, LiveLogs, VersionEntries, GroupIn;
  }

  lemma ReopenProcess(d: Disk, d': Disk, r: Record, p: Process, tables: set<Table>)
    requires DiskInv(d, r) && Replayed(d, d', p, tables)
    requires AtMost(r.logged, p.lastSequence) && forall g: Group :: g in r.groups ==> g.End() <= p.lastSequence + 1
    requires p.writer.Quiet? && p.bg.Resting? && p.snapshots == [] && p.readers == []
    requires p.memRisk == {} && p.immRisk == {} && p.firstLog == p.logFile
    requires p.history == r.logged && p.horizon == r.horizon <= p.lastSequence && |p.memtables| == 1
    ensures MemoryInv(d', r, p) && BackgroundOk(d', r, p)
  {
    hide DiskInv, VersionEntries, TableEntries, GroupEntries, LevelsOrdered, VersionOk, GroupIn, LogsBetween,
      LiveLogs, Recoverable, Agree, AllEntries;
    ReplayedRecoverable(d, d', p, tables);
    DurableFacts(d, r);
    LogsAfterTables(d, r);
    assert p.Imm() == {};
    assert p.Sources() == Recoverable(d);
    assert p.Settled() == p.Sources();
    NoGroups();
    assert NumbersOk(d', p) && WriterOk(d', r, p) && LogsOk(d', p);
    assert OrderOk(p);
  }

  // Nothing is at risk in a process that has just recovered.
  lemma ReopenRisk(d: Disk, r: Record, p: Process)
    requires RecordOk(r) && p.memtables != [] && p.logFile in d.logs && p.memRisk == {} && p.immRisk == {}
    requires forall g: Group :: g in r.groups ==> g.End() <= p.lastSequence + 1
    ensures Whole(r, p) == r && RiskOk(d, r, p)
  {
    hide RecordOk, VersionEntries, GroupEntries;
    NoGroups();
    assert p.memRisk + p.immRisk == {};
    assert r.logged + {} == r.logged && r.groups + {} == r.groups;
  }

  lemma ReopenKeeps(s: State, o: Opening, s': State)
    requires Inv(s) && Opens(s, o, s')
    ensures Inv(s') && s'.proc.Some?
  {
    ReopenDisk(s, o, s');
    ReopenReplays(s, o, s');
    RecoveredCoversLogged(s, o.last);
    assert s.rec.horizon <= s.disk.manifest.lastSequence;
    assert RecordOk(s.rec);
    var p := s'.proc.value;
    hide DiskInv, MemoryInv, BackgroundOk, RiskOk, RecordOk, Whole, LiveLogs, LogsBetween, RecoveredSequence,
      WithFiles, AddTable;
    hide TableEntries, GroupEntries, VersionOk, VersionEntries, LevelsOrdered;
    ReopenProcess(s.disk, s'.disk, s.rec, p, o.tables);
    ReopenRisk(s'.disk, s.rec, p);
  }

  // ------------------------------------------------------------------ every step, every run

  lemma StepKeeps(s: State, a: Action, s': State)
    requires Inv(s) && StrayInv(s) && Step(s, a, s')
    ensures Inv(s') && StrayInv(s')
  {
    hide Inv, StrayInv, Step;
    StepInv(s, a, s');
    StepStrays(s, a, s');
  }

  lemma StepInv(s: State, a: Action, s': State)
    requires Inv(s) && StrayInv(s) && Step(s, a, s')
    ensures Inv(s')
  {
    hide DiskInv, ProcInv, SwitchStep, BeginGroupStep, AppendStep, FailAppendStep, FailSyncStep, InsertStep,
      FinishWriteStep;
    hide TakeSnapshotStep, ReleaseSnapshotStep, BeginReadStep, EndReadStep, StartFlushStep, FinishTableStep,
      FailTableStep;
    hide FailMergeStep, StartMergeStep, EmitOutputStep, PlanMergeStep, TrivialMoveStep, WriteManifestStep,
      FailManifestStep;
    hide StrayInv, InstallStep, DeleteObsoleteStep, CrashStep, AbandonRecoveryStep, ReopenStep;
    match a
    case Crash(cuts) => CrashKeeps(s, cuts, s');
    case AbandonRecovery(junk, junkLog) => AbandonRecoveryKeeps(s, junk, junkLog, s');
    case Reopen(reuse, tables, save, last, logFile, nextFile) =>
      ReopenKeeps(s, Opening(reuse, tables, save, last, logFile, nextFile), s');
    case SwitchMemtable => SwitchKeeps(s, s');
    case BeginGroup(ops) => BeginGroupPhase(s, ops, s');
    case AppendLog(found, tears) => AppendKeeps(s, found, tears, s');
    case FailAppend(found) => FailAppendPhase(s, found, s');
    case FailSync => FailSyncPhase(s, s');
    case InsertNext => InsertKeeps(s, s');
    case FinishWrite => FinishWriteKeeps(s, s');
    case TakeSnapshot => TakeSnapshotKeeps(s, s');
    case ReleaseSnapshot(i) => ReleaseSnapshotKeeps(s, i, s');
    case BeginRead(snapshot) => BeginReadKeeps(s, snapshot, s');
    case EndRead(i) => EndReadKeeps(s, i, s');
    case StartFlush => StartFlushKeeps(s, s');
    case FinishTable(level) => FinishTableKeeps(s, level, s');
    case FailTable => FailTableKeeps(s, s');
    case FailMerge => FailMergeKeeps(s, s');
    case StartMerge(level, in0, in1, isBase) => StartMergeKeeps(s, level, in0, in1, isBase, s');
    case EmitOutput(chunk) => EmitOutputKeeps(s, chunk, s');
    case PlanMerge => PlanMergeKeeps(s, s');
    case TrivialMove(level, t) => TrivialMoveKeeps(s, level, t, s');
    case WriteManifest => WriteManifestKeeps(s, s');
    case FailManifest => FailManifestKeeps(s, s');
    case InstallVersion => InstallKeeps(s, s');
    case DeleteObsolete(oldLogs, oldFiles) => DeleteObsoleteKeeps(s, oldLogs, oldFiles, s');
  }

  lemma BeginGroupPhase(s: State, ops: seq<Op>, s': State)
    requires Inv(s) && Up(s) && BeginGroupStep(s, ops, s')
    ensures Inv(s')
  {
    hide Inv;
    PhaseKeeps(s, s', Logging(Group(s.proc.value.lastSequence + 1, ops)));
  }

  lemma FailAppendPhase(s: State, found: bool, s': State)
    requires Inv(s) && Up(s) && FailAppendStep(s, found, s')
    ensures Inv(s')
  {
    hide DiskInv, ProcInv;
    var d, p := s.disk, s.proc.value;
    var d' := Torn(d, p.logFile);
    TornDisk(d, d', s.rec);
    TornProcess(d, d', s.rec, p);
    var failed := p.(writer := LogFailed(p.writer.group));
    PhaseKeeps(s.(disk := d'), State(d', s.rec, Some(failed)), LogFailed(p.writer.group));
    StraysAside(d', s.rec, failed, s'.proc.value);
  }

  // The rest of the invariant does not look at them.
  lemma StraysAside(d: Disk, r: Record, p: Process, p': Process)
    requires ProcInv(d, r, p) && p' == p.(memStray := p'.memStray)
    ensures ProcInv(d, r, p')
  {
    hide NumbersOk, OrderOk, WriterOk, LogsOk, MeaningOk, SnapshotsOk, ReadersOk, BackgroundOk, RiskOk, Whole;
    AsideMemory(d, Whole(r, p), p, p');
    AsideBackground(d, r, p, p');
    assert p'.Imm() == p.Imm() && p'.memtables != [] && p.logFile in d.logs by { AsideBasics(d, p, p'); }
    RiskSame(d, r, p, p');
  }

  lemma AsideBasics(d: Disk, p: Process, p': Process)
    requires NumbersOk(d, p) && p' == p.(memStray := p'.memStray)
    ensures p'.Imm() == p.Imm() && p'.memtables != [] && p.logFile in d.logs
  {
    hide VersionOk;
  }

  lemma AsideMemory(d: Disk, w: Record, p: Process, p': Process)
    requires MemoryInv(d, w, p) && p' == p.(memStray := p'.memStray)
    ensures MemoryInv(d, w, p')
  {
    hide VersionOk, LevelsOrdered, AllLater, VersionEntries, GroupEntries, LogsBetween, AllEntries, Agree, ReaderOk,
      NoSplit, AtMost;
    assert p'.Imm() == p.Imm() && p'.Mem() == p.Mem() && p'.Sources() == p.Sources() && p'.Settled() == p.Settled();
  }

  lemma AsideBackground(d: Disk, r: Record, p: Process, p': Process)
    requires NumbersOk(d, p) && BackgroundOk(d, r, p) && p' == p.(memStray := p'.memStray)
    ensures BackgroundOk(d, r, p')
  {
    hide VersionOk, VersionEntries, ManifestOk, GoodInputs, GoodBase, TableEntries, MergedVersion, Kept;
    assert p'.Imm() == p.Imm();
  }

  lemma FailSyncPhase(s: State, s': State)
    requires Inv(s) && Up(s) && FailSyncStep(s, s')
    ensures Inv(s')
  {
    hide Inv;
    PhaseKeeps(s, s', SyncFailed(s.proc.value.writer.group));
  }

  lemma InitInv(s: State)
    requires Init(s)
    ensures Inv(s) && StrayInv(s)
  {
    var d := s.disk;
    assert forall i :: 0 <= i < NUM_LEVELS ==> d.manifest.version[i] == {};
    assert VersionEntries(d.manifest.version) == {} && LiveLogs(d.logs, 0) == {};
    assert Recoverable(d) == {};
  }

  lemma {:induction false} RunInv(states: seq<State>, actions: seq<Action>, n: nat)
    requires Run(states, actions) && n < |states|
    ensures Inv(states[n]) && StrayInv(states[n])
  {
    hide Inv, StrayInv, Init, Step;
    if n == 0 {
      InitInv(states[0]);
    } else {
      RunInv(states, actions, n - 1);
      StepKeeps(states[n-1], actions[n-1], states[n]);
    }
  }

  // ------------------------------------------------------------------ what a read returns

  // Get probes its sources in turn and stops at the first that has any entry it may see.
  ghost function FirstHit(sources: seq<set<Entry>>, k: Key, s: nat): Option<Value> {
    if sources == [] then None
    else if exists e :: Newest(sources[0], k, s, e) then Lookup(sources[0], k, s)
    else FirstHit(sources[1..], k, s)
  }

  ghost function Union(sources: seq<set<Entry>>): set<Entry> {
    if sources == [] then {} else sources[0] + Union(sources[1..])
  }

  // The tables of level 0 from the highest number down.
  ghost predicate ByAge(ts: set<Table>, order: seq<Table>) {
    && (forall t :: t in ts <==> t in order)
    && forall i, j :: 0 <= i < j < |order| ==> order[i].number > order[j].number
  }

  // mem_, imm_ if there was one, the tables of level 0 newest first, then the other levels.
  ghost function ProbeOrder(rd: Reader, memtables: seq<set<Entry>>, order: seq<Table>): seq<set<Entry>>
    requires ReaderShape(rd, memtables)
  {
    [memtables[rd.mem], ReaderImm(rd, memtables)]
        + seq(|order|, i requires 0 <= i < |order| => order[i].entries)
        + seq(NUM_LEVELS - 1, i requires 0 <= i < NUM_LEVELS - 1 => TableEntries(rd.version[i + 1]))
  }

  lemma {:induction false} HighestNumber(ts: set<Table>) returns (t: Table)
    requires NewestHighest(ts) && ts != {}
    ensures t in ts && forall u :: u in ts && u != t ==> u.number < t.number
    decreases |ts|
  {
    var x :| x in ts;
    var rest := ts - {x};
    assert forall u :: u in ts ==> u == x || u in rest;
    t := x;
    if rest != {} {
      var y := HighestNumber(rest);
      t := if y.number < x.number then x else y;
    }
  }

  // There is such an order.
  lemma {:induction false} Level0ByAge(ts: set<Table>) returns (order: seq<Table>)
    requires NewestHighest(ts)
    ensures ByAge(ts, order)
    decreases |ts|
  {
    order := [];
    if ts != {} {
      var t := HighestNumber(ts);
      var rest := Level0ByAge(ts - {t});
      order := [t] + rest;
      forall u ensures u in ts <==> u in order {
        assert u in ts <==> u == t || u in ts - {t};
      }
    }
  }

  lemma {:induction false} UnionMember(sources: seq<set<Entry>>, e: Entry)
    ensures e in Union(sources) <==> exists i :: 0 <= i < |sources| && e in sources[i]
  {
    if sources != [] {
      UnionMember(sources[1..], e);
      if e in Union(sources[1..]) {
        var i :| 0 <= i < |sources[1..]| && e in sources[1..][i];
        assert sources[i+1] == sources[1..][i];
      }
      if i :| 0 < i < |sources| && e in sources[i] {
        assert sources[1..][i-1] == sources[i];
      }
    }
  }

  // If earlier sources are newer, the first hit is the newest entry overall.
  lemma {:induction false} FirstHitIsLookup(sources: seq<set<Entry>>, k: Key, s: nat)
    requires forall i, j :: 0 <= i < j < |sources| ==> AllNewer(sources[i], sources[j])
    requires Unique(Union(sources))
    ensures FirstHit(sources, k, s) == Lookup(Union(sources), k, s)
  {
    if sources != [] {
      var first, rest := sources[0], Union(sources[1..]);
      if e :| Newest(first, k, s, e) {
        forall f | f in rest && f.key == k ensures f.seqno < e.seqno {
          UnionMember(sources[1..], f);
          var j :| 0 <= j < |sources[1..]| && f in sources[1..][j];
          assert AllNewer(sources[0], sources[j+1]);
        }
        assert Newest(Union(sources), k, s, e);
        LookupNewest(Union(sources), k, s, e);
        LookupNewest(first, k, s, e);
      } else {
        forall f | f in first && f.key == k ensures f.seqno > s {
          if f.seqno <= s {
            var n := NewestExists(first, k, s, f);
          }
        }
        assert forall i, j ::
                 0 <= i < j < |sources[1..]| ==> sources[1..][i] == sources[i+1] && sources[1..][j] == sources[j+1];
        FirstHitIsLookup(sources[1..], k, s);
        LookupLocal(Union(sources), rest, k, s);
      }
    }
  }

  // Where source i of the probe order comes from.
  lemma Sources(rd: Reader, memtables: seq<set<Entry>>, order: seq<Table>, i: nat)
    requires ReaderShape(rd, memtables) && i < |ProbeOrder(rd, memtables, order)|
    ensures |ProbeOrder(rd, memtables, order)| == |order| + NUM_LEVELS + 1
    ensures ProbeOrder(rd, memtables, order)[i] ==
              if i == 0 then memtables[rd.mem] else if i == 1 then ReaderImm(rd, memtables)
              else if i < |order| + 2 then order[i - 2].entries else TableEntries(rd.version[i - |order| - 1])
  {
    hide TableEntries, ReaderImm;
  }

  // A table of level 0, or a deeper level, is part of the version.
  lemma SourceInVersion(rd: Reader, memtables: seq<set<Entry>>, order: seq<Table>, i: nat)
    requires ReaderShape(rd, memtables) && 2 <= i < |ProbeOrder(rd, memtables, order)| && ByAge(rd.version[0], order)
    ensures ProbeOrder(rd, memtables, order)[i] <= VersionEntries(rd.version)
    ensures i < |order| + 2 ==> ProbeOrder(rd, memtables, order)[i] <= TableEntries(rd.version[0])
  {
    hide ProbeOrder, VersionEntries;
    Sources(rd, memtables, order, i);
    var source := ProbeOrder(rd, memtables, order)[i];
    forall e | e in source ensures e in VersionEntries(rd.version) {
      var level := if i < |order| + 2 then 0 else i - |order| - 1;
      if level == 0 {
        assert order[i - 2] in rd.version[0];
      }
      assert e in TableEntries(rd.version[level]);
      VersionEntriesByLevel(rd.version, e);
    }
  }

  lemma ProbesOrdered(rd: Reader, memtables: seq<set<Entry>>, order: seq<Table>, i: nat, j: nat)
    requires ReaderShape(rd, memtables) && LevelsOrdered(rd.version) && ByAge(rd.version[0], order)
    requires AllLater(memtables[rd.mem], ReaderImm(rd, memtables) + VersionEntries(rd.version))
    requires AllLater(ReaderImm(rd, memtables), VersionEntries(rd.version))
    requires i < j < |ProbeOrder(rd, memtables, order)|
    ensures AllNewer(ProbeOrder(rd, memtables, order)[i], ProbeOrder(rd, memtables, order)[j])
  {
    hide ProbeOrder, VersionEntries, TableEntries;
    Sources(rd, memtables, order, i);
    Sources(rd, memtables, order, j);
    if 2 <= j {
      SourceInVersion(rd, memtables, order, j);
    }
    if 2 <= i {
      SourceInVersion(rd, memtables, order, i);
      if j < |order| + 2 {
        var t, u := order[i - 2], order[j - 2];
        assert t in rd.version[0] && u in rd.version[0];
      }
    }
  }

  lemma ProbesUnion(rd: Reader, memtables: seq<set<Entry>>, order: seq<Table>, e: Entry)
    requires ReaderShape(rd, memtables) && ByAge(rd.version[0], order)
    ensures e in Union(ProbeOrder(rd, memtables, order)) <==> e in ReaderEntries(rd, memtables)
  {
    hide ProbeOrder, VersionEntries, Union;
    var ps := ProbeOrder(rd, memtables, order);
    UnionMember(ps, e);
    VersionEntriesByLevel(rd.version, e);
    assert |ps| == |order| + NUM_LEVELS + 1 by { ProbeCount(rd, memtables, order); }
    Sources(rd, memtables, order, 0);
    Sources(rd, memtables, order, 1);
    if i :| 0 <= i < |ps| && e in ps[i] {
      Sources(rd, memtables, order, i);
      if i >= 2 {
        SourceInVersion(rd, memtables, order, i);
      }
    }
    if level :| 0 <= level < NUM_LEVELS && e in TableEntries(rd.version[level]) {
      if level == 0 {
        var t :| t in rd.version[0] && e in t.entries;
        var k :| 0 <= k < |order| && order[k] == t;
        Sources(rd, memtables, order, k + 2);
      } else {
        Sources(rd, memtables, order, |order| + 1 + level);
      }
    }
  }

  lemma ProbeCount(rd: Reader, memtables: seq<set<Entry>>, order: seq<Table>)
    requires ReaderShape(rd, memtables)
    ensures |ProbeOrder(rd, memtables, order)| == |order| + NUM_LEVELS + 1
  {
  }

  lemma ProbeOrdered(rd: Reader, p: Process, r: Record, order: seq<Table>)
    requires ReaderOk(rd, p.memtables, p.lastSequence, r, p.history) && ByAge(rd.version[0], order)
    ensures Union(ProbeOrder(rd, p.memtables, order)) == ReaderEntries(rd, p.memtables)
    ensures var ps := ProbeOrder(rd, p.memtables, order);
      forall i, j :: 0 <= i < j < |ps| ==> AllNewer(ps[i], ps[j])
  {
    hide ProbeOrder, Union, ReaderEntries, VersionEntries, LevelsOrdered, AllLater, AllNewer, ByAge, NoSplit, Lookup;
    forall e ensures e in Union(ProbeOrder(rd, p.memtables, order)) <==> e in ReaderEntries(rd, p.memtables) {
      ProbesUnion(rd, p.memtables, order, e);
    }
    var ps := ProbeOrder(rd, p.memtables, order);
    forall i, j | 0 <= i < j < |ps| ensures AllNewer(ps[i], ps[j]) {
      ProbesOrdered(rd, p.memtables, order, i, j);
    }
  }

  /** In every reachable state, every running read returns, for every key, what the completed writes
      up to its sequence number say: whatever was flushed, compacted, installed, deleted or crashed
      before, and whatever writes are in progress now.  It stops at its first hit, probing the tables of
      level 0 from the highest number down.  The tables it reads still exist, and its
      sequence number never falls inside a batch, durable or not.
   */
  lemma ReadsReturnCompletedWrites(states: seq<State>, actions: seq<Action>, n: nat, rd: Reader, k: Key,
                                   order: seq<Table>)
    requires Run(states, actions) && n < |states| && states[n].proc.Some? && rd in states[n].proc.value.readers
    requires ByAge(rd.version[0], order)
    ensures var s, p := states[n], states[n].proc.value;
      && ReaderShape(rd, p.memtables)
      && FirstHit(ProbeOrder(rd, p.memtables, order), k, rd.at) == Lookup(p.history, k, rd.at)
      && (forall t :: t in TablesOf(rd.version) ==> t in s.disk.files)
      && (forall g: Group :: g in s.rec.groups + p.memRisk + p.immRisk ==>
            (forall e :: e in g.All() ==> e.seqno <= rd.at) || (forall e :: e in g.All() ==> e.seqno > rd.at))
  {
    hide Run, Inv, NoSplit, ReaderShape, ReaderEntries, ProbeOrder, ByAge, FirstHit, Lookup, TablesOf, VersionOk;
    var s, p := states[n], states[n].proc.value;
    RunInv(states, actions, n);
    ReadFacts(s, rd, k);
    ReadHits(s, rd, k, order);
    assert forall t :: t in TablesOf(rd.version) ==> t in s.disk.files by { TablesThere(rd.version, s.disk); }
    forall g: Group | g in s.rec.groups + p.memRisk + p.immRisk
      ensures (forall e :: e in g.All() ==> e.seqno <= rd.at) || (forall e :: e in g.All() ==> e.seqno > rd.at)
    {
      NotSplit(s.rec.groups + p.memRisk + p.immRisk, rd.at, g);
    }
  }

  // Every running read has such an order.
  lemma ReadersHaveAnOrder(states: seq<State>, actions: seq<Action>, n: nat, rd: Reader) returns (order: seq<Table>)
    requires Run(states, actions) && n < |states| && states[n].proc.Some? && rd in states[n].proc.value.readers
    ensures ByAge(rd.version[0], order)
  {
    hide Run, Inv, NoSplit, ReaderShape, ReaderEntries, ByAge, Lookup, TablesOf, VersionOk, TableEntries,
      VersionEntries,
      AllLater, AllNewer, NewestHighest;
    RunInv(states, actions, n);
    ReadFacts(states[n], rd, 0);
    order := Level0ByAge(rd.version[0]);
  }

  lemma TablesThere(v: Version, d: Disk)
    requires VersionOk(v, d.files, d.manifest.nextFile)
    ensures forall t :: t in TablesOf(v) ==> t in d.files
  {
  }

  lemma ReadHits(s: State, rd: Reader, k: Key, order: seq<Table>)
    requires Inv(s) && s.proc.Some? && rd in s.proc.value.readers && ReaderShape(rd, s.proc.value.memtables)
    requires ByAge(rd.version[0], order)
    ensures FirstHit(ProbeOrder(rd, s.proc.value.memtables, order), k, rd.at) == Lookup(s.proc.value.history, k, rd.at)
  {
    hide Inv, ByAge, ReaderOk, ReaderShape, ReaderEntries, OnePerSequence, Whole, NoSplit, ProbeOrder, FirstHit, Lookup,
      VersionOk;
    var p := s.proc.value;
    ReadFacts(s, rd, k);
    ProbeOrdered(rd, p, Whole(s.rec, p), order);
    OnePerSequenceIsUnique(ReaderEntries(rd, p.memtables), Whole(s.rec, p).logged);
    FirstHitIsLookup(ProbeOrder(rd, p.memtables, order), k, rd.at);
  }

  lemma ReadFacts(s: State, rd: Reader, k: Key)
    requires Inv(s) && s.proc.Some? && rd in s.proc.value.readers
    ensures var p, w := s.proc.value, Whole(s.rec, s.proc.value);
      && ReaderShape(rd, p.memtables) && ReaderOk(rd, p.memtables, p.lastSequence, w, p.history)
      && VersionOk(rd.version, s.disk.files, s.disk.manifest.nextFile)
      && NoSplit(s.rec.groups + p.memRisk + p.immRisk, rd.at)
      && OnePerSequence(w.logged) && ReaderEntries(rd, p.memtables) <= w.logged
      && Lookup(ReaderEntries(rd, p.memtables), k, rd.at) == Lookup(p.history, k, rd.at)
  {
    hide DiskInv, OrderOk, WriterOk, LogsOk, MeaningOk, SnapshotsOk, BackgroundOk, AllEntries, RiskOk;
    RiskRecord(s.disk, s.rec, s.proc.value);
    var p := s.proc.value;
    assert s.rec.groups + p.memRisk + p.immRisk == Whole(s.rec, p).groups;
  }

  lemma NotSplit(groups: set<Group>, at: nat, g: Group)
    requires NoSplit(groups, at) && g in groups
    ensures (forall e :: e in g.All() ==> e.seqno <= at) || (forall e :: e in g.All() ==> e.seqno > at)
  {
    GroupSeqnos(g);
  }

  // A log file that this process has written to and recovery would replay is torn.
  ghost predicate LiveLogTorn(d: Disk, p: Process) {
    exists n :: n in d.torn && p.firstLog <= n <= p.logFile && d.manifest.logNumber <= n
  }

  /** A process that does not go on with a torn log starts without one: nothing is at risk before one of its own appends
      fails.
   */
  lemma FreshLogIsNotTorn(s: State, a: Action, s': State)
    requires Step(s, a, s') && a.Reopen? && (a.reuse ==> a.logFile !in s.disk.torn)
    ensures s'.proc.Some? && !LiveLogTorn(s'.disk, s'.proc.value)
  {
  }

  /** In every reachable state, running or crashed, every update of a completed write is in a table of the committed
      version or in a log that recovery replays, unless a compaction dropped it or it is at risk.  At risk are exactly
      the updates appended to a torn log that recovery does not find and no flush has saved; while no live log is torn
      nothing is.  All those tables exist, and dropping never changed a read at or above the horizon.
   */
  lemma CompletedWritesAreDurable(states: seq<State>, actions: seq<Action>, n: nat)
    requires Run(states, actions) && n < |states|
    ensures var s := states[n];
      && s.rec.logged <= Recoverable(s.disk) + s.rec.dropped
      && Agree(Recoverable(s.disk), s.rec.logged, s.rec.horizon)
      && (forall t :: t in TablesOf(s.disk.manifest.version) ==> t in s.disk.files)
      && (s.proc.Some? ==>
            var p := s.proc.value;
            var risk := AllEntries(p.memRisk + p.immRisk);
            && p.history <= s.rec.logged + risk && (p.history <= s.rec.logged <==> p.history !! risk)
            && (!LiveLogTorn(s.disk, p) ==> p.history <= s.rec.logged)
            && s.rec.horizon <= p.lastSequence)
  {
    hide Run, OrderOk, WriterOk, LogsOk, SnapshotsOk, ReadersOk, BackgroundOk, RecordOk, Agree, Recoverable,
      LogsOrdered, RiskOk, AllEntries;
    RunInv(states, actions, n);
    var s := states[n];
    if s.proc.Some? {
      RiskFacts(s.disk, s.rec, s.proc.value);
    }
  }

  lemma RiskFacts(d: Disk, r: Record, p: Process)
    requires NumbersOk(d, p) && RiskOk(d, r, p)
    ensures AllEntries(p.memRisk + p.immRisk) !! r.logged
    ensures !LiveLogTorn(d, p) ==> AllEntries(p.memRisk + p.immRisk) == {}
  {
    hide RecordOk, Whole, GroupEntries, VersionEntries, AllLater, VersionOk;
  }

  /** After a crash at any point and any reopening, every read returns what all durable writes say, and new writes get
      fresh numbers.  Together with CompletedWritesAreDurable: no write completed before the crash is lost unless it was
      at risk.
   */
  lemma ReopenRestoresEveryWrite(states: seq<State>, actions: seq<Action>, n: nat, k: Key)
    requires Run(states, actions) && n < |actions| && actions[n].Reopen?
    ensures states[n+1].proc.Some? && states[n+1].proc.value.memtables != []
    ensures var p := states[n+1].proc.value;
      && Lookup(p.Sources(), k, p.lastSequence) == Lookup(states[n].rec.logged, k, p.lastSequence)
      && AtMost(states[n].rec.logged, p.lastSequence)
  {
    assert Step(states[n], actions[n], states[n+1]);
    hide Inv, Step;
    RunInv(states, actions, n);
    RunInv(states, actions, n + 1);
    hide Run;
    ReopenFacts(states[n], actions[n], states[n+1], k);
  }

  lemma ReopenFacts(s: State, a: Action, s': State, k: Key)
    requires Inv(s) && Inv(s') && Step(s, a, s') && a.Reopen?
    ensures s'.proc.Some? && s'.proc.value.memtables != []
    ensures var p := s'.proc.value;
      && Lookup(p.Sources(), k, p.lastSequence) == Lookup(s.rec.logged, k, p.lastSequence)
      && AtMost(s.rec.logged, p.lastSequence)
  {
    hide DiskInv, OnePerSequence, RecoveredSequence, WithFiles, AddTable, TableEntries, LogsBetween, LiveLogs,
      VersionEntries, RiskOk, BackgroundOk, OrderOk, WriterOk, LogsOk, SnapshotsOk, ReadersOk, VersionOk, Whole,
      RecordOk, AtMost, NewestHighest;
    RecoveredCoversLogged(s, a.last);
    var p := s'.proc.value;
    RiskRecord(s'.disk, s'.rec, p);
    WholeIsOne(Whole(s'.rec, p));
    OnePerSequenceIsUnique(p.Sources(), Whole(s'.rec, p).logged);
    LookupLocal(p.Sources(), p.Settled(), k, p.lastSequence);
  }

  lemma WholeIsOne(r: Record)
    requires RecordOk(r)
    ensures OnePerSequence(r.logged)
  {
  }

  // ------------------------------------------------------------------ recovery is never stuck

  lemma {:induction false} Greatest(s: set<nat>) returns (m: nat)
    requires s != {}
    ensures m in s && forall x :: x in s ==> x <= m
    decreases |s|
  {
    var x :| x in s;
    var rest := s - {x};
    assert forall y :: y in s ==> y == x || y in rest;
    if rest == {} {
      m := x;
    } else {
      var r := Greatest(rest);
      m := Max(r, x);
    }
  }

  // From every crashed state some reopening is possible.
  lemma RecoveryIsPossible(s: State) returns (o: Opening, s': State)
    requires s.proc.None?
    ensures Opens(s, o, s')
  {
    var d := s.disk;
    var live := LiveLogs(d.logs, d.manifest.logNumber);
    var ends := {d.manifest.lastSequence + 1}
      + set n, g: Group | n in d.logs && n >= d.manifest.logNumber && g in d.logs[n] :: g.End();
    var last := Greatest(ends);
    var numbers := {d.manifest.nextFile} + d.logs.Keys;
    var log := Greatest(numbers);
    assert d.manifest.nextFile in numbers && forall n :: n in d.logs ==> n in numbers;
    var t := Table(log, live);
    assert TableEntries({t}) == live;
    forall g: Group | GroupIn(d.logs, d.manifest.logNumber, g) ensures g.End() in ends {
      var n :| n in d.logs && n >= d.manifest.logNumber && g in d.logs[n];
    }
    if last != d.manifest.lastSequence + 1 {
      var n, g: Group :| n in d.logs && n >= d.manifest.logNumber && g in d.logs[n] && g.End() == last;
      assert GroupIn(d.logs, d.manifest.logNumber, g);
    }
    assert d.manifest.lastSequence + 1 in ends && RecoveredSequence(d, last - 1);
    o := Opening(false, {t}, true, last - 1, log + 1, log + 2);
    s' := Reopened(s, false, {t}, true, last - 1, log + 1, log + 2);
  }
}
