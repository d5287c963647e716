/** The database as a state machine: the writer at the head of the queue, one background thread,
    any number of readers and snapshots, process crashes and reopening.  A step is what one thread
    does between two releases of the mutex, or one file operation done without the mutex.

    Table files are immutable values; a version is the set of tables on each of the seven levels.
    The bytes of a successful append survive a process crash.  An append that fails, or that a crash interrupts, can
    tear the log file: after a failed one the log writer's block offset no longer is the file's, and an interrupted one
    leaves part of a fragment at the end.  What is appended to a torn log may or may not be found by recovery.
    The queue of waiting writers is in module WriteQueue.
 */
module Store {
  import opened Entries
  import opened Compaction
  import opened Wrappers

  const NUM_LEVELS := 7

  datatype Table = Table(number: nat, entries: set<Entry>)

  type Version = v: seq<set<Table>> | |v| == NUM_LEVELS witness seq(NUM_LEVELS, i => {})

  function EmptyVersion(): Version {
    [{}, {}, {}, {}, {}, {}, {}]
  }

  ghost function TableEntries(ts: set<Table>): set<Entry> {
    set t, e | t in ts && e in t.entries :: e
  }

  ghost function TablesOf(v: Version): set<Table> {
    set i, t | 0 <= i < NUM_LEVELS && t in v[i] :: t
  }

  ghost function VersionEntries(v: Version): set<Entry> {
    TableEntries(TablesOf(v))
  }

  // Tables that may share keys, as on level 0: the higher the number, the newer.
  ghost predicate NewestHighest(ts: set<Table>) {
    forall t, u {:trigger t in ts, u in ts} :: t in ts && u in ts && t != u ==>
      || (u.number < t.number && AllNewer(t.entries, u.entries))
      || (t.number < u.number && AllNewer(u.entries, t.entries))
  }

  // The part of the version set that LogAndApply makes durable.
  datatype Manifest = Manifest(version: Version, logNumber: nat, lastSequence: nat, nextFile: nat)

  // For each log file the groups recovery finds in it.
  type Logs = map<nat, seq<Group>>

  // Torn are the log files to which some append failed or was interrupted by a crash.
  datatype Disk = Disk(manifest: Manifest, logs: Logs, files: set<Table>, torn: set<nat>)

  ghost function GroupEntries(gs: seq<Group>): set<Entry> {
    set i, e | 0 <= i < |gs| && e in gs[i].All() :: e
  }

  ghost function AllEntries(gs: set<Group>): set<Entry> {
    set g, e | g in gs && e in g.All() :: e
  }

  // The entries of the log files numbered lo <= n < hi.
  ghost function LogsBetween(logs: Logs, lo: nat, hi: nat): set<Entry> {
    set n, e | n in logs && lo <= n < hi && e in GroupEntries(logs[n]) :: e
  }

  ghost function LiveLogs(logs: Logs, logNumber: nat): set<Entry> {
    set n, e | n in logs && logNumber <= n && e in GroupEntries(logs[n]) :: e
  }

  // What recovery can find: tables of the committed version and logs not older than LogNumber.
  ghost function Recoverable(d: Disk): set<Entry> {
    VersionEntries(d.manifest.version) + LiveLogs(d.logs, d.manifest.logNumber)
  }

  datatype Writer =
    | Quiet                                // nobody is in the log section
    | Logging(group: Group)                // before log_->AddRecord
    | Inserting(group: Group, done: nat)   // logged; the first `done` updates are in mem_
    | LogFailed(group: Group)
    | SyncFailed(group: Group)

  datatype Merge = Merge(level: nat, in0: set<Table>, in1: set<Table>, oldest: nat,
                         isBase: Key -> bool, outputs: set<Table>)
  {
    ghost function Inputs(): set<Entry> { TableEntries(in0 + in1) }
    ghost function Output(): set<Entry> { Kept(Inputs(), oldest, isBase) }
  }

  // A version edit handed to LogAndApply.
  datatype Plan =
    | FlushPlan(manifest: Manifest, level: nat, table: Table, outer: Option<Merge>)
    | MergePlan(manifest: Manifest, merge: Merge)
    | MovePlan(manifest: Manifest, level: nat, table: Table)

  datatype Background =
    | Resting
    | Flushing(number: nat, outer: Option<Merge>)   // BuildTable is running
    | Merging(merge: Merge)
    | Committing(plan: Plan)                        // manifest record not yet written
    | Committed(plan: Plan)                         // written, not yet the current version
    | Halted                                        // LogAndApply failed, but its record is stored

  datatype Reader = Reader(at: nat, mem: nat, imm: Option<nat>, version: Version)

  datatype Process = Process(
    current: Version, logNumber: nat, nextFile: nat, logFile: nat,
    memtables: seq<set<Entry>>,   // the last one is mem_
    hasImm: bool,                 // then the last but one is imm_
    lastSequence: nat, bgError: bool, writer: Writer, bg: Background,
    snapshots: seq<nat>, readers: seq<Reader>, pendingOutputs: set<nat>,
    history: set<Entry>,          // ghost: every update of every completed write
    horizon: nat,                 // ghost: reads below it may have been compacted away
    memRisk: set<Group>,          // ghost: groups appended to the log of mem_ that recovery would not find
    immRisk: set<Group>,          // ghost: the same for imm_
    firstLog: nat,                // ghost: the log file this process started with
    memStray: seq<Group>,         // ghost: groups in the log of mem_ whose AddRecord reported an error all the same
    immStray: seq<Group>,         // ghost: the same for imm_
    immLog: nat)                  // ghost: the log of imm_, if that has such groups
  {
    ghost function Mem(): set<Entry>
      requires memtables != []
    {
      memtables[|memtables|-1]
    }

    ghost function Imm(): set<Entry> {
      if hasImm && |memtables| >= 2 then memtables[|memtables|-2] else {}
    }

    ghost function Sources(): set<Entry>
      requires memtables != []
    {
      Mem() + Imm() + VersionEntries(current)
    }

    // Sources without the updates of a write still in progress.
    ghost function Settled(): set<Entry>
      requires memtables != []
    {
      set e | e in Sources() && e.seqno <= lastSequence
    }
  }

  // What has become durable since the database was created.
  datatype Record = Record(logged: set<Entry>, groups: set<Group>, dropped: set<Entry>, horizon: nat)

  datatype State = State(disk: Disk, rec: Record, proc: Option<Process>)

  ghost predicate Init(s: State) {
    && s.disk.manifest == Manifest(EmptyVersion(), 0, 0, 2)
    && s.disk.logs == map[] && s.disk.files == {} && s.disk.torn == {}
    && s.rec == Record({}, {}, {}, 0)
    && s.proc == None
  }

  // ------------------------------------------------------------------ contracts of VersionSet
  // Modules VersionFiles and CompactionInputs prove them of its searches over lists of files.

  ghost predicate SharesKey(a: set<Entry>, b: set<Entry>) {
    exists e, f :: e in a && f in b && e.key == f.key
  }

  // PickLevelForMemTableOutput: above level 0 only when no level up to there has one of the keys.
  ghost predicate GoodFlushLevel(v: Version, level: nat, es: set<Entry>) {
    level < NUM_LEVELS &&
    (level > 0 ==> forall i :: 0 <= i <= level ==> !SharesKey(es, TableEntries(v[i])))
  }

  // Inputs of a compaction: what stays behind at the two levels is newer than what is merged.
  ghost predicate GoodInputs(v: Version, level: nat, in0: set<Table>, in1: set<Table>) {
    && level + 1 < NUM_LEVELS && in0 <= v[level] && in1 <= v[level+1]
    && AllNewer(TableEntries(v[level] - in0), TableEntries(in0 + in1))
    && AllNewer(TableEntries(v[level+1] - in1), TableEntries(in0 + in1))
  }

  // IsBaseLevelForKey answers yes only when no deeper level holds the key.
  ghost predicate GoodBase(v: Version, level: nat, es: set<Entry>, isBase: Key -> bool) {
    forall e, i, f :: e in es && level + 2 <= i < NUM_LEVELS && f in TableEntries(v[i]) && f.key == e.key
      ==> !isBase(e.key)
  }

  // ------------------------------------------------------------------ steps

  datatype Action =
    | SwitchMemtable
    | BeginGroup(ops: seq<Op>)
    | AppendLog(found: bool, tears: bool)   // found: recovery would find the group
    | FailAppend(found: bool)               // found: the record was stored nevertheless
    | FailSync
    | InsertNext
    | FinishWrite
    | TakeSnapshot
    | ReleaseSnapshot(index: nat)
    | BeginRead(snapshot: Option<nat>)    // an index into the live snapshots
    | EndRead(index: nat)
    | StartFlush
    | FinishTable(level: nat)
    | FailTable
    | FailMerge
    | StartMerge(mlevel: nat, in0: set<Table>, in1: set<Table>, isBase: Key -> bool)
    | EmitOutput(chunk: set<Entry>)
    | PlanMerge
    | TrivialMove(tlevel: nat, table: Table)
    | WriteManifest
    | FailManifest
    | InstallVersion
    | DeleteObsolete(oldLogs: set<nat>, oldFiles: set<Table>)
    | Crash(cuts: bool)    // cuts: in the middle of an append
    | AbandonRecovery(junk: set<Table>, junkLog: nat)
    | Reopen(reuse: bool, tables: set<Table>, save: bool, last: nat, logFile: nat, nextFile: nat)

  // Creating files truncates those of the same number.
  ghost function WithFiles(files: set<Table>, ts: set<Table>): set<Table> {
    (set f | f in files && forall t :: t in ts ==> t.number != f.number) + ts
  }

  function Oldest(p: Process): nat {
    if p.snapshots == [] then p.lastSequence else p.snapshots[0]
  }

  function AddTable(v: Version, level: nat, ts: set<Table>): Version
    requires level < NUM_LEVELS
  {
    v[level := v[level] + ts]
  }

  function RemoveTables(v: Version, level: nat, ts: set<Table>): Version
    requires level < NUM_LEVELS
  {
    v[level := v[level] - ts]
  }

  function MergedVersion(v: Version, c: Merge): Version
    requires c.level + 1 < NUM_LEVELS
  {
    AddTable(RemoveTables(RemoveTables(v, c.level, c.in0), c.level + 1, c.in1), c.level + 1, c.outputs)
  }

  function OuterPhase(outer: Option<Merge>): Background {
    match outer
    case None => Resting
    case Some(c) => Merging(c)
  }

  // The mutex-protected fields, in a running process.
  ghost predicate Up(s: State) {
    s.proc.Some? && s.proc.value.memtables != []
  }

  // MakeRoomForWrite, with imm_ free and no background error.
  ghost predicate SwitchStep(s: State, s': State)
    requires Up(s)
  {
    var p := s.proc.value;
    && p.writer.Quiet? && !p.bgError && !p.hasImm
    && s' == s.(disk := WithLog(s.disk, p.nextFile), proc := Some(Switched(p)))
  }

  // A new log file, empty and not torn.
  function WithLog(d: Disk, n: nat): Disk {
    d.(logs := d.logs[n := []], torn := d.torn - {n})
  }

  ghost function Switched(p: Process): Process {
    p.(nextFile := p.nextFile + 1, logFile := p.nextFile, memtables := p.memtables + [{}], hasImm := true,
       memRisk := {}, immRisk := p.immRisk + p.memRisk, memStray := [], immStray := p.memStray, immLog := p.logFile)
  }

  ghost predicate BeginGroupStep(s: State, ops: seq<Op>, s': State)
    requires Up(s)
  {
    var p := s.proc.value;
    && p.writer.Quiet? && !p.bgError
    && s' == s.(proc := Some(p.(writer := Logging(Group(p.lastSequence + 1, ops)))))
  }

  // AddRecord succeeded.  Its group is found by recovery unless the log is torn, or is torn now: filling the end of
  // a block may fail without AddRecord noticing.
  ghost predicate AppendStep(s: State, found: bool, tears: bool, s': State)
    requires Up(s)
  {
    var p := s.proc.value;
    && p.writer.Logging? && p.logFile in s.disk.logs
    && (found || tears || p.logFile in s.disk.torn)
    && var g := p.writer.group;
       var d := if tears then Torn(s.disk, p.logFile) else s.disk;
       s' == if found then State(Appended(d, p.logFile, g), Recorded(s.rec, g), Some(p.(writer := Inserting(g, 0))))
             else State(d, s.rec, Some(p.(writer := Inserting(g, 0), memRisk := p.memRisk + {g})))
  }

  function Torn(d: Disk, n: nat): Disk {
    d.(torn := d.torn + {n})
  }

  function Appended(d: Disk, logFile: nat, g: Group): Disk
    requires logFile in d.logs
  {
    d.(logs := d.logs[logFile := d.logs[logFile] + [g]])
  }

  ghost function Recorded(r: Record, g: Group): Record {
    r.(logged := r.logged + g.All(), groups := r.groups + {g})
  }

  // AddRecord failed, so nothing is inserted; yet its record may be whole, when only the last of its file calls failed.
  // Either way the log is torn from now on.
  ghost predicate FailAppendStep(s: State, found: bool, s': State)
    requires Up(s)
  {
    var p := s.proc.value;
    && p.writer.Logging?
    && s' == s.(disk := Torn(s.disk, p.logFile), proc := Some(AppendFailed(p, found)))
  }

  ghost function AppendFailed(p: Process, found: bool): Process
    requires p.writer.Logging?
  {
    p.(writer := LogFailed(p.writer.group), memStray := if found then p.memStray + [p.writer.group] else p.memStray)
  }

  ghost predicate FailSyncStep(s: State, s': State)
    requires Up(s)
  {
    var p := s.proc.value;
    && p.writer.Inserting? && p.writer.done == 0
    && s' == s.(proc := Some(p.(writer := SyncFailed(p.writer.group))))
  }

  ghost predicate InsertStep(s: State, s': State)
    requires Up(s)
  {
    var p := s.proc.value;
    CanInsert(p) && s' == s.(proc := Some(Inserted(p)))
  }

  ghost predicate CanInsert(p: Process) {
    p.memtables != [] && p.writer.Inserting? && p.writer.done < |p.writer.group.ops|
  }

  ghost function NextUpdate(p: Process): Entry
    requires CanInsert(p)
  {
    p.writer.group.At(p.writer.done)
  }

  ghost function WithUpdate(memtables: seq<set<Entry>>, e: Entry): seq<set<Entry>>
    requires memtables != []
  {
    memtables[|memtables|-1 := memtables[|memtables|-1] + {e}]
  }

  ghost function Inserted(p: Process): Process
    requires CanInsert(p)
  {
    p.(memtables := WithUpdate(p.memtables, NextUpdate(p)),
       writer := Inserting(p.writer.group, p.writer.done + 1))
  }

  // SetLastSequence also runs when logging failed; a failed sync stops all later writes.
  ghost predicate FinishWriteStep(s: State, s': State)
    requires Up(s)
  {
    var p := s.proc.value;
    CanFinish(p) && s' == s.(proc := Some(WriteFinished(p)))
  }

  ghost predicate CanFinish(p: Process) {
    && !p.writer.Quiet? && !p.writer.Logging?
    && (p.writer.Inserting? ==> p.writer.done == |p.writer.group.ops|)
  }

  ghost function WriteFinished(p: Process): Process
    requires CanFinish(p)
  {
    var g := p.writer.group;
    p.(lastSequence := p.lastSequence + |g.ops|, writer := Quiet, bgError := p.bgError || p.writer.SyncFailed?,
       history := if p.writer.Inserting? then p.history + g.All() else p.history)
  }

  ghost predicate TakeSnapshotStep(s: State, s': State)
    requires Up(s)
  {
    var p := s.proc.value;
    s' == s.(proc := Some(p.(snapshots := p.snapshots + [p.lastSequence])))
  }

  ghost predicate ReleaseSnapshotStep(s: State, i: nat, s': State)
    requires Up(s)
  {
    var p := s.proc.value;
    && i < |p.snapshots|
    && s' == s.(proc := Some(p.(snapshots := p.snapshots[..i] + p.snapshots[i+1..])))
  }

  // A read takes mem_, imm_, the current version and its sequence number together.
  ghost predicate BeginReadStep(s: State, snapshot: Option<nat>, s': State)
    requires Up(s)
  {
    var p := s.proc.value;
    var n := |p.memtables|;
    && (snapshot.Some? ==> snapshot.value < |p.snapshots|) && (p.hasImm ==> n >= 2)
    && var at := if snapshot.Some? then p.snapshots[snapshot.value] else p.lastSequence;
       var reader := Reader(at, n - 1, if p.hasImm then Some(n - 2) else None, p.current);
       s' == s.(proc := Some(p.(readers := p.readers + [reader])))
  }

  ghost predicate EndReadStep(s: State, i: nat, s': State)
    requires Up(s)
  {
    var p := s.proc.value;
    && i < |p.readers|
    && s' == s.(proc := Some(p.(readers := p.readers[..i] + p.readers[i+1..])))
  }

  // CompactMemTable starts, also from inside a running merge.
  ghost predicate StartFlushStep(s: State, s': State)
    requires Up(s)
  {
    var p := s.proc.value;
    && p.hasImm && (p.bg.Merging? || (p.bg.Resting? && !p.bgError))
    && s' == s.(proc := Some(p.(bg := Flushing(p.nextFile, if p.bg.Merging? then Some(p.bg.merge) else None),
                                nextFile := p.nextFile + 1, pendingOutputs := p.pendingOutputs + {p.nextFile})))
  }

  // BuildTable succeeded.  An empty table is deleted again and not added to the version.
  ghost predicate FinishTableStep(s: State, level: nat, s': State)
    requires Up(s)
  {
    var p := s.proc.value;
    && p.bg.Flushing? && GoodFlushLevel(p.current, level, p.Imm())
    && var t := Table(p.bg.number, p.Imm());
       s' == s.(disk := s.disk.(files := if t.entries == {} then s.disk.files else WithFiles(s.disk.files, {t})),
                proc := Some(p.(pendingOutputs := p.pendingOutputs - {p.bg.number},
                                bg := Committing(FlushPlan(FlushManifest(p, level, t), level, t, p.bg.outer)))))
  }

  ghost function FlushManifest(p: Process, level: nat, t: Table): Manifest
    requires level < NUM_LEVELS
  {
    Manifest(if t.entries == {} then p.current else AddTable(p.current, level, {t}),
             p.logFile, p.lastSequence, p.nextFile)
  }

  ghost predicate FailTableStep(s: State, s': State)
    requires Up(s)
  {
    var p := s.proc.value;
    && p.bg.Flushing?
    && s' == s.(proc := Some(p.(pendingOutputs := p.pendingOutputs - {p.bg.number}, bgError := true,
                                bg := OuterPhase(p.bg.outer))))
  }

  // DoCompactionWork gave up: its outputs stay behind as files no version uses.
  ghost predicate FailMergeStep(s: State, s': State)
    requires Up(s)
  {
    var p := s.proc.value;
    && p.bg.Merging?
    && s' == s.(proc := Some(p.(pendingOutputs := p.pendingOutputs - Numbers(p.bg.merge.outputs), bgError := true,
                                bg := Resting)))
  }

  ghost function Numbers(ts: set<Table>): set<nat> {
    set t | t in ts :: t.number
  }

  ghost predicate StartMergeStep(s: State, level: nat, in0: set<Table>, in1: set<Table>,
                                 isBase: Key -> bool, s': State)
    requires Up(s)
  {
    var p := s.proc.value;
    && p.bg.Resting? && !p.bgError && GoodInputs(p.current, level, in0, in1)
    && GoodBase(p.current, level, TableEntries(in0 + in1), isBase)
    && s' == s.(proc := Some(p.(bg := Merging(Merge(level, in0, in1, Oldest(p), isBase, {})))))
  }

  // An output file of the merge loop is opened, filled and closed.
  ghost predicate EmitOutputStep(s: State, chunk: set<Entry>, s': State)
    requires Up(s)
  {
    var p := s.proc.value;
    && p.bg.Merging? && chunk <= p.bg.merge.Output()
    && var t := Table(p.nextFile, chunk);
       s' == s.(disk := s.disk.(files := WithFiles(s.disk.files, {t})), proc := Some(Emitted(p, t)))
  }

  ghost function Emitted(p: Process, t: Table): Process
    requires p.bg.Merging?
  {
    p.(nextFile := p.nextFile + 1, pendingOutputs := p.pendingOutputs + {t.number},
       bg := Merging(p.bg.merge.(outputs := p.bg.merge.outputs + {t})))
  }

  ghost predicate PlanMergeStep(s: State, s': State)
    requires Up(s)
  {
    var p := s.proc.value;
    && p.bg.Merging? && p.bg.merge.level + 1 < NUM_LEVELS
    && TableEntries(p.bg.merge.outputs) == p.bg.merge.Output()
    && var m := Manifest(MergedVersion(p.current, p.bg.merge), p.logNumber, p.lastSequence, p.nextFile);
       s' == s.(proc := Some(p.(bg := Committing(MergePlan(m, p.bg.merge)))))
  }

  ghost predicate TrivialMoveStep(s: State, level: nat, t: Table, s': State)
    requires Up(s)
  {
    var p := s.proc.value;
    && p.bg.Resting? && !p.bgError && GoodInputs(p.current, level, {t}, {})
    && var m := Manifest(AddTable(RemoveTables(p.current, level, {t}), level + 1, {t}),
                         p.logNumber, p.lastSequence, p.nextFile);
       s' == s.(proc := Some(p.(bg := Committing(MovePlan(m, level, t)))))
  }

  ghost predicate WriteManifestStep(s: State, s': State)
    requires Up(s)
  {
    var p := s.proc.value;
    && p.bg.Committing?
    && s' == State(s.disk.(manifest := p.bg.plan.manifest), RecordAfter(s.rec, p, p.bg.plan),
                   Some(ProcessAfter(p, p.bg.plan)))
  }

  // A flushed memtable is durable, whatever its log lost.
  ghost function RecordAfter(r: Record, p: Process, plan: Plan): Record {
    match plan
    case FlushPlan(_, _, _, _) => Saved(r, p.immRisk)
    case MergePlan(_, c) => r.(dropped := r.dropped + (c.Inputs() - c.Output()), horizon := Max(c.oldest, r.horizon))
    case MovePlan(_, _, _) => r
  }

  ghost function Saved(r: Record, gs: set<Group>): Record {
    r.(logged := r.logged + AllEntries(gs), groups := r.groups + gs)
  }

  ghost function ProcessAfter(p: Process, plan: Plan): Process {
    p.(bg := Committed(plan), immRisk := if plan.FlushPlan? then {} else p.immRisk,
       immStray := if plan.FlushPlan? then [] else p.immStray)
  }

  // LogAndApply failed; its record may have reached the file or not.  If it was not stored, a merge around a flush goes
  // on and may flush again.
  ghost predicate FailManifestStep(s: State, s': State)
    requires Up(s)
  {
    var p := s.proc.value;
    && (p.bg.Committing? || p.bg.Committed?)
    && s' == s.(proc := Some(p.(bgError := true,
                                bg := if p.bg.Committed? then Halted
                                      else if p.bg.plan.FlushPlan? then OuterPhase(p.bg.plan.outer) else Resting,
                                pendingOutputs := p.pendingOutputs - Abandoned(p.bg.plan))))
  }

  ghost function Abandoned(plan: Plan): set<nat> {
    if plan.MergePlan? then Numbers(plan.merge.outputs) else {}
  }

  ghost predicate InstallStep(s: State, s': State)
    requires Up(s)
  {
    var p := s.proc.value;
    p.bg.Committed? && s' == s.(proc := Some(Installed(p, p.bg.plan)))
  }

  ghost function Installed(p: Process, plan: Plan): Process {
    var q := p.(current := plan.manifest.version, logNumber := plan.manifest.logNumber);
    match plan
    case FlushPlan(_, _, _, outer) => q.(hasImm := false, bg := OuterPhase(outer))
    case MergePlan(_, c) => q.(bg := Resting, horizon := Max(c.oldest, p.horizon),
                               pendingOutputs := p.pendingOutputs - Numbers(c.outputs))
    case MovePlan(_, _, _) => q.(bg := Resting)
  }

  ghost function LiveTables(p: Process): set<Table> {
    TablesOf(p.current) + (set r, t | r in p.readers && t in TablesOf(r.version) :: t)
  }

  // Any of the obsolete files: the process may crash between two deletions.
  ghost predicate DeleteObsoleteStep(s: State, oldLogs: set<nat>, oldFiles: set<Table>, s': State)
    requires Up(s)
  {
    var p := s.proc.value;
    && (p.bg.Resting? || p.bg.Merging?) && !p.bgError
    && (forall n :: n in oldLogs ==> n < p.logNumber)
    && (forall t :: t in oldFiles ==> t !in LiveTables(p) && t.number !in p.pendingOutputs)
    && s' == s.(disk := Purged(s.disk, oldLogs, oldFiles))
  }

  function Purged(d: Disk, oldLogs: set<nat>, oldFiles: set<Table>): Disk {
    d.(logs := d.logs - oldLogs, files := d.files - oldFiles)
  }

  // The logs recovery replays, in order; the last one can be reused instead of being flushed.
  ghost predicate LastLog(d: Disk, n: nat) {
    n in d.logs && n >= d.manifest.logNumber && forall m :: m in d.logs ==> m <= n
  }

  ghost predicate GroupIn(logs: Logs, logNumber: nat, g: Group) {
    exists n :: n in logs && n >= logNumber && g in logs[n]
  }

  ghost predicate RecoveredSequence(d: Disk, last: nat) {
    && d.manifest.lastSequence <= last
    && (forall g: Group :: GroupIn(d.logs, d.manifest.logNumber, g) ==> g.End() <= last + 1)
    && (last == d.manifest.lastSequence
        || exists g: Group :: GroupIn(d.logs, d.manifest.logNumber, g) && g.End() == last + 1)
  }

  // The process dies, possibly while AddRecord has stored only part of its record.  What the logs hold of failed writes
  // is durable from now on: recovery will find it.
  ghost predicate CrashStep(s: State, cuts: bool, s': State) {
    && (cuts ==> s.proc.Some? && s.proc.value.writer.Logging?)
    && s' == if s.proc.None? then s else
               var d := if cuts then Torn(s.disk, s.proc.value.logFile) else s.disk;
               State(d.(logs := LogsLeft(d.logs, s.proc.value)), Saved(s.rec, Strays(s.proc.value)), None)
  }

  ghost function Strays(p: Process): set<Group> {
    set g | g in p.memStray + p.immStray
  }

  function More(logs: Logs, n: nat, gs: seq<Group>): Logs {
    if n in logs then logs[n := logs[n] + gs] else logs
  }

  // The log files as recovery will find them.
  function LogsLeft(logs: Logs, p: Process): Logs {
    More(More(logs, p.logFile, p.memStray), p.immLog, p.immStray)
  }

  // A recovery that crashed before its LogAndApply leaves tables and an empty log behind.
  ghost predicate AbandonRecoveryStep(s: State, junk: set<Table>, junkLog: nat, s': State) {
    var d := s.disk;
    && s.proc.None?
    && (forall t :: t in junk ==> t.number >= d.manifest.nextFile)
    && junkLog >= d.manifest.nextFile && (forall n :: n in d.logs ==> n < junkLog)
    && s' == s.(disk := WithLog(d.(files := WithFiles(d.files, junk)), junkLog))
  }

  // DB::Open: Recover replays the live logs into level-0 tables; a reused last log stays a memtable.
  ghost predicate ReopenStep(s: State, reuse: bool, tables: set<Table>, save: bool,
                             last: nat, logFile: nat, nextFile: nat, s': State) {
    var d := s.disk;
    && s.proc.None? && RecoveredSequence(d, last)
    && (reuse ==> LastLog(d, logFile))
    && (!reuse ==> logFile >= d.manifest.nextFile && forall n :: n in d.logs ==> n < logFile)
    && TableEntries(tables) == (if reuse then LogsBetween(d.logs, d.manifest.logNumber, logFile)
                                else LiveLogs(d.logs, d.manifest.logNumber))
    && NewestHighest(tables) && (forall t :: t in tables ==> d.manifest.nextFile <= t.number < nextFile)
    && logFile < nextFile && d.manifest.nextFile <= nextFile && (forall n :: n in d.logs ==> n < nextFile)
    && (!save ==> tables == {})
    && s' == Reopened(s, reuse, tables, save, last, logFile, nextFile)
  }

  ghost function Reopened(s: State, reuse: bool, tables: set<Table>, save: bool,
                          last: nat, logFile: nat, nextFile: nat): State
    requires reuse ==> logFile in s.disk.logs
  {
    var d := s.disk;
    var v := AddTable(d.manifest.version, 0, tables);
    var m := if save then Manifest(v, logFile, last, nextFile) else d.manifest;
    var d' := (if reuse then d else WithLog(d, logFile)).(manifest := m, files := WithFiles(d.files, tables));
    var mem := if reuse then GroupEntries(d.logs[logFile]) else {};
    State(d', s.rec,
          Some(Process(v, m.logNumber, nextFile, logFile, [mem], false, last, false, Quiet, Resting,
                       [], [], {}, s.rec.logged, s.rec.horizon, {}, {}, logFile, [], [], 0)))
  }

  ghost predicate Step(s: State, a: Action, s': State) {
    match a
    case Crash(cuts) => CrashStep(s, cuts, s')
    case AbandonRecovery(junk, junkLog) => AbandonRecoveryStep(s, junk, junkLog, s')
    case Reopen(reuse, tables, save, last, logFile, nextFile) =>
      ReopenStep(s, reuse, tables, save, last, logFile, nextFile, s')
    case SwitchMemtable => Up(s) && SwitchStep(s, s')
    case BeginGroup(ops) => Up(s) && BeginGroupStep(s, ops, s')
    case AppendLog(found, tears) => Up(s) && AppendStep(s, found, tears, s')
    case FailAppend(found) => Up(s) && FailAppendStep(s, found, s')
    case FailSync => Up(s) && FailSyncStep(s, s')
    case InsertNext => Up(s) && InsertStep(s, s')
    case FinishWrite => Up(s) && FinishWriteStep(s, s')
    case TakeSnapshot => Up(s) && TakeSnapshotStep(s, s')
    case ReleaseSnapshot(i) => Up(s) && ReleaseSnapshotStep(s, i, s')
    case BeginRead(snapshot) => Up(s) && BeginReadStep(s, snapshot, s')
    case EndRead(i) => Up(s) && EndReadStep(s, i, s')
    case StartFlush => Up(s) && StartFlushStep(s, s')
    case FinishTable(level) => Up(s) && FinishTableStep(s, level, s')
    case FailTable => Up(s) && FailTableStep(s, s')
    case FailMerge => Up(s) && FailMergeStep(s, s')
    case StartMerge(level, in0, in1, isBase) => Up(s) && StartMergeStep(s, level, in0, in1, isBase, s')
    case EmitOutput(chunk) => Up(s) && EmitOutputStep(s, chunk, s')
    case PlanMerge => Up(s) && PlanMergeStep(s, s')
    case TrivialMove(level, t) => Up(s) && TrivialMoveStep(s, level, t, s')
    case WriteManifest => Up(s) && WriteManifestStep(s, s')
    case FailManifest => Up(s) && FailManifestStep(s, s')
    case InstallVersion => Up(s) && InstallStep(s, s')
    case DeleteObsolete(oldLogs, oldFiles) => Up(s) && DeleteObsoleteStep(s, oldLogs, oldFiles, s')
  }

  // A run from an initial state.
  ghost predicate Run(states: seq<State>, actions: seq<Action>) {
    && |states| == |actions| + 1 && Init(states[0])
    && forall i :: 0 <= i < |actions| ==> Step(states[i], actions[i], states[i+1])
  }
}
