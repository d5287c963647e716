/** What every reachable state of the database machine satisfies. */
module StoreInvariant {
  import opened Entries
  import opened Compaction
  import opened Store
  import opened Wrappers

  ghost predicate AllLater(later: set<Entry>, earlier: set<Entry>) {
    forall e, f {:trigger e in later, f in earlier} :: e in later && f in earlier ==> e.seqno > f.seqno
  }

  ghost predicate AtMost(es: set<Entry>, s: nat) {
    forall e :: e in es ==> e.seqno <= s
  }

  // A sequence number names one logged update.
  ghost predicate OnePerSequence(es: set<Entry>) {
    forall e, f {:trigger e in es, f in es} :: e in es && f in es && e.seqno == f.seqno ==> e == f
  }

  ghost predicate VersionOk(v: Version, files: set<Table>, nextFile: nat) {
    forall t :: t in TablesOf(v) ==> t in files && t.number < nextFile
  }

  ghost predicate LevelsOrdered(v: Version) {
    && NewestHighest(v[0])
    && forall i, j :: 0 <= i < j < NUM_LEVELS ==> AllNewer(TableEntries(v[i]), TableEntries(v[j]))
  }

  ghost predicate LogsOrdered(logs: Logs, logNumber: nat) {
    forall n, m :: n in logs && m in logs && logNumber <= n < m ==>
      AllLater(GroupEntries(logs[m]), GroupEntries(logs[n]))
  }

  // A manifest one could recover from: its tables exist, and what is not yet in them is logged.
  ghost predicate ManifestOk(m: Manifest, logs: Logs, files: set<Table>, r: Record) {
    && VersionOk(m.version, files, m.nextFile) && m.logNumber <= m.nextFile
    && LevelsOrdered(m.version)
    && VersionEntries(m.version) <= r.logged && AtMost(VersionEntries(m.version), m.lastSequence)
    && LiveLogs(logs, m.logNumber) <= r.logged
    && AllLater(LiveLogs(logs, m.logNumber), VersionEntries(m.version))
    && forall g: Group :: g in r.groups ==> g.End() <= m.lastSequence + 1 || GroupIn(logs, m.logNumber, g)
  }

  ghost predicate RecordOk(r: Record) {
    && OnePerSequence(r.logged)
    && (forall g: Group, e :: g in r.groups && e in g.All() ==> e in r.logged)
    && (forall e :: e in r.logged ==> exists g: Group :: g in r.groups && e in g.All())
  }

  ghost predicate DiskInv(d: Disk, r: Record) {
    && RecordOk(r)
    && ManifestOk(d.manifest, d.logs, d.files, r)
    && LogsOrdered(d.logs, d.manifest.logNumber)
    && Agree(Recoverable(d), r.logged, r.horizon) && r.horizon <= d.manifest.lastSequence
    && r.logged <= Recoverable(d) + r.dropped && r.dropped <= r.logged
  }

  // The group that is logged but whose write has not finished.
  ghost function InFlight(w: Writer): set<Entry> {
    if w.Inserting? || w.SyncFailed? then w.group.All() else {}
  }

  // An update the running write has already inserted.
  ghost predicate Begun(w: Writer, e: Entry) {
    w.Inserting? && w.done <= |w.group.ops| && e in w.group.Prefix(w.done)
  }

  ghost predicate NoSplit(groups: set<Group>, s: nat) {
    forall g: Group :: g in groups ==> g.End() <= s + 1 || s < g.first
  }

  ghost predicate NumbersOk(d: Disk, p: Process) {
    && p.memtables != [] && (p.hasImm ==> |p.memtables| >= 2)
    && p.logFile in d.logs && (forall n :: n in d.logs ==> n <= p.logFile) && p.firstLog <= p.logFile < p.nextFile
    && p.logNumber <= d.manifest.logNumber <= p.logFile
    && d.manifest.nextFile <= p.nextFile && d.manifest.lastSequence <= p.lastSequence
    && VersionOk(p.current, d.files, d.manifest.nextFile)
    && (p.bg.Halted? || p.bg.Committed? ||
        (d.manifest.version == p.current && d.manifest.logNumber == p.logNumber))
  }

  ghost predicate OrderOk(p: Process)
    requires p.memtables != []
  {
    && LevelsOrdered(p.current)
    && AtMost(VersionEntries(p.current), p.lastSequence)
    && (forall i :: 0 <= i < |p.memtables| - 1 ==> AtMost(p.memtables[i], p.lastSequence))
    && (forall e :: e in p.Mem() && e.seqno > p.lastSequence ==> Begun(p.writer, e))
    && AllLater(p.Mem(), p.Imm() + VersionEntries(p.current))
    && AllLater(p.Imm(), VersionEntries(p.current))
  }

  ghost predicate WriterOk(d: Disk, r: Record, p: Process)
    requires p.memtables != [] && p.logFile in d.logs
  {
    var w := p.writer;
    && (!w.Quiet? ==> w.group.first == p.lastSequence + 1)
    && (w.Inserting? ==> w.done <= |w.group.ops| && w.group.Prefix(w.done) <= p.Mem())
    && (w.Inserting? || w.SyncFailed? ==> w.group in r.groups && (w.group in d.logs[p.logFile] || w.group in p.memRisk))
    && (forall e :: e in r.logged ==> e.seqno <= p.lastSequence || e in InFlight(w))
    && (forall g: Group :: g in r.groups && g.End() > p.lastSequence + 1 ==>
          (w.Inserting? || w.SyncFailed?) && g == w.group)
  }

  // The current memtable holds what its log holds or has lost, the immutable one what the older live logs hold or have
  // lost.
  ghost predicate LogsOk(d: Disk, p: Process)
    requires p.memtables != [] && p.logFile in d.logs
  {
    && p.Mem() <= GroupEntries(d.logs[p.logFile]) + AllEntries(p.memRisk)
    && (!p.bgError ==> GroupEntries(d.logs[p.logFile]) + AllEntries(p.memRisk) <= p.Mem() + InFlight(p.writer))
    && (if p.bg.Committed? && p.bg.plan.FlushPlan? then d.manifest.logNumber == p.logFile && p.immRisk == {}
        else p.bg.Halted? || LogsBetween(d.logs, d.manifest.logNumber, p.logFile) + AllEntries(p.immRisk) == p.Imm())
  }

  ghost predicate MeaningOk(r: Record, p: Process)
    requires p.memtables != []
  {
    && p.Sources() <= r.logged
    && p.history <= r.logged && AtMost(p.history, p.lastSequence)
    && Agree(p.Settled(), p.history, p.horizon)
    && p.horizon <= p.lastSequence
  }

  ghost predicate SnapshotsOk(r: Record, p: Process) {
    && NoSplit(r.groups, p.lastSequence)
    && (forall i :: 0 <= i < |p.snapshots| ==>
          p.horizon <= p.snapshots[i] <= p.lastSequence && NoSplit(r.groups, p.snapshots[i]))
    && (forall i, j :: 0 <= i <= j < |p.snapshots| ==> p.snapshots[i] <= p.snapshots[j])
  }

  ghost predicate ReaderShape(rd: Reader, memtables: seq<set<Entry>>) {
    rd.mem < |memtables| && (rd.imm.Some? ==> rd.imm.value < rd.mem)
  }

  ghost function ReaderImm(rd: Reader, memtables: seq<set<Entry>>): set<Entry>
    requires ReaderShape(rd, memtables)
  {
    if rd.imm.Some? then memtables[rd.imm.value] else {}
  }

  ghost function ReaderEntries(rd: Reader, memtables: seq<set<Entry>>): set<Entry>
    requires ReaderShape(rd, memtables)
  {
    memtables[rd.mem] + ReaderImm(rd, memtables) + VersionEntries(rd.version)
  }

  ghost predicate ReaderOk(rd: Reader, memtables: seq<set<Entry>>, lastSequence: nat, r: Record, history: set<Entry>) {
    && rd.at <= lastSequence && NoSplit(r.groups, rd.at)
    && ReaderShape(rd, memtables)
    && LevelsOrdered(rd.version)
    && AtMost(VersionEntries(rd.version), lastSequence)
    && AllLater(memtables[rd.mem], ReaderImm(rd, memtables) + VersionEntries(rd.version))
    && AllLater(ReaderImm(rd, memtables), VersionEntries(rd.version))
    && ReaderEntries(rd, memtables) <= r.logged
    && forall k: Key :: Lookup(ReaderEntries(rd, memtables), k, rd.at) == Lookup(history, k, rd.at)
  }

  ghost predicate ReadersOk(d: Disk, r: Record, p: Process) {
    forall rd :: rd in p.readers ==>
      && VersionOk(rd.version, d.files, d.manifest.nextFile)
      && ReaderOk(rd, p.memtables, p.lastSequence, r, p.history)
  }

  ghost predicate MergeOk(c: Merge, v: Version, d: Disk, p: Process) {
    && GoodInputs(v, c.level, c.in0, c.in1)
    && GoodBase(v, c.level, c.Inputs(), c.isBase)
    && c.oldest <= p.lastSequence
    && (forall s :: s in p.snapshots ==> c.oldest <= s)
    && TableEntries(c.outputs) <= c.Output()
    && forall t :: t in c.outputs ==> t in d.files && t.number < p.nextFile && t.number in p.pendingOutputs
  }

  ghost predicate PlanOk(plan: Plan, d: Disk, r: Record, p: Process) {
    var m := plan.manifest;
    && d.manifest.nextFile <= m.nextFile <= p.nextFile
    && d.manifest.lastSequence <= m.lastSequence <= p.lastSequence
    && d.manifest.logNumber <= m.logNumber
    && ManifestOk(m, d.logs, d.files, if plan.FlushPlan? then Saved(r, p.immRisk) else r)
    && match plan
       case FlushPlan(_, level, t, outer) =>
         && p.hasImm && m.logNumber == p.logFile
         && VersionEntries(m.version) == VersionEntries(p.current) + p.Imm()
         && (outer.Some? ==> MergeOk(outer.value, p.current, d, p) && MergeOk(outer.value, m.version, d, p))
       case MergePlan(_, c) =>
         && MergeOk(c, p.current, d, p) && TableEntries(c.outputs) == c.Output()
         && m.version == MergedVersion(p.current, c) && m.logNumber == p.logNumber
         && c.oldest <= m.lastSequence
       case MovePlan(_, _, _) =>
         && VersionEntries(m.version) == VersionEntries(p.current) && m.logNumber == p.logNumber
  }

  ghost predicate BackgroundOk(d: Disk, r: Record, p: Process) {
    match p.bg
    case Resting => true
    case Flushing(n, outer) =>
      && p.hasImm && d.manifest.nextFile <= n < p.nextFile && n in p.pendingOutputs
      && (outer.Some? ==> MergeOk(outer.value, p.current, d, p)
                          && forall t :: t in outer.value.outputs ==> t.number != n)
    case Merging(c) => MergeOk(c, p.current, d, p)
    case Committing(plan) => PlanOk(plan, d, r, p)
    case Committed(plan) => PlanOk(plan, d, r, p) && d.manifest == plan.manifest
    case Halted => p.bgError
  }

  // What a crash now would lose: only while a live log of this process is torn, and only what is not durable yet.
  ghost predicate RiskOk(d: Disk, r: Record, p: Process)
    requires p.memtables != [] && p.logFile in d.logs
  {
    && RecordOk(Whole(r, p))
    && AllEntries(p.memRisk + p.immRisk) !! r.logged
    && AllLater(AllEntries(p.memRisk), r.dropped + VersionEntries(p.current) + p.Imm())
    && AllLater(AllEntries(p.immRisk), r.dropped + VersionEntries(p.current))
    && AllLater(GroupEntries(d.logs[p.logFile]), AllEntries(p.immRisk))
    && (forall g: Group :: g in r.groups && g.End() > p.lastSequence + 1 ==> g in d.logs[p.logFile])
    && (forall g: Group :: g in p.immRisk ==> g.End() <= p.lastSequence + 1)
    && (p.memRisk != {} ==> p.logFile in d.torn)
    && (p.immRisk != {} ==> exists n :: n in d.torn && p.firstLog <= n < p.logFile && d.manifest.logNumber <= n)
  }

  // Everything appended, durable or not.
  ghost function Whole(r: Record, p: Process): Record {
    Saved(r, p.memRisk + p.immRisk)
  }

  // The part of the invariant about memory and the log.
  ghost predicate MemoryInv(d: Disk, r: Record, p: Process) {
    && NumbersOk(d, p) && OrderOk(p) && WriterOk(d, r, p) && LogsOk(d, p)
    && MeaningOk(r, p) && SnapshotsOk(r, p) && ReadersOk(d, r, p)
  }

  ghost predicate ProcInv(d: Disk, r: Record, p: Process) {
    MemoryInv(d, Whole(r, p), p) && BackgroundOk(d, r, p) && RiskOk(d, r, p)
  }

  ghost predicate Inv(s: State) {
    DiskInv(s.disk, s.rec) && (s.proc.Some? ==> ProcInv(s.disk, s.rec, s.proc.value))
  }
}
