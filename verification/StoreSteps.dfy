/** The invariant is kept by the writer at the head of the queue, by readers and by snapshots. */
module StoreSteps {
  import opened Entries
  import opened Compaction
  import opened Store
  import opened StoreInvariant
  import opened Wrappers

  // ------------------------------------------------------------------ log files

  // Logs that agree on the entries of every file from lo up to hi.
  lemma SameLogs(a: Logs, b: Logs, lo: nat)
    requires forall n :: n in a && n >= lo ==> n in b && b[n] == a[n]
    requires forall n :: n in b && n >= lo && n !in a ==> b[n] == []
    ensures LiveLogs(a, lo) == LiveLogs(b, lo)
    ensures forall hi: nat :: LogsBetween(a, lo, hi) == LogsBetween(b, lo, hi)
    ensures forall g: Group :: GroupIn(a, lo, g) <==> GroupIn(b, lo, g)
    ensures LogsOrdered(a, lo) ==> LogsOrdered(b, lo)
  {
    assert GroupEntries([]) == {};
    forall e | e in LiveLogs(a, lo) ensures e in LiveLogs(b, lo) {
      var n :| n in a && lo <= n && e in GroupEntries(a[n]);
      assert n in b && e in GroupEntries(b[n]);
    }
    forall g: Group | GroupIn(a, lo, g) ensures GroupIn(b, lo, g) {
      var n :| n in a && n >= lo && g in a[n];
      assert n in b && g in b[n];
    }
    forall hi: nat ensures LogsBetween(a, lo, hi) == LogsBetween(b, lo, hi) {
      forall e | e in LogsBetween(a, lo, hi) ensures e in LogsBetween(b, lo, hi) {
        var n :| n in a && lo <= n < hi && e in GroupEntries(a[n]);
        assert n in b && e in GroupEntries(b[n]);
      }
      forall e | e in LogsBetween(b, lo, hi) ensures e in LogsBetween(a, lo, hi) {
        var n :| n in b && lo <= n < hi && e in GroupEntries(b[n]);
        assert n in a;
      }
    }
  }

  lemma NewLogBetween(logs: Logs, n: nat, logNumber: nat, logFile: nat)
    requires logFile in logs && logNumber <= logFile < n && forall m :: m in logs ==> m <= logFile
    ensures LogsBetween(logs[n := []], logNumber, n)
         == LogsBetween(logs, logNumber, logFile) + GroupEntries(logs[logFile])
  {
    var logs' := logs[n := []];
    var l, r := LogsBetween(logs', logNumber, n), LogsBetween(logs, logNumber, logFile) + GroupEntries(logs[logFile]);
    forall e | e in l ensures e in r {
      var m :| m in logs' && logNumber <= m < n && e in GroupEntries(logs'[m]);
      assert m in logs && logs[m] == logs'[m];
    }
    forall e | e in r ensures e in l {
      if e in GroupEntries(logs[logFile]) {
        assert e in GroupEntries(logs'[logFile]);
      } else {
        var m :| m in logs && logNumber <= m < logFile && e in GroupEntries(logs[m]);
        assert e in GroupEntries(logs'[m]);
      }
    }
  }

  lemma AppendEntries(gs: seq<Group>, g: Group)
    ensures GroupEntries(gs + [g]) == GroupEntries(gs) + g.All()
  {
    var hs := gs + [g];
    forall e | e in GroupEntries(gs) + g.All() ensures e in GroupEntries(hs) {
      if e in GroupEntries(gs) {
        var i :| 0 <= i < |gs| && e in gs[i].All();
        assert hs[i] == gs[i];
      } else {
        assert hs[|gs|] == g;
      }
    }
  }

  lemma AppendToLog(logs: Logs, logFile: nat, g: Group, logNumber: nat)
    requires logFile in logs && logNumber <= logFile
    ensures var logs' := logs[logFile := logs[logFile] + [g]];
      && LiveLogs(logs', logNumber) == LiveLogs(logs, logNumber) + g.All()
      && LogsBetween(logs', logNumber, logFile) == LogsBetween(logs, logNumber, logFile)
      && (forall h: Group :: GroupIn(logs, logNumber, h) ==> GroupIn(logs', logNumber, h))
      && GroupIn(logs', logNumber, g)
  {
    var logs' := logs[logFile := logs[logFile] + [g]];
    AppendEntries(logs[logFile], g);
    assert logs'[logFile][|logs[logFile]|] == g;
    forall h: Group | GroupIn(logs, logNumber, h) ensures GroupIn(logs', logNumber, h) {
      var m :| m in logs && m >= logNumber && h in logs[m];
      assert m in logs' && h in logs'[m];
    }
    forall e | e in LiveLogs(logs, logNumber) + g.All() ensures e in LiveLogs(logs', logNumber) {
      if e in g.All() {
        assert e in GroupEntries(logs'[logFile]);
      } else {
        var m :| m in logs && logNumber <= m && e in GroupEntries(logs[m]);
        assert e in GroupEntries(logs'[m]);
      }
    }
    forall e | e in LiveLogs(logs', logNumber) ensures e in LiveLogs(logs, logNumber) + g.All() {
      var m :| m in logs' && logNumber <= m && e in GroupEntries(logs'[m]);
      assert m in logs;
    }
    SameBetween(logs, logs', logNumber, logFile);
  }

  lemma SameBetween(a: Logs, b: Logs, lo: nat, hi: nat)
    requires forall n :: lo <= n < hi ==> (n in a <==> n in b) && (n in a ==> a[n] == b[n])
    ensures LogsBetween(a, lo, hi) == LogsBetween(b, lo, hi)
  {
    forall e | e in LogsBetween(a, lo, hi) ensures e in LogsBetween(b, lo, hi) {
      var n :| n in a && lo <= n < hi && e in GroupEntries(a[n]);
      assert e in GroupEntries(b[n]);
    }
    forall e | e in LogsBetween(b, lo, hi) ensures e in LogsBetween(a, lo, hi) {
      var n :| n in b && lo <= n < hi && e in GroupEntries(b[n]);
      assert e in GroupEntries(a[n]);
    }
  }

  lemma GroupSeqnos(g: Group)
    ensures forall e :: e in g.All() ==> g.first <= e.seqno < g.End()
    ensures OnePerSequence(g.All())
  {
  }

  // ------------------------------------------------------------------ switching memtables

  lemma SwitchMemory(r: Record, p: Process)
    requires p.memtables != [] && !p.hasImm && p.writer.Quiet?
    requires OrderOk(p) && MeaningOk(r, p)
    ensures var p' := Switched(p);
      p'.Imm() == p.Mem() && p'.Mem() == {} && OrderOk(p') && MeaningOk(r, p')
  {
    var p' := Switched(p);
    assert p'.Imm() == p.Mem() && p'.Mem() == {} && p.Imm() == {};
    assert p'.Sources() == p.Sources();
    assert p'.Settled() == p.Settled();
  }

  lemma SwitchReaders(d: Disk, d': Disk, r: Record, p: Process)
    requires ReadersOk(d, r, p) && d'.files == d.files && d'.manifest == d.manifest
    ensures ReadersOk(d', r, Switched(p))
  {
    var p' := Switched(p);
    forall rd | rd in p.readers ensures ReaderOk(rd, p'.memtables, p'.lastSequence, r, p'.history) {
      assert p'.memtables[rd.mem] == p.memtables[rd.mem];
      assert ReaderEntries(rd, p'.memtables) == ReaderEntries(rd, p.memtables);
    }
  }

  // Adding an empty log file does not touch what could be recovered.
  lemma ManifestSameLogs(m: Manifest, logs: Logs, logs': Logs, files: set<Table>, r: Record)
    requires forall n :: n in logs ==> n in logs' && logs'[n] == logs[n]
    requires forall n :: n in logs' && n !in logs ==> logs'[n] == []
    requires ManifestOk(m, logs, files, r)
    ensures ManifestOk(m, logs', files, r)
  {
    hide VersionOk, LevelsOrdered, AllLater;
    SameLogs(logs, logs', m.logNumber);
  }

  lemma DiskSameLogs(d: Disk, d': Disk, r: Record)
    requires forall n :: n in d.logs ==> n in d'.logs && d'.logs[n] == d.logs[n]
    requires forall n :: n in d'.logs && n !in d.logs ==> d'.logs[n] == []
    requires d'.files == d.files && d'.manifest == d.manifest && DiskInv(d, r)
    ensures DiskInv(d', r)
  {
    hide VersionOk, LevelsOrdered, AllLater, RecordOk, Agree, LogsOrdered;
    ManifestSameLogs(d.manifest, d.logs, d'.logs, d.files, r);
    SameLogs(d.logs, d'.logs, d.manifest.logNumber);
  }

  lemma SwitchBackground(d: Disk, d': Disk, r: Record, p: Process)
    requires p.memtables != [] && !p.hasImm
    requires forall n :: n in d.logs ==> n in d'.logs && d'.logs[n] == d.logs[n]
    requires forall n :: n in d'.logs && n !in d.logs ==> d'.logs[n] == []
    requires d'.files == d.files && d'.manifest == d.manifest && BackgroundOk(d, r, p)
    requires !((p.bg.Committing? || p.bg.Committed?) && p.bg.plan.FlushPlan?)
    ensures BackgroundOk(d', r, Switched(p))
  {
    hide GoodInputs, GoodBase, ManifestOk;
    if p.bg.Committing? || p.bg.Committed? {
      ManifestSameLogs(p.bg.plan.manifest, d.logs, d'.logs, d.files, r);
    }
  }

  lemma SwitchLogs(d: Disk, d': Disk, r: Record, p: Process)
    requires NumbersOk(d, p) && WriterOk(d, r, p) && LogsOk(d, p) && SnapshotsOk(r, p)
    requires !p.hasImm && p.writer.Quiet? && !p.bgError && !p.bg.Halted?
    requires !(p.bg.Committed? && p.bg.plan.FlushPlan?)
    requires d' == WithLog(d, p.nextFile)
    ensures var p' := Switched(p);
      NumbersOk(d', p') && WriterOk(d', r, p') && LogsOk(d', p') && SnapshotsOk(r, p')
  {
    hide VersionOk, NoSplit;
    NewLogBetween(d.logs, p.nextFile, d.manifest.logNumber, p.logFile);
    var p' := Switched(p);
    assert p'.Imm() == p.Mem() && p'.Mem() == {} && p.Imm() == {};
    assert GroupEntries(d'.logs[p.nextFile]) == {} && AllEntries({}) == {};
    AllEntriesUnion(p.immRisk, p.memRisk);
  }

  lemma AllEntriesUnion(a: set<Group>, b: set<Group>)
    ensures AllEntries(a + b) == AllEntries(a) + AllEntries(b)
  {
    forall e | e in AllEntries(a) + AllEntries(b) ensures e in AllEntries(a + b) {
      var g: Group :| (g in a || g in b) && e in g.All();
      assert g in a + b;
    }
  }

  // What was at risk for mem_ is now at risk for imm_.
  lemma SwitchRisk(d: Disk, d': Disk, r: Record, p: Process)
    requires NumbersOk(d, p) && WriterOk(d, Whole(r, p), p) && RiskOk(d, r, p)
    requires !p.hasImm && p.writer.Quiet? && d' == WithLog(d, p.nextFile)
    ensures RiskOk(d', r, Switched(p)) && Whole(r, Switched(p)) == Whole(r, p)
  {
    hide VersionOk, VersionEntries, RecordOk, InFlight;
    var p' := Switched(p);
    assert GroupEntries(d'.logs[p.nextFile]) == {};
    assert p'.memRisk + p'.immRisk == p.memRisk + p.immRisk;
    AllEntriesUnion(p.immRisk, p.memRisk);
    assert AllEntries({}) == {};
    if p.memRisk != {} {
      assert p.logFile in d'.torn;
    } else if p.immRisk != {} {
      var n :| n in d.torn && p.firstLog <= n < p.logFile && d.manifest.logNumber <= n;
      assert n in d'.torn;
    }
  }

  lemma SwitchKeeps(s: State, s': State)
    requires Inv(s) && Up(s) && SwitchStep(s, s')
    ensures Inv(s')
  {
    var p, d, d', w := s.proc.value, s.disk, s'.disk, Whole(s.rec, s.proc.value);
    SwitchPlan(d, s.rec, p);
    hide OrderOk, MeaningOk, ReadersOk, BackgroundOk, DiskInv, NumbersOk, WriterOk, LogsOk, SnapshotsOk, RiskOk, Whole;
    DiskSameLogs(d, d', s.rec);
    SwitchLogs(d, d', w, p);
    SwitchMemory(w, p);
    SwitchReaders(d, d', w, p);
    SwitchBackground(d, d', s.rec, p);
    SwitchRisk(d, d', s.rec, p);
  }

  // No flush is being installed while there is nothing to flush.
  lemma SwitchPlan(d: Disk, r: Record, p: Process)
    requires NumbersOk(d, p) && BackgroundOk(d, r, p) && !p.hasImm && !p.bgError
    ensures !p.bg.Halted? && !((p.bg.Committing? || p.bg.Committed?) && p.bg.plan.FlushPlan?)
    ensures p.nextFile !in d.logs && forall n :: n in d.logs ==> n < p.nextFile
  {
    hide ManifestOk, MergeOk, VersionOk, VersionEntries;
  }

  // A torn log only weakens what is promised about later appends.
  lemma TornDisk(d: Disk, d': Disk, r: Record)
    requires d' == d.(torn := d'.torn) && DiskInv(d, r)
    ensures DiskInv(d', r)
  {
    hide RecordOk, ManifestOk, LogsOrdered, Agree;
    assert Recoverable(d') == Recoverable(d);
  }

  lemma TornMemory(d: Disk, d': Disk, r: Record, p: Process)
    requires d' == d.(torn := d'.torn) && MemoryInv(d, r, p)
    ensures MemoryInv(d', r, p)
  {
    hide OrderOk, MeaningOk, SnapshotsOk, VersionOk, ReaderOk, VersionEntries, GroupEntries, LogsBetween, InFlight,
      AllEntries;
  }

  lemma TornBackground(d: Disk, d': Disk, r: Record, p: Process)
    requires d' == d.(torn := d'.torn) && BackgroundOk(d, r, p)
    ensures BackgroundOk(d', r, p)
  {
    hide ManifestOk, GoodInputs, GoodBase, Saved, VersionEntries;
  }

  lemma TornRisk(d: Disk, d': Disk, r: Record, p: Process)
    requires p.memtables != [] && p.logFile in d.logs
    requires d' == d.(torn := d'.torn) && d.torn <= d'.torn && RiskOk(d, r, p)
    ensures RiskOk(d', r, p)
  {
    hide RecordOk, AllLater, AllEntries, VersionEntries, Whole, GroupEntries;
  }

  lemma TornProcess(d: Disk, d': Disk, r: Record, p: Process)
    requires d' == d.(torn := d'.torn) && d.torn <= d'.torn && ProcInv(d, r, p)
    ensures ProcInv(d', r, p)
  {
    hide OrderOk, WriterOk, LogsOk, MeaningOk, SnapshotsOk, ReadersOk, BackgroundOk, RiskOk, VersionOk, Whole;
    TornMemory(d, d', Whole(r, p), p);
    TornBackground(d, d', r, p);
    TornRisk(d, d', r, p);
  }

  // ------------------------------------------------------------------ the log section

  lemma OnePerSequenceIsUnique(es: set<Entry>, all: set<Entry>)
    requires OnePerSequence(all) && es <= all
    ensures Unique(es)
  {
  }

  // Steps that leave versions, files, pending outputs and imm_ alone.
  ghost predicate SameBackground(p: Process, p': Process) {
    && p'.bg == p.bg && p'.hasImm == p.hasImm && p'.Imm() == p.Imm() && p'.current == p.current
    && p'.logFile == p.logFile && p'.logNumber == p.logNumber && p'.nextFile == p.nextFile
    && p'.lastSequence >= p.lastSequence && p'.pendingOutputs == p.pendingOutputs
    && (forall s :: s in p'.snapshots ==> s in p.snapshots || s == p.lastSequence)
    && (p.bgError ==> p'.bgError) && p'.immRisk == p.immRisk
  }

  lemma BackgroundSame(d: Disk, r: Record, p: Process, p': Process)
    requires BackgroundOk(d, r, p) && SameBackground(p, p')
    ensures BackgroundOk(d, r, p')
  {
    hide ManifestOk, GoodInputs, GoodBase;
  }

  // What a change of the writer's phase alone leaves as it was.
  lemma PhaseOnly(d: Disk, r: Record, p: Process, w: Writer)
    requires NumbersOk(d, p) && MeaningOk(r, p) && SnapshotsOk(r, p) && ReadersOk(d, r, p)
    ensures var p' := p.(writer := w);
      NumbersOk(d, p') && MeaningOk(r, p') && SnapshotsOk(r, p') && ReadersOk(d, r, p')
  {
    hide VersionOk, ReaderOk, NoSplit;
    var p' := p.(writer := w);
    assert p'.Sources() == p.Sources() && p'.Settled() == p.Settled();
  }

  ghost predicate NextPhase(p: Process, w: Writer) {
    || (p.writer.Quiet? && w.Logging? && w.group.first == p.lastSequence + 1)
    || (p.writer.Logging? && w == LogFailed(p.writer.group))
    || (p.writer.Inserting? && p.writer.done == 0 && w == SyncFailed(p.writer.group))
  }

  lemma PhaseOrder(d: Disk, r: Record, p: Process, w: Writer)
    requires NumbersOk(d, p) && OrderOk(p) && LogsOk(d, p) && WriterOk(d, r, p) && NextPhase(p, w)
    ensures OrderOk(p.(writer := w)) && LogsOk(d, p.(writer := w)) && WriterOk(d, r, p.(writer := w))
  {
    hide VersionOk, LevelsOrdered, AllLater, LogsBetween, GroupEntries, VersionEntries, AllEntries;
    assert p.writer.Inserting? ==> p.writer.group.Prefix(0) == {};
    assert InFlight(w) == InFlight(p.writer);
  }

  // BeginGroup, a failed append and a failed sync only move the writer on.
  lemma PhaseKeeps(s: State, s': State, w: Writer)
    requires Inv(s) && Up(s) && NextPhase(s.proc.value, w)
    requires s' == s.(proc := Some(s.proc.value.(writer := w)))
    ensures Inv(s')
  {
    hide NextPhase, OrderOk, BackgroundOk, DiskInv, ReadersOk, LogsOk, MeaningOk, SnapshotsOk, VersionOk, WriterOk,
      RiskOk, Whole;
    var d, r, p, p' := s.disk, s.rec, s.proc.value, s'.proc.value;
    PhaseOnly(d, Whole(r, p), p, w);
    PhaseOrder(d, Whole(r, p), p, w);
    PhaseBackground(d, r, p, w);
    RiskSame(d, r, p, p');
  }

  lemma PhaseBackground(d: Disk, r: Record, p: Process, w: Writer)
    requires p.memtables != [] && BackgroundOk(d, r, p)
    ensures BackgroundOk(d, r, p.(writer := w)) && p.(writer := w).Imm() == p.Imm()
  {
    hide PlanOk, MergeOk;
    BackgroundSame(d, r, p, p.(writer := w));
  }

  // Steps that leave the memtables' logs, imm_ and the version alone.
  lemma RiskSame(d: Disk, r: Record, p: Process, p': Process)
    requires p.memtables != [] && p'.memtables != [] && p.logFile in d.logs && RiskOk(d, r, p)
    requires p'.memRisk == p.memRisk && p'.immRisk == p.immRisk && p'.logFile == p.logFile && p'.firstLog == p.firstLog
    requires p'.Imm() == p.Imm() && p'.current == p.current && p'.lastSequence >= p.lastSequence
    ensures RiskOk(d, r, p') && Whole(r, p') == Whole(r, p)
  {
    hide RecordOk, AllLater, AllEntries, VersionEntries, GroupEntries;
  }

  // ------------------------------------------------------------------ inserting an update

  lemma InsertFacts(d: Disk, r: Record, p: Process, e: Entry)
    requires CanInsert(p) && NumbersOk(d, p) && WriterOk(d, r, p) && RecordOk(r) && e == NextUpdate(p)
    ensures e.seqno > p.lastSequence && e in r.logged && e in GroupEntries(d.logs[p.logFile]) + AllEntries(p.memRisk)
    ensures Inserted(p).Mem() == p.Mem() + {e} && Inserted(p).Imm() == p.Imm()
    ensures InFlight(Inserted(p).writer) == InFlight(p.writer)
  {
    hide VersionOk;
    assert e in p.writer.group.All();
  }

  lemma InsertWriter(d: Disk, r: Record, p: Process, e: Entry)
    requires CanInsert(p) && NumbersOk(d, p) && WriterOk(d, r, p) && e == NextUpdate(p)
    ensures NumbersOk(d, Inserted(p)) && WriterOk(d, r, Inserted(p))
    ensures Begun(Inserted(p).writer, e)
    ensures forall f :: Begun(p.writer, f) ==> Begun(Inserted(p).writer, f)
  {
    hide VersionOk, GroupEntries;
    var g, n := p.writer.group, p.writer.done;
    assert g.Prefix(n + 1) == g.Prefix(n) + {e};
  }

  lemma InsertOrder(p: Process, p': Process, e: Entry)
    requires p.memtables != [] && OrderOk(p) && e.seqno > p.lastSequence
    requires p'.memtables == WithUpdate(p.memtables, e) && p'.Imm() == p.Imm()
    requires p'.current == p.current && p'.lastSequence == p.lastSequence && Begun(p'.writer, e)
    requires forall f :: Begun(p.writer, f) ==> Begun(p'.writer, f)
    ensures OrderOk(p')
  {
    hide LevelsOrdered, VersionEntries, Begun;
  }

  lemma InsertMeaning(d: Disk, r: Record, p: Process, p': Process, e: Entry)
    requires p.memtables != [] && p'.memtables != [] && p.logFile in d.logs
    requires LogsOk(d, p) && MeaningOk(r, p)
    requires e.seqno > p.lastSequence && e in r.logged && e in GroupEntries(d.logs[p.logFile]) + AllEntries(p.memRisk)
    requires p' == p.(memtables := p'.memtables, writer := p'.writer)
    requires p'.Mem() == p.Mem() + {e} && p'.Imm() == p.Imm() && InFlight(p'.writer) == InFlight(p.writer)
    ensures LogsOk(d, p') && MeaningOk(r, p')
  {
    hide VersionEntries, LogsBetween, GroupEntries, AllEntries;
    assert p'.Settled() == p.Settled();
  }

  lemma InsertReaders(readers: seq<Reader>, ms: seq<set<Entry>>, e: Entry, lastSequence: nat,
                      r: Record, history: set<Entry>)
    requires ms != [] && forall rd :: rd in readers ==> ReaderOk(rd, ms, lastSequence, r, history)
    requires e.seqno > lastSequence && e in r.logged && OnePerSequence(r.logged)
    requires forall i :: 0 <= i < |ms| - 1 ==> AtMost(ms[i], lastSequence)
    ensures forall rd :: rd in readers ==> ReaderOk(rd, WithUpdate(ms, e), lastSequence, r, history)
  {
    hide ReaderOk, AtMost, OnePerSequence;
    forall rd | rd in readers ensures ReaderOk(rd, WithUpdate(ms, e), lastSequence, r, history) {
      InsertReader(rd, ms, e, lastSequence, r, history);
    }
  }

  // An update newer than the read's sequence number reaches mem_ while the read is running.
  lemma InsertReader(rd: Reader, ms: seq<set<Entry>>, e: Entry, lastSequence: nat, r: Record, history: set<Entry>)
    requires ms != [] && ReaderOk(rd, ms, lastSequence, r, history)
    requires e.seqno > lastSequence && e in r.logged && OnePerSequence(r.logged)
    requires forall i :: 0 <= i < |ms| - 1 ==> AtMost(ms[i], lastSequence)
    ensures ReaderOk(rd, WithUpdate(ms, e), lastSequence, r, history)
  {
    hide NoSplit, LevelsOrdered, VersionEntries;
    var ms' := WithUpdate(ms, e);
    assert ReaderImm(rd, ms') == ReaderImm(rd, ms);
    forall k: Key ensures Lookup(ReaderEntries(rd, ms'), k, rd.at) == Lookup(history, k, rd.at) {
      OnePerSequenceIsUnique(ReaderEntries(rd, ms), r.logged);
      LookupLocal(ReaderEntries(rd, ms), ReaderEntries(rd, ms'), k, rd.at);
    }
  }

  lemma InsertBackground(d: Disk, r: Record, p: Process)
    requires CanInsert(p) && BackgroundOk(d, r, p) && Inserted(p).Imm() == p.Imm()
    ensures BackgroundOk(d, r, Inserted(p))
  {
    hide PlanOk, MergeOk;
    BackgroundSame(d, r, p, Inserted(p));
  }

  lemma InsertKeepsMemory(d: Disk, r: Record, p: Process)
    requires CanInsert(p) && RecordOk(r) && MemoryInv(d, r, p)
    ensures MemoryInv(d, r, Inserted(p)) && Inserted(p).Imm() == p.Imm()
  {
    var e := NextUpdate(p);
    InsertFacts(d, r, p, e);
    InsertWriter(d, r, p, e);
    hide WriterOk, MeaningOk, LogsOk, Begun, VersionOk, NextUpdate;
    assert ReadersOk(d, r, Inserted(p)) by {
      hide ReaderOk;
      InsertReaders(p.readers, p.memtables, e, p.lastSequence, r, p.history);
    }
    assert SnapshotsOk(r, Inserted(p)) by { hide NoSplit; }
    hide ReadersOk, NumbersOk, SnapshotsOk;
    InsertOrder(p, Inserted(p), e);
    hide OrderOk;
    InsertMeaning(d, r, p, Inserted(p), e);
  }

  lemma RiskRecord(d: Disk, r: Record, p: Process)
    requires p.memtables != [] && p.logFile in d.logs && RiskOk(d, r, p)
    ensures RecordOk(Whole(r, p))
  {
    hide RecordOk, Whole, AllLater, AllEntries, VersionEntries;
  }

  lemma InsertKeepsProcess(d: Disk, r: Record, p: Process)
    requires CanInsert(p) && ProcInv(d, r, p)
    ensures ProcInv(d, r, Inserted(p))
  {
    hide OrderOk, WriterOk, LogsOk, MeaningOk, SnapshotsOk, ReadersOk, BackgroundOk, RiskOk, Whole, RecordOk, VersionOk;
    RiskRecord(d, r, p);
    InsertKeepsMemory(d, Whole(r, p), p);
    InsertBackground(d, r, p);
    RiskSame(d, r, p, Inserted(p));
  }

  lemma InsertKeeps(s: State, s': State)
    requires Inv(s) && Up(s) && InsertStep(s, s')
    ensures Inv(s')
  {
    hide RecordOk, ProcInv, Inserted;
    InsertKeepsProcess(s.disk, s.rec, s.proc.value);
  }

  // ------------------------------------------------------------------ appending to the log


  // A fresh group: its sequence numbers are above everything logged so far.
  ghost predicate Fresh(r: Record, g: Group, lastSequence: nat) {
    g.first == lastSequence + 1 && AtMost(r.logged, lastSequence)
  }

  lemma AppendRecord(r: Record, g: Group, lastSequence: nat)
    requires RecordOk(r) && Fresh(r, g, lastSequence)
    ensures RecordOk(Recorded(r, g))
  {
    GroupSeqnos(g);
    var r' := Recorded(r, g);
    forall e | e in r'.logged ensures exists h: Group :: h in r'.groups && e in h.All() {
      if e in g.All() {
        assert g in r'.groups;
      } else {
        var h: Group :| h in r.groups && e in h.All();
        assert h in r'.groups;
      }
    }
  }

  lemma AppendManifest(m: Manifest, d: Disk, r: Record, logFile: nat, g: Group, lastSequence: nat)
    requires logFile in d.logs && m.logNumber <= logFile && m.lastSequence <= lastSequence
    requires ManifestOk(m, d.logs, d.files, r) && Fresh(r, g, lastSequence)
    ensures ManifestOk(m, Appended(d, logFile, g).logs, d.files, Recorded(r, g))
  {
    hide VersionOk, LevelsOrdered, VersionEntries, LiveLogs, GroupIn;
    AppendToLog(d.logs, logFile, g, m.logNumber);
    GroupSeqnos(g);
  }

  lemma AppendOrdered(logs: Logs, logFile: nat, g: Group, logNumber: nat, logged: set<Entry>, lastSequence: nat)
    requires logFile in logs && logNumber <= logFile && forall n :: n in logs ==> n <= logFile
    requires LiveLogs(logs, logNumber) <= logged && AtMost(logged, lastSequence) && g.first == lastSequence + 1
    requires LogsOrdered(logs, logNumber)
    ensures LogsOrdered(logs[logFile := logs[logFile] + [g]], logNumber)
  {
    AppendEntries(logs[logFile], g);
    GroupSeqnos(g);
    forall n, e | n in logs && logNumber <= n && e in GroupEntries(logs[n]) ensures e.seqno <= lastSequence {
      assert e in LiveLogs(logs, logNumber);
    }
  }

  lemma AppendDisk(d: Disk, r: Record, logFile: nat, g: Group, lastSequence: nat)
    requires logFile in d.logs && d.manifest.logNumber <= logFile && forall n :: n in d.logs ==> n <= logFile
    requires d.manifest.lastSequence <= lastSequence && DiskInv(d, r) && Fresh(r, g, lastSequence)
    ensures DiskInv(Appended(d, logFile, g), Recorded(r, g))
  {
    var d', r' := Appended(d, logFile, g), Recorded(r, g);
    AppendRecord(r, g, lastSequence);
    AppendManifest(d.manifest, d, r, logFile, g, lastSequence);
    AppendOrdered(d.logs, logFile, g, d.manifest.logNumber, r.logged, lastSequence);
    AppendToLog(d.logs, logFile, g, d.manifest.logNumber);
    assert Recoverable(d') == Recoverable(d) + g.All();
    GroupSeqnos(g);
    OnePerSequenceIsUnique(Recoverable(d'), r'.logged);
    OnePerSequenceIsUnique(r'.logged, r'.logged);
    AgreeWithNewer(Recoverable(d), r.logged, g.All(), r.horizon);
  }

  lemma AppendWriter(d: Disk, r: Record, p: Process, g: Group)
    requires p.memtables != [] && NumbersOk(d, p) && WriterOk(d, r, p) && p.writer == Logging(g)
    ensures var d', p' := Appended(d, p.logFile, g), p.(writer := Inserting(g, 0));
      Fresh(r, g, p.lastSequence) && NumbersOk(d', p') && WriterOk(d', Recorded(r, g), p')
  {
    hide VersionOk;
    assert g.Prefix(0) == {};
  }

  lemma AppendLogs(d: Disk, r: Record, p: Process, g: Group)
    requires p.memtables != [] && p.logFile in d.logs && d.manifest.logNumber <= p.logFile
    requires LogsOk(d, p) && OrderOk(p) && p.writer == Logging(g)
    ensures LogsOk(Appended(d, p.logFile, g), p.(writer := Inserting(g, 0)))
    ensures OrderOk(p.(writer := Inserting(g, 0)))
  {
    hide LevelsOrdered, VersionEntries, AllLater, GroupEntries, LogsBetween, AllEntries;
    AppendToLog(d.logs, p.logFile, g, d.manifest.logNumber);
    AppendEntries(d.logs[p.logFile], g);
  }

  lemma AppendMeaning(d: Disk, r: Record, p: Process, g: Group)
    requires p.memtables != [] && p.logFile in d.logs
    requires MeaningOk(r, p) && SnapshotsOk(r, p) && ReadersOk(d, r, p) && Fresh(r, g, p.lastSequence)
    ensures var d', r', p' := Appended(d, p.logFile, g), Recorded(r, g), p.(writer := Inserting(g, 0));
      MeaningOk(r', p') && SnapshotsOk(r', p') && ReadersOk(d', r', p')
  {
    hide VersionOk, LevelsOrdered, VersionEntries, AllLater;
    var p' := p.(writer := Inserting(g, 0));
    assert p'.Sources() == p.Sources() && p'.Settled() == p.Settled();
  }

  lemma FreshParts(r: Record, p: Process, g: Group)
    requires Fresh(Whole(r, p), g, p.lastSequence)
    ensures Fresh(r, g, p.lastSequence) && Fresh(Saved(r, p.immRisk), g, p.lastSequence)
    ensures Recorded(Saved(r, p.immRisk), g) == Saved(Recorded(r, g), p.immRisk)
  {
    AllEntriesUnion(p.memRisk, p.immRisk);
  }

  lemma AppendBackground(d: Disk, r: Record, p: Process, g: Group)
    requires p.memtables != [] && p.logFile in d.logs && p.logNumber <= p.logFile
    requires BackgroundOk(d, r, p) && Fresh(Whole(r, p), g, p.lastSequence)
    ensures BackgroundOk(Appended(d, p.logFile, g), Recorded(r, g), p.(writer := Inserting(g, 0)))
  {
    hide ManifestOk, GoodInputs, GoodBase, VersionEntries, Fresh, Whole, Saved, AllEntries, Recorded;
    FreshParts(r, p, g);
    if p.bg.Committing? || p.bg.Committed? {
      var m := p.bg.plan.manifest;
      var r' := if p.bg.plan.FlushPlan? then Saved(r, p.immRisk) else r;
      assert m.logNumber <= p.logFile && m.lastSequence <= p.lastSequence;
      AppendManifest(m, d, r', p.logFile, g, p.lastSequence);
    }
  }

  // The group is found by recovery: it is durable.
  lemma AppendRisk(d: Disk, r: Record, p: Process, g: Group)
    requires p.memtables != [] && p.logFile in d.logs && RiskOk(d, r, p) && Fresh(Whole(r, p), g, p.lastSequence)
    ensures var d', r', p' := Appended(d, p.logFile, g), Recorded(r, g), p.(writer := Inserting(g, 0));
      RiskOk(d', r', p') && Whole(r', p') == Recorded(Whole(r, p), g)
  {
    hide RecordOk, VersionEntries, AllEntries, GroupEntries;
    var p' := p.(writer := Inserting(g, 0));
    assert p'.Imm() == p.Imm();
    GroupSeqnos(g);
    AppendEntries(d.logs[p.logFile], g);
    AllEntriesUnion(p.memRisk, p.immRisk);
    AppendRecord(Whole(r, p), g, p.lastSequence);
    assert Whole(Recorded(r, g), p') == Recorded(Whole(r, p), g);
  }

  lemma FreshHere(d: Disk, r: Record, p: Process, g: Group)
    requires p.memtables != [] && p.logFile in d.logs && WriterOk(d, Whole(r, p), p) && p.writer == Logging(g)
    ensures Fresh(Whole(r, p), g, p.lastSequence) && Fresh(r, g, p.lastSequence)
  {
    hide AllEntries;
  }

  lemma FoundKeeps(d: Disk, r: Record, p: Process, g: Group)
    requires DiskInv(d, r) && ProcInv(d, r, p) && p.writer == Logging(g)
    ensures DiskInv(Appended(d, p.logFile, g), Recorded(r, g))
    ensures ProcInv(Appended(d, p.logFile, g), Recorded(r, g), p.(writer := Inserting(g, 0)))
  {
    hide MeaningOk, SnapshotsOk, ReadersOk, BackgroundOk, DiskInv, OrderOk, LogsOk, WriterOk, RiskOk, VersionOk,
      Fresh, Whole;
    var w := Whole(r, p);
    FreshHere(d, r, p, g);
    AppendLogs(d, w, p, g);
    AppendWriter(d, w, p, g);
    AppendDisk(d, r, p.logFile, g, p.lastSequence);
    AppendMeaning(d, w, p, g);
    AppendBackground(d, r, p, g);
    AppendRisk(d, r, p, g);
  }

  // The group is not found by recovery: it is at risk until mem_ is flushed.
  ghost function AtRisk(p: Process, g: Group): Process {
    p.(writer := Inserting(g, 0), memRisk := p.memRisk + {g})
  }

  lemma LostRisk(d: Disk, r: Record, p: Process, g: Group)
    requires p.memtables != [] && p.logFile in d.logs && RiskOk(d, r, p) && Fresh(Whole(r, p), g, p.lastSequence)
    requires p.logFile in d.torn && r.dropped <= r.logged && OrderOk(p) && p.Sources() <= Whole(r, p).logged
    ensures RiskOk(d, r, AtRisk(p, g)) && Whole(r, AtRisk(p, g)) == Recorded(Whole(r, p), g)
    ensures AllEntries(AtRisk(p, g).memRisk) == AllEntries(p.memRisk) + g.All()
  {
    hide RecordOk, VersionEntries, LevelsOrdered, GroupEntries;
    var p' := AtRisk(p, g);
    assert p'.Imm() == p.Imm();
    GroupSeqnos(g);
    OneGroup(g);
    AppendRecord(Whole(r, p), g, p.lastSequence);
    AllEntriesUnion(p.memRisk, {g});
    AllEntriesUnion(p.memRisk + p.immRisk, {g});
    hide AllEntries;
    assert p'.memRisk + p'.immRisk == p.memRisk + p.immRisk + {g};
    assert Whole(r, p') == Recorded(Whole(r, p), g);
  }

  lemma OneGroup(g: Group)
    ensures AllEntries({g}) == g.All()
  {
  }

  lemma LostWriter(d: Disk, w: Record, p: Process, g: Group)
    requires p.memtables != [] && NumbersOk(d, p) && WriterOk(d, w, p)
    requires LogsOk(d, p) && OrderOk(p) && p.writer == Logging(g)
    requires AllEntries(AtRisk(p, g).memRisk) == AllEntries(p.memRisk) + g.All()
    ensures NumbersOk(d, AtRisk(p, g)) && WriterOk(d, Recorded(w, g), AtRisk(p, g)) && LogsOk(d, AtRisk(p, g))
    ensures OrderOk(AtRisk(p, g))
  {
    hide VersionOk, LevelsOrdered, VersionEntries, AllLater, GroupEntries, LogsBetween, AllEntries;
    assert g.Prefix(0) == {};
  }

  lemma LostMeaning(d: Disk, w: Record, p: Process, g: Group)
    requires p.memtables != [] && MeaningOk(w, p) && SnapshotsOk(w, p)
    requires ReadersOk(d, w, p) && Fresh(w, g, p.lastSequence)
    ensures MeaningOk(Recorded(w, g), AtRisk(p, g)) && SnapshotsOk(Recorded(w, g), AtRisk(p, g))
    ensures ReadersOk(d, Recorded(w, g), AtRisk(p, g))
  {
    hide VersionOk, LevelsOrdered, VersionEntries, AllLater;
    var p' := AtRisk(p, g);
    assert p'.Sources() == p.Sources() && p'.Settled() == p.Settled();
  }

  lemma LostKeeps(d: Disk, r: Record, p: Process, g: Group)
    requires r.dropped <= r.logged && ProcInv(d, r, p) && p.writer == Logging(g) && p.logFile in d.torn
    ensures ProcInv(d, r, AtRisk(p, g))
  {
    var w := Whole(r, p);
    assert p.Sources() <= w.logged;
    hide MeaningOk, SnapshotsOk, ReadersOk, BackgroundOk, OrderOk, LogsOk, WriterOk, RiskOk, VersionOk, Fresh, Whole;
    FreshHere(d, r, p, g);
    LostRisk(d, r, p, g);
    LostWriter(d, w, p, g);
    LostMeaning(d, w, p, g);
    LostBackground(d, r, p, g);
  }

  lemma LostBackground(d: Disk, r: Record, p: Process, g: Group)
    requires p.memtables != [] && BackgroundOk(d, r, p)
    ensures BackgroundOk(d, r, AtRisk(p, g))
  {
    hide PlanOk, MergeOk;
    BackgroundSame(d, r, p, AtRisk(p, g));
  }

  lemma AppendKeeps(s: State, found: bool, tears: bool, s': State)
    requires Inv(s) && Up(s) && AppendStep(s, found, tears, s')
    ensures Inv(s')
  {
    var d, r, p, g := s.disk, s.rec, s.proc.value, s.proc.value.writer.group;
    var d' := if tears then Torn(d, p.logFile) else d;
    assert r.dropped <= r.logged;
    hide DiskInv, ProcInv;
    TornDisk(d, d', r);
    TornProcess(d, d', r, p);
    if found {
      FoundKeeps(d', r, p, g);
    } else {
      LostKeeps(d', r, p, g);
    }
  }

  // ------------------------------------------------------------------ finishing a write

  lemma FinishWriter(d: Disk, r: Record, p: Process)
    requires p.memtables != [] && NumbersOk(d, p) && WriterOk(d, r, p) && LogsOk(d, p) && CanFinish(p)
    ensures NumbersOk(d, WriteFinished(p)) && WriterOk(d, r, WriteFinished(p)) && LogsOk(d, WriteFinished(p))
  {
    hide VersionOk, GroupEntries, LogsBetween, AllEntries;
    var g, p' := p.writer.group, WriteFinished(p);
    GroupSeqnos(g);
    assert p'.Mem() == p.Mem() && p'.Imm() == p.Imm();
  }

  lemma FinishOrder(p: Process, p': Process)
    requires p.memtables != [] && OrderOk(p) && CanFinish(p) && p' == WriteFinished(p)
    requires p.writer.group.first == p.lastSequence + 1
    ensures OrderOk(p')
  {
    hide LevelsOrdered, VersionEntries, AllLater;
    GroupSeqnos(p.writer.group);
  }

  lemma FinishMeaning(r: Record, p: Process, p': Process)
    requires p.memtables != [] && OrderOk(p) && MeaningOk(r, p) && CanFinish(p) && p' == WriteFinished(p)
    requires p.writer.group.first == p.lastSequence + 1 && OnePerSequence(r.logged)
    requires p.writer.Inserting? ==> p.writer.group.All() <= p.Mem()
    ensures MeaningOk(r, p')
  {
    hide LevelsOrdered, VersionEntries;
    var g := p.writer.group;
    GroupSeqnos(g);
    assert p'.Sources() == p.Sources();
    if p.writer.Inserting? {
      assert p'.Settled() == p.Settled() + g.All();
      OnePerSequenceIsUnique(p.Settled() + g.All(), r.logged);
      OnePerSequenceIsUnique(p.history + g.All(), r.logged);
      AgreeWithNewer(p.Settled(), p.history, g.All(), p.horizon);
    } else {
      assert p'.Settled() == p.Settled();
    }
  }

  lemma FinishSnapshots(r: Record, p: Process, p': Process)
    requires SnapshotsOk(r, p) && p'.lastSequence >= p.lastSequence
    requires p'.snapshots == p.snapshots && p'.horizon == p.horizon
    requires forall g: Group :: g in r.groups ==> g.End() <= p'.lastSequence + 1
    ensures SnapshotsOk(r, p')
  {
  }

  lemma FinishReader(rd: Reader, ms: seq<set<Entry>>, last: nat, last': nat, r: Record,
                     history: set<Entry>, history': set<Entry>)
    requires ReaderOk(rd, ms, last, r, history) && last <= last'
    requires forall e :: e in history' && e !in history ==> e.seqno > last
    requires history <= history' && history' <= r.logged && OnePerSequence(r.logged)
    ensures ReaderOk(rd, ms, last', r, history')
  {
    hide NoSplit, LevelsOrdered, VersionEntries, AllLater;
    OnePerSequenceIsUnique(history, r.logged);
    forall k: Key ensures Lookup(ReaderEntries(rd, ms), k, rd.at) == Lookup(history', k, rd.at) {
      LookupLocal(history, history', k, rd.at);
    }
  }

  lemma FinishReaders(d: Disk, r: Record, p: Process, p': Process)
    requires ReadersOk(d, r, p) && OnePerSequence(r.logged)
    requires p'.readers == p.readers && p'.memtables == p.memtables && p.lastSequence <= p'.lastSequence
    requires forall e :: e in p'.history && e !in p.history ==> e.seqno > p.lastSequence
    requires p.history <= p'.history && p'.history <= r.logged
    ensures ReadersOk(d, r, p')
  {
    hide VersionOk, ReaderOk, OnePerSequence;
    forall rd | rd in p.readers ensures ReaderOk(rd, p.memtables, p'.lastSequence, r, p'.history) {
      FinishReader(rd, p.memtables, p.lastSequence, p'.lastSequence, r, p.history, p'.history);
    }
  }

  lemma FinishFacts(d: Disk, r: Record, p: Process, p': Process)
    requires RecordOk(r) && CanFinish(p) && p' == WriteFinished(p)
    requires p.memtables != [] && p.logFile in d.logs && WriterOk(d, r, p)
    requires AtMost(p.history, p.lastSequence) && p.history <= r.logged
    ensures p.writer.group.first == p.lastSequence + 1 && OnePerSequence(r.logged)
    ensures p.writer.Inserting? ==> p.writer.group.All() <= p.Mem()
    ensures forall g: Group :: g in r.groups ==> g.End() <= p'.lastSequence + 1
    ensures forall e :: e in p'.history && e !in p.history ==> e.seqno > p.lastSequence
    ensures p.history <= p'.history && p'.history <= r.logged && p.lastSequence <= p'.lastSequence
  {
    GroupSeqnos(p.writer.group);
  }

  lemma FinishKeepsMemory(d: Disk, r: Record, p: Process, p': Process)
    requires RecordOk(r) && MemoryInv(d, r, p) && CanFinish(p) && p' == WriteFinished(p)
    ensures MemoryInv(d, r, p')
  {
    FinishWriter(d, r, p);
    FinishFacts(d, r, p, p');
    hide RecordOk, WriterOk, LogsOk, NumbersOk;
    FinishOrder(p, p');
    FinishMeaning(r, p, p');
    hide OrderOk, MeaningOk, OnePerSequence;
    FinishSnapshots(r, p, p');
    FinishReaders(d, r, p, p');
  }

  lemma FinishKeepsProcess(d: Disk, r: Record, p: Process, p': Process)
    requires ProcInv(d, r, p) && CanFinish(p) && p' == WriteFinished(p)
    ensures ProcInv(d, r, p')
  {
    hide OrderOk, WriterOk, LogsOk, MeaningOk, SnapshotsOk, ReadersOk, BackgroundOk, RiskOk, Whole, RecordOk, VersionOk;
    RiskRecord(d, r, p);
    FinishKeepsMemory(d, Whole(r, p), p, p');
    assert p'.Imm() == p.Imm();
    BackgroundSame(d, r, p, p');
    RiskSame(d, r, p, p');
  }

  lemma FinishWriteKeeps(s: State, s': State)
    requires Inv(s) && Up(s) && FinishWriteStep(s, s')
    ensures Inv(s')
  {
    hide RecordOk, ProcInv, WriteFinished, CanFinish;
    FinishKeepsProcess(s.disk, s.rec, s.proc.value, s'.proc.value);
  }

  // ------------------------------------------------------------------ snapshots and reads

  // Steps that touch only snapshots and readers.
  lemma ReadOnly(d: Disk, r: Record, p: Process, p': Process)
    requires MemoryInv(d, r, p) && p' == p.(snapshots := p'.snapshots, readers := p'.readers)
    ensures NumbersOk(d, p') && OrderOk(p') && WriterOk(d, r, p') && LogsOk(d, p') && MeaningOk(r, p')
  {
    hide VersionOk, LevelsOrdered, VersionEntries, AllLater, ReadersOk, SnapshotsOk, GroupEntries, Begun, InFlight,
      AllEntries;
    assert p'.Imm() == p.Imm() && p'.Mem() == p.Mem();
    assert p'.Sources() == p.Sources() && p'.Settled() == p.Settled();
  }

  lemma ReadOnlyKeeps(d: Disk, r: Record, p: Process, p': Process)
    requires ProcInv(d, r, p) && p' == p.(snapshots := p'.snapshots, readers := p'.readers)
    requires SnapshotsOk(Whole(r, p), p') && ReadersOk(d, Whole(r, p), p')
    requires forall s :: s in p'.snapshots ==> s in p.snapshots || s == p.lastSequence
    ensures ProcInv(d, r, p')
  {
    hide OrderOk, WriterOk, LogsOk, MeaningOk, SnapshotsOk, ReadersOk, BackgroundOk, RiskOk, Whole, VersionOk;
    ReadOnly(d, Whole(r, p), p, p');
    assert p'.Imm() == p.Imm();
    BackgroundSame(d, r, p, p');
    RiskSame(d, r, p, p');
  }

  lemma SnapshotTaken(r: Record, p: Process, p': Process)
    requires SnapshotsOk(r, p) && p.horizon <= p.lastSequence
    requires p' == p.(snapshots := p.snapshots + [p.lastSequence])
    ensures SnapshotsOk(r, p')
  {
    hide NoSplit;
  }

  lemma SnapshotReleased(r: Record, p: Process, i: nat, p': Process)
    requires SnapshotsOk(r, p) && i < |p.snapshots|
    requires p' == p.(snapshots := p.snapshots[..i] + p.snapshots[i+1..])
    ensures SnapshotsOk(r, p')
  {
    hide NoSplit;
    assert forall j :: 0 <= j < |p'.snapshots| ==> p'.snapshots[j] == p.snapshots[if j < i then j else j + 1];
  }

  lemma TakeSnapshotKeeps(s: State, s': State)
    requires Inv(s) && Up(s) && TakeSnapshotStep(s, s')
    ensures Inv(s')
  {
    hide DiskInv, RiskOk, BackgroundOk, Whole;
    var d, r, p, p' := s.disk, s.rec, s.proc.value, s'.proc.value;
    SameReaders(d, Whole(r, p), p, p');
    SnapshotTaken(Whole(r, p), p, p');
    hide ProcInv;
    ReadOnlyKeeps(d, r, p, p');
  }

  lemma SameReaders(d: Disk, r: Record, p: Process, p': Process)
    requires ReadersOk(d, r, p) && p' == p.(snapshots := p'.snapshots, readers := p'.readers)
    requires forall rd :: rd in p'.readers ==> rd in p.readers
    ensures ReadersOk(d, r, p')
  {
    hide ReaderOk, VersionOk;
  }

  lemma SameSnapshots(r: Record, p: Process, p': Process)
    requires SnapshotsOk(r, p) && p' == p.(readers := p'.readers)
    ensures SnapshotsOk(r, p')
  {
    hide NoSplit;
  }

  lemma ReleaseSnapshotKeeps(s: State, i: nat, s': State)
    requires Inv(s) && Up(s) && ReleaseSnapshotStep(s, i, s')
    ensures Inv(s')
  {
    hide DiskInv, RiskOk, BackgroundOk, Whole, OrderOk, WriterOk, LogsOk, MeaningOk, SnapshotsOk, ReadersOk, NumbersOk;
    var d, r, p, p' := s.disk, s.rec, s.proc.value, s'.proc.value;
    SameReaders(d, Whole(r, p), p, p');
    SnapshotReleased(Whole(r, p), p, i, p');
    ReadOnlyKeeps(d, r, p, p');
  }

  // A read sees exactly the completed writes up to its sequence number.
  lemma NewReader(p: Process, r: Record, at: nat) returns (rd: Reader)
    requires p.memtables != [] && (p.hasImm ==> |p.memtables| >= 2) && OrderOk(p) && MeaningOk(r, p)
    requires p.horizon <= at <= p.lastSequence && NoSplit(r.groups, at) && OnePerSequence(r.logged)
    ensures rd == Reader(at, |p.memtables| - 1, if p.hasImm then Some(|p.memtables| - 2) else None, p.current)
    ensures ReaderOk(rd, p.memtables, p.lastSequence, r, p.history)
  {
    hide NoSplit, LevelsOrdered, VersionEntries;
    rd := Reader(at, |p.memtables| - 1, if p.hasImm then Some(|p.memtables| - 2) else None, p.current);
    assert ReaderImm(rd, p.memtables) == p.Imm();
    assert ReaderEntries(rd, p.memtables) == p.Sources();
    OnePerSequenceIsUnique(p.Sources(), r.logged);
    forall k: Key ensures Lookup(p.Sources(), k, at) == Lookup(p.history, k, at) {
      LookupLocal(p.Sources(), p.Settled(), k, at);
    }
  }

  lemma BeginReadReaders(d: Disk, r: Record, p: Process, at: nat, p': Process, rd: Reader)
    requires MemoryInv(d, r, p) && RecordOk(r) && (at in p.snapshots || at == p.lastSequence)
    requires rd == Reader(at, |p.memtables| - 1, if p.hasImm then Some(|p.memtables| - 2) else None, p.current)
    requires p' == p.(readers := p.readers + [rd])
    ensures SnapshotsOk(r, p') && ReadersOk(d, r, p')
  {
    assert p.horizon <= at <= p.lastSequence && NoSplit(r.groups, at);
    var reader := NewReader(p, r, at);
    hide ReaderOk, VersionOk, NoSplit, OrderOk, WriterOk, LogsOk, MeaningOk, RecordOk;
  }

  lemma BeginReadKeeps(s: State, snapshot: Option<nat>, s': State)
    requires Inv(s) && Up(s) && BeginReadStep(s, snapshot, s')
    ensures Inv(s')
  {
    hide DiskInv, RecordOk, OrderOk, WriterOk, LogsOk, MeaningOk, SnapshotsOk, ReadersOk, BackgroundOk, RiskOk, Whole,
      VersionOk;
    var d, r, p, p' := s.disk, s.rec, s.proc.value, s'.proc.value;
    RiskRecord(d, r, p);
    var at := if snapshot.Some? then p.snapshots[snapshot.value] else p.lastSequence;
    BeginReadReaders(d, Whole(r, p), p, at, p', p'.readers[|p.readers|]);
    ReadOnlyKeeps(d, r, p, p');
  }

  lemma EndReadKeeps(s: State, i: nat, s': State)
    requires Inv(s) && Up(s) && EndReadStep(s, i, s')
    ensures Inv(s')
  {
    hide DiskInv, OrderOk, WriterOk, LogsOk, MeaningOk, SnapshotsOk, ReadersOk, BackgroundOk, RiskOk, Whole, NumbersOk;
    var d, r, p, p' := s.disk, s.rec, s.proc.value, s'.proc.value;
    SameReaders(d, Whole(r, p), p, p');
    SameSnapshots(Whole(r, p), p, p');
    ReadOnlyKeeps(d, r, p, p');
  }
}
