/** Groups whose append failed although their record was stored: memory does not have them, but a crash makes them
    durable. They never get in the way of anything else.
 */
module StoreStrays {
  import opened Entries
  import opened Compaction
  import opened Store
  import opened StoreInvariant
  import opened StoreSteps
  import opened StoreBackground
  import opened Wrappers

  // Each stray is later than all tables and older logs, and its sequence numbers are its own.
  ghost predicate StraysOk(d: Disk, r: Record, p: Process)
    requires p.memtables != [] && p.logFile in d.logs
  {
    var ms, os := GroupEntries(p.memStray), GroupEntries(p.immStray);
    && RecordOk(Saved(Whole(r, p), Strays(p)))
    && AllLater(ms, r.dropped + VersionEntries(p.current) + VersionEntries(d.manifest.version) + p.Imm())
    && AllLater(os, r.dropped + VersionEntries(p.current) + VersionEntries(d.manifest.version))
    && AllLater(ms, LogsBetween(d.logs, d.manifest.logNumber, p.logFile))
    && AllLater(os, LogsBetween(d.logs, d.manifest.logNumber, p.immLog))
    && AllLater(GroupEntries(d.logs[p.logFile]) + ms, os)
    && StraysNumbered(p)
    && (p.immStray != [] ==> ImmLogOk(d, p))
    && (p.bg.Committed? && p.bg.plan.FlushPlan? ==> p.immStray == [])
  }

  // Their sequence numbers are used up, or will be when the failed write finishes.
  ghost predicate StraysNumbered(p: Process) {
    && (forall g: Group :: g in p.memStray ==> g.End() <= p.lastSequence + 1 || p.writer == LogFailed(g))
    && (forall g: Group :: g in p.immStray ==> g.End() <= p.lastSequence + 1)
  }

  ghost predicate ImmLogOk(d: Disk, p: Process) {
    && p.hasImm && p.immLog in d.logs && d.manifest.logNumber <= p.immLog < p.logFile
    && forall n :: n in d.logs ==> n <= p.immLog || n == p.logFile
  }

  ghost predicate StrayInv(s: State) {
    s.proc.Some? ==> var p := s.proc.value; p.memtables != [] && p.logFile in s.disk.logs && StraysOk(s.disk, s.rec, p)
  }

  // ------------------------------------------------------------------ steps that do not concern them

  // What StraysOk depends on.
  ghost predicate SameForStrays(d: Disk, d': Disk, r: Record, r': Record, p: Process, p': Process) {
    && d'.logs == d.logs && d'.manifest == d.manifest && r'.dropped == r.dropped && Whole(r', p') == Whole(r, p)
    && p'.memStray == p.memStray && p'.immStray == p.immStray && p'.immLog == p.immLog && p'.logFile == p.logFile
    && p'.memtables != [] && p'.current == p.current && p'.Imm() == p.Imm() && p'.hasImm == p.hasImm
    && (p'.bg.Committed? ==> p'.bg == p.bg) && p'.lastSequence >= p.lastSequence
    && (p.writer.LogFailed? ==> p'.writer == p.writer || p.writer.group.End() <= p'.lastSequence + 1)
  }

  lemma StraysStay(d: Disk, d': Disk, r: Record, r': Record, p: Process, p': Process)
    requires p.memtables != [] && p.logFile in d.logs && StraysOk(d, r, p) && SameForStrays(d, d', r, r', p, p')
    ensures p'.logFile in d'.logs && StraysOk(d', r', p')
  {
    hide RecordOk, AllLater, GroupEntries, LogsBetween, VersionEntries, Whole;
  }

  // ------------------------------------------------------------------ appending

  lemma MoreStrays(r: Record, gs: set<Group>, g: Group)
    ensures Saved(Recorded(r, g), gs) == Recorded(Saved(r, gs), g)
    ensures Saved(r, gs + {g}) == Recorded(Saved(r, gs), g)
  {
    AllEntriesUnion(gs, {g});
    assert AllEntries({g}) == g.All();
  }

  // One more group with unused sequence numbers.
  lemma RecordMore(r: Record, g: Group, last: nat)
    requires RecordOk(r) && g.first == last + 1 && AtMost(r.logged, last)
    ensures RecordOk(Recorded(r, g))
  {
    GroupSeqnos(g);
    assert OnePerSequence(g.All());
  }

  lemma StraysAtMost(r: Record, p: Process)
    requires AtMost(r.logged, p.lastSequence) && StraysNumbered(p) && !p.writer.LogFailed?
    ensures AtMost(Saved(r, Strays(p)).logged, p.lastSequence)
    ensures AtMost(GroupEntries(p.memStray), p.lastSequence) && AtMost(GroupEntries(p.immStray), p.lastSequence)
  {
    forall g: Group | g in p.memStray + p.immStray ensures AtMost(g.All(), p.lastSequence) {
      GroupSeqnos(g);
    }
    forall e | e in AllEntries(Strays(p)) ensures e.seqno <= p.lastSequence {
      var g: Group :| g in Strays(p) && e in g.All();
      assert AtMost(g.All(), p.lastSequence);
    }
  }

  // Nothing durable, at risk or dropped has a number that is not used up while a write is about to be logged.
  lemma LoggingFacts(d: Disk, r: Record, p: Process)
    requires DiskInv(d, r) && ProcInv(d, r, p) && p.writer.Logging?
    ensures p.writer.group.first == p.lastSequence + 1 && AtMost(Whole(r, p).logged, p.lastSequence)
    ensures r.logged <= Whole(r, p).logged && r.dropped <= r.logged
    ensures VersionEntries(p.current) + p.Imm() <= Whole(r, p).logged
    ensures VersionEntries(d.manifest.version) <= r.logged
    ensures LogsBetween(d.logs, d.manifest.logNumber, p.logFile) <= r.logged
  {
    hide OrderOk, LogsOk, SnapshotsOk, ReadersOk, BackgroundOk, RiskOk, RecordOk, Agree, LogsOrdered, VersionOk,
      VersionEntries, LevelsOrdered, AllLater, AllEntries, GroupIn, GroupEntries;
    BetweenIsLive(d.logs, d.manifest.logNumber, p.logFile);
  }

  lemma LaterThanUsed(g: Group, last: nat, es: set<Entry>)
    requires g.first == last + 1 && AtMost(es, last)
    ensures AllLater(g.All(), es)
  {
    GroupSeqnos(g);
  }

  lemma AtMostSubset(es: set<Entry>, all: set<Entry>, last: nat)
    requires AtMost(all, last) && es <= all
    ensures AtMost(es, last)
  {
  }

  lemma AppendStrays(s: State, found: bool, tears: bool, s': State)
    requires Inv(s) && StrayInv(s) && Inv(s') && Up(s) && AppendStep(s, found, tears, s')
    ensures StrayInv(s')
  {
    hide DiskInv, ProcInv, StraysOk;
    var d, d', r, r', p, p' := s.disk, s'.disk, s.rec, s'.rec, s.proc.value, s'.proc.value;
    var g := p.writer.group;
    LoggingFacts(d, r, p);
    WholeMore(r, r', p, p', g);
    AppendOne(d, d', r, r', p, p', g);
  }

  lemma WholeMore(r: Record, r': Record, p: Process, p': Process, g: Group)
    requires (r' == Recorded(r, g) && p'.memRisk == p.memRisk) || (r' == r && p'.memRisk == p.memRisk + {g})
    requires p'.immRisk == p.immRisk
    ensures Whole(r', p') == Recorded(Whole(r, p), g)
  {
    if r' == r {
      assert p.memRisk + {g} + p.immRisk == (p.memRisk + p.immRisk) + {g};
    }
    MoreStrays(r, p.memRisk + p.immRisk, g);
  }

  lemma AppendOne(d: Disk, d': Disk, r: Record, r': Record, p: Process, p': Process, g: Group)
    requires p.memtables != [] && p.logFile in d.logs && StraysOk(d, r, p)
    requires p.writer == Logging(g) && g.first == p.lastSequence + 1 && AtMost(Whole(r, p).logged, p.lastSequence)
    requires r'.dropped == r.dropped && Whole(r', p') == Recorded(Whole(r, p), g)
    requires d'.logs == d.logs || d'.logs == d.logs[p.logFile := d.logs[p.logFile] + [g]]
    requires d'.manifest == d.manifest && p' == p.(writer := Inserting(g, 0), memRisk := p'.memRisk)
    ensures p'.logFile in d'.logs && StraysOk(d', r', p')
  {
    hide RecordOk, VersionEntries, Whole, GroupEntries;
    assert p'.Imm() == p.Imm() && Strays(p') == Strays(p);
    StraysAtMost(Whole(r, p), p);
    MoreStrays(Whole(r, p), Strays(p), g);
    RecordMore(Saved(Whole(r, p), Strays(p)), g, p.lastSequence);
    LaterThanUsed(g, p.lastSequence, GroupEntries(p.immStray));
    AppendEntries(d.logs[p.logFile], g);
    SameBetween(d.logs, d'.logs, d.manifest.logNumber, p.logFile);
    if p.immStray != [] {
      SameBetween(d.logs, d'.logs, d.manifest.logNumber, p.immLog);
    } else {
      NoEntries();
    }
    hide LogsBetween;
  }

  lemma NoEntries()
    ensures GroupEntries([]) == {}
  {
  }

  lemma SameRisk(r: Record, p: Process, p': Process)
    requires p'.memRisk == p.memRisk && p'.immRisk == p.immRisk
    ensures Whole(r, p') == Whole(r, p)
  {
  }

  lemma FailAppendStrays(s: State, found: bool, s': State)
    requires Inv(s) && StrayInv(s) && Up(s) && FailAppendStep(s, found, s')
    ensures StrayInv(s')
  {
    hide DiskInv, ProcInv, StraysOk;
    var d, r, p := s.disk, s.rec, s.proc.value;
    LoggingFacts(d, r, p);
    if found {
      StoredAnyway(d, s'.disk, r, p);
    } else {
      StraysStay(d, s'.disk, r, r, p, s'.proc.value);
    }
  }

  lemma StoredAnyway(d: Disk, d': Disk, r: Record, p: Process)
    requires p.memtables != [] && p.logFile in d.logs && StraysOk(d, r, p) && p.writer.Logging?
    requires p.writer.group.first == p.lastSequence + 1 && AtMost(Whole(r, p).logged, p.lastSequence)
    requires r.logged <= Whole(r, p).logged && r.dropped <= r.logged
    requires VersionEntries(p.current) + p.Imm() <= Whole(r, p).logged && VersionEntries(d.manifest.version) <= r.logged
    requires LogsBetween(d.logs, d.manifest.logNumber, p.logFile) <= r.logged && d' == Torn(d, p.logFile)
    ensures StraysOk(d', r, AppendFailed(p, true))
  {
    hide RecordOk, VersionEntries, GroupEntries, LogsBetween, Whole, AllLater, AtMost, Strays, Saved, AllEntries;
    var g, p' := p.writer.group, AppendFailed(p, true);
    assert p'.Imm() == p.Imm();
    SameRisk(r, p, p');
    StoredRecord(Whole(r, p), p);
    AppendEntries(p.memStray, g);
    var ms, os, last := GroupEntries(p.memStray), GroupEntries(p.immStray), p.lastSequence;
    var tables := r.dropped + VersionEntries(p.current) + VersionEntries(d.manifest.version) + p.Imm();
    var older := LogsBetween(d.logs, d.manifest.logNumber, p.logFile);
    AtMostSubset(tables, Whole(r, p).logged, last);
    AtMostSubset(older, Whole(r, p).logged, last);
    OneMoreLater(g, last, ms, tables);
    OneMoreLater(g, last, ms, older);
    OneMoreLater(g, last, GroupEntries(d.logs[p.logFile]) + ms, os);
    assert GroupEntries(d.logs[p.logFile]) + (ms + g.All()) == GroupEntries(d.logs[p.logFile]) + ms + g.All();
  }

  lemma StoredRecord(w: Record, p: Process)
    requires p.writer.Logging? && p.writer.group.first == p.lastSequence + 1 && AtMost(w.logged, p.lastSequence)
    requires RecordOk(Saved(w, Strays(p))) && StraysNumbered(p)
    ensures RecordOk(Saved(w, Strays(AppendFailed(p, true)))) && StraysNumbered(AppendFailed(p, true))
    ensures AtMost(GroupEntries(p.memStray), p.lastSequence) && AtMost(GroupEntries(p.immStray), p.lastSequence)
  {
    hide RecordOk, AtMost, Saved, GroupEntries;
    var g := p.writer.group;
    assert Strays(AppendFailed(p, true)) == Strays(p) + {g};
    StraysAtMost(w, p);
    MoreStrays(w, Strays(p), g);
    RecordMore(Saved(w, Strays(p)), g, p.lastSequence);
  }

  lemma OneMoreLater(g: Group, last: nat, later: set<Entry>, earlier: set<Entry>)
    requires g.first == last + 1 && AtMost(earlier, last) && AllLater(later, earlier)
    ensures AllLater(later + g.All(), earlier)
  {
    LaterThanUsed(g, last, earlier);
  }

  // ------------------------------------------------------------------ switching memtables

  lemma SwitchStrays(s: State, s': State)
    requires Inv(s) && StrayInv(s) && Up(s) && SwitchStep(s, s')
    ensures StrayInv(s')
  {
    hide DiskInv, OrderOk, WriterOk, LogsOk, MeaningOk, SnapshotsOk, ReadersOk, BackgroundOk, RiskOk, StraysOk,
      VersionOk;
    var d, r, p := s.disk, s.rec, s.proc.value;
    assert Whole(r, Switched(p)) == Whole(r, p) by {
      assert {} + (p.immRisk + p.memRisk) == p.memRisk + p.immRisk;
    }
    SwitchPlan(d, r, p);
    SwitchesStrays(d, s'.disk, r, p);
  }

  lemma SwitchesStrays(d: Disk, d': Disk, r: Record, p: Process)
    requires NumbersOk(d, p) && StraysOk(d, r, p) && !p.hasImm && p.writer.Quiet? && d' == WithLog(d, p.nextFile)
    requires Whole(r, Switched(p)) == Whole(r, p) && !(p.bg.Committed? && p.bg.plan.FlushPlan?)
    ensures p.nextFile in d'.logs && StraysOk(d', r, Switched(p))
  {
    hide RecordOk, VersionEntries, Whole, GroupEntries, VersionOk;
    var p' := Switched(p);
    assert p.immStray == [] && p.memStray + [] == p.memStray && [] + p.memStray == p.memStray;
    assert Strays(p') == Strays(p);
    NoEntries();
    SameBetween(d.logs, d'.logs, d.manifest.logNumber, p.logFile);
    hide LogsBetween;
  }

  // ------------------------------------------------------------------ manifests and versions

  lemma WriteManifestStrays(s: State, s': State)
    requires Inv(s) && StrayInv(s) && Up(s) && WriteManifestStep(s, s')
    ensures StrayInv(s')
  {
    hide DiskInv, OrderOk, WriterOk, MeaningOk, SnapshotsOk, ReadersOk, RiskOk, StraysOk, VersionOk, PlanOk, LogsOk,
      NumbersOk, Whole;
    var d, r, p := s.disk, s.rec, s.proc.value;
    var plan := p.bg.plan;
    PlanEntries(plan, d, r, p);
    RiskRecord(d, r, p);
    CommitRisk(d, r, p, plan);
    CommitsStrays(plan, d, s'.disk, r, s'.rec, p, s'.proc.value);
  }

  // Tables of the new version hold what the old ones and, after a flush, imm_ held; a merge drops only such entries.
  lemma PlanEntries(plan: Plan, d: Disk, r: Record, p: Process)
    requires NumbersOk(d, p) && PlanOk(plan, d, r, p) && p.bg == Committing(plan)
    ensures VersionEntries(plan.manifest.version) <=
              VersionEntries(p.current) + if plan.FlushPlan? then p.Imm() else {}
    ensures plan.MergePlan? ==> plan.merge.Inputs() <= VersionEntries(p.current)
    ensures if plan.FlushPlan? then plan.manifest.logNumber == p.logFile
            else plan.manifest.logNumber == d.manifest.logNumber
  {
    hide ManifestOk, VersionOk, VersionEntries, LevelsOrdered, GoodBase, Kept, TableEntries;
    if plan.MergePlan? {
      MergeTakes(plan, p);
    }
  }

  lemma MergeTakes(plan: Plan, p: Process)
    requires plan.MergePlan? && GoodInputs(p.current, plan.merge.level, plan.merge.in0, plan.merge.in1)
    requires TableEntries(plan.merge.outputs) == plan.merge.Output()
    requires plan.manifest.version == MergedVersion(p.current, plan.merge)
    ensures VersionEntries(plan.manifest.version) <= VersionEntries(p.current)
    ensures plan.merge.Inputs() <= VersionEntries(p.current)
  {
    hide TableEntries, VersionEntries, MergedVersion;
    SplitAtMerge(p.current, plan.merge);
  }

  lemma CommitsStrays(plan: Plan, d: Disk, d': Disk, r: Record, r': Record, p: Process, p': Process)
    requires p.memtables != [] && p.logFile in d.logs && StraysOk(d, r, p) && p.bg == Committing(plan)
    requires d' == d.(manifest := plan.manifest) && r' == RecordAfter(r, p, plan) && p' == ProcessAfter(p, plan)
    requires SameWhole(Whole(r', p'), Whole(r, p)) && RecordOk(Whole(r, p))
    requires VersionEntries(plan.manifest.version) <= VersionEntries(p.current) + if plan.FlushPlan? then p.Imm()
             else {}
    requires plan.MergePlan? ==> plan.merge.Inputs() <= VersionEntries(p.current)
    requires if plan.FlushPlan? then plan.manifest.logNumber == p.logFile
             else plan.manifest.logNumber == d.manifest.logNumber
    ensures p'.memtables != [] && StraysOk(d', r', p')
  {
    hide VersionEntries, GroupEntries, TableEntries, Kept, RecordOk, Whole, SameWhole;
    assert p'.Imm() == p.Imm();
    NoEntries();
    assert Strays(p') <= Strays(p);
    FewerStrays(Whole(r, p), Whole(r', p'), Strays(p), Strays(p'));
    if plan.FlushPlan? {
      assert LogsBetween(d.logs, p.logFile, p.logFile) == {};
    }
    hide LogsBetween;
  }

  lemma FewerStrays(w: Record, w': Record, gs: set<Group>, gs': set<Group>)
    requires RecordOk(Saved(w, gs)) && gs' <= gs && SameWhole(w', w) && RecordOk(w)
    ensures RecordOk(Saved(w', gs'))
  {
    assert AllEntries(gs') <= AllEntries(gs);
    assert Saved(w', gs').logged <= Saved(w, gs).logged;
  }

  lemma InstallStrays(s: State, s': State)
    requires Inv(s) && StrayInv(s) && Up(s) && InstallStep(s, s')
    ensures StrayInv(s')
  {
    hide DiskInv, OrderOk, WriterOk, MeaningOk, SnapshotsOk, ReadersOk, RiskOk, StraysOk, VersionOk, PlanOk, LogsOk,
      NumbersOk;
    var d, r, p := s.disk, s.rec, s.proc.value;
    InstallsStrays(d, r, p, p.bg.plan);
  }

  lemma InstallsStrays(d: Disk, r: Record, p: Process, plan: Plan)
    requires p.memtables != [] && p.logFile in d.logs && StraysOk(d, r, p)
    requires p.bg == Committed(plan) && d.manifest == plan.manifest
    ensures Installed(p, plan).memtables != [] && StraysOk(d, r, Installed(p, plan))
  {
    hide RecordOk, VersionEntries, GroupEntries, LogsBetween;
    var p' := Installed(p, plan);
    assert p'.Imm() <= p.Imm();
    assert Whole(r, p') == Whole(r, p);
    hide Whole;
  }

  lemma DeleteObsoleteStrays(s: State, oldLogs: set<nat>, oldFiles: set<Table>, s': State)
    requires Inv(s) && StrayInv(s) && Up(s) && DeleteObsoleteStep(s, oldLogs, oldFiles, s')
    ensures StrayInv(s')
  {
    hide DiskInv, OrderOk, WriterOk, MeaningOk, SnapshotsOk, ReadersOk, RiskOk, StraysOk, VersionOk, PlanOk, LogsOk;
    var d, d', r, p := s.disk, s'.disk, s.rec, s.proc.value;
    assert d.manifest.logNumber == p.logNumber && p.logNumber <= p.logFile;
    PurgedLogs(d.logs, oldLogs, p.logNumber);
    PurgesStrays(d, d', r, p);
  }

  lemma PurgesStrays(d: Disk, d': Disk, r: Record, p: Process)
    requires p.memtables != [] && p.logFile in d.logs && StraysOk(d, r, p) && d.manifest.logNumber <= p.logFile
    requires d'.manifest == d.manifest
    requires forall n :: n in d.logs && d.manifest.logNumber <= n ==> n in d'.logs && d'.logs[n] == d.logs[n]
    requires forall n :: n in d'.logs ==> n in d.logs
    requires forall hi: nat ::
               LogsBetween(d'.logs, d.manifest.logNumber, hi) == LogsBetween(d.logs, d.manifest.logNumber, hi)
    ensures p.logFile in d'.logs && StraysOk(d', r, p)
  {
    hide RecordOk, VersionEntries, GroupEntries, LogsBetween, Whole, AllLater;
  }

  // ------------------------------------------------------------------ a crash

  lemma {:induction false} GroupsAppend(a: seq<Group>, b: seq<Group>)
    ensures GroupEntries(a + b) == GroupEntries(a) + GroupEntries(b)
    decreases |b|
  {
    if b == [] {
      NoEntries();
      assert a + b == a;
    } else {
      var front, g := b[..|b| - 1], b[|b| - 1];
      GroupsAppend(a, front);
      AppendEntries(a + front, g);
      AppendEntries(front, g);
      assert a + b == a + front + [g] && b == front + [g];
    }
  }

  lemma SeqEntries(gs: seq<Group>)
    ensures AllEntries(set g | g in gs) == GroupEntries(gs)
  {
    forall e | e in AllEntries(set g | g in gs) ensures e in GroupEntries(gs) {
      var g: Group :| g in gs && e in g.All();
      var i :| 0 <= i < |gs| && gs[i] == g;
    }
  }

  lemma StrayEntries(p: Process)
    ensures AllEntries(Strays(p)) == GroupEntries(p.memStray) + GroupEntries(p.immStray)
  {
    SeqEntries(p.memStray + p.immStray);
    GroupsAppend(p.memStray, p.immStray);
  }

  lemma MoreLive(logs: Logs, lo: nat, n: nat, gs: seq<Group>)
    requires n in logs && lo <= n
    ensures LiveLogs(More(logs, n, gs), lo) == LiveLogs(logs, lo) + GroupEntries(gs)
    ensures forall g: Group :: GroupIn(logs, lo, g) || g in gs ==> GroupIn(More(logs, n, gs), lo, g)
  {
    var logs' := More(logs, n, gs);
    GroupsAppend(logs[n], gs);
    forall e | e in LiveLogs(logs, lo) + GroupEntries(gs) ensures e in LiveLogs(logs', lo) {
      if e in GroupEntries(gs) {
        assert e in GroupEntries(logs'[n]);
      } else {
        var m :| m in logs && lo <= m && e in GroupEntries(logs[m]);
        assert e in GroupEntries(logs'[m]);
      }
    }
    forall e | e in LiveLogs(logs', lo) ensures e in LiveLogs(logs, lo) + GroupEntries(gs) {
      var m :| m in logs' && lo <= m && e in GroupEntries(logs'[m]);
      assert m in logs;
    }
    forall g: Group | GroupIn(logs, lo, g) || g in gs ensures GroupIn(logs', lo, g) {
      if g in gs {
        assert g in logs'[n];
      } else {
        var m :| m in logs && m >= lo && g in logs[m];
        assert g in logs'[m];
      }
    }
  }

  lemma MoreOrdered(logs: Logs, lo: nat, n: nat, gs: seq<Group>)
    requires LogsOrdered(logs, lo) && n in logs && lo <= n
    requires AllLater(GroupEntries(gs), LogsBetween(logs, lo, n))
    requires forall m :: m in logs && m > n ==> AllLater(GroupEntries(logs[m]), GroupEntries(gs))
    ensures LogsOrdered(More(logs, n, gs), lo)
  {
    var logs' := More(logs, n, gs);
    GroupsAppend(logs[n], gs);
    forall a, b | a in logs' && b in logs' && lo <= a < b
      ensures AllLater(GroupEntries(logs'[b]), GroupEntries(logs'[a]))
    {
      assert AllLater(GroupEntries(logs[b]), GroupEntries(logs[a]));
      if b == n {
        assert GroupEntries(logs[a]) <= LogsBetween(logs, lo, n);
      }
    }
  }

  lemma MoreNothing(logs: Logs, n: nat)
    ensures More(logs, n, []) == logs
  {
    assert n in logs ==> logs[n] + [] == logs[n];
  }

  // The logs a crash leaves.
  lemma LeftLogs(d: Disk, r: Record, p: Process)
    requires NumbersOk(d, p) && StraysOk(d, r, p) && LogsOrdered(d.logs, d.manifest.logNumber)
    ensures var lo, logs' := d.manifest.logNumber, LogsLeft(d.logs, p);
      && LogsOrdered(logs', lo)
      && LiveLogs(logs', lo) == LiveLogs(d.logs, lo) + (GroupEntries(p.memStray) + GroupEntries(p.immStray))
      && forall g: Group :: GroupIn(d.logs, lo, g) || g in Strays(p) ==> GroupIn(logs', lo, g)
  {
    hide RecordOk, VersionEntries, Whole, VersionOk, GroupEntries, LiveLogs, GroupIn, LogsOrdered;
    var lo, logs1 := d.manifest.logNumber, More(d.logs, p.logFile, p.memStray);
    MoreLive(d.logs, lo, p.logFile, p.memStray);
    MoreOrdered(d.logs, lo, p.logFile, p.memStray);
    GroupsAppend(d.logs[p.logFile], p.memStray);
    if p.immStray == [] {
      MoreNothing(logs1, p.immLog);
      NoEntries();
    } else {
      SameBetween(d.logs, logs1, lo, p.immLog);
      MoreLive(logs1, lo, p.immLog, p.immStray);
      MoreOrdered(logs1, lo, p.immLog, p.immStray);
    }
    forall g: Group | GroupIn(d.logs, lo, g) || g in Strays(p) ensures GroupIn(LogsLeft(d.logs, p), lo, g) {
      assert g in Strays(p) ==> g in p.memStray || g in p.immStray;
    }
  }

  lemma CrashRecord(d: Disk, r: Record, p: Process)
    requires p.memtables != [] && p.logFile in d.logs && StraysOk(d, r, p) && RecordOk(r)
    ensures RecordOk(Saved(r, Strays(p)))
  {
    hide AllLater, LogsBetween, VersionEntries, GroupEntries;
    var w := Whole(r, p);
    assert r.logged <= w.logged && Saved(r, Strays(p)).logged <= Saved(w, Strays(p)).logged;
  }

  lemma CrashManifest(d: Disk, r: Record, p: Process, d': Disk, r': Record)
    requires NumbersOk(d, p) && StraysOk(d, r, p) && ManifestOk(d.manifest, d.logs, d.files, r)
    requires LogsOrdered(d.logs, d.manifest.logNumber)
    requires d' == d.(logs := LogsLeft(d.logs, p)) && r' == Saved(r, Strays(p))
    ensures ManifestOk(d'.manifest, d'.logs, d'.files, r') && LogsOrdered(d'.logs, d'.manifest.logNumber)
    ensures Recoverable(d') == Recoverable(d) + AllEntries(Strays(p))
  {
    hide RecordOk, VersionEntries, Whole, VersionOk, GroupEntries, LiveLogs, GroupIn, LogsOrdered, LevelsOrdered,
      LogsBetween, AllEntries;
    LeftLogs(d, r, p);
    StrayEntries(p);
  }

  lemma CrashAgrees(d: Disk, r: Record, p: Process)
    requires DiskInv(d, r) && p.memtables != [] && p.logFile in d.logs && StraysOk(d, r, p)
    ensures Agree(Recoverable(d) + AllEntries(Strays(p)), r.logged + AllEntries(Strays(p)), r.horizon)
  {
    hide VersionEntries, Whole, GroupEntries, LogsOrdered, LogsBetween, AllEntries, ManifestOk, Recoverable, Agree,
      RecordOk, Strays;
    CrashRecord(d, r, p);
    StrayEntries(p);
    DurableFacts(d, r);
    var x := AllEntries(Strays(p));
    SavedIsUnique(r, Strays(p));
    assert AllLater(x, r.dropped);
    AgreeWithLater(Recoverable(d), r.logged, x, r.horizon);
  }

  lemma SavedIsUnique(r: Record, gs: set<Group>)
    requires RecordOk(Saved(r, gs))
    ensures Unique(r.logged + AllEntries(gs))
  {
    hide AllEntries;
    assert OnePerSequence(r.logged + AllEntries(gs));
    OnePerSequenceIsUnique(r.logged + AllEntries(gs), r.logged + AllEntries(gs));
  }

  lemma CrashKeeps(s: State, cuts: bool, s': State)
    requires Inv(s) && StrayInv(s) && CrashStep(s, cuts, s')
    ensures Inv(s')
  {
    hide ManifestOk, RecordOk, Agree, LogsOrdered, OrderOk, WriterOk, LogsOk, MeaningOk, SnapshotsOk, ReadersOk,
      BackgroundOk, RiskOk, StraysOk, VersionOk, Recoverable, AllEntries, LogsLeft, Strays;
    if s.proc.Some? {
      var d, r, p := s.disk, s.rec, s.proc.value;
      var d1, r' := d.(logs := LogsLeft(d.logs, p)), Saved(r, Strays(p));
      CrashRecord(d, r, p);
      CrashManifest(d, r, p, d1, r');
      CrashAgrees(d, r, p);
      assert DiskInv(d1, r');
      hide DiskInv;
      TornDisk(d1, s'.disk, r');
    }
  }

  // ------------------------------------------------------------------ every step

  // The other steps of the writer.
  lemma WriterStrays(s: State, a: Action, s': State)
    requires Inv(s) && StrayInv(s) && Step(s, a, s')
    requires a.BeginGroup? || a.FailSync? || a.InsertNext? || a.FinishWrite?
    ensures StrayInv(s')
  {
    hide DiskInv, OrderOk, LogsOk, MeaningOk, SnapshotsOk, ReadersOk, BackgroundOk, RiskOk, StraysOk, VersionOk;
    var p, p' := s.proc.value, s'.proc.value;
    assert !p.writer.Quiet? ==> p.writer.group.first == p.lastSequence + 1;
    assert p'.memtables != [] && p'.Imm() == p.Imm();
    SameRisk(s.rec, p, p');
    hide Whole, Process.Imm, WriterOk;
    StraysStay(s.disk, s'.disk, s.rec, s'.rec, p, p');
  }

  lemma ReaderStrays(s: State, a: Action, s': State)
    requires Inv(s) && StrayInv(s) && Step(s, a, s')
    requires a.TakeSnapshot? || a.ReleaseSnapshot? || a.BeginRead? || a.EndRead?
    ensures StrayInv(s')
  {
    hide DiskInv, ProcInv, StraysOk;
    var p, p' := s.proc.value, s'.proc.value;
    SameRisk(s.rec, p, p');
    hide Whole;
    StraysStay(s.disk, s'.disk, s.rec, s'.rec, p, p');
  }

  lemma BackgroundStrays(s: State, a: Action, s': State)
    requires Inv(s) && StrayInv(s) && Step(s, a, s')
    requires a.StartFlush? || a.FinishTable? || a.FailTable? || a.FailMerge? || a.StartMerge? || a.EmitOutput?
             || a.PlanMerge? || a.TrivialMove? || a.FailManifest?
    ensures StrayInv(s')
  {
    hide DiskInv, ProcInv, StraysOk, WithFiles, GoodFlushLevel, GoodInputs, GoodBase, TableEntries, MergedVersion, Kept,
      VersionEntries, FlushManifest, Numbers;
    var p, p' := s.proc.value, s'.proc.value;
    SameRisk(s.rec, p, p');
    hide Whole;
    StraysStay(s.disk, s'.disk, s.rec, s'.rec, p, p');
  }

  lemma ReopenStrays(s: State, a: Action, s': State)
    requires Step(s, a, s') && a.Reopen? && Inv(s')
    ensures StrayInv(s')
  {
    hide DiskInv, MemoryInv, BackgroundOk, RiskOk, RecoveredSequence, VersionEntries, TableEntries, LiveLogs,
      LogsBetween,
      WithFiles, AddTable;
    var d, r, p := s'.disk, s'.rec, s'.proc.value;
    RiskRecord(d, r, p);
    NoEntries();
    NoStrays(Whole(r, p), p);
    assert p.memtables != [] && p.logFile in d.logs;
  }

  lemma NoStrays(w: Record, p: Process)
    requires p.memStray == [] && p.immStray == []
    ensures Saved(w, Strays(p)) == w
  {
    assert Strays(p) == {} && AllEntries({}) == {};
    assert w.logged + {} == w.logged && w.groups + {} == w.groups;
  }

  lemma StepStrays(s: State, a: Action, s': State)
    requires Inv(s) && StrayInv(s) && Step(s, a, s') && Inv(s')
    ensures StrayInv(s')
  {
    hide DiskInv, ProcInv, StraysOk, SwitchStep, BeginGroupStep, AppendStep, FailAppendStep, FailSyncStep, InsertStep,
      FinishWriteStep, TakeSnapshotStep, ReleaseSnapshotStep, BeginReadStep, EndReadStep,
          StartFlushStep, FinishTableStep,
      FailTableStep, FailMergeStep, StartMergeStep, EmitOutputStep, PlanMergeStep, TrivialMoveStep, WriteManifestStep,
      FailManifestStep, InstallStep, DeleteObsoleteStep, ReopenStep;
    match a
    case Crash(_) =>
    case AbandonRecovery(_, _) =>
    case Reopen(_, _, _, _, _, _) => ReopenStrays(s, a, s');
    case SwitchMemtable => SwitchStrays(s, s');
    case AppendLog(found, tears) => AppendStrays(s, found, tears, s');
    case FailAppend(found) => FailAppendStrays(s, found, s');
    case BeginGroup(_) => WriterStrays(s, a, s');
    case FailSync => WriterStrays(s, a, s');
    case InsertNext => WriterStrays(s, a, s');
    case FinishWrite => WriterStrays(s, a, s');
    case TakeSnapshot => ReaderStrays(s, a, s');
    case ReleaseSnapshot(_) => ReaderStrays(s, a, s');
    case BeginRead(_) => ReaderStrays(s, a, s');
    case EndRead(_) => ReaderStrays(s, a, s');
    case WriteManifest => WriteManifestStrays(s, s');
    case InstallVersion => InstallStrays(s, s');
    case DeleteObsolete(oldLogs, oldFiles) => DeleteObsoleteStrays(s, oldLogs, oldFiles, s');
    case _ => BackgroundStrays(s, a, s');
  }
}
