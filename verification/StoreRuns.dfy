/** Two runs of the database machine in which an acknowledged write is lost: after a failed append, and after an
    interrupted one on a log file that is reused.
 */
module StoreRuns {
  import opened Entries
  import opened Compaction
  import opened Store
  import opened Wrappers

  // A created database: one log file, one memtable, nothing written.
  ghost function Created(log: nat): State {
    State(Disk(Manifest(EmptyVersion(), 0, 0, 2), map[2 := []][log := []], {}, {}), Record({}, {}, {}, 0),
          Some(Process(EmptyVersion(), 0, log + 1, log, [{}], false, 0, false, Quiet,
                       Resting, [], [], {}, {}, 0, {}, {}, log, [], [], 0)))
  }

  ghost function Nothing(): State {
    State(Disk(Manifest(EmptyVersion(), 0, 0, 2), map[], {}, {}), Record({}, {}, {}, 0), None)
  }

  ghost function Opened(log: nat): Action {
    Reopen(false, {}, false, 0, log, log + 1)
  }

  lemma OpensEmpty(s: State, log: nat)
    requires s.proc.None? && s.disk.manifest == Manifest(EmptyVersion(), 0, 0, 2) && s.disk.files == {}
    requires s.rec == Record({}, {}, {}, 0)
    requires log >= 2 && forall n :: n in s.disk.logs ==> s.disk.logs[n] == [] && n < log
    ensures Step(s, Opened(log), s.(disk := WithLog(s.disk, log), proc := Created(log).proc))
  {
    var d := s.disk;
    assert GroupEntries([]) == {} && LiveLogs(d.logs, 0) == {};
    assert TableEntries({}) == {} && WithFiles({}, {}) == {};
    assert AddTable(EmptyVersion(), 0, {}) == EmptyVersion() by { assert EmptyVersion()[0] + {} == EmptyVersion()[0]; }
    assert RecoveredSequence(d, 0);
  }

  // One write while the process is quiet, up to where its log record is appended.
  ghost function Writing(s: State, op: Op): State
    requires s.proc.Some?
  {
    s.(proc := Some(s.proc.value.(writer := Logging(Group(s.proc.value.lastSequence + 1, [op])))))
  }

  // The append failed: the log is torn, the writer gets the error, its sequence number is used up.
  ghost function Failed(s: State, op: Op): State
    requires s.proc.Some?
  {
    var p := s.proc.value;
    State(Torn(s.disk, p.logFile), s.rec, Some(p.(writer := LogFailed(Group(p.lastSequence + 1, [op])))))
  }

  ghost function Refused(s: State): State
    requires s.proc.Some?
  {
    State(Torn(s.disk, s.proc.value.logFile), s.rec, Some(s.proc.value.(lastSequence := s.proc.value.lastSequence + 1)))
  }

  ghost predicate Ready(s: State) {
    s.proc.Some? && s.proc.value.memtables == [{}] && s.proc.value.writer.Quiet? && !s.proc.value.bgError
  }

  lemma FailingWrite(s: State, op: Op)
    requires Ready(s)
    ensures Step(s, BeginGroup([op]), Writing(s, op)) && Step(Writing(s, op), FailAppend(false), Failed(s, op))
    ensures Step(Failed(s, op), FinishWrite, Refused(s))
  {
  }

  // The append succeeded on a torn log: the write is acknowledged and visible, but recovery would not find it.
  ghost function Unfound(s: State, op: Op, inserted: bool): State
    requires s.proc.Some?
  {
    var p := s.proc.value;
    var g := Group(p.lastSequence + 1, [op]);
    s.(proc := Some(p.(writer := Inserting(g, if inserted then 1 else 0), memRisk := p.memRisk + {g},
                       memtables := if inserted then [{g.At(0)}] else p.memtables)))
  }

  ghost function Acknowledged(s: State, op: Op): State
    requires s.proc.Some?
  {
    var p := s.proc.value;
    var g := Group(p.lastSequence + 1, [op]);
    s.(proc := Some(p.(lastSequence := p.lastSequence + 1, memtables := [{g.At(0)}], history := p.history + {g.At(0)},
                       memRisk := p.memRisk + {g})))
  }

  lemma UnfoundWrite(s: State, op: Op)
    requires Ready(s) && s.proc.value.logFile in s.disk.logs && s.proc.value.logFile in s.disk.torn
    ensures Step(s, BeginGroup([op]), Writing(s, op))
    ensures Step(Writing(s, op), AppendLog(false, false), Unfound(s, op, false))
    ensures Step(Unfound(s, op, false), InsertNext, Unfound(s, op, true))
    ensures Step(Unfound(s, op, true), FinishWrite, Acknowledged(s, op))
  {
    var g := Group(s.proc.value.lastSequence + 1, [op]);
    assert WithUpdate([{}], g.At(0)) == [{g.At(0)}] by { assert {} + {g.At(0)} == {g.At(0)}; }
    assert g.All() == {g.At(0)};
  }

  // A crash of a process without stored records of failed writes.
  lemma PlainCrash(s: State, cuts: bool)
    requires s.proc.Some? && s.proc.value.memStray == [] && s.proc.value.immStray == []
    requires cuts ==> s.proc.value.writer.Logging?
    ensures Step(s, Crash(cuts), State(if cuts then Torn(s.disk, s.proc.value.logFile) else s.disk, s.rec, None))
  {
    var p := s.proc.value;
    assert forall n :: n in s.disk.logs ==> s.disk.logs[n] + [] == s.disk.logs[n];
    assert More(s.disk.logs, p.logFile, []) == s.disk.logs && LogsLeft(s.disk.logs, p) == s.disk.logs;
    assert Strays(p) == {} && AllEntries({}) == {};
    assert Saved(s.rec, {}) == s.rec;
  }

  ghost function Lost(k: Key, v: Value): State {
    Acknowledged(Refused(Created(2)), Op(k, Present(v))).(proc := None)
  }

  lemma TheSteps(k: Key, v: Value)
    ensures var op, s1 := Op(k, Present(v)), Created(2);
            var s4 := Refused(s1);
            var s9 := Lost(k, v);
            && Step(Nothing(), Opened(2), s1)
            && Step(s1, BeginGroup([op]), Writing(s1, op)) && Step(Writing(s1, op), FailAppend(false), Failed(s1, op))
            && Step(Failed(s1, op), FinishWrite, s4) && Step(s4, BeginGroup([op]), Writing(s4, op))
            && Step(Writing(s4, op), AppendLog(false, false), Unfound(s4, op, false))
            && Step(Unfound(s4, op, false), InsertNext, Unfound(s4, op, true))
            && Step(Unfound(s4, op, true), FinishWrite, Acknowledged(s4, op))
            && Step(Acknowledged(s4, op), Crash(false), s9)
            && Step(s9, Opened(3), s9.(disk := WithLog(s9.disk, 3), proc := Created(3).proc))
  {
    hide BeginGroupStep, FailAppendStep, FinishWriteStep, AppendStep, InsertStep, ReopenStep;
    var op := Op(k, Present(v));
    OpensEmpty(Nothing(), 2);
    CreatedIs(2);
    FailingWrite(Created(2), op);
    UnfoundWrite(Refused(Created(2)), op);
    PlainCrash(Acknowledged(Refused(Created(2)), op), false);
    OpensEmpty(Lost(k, v), 3);
  }

  lemma CreatedIs(log: nat)
    requires log == 2
    ensures Nothing().(disk := WithLog(Nothing().disk, log), proc := Created(log).proc) == Created(log)
  {
    assert {} - {log} == {};
  }

  /** The database is created, a write fails in its log append, and the next write of k is acknowledged.  A read of k
      returns it; after a crash and a reopening k is not found.
   */
  lemma TornLogLosesAWrite(k: Key, v: Value) returns (states: seq<State>, actions: seq<Action>)
    ensures Run(states, actions) && |states| == 11
    ensures var before, after := states[8], states[10];
            && before.proc.Some? && before.proc.value.writer.Quiet? && before.proc.value.memtables != []
            && Entry(k, 2, Present(v)) in before.proc.value.history
            && Lookup(before.proc.value.Sources(), k, before.proc.value.lastSequence) == Some(v)
            && after.proc.Some? && after.proc.value.memtables != []
            && Lookup(after.proc.value.Sources(), k, after.proc.value.lastSequence) == None
  {
    hide Step, Writing, Failed, Unfound, Lookup, Process.Sources;
    var op, s0, s1 := Op(k, Present(v)), Nothing(), Created(2);
    var s4, s9 := Refused(s1), Lost(k, v);
    var s8, s10 := Acknowledged(s4, op), s9.(disk := WithLog(s9.disk, 3), proc := Created(3).proc);
    states := [s0, s1, Writing(s1, op), Failed(s1, op), s4, Writing(s4, op), Unfound(s4, op, false),
               Unfound(s4, op, true), s8, s9, s10];
    actions := [Opened(2), BeginGroup([op]), FailAppend(false), FinishWrite, BeginGroup([op]),
                AppendLog(false, false), InsertNext,
                FinishWrite, Crash(false), Opened(3)];
    TheSteps(k, v);
    ReadsBack(s8, k, v);
    ReadsNothing(s10, k);
  }

  // ------------------------------------------------------------------ a reused log

  // Log 2 ends in part of a fragment; with reuse the next process goes on with it.
  ghost function Cut(): State {
    State(Disk(Manifest(EmptyVersion(), 0, 0, 2), map[2 := []], {}, {2}), Record({}, {}, {}, 0), None)
  }

  ghost function Reused(): State {
    Cut().(proc := Created(2).proc)
  }

  ghost function LostAgain(k: Key, v: Value): State {
    Acknowledged(Reused(), Op(k, Present(v))).(proc := None)
  }

  lemma ReusesLog()
    ensures Step(Cut(), Reopen(true, {}, false, 0, 2, 3), Reused())
  {
    var d := Cut().disk;
    assert GroupEntries([]) == {} && LiveLogs(d.logs, 0) == {} && LogsBetween(d.logs, 0, 2) == {};
    assert TableEntries({}) == {} && WithFiles({}, {}) == {};
    assert AddTable(EmptyVersion(), 0, {}) == EmptyVersion() by { assert EmptyVersion()[0] + {} == EmptyVersion()[0]; }
    assert RecoveredSequence(d, 0);
  }

  lemma InterruptedWrite(op: Op)
    ensures Step(Created(2), BeginGroup([op]), Writing(Created(2), op))
    ensures Step(Writing(Created(2), op), Crash(true), Cut())
  {
    PlainCrash(Writing(Created(2), op), true);
    assert Created(2).disk.logs == Cut().disk.logs;
    assert {} + {2} == Cut().disk.torn;
  }

  lemma TheStepsAgain(k: Key, v: Value)
    ensures var op, s1, s4, s9 := Op(k, Present(v)), Created(2), Reused(), LostAgain(k, v);
            && Step(Nothing(), Opened(2), s1)
            && Step(s1, BeginGroup([op]), Writing(s1, op)) && Step(Writing(s1, op), Crash(true), Cut())
            && Step(Cut(), Reopen(true, {}, false, 0, 2, 3), s4) && Step(s4, BeginGroup([op]), Writing(s4, op))
            && Step(Writing(s4, op), AppendLog(false, false), Unfound(s4, op, false))
            && Step(Unfound(s4, op, false), InsertNext, Unfound(s4, op, true))
            && Step(Unfound(s4, op, true), FinishWrite, Acknowledged(s4, op))
            && Step(Acknowledged(s4, op), Crash(false), s9)
            && Step(s9, Opened(3), s9.(disk := WithLog(s9.disk, 3), proc := Created(3).proc))
  {
    hide BeginGroupStep, FinishWriteStep, AppendStep, InsertStep, ReopenStep;
    var op := Op(k, Present(v));
    OpensEmpty(Nothing(), 2);
    CreatedIs(2);
    InterruptedWrite(op);
    ReusesLog();
    UnfoundWrite(Reused(), op);
    PlainCrash(Acknowledged(Reused(), op), false);
    OpensEmpty(LostAgain(k, v), 3);
  }

  /** No file call fails here.  The process dies in the middle of an append, the next one reuses the log file, and its
      first write of k is acknowledged.  A read of k returns it; after a crash and a reopening k is not found.
   */
  lemma ReusedCutLosesAWrite(k: Key, v: Value) returns (states: seq<State>, actions: seq<Action>)
    ensures Run(states, actions) && |states| == 11 && forall a :: a in actions ==> !a.FailAppend?
    ensures var before, after := states[8], states[10];
            && before.proc.Some? && before.proc.value.writer.Quiet? && before.proc.value.memtables != []
            && Entry(k, 1, Present(v)) in before.proc.value.history
            && Lookup(before.proc.value.Sources(), k, before.proc.value.lastSequence) == Some(v)
            && after.proc.Some? && after.proc.value.memtables != []
            && Lookup(after.proc.value.Sources(), k, after.proc.value.lastSequence) == None
  {
    hide Step, Writing, Unfound, Lookup, Process.Sources;
    var op, s0, s1, s4, s9 := Op(k, Present(v)), Nothing(), Created(2), Reused(), LostAgain(k, v);
    var s8, s10 := Acknowledged(s4, op), s9.(disk := WithLog(s9.disk, 3), proc := Created(3).proc);
    states := [s0, s1, Writing(s1, op), Cut(), s4, Writing(s4, op), Unfound(s4, op, false),
               Unfound(s4, op, true), s8, s9, s10];
    actions := [Opened(2), BeginGroup([op]), Crash(true), Reopen(true, {}, false, 0, 2, 3), BeginGroup([op]),
                AppendLog(false, false), InsertNext, FinishWrite, Crash(false), Opened(3)];
    TheStepsAgain(k, v);
    ReadsBack(s8, k, v);
    ReadsNothing(s10, k);
  }

  // ------------------------------------------------------------------ what a read of k returns

  lemma ReadsBack(s: State, k: Key, v: Value)
    requires s.proc.Some? && s.proc.value.memtables == [{Entry(k, s.proc.value.lastSequence, Present(v))}]
    requires s.proc.value.current == EmptyVersion() && !s.proc.value.hasImm
    ensures Lookup(s.proc.value.Sources(), k, s.proc.value.lastSequence) == Some(v)
  {
    var p, e := s.proc.value, Entry(k, s.proc.value.lastSequence, Present(v));
    assert VersionEntries(EmptyVersion()) == {};
    assert p.Sources() == {e};
    LookupNewest({e}, k, p.lastSequence, e);
  }

  lemma ReadsNothing(s: State, k: Key)
    requires s.proc.Some? && s.proc.value.memtables == [{}]
    requires s.proc.value.current == EmptyVersion() && !s.proc.value.hasImm
    ensures Lookup(s.proc.value.Sources(), k, s.proc.value.lastSequence) == None
  {
    assert VersionEntries(EmptyVersion()) == {};
    assert s.proc.value.Sources() == {};
  }
}
