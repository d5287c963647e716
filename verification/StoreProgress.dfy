/** The database never gets stuck: whatever state a run is in, its write, its flush and its merge can be brought to
    their ends, and a read can begin.
 */
module StoreProgress {
  import opened Entries
  import opened Compaction
  import opened Store
  import opened StoreInvariant
  import opened StoreTheorems
  import R = StoreReads
  import opened Wrappers

  // Steps from any state on.
  ghost predicate Path(states: seq<State>, actions: seq<Action>) {
    |states| == |actions| + 1 && forall i :: 0 <= i < |actions| ==> Step(states[i], actions[i], states[i + 1])
  }

  lemma PathCons(s: State, a: Action, states: seq<State>, actions: seq<Action>)
    requires Path(states, actions) && Step(s, a, states[0])
    ensures Path([s] + states, [a] + actions)
  {
    hide Step;
    var states', actions' := [s] + states, [a] + actions;
    forall i | 0 <= i < |actions'| ensures Step(states'[i], actions'[i], states'[i + 1]) {
      if i > 0 {
        assert Step(states[i - 1], actions[i - 1], states[i]);
      }
    }
  }

  // ------------------------------------------------------------------ writes

  // No sync has failed.
  ghost predicate CanWrite(s: State) {
    && Up(s)
    && var p := s.proc.value;
       && !p.writer.SyncFailed? && (p.writer.Inserting? ==> p.writer.done <= |p.writer.group.ops|)
       && p.logFile in s.disk.logs
  }

  function StepsLeft(w: Writer): nat {
    match w
    case Quiet => 0
    case Logging(group) => |group.ops| + 2
    case Inserting(group, done) => if done <= |group.ops| then |group.ops| - done + 1 else 0
    case _ => 1
  }

  // What is completed, and up to which number, when the writer has finished.
  ghost function Completed(p: Process): set<Entry> {
    if p.writer.Logging? || p.writer.Inserting? then p.history + p.writer.group.All() else p.history
  }

  function SequenceAfter(p: Process): nat {
    if p.writer.Quiet? then p.lastSequence else p.lastSequence + |p.writer.group.ops|
  }

  lemma WriteStep(s: State) returns (a: Action, s': State)
    requires CanWrite(s) && !s.proc.value.writer.Quiet?
    ensures Step(s, a, s') && CanWrite(s')
    ensures var p, p' := s.proc.value, s'.proc.value;
            && StepsLeft(p'.writer) < StepsLeft(p.writer) && Completed(p') == Completed(p)
            && SequenceAfter(p') == SequenceAfter(p) && p'.bgError == p.bgError
  {
    hide Group.Prefix;
    var p := s.proc.value;
    if p.writer.Logging? {
      var g := p.writer.group;
      a := AppendLog(true, false);
      s' := State(Appended(s.disk, p.logFile, g), Recorded(s.rec, g), Some(p.(writer := Inserting(g, 0))));
    } else if CanInsert(p) {
      a := InsertNext;
      s' := s.(proc := Some(Inserted(p)));
    } else {
      a := FinishWrite;
      s' := s.(proc := Some(WriteFinished(p)));
    }
  }

  lemma {:induction false} WriteCanFinish(s: State) returns (states: seq<State>, actions: seq<Action>)
    requires CanWrite(s)
    ensures Path(states, actions) && states[0] == s
    ensures var last := states[|states| - 1];
            && CanWrite(last) && last.proc.value.writer.Quiet? && last.proc.value.bgError == s.proc.value.bgError
            && last.proc.value.history == Completed(s.proc.value)
            && last.proc.value.lastSequence == SequenceAfter(s.proc.value)
    decreases StepsLeft(s.proc.value.writer)
  {
    hide Step, Group.Prefix;
    if s.proc.value.writer.Quiet? {
      return [s], [];
    }
    var a, s' := WriteStep(s);
    states, actions := WriteCanFinish(s');
    PathCons(s, a, states, actions);
    states, actions := [s] + states, [a] + actions;
  }

  /** Without a background error, any write can be served after the one in progress: its updates are then completed,
      under the sequence numbers that follow.
   */
  lemma AnyWriteIsPossible(run: seq<State>, how: seq<Action>, n: nat, ops: seq<Op>)
    returns (states: seq<State>, actions: seq<Action>)
    requires Run(run, how) && n < |run| && run[n].proc.Some?
    requires !run[n].proc.value.bgError && !run[n].proc.value.writer.SyncFailed?
    ensures Path(states, actions) && states[0] == run[n]
    ensures var p, last := run[n].proc.value, states[|states| - 1].proc;
            && last.Some? && last.value.writer.Quiet? && last.value.lastSequence == SequenceAfter(p) + |ops|
            && last.value.history == Completed(p) + Group(SequenceAfter(p) + 1, ops).All()
  {
    hide Step, Group.Prefix, Inv;
    RunInv(run, how, n);
    WriterReady(run[n]);
    states, actions := WriteCanFinish(run[n]);
    var s := states[|states| - 1];
    var s' := s.(proc := Some(s.proc.value.(writer := Logging(Group(s.proc.value.lastSequence + 1, ops)))));
    GroupBegins(s, ops, s');
    var more, next := WriteCanFinish(s');
    PathAppend(states, actions, BeginGroup(ops), more, next);
    states, actions := states + more, actions + [BeginGroup(ops)] + next;
  }

  lemma WriterReady(s: State)
    requires Inv(s) && s.proc.Some? && !s.proc.value.writer.SyncFailed?
    ensures CanWrite(s)
  {
    hide DiskInv, LogsOk, MeaningOk, SnapshotsOk, ReadersOk, BackgroundOk, RiskOk, Whole, OrderOk;
  }

  lemma GroupBegins(s: State, ops: seq<Op>, s': State)
    requires CanWrite(s) && s.proc.value.writer.Quiet? && !s.proc.value.bgError
    requires s' == s.(proc := Some(s.proc.value.(writer := Logging(Group(s.proc.value.lastSequence + 1, ops)))))
    ensures Step(s, BeginGroup(ops), s')
  {
  }

  lemma PathAppend(states: seq<State>, actions: seq<Action>, a: Action, more: seq<State>, next: seq<Action>)
    requires Path(states, actions) && Path(more, next) && Step(states[|states| - 1], a, more[0])
    ensures Path(states + more, actions + [a] + next)
  {
    hide Step;
    var states', actions' := states + more, actions + [a] + next;
    forall i | 0 <= i < |actions'| ensures Step(states'[i], actions'[i], states'[i + 1]) {
      if i < |actions| {
        assert Step(states[i], actions[i], states[i + 1]);
      } else if i > |actions| {
        assert Step(more[i - |states|], next[i - |states|], more[i - |states| + 1]);
      }
    }
  }

  // ------------------------------------------------------------------ background work

  ghost predicate CanFlush(s: State) {
    Up(s) && s.proc.value.hasImm && !s.proc.value.bgError && !s.proc.value.bg.Halted?
  }

  function Stage(bg: Background): nat {
    match bg
    case Committing(plan) => if plan.FlushPlan? then 2 else 6
    case Committed(plan) => if plan.FlushPlan? then 1 else 5
    case Flushing(_, _) => 3
    case _ => 4
  }

  ghost predicate SameWrites(p: Process, p': Process) {
    && p'.memtables == p.memtables && p'.writer == p.writer && p'.lastSequence == p.lastSequence
    && p'.history == p.history && p'.bgError == p.bgError && p'.readers == p.readers && p'.snapshots == p.snapshots
  }

  function FlushStarted(p: Process, outer: Option<Merge>): Process {
    p.(bg := Flushing(p.nextFile, outer), nextFile := p.nextFile + 1, pendingOutputs := p.pendingOutputs + {p.nextFile})
  }

  lemma FlushStep(s: State) returns (a: Action, s': State)
    requires CanFlush(s)
    ensures Step(s, a, s') && Up(s') && SameWrites(s.proc.value, s'.proc.value)
    ensures if Stage(s.proc.value.bg) == 1 then !s'.proc.value.hasImm
            else CanFlush(s') && Stage(s'.proc.value.bg) < Stage(s.proc.value.bg)
  {
    hide FlushManifest, RecordAfter, WithFiles, VersionEntries, Numbers;
    var p := s.proc.value;
    match p.bg
    case Committing(plan) =>
      a := WriteManifest;
      s' := State(s.disk.(manifest := plan.manifest), RecordAfter(s.rec, p, plan), Some(ProcessAfter(p, plan)));
    case Committed(plan) =>
      a := InstallVersion;
      s' := s.(proc := Some(Installed(p, plan)));
    case Flushing(number, outer) =>
      var t := Table(number, p.Imm());
      a := FinishTable(0);
      s' := s.(disk := s.disk.(files := if t.entries == {} then s.disk.files else WithFiles(s.disk.files, {t})),
               proc := Some(p.(pendingOutputs := p.pendingOutputs - {number},
                               bg := Committing(FlushPlan(FlushManifest(p, 0, t), 0, t, outer)))));
    case Resting =>
      a := StartFlush;
      s' := s.(proc := Some(FlushStarted(p, None)));
    case Merging(c) =>
      a := StartFlush;
      s' := s.(proc := Some(FlushStarted(p, Some(c))));
    case Halted =>
      assert false;
  }

  lemma {:induction false} FlushGoesOn(s: State) returns (states: seq<State>, actions: seq<Action>)
    requires CanFlush(s)
    ensures Path(states, actions) && states[0] == s
    ensures var last := states[|states| - 1];
            Up(last) && !last.proc.value.hasImm && SameWrites(s.proc.value, last.proc.value)
    decreases Stage(s.proc.value.bg)
  {
    hide Step;
    var a, s' := FlushStep(s);
    if Stage(s.proc.value.bg) == 1 {
      states, actions := [s'], [];
    } else {
      states, actions := FlushGoesOn(s');
    }
    PathCons(s, a, states, actions);
    states, actions := [s] + states, [a] + actions;
  }

  /** Without a background error, a memtable that waits to be flushed can be flushed, at whatever point the background
      work is, so that writers have room again; and nothing else happens to the writes.
   */
  lemma FlushCanFinish(run: seq<State>, how: seq<Action>, n: nat) returns (states: seq<State>, actions: seq<Action>)
    requires Run(run, how) && n < |run| && run[n].proc.Some?
    requires run[n].proc.value.hasImm && !run[n].proc.value.bgError
    ensures Path(states, actions) && states[0] == run[n]
    ensures var last := states[|states| - 1].proc;
            last.Some? && !last.value.hasImm && SameWrites(run[n].proc.value, last.value)
  {
    hide Step, Inv;
    RunInv(run, how, n);
    NotHalted(run[n]);
    R.IsUp(run[n]);
    states, actions := FlushGoesOn(run[n]);
  }

  lemma NotHalted(s: State)
    requires Inv(s) && s.proc.Some? && !s.proc.value.bgError
    ensures !s.proc.value.bg.Halted?
  {
    hide DiskInv, LogsOk, MeaningOk, SnapshotsOk, ReadersOk, RiskOk, Whole, OrderOk, WriterOk, MergeOk, PlanOk;
  }

  /** A merge can be finished too: its outputs then hold what the rule keeps, in place of its inputs. */
  lemma MergeCanFinish(run: seq<State>, how: seq<Action>, n: nat)
    returns (states: seq<State>, actions: seq<Action>, c: Merge)
    requires Run(run, how) && n < |run| && run[n].proc.Some? && run[n].proc.value.bg.Merging?
    ensures Path(states, actions) && states[0] == run[n] && states[|states| - 1].proc.Some?
    ensures var p, last, m := run[n].proc.value, states[|states| - 1].proc.value, run[n].proc.value.bg.merge;
            && c == m.(outputs := c.outputs) && TableEntries(c.outputs) == m.Output() && c.level + 1 < NUM_LEVELS
            && last.current == MergedVersion(p.current, c) && last.bg.Resting? && SameWrites(p, last)
  {
    hide Step, Inv;
    RunInv(run, how, n);
    MergeFacts(run[n]);
    R.IsUp(run[n]);
    var s := run[n];
    if TableEntries(s.proc.value.bg.merge.outputs) == s.proc.value.bg.merge.Output() {
      c := s.proc.value.bg.merge;
      states, actions := PlanOn(s);
    } else {
      var s' := EmitRest(s);
      c := s'.proc.value.bg.merge;
      states, actions := PlanOn(s');
      PathCons(s, EmitOutput(c.Output()), states, actions);
      states, actions := [s] + states, [EmitOutput(c.Output())] + actions;
    }
  }

  lemma MergeFacts(s: State)
    requires Inv(s) && s.proc.Some? && s.proc.value.bg.Merging?
    ensures var c := s.proc.value.bg.merge; c.level + 1 < NUM_LEVELS && TableEntries(c.outputs) <= c.Output()
  {
    hide DiskInv, LogsOk, MeaningOk, SnapshotsOk, ReadersOk, RiskOk, Whole, OrderOk, WriterOk, PlanOk, GoodBase;
  }

  // One output file with everything.
  lemma EmitRest(s: State) returns (s': State)
    requires Up(s) && s.proc.value.bg.Merging?
    requires var c := s.proc.value.bg.merge; c.level + 1 < NUM_LEVELS && TableEntries(c.outputs) <= c.Output()
    ensures Step(s, EmitOutput(s.proc.value.bg.merge.Output()), s') && Up(s')
    ensures SameWrites(s.proc.value, s'.proc.value) && s'.proc.value.current == s.proc.value.current
    ensures s'.proc.value.bg.Merging?
    ensures var c, m := s'.proc.value.bg.merge, s.proc.value.bg.merge;
            c == m.(outputs := c.outputs) && c.Output() == m.Output() == TableEntries(c.outputs)
  {
    hide Kept;
    var p := s.proc.value;
    var t := Table(p.nextFile, p.bg.merge.Output());
    s' := s.(disk := s.disk.(files := WithFiles(s.disk.files, {t})), proc := Some(Emitted(p, t)));
  }

  // From a merge with all its outputs to the version without its inputs.
  lemma PlanOn(s: State) returns (states: seq<State>, actions: seq<Action>)
    requires Up(s) && s.proc.value.bg.Merging? && s.proc.value.bg.merge.level + 1 < NUM_LEVELS
    requires TableEntries(s.proc.value.bg.merge.outputs) == s.proc.value.bg.merge.Output()
    ensures Path(states, actions) && states[0] == s && states[|states| - 1].proc.Some?
    ensures var p, last := s.proc.value, states[|states| - 1].proc.value;
            last.current == MergedVersion(p.current, p.bg.merge) && last.bg.Resting? && SameWrites(p, last)
  {
    hide RecordAfter, TableEntries, Kept, Numbers;
    var p := s.proc.value;
    var plan := MergePlan(Manifest(MergedVersion(p.current, p.bg.merge), p.logNumber, p.lastSequence, p.nextFile),
                          p.bg.merge);
    var s1 := s.(proc := Some(p.(bg := Committing(plan))));
    var q := s1.proc.value;
    var s2 := State(s1.disk.(manifest := plan.manifest), RecordAfter(s1.rec, q, plan), Some(ProcessAfter(q, plan)));
    var s3 := s2.(proc := Some(Installed(s2.proc.value, plan)));
    states, actions := [s, s1, s2, s3], [PlanMerge, WriteManifest, InstallVersion];
    assert Step(s, PlanMerge, s1) && Step(s1, WriteManifest, s2) && Step(s2, InstallVersion, s3);
  }

  // ------------------------------------------------------------------ reads

  /** A read can begin at any time, with or without a snapshot, and a snapshot can be taken. */
  lemma ReadCanBegin(run: seq<State>, how: seq<Action>, n: nat, snapshot: Option<nat>)
    returns (s': State, s'': State)
    requires Run(run, how) && n < |run| && run[n].proc.Some?
    requires snapshot.Some? ==> snapshot.value < |run[n].proc.value.snapshots|
    ensures Step(run[n], BeginRead(snapshot), s') && Step(run[n], TakeSnapshot, s'')
  {
    hide Inv, Step, Run;
    RunInv(run, how, n);
    TwoMemtables(run[n]);
    s', s'' := ReadBegins(run[n], snapshot);
  }

  lemma ReadBegins(s: State, snapshot: Option<nat>) returns (s': State, s'': State)
    requires Up(s) && (s.proc.value.hasImm ==> |s.proc.value.memtables| >= 2)
    requires snapshot.Some? ==> snapshot.value < |s.proc.value.snapshots|
    ensures Step(s, BeginRead(snapshot), s') && Step(s, TakeSnapshot, s'')
  {
    var p := s.proc.value;
    var m := |p.memtables|;
    var at := if snapshot.Some? then p.snapshots[snapshot.value] else p.lastSequence;
    var reader := Reader(at, m - 1, if p.hasImm then Some(m - 2) else None, p.current);
    s' := s.(proc := Some(p.(readers := p.readers + [reader])));
    s'' := s.(proc := Some(p.(snapshots := p.snapshots + [p.lastSequence])));
  }

  lemma TwoMemtables(s: State)
    requires Inv(s) && s.proc.Some?
    ensures Up(s) && (s.proc.value.hasImm ==> |s.proc.value.memtables| >= 2)
  {
    hide DiskInv, LogsOk, MeaningOk, SnapshotsOk, ReadersOk, RiskOk, Whole, OrderOk, WriterOk, BackgroundOk;
  }
}
