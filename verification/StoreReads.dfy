/** What a read sees, told without its sequence number: exactly what was completed when it began, or when its snapshot
    was taken, however long it goes on.
 */
module StoreReads {
  import opened Entries
  import opened Compaction
  import opened Store
  import opened StoreInvariant
  import opened StoreSteps
  import opened StoreBackground
  import opened StoreTheorems
  import opened Wrappers

  // The value that the newest of all these updates of the key gives it.
  ghost predicate IsLatest(es: set<Entry>, k: Key, value: Option<Value>) {
    || (value == None && forall e :: e in es ==> e.key != k)
    || exists e :: e in es && e.key == k && value == SlotValue(e.slot) &&
         forall f :: f in es && f.key == k ==> f.seqno <= e.seqno
  }

  // One process goes on: what is completed stays so, and what is completed later is newer.
  ghost predicate GoesOn(s: State, s': State) {
    && s.proc.Some? && s'.proc.Some?
    && var p, p' := s.proc.value, s'.proc.value;
       && p.history <= p'.history && p.lastSequence <= p'.lastSequence
       && forall e :: e in p'.history && e !in p.history ==> e.seqno > p.lastSequence
  }

  lemma GoesOnOn(s: State, t: State, u: State)
    requires GoesOn(s, t) && GoesOn(t, u)
    ensures GoesOn(s, u)
  {
  }

  // What a step of a running process does to the history, the sequence number and the snapshots.
  lemma StepInProcess(s: State, a: Action, s': State)
    requires Up(s) && Step(s, a, s') && !a.Crash?
    ensures s'.proc.Some?
    ensures var p, p' := s.proc.value, s'.proc.value;
            && p'.history == p.history + (if a.FinishWrite? && p.writer.Inserting? then p.writer.group.All() else {})
            && p'.lastSequence >= p.lastSequence
            && p'.snapshots == match a
                               case TakeSnapshot => p.snapshots + [p.lastSequence]
                               case ReleaseSnapshot(i) =>
                                 if i < |p.snapshots| then p.snapshots[..i] + p.snapshots[i+1..] else p.snapshots
                               case _ => p.snapshots
  {
    hide WithFiles, GoodFlushLevel, GoodInputs, GoodBase, TableEntries, MergedVersion, VersionEntries, FlushManifest,
      Numbers, RecordAfter, LiveTables, Process.Imm, Merge.Output, Oldest, OuterPhase, WithUpdate, NextUpdate;
  }

  lemma StepGoesOn(s: State, a: Action, s': State)
    requires Inv(s) && s.proc.Some? && Step(s, a, s') && !a.Crash?
    ensures GoesOn(s, s')
  {
    hide DiskInv, OrderOk, LogsOk, MeaningOk, SnapshotsOk, ReadersOk, BackgroundOk, RiskOk, Whole, Step;
    StepInProcess(s, a, s');
    var g := s.proc.value.writer;
    if a.FinishWrite? && g.Inserting? {
      assert forall e :: e in g.group.All() ==> e.seqno >= g.group.first;
    }
  }

  // ------------------------------------------------------------------ a read and the state it speaks of

  /** A read whose sequence number is the last one of an earlier state sees what was completed then. */
  lemma SeesCompleted(was: State, now: State, rd: Reader, k: Key, order: seq<Table>)
    requires Inv(was) && Inv(now) && GoesOn(was, now) && rd in now.proc.value.readers && ByAge(rd.version[0], order)
    requires rd.at == was.proc.value.lastSequence
    ensures ReaderShape(rd, now.proc.value.memtables)
    ensures IsLatest(was.proc.value.history, k, FirstHit(ProbeOrder(rd, now.proc.value.memtables, order), k, rd.at))
  {
    hide Inv, ByAge, ReaderShape, ProbeOrder, FirstHit, Lookup, IsLatest;
    ReadFacts(now, rd, k);
    ReadHits(now, rd, k, order);
    HistoryFacts(was);
    HistoryFacts(now);
    LatestIsLookup(was.proc.value.history, now.proc.value.history, k, rd.at);
  }

  lemma HistoryFacts(s: State)
    requires Inv(s) && s.proc.Some?
    ensures AtMost(s.proc.value.history, s.proc.value.lastSequence) && Unique(s.proc.value.history)
  {
    hide DiskInv, OrderOk, WriterOk, LogsOk, SnapshotsOk, ReadersOk, BackgroundOk, RiskOk, Whole, Agree;
    RiskRecord(s.disk, s.rec, s.proc.value);
  }

  lemma LatestIsLookup(es: set<Entry>, more: set<Entry>, k: Key, at: nat)
    requires AtMost(es, at) && es <= more && Unique(more) && forall e :: e in more && e !in es ==> e.seqno > at
    ensures IsLatest(es, k, Lookup(more, k, at))
  {
    if e :| e in es && e.key == k {
      var n := NewestExists(more, k, at, e);
      LookupNewest(more, k, at, n);
      assert n in es;
    } else {
      NothingThere(more, k, at);
    }
  }

  // ------------------------------------------------------------------ whole runs

  ghost predicate NoCrash(actions: seq<Action>, from: nat, to: nat) {
    to <= |actions| && forall i :: from <= i < to ==> !actions[i].Crash?
  }

  // Where the snapshot at index j is after these steps, if it is not released by one of them.
  function SnapshotIndex(actions: seq<Action>, from: nat, to: nat, j: nat): Option<nat>
    requires from <= to <= |actions|
  {
    if from == to then Some(j)
    else match SnapshotIndex(actions, from, to - 1, j)
         case None => None
         case Some(k) =>
           if !actions[to - 1].ReleaseSnapshot? || k < actions[to - 1].index then Some(k)
           else if k == actions[to - 1].index then None
           else Some(k - 1)
  }

  /** The read rd of state n began at step b.  It is to see what was completed in state t: the one it began in, or the
      one in which its snapshot was taken.
   */
  ghost predicate Reads(states: seq<State>, actions: seq<Action>, t: nat, b: nat, n: nat, rd: Reader) {
    && t <= b < n < |states| == |actions| + 1 && NoCrash(actions, t, n)
    && states[t].proc.Some? && states[b + 1].proc.Some? && states[n].proc.Some?
    && rd in states[n].proc.value.readers
    && (var rs := states[b + 1].proc.value.readers; rs != [] && rs[|rs| - 1] == rd)
    && match actions[b]
       case BeginRead(None) => t == b
       case BeginRead(Some(i)) =>
         && t < b && actions[t].TakeSnapshot?
         && SnapshotIndex(actions, t + 1, b, |states[t].proc.value.snapshots|) == Some(i)
       case _ => false
  }

  lemma {:induction false} RunGoesOn(states: seq<State>, actions: seq<Action>, t: nat, n: nat)
    requires Run(states, actions) && t <= n < |states| && NoCrash(actions, t, n) && states[t].proc.Some?
    ensures GoesOn(states[t], states[n])
    decreases n
  {
    hide Inv, Step;
    if t < n {
      RunGoesOn(states, actions, t, n - 1);
      RunInv(states, actions, n - 1);
      StepGoesOn(states[n - 1], actions[n - 1], states[n]);
    }
  }

  lemma IsUp(s: State)
    requires Inv(s) && s.proc.Some?
    ensures Up(s)
  {
    hide DiskInv, WriterOk, LogsOk, MeaningOk, SnapshotsOk, ReadersOk, BackgroundOk, RiskOk, Whole;
  }

  // A snapshot keeps the sequence number it was taken at.
  lemma {:induction false} SnapshotStays(states: seq<State>, actions: seq<Action>, t: nat, b: nat)
    requires Run(states, actions) && t < b < |states| && NoCrash(actions, t, b)
    requires states[t].proc.Some? && actions[t].TakeSnapshot?
    ensures states[b].proc.Some?
    ensures var i := SnapshotIndex(actions, t + 1, b, |states[t].proc.value.snapshots|);
            i.Some? ==> i.value < |states[b].proc.value.snapshots| &&
                        states[b].proc.value.snapshots[i.value] == states[t].proc.value.lastSequence
    decreases b
  {
    hide Inv, Step;
    RunInv(states, actions, b - 1);
    if t + 1 < b {
      SnapshotStays(states, actions, t, b - 1);
    }
    IsUp(states[b - 1]);
    StepInProcess(states[b - 1], actions[b - 1], states[b]);
    StepReleases(states[b - 1], actions[b - 1], states[b]);
  }

  lemma StepReleases(s: State, a: Action, s': State)
    requires Step(s, a, s')
    ensures a.ReleaseSnapshot? ==> s.proc.Some? && a.index < |s.proc.value.snapshots|
    ensures a.BeginRead? && a.snapshot.Some? ==> s.proc.Some? && a.snapshot.value < |s.proc.value.snapshots|
  {
  }

  lemma ReadBegins(s: State, snapshot: Option<nat>, s': State)
    requires Step(s, BeginRead(snapshot), s')
    ensures s.proc.Some? && s'.proc.Some?
    ensures snapshot.Some? ==> snapshot.value < |s.proc.value.snapshots|
    ensures var p, rs := s.proc.value, s'.proc.value.readers;
            rs != [] && rs[..|rs| - 1] == p.readers
            && rs[|rs| - 1].at == if snapshot.Some? then p.snapshots[snapshot.value] else p.lastSequence
  {
  }

  /** In every run, at every moment of a read: it sees, for every key, the newest of all updates that were completed
      when it began, or when its snapshot was taken, and no others.
   */
  lemma ReadsSeeTheirStart(states: seq<State>, actions: seq<Action>, t: nat, b: nat, n: nat, rd: Reader, k: Key,
                           order: seq<Table>)
    requires Run(states, actions) && Reads(states, actions, t, b, n, rd) && ByAge(rd.version[0], order)
    ensures ReaderShape(rd, states[n].proc.value.memtables)
    ensures IsLatest(states[t].proc.value.history, k,
                     FirstHit(ProbeOrder(rd, states[n].proc.value.memtables, order), k, rd.at))
  {
    hide Inv, Step, ByAge, ReaderShape, ProbeOrder, FirstHit, IsLatest, GoesOn;
    RunInv(states, actions, t);
    RunInv(states, actions, n);
    RunGoesOn(states, actions, t, n);
    ReadsAt(states, actions, t, b, n, rd);
    SeesCompleted(states[t], states[n], rd, k, order);
  }

  lemma ReadsAt(states: seq<State>, actions: seq<Action>, t: nat, b: nat, n: nat, rd: Reader)
    requires Run(states, actions) && Reads(states, actions, t, b, n, rd)
    ensures rd.at == states[t].proc.value.lastSequence
  {
    hide Inv, Step;
    assert Step(states[b], actions[b], states[b + 1]);
    ReadBegins(states[b], actions[b].snapshot, states[b + 1]);
    if actions[b].snapshot.Some? {
      SnapshotStays(states, actions, t, b);
    }
  }

  lemma LookupIsLatest(states: seq<State>, actions: seq<Action>, t: nat, b: nat, n: nat, rd: Reader, k: Key)
    requires Run(states, actions) && Reads(states, actions, t, b, n, rd)
    ensures states[t].proc.Some? && states[n].proc.Some?
    ensures IsLatest(states[t].proc.value.history, k, Lookup(states[n].proc.value.history, k, rd.at))
  {
    hide Inv, Step, IsLatest, GoesOn, Lookup;
    RunInv(states, actions, t);
    RunInv(states, actions, n);
    RunGoesOn(states, actions, t, n);
    ReadsAt(states, actions, t, b, n, rd);
    HistoryFacts(states[t]);
    HistoryFacts(states[n]);
    HistoryLater(states[t], states[n], k);
  }

  lemma HistoryLater(was: State, now: State, k: Key)
    requires GoesOn(was, now) && AtMost(was.proc.value.history, was.proc.value.lastSequence)
    requires Unique(now.proc.value.history)
    ensures IsLatest(was.proc.value.history, k, Lookup(now.proc.value.history, k, was.proc.value.lastSequence))
  {
    LatestIsLookup(was.proc.value.history, now.proc.value.history, k, was.proc.value.lastSequence);
  }

  // ------------------------------------------------------------------ every read has a beginning

  lemma StepReaders(s: State, a: Action, s': State)
    requires Step(s, a, s') && s'.proc.Some?
    ensures s.proc.None? ==> s'.proc.value.readers == [] && s'.proc.value.snapshots == []
    ensures s.proc.Some? ==> !a.Crash?
    ensures s.proc.Some? && !a.BeginRead? ==> forall rd :: rd in s'.proc.value.readers ==> rd in s.proc.value.readers
  {
    hide WithFiles, GoodFlushLevel, GoodInputs, GoodBase, TableEntries, MergedVersion, VersionEntries, FlushManifest,
      Numbers, RecordAfter, LiveTables, Process.Imm, Merge.Output, Oldest, OuterPhase, WithUpdate, NextUpdate,
      RecoveredSequence, LogsBetween, LiveLogs, AddTable, NewestHighest;
  }

  lemma LastStep(states: seq<State>, actions: seq<Action>, n: nat)
    requires Run(states, actions) && n < |states| && states[n].proc.Some?
    ensures n > 0 && |states| == |actions| + 1 && Step(states[n - 1], actions[n - 1], states[n])
  {
    hide Step;
  }

  lemma {:induction false} EverySnapshotWasTaken(states: seq<State>, actions: seq<Action>, b: nat, i: nat)
      returns (t: nat)
    requires Run(states, actions) && b < |states| && states[b].proc.Some? && i < |states[b].proc.value.snapshots|
    ensures t < b && NoCrash(actions, t, b) && states[t].proc.Some? && actions[t].TakeSnapshot?
    ensures SnapshotIndex(actions, t + 1, b, |states[t].proc.value.snapshots|) == Some(i)
    decreases b
  {
    hide Run;
    var j := SnapshotBefore(states, actions, b, i);
    if actions[b - 1].TakeSnapshot? && i == |states[b - 1].proc.value.snapshots| {
      t := b - 1;
    } else {
      t := EverySnapshotWasTaken(states, actions, b - 1, j);
    }
  }

  // Where a snapshot was one step earlier, unless that step took it.
  lemma SnapshotBefore(states: seq<State>, actions: seq<Action>, b: nat, i: nat) returns (j: nat)
    requires Run(states, actions) && b < |states| && states[b].proc.Some? && i < |states[b].proc.value.snapshots|
    ensures b > 0 && |states| == |actions| + 1 && states[b - 1].proc.Some? && !actions[b - 1].Crash?
    ensures j == if actions[b - 1].ReleaseSnapshot? && i >= actions[b - 1].index then i + 1 else i
    ensures j < |states[b - 1].proc.value.snapshots| ||
            (actions[b - 1].TakeSnapshot? && i == |states[b - 1].proc.value.snapshots|)
  {
    hide Inv, Step, Run, Up;
    LastStep(states, actions, b);
    var s, a := states[b - 1], actions[b - 1];
    j := if a.ReleaseSnapshot? && i >= a.index then i + 1 else i;
    StepReaders(s, a, states[b]);
    RunInv(states, actions, b - 1);
    IsUp(s);
    StepInProcess(s, a, states[b]);
    StepReleases(s, a, states[b]);
  }

  /** Every running read began at some step, of what was completed then or when the snapshot it was given was taken. */
  lemma {:induction false} EveryReadBegan(states: seq<State>, actions: seq<Action>, n: nat, rd: Reader)
    returns (t: nat, b: nat)
    requires Run(states, actions) && n < |states| && states[n].proc.Some? && rd in states[n].proc.value.readers
    ensures Reads(states, actions, t, b, n, rd)
    decreases n
  {
    hide Inv, Step, Run;
    LastStep(states, actions, n);
    var s, a := states[n - 1], actions[n - 1];
    StepReaders(s, a, states[n]);
    if a.BeginRead? {
      ReadBegins(s, a.snapshot, states[n]);
    }
    if rd in s.proc.value.readers {
      t, b := EveryReadBegan(states, actions, n - 1, rd);
    } else {
      b := n - 1;
      t := b;
      if a.snapshot.Some? {
        t := EverySnapshotWasTaken(states, actions, b, a.snapshot.value);
      }
    }
  }

  /** A merge drops entries for the sake of the oldest live snapshot, or of what is completed if there is none: no live
      snapshot is older.
   */
  lemma MergeHorizon(states: seq<State>, actions: seq<Action>, n: nat)
    requires Run(states, actions) && n < |actions| && actions[n].StartMerge?
    ensures states[n].proc.Some? && states[n + 1].proc.Some? && states[n + 1].proc.value.bg.Merging?
    ensures var p, oldest := states[n].proc.value, states[n + 1].proc.value.bg.merge.oldest;
            && (forall at :: at in p.snapshots ==> oldest <= at) && oldest <= p.lastSequence
            && (oldest in p.snapshots || (p.snapshots == [] && oldest == p.lastSequence))
  {
    hide Inv, GoodInputs, GoodBase, TableEntries;
    assert Step(states[n], actions[n], states[n + 1]);
    RunInv(states, actions, n);
    SnapshotsAscend(states[n]);
  }

  lemma SnapshotsAscend(s: State)
    requires Inv(s) && s.proc.Some?
    ensures var p := s.proc.value;
            && (p.snapshots != [] ==> p.snapshots[0] <= p.lastSequence)
            && forall at :: at in p.snapshots ==> p.snapshots[0] <= at
  {
    hide DiskInv, OrderOk, WriterOk, LogsOk, MeaningOk, ReadersOk, BackgroundOk, RiskOk, Whole, NoSplit;
  }
}
