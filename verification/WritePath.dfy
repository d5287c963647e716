/** The queue of writers and the database machine are two views of DBImpl::Write.  What the front writer of the queue
    logs is what the database appends and inserts, with the same sequence numbers, and a writer is told of success
    exactly when its updates are part of what the database counts as completed.
 */
module WritePath {
  import opened Entries
  import opened Wrappers
  import Q = WriteQueue
  import R = StoreReads
  import S = Store
  import I = StoreInvariant
  import P = StoreSteps
  import X = StoreStrays
  import T = StoreTheorems

  // The front writer is in its log section.
  ghost predicate Leads(q: Q.State) {
    q.queue != [] && q.queue[0] in q.phase && q.phase[q.queue[0]].InLog?
  }

  // Same sequence numbers, and the same group in the log section.
  ghost predicate Coupled(q: Q.State, s: S.State) {
    && S.Up(s) && q.lastSequence == s.proc.value.lastSequence
    && (Leads(q) <==> !s.proc.value.writer.Quiet?)
    && (Leads(q) ==> s.proc.value.writer.group == q.phase[q.queue[0]].group)
  }

  /** When a leader starts its group, the database can start a write of exactly the merged batches of an unbroken prefix
      of the queue.
   */
  lemma LeadBeginsGroup(q: Q.State, id: nat, q': Q.State, s: S.State) returns (s': S.State, n: nat)
    requires Q.Inv(q) && Q.LeadStep(q, id, q') && Coupled(q, s) && !s.proc.value.bgError
    ensures n <= |q.queue| && (forall i :: 0 <= i < |q.queue| ==> q.queue[i] in q.requests)
    ensures Q.IsGroup(Q.Requests(q, q.queue), n)
    ensures S.Step(s, S.BeginGroup(Q.Merged(Q.Requests(q, q.queue), n)), s') && Coupled(q', s')
  {
    hide Q.OrderOk, Q.RoundOk, Q.GapFree, Q.GroupOk, Q.Merged;
    n :| Q.IsGroup(Q.Requests(q, q.queue), n) &&
      q' == q.(phase := q.phase[id := Q.InLog(n, Group(q.lastSequence + 1, Q.Merged(Q.Requests(q, q.queue), n)))]);
    var g := Group(q.lastSequence + 1, Q.Merged(Q.Requests(q, q.queue), n));
    s' := s.(proc := Some(s.proc.value.(writer := S.Logging(g))));
  }

  /** When the leader completes its group, the database can finish the write: the round that is recorded has the group
      that was logged, and both sides go on from the same sequence number.  The writers are told of success exactly when
      the group was logged and inserted, and then it is part of what is completed.
   */
  lemma FinishEndsWrite(q: Q.State, id: nat, ok: bool, q': Q.State, s: S.State) returns (s': S.State)
    requires Q.Inv(q) && Q.FinishGroupStep(q, id, ok, q') && Coupled(q, s) && S.CanFinish(s.proc.value)
    requires ok <==> s.proc.value.writer.Inserting?
    ensures S.Step(s, S.FinishWrite, s') && Coupled(q', s')
    ensures q'.rounds != [] && q'.rounds == q.rounds + [q'.rounds[|q'.rounds| - 1]]
    ensures q'.rounds[|q.rounds|].group == s.proc.value.writer.group && q'.rounds[|q.rounds|].ok == ok
    ensures s'.proc.value.history == s.proc.value.history + if ok then s.proc.value.writer.group.All() else {}
  {
    hide Q.OrderOk, Q.RoundOk, Q.GapFree, Q.GroupOf;
    s' := s.(proc := Some(S.WriteFinished(s.proc.value)));
    NobodyLeads(q, id, ok, q');
  }

  lemma NobodyLeads(q: Q.State, id: nat, ok: bool, q': Q.State)
    requires Q.PhasesOk(q) && Q.FinishGroupStep(q, id, ok, q') && 1 <= q.phase[id].served
    ensures !Leads(q')
  {
  }

  // ------------------------------------------------------------------ both machines together

  // A running process, from its start on.
  datatype State = State(q: Q.State, s: S.State)

  datatype Action =
    | QueueStep(qa: Q.Action)                       // the database stands still
    | StoreStep(sa: S.Action)                       // the queue stands still
    | LeadGroup(id: nat)
    | FinishGroup(id: nat, ok: bool)

  ghost predicate Step(a: State, b: Action, c: State) {
    match b
    case QueueStep(qa) => (qa.Arrive? || qa.Wake? || qa.FinishAlone?) && Q.Step(a.q, qa, c.q) && c.s == a.s
    case StoreStep(sa) => InProcess(sa) && S.Step(a.s, sa, c.s) && c.q == a.q
    case LeadGroup(id) =>
      && Q.LeadStep(a.q, id, c.q) && id in c.q.phase && c.q.phase[id].InLog?
      && S.Step(a.s, S.BeginGroup(c.q.phase[id].group.ops), c.s)
    case FinishGroup(id, ok) =>
      && Q.FinishGroupStep(a.q, id, ok, c.q) && S.Step(a.s, S.FinishWrite, c.s)
      && a.s.proc.Some? && (ok <==> a.s.proc.value.writer.Inserting?)
  }

  // What the database does without beginning or completing a group.
  ghost predicate InProcess(a: S.Action) {
    !a.BeginGroup? && !a.FinishWrite? && !a.Crash? && !a.AbandonRecovery? && !a.Reopen?
  }

  // A process that starts with a reopening at the end of a run of the database.
  ghost predicate Run(states: seq<State>, actions: seq<Action>, before: seq<S.State>, how: seq<S.Action>) {
    && |states| == |actions| + 1 && Q.Init(states[0].q)
    && S.Run(before, how) && how != [] && how[|how| - 1].Reopen? && states[0].s == before[|how|]
    && states[0].s.proc.Some? && states[0].q.base == states[0].s.proc.value.lastSequence
    && forall i :: 0 <= i < |actions| ==> Step(states[i], actions[i], states[i + 1])
  }

  // The groups that were acknowledged are completed.
  ghost predicate Acknowledged(a: State) {
    a.s.proc.Some? && forall r :: r in a.q.rounds && r.ok ==> r.group.All() <= a.s.proc.value.history
  }

  ghost predicate Inv(a: State) {
    Q.Inv(a.q) && I.Inv(a.s) && X.StrayInv(a.s) && Coupled(a.q, a.s) && Acknowledged(a)
  }

  // Everything else the queue does leaves the database alone.
  lemma QueueOnly(a: State, qa: Q.Action, c: State)
    requires Inv(a) && Step(a, QueueStep(qa), c)
    ensures Coupled(c.q, c.s) && Acknowledged(c)
  {
    hide Q.OrderOk, Q.RoundOk, Q.GapFree, Q.GroupOk, S.Up, I.Inv, X.StrayInv;
    match qa
    case Arrive(id, request) => FrontArrived(a.q);
    case Wake(id) =>
    case FinishAlone(id, ok) =>
      NobodyLeadsAlone(a.q, id, ok, c.q);
      NothingLogged(Group(a.q.lastSequence + 1, []));
  }

  lemma NothingLogged(g: Group)
    requires g.ops == []
    ensures g.All() == {}
  {
  }

  lemma FrontArrived(q: Q.State)
    requires Q.OrderOk(q)
    ensures q.queue != [] ==> q.queue[0] in q.requests && q.queue[0] in q.phase
  {
    if q.queue != [] {
      assert q.arrivals[|Q.Members(q.rounds)|] == q.queue[0];
      assert q.queue[0] in Q.Ids(q.arrivals);
    }
  }

  lemma NobodyLeadsAlone(q: Q.State, id: nat, ok: bool, q': Q.State)
    requires Q.PhasesOk(q) && Q.FinishAloneStep(q, id, ok, q')
    ensures !Leads(q) && !Leads(q') && q'.lastSequence == q.lastSequence
  {
    assert q'.queue == q.queue[1..];
  }

  // Between the beginning and the end of a group the database keeps the group, the sequence number and the history.
  lemma StoreOnly(s: S.State, a: S.Action, s': S.State)
    requires S.Up(s) && S.Step(s, a, s') && InProcess(a)
    ensures s'.proc.Some? && s'.proc.value.lastSequence == s.proc.value.lastSequence
    ensures s'.proc.value.history == s.proc.value.history
    ensures s'.proc.value.writer.Quiet? <==> s.proc.value.writer.Quiet?
    ensures !s.proc.value.writer.Quiet? ==> s'.proc.value.writer.group == s.proc.value.writer.group
  {
    hide S.WithFiles, S.GoodFlushLevel, S.GoodInputs, S.GoodBase, S.TableEntries, S.MergedVersion, S.VersionEntries,
      S.FlushManifest, S.Numbers, S.RecordAfter, S.LiveTables, S.Process.Imm, S.Merge.Output, S.Oldest, S.OuterPhase,
      S.WithUpdate, S.NextUpdate;
  }

  lemma LeadKeepsCoupled(a: State, id: nat, c: State)
    requires Q.Inv(a.q) && Coupled(a.q, a.s) && Acknowledged(a) && Step(a, LeadGroup(id), c)
    ensures Coupled(c.q, c.s) && Acknowledged(c)
  {
    hide Q.OrderOk, Q.RoundOk, Q.GapFree, Q.GroupOk, Q.Merged, Q.IsGroup;
  }

  lemma FinishKeepsCoupled(a: State, id: nat, ok: bool, c: State)
    requires Q.Inv(a.q) && Coupled(a.q, a.s) && Acknowledged(a) && Step(a, FinishGroup(id, ok), c)
    ensures Coupled(c.q, c.s) && Acknowledged(c)
  {
    hide Q.OrderOk, Q.RoundOk, Q.GapFree, Q.GroupOf;
    NobodyLeads(a.q, id, ok, c.q);
  }

  lemma StepKeeps(a: State, b: Action, c: State)
    requires Inv(a) && Step(a, b, c)
    ensures Inv(c)
  {
    hide Q.Inv, I.Inv, X.StrayInv, Coupled, Acknowledged, Q.Step, S.Step, Q.LeadStep, Q.FinishGroupStep;
    match b
    case QueueStep(qa) =>
      Q.StepKeeps(a.q, qa, c.q);
      QueueOnly(a, qa, c);
    case StoreStep(sa) =>
      T.StepKeeps(a.s, sa, c.s);
      StoreStepKeeps(a, sa, c);
    case LeadGroup(id) =>
      QueueLeads(a.q, id, c.q);
      Q.StepKeeps(a.q, Q.Lead(id), c.q);
      T.StepKeeps(a.s, S.BeginGroup(c.q.phase[id].group.ops), c.s);
      LeadKeepsCoupled(a, id, c);
    case FinishGroup(id, ok) =>
      QueueFinishes(a.q, id, ok, c.q);
      Q.StepKeeps(a.q, Q.FinishGroup(id, ok), c.q);
      T.StepKeeps(a.s, S.FinishWrite, c.s);
      FinishKeepsCoupled(a, id, ok, c);
  }

  lemma QueueLeads(q: Q.State, id: nat, q': Q.State)
    requires Q.LeadStep(q, id, q')
    ensures Q.Step(q, Q.Lead(id), q')
  {
    hide Q.LeadStep;
  }

  lemma QueueFinishes(q: Q.State, id: nat, ok: bool, q': Q.State)
    requires Q.FinishGroupStep(q, id, ok, q')
    ensures Q.Step(q, Q.FinishGroup(id, ok), q')
  {
    hide Q.FinishGroupStep;
  }

  lemma StoreStepKeeps(a: State, sa: S.Action, c: State)
    requires Coupled(a.q, a.s) && Acknowledged(a) && Step(a, StoreStep(sa), c) && I.Inv(c.s)
    ensures Coupled(c.q, c.s) && Acknowledged(c)
  {
    hide S.Step;
    StoreOnly(a.s, sa, c.s);
    StillUp(c.s);
    hide I.Inv;
  }

  lemma StillUp(s: S.State)
    requires I.Inv(s) && s.proc.Some?
    ensures S.Up(s)
  {
    hide I.DiskInv, I.OrderOk, I.WriterOk, I.LogsOk, I.MeaningOk, I.SnapshotsOk, I.ReadersOk, I.BackgroundOk, I.RiskOk,
      I.VersionOk, I.Whole;
  }

  lemma {:induction false} RunInv(states: seq<State>, actions: seq<Action>, before: seq<S.State>,
                                  how: seq<S.Action>, n: nat)
    requires Run(states, actions, before, how) && n < |states|
    ensures Inv(states[n])
  {
    hide Inv, Step, S.Run, S.Step;
    if n == 0 {
      StartInv(states[0], before, how);
    } else {
      RunInv(states, actions, before, how, n - 1);
      StepKeeps(states[n - 1], actions[n - 1], states[n]);
    }
  }

  lemma StartInv(a: State, before: seq<S.State>, how: seq<S.Action>)
    requires Q.Init(a.q) && S.Run(before, how) && how != [] && how[|how| - 1].Reopen? && a.s == before[|how|]
    requires a.s.proc.Some? && a.q.base == a.s.proc.value.lastSequence
    ensures Inv(a)
  {
    hide I.Inv, X.StrayInv, S.RecoveredSequence, S.VersionEntries, S.TableEntries, S.LiveLogs, S.LogsBetween,
      S.WithFiles,
      S.AddTable, S.Run;
    ReopenedQuiet(before, how);
    T.RunInv(before, how, |how|);
    StillUp(a.s);
    Q.InitInv(a.q);
  }

  lemma ReopenedQuiet(before: seq<S.State>, how: seq<S.Action>)
    requires S.Run(before, how) && how != [] && how[|how| - 1].Reopen?
    ensures |before| == |how| + 1 && before[|how|].proc.Some? && before[|how|].proc.value.writer.Quiet?
  {
    hide S.RecoveredSequence, S.VersionEntries, S.TableEntries, S.LiveLogs, S.LogsBetween, S.WithFiles, S.AddTable;
    var i := |how| - 1;
    assert S.Step(before[i], how[i], before[i + 1]);
  }

  // ------------------------------------------------------------------ what an acknowledged writer knows

  // The updates of the i-th of the merged batches, where they are in the group.
  lemma {:induction false} MergedParts(q: seq<Q.Request>, n: nat, i: nat, j: nat)
    requires i < n <= |q| && j < |Q.OpsOf(q[i])|
    ensures |Q.Merged(q, i)| + j < |Q.Merged(q, n)| && Q.Merged(q, n)[|Q.Merged(q, i)| + j] == Q.OpsOf(q[i])[j]
    decreases n
  {
    if i < n - 1 {
      MergedParts(q, n - 1, i, j);
    }
  }

  // Each update of a member's batch is an entry of the group.
  lemma MemberEntry(requests: map<nat, Q.Request>, members: seq<nat>, g: Group, id: nat, j: nat) returns (e: Entry)
    requires Q.GroupOf(requests, members, g.ops) && id in members && id in requests && j < |Q.OpsOf(requests[id])|
    ensures e in g.All() && e.key == Q.OpsOf(requests[id])[j].key && e.slot == Q.OpsOf(requests[id])[j].slot
  {
    var q := seq(|members|, i requires 0 <= i < |members| => requests[members[i]]);
    var i :| 0 <= i < |members| && members[i] == id;
    MergedParts(q, |q|, i, j);
    e := g.At(|Q.Merged(q, i)| + j);
  }

  // A writer that was told of success, or of failure, is a member of one round.
  lemma {:induction false} MemberOfRound(rounds: seq<Q.Round>, id: nat) returns (r: Q.Round)
    requires id in Q.Members(rounds)
    ensures r in rounds && id in r.members
    decreases |rounds|
  {
    var last := rounds[|rounds| - 1];
    if id in last.members {
      r := last;
    } else {
      r := MemberOfRound(rounds[..|rounds| - 1], id);
    }
  }

  lemma OutcomeOf(q: Q.State, id: nat) returns (r: Q.Round)
    requires Q.Inv(q) && id in q.outcome
    ensures r in q.rounds && id in r.members && id in q.requests && r.ok == q.outcome[id]
    ensures Q.Alone(q.requests, r) || Q.GroupOf(q.requests, r.members, r.group.ops)
  {
    hide Q.PhasesOk, Q.GroupOk, Q.GapFree, Q.GroupOf, Q.Members;
    assert id in Q.Members(q.rounds);
    r := MemberOfRound(q.rounds, id);
    assert Q.RoundOk(q, r);
    assert id in q.arrivals;
  }

  /** A writer that gets success back finds each update of its batch among the completed ones; so it is durable, or at
      risk because an append to a log of this process failed or was interrupted.
   */
  lemma AcknowledgedWritesAreDurable(states: seq<State>, actions: seq<Action>, before: seq<S.State>, how: seq<S.Action>,
                                     n: nat, id: nat, j: nat) returns (e: Entry)
    requires Run(states, actions, before, how) && n < |states|
    requires var q := states[n].q;
             id in q.outcome && q.outcome[id] && id in q.requests && j < |Q.OpsOf(q.requests[id])|
    ensures var op, s := Q.OpsOf(states[n].q.requests[id])[j], states[n].s;
            && e.key == op.key && e.slot == op.slot && s.proc.Some? && e in s.proc.value.history
            && e in s.rec.logged + S.AllEntries(s.proc.value.memRisk + s.proc.value.immRisk)
            && (!T.LiveLogTorn(s.disk, s.proc.value) ==> e in s.rec.logged)
  {
    RunInv(states, actions, before, how, n);
    hide Run, Q.Inv, I.Inv, X.StrayInv, Coupled, Q.Alone, Q.GroupOf;
    var q, s := states[n].q, states[n].s;
    var r := OutcomeOf(q, id);
    AloneWritesNothing(q, r, id, j);
    e := MemberEntry(q.requests, r.members, r.group, id, j);
    CompletedIsDurable(s, e);
  }

  lemma AloneWritesNothing(q: Q.State, r: Q.Round, id: nat, j: nat)
    requires id in r.members && r.ok && id in q.requests && j < |Q.OpsOf(q.requests[id])|
    ensures !Q.Alone(q.requests, r)
  {
  }

  lemma CompletedIsDurable(s: S.State, e: Entry)
    requires I.Inv(s) && s.proc.Some? && e in s.proc.value.history
    ensures e in s.rec.logged + S.AllEntries(s.proc.value.memRisk + s.proc.value.immRisk)
    ensures !T.LiveLogTorn(s.disk, s.proc.value) ==> e in s.rec.logged
  {
    hide I.OrderOk, I.WriterOk, I.LogsOk, I.SnapshotsOk, I.ReadersOk, I.BackgroundOk, S.Recoverable, I.LogsOrdered,
      I.RiskOk, S.AllEntries, T.LiveLogTorn, I.DiskInv;
    T.RiskFacts(s.disk, s.rec, s.proc.value);
  }

  /** And after a crash and any reopening a read of its key sees that update or a newer durable one, unless an append
      to a log of the crashed process had failed or been interrupted.
   */
  lemma AcknowledgedWritesSurvive(states: seq<State>, actions: seq<Action>, before: seq<S.State>, how: seq<S.Action>,
                                  n: nat, id: nat, j: nat, cuts: bool, crashed: S.State, a: S.Action, s': S.State)
    returns (e: Entry, f: Entry)
    requires Run(states, actions, before, how) && n < |states|
    requires var q := states[n].q;
             id in q.outcome && q.outcome[id] && id in q.requests && j < |Q.OpsOf(q.requests[id])|
    requires states[n].s.proc.Some? ==> !T.LiveLogTorn(states[n].s.disk, states[n].s.proc.value)
    requires S.Step(states[n].s, S.Crash(cuts), crashed) && S.Step(crashed, a, s') && a.Reopen?
    ensures var op := Q.OpsOf(states[n].q.requests[id])[j];
            && e.key == f.key == op.key && e.slot == op.slot && e.seqno <= f.seqno
            && e in crashed.rec.logged && f in crashed.rec.logged
            && s'.proc.Some? && s'.proc.value.memtables != []
            && Lookup(s'.proc.value.Sources(), op.key, s'.proc.value.lastSequence) == SlotValue(f.slot)
  {
    hide Run, Inv, I.Inv, X.StrayInv, Coupled, S.Step, Lookup, S.Torn, S.LogsLeft, S.Strays, T.LiveLogTorn, S.Saved;
    e := AcknowledgedWritesAreDurable(states, actions, before, how, n, id, j);
    RunInv(states, actions, before, how, n);
    StoreInv(states[n]);
    T.StepKeeps(states[n].s, S.Crash(cuts), crashed);
    T.StepKeeps(crashed, a, s');
    CrashKeepsLogged(states[n].s, cuts, crashed);
    T.ReopenFacts(crashed, a, s', e.key);
    f := DurableSeen(crashed, e, s'.proc.value.lastSequence);
  }

  lemma StoreInv(a: State)
    requires Inv(a)
    ensures I.Inv(a.s) && X.StrayInv(a.s)
  {
    hide I.Inv, X.StrayInv, Q.Inv, Coupled, Acknowledged;
  }

  lemma CrashKeepsLogged(s: S.State, cuts: bool, s': S.State)
    requires S.Step(s, S.Crash(cuts), s')
    ensures s.rec.logged <= s'.rec.logged
  {
    hide S.Torn, S.LogsLeft, S.Strays;
  }

  lemma DurableSeen(s: S.State, e: Entry, at: nat) returns (f: Entry)
    requires I.Inv(s) && e in s.rec.logged && I.AtMost(s.rec.logged, at)
    ensures f in s.rec.logged && f.key == e.key && e.seqno <= f.seqno
    ensures Lookup(s.rec.logged, e.key, at) == SlotValue(f.slot)
  {
    hide I.OrderOk, I.WriterOk, I.LogsOk, I.SnapshotsOk, I.ReadersOk, I.BackgroundOk, I.LogsOrdered, I.RiskOk,
      I.MeaningOk,
      S.Recoverable, S.AllEntries, S.LiveLogs, S.VersionEntries, I.Whole, Lookup;
    f := NewestExists(s.rec.logged, e.key, at, e);
    P.OnePerSequenceIsUnique(s.rec.logged, s.rec.logged);
    LookupNewest(s.rec.logged, e.key, at, f);
  }

  // ------------------------------------------------------------------ reading one's own writes

  lemma StepGoesOn(a: State, b: Action, c: State)
    requires Inv(a) && Step(a, b, c) && a.s.proc.Some?
    ensures R.GoesOn(a.s, c.s)
  {
    hide Q.Inv, I.Inv, X.StrayInv, Coupled, Acknowledged, Q.Step, S.Step, Q.LeadStep, Q.FinishGroupStep;
    match b
    case QueueStep(_) =>
    case StoreStep(sa) => R.StepGoesOn(a.s, sa, c.s);
    case LeadGroup(id) => R.StepGoesOn(a.s, S.BeginGroup(c.q.phase[id].group.ops), c.s);
    case FinishGroup(_, _) => R.StepGoesOn(a.s, S.FinishWrite, c.s);
  }

  lemma {:induction false} RunGoesOn(states: seq<State>, actions: seq<Action>, before: seq<S.State>, how: seq<S.Action>,
                                     m: nat, n: nat)
    requires Run(states, actions, before, how) && m <= n < |states|
    ensures states[m].s.proc.Some? && R.GoesOn(states[m].s, states[n].s)
    decreases n
  {
    hide Inv, Step, S.Run, R.GoesOn;
    RunInv(states, actions, before, how, m);
    HasProcess(states[m]);
    if m < n {
      RunGoesOn(states, actions, before, how, m, n - 1);
      RunInv(states, actions, before, how, n - 1);
      HasProcess(states[n - 1]);
      StepGoesOn(states[n - 1], actions[n - 1], states[n]);
      R.GoesOnOn(states[m].s, states[n - 1].s, states[n].s);
    } else {
      StaysSame(states[m].s);
    }
  }

  lemma HasProcess(a: State)
    requires Inv(a)
    ensures a.s.proc.Some?
  {
    hide I.Inv, X.StrayInv, Q.Inv, Acknowledged;
  }

  lemma StaysSame(s: S.State)
    requires s.proc.Some?
    ensures R.GoesOn(s, s)
  {
  }

  /** A read without a snapshot that begins after a writer was told of success sees, in the key of each of its
      updates, that update or a newer completed one.
   */
  lemma ReadsSeeAcknowledgedWrites(states: seq<State>, actions: seq<Action>, before: seq<S.State>, how: seq<S.Action>,
                                   b: nat, n: nat, rd: S.Reader, order: seq<S.Table>, id: nat, j: nat)
    returns (e: Entry, f: Entry)
    requires Run(states, actions, before, how) && b < n < |states| && actions[b] == StoreStep(S.BeginRead(None))
    requires states[b + 1].s.proc.Some? && states[n].s.proc.Some? && rd in states[n].s.proc.value.readers
    requires var rs := states[b + 1].s.proc.value.readers; rs != [] && rs[|rs| - 1] == rd
    requires T.ByAge(rd.version[0], order)
    requires var q := states[b].q;
             id in q.outcome && q.outcome[id] && id in q.requests && j < |Q.OpsOf(q.requests[id])|
    ensures var op, p := Q.OpsOf(states[b].q.requests[id])[j], states[n].s.proc.value;
            && e.key == f.key == op.key && e.slot == op.slot && e.seqno <= f.seqno
            && f in states[b].s.proc.value.history && I.ReaderShape(rd, p.memtables)
            && T.FirstHit(T.ProbeOrder(rd, p.memtables, order), op.key, rd.at) == SlotValue(f.slot)
  {
    hide Inv, Step, S.Run, I.Inv, X.StrayInv, Coupled, S.Step, Lookup, T.LiveLogTorn, T.ByAge, T.FirstHit,
      T.ProbeOrder, R.GoesOn,
      I.ReaderShape, Q.Inv, R.IsLatest;
    e := AcknowledgedWritesAreDurable(states, actions, before, how, b, id, j);
    RunInv(states, actions, before, how, b);
    RunInv(states, actions, before, how, n);
    StoreInv(states[b]);
    StoreInv(states[n]);
    RunGoesOn(states, actions, before, how, b, n);
    StepOf(states, actions, before, how, b);
    R.ReadBegins(states[b].s, None, states[b + 1].s);
    R.SeesCompleted(states[b].s, states[n].s, rd, e.key, order);
    f := LatestOf(states[b].s.proc.value.history, e,
                  T.FirstHit(T.ProbeOrder(rd, states[n].s.proc.value.memtables, order),
                                                                e.key, rd.at));
  }

  lemma StepOf(states: seq<State>, actions: seq<Action>, before: seq<S.State>, how: seq<S.Action>, b: nat)
    requires Run(states, actions, before, how) && b < |actions| && actions[b].StoreStep?
    ensures S.Step(states[b].s, actions[b].sa, states[b + 1].s)
  {
    hide S.Step;
    assert Step(states[b], actions[b], states[b + 1]);
  }

  lemma LatestOf(es: set<Entry>, e: Entry, value: Option<Value>) returns (f: Entry)
    requires R.IsLatest(es, e.key, value) && e in es
    ensures f in es && f.key == e.key && e.seqno <= f.seqno && value == SlotValue(f.slot)
  {
    f :| f in es && f.key == e.key && value == SlotValue(f.slot) &&
         forall g :: g in es && g.key == e.key ==> g.seqno <= f.seqno;
  }
}
