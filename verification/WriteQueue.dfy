/** Group commit: the queue of waiting writers in DBImpl::Write.  The writer at the front makes room,
    merges an unbroken prefix of the queue into one batch, logs it without the mutex, and completes
    every writer of the prefix.  One step is what a thread does between two releases of the mutex.
 */
module WriteQueue {
  import opened Entries
  import opened Wrappers

  // A call of Write: its batch (absent when it only asks for a flush), the batch's size, and sync.
  datatype Request = Request(batch: Option<seq<Op>>, bytes: nat, sync: bool)

  // ------------------------------------------------------------------ choosing a group

  const MAX_GROUP_BYTES: nat := 1048576
  const SMALL_WRITE_BYTES: nat := 131072

  // If the first write is small, the group may not grow much beyond it.
  function MaxSize(first: Request): nat {
    if first.bytes <= SMALL_WRITE_BYTES then first.bytes + SMALL_WRITE_BYTES else MAX_GROUP_BYTES
  }

  // The bytes of the batches in q[1..n].
  function GroupBytes(q: seq<Request>, n: nat): nat
    requires 1 <= n <= |q|
  {
    if n == 1 then q[0].bytes
    else GroupBytes(q, n - 1) + if q[n-1].batch.Some? then q[n-1].bytes else 0
  }

  // May the writer at i join the group of everyone before it?
  predicate Joins(q: seq<Request>, i: nat)
    requires 1 <= i < |q|
  {
    && (q[i].sync ==> q[0].sync)
    && (q[i].batch.Some? ==> GroupBytes(q, i + 1) <= MaxSize(q[0]))
  }

  // n is the length of the group: everyone before it joins, the writer after it does not.
  ghost predicate IsGroup(q: seq<Request>, n: nat) {
    && 1 <= n <= |q|
    && (forall i :: 1 <= i < n ==> Joins(q, i))
    && (n < |q| ==> !Joins(q, n))
  }

  function OpsOf(r: Request): seq<Op> {
    if r.batch.Some? then r.batch.value else []
  }

  // The updates of the first n writers, in queue order.
  function Merged(q: seq<Request>, n: nat): seq<Op>
    requires n <= |q|
  {
    if n == 0 then [] else Merged(q, n - 1) + OpsOf(q[n-1])
  }

  lemma GroupIsUnique(q: seq<Request>, m: nat, n: nat)
    requires IsGroup(q, m) && IsGroup(q, n)
    ensures m == n
  {
  }

  /** The shared scratch batch.  A group of one batch uses the caller's batch itself; only a larger
      group is copied into tmp_batch_, which must be empty when a group is built.
   */
  class BatchGroup {
    var tmpBatch: seq<Op>

    constructor ()
      ensures tmpBatch == []
    {
      tmpBatch := [];
    }

    // Returns the merged updates, whether they are in tmpBatch, and the number of writers served.
    method Build(writers: seq<Request>) returns (result: seq<Op>, inTmp: bool, served: nat)
      requires writers != [] && writers[0].batch.Some? && tmpBatch == []
      modifies this
      ensures IsGroup(writers, served)
      ensures result == Merged(writers, served)
      ensures tmpBatch == if inTmp then result else []
    {
      var first := writers[0];
      result := first.batch.value;
      var size := first.bytes;
      var maxSize := MAX_GROUP_BYTES;
      if size <= SMALL_WRITE_BYTES {
        maxSize := size + SMALL_WRITE_BYTES;
      }
      inTmp := false;
      served := 1;
      var i := 1;
      assert Merged(writers, 1) == Merged(writers, 0) + result;
      while i < |writers|
        invariant 1 <= served == i <= |writers|
        invariant size == GroupBytes(writers, i)
        invariant forall j :: 1 <= j < i ==> Joins(writers, j)
        invariant result == Merged(writers, i)
        invariant tmpBatch == if inTmp then result else []
        invariant !inTmp ==> result == first.batch.value
      {
        var w := writers[i];
        if w.sync && !first.sync {
          break;
        }
        if w.batch.Some? {
          size := size + w.bytes;
          if size > maxSize {
            break;
          }
          if !inTmp {
            // The first batch belongs to its caller, so the group is built in tmpBatch
            inTmp := true;
            tmpBatch := tmpBatch + first.batch.value;
          }
          tmpBatch := tmpBatch + w.batch.value;
          result := tmpBatch;
        }
        i := i + 1;
        served := i;
      }
    }

    method Clear()
      modifies this
      ensures tmpBatch == []
    {
      tmpBatch := [];
    }
  }

  // The bytes of all batches.
  function TotalBytes(q: seq<Request>): nat {
    if q == [] then 0 else TotalBytes(q[..|q| - 1]) + if q[|q| - 1].batch.Some? then q[|q| - 1].bytes else 0
  }

  /** How far a group goes: batches of up to one megabyte together, or of 128 kilobytes more than a first one of at most
      128 kilobytes, whatever the size of the first.  It ends before the first writer that would exceed this or that
      asks for a sync the leader does not; so it is synced if a member asks for it.
   */
  lemma GroupLimits(q: seq<Request>, n: nat)
    requires IsGroup(q, n) && q[0].batch.Some?
    ensures var limit := if q[0].bytes <= 131072 then q[0].bytes + 131072 else 1048576;
            && (TotalBytes(q[..n]) <= limit || TotalBytes(q[..n]) == q[0].bytes)
            && (n < |q| ==> (q[n].sync && !q[0].sync) || (q[n].batch.Some? && TotalBytes(q[..n + 1]) > limit))
    ensures forall i :: 0 <= i < n && q[i].sync ==> q[0].sync
  {
    forall i | 1 <= i < n && q[i].sync ensures q[0].sync {
      assert Joins(q, i);
    }
    BytesBounded(q, n, n);
    BytesAreTotal(q, n);
    if n < |q| {
      BytesAreTotal(q, n + 1);
    }
  }

  lemma {:induction false} BytesAreTotal(q: seq<Request>, n: nat)
    requires 1 <= n <= |q| && q[0].batch.Some?
    ensures GroupBytes(q, n) == TotalBytes(q[..n])
  {
    assert q[..n][..n - 1] == q[..n - 1];
    if n > 1 {
      BytesAreTotal(q, n - 1);
    }
  }

  lemma {:induction false} BytesBounded(q: seq<Request>, n: nat, m: nat)
    requires IsGroup(q, n) && 1 <= m <= n
    ensures GroupBytes(q, m) <= MaxSize(q[0]) || GroupBytes(q, m) == q[0].bytes
  {
    if m > 1 {
      assert Joins(q, m - 1);
      BytesBounded(q, n, m - 1);
    }
  }

  // ------------------------------------------------------------------ the queue as a state machine

  datatype Phase =
    | Asleep                             // waiting on its condition variable
    | Signalled                          // signalled, has not run again yet
    | MakingRoom                         // at the front, in MakeRoomForWrite
    | InLog(served: nat, group: Group)   // at the front, logging and inserting without the mutex
    | Returned(ok: bool)

  // The writers one leader completed, the group it logged for them, and its outcome.
  datatype Round = Round(members: seq<nat>, group: Group, synced: bool, ok: bool)

  datatype State = State(
    requests: map<nat, Request>,
    queue: seq<nat>,
    phase: map<nat, Phase>,
    outcome: map<nat, bool>,     // done, with the status the leader set
    lastSequence: nat,
    arrivals: seq<nat>,          // ghost: every writer in the order it joined the queue
    rounds: seq<Round>,          // ghost: everything completed so far
    base: nat)                   // ghost: the sequence number the process started with

  ghost predicate Init(s: State) {
    s == State(map[], [], map[], map[], s.base, [], [], s.base)
  }

  function Requests(s: State, ids: seq<nat>): seq<Request>
    requires forall i :: 0 <= i < |ids| ==> ids[i] in s.requests
  {
    seq(|ids|, i requires 0 <= i < |ids| => s.requests[ids[i]])
  }

  ghost function Members(rounds: seq<Round>): seq<nat> {
    if rounds == [] then [] else Members(rounds[..|rounds|-1]) + rounds[|rounds|-1].members
  }

  datatype Action =
    | Arrive(id: nat, request: Request)
    | Wake(id: nat)
    | Lead(id: nat)
    | FinishAlone(id: nat, ok: bool)
    | FinishGroup(id: nat, ok: bool)

  // A new writer takes the front at once if the queue was empty, otherwise it waits.
  ghost predicate ArriveStep(s: State, id: nat, request: Request, s': State) {
    && id !in s.requests
    && s' == s.(requests := s.requests[id := request], queue := s.queue + [id], arrivals := s.arrivals + [id],
                phase := s.phase[id := if s.queue == [] then MakingRoom else Asleep])
  }

  // A waiting writer runs again, signalled or not, and looks at its loop condition.
  ghost predicate WakeStep(s: State, id: nat, s': State) {
    && id in s.phase && (s.phase[id].Asleep? || s.phase[id].Signalled?)
    && s' == s.(phase := s.phase[id :=
         if id in s.outcome then Returned(s.outcome[id])
         else if s.queue != [] && s.queue[0] == id then MakingRoom
         else Asleep])
  }

  // MakeRoomForWrite succeeded and the front writer has a batch: build the group, start logging it.
  ghost predicate LeadStep(s: State, id: nat, s': State) {
    && id in s.phase && s.phase[id].MakingRoom? && id in s.requests && s.requests[id].batch.Some?
    && (forall i :: 0 <= i < |s.queue| ==> s.queue[i] in s.requests)
    && exists n :: IsGroup(Requests(s, s.queue), n) &&
         s' == s.(phase := s.phase[id := InLog(n, Group(s.lastSequence + 1, Merged(Requests(s, s.queue), n)))])
  }

  // The first n writers leave the queue; sleeping ones among them and the new front are signalled.
  ghost function Completed(s: State, n: nat, r: Round): State
    requires n <= |s.queue|
  {
    var done, rest := s.queue[..n], s.queue[n..];
    s.(queue := rest, rounds := s.rounds + [r],
       outcome := map id | id in s.outcome.Keys + (set i | i in done) :: if id in done then r.ok else s.outcome[id],
       phase := map id | id in s.phase ::
         if n > 0 && id == done[0] then Returned(r.ok)
         else if s.phase[id].Asleep? && (id in done || (rest != [] && id == rest[0])) then Signalled
         else s.phase[id])
  }

  // No batch, or MakeRoomForWrite reported an error: the front writer completes only itself.
  ghost predicate FinishAloneStep(s: State, id: nat, ok: bool, s': State) {
    && id in s.phase && s.phase[id].MakingRoom? && id in s.requests
    && (ok ==> s.requests[id].batch.None?) && s.queue != []
    && s' == Completed(s, 1, Round([s.queue[0]], Group(s.lastSequence + 1, []), false, ok))
  }

  // Logging and inserting are over; the sequence number advances even if they failed.
  ghost predicate FinishGroupStep(s: State, id: nat, ok: bool, s': State) {
    && id in s.phase && s.phase[id].InLog? && id in s.requests && s.phase[id].served <= |s.queue|
    && var n, g := s.phase[id].served, s.phase[id].group;
       s' == Completed(s, n, Round(s.queue[..n], g, s.requests[id].sync, ok))
             .(lastSequence := s.lastSequence + |g.ops|)
  }

  ghost predicate Step(s: State, a: Action, s': State) {
    match a
    case Arrive(id, request) => ArriveStep(s, id, request, s')
    case Wake(id) => WakeStep(s, id, s')
    case Lead(id) => LeadStep(s, id, s')
    case FinishAlone(id, ok) => FinishAloneStep(s, id, ok, s')
    case FinishGroup(id, ok) => FinishGroupStep(s, id, ok, s')
  }

  ghost predicate Run(states: seq<State>, actions: seq<Action>) {
    && |states| == |actions| + 1 && Init(states[0])
    && forall i :: 0 <= i < |actions| ==> Step(states[i], actions[i], states[i+1])
  }

  // ------------------------------------------------------------------ the invariant

  ghost function Ids(ids: seq<nat>): set<nat> {
    set i | i in ids
  }

  // Arrivals are the completed writers, in completion order, followed by the queue.
  ghost predicate OrderOk(s: State) {
    && s.arrivals == Members(s.rounds) + s.queue && Distinct(s.arrivals)
    && s.requests.Keys == s.phase.Keys == Ids(s.arrivals) && s.outcome.Keys == Ids(Members(s.rounds))
  }

  // Only the front writer makes room or logs; it is never left asleep, nor is a completed writer.
  ghost predicate PhasesOk(s: State) {
    && (forall id ::
        id in s.phase && (s.phase[id].MakingRoom? || s.phase[id].InLog?) ==> s.queue != [] && id == s.queue[0])
    && (forall id :: id in s.phase && s.phase[id].Asleep? ==> id in s.queue[..] && id != s.queue[0])
    && (forall id :: id in s.phase && s.phase[id].Returned? ==> id in s.outcome && s.phase[id].ok == s.outcome[id])
  }

  // The group being logged: chosen by the rule, merged in queue order, with fresh sequence numbers.
  ghost predicate GroupOk(s: State) {
    s.queue != [] && s.queue[0] in s.phase && s.phase[s.queue[0]].InLog? ==>
      var n, g := s.phase[s.queue[0]].served, s.phase[s.queue[0]].group;
      1 <= n <= |s.queue| && g.first == s.lastSequence + 1 && GroupOf(s.requests, s.queue[..n], g.ops)
  }

  // ops are the merged batches of exactly these writers, who may share a group.
  ghost predicate GroupOf(requests: map<nat, Request>, members: seq<nat>, ops: seq<Op>) {
    && members != [] && (forall i :: 0 <= i < |members| ==> members[i] in requests)
    && var q := seq(|members|, i requires 0 <= i < |members| => requests[members[i]]);
       q[0].batch.Some? && ops == Merged(q, |q|) && forall i :: 1 <= i < |q| ==> Joins(q, i)
  }

  // A writer that completed only itself; it succeeded only if it had nothing to write.
  ghost predicate Alone(requests: map<nat, Request>, r: Round) {
    && r.group.ops == [] && |r.members| == 1
    && (r.ok ==> r.members[0] in requests && requests[r.members[0]].batch.None?)
  }

  ghost predicate RoundOk(s: State, r: Round) {
    && r.members != []
    && (forall id :: id in r.members ==> id in s.outcome && s.outcome[id] == r.ok)
    && (Alone(s.requests, r) || GroupOf(s.requests, r.members, r.group.ops))
    && (forall id ::
        id in r.members && id in s.requests && s.requests[id].sync && s.requests[id].batch.Some? && r.ok ==> r.synced)
  }

  // Groups use up the sequence numbers above base up to lastSequence without gap or overlap.
  ghost predicate GapFree(s: State) {
    var n := |s.rounds|;
    && (n > 0 ==> s.rounds[0].group.first == s.base + 1)
    && (forall i :: 0 <= i < n - 1 ==> s.rounds[i+1].group.first == s.rounds[i].group.End())
    && s.lastSequence + 1 == if n == 0 then s.base + 1 else s.rounds[n-1].group.End()
  }

  ghost predicate Inv(s: State) {
    && OrderOk(s) && PhasesOk(s) && GroupOk(s) && GapFree(s)
    && forall r :: r in s.rounds ==> RoundOk(s, r)
  }

  lemma MembersAppend(rounds: seq<Round>, r: Round)
    ensures Members(rounds + [r]) == Members(rounds) + r.members
  {
    assert (rounds + [r])[..|rounds|] == rounds;
  }

  lemma RoundFrame(s: State, s': State, r: Round)
    requires RoundOk(s, r)
    requires forall id :: id in r.members ==> (id in s.requests <==> id in s'.requests)
    requires forall id :: id in r.members && id in s.requests ==> s'.requests[id] == s.requests[id]
    requires forall id :: id in s.outcome ==> id in s'.outcome && s'.outcome[id] == s.outcome[id]
    ensures RoundOk(s', r)
  {
    GroupFrame(s.requests, s'.requests, r.members, r.group.ops);
    hide GroupOf;
  }

  lemma GroupFrame(requests: map<nat, Request>, requests': map<nat, Request>, members: seq<nat>, ops: seq<Op>)
    requires forall id :: id in members && id in requests ==> id in requests' && requests'[id] == requests[id]
    ensures GroupOf(requests, members, ops) ==> GroupOf(requests', members, ops)
  {
    if GroupOf(requests, members, ops) {
      var q := seq(|members|, i requires 0 <= i < |members| => requests[members[i]]);
      assert q == seq(|members|, i requires 0 <= i < |members| => requests'[members[i]]);
    }
  }

  lemma ArriveOrder(s: State, id: nat, request: Request, s': State)
    requires OrderOk(s) && GapFree(s) && ArriveStep(s, id, request, s')
    ensures OrderOk(s') && GapFree(s')
  {
    hide Members, Distinct, RoundOk;
    assert s'.arrivals == Members(s.rounds) + s'.queue;
    assert Ids(s'.arrivals) == Ids(s.arrivals) + {id};
    DistinctAppend(s.arrivals, id);
  }

  lemma DistinctAppend(a: seq<nat>, id: nat)
    requires Distinct(a) && id !in a
    ensures Distinct(a + [id])
  {
  }

  lemma ArrivePhases(s: State, id: nat, request: Request, s': State)
    requires OrderOk(s) && PhasesOk(s) && ArriveStep(s, id, request, s')
    ensures PhasesOk(s')
  {
    hide Members, Distinct;
    assert s.queue != [] ==> s'.queue[0] == s.queue[0];
    assert forall i :: i in s.queue ==> i in s.arrivals;
    hide OrderOk;
  }

  lemma ArriveGroup(s: State, id: nat, request: Request, s': State)
    requires OrderOk(s) && GroupOk(s) && ArriveStep(s, id, request, s')
    ensures GroupOk(s')
  {
    if s.queue != [] {
      assert s.queue[0] in s.arrivals;
      if s.phase[s.queue[0]].InLog? {
        var n := s.phase[s.queue[0]].served;
        assert s'.queue[..n] == s.queue[..n];
        GroupFrame(s.requests, s'.requests, s.queue[..n], s.phase[s.queue[0]].group.ops);
      }
    }
    hide GroupOf;
  }

  lemma ArriveRounds(s: State, id: nat, request: Request, s': State)
    requires OrderOk(s) && ArriveStep(s, id, request, s') && forall r :: r in s.rounds ==> RoundOk(s, r)
    ensures forall r :: r in s'.rounds ==> RoundOk(s', r)
  {
    forall r | r in s.rounds ensures RoundOk(s', r) {
      hide GroupOf, Distinct, Members;
      assert forall m :: m in r.members ==> m in s.outcome.Keys;
      RoundFrame(s, s', r);
    }
  }

  lemma ArriveKeeps(s: State, id: nat, request: Request, s': State)
    requires Inv(s) && ArriveStep(s, id, request, s')
    ensures Inv(s')
  {
    ArriveOrder(s, id, request, s');
    ArrivePhases(s, id, request, s');
    ArriveGroup(s, id, request, s');
    ArriveRounds(s, id, request, s');
    hide OrderOk, PhasesOk, GroupOk, RoundOk, GapFree, ArriveStep;
  }

  // Steps that change the phase of one writer only.
  lemma PhaseFrame(s: State, id: nat, ph: Phase)
    requires Inv(s) && id in s.phase
    ensures var s' := s.(phase := s.phase[id := ph]);
      OrderOk(s') && GapFree(s') && forall r :: r in s'.rounds ==> RoundOk(s', r)
  {
    var s' := s.(phase := s.phase[id := ph]);
    hide Members, Distinct, GroupOf;
    assert s'.phase.Keys == s.phase.Keys;
    forall r | r in s.rounds ensures RoundOk(s', r) { RoundFrame(s, s', r); }
  }

  lemma WakeKeeps(s: State, id: nat, s': State)
    requires Inv(s) && WakeStep(s, id, s')
    ensures Inv(s')
  {
    PhaseFrame(s, id, s'.phase[id]);
    WakePhases(s, id, s');
    hide OrderOk, RoundOk, GapFree, GroupOf, PhasesOk, WakeStep;
  }

  lemma WakePhases(s: State, id: nat, s': State)
    requires OrderOk(s) && PhasesOk(s) && GroupOk(s) && WakeStep(s, id, s')
    ensures PhasesOk(s') && GroupOk(s')
  {
    hide Distinct, GroupOf, OrderOk, Members;
    StillQueued(s, id);
  }

  // A writer that is not completed is still in the queue.
  lemma StillQueued(s: State, id: nat)
    requires OrderOk(s) && id in s.phase
    ensures id !in s.outcome ==> id in s.queue
  {
    hide Distinct, Members;
    assert id in s.arrivals;
  }

  lemma LeadKeeps(s: State, id: nat, s': State)
    requires Inv(s) && LeadStep(s, id, s')
    ensures Inv(s')
  {
    PhaseFrame(s, id, s'.phase[id]);
    LeadGroup(s, id, s');
    hide OrderOk, RoundOk, GapFree, GroupOk, PhasesOk, LeadStep;
  }

  lemma LeadGroup(s: State, id: nat, s': State)
    requires PhasesOk(s) && LeadStep(s, id, s')
    ensures PhasesOk(s') && GroupOk(s')
  {
    var n: nat :| IsGroup(Requests(s, s.queue), n) &&
      s' == s.(phase := s.phase[id := InLog(n, Group(s.lastSequence + 1, Merged(Requests(s, s.queue), n)))]);
    PrefixGroup(s.requests, s.queue, n);
    hide GroupOf, IsGroup, Merged;
  }

  // A group is about its own members only, whatever waits behind them.
  lemma PrefixGroup(requests: map<nat, Request>, queue: seq<nat>, n: nat)
    requires forall i :: 0 <= i < |queue| ==> queue[i] in requests
    requires var q := seq(|queue|, i requires 0 <= i < |queue| => requests[queue[i]]);
      IsGroup(q, n) && q[0].batch.Some?
    ensures n <= |queue| && GroupOf(requests, queue[..n],
              Merged(seq(|queue|, i requires 0 <= i < |queue| => requests[queue[i]]), n))
  {
    var q := seq(|queue|, i requires 0 <= i < |queue| => requests[queue[i]]);
    var m := queue[..n];
    assert q[..n] == seq(|m|, i requires 0 <= i < |m| => requests[m[i]]);
    PrefixMerged(q, n, n);
    forall i | 1 <= i < n ensures Joins(q[..n], i) {
      assert Joins(q, i);
      PrefixBytes(q, n, i + 1);
    }
  }

  lemma {:induction false} PrefixMerged(q: seq<Request>, n: nat, k: nat)
    requires k <= n <= |q|
    ensures Merged(q[..n], k) == Merged(q, k)
  {
    if k > 0 {
      PrefixMerged(q, n, k - 1);
    }
  }

  lemma {:induction false} PrefixBytes(q: seq<Request>, n: nat, k: nat)
    requires 1 <= k <= n <= |q|
    ensures GroupBytes(q[..n], k) == GroupBytes(q, k)
  {
    if k > 1 {
      PrefixBytes(q, n, k - 1);
    }
  }

  // ------------------------------------------------------------------ completing a round

  // The front writer completes the first n writers with round r.
  ghost predicate Completes(s: State, n: nat, r: Round, s': State) {
    && 1 <= n <= |s.queue| && r.members == s.queue[..n]
    && s.queue[0] in s.phase && (s.phase[s.queue[0]].MakingRoom? || s.phase[s.queue[0]].InLog?)
    && r.group.first == s.lastSequence + 1
    && s' == Completed(s, n, r).(lastSequence := s.lastSequence + |r.group.ops|)
  }

  lemma CompleteOrder(s: State, n: nat, r: Round, s': State)
    requires OrderOk(s) && Completes(s, n, r, s')
    ensures OrderOk(s') && forall id :: id in s.outcome ==> s'.outcome[id] == s.outcome[id]
    ensures forall id :: id in r.members ==> id in s'.outcome && s'.outcome[id] == r.ok
  {
    hide Members, Distinct, Completes;
    CompleteParts(s, n, r, s');
    CompleteOutcome(s, n, r, s');
    MembersAppend(s.rounds, r);
    assert s.queue == s.queue[..n] + s.queue[n..];
    assert Ids(Members(s'.rounds)) == Ids(Members(s.rounds)) + Ids(r.members);
  }

  lemma CompleteParts(s: State, n: nat, r: Round, s': State)
    requires Completes(s, n, r, s')
    ensures n <= |s.queue| && r.members == s.queue[..n] && s'.queue == s.queue[n..] && s'.rounds == s.rounds + [r]
    ensures s'.arrivals == s.arrivals && s'.requests == s.requests && s'.phase.Keys == s.phase.Keys
    ensures s'.outcome.Keys == s.outcome.Keys + Ids(r.members)
  {
  }

  lemma CompleteOutcome(s: State, n: nat, r: Round, s': State)
    requires OrderOk(s) && Completes(s, n, r, s')
    ensures forall id :: id in s.outcome ==> id in s'.outcome && s'.outcome[id] == s.outcome[id]
    ensures forall id :: id in r.members ==> id in s'.outcome && s'.outcome[id] == r.ok
  {
    hide Members, Distinct;
    forall id | id in s.outcome ensures id !in s.queue {
      NotBoth(Members(s.rounds), s.queue, id);
    }
  }

  lemma NotBoth(a: seq<nat>, b: seq<nat>, id: nat)
    requires Distinct(a + b) && id in a
    ensures id !in b
  {
    var i :| 0 <= i < |a| && a[i] == id;
    forall j | 0 <= j < |b| ensures b[j] != id {
      assert (a + b)[i] != (a + b)[|a| + j];
    }
  }

  lemma CompletePhases(s: State, n: nat, r: Round, s': State)
    requires PhasesOk(s) && Completes(s, n, r, s') && OrderOk(s')
    requires forall id :: id in s.outcome ==> id in s'.outcome && s'.outcome[id] == s.outcome[id]
    requires forall id :: id in r.members ==> id in s'.outcome && s'.outcome[id] == r.ok
    ensures PhasesOk(s') && GroupOk(s')
  {
    hide OrderOk, GroupOf, GroupOk;
    forall id | id in s'.phase && s'.phase[id].Asleep? ensures id in s'.queue[..] && id != s'.queue[0] {
      StillAsleep(s, n, r, s', id);
    }
    NobodyLogs(s, n, r, s');
  }

  lemma StillAsleep(s: State, n: nat, r: Round, s': State, id: nat)
    requires PhasesOk(s) && Completes(s, n, r, s') && id in s'.phase && s'.phase[id].Asleep?
    ensures id in s'.queue && id != s'.queue[0]
  {
    var done, rest := s.queue[..n], s.queue[n..];
    assert s.queue == done + rest && id in s.queue && id !in done;
  }

  // The front writer has just returned, so nobody is logging.
  lemma NobodyLogs(s: State, n: nat, r: Round, s': State)
    requires PhasesOk(s) && Completes(s, n, r, s')
    ensures GroupOk(s')
  {
    hide GroupOf;
    assert s.queue[0] == s.queue[..n][0];
  }

  lemma CompleteRounds(s: State, n: nat, r: Round, s': State)
    requires Completes(s, n, r, s') && GapFree(s)
    requires forall q :: q in s.rounds ==> RoundOk(s, q)
    requires forall id :: id in s.outcome ==> id in s'.outcome && s'.outcome[id] == s.outcome[id]
    requires RoundOk(s', r)
    ensures GapFree(s') && forall q :: q in s'.rounds ==> RoundOk(s', q)
  {
    hide RoundOk;
    forall q | q in s.rounds ensures RoundOk(s', q) { RoundFrame(s, s', q); }
  }

  lemma CompleteKeeps(s: State, n: nat, r: Round, s': State)
    requires Inv(s) && Completes(s, n, r, s')
    requires Alone(s.requests, r) || GroupOf(s.requests, r.members, r.group.ops)
    requires forall id ::
               id in r.members && id in s.requests && s.requests[id].sync && s.requests[id].batch.Some? && r.ok ==>
                     r.synced
    ensures Inv(s')
  {
    hide RoundOk, GapFree, GroupOf, PhasesOk, GroupOk, OrderOk;
    CompleteOrder(s, n, r, s');
    CompletePhases(s, n, r, s');
    assert RoundOk(s', r) by { hide Completed; CompletedRound(s, n, r, s'); }
    CompleteRounds(s, n, r, s');
  }

  lemma CompletedRound(s: State, n: nat, r: Round, s': State)
    requires Completes(s, n, r, s')
    requires Alone(s.requests, r) || GroupOf(s.requests, r.members, r.group.ops)
    requires forall id ::
               id in r.members && id in s.requests && s.requests[id].sync && s.requests[id].batch.Some? && r.ok ==>
                     r.synced
    requires forall id :: id in r.members ==> id in s'.outcome && s'.outcome[id] == r.ok
    ensures RoundOk(s', r)
  {
    hide GroupOf;
  }

  lemma FinishAloneKeeps(s: State, id: nat, ok: bool, s': State)
    requires Inv(s) && FinishAloneStep(s, id, ok, s')
    ensures Inv(s')
  {
    var r := Round([s.queue[0]], Group(s.lastSequence + 1, []), false, ok);
    assert id == s.queue[0];
    assert s.queue[..1] == [id];
    hide OrderOk, PhasesOk, GroupOk, RoundOk, GapFree, GroupOf;
    assert s' == Completed(s, 1, r).(lastSequence := s.lastSequence + |r.group.ops|);
    CompleteKeeps(s, 1, r, s');
  }

  lemma FinishGroupKeeps(s: State, id: nat, ok: bool, s': State)
    requires Inv(s) && FinishGroupStep(s, id, ok, s')
    ensures Inv(s')
  {
    var n, g := s.phase[id].served, s.phase[id].group;
    var r := Round(s.queue[..n], g, s.requests[id].sync, ok);
    assert id == s.queue[0];
    assert GroupOf(s.requests, r.members, g.ops);
    assert forall m :: m in r.members && m in s.requests && s.requests[m].sync ==> r.synced by {
      GroupSync(s.requests, r.members, g.ops);
    }
    hide OrderOk, PhasesOk, RoundOk, GapFree, GroupOf;
    CompleteKeeps(s, n, r, s');
  }

  lemma GroupSync(requests: map<nat, Request>, members: seq<nat>, ops: seq<Op>)
    requires GroupOf(requests, members, ops)
    ensures forall id :: id in members && requests[id].sync ==> requests[members[0]].sync
  {
    var q := seq(|members|, i requires 0 <= i < |members| => requests[members[i]]);
    forall id | id in members && requests[id].sync ensures requests[members[0]].sync {
      var i :| 0 <= i < |members| && members[i] == id;
      assert q[i].sync && (i > 0 ==> Joins(q, i));
    }
  }

  // ------------------------------------------------------------------ whole runs

  lemma StepKeeps(s: State, a: Action, s': State)
    requires Inv(s) && Step(s, a, s')
    ensures Inv(s')
  {
    hide Inv, ArriveStep, WakeStep, LeadStep, FinishAloneStep, FinishGroupStep;
    match a
    case Arrive(id, request) => ArriveKeeps(s, id, request, s');
    case Wake(id) => WakeKeeps(s, id, s');
    case Lead(id) => LeadKeeps(s, id, s');
    case FinishAlone(id, ok) => FinishAloneKeeps(s, id, ok, s');
    case FinishGroup(id, ok) => FinishGroupKeeps(s, id, ok, s');
  }

  lemma {:induction false} RunInv(states: seq<State>, actions: seq<Action>, n: nat)
    requires Run(states, actions) && n < |states|
    ensures Inv(states[n])
  {
    hide Inv, Step;
    if n == 0 {
      assert Inv(states[0]) by { InitInv(states[0]); }
    } else {
      RunInv(states, actions, n - 1);
      StepKeeps(states[n-1], actions[n-1], states[n]);
    }
  }

  lemma InitInv(s: State)
    requires Init(s)
    ensures Inv(s)
  {
    assert Members([]) == [];
  }

  /** Over every run: writers complete exactly once, in the order they queued, each with its round's
      status; every logged group is the in-order merge of an unbroken stretch of the queue and is
      synced if a member asked for it; sequence numbers are used without gap; and at most one writer
      is ever in the log section.
   */
  lemma WritersCompleteInOrder(states: seq<State>, actions: seq<Action>, n: nat)
    requires Run(states, actions) && n < |states|
    ensures var s := states[n];
      && s.arrivals == Members(s.rounds) + s.queue && Distinct(s.arrivals)
      && (forall id :: id in s.phase && s.phase[id].Returned? ==> id in s.outcome && s.phase[id].ok == s.outcome[id])
      && (forall r, id :: r in s.rounds && id in r.members ==> id in s.outcome && s.outcome[id] == r.ok)
      && (forall r :: r in s.rounds ==> Alone(s.requests, r) || GroupOf(s.requests, r.members, r.group.ops))
      && GapFree(s)
      && (forall a, b :: a in s.phase && b in s.phase && s.phase[a].InLog? && s.phase[b].InLog? ==> a == b)
  {
    RunInv(states, actions, n);
    hide Run, GroupOf, GapFree, Distinct, Members;
  }

  /** No wake-up is ever lost: a writer that is asleep and not signalled is still in the queue behind
      another writer, and the writer at the front is running or about to.
   */
  lemma NoLostWakeup(states: seq<State>, actions: seq<Action>, n: nat)
    requires Run(states, actions) && n < |states|
    ensures var s := states[n];
      && (forall id :: id in s.phase && s.phase[id].Asleep? ==> id !in s.outcome && id in s.queue && id != s.queue[0])
      && (s.queue != [] ==> s.queue[0] in s.phase && !s.phase[s.queue[0]].Asleep? && !s.phase[s.queue[0]].Returned?)
  {
    RunInv(states, actions, n);
    hide Run, GroupOk, GapFree, RoundOk, Members;
    var s := states[n];
    forall id | id in s.queue ensures id !in s.outcome {
      if id in s.outcome { NotBoth(Members(s.rounds), s.queue, id); }
    }
    if s.queue != [] {
      assert s.queue[0] in s.queue && s.queue[0] in s.arrivals;
    }
  }

  // ------------------------------------------------------------------ the queue always moves on

  // Steps from any state on.
  ghost predicate Path(states: seq<State>, actions: seq<Action>) {
    |states| == |actions| + 1 && forall i :: 0 <= i < |actions| ==> Step(states[i], actions[i], states[i+1])
  }

  // The steps the front writer has to take.
  ghost function FrontStage(s: State): nat {
    if s.queue == [] || s.queue[0] !in s.phase then 0
    else match s.phase[s.queue[0]]
         case InLog(_, _) => 1
         case MakingRoom => 2
         case _ => 3
  }

  ghost predicate MovesOn(s: State, s': State) {
    && s'.requests == s.requests && s.outcome.Keys <= s'.outcome.Keys
    && forall id :: id in s.queue ==> id in s'.queue || id in s'.outcome
  }

  lemma {:induction false} GroupFrom(q: seq<Request>, m: nat) returns (n: nat)
    requires 1 <= m <= |q| && forall i :: 1 <= i < m ==> Joins(q, i)
    ensures IsGroup(q, n)
    decreases |q| - m
  {
    if m < |q| && Joins(q, m) {
      n := GroupFrom(q, m + 1);
    } else {
      n := m;
    }
  }

  lemma FrontFacts(s: State)
    requires Inv(s) && s.queue != []
    ensures var id := s.queue[0];
            && id in s.phase && id in s.requests && id !in s.outcome && !s.phase[id].Asleep? && !s.phase[id].Returned?
            && (s.phase[id].InLog? ==> 1 <= s.phase[id].served <= |s.queue|)
    ensures forall i :: 0 <= i < |s.queue| ==> s.queue[i] in s.requests
  {
    hide GapFree, RoundOk, GroupOf, Members;
    if s.queue[0] in s.outcome {
      NotBoth(Members(s.rounds), s.queue, s.queue[0]);
    }
    assert forall i :: 0 <= i < |s.queue| ==> s.queue[i] in s.arrivals;
  }

  lemma FrontStep(s: State) returns (a: Action, s': State)
    requires Inv(s) && s.queue != []
    ensures Step(s, a, s') && MovesOn(s, s')
    ensures |s'.queue| < |s.queue| || (s'.queue == s.queue && FrontStage(s') < FrontStage(s))
  {
    hide Inv, IsGroup, Merged;
    FrontFacts(s);
    var id := s.queue[0];
    match s.phase[id]
    case Signalled =>
      a := Wake(id);
      s' := s.(phase := s.phase[id := MakingRoom]);
    case MakingRoom =>
      if s.requests[id].batch.Some? {
        var n := GroupFrom(Requests(s, s.queue), 1);
        a := Lead(id);
        s' := s.(phase := s.phase[id := InLog(n, Group(s.lastSequence + 1, Merged(Requests(s, s.queue), n)))]);
      } else {
        a := FinishAlone(id, true);
        s' := Completed(s, 1, Round([s.queue[0]], Group(s.lastSequence + 1, []), false, true));
      }
    case InLog(n, g) =>
      a := FinishGroup(id, true);
      s' := Completed(s, n,
                      Round(s.queue[..n], g, s.requests[id].sync, true)).(lastSequence := s.lastSequence + |g.ops|);
    case _ =>
  }

  /** Every writer in the queue can be completed, in whatever state the queue is, by steps of the writers alone. */
  lemma QueueCanDrain(run: seq<State>, how: seq<Action>, n: nat) returns (states: seq<State>, actions: seq<Action>)
    requires Run(run, how) && n < |run|
    ensures Path(states, actions) && states[0] == run[n]
    ensures var last := states[|states| - 1]; last.queue == [] && forall id :: id in run[n].queue ==> id in last.outcome
  {
    RunInv(run, how, n);
    hide Step, Inv;
    states, actions := Drain(run[n]);
  }

  lemma {:induction false} Drain(s: State) returns (states: seq<State>, actions: seq<Action>)
    requires Inv(s)
    ensures Path(states, actions) && states[0] == s
    ensures states[|states| - 1].queue == [] && MovesOn(s, states[|states| - 1])
    decreases |s.queue|, FrontStage(s)
  {
    hide Step, Inv, FrontStage;
    if s.queue == [] {
      return [s], [];
    }
    var a, s' := FrontStep(s);
    StepKeeps(s, a, s');
    states, actions := Drain(s');
    forall i | 0 <= i < |[a] + actions| ensures Step(([s] + states)[i], ([a] + actions)[i], ([s] + states)[i+1]) {
      if i > 0 {
        assert Step(states[i-1], actions[i-1], states[i]);
      }
    }
    states, actions := [s] + states, [a] + actions;
  }
}
