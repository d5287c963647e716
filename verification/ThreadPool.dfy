/** The thread pool: workers, submission, cancellation and completion as a state machine.

    A worker that holds the global mutex goes through its loop one iteration per step; every other
    step is one critical section or one user callback.  Each event loop is driven by one thread, so
    its cancel calls and its done callbacks do not overlap.
 */
module ThreadPool {
  import opened Wrappers

  datatype Kind = Cpu | SlowIO

  // What w->work points to.
  datatype Fn = Work | Null | Cancelled

  // Where a request is: one place by construction, tied to the actual queues by the invariant.
  datatype Place =
    | Queued
    | SlowPending
    | Executing(worker: nat)
    | Limbo(loop: nat)       // removed by cancel, not yet handed to its loop
    | AtLoop(loop: nat)      // in loop->wq, or in the local queue of uv__work_done
    | Finished

  // linked is !QUEUE_EMPTY(&w->wq).  The last four fields are ghost history: doneCalls records for
  // every call of w->done whether it reported UV_ECANCELED.
  datatype Request = Request(kind: Kind, loop: nat, fn: Fn, linked: bool,
                             place: Place, runs: nat, cancelled: bool, doneCalls: seq<bool>)

  // An entry of the global queue; the message says that slow work is pending.
  datatype Item = Job(id: nat) | SlowMessage

  datatype Worker =
    | Asleep                                       // in uv_cond_wait
    | Woken                                        // signalled, does not hold the mutex yet
    | InLoop                                       // holds the mutex, at the top of its loop
    | Running(id: nat, slow: bool, ran: bool)
    | Returning(slow: bool)                        // completion published, wants the mutex again

  // Maps from a loop give its queue, its uv__work_done's local queue, and its half-done cancel.
  datatype State = State(
    wq: seq<Item>, slowPending: seq<nat>, slowRunning: int, idle: int, workers: seq<Worker>,
    reqs: map<nat, Request>, loopQueue: map<nat, seq<nat>>, local: map<nat, seq<nat>>, limbo: map<nat, nat>)

  function Threshold(s: State): nat {
    (|s.workers| + 1) / 2
  }

  function QueueOf(q: map<nat, seq<nat>>, loop: nat): seq<nat> {
    if loop in q then q[loop] else []
  }

  ghost predicate MutexFree(s: State) {
    forall k :: 0 <= k < |s.workers| ==> !s.workers[k].InLoop?
  }

  ghost predicate Init(s: State) {
    && s.workers != [] && (forall k :: 0 <= k < |s.workers| ==> s.workers[k] == Returning(false))
    && s == State([], [], 0, 0, s.workers, map[], map[], map[], map[])
  }

  // uv_cond_signal: wakes one sleeping worker if there is one.
  ghost predicate Signals(workers: seq<Worker>, workers': seq<Worker>) {
    if exists k :: 0 <= k < |workers| && workers[k].Asleep? then
      exists k :: 0 <= k < |workers| && workers[k].Asleep? && workers' == workers[k := Woken]
    else workers' == workers
  }

  // Queues an item and signals if anybody is idle.
  ghost predicate Pushes(s: State, item: Item, s': State) {
    && s' == s.(wq := s.wq + [item], workers := s'.workers)
    && (if s.idle > 0 then Signals(s.workers, s'.workers) else s'.workers == s.workers)
  }

  datatype Action =
    | Submit(id: nat, kind: Kind, loop: nat)
    | Acquire(worker: nat)
    | Iterate(worker: nat)
    | SpuriousWake(worker: nat)
    | Execute(worker: nat)
    | Publish(worker: nat)
    | TryCancel(id: nat)
    | FinishCancel(loop: nat)
    | Collect(loop: nat)
    | CallDone(loop: nat)

  // uv__work_submit and post
  ghost predicate SubmitStep(s: State, id: nat, kind: Kind, loop: nat, s': State) {
    && id !in s.reqs && MutexFree(s)
    && var t := s.(reqs := s.reqs[id := Request(kind, loop, Work, true,
                                                if kind.Cpu? then Queued else SlowPending, 0, false, [])]);
    match kind
    case Cpu => Pushes(t, Job(id), s')
    case SlowIO =>
      var u := t.(slowPending := t.slowPending + [id]);
      if SlowMessage in s.wq then s' == u else Pushes(u, SlowMessage, s')
  }

  // A worker takes the mutex, after a wake-up or after finishing a job.
  ghost predicate AcquireStep(s: State, k: nat, s': State) {
    && k < |s.workers| && MutexFree(s)
    && match s.workers[k]
       case Woken => s' == s.(workers := s.workers[k := InLoop], idle := s.idle - 1)
       case Returning(slow) =>
         s' == s.(workers := s.workers[k := InLoop], slowRunning := if slow then s.slowRunning - 1 else s.slowRunning)
       case _ => false
  }

  // Nothing to do but slow work, and enough threads do that already.
  predicate Blocked(s: State) {
    s.wq == [] || (s.wq == [SlowMessage] && s.slowRunning >= Threshold(s))
  }

  // One iteration of the worker's loop, with the mutex held.
  ghost predicate IterateStep(s: State, k: nat, s': State) {
    && k < |s.workers| && s.workers[k].InLoop?
    && if Blocked(s) then
         s' == s.(workers := s.workers[k := Asleep], idle := s.idle + 1)
       else match s.wq[0]
         case Job(id) => s' == Started(s.(wq := s.wq[1..]), k, id, false)
         case SlowMessage =>
           if s.slowRunning >= Threshold(s) then s' == s.(wq := s.wq[1..] + [SlowMessage])
           else if s.slowPending == [] then s' == s.(wq := s.wq[1..])
           else
             var t := Started(s.(wq := s.wq[1..], slowRunning := s.slowRunning + 1, slowPending := s.slowPending[1..]),
                              k, s.slowPending[0], true);
             if t.slowPending == [] then s' == t else Pushes(t, SlowMessage, s')
  }

  // The worker leaves the mutex with a job whose queue node now points to itself.
  ghost function Started(s: State, k: nat, id: nat, slow: bool): State
    requires k < |s.workers|
  {
    s.(workers := s.workers[k := Running(id, slow, false)],
       reqs := if id in s.reqs then s.reqs[id := s.reqs[id].(linked := false, place := Executing(k))] else s.reqs)
  }

  ghost predicate SpuriousWakeStep(s: State, k: nat, s': State) {
    k < |s.workers| && s.workers[k].Asleep? && s' == s.(workers := s.workers[k := Woken])
  }

  // w->work(w)
  ghost predicate ExecuteStep(s: State, k: nat, s': State) {
    && k < |s.workers| && s.workers[k].Running? && !s.workers[k].ran && s.workers[k].id in s.reqs
    && var id, r := s.workers[k].id, s.reqs[s.workers[k].id];
       s' == s.(workers := s.workers[k := s.workers[k].(ran := true)], reqs := s.reqs[id := r.(runs := r.runs + 1)])
  }

  // Under the loop's mutex: w->work = NULL and append to the loop's queue.
  ghost predicate PublishStep(s: State, k: nat, s': State) {
    && k < |s.workers| && s.workers[k].Running? && s.workers[k].ran && s.workers[k].id in s.reqs
    && var id, r := s.workers[k].id, s.reqs[s.workers[k].id];
       s' == s.(workers := s.workers[k := Returning(s.workers[k].slow)],
                reqs := s.reqs[id := r.(fn := Null, linked := true, place := AtLoop(r.loop))],
                loopQueue := s.loopQueue[r.loop := QueueOf(s.loopQueue, r.loop) + [id]])
  }

  ghost function Without<T>(q: seq<T>, x: T): seq<T> {
    if q == [] then [] else if q[0] == x then Without(q[1..], x) else [q[0]] + Without(q[1..], x)
  }

  // uv__work_cancel up to releasing both mutexes.  The loop's thread calls it, for a request whose
  // done callback has not been called; it unlinks the request from the queue it is in.
  ghost predicate TryCancelStep(s: State, id: nat, s': State) {
    && id in s.reqs && MutexFree(s) && s.reqs[id].loop !in s.limbo && !s.reqs[id].place.Finished?
    && var r := s.reqs[id];
       if r.linked && r.fn != Null then
         s' == s.(wq := Without(s.wq, Job(id)), slowPending := Without(s.slowPending, id),
                  loopQueue := s.loopQueue[r.loop := Without(QueueOf(s.loopQueue, r.loop), id)],
                  local := s.local[r.loop := Without(QueueOf(s.local, r.loop), id)],
                  limbo := s.limbo[r.loop := id],
                  reqs := s.reqs[id := r.(place := Limbo(r.loop), cancelled := true)])
       else s' == s   // UV_EBUSY
  }

  // The rest of a successful cancel.
  ghost predicate FinishCancelStep(s: State, l: nat, s': State) {
    && l in s.limbo && s.limbo[l] in s.reqs
    && var id, r := s.limbo[l], s.reqs[s.limbo[l]];
       s' == s.(reqs := s.reqs[id := r.(fn := Cancelled, place := AtLoop(l))],
                loopQueue := s.loopQueue[l := QueueOf(s.loopQueue, l) + [id]], limbo := s.limbo - {l})
  }

  // uv__work_done moves the loop's queue to a local one.
  ghost predicate CollectStep(s: State, l: nat, s': State) {
    && l !in s.limbo && QueueOf(s.local, l) == []
    && s' == s.(local := s.local[l := QueueOf(s.loopQueue, l)], loopQueue := s.loopQueue[l := []])
  }

  // w->done(w, err) for the first request of the local queue.
  ghost predicate CallDoneStep(s: State, l: nat, s': State) {
    && l !in s.limbo && QueueOf(s.local, l) != [] && s.local[l][0] in s.reqs
    && var id, r := s.local[l][0], s.reqs[s.local[l][0]];
       s' == s.(local := s.local[l := s.local[l][1..]],
                reqs := s.reqs[id := r.(place := Finished, doneCalls := r.doneCalls + [r.fn == Cancelled])])
  }

  ghost predicate Step(s: State, a: Action, s': State) {
    match a
    case Submit(id, kind, loop) => SubmitStep(s, id, kind, loop, s')
    case Acquire(k) => AcquireStep(s, k, s')
    case Iterate(k) => IterateStep(s, k, s')
    case SpuriousWake(k) => SpuriousWakeStep(s, k, s')
    case Execute(k) => ExecuteStep(s, k, s')
    case Publish(k) => PublishStep(s, k, s')
    case TryCancel(id) => TryCancelStep(s, id, s')
    case FinishCancel(l) => FinishCancelStep(s, l, s')
    case Collect(l) => CollectStep(s, l, s')
    case CallDone(l) => CallDoneStep(s, l, s')
  }

  ghost predicate Run(states: seq<State>, actions: seq<Action>) {
    && |states| == |actions| + 1 && Init(states[0])
    && forall i :: 0 <= i < |actions| ==> Step(states[i], actions[i], states[i+1])
  }

  // ------------------------------------------------------------------ queues and places

  ghost predicate IsAt(reqs: map<nat, Request>, id: nat, p: Place) {
    id in reqs && reqs[id].place == p
  }

  // The queue holds, once each, exactly the requests whose place it is.
  ghost predicate Holds(q: seq<nat>, reqs: map<nat, Request>, p: Place) {
    Distinct(q) && forall id :: id in q <==> IsAt(reqs, id, p)
  }

  ghost predicate HoldsJobs(wq: seq<Item>, reqs: map<nat, Request>) {
    Distinct(wq) && forall id :: Job(id) in wq <==> IsAt(reqs, id, Queued)
  }

  lemma {:induction false} WithoutMembers<T(!new)>(q: seq<T>, x: T)
    ensures x !in Without(q, x)
    ensures forall y :: y in q && y != x ==> y in Without(q, x)
    ensures forall y :: y in Without(q, x) ==> y in q
  {
    if q != [] {
      WithoutMembers(q[1..], x);
      assert q == [q[0]] + q[1..];
    }
  }

  lemma {:induction false} WithoutDistinct<T(!new)>(q: seq<T>, x: T)
    requires Distinct(q)
    ensures Distinct(Without(q, x))
  {
    if q != [] {
      WithoutDistinct(q[1..], x);
      WithoutMembers(q[1..], x);
      assert q[0] !in Without(q[1..], x) by {
        assert forall j :: 0 <= j < |q[1..]| ==> q[1..][j] == q[j+1];
      }
      assert Without(q, x) == if q[0] == x then Without(q[1..], x) else [q[0]] + Without(q[1..], x);
    }
  }

  lemma {:induction false} WithoutConcat<T(!new)>(a: seq<T>, b: seq<T>, x: T)
    ensures Without(a + b, x) == Without(a, x) + Without(b, x)
  {
    hide Without;
    if a == [] {
      WithoutEmpty(x);
      assert a + b == b;
    } else {
      var y, rest := a[0], a[1..];
      WithoutConcat(rest, b, x);
      WithoutHead(y, rest, x);
      WithoutHead(y, rest + b, x);
      assert a == [y] + rest && a + b == [y] + (rest + b);
      assert [y] + Without(rest, x) + Without(b, x) == [y] + (Without(rest, x) + Without(b, x));
    }
  }

  lemma WithoutEmpty<T(!new)>(x: T)
    ensures Without([], x) == []
  {
  }

  lemma WithoutHead<T(!new)>(y: T, q: seq<T>, x: T)
    ensures Without([y] + q, x) == if y == x then Without(q, x) else [y] + Without(q, x)
  {
    assert ([y] + q)[1..] == q;
  }

  lemma HoldsElsewhere(q: seq<nat>, reqs: map<nat, Request>, p: Place, id: nat, r: Request)
    requires Holds(q, reqs, p) && !IsAt(reqs, id, p) && r.place != p
    ensures Holds(q, reqs[id := r], p)
  {
  }

  lemma HoldsSame(q: seq<nat>, reqs: map<nat, Request>, p: Place, id: nat, r: Request)
    requires Holds(q, reqs, p) && id in reqs && r.place == reqs[id].place
    ensures Holds(q, reqs[id := r], p)
  {
  }

  lemma HoldsAppend(q: seq<nat>, reqs: map<nat, Request>, p: Place, id: nat, r: Request)
    requires Holds(q, reqs, p) && !IsAt(reqs, id, p) && r.place == p
    ensures Holds(q + [id], reqs[id := r], p)
  {
  }

  lemma HoldsPop(q: seq<nat>, reqs: map<nat, Request>, p: Place, r: Request)
    requires Holds(q, reqs, p) && q != [] && r.place != p
    ensures Holds(q[1..], reqs[q[0] := r], p)
  {
    HeadOnce(q);
  }

  lemma HeadOnce<T(!new)>(q: seq<T>)
    requires Distinct(q) && q != []
    ensures Distinct(q[1..]) && q[0] !in q[1..]
    ensures forall y :: y in q ==> y == q[0] || y in q[1..]
    ensures forall y :: y in q[1..] ==> y in q
  {
    assert q == [q[0]] + q[1..];
    assert forall j :: 0 <= j < |q[1..]| ==> q[1..][j] == q[j+1];
  }

  lemma HoldsWithout(q: seq<nat>, reqs: map<nat, Request>, p: Place, id: nat, r: Request)
    requires Holds(q, reqs, p) && r.place != p
    ensures Holds(Without(q, id), reqs[id := r], p)
  {
    WithoutMembers(q, id);
    WithoutDistinct(q, id);
  }

  lemma JobsElsewhere(wq: seq<Item>, reqs: map<nat, Request>, id: nat, r: Request)
    requires HoldsJobs(wq, reqs) && (if r.place == Queued then IsAt(reqs, id, Queued) else !IsAt(reqs, id, Queued))
    ensures HoldsJobs(wq, reqs[id := r])
  {
  }

  lemma JobsPush(wq: seq<Item>, reqs: map<nat, Request>, id: nat, r: Request)
    requires HoldsJobs(wq, reqs) && !IsAt(reqs, id, Queued) && r.place == Queued
    ensures HoldsJobs(wq + [Job(id)], reqs[id := r])
  {
  }

  lemma JobsPushMessage(wq: seq<Item>, reqs: map<nat, Request>)
    requires HoldsJobs(wq, reqs) && SlowMessage !in wq
    ensures HoldsJobs(wq + [SlowMessage], reqs)
  {
  }

  lemma JobsPopMessage(wq: seq<Item>, reqs: map<nat, Request>)
    requires HoldsJobs(wq, reqs) && wq != [] && wq[0].SlowMessage?
    ensures HoldsJobs(wq[1..], reqs) && SlowMessage !in wq[1..]
  {
    HeadOnce(wq);
  }

  lemma JobsPop(wq: seq<Item>, reqs: map<nat, Request>, r: Request)
    requires HoldsJobs(wq, reqs) && wq != [] && wq[0].Job? && r.place != Queued
    ensures HoldsJobs(wq[1..], reqs[wq[0].id := r])
  {
    HeadOnce(wq);
  }

  lemma JobsWithout(wq: seq<Item>, reqs: map<nat, Request>, id: nat, r: Request)
    requires HoldsJobs(wq, reqs) && r.place != Queued
    ensures HoldsJobs(Without(wq, Job(id)), reqs[id := r])
  {
    WithoutMembers(wq, Job(id));
    WithoutDistinct(wq, Job(id));
  }

  // ------------------------------------------------------------------ ownership

  // Everything the loop will still call done for, in order.
  ghost function Backlog(s: State, l: nat): seq<nat> {
    QueueOf(s.local, l) + QueueOf(s.loopQueue, l)
  }

  ghost predicate QueuesOk(s: State) {
    && HoldsJobs(s.wq, s.reqs) && Holds(s.slowPending, s.reqs, SlowPending)
    && forall l :: Holds(Backlog(s, l), s.reqs, AtLoop(l))
  }

  // A worker runs the request whose place it is, a loop cancels the one whose limbo it is.
  ghost predicate HandsOk(s: State) {
    && (forall k :: 0 <= k < |s.workers| && s.workers[k].Running? ==> IsAt(s.reqs, s.workers[k].id, Executing(k)))
    && (forall id :: id in s.reqs && s.reqs[id].place.Executing? ==> Holder(s.workers, s.reqs[id].place.worker, id))
    && (forall l :: l in s.limbo ==> IsAt(s.reqs, s.limbo[l], Limbo(l)))
    && (forall id ::
        id in s.reqs && s.reqs[id].place.Limbo? ==>
              s.reqs[id].place.loop in s.limbo && s.limbo[s.reqs[id].place.loop] == id)
  }

  ghost predicate Holder(workers: seq<Worker>, k: nat, id: nat) {
    k < |workers| && workers[k].Running? && workers[k].id == id
  }

  // What the fields of a request say at each place.
  ghost predicate RequestOk(r: Request, workers: seq<Worker>) {
    match r.place
    case Queued => r.fn == Work && r.linked && r.runs == 0 && !r.cancelled && r.doneCalls == []
    case SlowPending => r.fn == Work && r.linked && r.runs == 0 && !r.cancelled && r.doneCalls == []
    case Executing(k) =>
      && r.fn == Work && !r.linked && !r.cancelled && r.doneCalls == []
      && (k < |workers| && workers[k].Running? ==> r.runs == if workers[k].ran then 1 else 0)
    case Limbo(l) => r.linked && r.fn != Null && r.runs == 0 && r.cancelled && r.doneCalls == [] && r.loop == l
    case AtLoop(l) => r.linked && r.doneCalls == [] && r.loop == l && OutcomeOk(r)
    case Finished => r.doneCalls == [r.cancelled] && OutcomeOk(r)
  }

  // Ran once and not cancelled, or cancelled and never run.
  ghost predicate OutcomeOk(r: Request) {
    if r.cancelled then r.fn == Cancelled && r.runs == 0 else r.fn == Null && r.runs == 1
  }

  ghost predicate Owned(s: State) {
    && QueuesOk(s) && HandsOk(s)
    && forall id :: id in s.reqs ==> RequestOk(s.reqs[id], s.workers)
  }

  // The same workers run the same jobs.
  ghost predicate SameRunning(w: seq<Worker>, w': seq<Worker>) {
    |w| == |w'| && forall k :: 0 <= k < |w| && (w[k].Running? || w'[k].Running?) ==> w'[k] == w[k]
  }

  // Steps that leave requests, loops and running jobs alone.
  lemma OwnedFrame(s: State, s': State)
    requires Owned(s) && SameRunning(s.workers, s'.workers) && HoldsJobs(s'.wq, s.reqs)
    requires s' == s.(wq := s'.wq, workers := s'.workers, slowRunning := s'.slowRunning, idle := s'.idle)
    ensures Owned(s')
  {
    hide Holds, HoldsJobs;
    forall l ensures Holds(Backlog(s', l), s'.reqs, AtLoop(l)) {
      assert Backlog(s', l) == Backlog(s, l);
    }
  }

  lemma SignalSameRunning(w: seq<Worker>, w': seq<Worker>)
    requires Signals(w, w')
    ensures SameRunning(w, w')
  {
  }

  lemma PushOwned(s: State, item: Item, s': State)
    requires Owned(s) && Pushes(s, item, s') && HoldsJobs(s.wq + [item], s.reqs)
    ensures Owned(s')
  {
    hide Owned, HoldsJobs;
    assert SameRunning(s.workers, s'.workers) by {
      if s.idle > 0 { SignalSameRunning(s.workers, s'.workers); }
    }
    hide Signals;
    OwnedFrame(s, s');
  }

  // A new or changed request r whose place no worker and no cancel is concerned with.
  lemma HandsUpdate(s: State, id: nat, r: Request)
    requires HandsOk(s) && !r.place.Executing? && !r.place.Limbo?
    requires id in s.reqs ==> !s.reqs[id].place.Executing? && !s.reqs[id].place.Limbo?
    ensures HandsOk(s.(reqs := s.reqs[id := r]))
  {
  }

  lemma SubmitOwned(s: State, id: nat, kind: Kind, loop: nat, t: State)
    requires Owned(s) && id !in s.reqs
    requires var r := Request(kind, loop, Work, true, if kind.Cpu? then Queued else SlowPending, 0, false, []);
      t == s.(reqs := s.reqs[id := r], slowPending := if kind.Cpu? then s.slowPending else s.slowPending + [id],
              wq := if kind.Cpu? then s.wq + [Job(id)] else s.wq)
    ensures Owned(t)
  {
    var r := t.reqs[id];
    HandsUpdate(s, id, r);
    if kind.Cpu? {
      JobsPush(s.wq, s.reqs, id, r);
      HoldsElsewhere(s.slowPending, s.reqs, SlowPending, id, r);
    } else {
      JobsElsewhere(s.wq, s.reqs, id, r);
      HoldsAppend(s.slowPending, s.reqs, SlowPending, id, r);
    }
    forall l ensures Holds(Backlog(t, l), t.reqs, AtLoop(l)) {
      assert Backlog(t, l) == Backlog(s, l);
      HoldsElsewhere(Backlog(s, l), s.reqs, AtLoop(l), id, r);
    }
    hide Holds, HoldsJobs;
  }

  lemma SubmitKeepsOwned(s: State, id: nat, kind: Kind, loop: nat, s': State)
    requires Owned(s) && SubmitStep(s, id, kind, loop, s')
    ensures Owned(s')
  {
    var r := Request(kind, loop, Work, true, if kind.Cpu? then Queued else SlowPending, 0, false, []);
    hide Owned, Signals;
    if kind.Cpu? {
      var t := s.(reqs := s.reqs[id := r], wq := s.wq + [Job(id)]);
      SubmitOwned(s, id, kind, loop, t);
      assert SameRunning(s.workers, s'.workers) by {
        if s.idle > 0 { SignalSameRunning(s.workers, s'.workers); }
      }
      SameJobs(t);
      OwnedFrame(t, s');
    } else {
      var t := s.(reqs := s.reqs[id := r], slowPending := s.slowPending + [id]);
      SubmitOwned(s, id, kind, loop, t);
      if SlowMessage !in s.wq {
        SameJobs(t);
        JobsPushMessage(t.wq, t.reqs);
        PushOwned(t, SlowMessage, s');
      }
    }
  }

  lemma SameJobs(s: State)
    requires Owned(s)
    ensures HoldsJobs(s.wq, s.reqs)
  {
  }

  lemma StartJob(s: State, k: nat, id: nat, slow: bool, t: State)
    requires Owned(s) && k < |s.workers| && !s.workers[k].Running?
    requires (if slow then s.slowPending != [] && s.slowPending[0] == id else s.wq != [] && s.wq[0] == Job(id))
    requires t == Started(s.(wq := if slow then s.wq else s.wq[1..], slowRunning := t.slowRunning,
                             slowPending := if slow then s.slowPending[1..] else s.slowPending), k, id, slow)
    ensures Owned(t) && id in s.reqs
  {
    assert if slow then id in s.slowPending else Job(id) in s.wq;
    assert IsAt(s.reqs, id, if slow then SlowPending else Queued);
    var r := s.reqs[id].(linked := false, place := Executing(k));
    assert t.reqs == s.reqs[id := r];
    if slow {
      JobsElsewhere(s.wq, s.reqs, id, r);
      HoldsPop(s.slowPending, s.reqs, SlowPending, r);
    } else {
      JobsPop(s.wq, s.reqs, r);
      HoldsElsewhere(s.slowPending, s.reqs, SlowPending, id, r);
    }
    forall l ensures Holds(Backlog(t, l), t.reqs, AtLoop(l)) {
      assert Backlog(t, l) == Backlog(s, l);
      HoldsElsewhere(Backlog(s, l), s.reqs, AtLoop(l), id, r);
    }
    hide Holds, HoldsJobs;
    StartHands(s, k, id, slow, t);
  }

  lemma StartHands(s: State, k: nat, id: nat, slow: bool, t: State)
    requires HandsOk(s) && (forall i :: i in s.reqs ==> RequestOk(s.reqs[i], s.workers))
    requires k < |s.workers| && !s.workers[k].Running? && id in s.reqs
    requires s.reqs[id].place.Queued? || s.reqs[id].place.SlowPending?
    requires t.workers == s.workers[k := Running(id, slow, false)] && t.limbo == s.limbo
    requires t.reqs == s.reqs[id := s.reqs[id].(linked := false, place := Executing(k))]
    ensures HandsOk(t) && forall i :: i in t.reqs ==> RequestOk(t.reqs[i], t.workers)
  {
  }

  lemma IterateKeepsOwned(s: State, k: nat, s': State)
    requires Owned(s) && IterateStep(s, k, s')
    ensures Owned(s')
  {
    SameJobs(s);
    hide Owned, Signals;
    if Blocked(s) {
      OwnedFrame(s, s');
    } else if s.wq[0].Job? {
      hide Started;
      StartJob(s, k, s.wq[0].id, false, s');
    } else {
      JobsPopMessage(s.wq, s.reqs);
      if s.slowRunning >= Threshold(s) {
        JobsPushMessage(s.wq[1..], s.reqs);
        OwnedFrame(s, s');
      } else {
        var popped := s.(wq := s.wq[1..]);
        OwnedFrame(s, popped);
        if s.slowPending != [] {
          IterateSlow(s, popped, k, s');
        }
      }
    }
  }

  lemma IterateSlow(s: State, popped: State, k: nat, s': State)
    requires Owned(popped) && IterateStep(s, k, s') && !Blocked(s) && s.wq[0].SlowMessage?
    requires s.slowRunning < Threshold(s) && s.slowPending != []
    requires popped == s.(wq := s.wq[1..]) && SlowMessage !in popped.wq
    ensures Owned(s')
  {
    var t := Started(s.(wq := s.wq[1..], slowRunning := s.slowRunning + 1, slowPending := s.slowPending[1..]),
                     k, s.slowPending[0], true);
    hide Owned, Signals;
    StartJob(popped, k, s.slowPending[0], true, t);
    if t.slowPending != [] {
      SameJobs(t);
      JobsPushMessage(t.wq, t.reqs);
      PushOwned(t, SlowMessage, s');
    }
  }

  lemma AcquireKeepsOwned(s: State, k: nat, s': State)
    requires Owned(s) && AcquireStep(s, k, s')
    ensures Owned(s')
  {
    SameJobs(s);
    hide Owned;
    OwnedFrame(s, s');
  }

  lemma SpuriousKeepsOwned(s: State, k: nat, s': State)
    requires Owned(s) && SpuriousWakeStep(s, k, s')
    ensures Owned(s')
  {
    SameJobs(s);
    hide Owned;
    OwnedFrame(s, s');
  }

  // Steps that change one request but not its place.
  lemma SamePlace(s: State, id: nat, r: Request)
    requires QueuesOk(s) && id in s.reqs && r.place == s.reqs[id].place
    ensures QueuesOk(s.(reqs := s.reqs[id := r]))
  {
    var t := s.(reqs := s.reqs[id := r]);
    assert HoldsJobs(t.wq, t.reqs);
    HoldsSame(s.slowPending, s.reqs, SlowPending, id, r);
    forall l ensures Holds(Backlog(t, l), t.reqs, AtLoop(l)) {
      assert Backlog(t, l) == Backlog(s, l);
      HoldsSame(Backlog(s, l), s.reqs, AtLoop(l), id, r);
    }
  }

  lemma ExecuteKeepsOwned(s: State, k: nat, s': State)
    requires Owned(s) && ExecuteStep(s, k, s')
    ensures Owned(s')
  {
    var id := s.workers[k].id;
    SamePlace(s, id, s'.reqs[id]);
    assert QueuesOk(s') by {
      hide Holds, HoldsJobs;
      forall l ensures Backlog(s', l) == Backlog(s.(reqs := s'.reqs), l) {}
    }
    hide QueuesOk;
    assert IsAt(s.reqs, id, Executing(k));
  }

  lemma PublishQueues(s: State, k: nat, s': State)
    requires Owned(s) && PublishStep(s, k, s')
    ensures QueuesOk(s')
  {
    var id := s.workers[k].id;
    var r := s'.reqs[id];
    assert IsAt(s.reqs, id, Executing(k));
    hide HandsOk, RequestOk;
    JobsElsewhere(s.wq, s.reqs, id, r);
    HoldsElsewhere(s.slowPending, s.reqs, SlowPending, id, r);
    forall l ensures Holds(Backlog(s', l), s'.reqs, AtLoop(l)) {
      if l == r.loop {
        assert Backlog(s', l) == Backlog(s, l) + [id];
        HoldsAppend(Backlog(s, l), s.reqs, AtLoop(l), id, r);
      } else {
        assert Backlog(s', l) == Backlog(s, l);
        HoldsElsewhere(Backlog(s, l), s.reqs, AtLoop(l), id, r);
      }
    }
  }

  lemma PublishKeepsOwned(s: State, k: nat, s': State)
    requires Owned(s) && PublishStep(s, k, s')
    ensures Owned(s')
  {
    PublishQueues(s, k, s');
    hide QueuesOk;
    assert IsAt(s.reqs, s.workers[k].id, Executing(k));
  }

  // Cancel succeeds exactly for requests that wait, or that were cancelled before.
  lemma CancelWhen(s: State, id: nat)
    requires Owned(s) && id in s.reqs && !s.reqs[id].place.Finished?
    ensures s.reqs[id].linked && s.reqs[id].fn != Null
       <==> s.reqs[id].place.Queued? || s.reqs[id].place.SlowPending? || s.reqs[id].cancelled
  {
    assert RequestOk(s.reqs[id], s.workers);
  }

  lemma CancelQueues(s: State, id: nat, s': State)
    requires Owned(s) && TryCancelStep(s, id, s') && s.reqs[id].linked && s.reqs[id].fn != Null
    ensures QueuesOk(s')
  {
    var r := s'.reqs[id];
    hide HandsOk, RequestOk;
    JobsWithout(s.wq, s.reqs, id, r);
    HoldsWithout(s.slowPending, s.reqs, SlowPending, id, r);
    forall l ensures Holds(Backlog(s', l), s'.reqs, AtLoop(l)) {
      if l == r.loop {
        WithoutConcat(QueueOf(s.local, l), QueueOf(s.loopQueue, l), id);
        HoldsWithout(Backlog(s, l), s.reqs, AtLoop(l), id, r);
      } else {
        CancelOtherLoop(s, id, l);
        HoldsElsewhere(Backlog(s, l), s.reqs, AtLoop(l), id, r);
        assert Backlog(s', l) == Backlog(s, l);
      }
    }
  }

  lemma CancelOtherLoop(s: State, id: nat, l: nat)
    requires Owned(s) && id in s.reqs && s.reqs[id].loop != l
    ensures !IsAt(s.reqs, id, AtLoop(l))
  {
    assert RequestOk(s.reqs[id], s.workers);
  }

  // Workers and other cancels do not concern a request that is being cancelled or handed back.
  lemma HandsOff(s: State, s': State, id: nat)
    requires HandsOk(s) && (forall i :: i in s.reqs ==> RequestOk(s.reqs[i], s.workers)) && id in s.reqs
    requires !s.reqs[id].place.Executing? && s'.workers == s.workers
    requires id in s'.reqs && s'.reqs == s.reqs[id := s'.reqs[id]]
    requires RequestOk(s'.reqs[id], s.workers) && !s'.reqs[id].place.Executing?
    requires if s'.reqs[id].place.Limbo? then s'.reqs[id].place.loop !in s.limbo && !s.reqs[id].place.Limbo?
                                              && s'.limbo == s.limbo[s'.reqs[id].place.loop := id]
             else s.reqs[id].place.Limbo? && s'.limbo == s.limbo - {s.reqs[id].place.loop}
    ensures HandsOk(s') && forall i :: i in s'.reqs ==> RequestOk(s'.reqs[i], s'.workers)
  {
    hide RequestOk;
  }

  lemma TryCancelKeepsOwned(s: State, id: nat, s': State)
    requires Owned(s) && TryCancelStep(s, id, s')
    ensures Owned(s')
  {
    if s.reqs[id].linked && s.reqs[id].fn != Null {
      CancelQueues(s, id, s');
      assert RequestOk(s.reqs[id], s.workers) && !s.reqs[id].place.Limbo?;
      assert RequestOk(s'.reqs[id], s.workers);
      hide QueuesOk, Without, HandsOk, RequestOk;
      HandsOff(s, s', id);
    }
  }

  lemma FinishCancelQueues(s: State, l: nat, s': State)
    requires Owned(s) && FinishCancelStep(s, l, s')
    ensures QueuesOk(s')
  {
    var id := s.limbo[l];
    var r := s'.reqs[id];
    assert IsAt(s.reqs, id, Limbo(l));
    hide HandsOk, RequestOk;
    JobsElsewhere(s.wq, s.reqs, id, r);
    HoldsElsewhere(s.slowPending, s.reqs, SlowPending, id, r);
    forall m ensures Holds(Backlog(s', m), s'.reqs, AtLoop(m)) {
      if m == l {
        assert Backlog(s', m) == Backlog(s, m) + [id];
        HoldsAppend(Backlog(s, m), s.reqs, AtLoop(m), id, r);
      } else {
        assert Backlog(s', m) == Backlog(s, m);
        HoldsElsewhere(Backlog(s, m), s.reqs, AtLoop(m), id, r);
      }
    }
  }

  lemma FinishCancelKeepsOwned(s: State, l: nat, s': State)
    requires Owned(s) && FinishCancelStep(s, l, s')
    ensures Owned(s')
  {
    FinishCancelQueues(s, l, s');
    var id := s.limbo[l];
    assert IsAt(s.reqs, id, Limbo(l)) && RequestOk(s.reqs[id], s.workers);
    assert RequestOk(s'.reqs[id], s.workers);
    hide QueuesOk, HandsOk, RequestOk;
    HandsOff(s, s', id);
  }

  lemma CollectKeepsOwned(s: State, l: nat, s': State)
    requires Owned(s) && CollectStep(s, l, s')
    ensures Owned(s')
  {
    forall m ensures Backlog(s', m) == Backlog(s, m) {
    }
    hide Backlog, RequestOk, Holds, HoldsJobs;
  }

  lemma CallDoneQueues(s: State, l: nat, s': State)
    requires Owned(s) && CallDoneStep(s, l, s')
    ensures QueuesOk(s') && IsAt(s.reqs, s.local[l][0], AtLoop(l))
  {
    var id := s.local[l][0];
    var r := s'.reqs[id];
    hide HandsOk, RequestOk;
    assert Holds(Backlog(s, l), s.reqs, AtLoop(l)) && Backlog(s, l)[0] == id;
    assert id in Backlog(s, l);
    JobsElsewhere(s.wq, s.reqs, id, r);
    HoldsElsewhere(s.slowPending, s.reqs, SlowPending, id, r);
    forall m ensures Holds(Backlog(s', m), s'.reqs, AtLoop(m)) {
      if m == l {
        assert Backlog(s', m) == Backlog(s, m)[1..];
        HoldsPop(Backlog(s, m), s.reqs, AtLoop(m), r);
      } else {
        assert Backlog(s', m) == Backlog(s, m);
        HoldsElsewhere(Backlog(s, m), s.reqs, AtLoop(m), id, r);
      }
    }
  }

  lemma CallDoneKeepsOwned(s: State, l: nat, s': State)
    requires Owned(s) && CallDoneStep(s, l, s')
    ensures Owned(s')
  {
    CallDoneQueues(s, l, s');
    hide QueuesOk;
    assert RequestOk(s.reqs[s.local[l][0]], s.workers);
  }

  // ------------------------------------------------------------------ scheduling

  datatype Tag = Sleeping | Signalled | Slow

  predicate Has(w: Worker, t: Tag) {
    match t
    case Sleeping => w.Asleep?
    case Signalled => w.Woken?
    case Slow => (w.Running? || w.Returning?) && w.slow
  }

  function Count(ws: seq<Worker>, t: Tag): nat {
    if ws == [] then 0 else Count(ws[..|ws|-1], t) + if Has(ws[|ws|-1], t) then 1 else 0
  }

  lemma {:induction false} CountUpdate(ws: seq<Worker>, k: nat, w: Worker, t: Tag)
    requires k < |ws|
    ensures Count(ws[k := w], t) == Count(ws, t) - (if Has(ws[k], t) then 1 else 0) + (if Has(w, t) then 1 else 0)
  {
    var n := |ws| - 1;
    if k == n {
      assert ws[k := w][..n] == ws[..n];
    } else {
      assert ws[k := w][..n] == ws[..n][k := w];
      CountUpdate(ws[..n], k, w, t);
    }
  }

  lemma {:induction false} CountZero(ws: seq<Worker>, t: Tag)
    ensures Count(ws, t) == 0 <==> forall k :: 0 <= k < |ws| ==> !Has(ws[k], t)
  {
    if ws != [] {
      CountZero(ws[..|ws|-1], t);
      assert forall k :: 0 <= k < |ws| - 1 ==> ws[..|ws|-1][k] == ws[k];
    }
  }

  // Is some worker in its loop, holding the mutex?
  ghost predicate MutexHeld(ws: seq<Worker>) {
    exists k :: 0 <= k < |ws| && ws[k].InLoop?
  }

  // Queued items some worker could take now.
  function Runnable(s: State): int {
    |s.wq| - if SlowMessage in s.wq && s.slowRunning >= Threshold(s) then 1 else 0
  }

  ghost predicate Scheduled(s: State) {
    && s.workers != []
    && (forall j, k ::
        0 <= j < |s.workers| && 0 <= k < |s.workers| && s.workers[j].InLoop? && s.workers[k].InLoop? ==> j == k)
    && s.idle == Count(s.workers, Sleeping) + Count(s.workers, Signalled)
    && s.slowRunning == Count(s.workers, Slow) <= Threshold(s)
    && (s.slowPending != [] ==> SlowMessage in s.wq)
    && (Count(s.workers, Sleeping) > 0 ==>
        Count(s.workers, Signalled) + (if MutexHeld(s.workers) then 1 else 0) >= Runnable(s))
  }

  // ------------------------------------------------------------------ every step keeps the schedule

  ghost predicate OnlyLoop(ws: seq<Worker>) {
    forall j, k :: 0 <= j < |ws| && 0 <= k < |ws| && ws[j].InLoop? && ws[k].InLoop? ==> j == k
  }

  lemma PushSchedule(s: State, item: Item, s': State)
    requires Pushes(s, item, s') && s.idle == Count(s.workers, Sleeping) + Count(s.workers, Signalled)
    ensures Count(s'.workers, Slow) == Count(s.workers, Slow) && |s'.workers| == |s.workers|
    ensures s'.idle == Count(s'.workers, Sleeping) + Count(s'.workers, Signalled)
    ensures forall k :: 0 <= k < |s.workers| ==> (s'.workers[k].InLoop? <==> s.workers[k].InLoop?)
    ensures if Count(s.workers, Sleeping) > 0 then Count(s'.workers, Signalled) == Count(s.workers, Signalled) + 1
            else Count(s'.workers, Sleeping) == 0
  {
    CountZero(s.workers, Sleeping);
    if s.idle > 0 && exists k :: 0 <= k < |s.workers| && s.workers[k].Asleep? {
      var k :| 0 <= k < |s.workers| && s.workers[k].Asleep? && s'.workers == s.workers[k := Woken];
      CountUpdate(s.workers, k, Woken, Sleeping);
      CountUpdate(s.workers, k, Woken, Signalled);
      CountUpdate(s.workers, k, Woken, Slow);
    }
  }

  // Queueing one more item is matched by one more signal while anybody sleeps.
  lemma PushKeepsSchedule(s: State, item: Item, s': State)
    requires Pushes(s, item, s') && Scheduled(s.(slowPending := [])) && (item.SlowMessage? ==> SlowMessage !in s.wq)
    requires item.SlowMessage? || (s.slowPending != [] ==> SlowMessage in s.wq)
    ensures Scheduled(s')
  {
    PushSchedule(s, item, s');
    hide Count, Signals;
    assert forall k :: 0 <= k < |s.workers| && s.workers[k].InLoop? ==> s'.workers[k].InLoop?;
    assert forall k :: 0 <= k < |s.workers| && s'.workers[k].InLoop? ==> s.workers[k].InLoop?;
    assert s'.wq[|s.wq|] == item && forall i :: i in s.wq ==> i in s'.wq;
  }

  lemma SubmitKeepsSchedule(s: State, id: nat, kind: Kind, loop: nat, s': State)
    requires Scheduled(s) && SubmitStep(s, id, kind, loop, s')
    ensures Scheduled(s')
  {
    var r := Request(kind, loop, Work, true, if kind.Cpu? then Queued else SlowPending, 0, false, []);
    hide Count, Pushes;
    if kind.Cpu? {
      PushKeepsSchedule(s.(reqs := s.reqs[id := r]), Job(id), s');
    } else if SlowMessage !in s.wq {
      PushKeepsSchedule(s.(reqs := s.reqs[id := r], slowPending := s.slowPending + [id]), SlowMessage, s');
    }
  }

  lemma AcquireKeepsSchedule(s: State, k: nat, s': State)
    requires Scheduled(s) && AcquireStep(s, k, s')
    ensures Scheduled(s')
  {
    CountUpdate(s.workers, k, InLoop, Sleeping);
    CountUpdate(s.workers, k, InLoop, Signalled);
    CountUpdate(s.workers, k, InLoop, Slow);
    hide Count;
    assert s'.workers[k].InLoop?;
  }

  lemma SleepKeepsSchedule(s: State, k: nat, s': State)
    requires Scheduled(s) && k < |s.workers| && s.workers[k].InLoop? && Blocked(s)
    requires s' == s.(workers := s.workers[k := Asleep], idle := s.idle + 1)
    ensures Scheduled(s')
  {
    CountUpdate(s.workers, k, Asleep, Sleeping);
    CountUpdate(s.workers, k, Asleep, Signalled);
    CountUpdate(s.workers, k, Asleep, Slow);
    hide Count;
  }

  // The worker holding the mutex leaves with a job.
  lemma LeaveCounts(ws: seq<Worker>, k: nat, id: nat, slow: bool)
    requires k < |ws| && ws[k].InLoop? && OnlyLoop(ws)
    ensures var ws' := ws[k := Running(id, slow, false)];
      && Count(ws', Sleeping) == Count(ws, Sleeping) && Count(ws', Signalled) == Count(ws, Signalled)
      && Count(ws', Slow) == Count(ws, Slow) + (if slow then 1 else 0)
      && !MutexHeld(ws') && MutexHeld(ws) && OnlyLoop(ws')
  {
    CountUpdate(ws, k, Running(id, slow, false), Sleeping);
    CountUpdate(ws, k, Running(id, slow, false), Signalled);
    CountUpdate(ws, k, Running(id, slow, false), Slow);
  }

  lemma TakeJobKeepsSchedule(s: State, k: nat, id: nat, s': State)
    requires Scheduled(s) && k < |s.workers| && s.workers[k].InLoop? && s.wq != [] && s.wq[0] == Job(id)
    requires s' == Started(s.(wq := s.wq[1..]), k, id, false)
    ensures Scheduled(s')
  {
    LeaveCounts(s.workers, k, id, false);
    hide Count, MutexHeld;
    assert s.wq == [s.wq[0]] + s.wq[1..];
    assert SlowMessage in s.wq <==> SlowMessage in s.wq[1..];
  }

  lemma TakeSlowKeepsSchedule(s: State, k: nat, t: State, s': State)
    requires Scheduled(s) && k < |s.workers| && s.workers[k].InLoop? && s.wq != [] && s.wq[0] == SlowMessage
    requires s.slowRunning < Threshold(s) && s.slowPending != [] && SlowMessage !in s.wq[1..]
    requires t == Started(s.(wq := s.wq[1..], slowRunning := s.slowRunning + 1, slowPending := s.slowPending[1..]),
                          k, s.slowPending[0], true)
    requires if t.slowPending == [] then s' == t else Pushes(t, SlowMessage, s')
    ensures Scheduled(s')
  {
    LeaveCounts(s.workers, k, s.slowPending[0], true);
    hide Count, MutexHeld, Pushes;
    assert Scheduled(t.(slowPending := []));
    if t.slowPending != [] {
      PushKeepsSchedule(t, SlowMessage, s');
    }
  }

  lemma IterateKeepsSchedule(s: State, k: nat, s': State)
    requires Scheduled(s) && Distinct(s.wq) && IterateStep(s, k, s')
    ensures Scheduled(s')
  {
    hide Pushes, Count, Started;
    if Blocked(s) {
      SleepKeepsSchedule(s, k, s');
    } else if s.wq[0].Job? {
      TakeJobKeepsSchedule(s, k, s.wq[0].id, s');
    } else {
      HeadOnce(s.wq);
      IterateMessage(s, k, s');
    }
  }

  lemma IterateMessage(s: State, k: nat, s': State)
    requires Scheduled(s) && IterateStep(s, k, s') && !Blocked(s) && s.wq[0].SlowMessage? && SlowMessage !in s.wq[1..]
    ensures Scheduled(s')
  {
    if s.slowRunning >= Threshold(s) {
      hide Pushes, Count, Started, MutexHeld;
      assert s'.wq[|s.wq|-1] == SlowMessage;
    } else if s.slowPending == [] {
      hide Pushes, Count, Started, MutexHeld;
      assert s.wq == [s.wq[0]] + s.wq[1..];
    } else {
      hide Pushes, Count;
      var t := Started(s.(wq := s.wq[1..], slowRunning := s.slowRunning + 1, slowPending := s.slowPending[1..]),
                       k, s.slowPending[0], true);
      TakeSlowKeepsSchedule(s, k, t, s');
    }
  }

  lemma SpuriousKeepsSchedule(s: State, k: nat, s': State)
    requires Scheduled(s) && SpuriousWakeStep(s, k, s')
    ensures Scheduled(s')
  {
    CountUpdate(s.workers, k, Woken, Sleeping);
    CountUpdate(s.workers, k, Woken, Signalled);
    CountUpdate(s.workers, k, Woken, Slow);
    hide Count;
    assert forall j :: 0 <= j < |s.workers| && s.workers[j].InLoop? ==> s'.workers[j].InLoop?;
  }

  // A worker moves on outside the mutex.
  lemma OutsideKeepsSchedule(s: State, k: nat, w: Worker, s': State)
    requires Scheduled(s) && k < |s.workers| && s.workers[k].Running?
    requires (w.Running? || w.Returning?) && w.slow == s.workers[k].slow
    requires s'.workers == s.workers[k := w] && s'.idle == s.idle && s'.slowRunning == s.slowRunning
    requires s'.wq == s.wq && s'.slowPending == s.slowPending
    ensures Scheduled(s')
  {
    CountUpdate(s.workers, k, w, Sleeping);
    CountUpdate(s.workers, k, w, Signalled);
    CountUpdate(s.workers, k, w, Slow);
    hide Count;
    assert forall j :: 0 <= j < |s.workers| && s.workers[j].InLoop? ==> s'.workers[j].InLoop?;
  }

  lemma {:induction false} WithoutShorter<T(!new)>(q: seq<T>, x: T)
    ensures |Without(q, x)| <= |q|
  {
    if q != [] {
      WithoutShorter(q[1..], x);
    }
  }

  lemma TryCancelKeepsSchedule(s: State, id: nat, s': State)
    requires Scheduled(s) && TryCancelStep(s, id, s')
    ensures Scheduled(s')
  {
    if s.reqs[id].linked && s.reqs[id].fn != Null {
      WithoutMembers(s.wq, Job(id));
      WithoutShorter(s.wq, Job(id));
      hide Count, MutexHeld, Without;
      assert SlowMessage in s'.wq <==> SlowMessage in s.wq;
      if s.slowPending == [] {
        WithoutShorter(s.slowPending, id);
      }
    }
  }

  // ------------------------------------------------------------------ whole runs

  ghost predicate Inv(s: State) {
    Owned(s) && Scheduled(s)
  }

  lemma StepKeeps(s: State, a: Action, s': State)
    requires Inv(s) && Step(s, a, s')
    ensures Inv(s')
  {
    assert Distinct(s.wq);
    hide Owned, Scheduled, SubmitStep, AcquireStep, IterateStep, SpuriousWakeStep, TryCancelStep, Distinct;
    match a
    case Submit(id, kind, loop) => SubmitKeepsOwned(s, id, kind, loop, s'); SubmitKeepsSchedule(s, id, kind, loop, s');
    case Acquire(k) => AcquireKeepsOwned(s, k, s'); AcquireKeepsSchedule(s, k, s');
    case Iterate(k) => IterateKeepsOwned(s, k, s'); IterateKeepsSchedule(s, k, s');
    case SpuriousWake(k) => SpuriousKeepsOwned(s, k, s'); SpuriousKeepsSchedule(s, k, s');
    case Execute(k) => ExecuteKeepsOwned(s, k, s'); OutsideKeepsSchedule(s, k, s'.workers[k], s');
    case Publish(k) => PublishKeepsOwned(s, k, s'); OutsideKeepsSchedule(s, k, s'.workers[k], s');
    case TryCancel(id) => TryCancelKeepsOwned(s, id, s'); TryCancelKeepsSchedule(s, id, s');
    case FinishCancel(l) => FinishCancelKeepsOwned(s, l, s'); SameSchedule(s, s');
    case Collect(l) => CollectKeepsOwned(s, l, s'); SameSchedule(s, s');
    case CallDone(l) => CallDoneKeepsOwned(s, l, s'); SameSchedule(s, s');
  }

  lemma SameSchedule(s: State, s': State)
    requires Scheduled(s)
    requires s' == s.(reqs := s'.reqs, loopQueue := s'.loopQueue, local := s'.local, limbo := s'.limbo)
    ensures Scheduled(s')
  {
    hide Count, MutexHeld;
  }

  lemma InitInv(s: State)
    requires Init(s)
    ensures Inv(s)
  {
    CountZero(s.workers, Sleeping);
    CountZero(s.workers, Signalled);
    CountZero(s.workers, Slow);
  }

  lemma {:induction false} RunInv(states: seq<State>, actions: seq<Action>, n: nat)
    requires Run(states, actions) && n < |states|
    ensures Inv(states[n])
  {
    hide Inv, Step, Init;
    if n == 0 {
      InitInv(states[0]);
    } else {
      RunInv(states, actions, n - 1);
      StepKeeps(states[n-1], actions[n-1], states[n]);
    }
  }

  /** In every interleaving each request is in exactly the queue or the hands its place says, it runs
      at most once and never once cancel has returned 0, and it gets its done callback at most once,
      at the end, with UV_ECANCELED exactly when it was cancelled and otherwise after running.
   */
  lemma RequestsHaveOneOwner(states: seq<State>, actions: seq<Action>, n: nat, id: nat)
    requires Run(states, actions) && n < |states| && id in states[n].reqs
    ensures var s, r := states[n], states[n].reqs[id];
      && (Job(id) in s.wq <==> r.place.Queued?) && Distinct(s.wq)
      && (id in s.slowPending <==> r.place.SlowPending?) && Distinct(s.slowPending)
      && (forall k :: Holder(s.workers, k, id) <==> r.place == Executing(k))
      && (forall l :: l in s.limbo && s.limbo[l] == id <==> r.place == Limbo(l))
      && (forall l :: id in Backlog(s, l) <==> r.place == AtLoop(l))
      && (forall l :: Distinct(Backlog(s, l)))
      && r.runs <= 1 && (r.cancelled ==> r.runs == 0)
      && r.doneCalls == (if r.place.Finished? then [r.cancelled] else [])
      && (r.place.Finished? && !r.cancelled ==> r.runs == 1)
  {
    RunInv(states, actions, n);
    var s := states[n];
    assert RequestOk(s.reqs[id], s.workers);
    hide Run, Scheduled, Backlog;
  }

  /** The pool never stalls.  Pending slow work always has its message queued; the counters are right
      and slow work never takes more than its share of the threads; and while any worker sleeps
      unsignalled, at least as many workers are signalled as there are items one of them could take.
      So if none is signalled, no other work waits, and slow work waits only while half the threads, rounded up, do
      some.
   */
  lemma PoolNeverStalls(states: seq<State>, actions: seq<Action>, n: nat)
    requires Run(states, actions) && n < |states| && MutexFree(states[n])
    ensures var s := states[n];
      && (s.slowPending != [] ==> SlowMessage in s.wq)
      && s.idle == Count(s.workers, Sleeping) + Count(s.workers, Signalled)
      && s.slowRunning == Count(s.workers, Slow) <= (|s.workers| + 1) / 2
      && (Count(s.workers, Sleeping) > 0 ==>
            Count(s.workers, Signalled)
                + (if SlowMessage in s.wq && s.slowRunning == (|s.workers| + 1) / 2 then 1 else 0)
              >= |s.wq|)
      && ((exists k :: 0 <= k < |s.workers| && s.workers[k].Asleep?) &&
          (forall k :: 0 <= k < |s.workers| ==> !s.workers[k].Woken?) ==>
            && (s.slowPending != [] ==> s.slowRunning == (|s.workers| + 1) / 2)
            && forall id :: Job(id) !in s.wq)
      && ((forall k :: 0 <= k < |s.workers| ==> s.workers[k].Asleep?) ==> s.wq == [] && s.slowPending == [])
  {
    RunInv(states, actions, n);
    var s := states[n];
    hide Run, Owned;
    CountZero(s.workers, Sleeping);
    CountZero(s.workers, Signalled);
    CountZero(s.workers, Slow);
    hide Count;
    if forall k :: 0 <= k < |s.workers| ==> s.workers[k].Asleep? {
      assert s.workers[0].Asleep?;
      assert |s.wq| == 0;
    }
  }

  // A worker that holds the mutex, or runs a job, can always take its next step.
  lemma WorkersProceed(s: State, k: nat) returns (s': State)
    requires Inv(s) && k < |s.workers| && (s.workers[k].InLoop? || s.workers[k].Running?)
    ensures if s.workers[k].InLoop? then IterateStep(s, k, s')
            else if s.workers[k].ran then PublishStep(s, k, s') else ExecuteStep(s, k, s')
  {
    hide Scheduled, QueuesOk, RequestOk;
    if s.workers[k].Running? {
      var id, r := s.workers[k].id, s.reqs[s.workers[k].id];
      if s.workers[k].ran {
        s' := s.(workers := s.workers[k := Returning(s.workers[k].slow)],
                 reqs := s.reqs[id := r.(fn := Null, linked := true, place := AtLoop(r.loop))],
                 loopQueue := s.loopQueue[r.loop := QueueOf(s.loopQueue, r.loop) + [id]]);
      } else {
        s' := s.(workers := s.workers[k := s.workers[k].(ran := true)], reqs := s.reqs[id := r.(runs := r.runs + 1)]);
      }
    } else {
      s' := IterationExists(s, k);
    }
  }

  lemma IterationExists(s: State, k: nat) returns (s': State)
    requires k < |s.workers| && s.workers[k].InLoop?
    ensures IterateStep(s, k, s')
  {
    if Blocked(s) {
      s' := s.(workers := s.workers[k := Asleep], idle := s.idle + 1);
    } else if s.wq[0].Job? {
      s' := Started(s.(wq := s.wq[1..]), k, s.wq[0].id, false);
    } else if s.slowRunning >= Threshold(s) {
      s' := s.(wq := s.wq[1..] + [SlowMessage]);
    } else if s.slowPending == [] {
      s' := s.(wq := s.wq[1..]);
    } else {
      var t := Started(s.(wq := s.wq[1..], slowRunning := s.slowRunning + 1, slowPending := s.slowPending[1..]),
                       k, s.slowPending[0], true);
      s' := if t.slowPending == [] then t else Pushed(t, SlowMessage);
    }
  }

  ghost function Pushed(s: State, item: Item): (s': State)
    ensures Pushes(s, item, s')
  {
    if s.idle > 0 && exists k :: 0 <= k < |s.workers| && s.workers[k].Asleep? then
      var k :| 0 <= k < |s.workers| && s.workers[k].Asleep?;
      s.(wq := s.wq + [item], workers := s.workers[k := Woken])
    else s.(wq := s.wq + [item])
  }

  /** A worker that keeps the mutex after one turn of its loop takes a request or falls asleep on the next: slow work
      that has to wait does not make it turn for ever.
   */
  lemma WorkersDoNotSpin(s: State, k: nat, s': State, s'': State)
    requires Inv(s) && IterateStep(s, k, s') && At(s'.workers, k).InLoop? && IterateStep(s', k, s'')
    ensures At(s''.workers, k).Running? || At(s''.workers, k).Asleep?
  {
    hide Inv, Pushes;
    QueueDistinct(s);
    KeepsMutex(s, k, s');
  }

  ghost function At(workers: seq<Worker>, k: nat): Worker {
    if k < |workers| then workers[k] else Returning(false)
  }

  lemma QueueDistinct(s: State)
    requires Inv(s)
    ensures Distinct(s.wq)
  {
    hide Scheduled, RequestOk, HandsOk;
  }

  lemma KeepsMutex(s: State, k: nat, s': State)
    requires Distinct(s.wq) && IterateStep(s, k, s') && At(s'.workers, k).InLoop?
    ensures s'.wq == [] || s'.wq[0].Job?
  {
    hide Signals;
    if |s.wq| > 1 && s.wq[0].SlowMessage? {
      assert s.wq[1].Job?;
    }
    if !Blocked(s) && s.wq[0].SlowMessage? && s.slowRunning < Threshold(s) && s.slowPending != [] {
      SignalsOthers(s.workers[k := Running(s.slowPending[0], true, false)], s'.workers, k);
    }
  }

  lemma SignalsOthers(workers: seq<Worker>, workers': seq<Worker>, k: nat)
    requires k < |workers| && !workers[k].Asleep?
    requires Signals(workers, workers') || workers' == workers
    ensures At(workers', k) == workers[k]
  {
  }

  // ------------------------------------------------------------------ first come, first served

  // When each request was submitted.
  function Turns(actions: seq<Action>, n: nat): map<nat, nat>
    requires n <= |actions|
  {
    if n == 0 then map[]
    else if actions[n - 1].Submit? then Turns(actions, n - 1)[actions[n - 1].id := n - 1]
    else Turns(actions, n - 1)
  }

  // The requests of a queue were submitted in this order.
  ghost predicate InTurn(q: seq<nat>, turn: map<nat, nat>) {
    forall i, j :: 0 <= i < j < |q| && q[i] in turn && q[j] in turn ==> turn[q[i]] < turn[q[j]]
  }

  ghost predicate JobsInTurn(wq: seq<Item>, turn: map<nat, nat>) {
    forall i, j :: 0 <= i < j < |wq| && wq[i].Job? && wq[j].Job? && wq[i].id in turn && wq[j].id in turn ==>
                     turn[wq[i].id] < turn[wq[j].id]
  }

  // While a request waits, no later one of its kind has been taken from the queue, except by cancel.
  ghost predicate NoneOvertaken(reqs: map<nat, Request>, turn: map<nat, nat>, p: Place, kind: Kind) {
    forall a, b ::
      (a in reqs && b in reqs && a in turn && b in turn && reqs[a].place == p &&
       reqs[b].kind == kind && turn[a] < turn[b])
        ==> reqs[b].place == p || reqs[b].cancelled
  }

  ghost predicate Served(s: State, turn: map<nat, nat>, n: nat) {
    && turn.Keys == s.reqs.Keys && (forall id :: id in turn ==> turn[id] < n)
    && JobsInTurn(s.wq, turn) && InTurn(s.slowPending, turn)
    && NoneOvertaken(s.reqs, turn, Queued, Cpu) && NoneOvertaken(s.reqs, turn, SlowPending, SlowIO)
    && forall id :: id in s.reqs ==> (s.reqs[id].place.Queued? ==> s.reqs[id].kind.Cpu?) &&
                                     (s.reqs[id].place.SlowPending? ==> s.reqs[id].kind.SlowIO?)
  }

  // Requests change, but none moves to a queue of waiting ones, and none leaves one.
  ghost predicate SameWaiting(reqs: map<nat, Request>, reqs': map<nat, Request>) {
    reqs'.Keys == reqs.Keys && forall id :: id in reqs ==>
      && reqs'[id].kind == reqs[id].kind && (reqs[id].cancelled ==> reqs'[id].cancelled)
      && (reqs'[id].place == Queued <==> reqs[id].place == Queued)
      && (reqs'[id].place == SlowPending <==> reqs[id].place == SlowPending)
  }

  lemma WaitingServed(s: State, s': State, turn: map<nat, nat>, n: nat)
    requires Served(s, turn, n) && SameWaiting(s.reqs, s'.reqs) && s'.slowPending == s.slowPending
    requires JobsInTurn(s'.wq, turn)
    ensures Served(s', turn, n + 1)
  {
    hide InTurn, JobsInTurn;
  }

  lemma InTurnAppend(q: seq<nat>, turn: map<nat, nat>, id: nat, n: nat)
    requires InTurn(q, turn) && id !in q && forall x :: x in turn ==> turn[x] < n
    ensures InTurn(q + [id], turn[id := n]) && InTurn(q, turn[id := n])
  {
  }

  lemma JobsInTurnAppend(wq: seq<Item>, turn: map<nat, nat>, id: nat, n: nat)
    requires JobsInTurn(wq, turn) && Job(id) !in wq && forall x :: x in turn ==> turn[x] < n
    ensures JobsInTurn(wq + [Job(id)], turn[id := n]) && JobsInTurn(wq, turn[id := n])
    ensures JobsInTurn(wq + [SlowMessage], turn[id := n])
  {
  }

  lemma JobsInTurnPop(wq: seq<Item>, turn: map<nat, nat>)
    requires JobsInTurn(wq, turn) && wq != []
    ensures JobsInTurn(wq[1..], turn) && JobsInTurn(wq[1..] + [SlowMessage], turn)
  {
  }

  lemma InTurnCons(x: nat, rest: seq<nat>, from: seq<nat>, turn: map<nat, nat>)
    requires InTurn(rest, turn) && InTurn([x] + from, turn) && forall y :: y in rest ==> y in from
    ensures InTurn([x] + rest, turn)
  {
    forall j | 0 <= j < |rest| && x in turn && rest[j] in turn ensures turn[x] < turn[rest[j]] {
      assert rest[j] in rest;
      var k :| 0 <= k < |from| && from[k] == rest[j];
      assert ([x] + from)[0] == x && ([x] + from)[k + 1] == rest[j];
    }
  }

  lemma {:induction false} InTurnWithout(q: seq<nat>, turn: map<nat, nat>, id: nat)
    requires InTurn(q, turn)
    ensures InTurn(Without(q, id), turn)
  {
    if q != [] {
      assert q == [q[0]] + q[1..];
      InTurnWithout(q[1..], turn, id);
      WithoutMembers(q[1..], id);
      InTurnCons(q[0], Without(q[1..], id), q[1..], turn);
    }
  }

  lemma JobsInTurnCons(x: Item, rest: seq<Item>, from: seq<Item>, turn: map<nat, nat>)
    requires JobsInTurn(rest, turn) && JobsInTurn([x] + from, turn) && forall y :: y in rest ==> y in from
    ensures JobsInTurn([x] + rest, turn)
  {
    forall j | 0 <= j < |rest| && x.Job? && rest[j].Job? && x.id in turn && rest[j].id in turn
      ensures turn[x.id] < turn[rest[j].id]
    {
      assert rest[j] in rest;
      var k :| 0 <= k < |from| && from[k] == rest[j];
      assert ([x] + from)[0] == x && ([x] + from)[k + 1] == rest[j];
    }
  }

  lemma {:induction false} JobsInTurnWithout(wq: seq<Item>, turn: map<nat, nat>, x: Item)
    requires JobsInTurn(wq, turn)
    ensures JobsInTurn(Without(wq, x), turn)
  {
    if wq != [] {
      assert wq == [wq[0]] + wq[1..];
      JobsInTurnPop(wq, turn);
      hide JobsInTurn;
      JobsInTurnWithout(wq[1..], turn, x);
      WithoutMembers(wq[1..], x);
      JobsInTurnCons(wq[0], Without(wq[1..], x), wq[1..], turn);
    }
  }

  lemma NoneOvertakenNew(reqs: map<nat, Request>, turn: map<nat, nat>, id: nat, r: Request,
                         n: nat, p: Place, kind: Kind)
    requires NoneOvertaken(reqs, turn, p, kind) && id !in reqs && turn.Keys == reqs.Keys
    requires (forall x :: x in turn ==> turn[x] < n) && (r.kind == kind ==> r.place == p)
    ensures NoneOvertaken(reqs[id := r], turn[id := n], p, kind)
  {
  }

  lemma SubmitServed(s: State, id: nat, kind: Kind, loop: nat, s': State, turn: map<nat, nat>, n: nat)
    requires Owned(s) && Served(s, turn, n) && SubmitStep(s, id, kind, loop, s')
    ensures Served(s', turn[id := n], n + 1)
  {
    hide HandsOk, RequestOk, Signals, JobsInTurn, InTurn, NoneOvertaken, Distinct;
    var r := Request(kind, loop, Work, true, if kind.Cpu? then Queued else SlowPending, 0, false, []);
    NoneOvertakenNew(s.reqs, turn, id, r, n, Queued, Cpu);
    NoneOvertakenNew(s.reqs, turn, id, r, n, SlowPending, SlowIO);
    assert Job(id) !in s.wq && id !in s.slowPending;
    JobsInTurnAppend(s.wq, turn, id, n);
    InTurnAppend(s.slowPending, turn, id, n);
    assert s'.reqs == s.reqs[id := r];
  }

  // The first in the queue leaves it.
  lemma NoneOvertakenByFirst(reqs: map<nat, Request>, turn: map<nat, nat>, id: nat, r: Request, p: Place, kind: Kind)
    requires NoneOvertaken(reqs, turn, p, kind) && id in reqs && r.place != p && r.kind == reqs[id].kind
    requires forall a :: a in reqs && a in turn && id in turn && reqs[a].place == p && a != id ==> turn[id] < turn[a]
    ensures NoneOvertaken(reqs[id := r], turn, p, kind)
  {
  }

  lemma NoneOvertakenElsewhere(reqs: map<nat, Request>, turn: map<nat, nat>, id: nat, r: Request, p: Place, kind: Kind)
    requires NoneOvertaken(reqs, turn, p, kind) && id in reqs && reqs[id].place != p && r.place != p
    requires r.kind == reqs[id].kind && (reqs[id].cancelled ==> r.cancelled)
    ensures NoneOvertaken(reqs[id := r], turn, p, kind)
  {
  }

  lemma NoneOvertakenCancelled(reqs: map<nat, Request>, turn: map<nat, nat>, id: nat, r: Request, p: Place, kind: Kind)
    requires NoneOvertaken(reqs, turn, p, kind) && id in reqs && r.place != p && r.cancelled
    ensures NoneOvertaken(reqs[id := r], turn, p, kind)
  {
  }

  lemma FirstJob(s: State, turn: map<nat, nat>, n: nat, id: nat)
    requires Owned(s) && Served(s, turn, n) && s.wq != [] && s.wq[0] == Job(id)
    ensures IsAt(s.reqs, id, Queued)
    ensures forall a ::
              a in s.reqs && a in turn && id in turn && s.reqs[a].place == Queued && a != id ==> turn[id] < turn[a]
  {
    hide HandsOk, RequestOk, NoneOvertaken;
    assert Job(id) in s.wq;
    forall a | a in s.reqs && s.reqs[a].place == Queued && a != id ensures turn[id] < turn[a] {
      assert Job(a) in s.wq;
    }
  }

  lemma FirstPending(s: State, turn: map<nat, nat>, n: nat)
    requires Owned(s) && Served(s, turn, n) && s.slowPending != []
    ensures IsAt(s.reqs, s.slowPending[0], SlowPending)
    ensures var id := s.slowPending[0];
      forall a ::
            a in s.reqs && a in turn && id in turn && s.reqs[a].place == SlowPending && a != id ==> turn[id] < turn[a]
  {
    hide HandsOk, RequestOk, NoneOvertaken, JobsInTurn;
    var id := s.slowPending[0];
    assert id in s.slowPending;
    forall a | a in s.reqs && s.reqs[a].place == SlowPending && a != id ensures turn[id] < turn[a] {
      assert a in s.slowPending;
    }
  }

  // A worker takes the first of a queue.
  lemma StartServed(s: State, k: nat, s': State, turn: map<nat, nat>, n: nat)
    requires Owned(s) && Served(s, turn, n) && IterateStep(s, k, s')
    ensures Served(s', turn, n + 1)
  {
    hide Owned, Signals, Threshold, JobsInTurn, InTurn, NoneOvertaken;
    if !Blocked(s) {
      JobsInTurnPop(s.wq, turn);
      if s.wq[0].Job? {
        TakenServed(s, turn, n, s.wq[0].id, k);
      } else if s.slowRunning < Threshold(s) && s.slowPending != [] {
        SlowTakenServed(s, turn, n, k);
        JobsAppendMessage(s.wq[1..], turn);
      }
    }
  }

  lemma JobsAppendMessage(wq: seq<Item>, turn: map<nat, nat>)
    requires JobsInTurn(wq, turn)
    ensures JobsInTurn(wq + [SlowMessage], turn)
  {
  }

  lemma TakenServed(s: State, turn: map<nat, nat>, n: nat, id: nat, k: nat)
    requires Owned(s) && Served(s, turn, n) && s.wq != [] && s.wq[0] == Job(id)
    ensures id in s.reqs && s.reqs[id].place == Queued
    ensures var reqs := s.reqs[id := s.reqs[id].(linked := false, place := Executing(k))];
            NoneOvertaken(reqs, turn, Queued, Cpu) && NoneOvertaken(reqs, turn, SlowPending, SlowIO)
  {
    hide Owned, NoneOvertaken, JobsInTurn, InTurn;
    FirstJob(s, turn, n, id);
    var r := s.reqs[id].(linked := false, place := Executing(k));
    NoneOvertakenByFirst(s.reqs, turn, id, r, Queued, Cpu);
    NoneOvertakenElsewhere(s.reqs, turn, id, r, SlowPending, SlowIO);
  }

  lemma SlowTakenServed(s: State, turn: map<nat, nat>, n: nat, k: nat)
    requires Owned(s) && Served(s, turn, n) && s.slowPending != []
    ensures s.slowPending[0] in s.reqs && s.reqs[s.slowPending[0]].place == SlowPending
    ensures var id := s.slowPending[0];
            var reqs := s.reqs[id := s.reqs[id].(linked := false, place := Executing(k))];
            && NoneOvertaken(reqs, turn, Queued, Cpu) && NoneOvertaken(reqs, turn, SlowPending, SlowIO)
            && InTurn(s.slowPending[1..], turn)
  {
    hide Owned, NoneOvertaken, JobsInTurn;
    FirstPending(s, turn, n);
    var id := s.slowPending[0];
    var r := s.reqs[id].(linked := false, place := Executing(k));
    NoneOvertakenByFirst(s.reqs, turn, id, r, SlowPending, SlowIO);
    NoneOvertakenElsewhere(s.reqs, turn, id, r, Queued, Cpu);
  }

  lemma CancelServed(s: State, id: nat, s': State, turn: map<nat, nat>, n: nat)
    requires Owned(s) && Served(s, turn, n) && TryCancelStep(s, id, s')
    ensures Served(s', turn, n + 1)
  {
    hide Owned, JobsInTurn, InTurn, NoneOvertaken, Without;
    var r := s.reqs[id];
    if r.linked && r.fn != Null {
      JobsInTurnWithout(s.wq, turn, Job(id));
      InTurnWithout(s.slowPending, turn, id);
      NoneOvertakenCancelled(s.reqs, turn, id, s'.reqs[id], Queued, Cpu);
      NoneOvertakenCancelled(s.reqs, turn, id, s'.reqs[id], SlowPending, SlowIO);
    }
  }

  lemma StepServed(s: State, a: Action, s': State, turn: map<nat, nat>, n: nat)
    requires Inv(s) && Served(s, turn, n) && Step(s, a, s')
    ensures Served(s', if a.Submit? then turn[a.id := n] else turn, n + 1)
  {
    hide Served, Owned, Scheduled, SubmitStep, IterateStep, TryCancelStep, AcquireStep, SpuriousWakeStep, ExecuteStep,
      PublishStep, FinishCancelStep, CollectStep, CallDoneStep;
    match a
    case Submit(id, kind, loop) => SubmitServed(s, id, kind, loop, s', turn, n);
    case Iterate(k) => StartServed(s, k, s', turn, n);
    case TryCancel(id) => CancelServed(s, id, s', turn, n);
    case _ =>
      StepWaits(s, a, s');
      ServedJobs(s, turn, n);
      WaitingServed(s, s', turn, n);
  }

  lemma ServedJobs(s: State, turn: map<nat, nat>, n: nat)
    requires Served(s, turn, n)
    ensures JobsInTurn(s.wq, turn)
  {
  }

  // A request that does not wait goes on without waiting.
  lemma MovesOn(reqs: map<nat, Request>, id: nat, r: Request)
    requires id in reqs && !reqs[id].place.Queued? && !reqs[id].place.SlowPending? && r.kind == reqs[id].kind
    requires !r.place.Queued? && !r.place.SlowPending? && (reqs[id].cancelled ==> r.cancelled)
    ensures SameWaiting(reqs, reqs[id := r])
  {
  }

  lemma StepWaits(s: State, a: Action, s': State)
    requires Owned(s) && Step(s, a, s') && !a.Submit? && !a.Iterate? && !a.TryCancel?
    ensures SameWaiting(s.reqs, s'.reqs) && s'.slowPending == s.slowPending && s'.wq == s.wq
  {
    hide Owned, SameWaiting;
    match a
    case Execute(k) => InHand(s, k); MovesOn(s.reqs, s.workers[k].id, s'.reqs[s.workers[k].id]);
    case Publish(k) => InHand(s, k); MovesOn(s.reqs, s.workers[k].id, s'.reqs[s.workers[k].id]);
    case FinishCancel(l) => InLimbo(s, l); MovesOn(s.reqs, s.limbo[l], s'.reqs[s.limbo[l]]);
    case CallDone(l) => InBacklog(s, l); MovesOn(s.reqs, s.local[l][0], s'.reqs[s.local[l][0]]);
    case _ => SameWaits(s.reqs);
  }

  lemma SameWaits(reqs: map<nat, Request>)
    ensures SameWaiting(reqs, reqs)
  {
  }

  lemma InHand(s: State, k: nat)
    requires Owned(s) && k < |s.workers| && s.workers[k].Running?
    ensures IsAt(s.reqs, s.workers[k].id, Executing(k))
  {
    hide QueuesOk, RequestOk;
  }

  lemma InLimbo(s: State, l: nat)
    requires Owned(s) && l in s.limbo
    ensures IsAt(s.reqs, s.limbo[l], Limbo(l))
  {
    hide QueuesOk, RequestOk;
  }

  lemma InBacklog(s: State, l: nat)
    requires Owned(s) && QueueOf(s.local, l) != []
    ensures IsAt(s.reqs, s.local[l][0], AtLoop(l))
  {
    hide HandsOk, RequestOk, HoldsJobs, Distinct;
    assert s.local[l][0] in Backlog(s, l);
  }

  lemma {:induction false} RunServed(states: seq<State>, actions: seq<Action>, n: nat)
    requires Run(states, actions) && n < |states|
    ensures Served(states[n], Turns(actions, n), n)
  {
    hide Inv, Step, Served;
    if n == 0 {
      NobodyWaits(states[0]);
    } else {
      RunServed(states, actions, n - 1);
      RunInv(states, actions, n - 1);
      StepServed(states[n - 1], actions[n - 1], states[n], Turns(actions, n - 1), n - 1);
    }
  }

  lemma NobodyWaits(s: State)
    requires Init(s)
    ensures Served(s, map[], 0)
  {
  }

  lemma {:induction false} TurnOf(states: seq<State>, actions: seq<Action>, i: nat, n: nat)
    requires Run(states, actions) && i < n < |states| && actions[i].Submit?
    ensures actions[i].id in Turns(actions, n) && Turns(actions, n)[actions[i].id] == i
    ensures actions[i].id in states[n].reqs && states[n].reqs[actions[i].id].kind == actions[i].kind
    decreases n
  {
    hide Inv, Step, Served;
    RunServed(states, actions, n - 1);
    RunInv(states, actions, n - 1);
    StepRequests(states[n - 1], actions[n - 1], states[n]);
    if i < n - 1 {
      TurnOf(states, actions, i, n - 1);
    }
  }

  lemma StepRequests(s: State, a: Action, s': State)
    requires Inv(s) && Step(s, a, s')
    ensures forall id :: id in s.reqs ==> id in s'.reqs && s'.reqs[id].kind == s.reqs[id].kind
    ensures a.Submit? ==> a.id !in s.reqs && a.id in s'.reqs && s'.reqs[a.id].kind == a.kind
  {
    hide Owned, Scheduled, SameWaiting, SubmitStep, IterateStep, TryCancelStep, AcquireStep, SpuriousWakeStep,
      ExecuteStep,
      PublishStep, FinishCancelStep, CollectStep, CallDoneStep;
    match a
    case Submit(id, kind, loop) => SubmitRequests(s, id, kind, loop, s');
    case Iterate(k) => IterateRequests(s, k, s');
    case TryCancel(id) => CancelRequests(s, id, s');
    case _ => StepWaits(s, a, s'); WaitingKinds(s.reqs, s'.reqs);
  }

  lemma SubmitRequests(s: State, id: nat, kind: Kind, loop: nat, s': State)
    requires SubmitStep(s, id, kind, loop, s')
    ensures id !in s.reqs && id in s'.reqs && s'.reqs[id].kind == kind
    ensures s'.local == s.local && s'.loopQueue == s.loopQueue
    ensures forall x :: x in s.reqs ==> x in s'.reqs && s'.reqs[x].kind == s.reqs[x].kind
  {
    hide Signals, MutexFree;
  }

  lemma IterateRequests(s: State, k: nat, s': State)
    requires IterateStep(s, k, s')
    ensures s'.local == s.local && s'.loopQueue == s.loopQueue
    ensures forall x :: x in s.reqs ==> x in s'.reqs && s'.reqs[x].kind == s.reqs[x].kind
  {
    hide Signals, Blocked, Threshold;
  }

  lemma CancelRequests(s: State, id: nat, s': State)
    requires TryCancelStep(s, id, s')
    ensures forall x :: x in s.reqs ==> x in s'.reqs && s'.reqs[x].kind == s.reqs[x].kind
  {
    hide Without, MutexFree;
  }

  lemma WaitingKinds(reqs: map<nat, Request>, reqs': map<nat, Request>)
    requires SameWaiting(reqs, reqs')
    ensures forall x :: x in reqs ==> x in reqs' && reqs'[x].kind == reqs[x].kind
  {
  }

  /** In every run requests of a kind are started in the order they were submitted: while one waits, a later one also
      waits, unless it was cancelled.
   */
  lemma FirstComeFirstServed(states: seq<State>, actions: seq<Action>, i: nat, j: nat, n: nat)
    requires Run(states, actions) && i < j < n < |states| && actions[i].Submit? && actions[j].Submit?
    requires actions[i].kind == actions[j].kind
    ensures actions[i].id in states[n].reqs && actions[j].id in states[n].reqs
    ensures var a, b := states[n].reqs[actions[i].id], states[n].reqs[actions[j].id];
            a.place.Queued? || a.place.SlowPending? ==> b.place == a.place || b.cancelled
  {
    RunServed(states, actions, n);
    TurnOf(states, actions, i, n);
    TurnOf(states, actions, j, n);
    hide Run, InTurn, JobsInTurn;
  }

  /** A loop's done callbacks come in the order in which its requests were completed or their cancellation was: what has
      been completed and not called back is a queue, which grows at its end and shrinks from its front, or by a cancel.
   */
  lemma BacklogIsQueue(s: State, a: Action, s': State, l: nat)
    requires Inv(s) && Step(s, a, s')
    ensures Backlog(s', l) == match a
                              case Publish(k) =>
                                if k < |s.workers| && s.workers[k].Running? && IsAt(s'.reqs, s.workers[k].id, AtLoop(l))
                                then Backlog(s, l) + [s.workers[k].id] else Backlog(s, l)
                              case FinishCancel(m) =>
                                if m == l && l in s.limbo then Backlog(s, l) + [s.limbo[l]] else Backlog(s, l)
                              case CallDone(m) =>
                                if m == l && Backlog(s, l) != [] then Backlog(s, l)[1..] else Backlog(s, l)
                              case TryCancel(id) =>
                                if id in s.reqs && s.reqs[id].loop == l && s'.reqs[id].cancelled then
                                  Without(Backlog(s, l), id)
                                else Backlog(s, l)
                              case _ => Backlog(s, l)
  {
    hide Inv, Without, Backlog, SubmitStep, AcquireStep, IterateStep, SpuriousWakeStep, ExecuteStep, PublishStep,
      TryCancelStep, FinishCancelStep, CollectStep, CallDoneStep;
    match a
    case Publish(k) => PublishBacklog(s, k, s', l);
    case FinishCancel(m) => LoopBacklog(s, a, s', m, l);
    case CallDone(m) => LoopBacklog(s, a, s', m, l);
    case Collect(m) => LoopBacklog(s, a, s', m, l);
    case TryCancel(id) => CancelBacklog(s, id, s', l);
    case _ => SameBacklog(s, a, s', l);
  }

  lemma PublishBacklog(s: State, k: nat, s': State, l: nat)
    requires Inv(s) && PublishStep(s, k, s')
    ensures Backlog(s', l) == if k < |s.workers| && s.workers[k].Running? && IsAt(s'.reqs, s.workers[k].id, AtLoop(l))
                              then Backlog(s, l) + [s.workers[k].id] else Backlog(s, l)
  {
    hide Inv;
    InHandNow(s, k);
  }

  lemma LoopBacklog(s: State, a: Action, s': State, m: nat, l: nat)
    requires (a == FinishCancel(m) && FinishCancelStep(s, m, s')) || (a == Collect(m) && CollectStep(s, m, s')) ||
             (a == CallDone(m) && CallDoneStep(s, m, s'))
    ensures Backlog(s', l) == if m != l || a.Collect? then Backlog(s, l)
                              else if a.CallDone? then (if Backlog(s, l) == [] then [] else Backlog(s, l)[1..])
                              else if l in s.limbo then Backlog(s, l) + [s.limbo[l]] else Backlog(s, l)
  {
    if m == l {
      var q, w := QueueOf(s.local, l), QueueOf(s.loopQueue, l);
      match a
      case Collect(_) => assert q + w == w + [];
      case CallDone(_) => assert (q + w)[1..] == q[1..] + w;
      case FinishCancel(_) => assert q + (w + [s.limbo[l]]) == q + w + [s.limbo[l]];
    }
  }

  lemma SameBacklog(s: State, a: Action, s': State, l: nat)
    requires Step(s, a, s') && (a.Submit? || a.Acquire? || a.Iterate? || a.SpuriousWake? || a.Execute?)
    ensures Backlog(s', l) == Backlog(s, l)
  {
    hide SubmitStep, IterateStep, MutexFree;
    match a
    case Submit(id, kind, loop) => SubmitRequests(s, id, kind, loop, s');
    case Iterate(k) => IterateRequests(s, k, s');
    case _ =>
  }

  lemma InHandNow(s: State, k: nat)
    requires Inv(s) && k < |s.workers| && s.workers[k].Running?
    ensures IsAt(s.reqs, s.workers[k].id, Executing(k))
  {
    hide Owned, Scheduled;
    InHand(s, k);
  }

  lemma CancelBacklog(s: State, id: nat, s': State, l: nat)
    requires Inv(s) && TryCancelStep(s, id, s')
    ensures Backlog(s', l) == if id in s.reqs && s.reqs[id].loop == l && s'.reqs[id].cancelled then
                                Without(Backlog(s, l), id)
                              else Backlog(s, l)
  {
    hide Without, QueuesOk, HandsOk, Scheduled;
    WithoutConcat(QueueOf(s.local, l), QueueOf(s.loopQueue, l), id);
    assert RequestOk(s.reqs[id], s.workers);
  }
}
