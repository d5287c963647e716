/** Timers of an event loop, kept in a heap ordered by timeout and start id. */
module Timer {
  import opened Heap

  const MAX64: nat := 0xffff_ffff_ffff_ffff
  const INT_MAX: int := 0x7fff_ffff

  // What timer_less_than compares.
  datatype Key = Key(timeout: nat, startId: nat)

  predicate TimerLessThan(a: Key, b: Key) {
    if a.timeout < b.timeout then true
    else if b.timeout < a.timeout then false
    else a.startId < b.startId
  }

  lemma TimerOrder()
    ensures StrictOrder(TimerLessThan)
  {
  }

  // A timer handle; its timeout and start id are the key of its heap node.
  class Timer {
    const node: Node<Key>
    var repeat: nat
    var hasCallback: bool
    var active: bool
    var closing: bool

    constructor (node: Node<Key>)
      ensures this.node == node && repeat == 0 && !hasCallback && !active && !closing
    {
      this.node := node;
      repeat, hasCallback, active, closing := 0, false, false, false;
    }
  }

  datatype Result = Ok | EInval

  // The sum that does not wrap.
  function Later(time: nat, timeout: nat): nat {
    if time + timeout > MAX64 then MAX64 else time + timeout
  }

  // The sum if 64 bits hold it, else the largest number of 64 bits.
  predicate DueAfter(time: nat, timeout: nat, due: nat) {
    if time + timeout <= 18446744073709551615 then due - time == timeout else due == 18446744073709551615
  }

  lemma LaterIsDue(time: nat, timeout: nat)
    ensures DueAfter(time, timeout, Later(time, timeout))
  {
  }

  // A run of uv__run_timers so far: the keys of the armed timers at its start, the repeat values, the keys now, the
  // armed timers now, the timers that went off, and the start id counter then and now.
  datatype Run = Run(time: nat, keys: map<Node<Key>, Key>, repeats: map<Node<Key>, nat>, now: map<Node<Key>, Key>,
                     armed: set<Node<Key>>, fired: seq<Node<Key>>, start: nat, counter: nat)

  ghost predicate RanOk(run: Run) {
    && run.repeats.Keys == run.now.Keys && run.keys.Keys <= run.now.Keys && run.armed <= run.now.Keys
    && (forall n :: n in run.fired ==> FiredOk(run, n))
    && (forall n :: n in run.keys && n !in run.fired ==> run.now[n] == run.keys[n])
    && (forall n :: n in run.armed ==> n in run.keys && (n !in run.fired || run.repeats[n] > 0))
    && (forall n :: n in run.keys && (n !in run.fired || run.repeats[n] > 0) ==> n in run.armed)
    && (forall i, j :: 0 <= i < j < |run.fired| ==> InOrder(run, run.fired[i], run.fired[j]))
    && (forall m, n ::
        m in run.fired && n in run.keys && n !in run.fired && run.keys[n].timeout <= run.time ==> Sooner(run, m, n))
    && run.start <= run.counter <= run.start + |run.fired|
  }

  // It was due, and if it repeats it has its next timeout.
  ghost predicate FiredOk(run: Run, n: Node<Key>) {
    && n in run.keys && n in run.repeats && n in run.now && run.keys[n].timeout <= run.time
    && (run.repeats[n] > 0 ==>
        run.now[n].timeout == Later(run.time, run.repeats[n]) && run.start <= run.now[n].startId < run.counter)
  }

  predicate Sooner(run: Run, m: Node<Key>, n: Node<Key>) {
    m in run.keys && n in run.keys && TimerLessThan(run.keys[m], run.keys[n])
  }

  ghost predicate InOrder(run: Run, m: Node<Key>, n: Node<Key>) {
    && Sooner(run, m, n) && m in run.repeats && n in run.repeats && m in run.now && n in run.now
    && (run.repeats[m] > 0 && run.repeats[n] > 0 ==> run.now[m].startId < run.now[n].startId)
  }

  // Due at the start, not fired yet, and sooner than every other such timer.
  ghost predicate NextDue(run: Run, n: Node<Key>) {
    && n in run.keys && n !in run.fired && run.keys[n].timeout <= run.time
    && forall m :: m in run.keys && m !in run.fired && m != n ==> Sooner(run, n, m)
  }

  ghost predicate AllFired(run: Run) {
    forall n :: n in run.keys && run.keys[n].timeout <= run.time ==> n in run.fired
  }

  ghost function Fired(run: Run, n: Node<Key>): Run
    requires n in run.repeats
  {
    var r := run.(fired := run.fired + [n]);
    if run.repeats[n] > 0 then
      r.(now := run.now[n := Key(Later(run.time, run.repeats[n]), run.counter)], counter := run.counter + 1)
    else r.(armed := run.armed - {n})
  }

  lemma RunStep(run: Run, n: Node<Key>)
    requires RanOk(run) && NextDue(run, n)
    ensures n in run.repeats && RanOk(Fired(run, n))
  {
    hide Later, TimerLessThan, InOrder, Sooner;
    var next := Fired(run, n);
    StepFired(run, n);
    StepOrder(run, n);
    forall m, k | m in next.fired && k in next.keys && k !in next.fired && next.keys[k].timeout <= next.time
        ensures Sooner(next, m, k) {
      StepSooner(run, n, m, k);
    }
  }

  lemma StepFired(run: Run, n: Node<Key>)
    requires RanOk(run) && NextDue(run, n)
    ensures forall m :: m in Fired(run, n).fired ==> FiredOk(Fired(run, n), m)
  {
    hide Later, InOrder, Sooner;
    var next := Fired(run, n);
    forall m | m in next.fired ensures FiredOk(next, m) {
      assert m != n ==> FiredOk(run, m);
    }
  }

  lemma StepSooner(run: Run, n: Node<Key>, m: Node<Key>, k: Node<Key>)
    requires RanOk(run) && NextDue(run, n) && (m == n || m in run.fired)
    requires k in run.keys && k !in run.fired && k != n && run.keys[k].timeout <= run.time
    ensures Sooner(Fired(run, n), m, k)
  {
    hide Later, TimerLessThan, InOrder, FiredOk;
    assert m != n ==> Sooner(run, m, k);
    assert Sooner(run, n, k);
  }

  lemma StepOrder(run: Run, n: Node<Key>)
    requires RanOk(run) && NextDue(run, n)
    ensures var fired := Fired(run, n).fired;
            forall i, j :: 0 <= i < j < |fired| ==> InOrder(Fired(run, n), fired[i], fired[j])
  {
    hide Later, TimerLessThan;
    var next := Fired(run, n);
    forall i, j | 0 <= i < j < |next.fired| ensures InOrder(next, next.fired[i], next.fired[j]) {
      assert FiredOk(run, run.fired[i]);
      if j < |run.fired| {
        assert InOrder(run, run.fired[i], run.fired[j]);
        assert FiredOk(run, run.fired[j]);
      } else {
        assert Sooner(run, run.fired[i], n);
      }
    }
  }

  /** What a finished run amounts to. */
  lemma RunMeans(run: Run)
    requires RanOk(run) && AllFired(run) && run.time < MAX64
    ensures forall n :: n in run.fired ==> n in run.keys && run.keys[n].timeout <= run.time
    ensures forall n :: n in run.keys && run.keys[n].timeout <= run.time ==> n in run.fired
    ensures forall i, j ::
              0 <= i < j < |run.fired| ==> run.fired[i] != run.fired[j] && InOrder(run, run.fired[i], run.fired[j])
    ensures forall n :: n in run.armed ==> n in run.now && n in run.keys && run.now[n].timeout > run.time
    ensures forall n :: n in run.keys && run.keys[n].timeout > run.time ==> n in run.armed && run.now[n] == run.keys[n]
    ensures forall n :: n in run.fired ==> n in run.repeats && (n in run.armed <==> run.repeats[n] > 0)
    ensures forall n :: n in run.fired && run.repeats[n] > 0 ==>
              n in run.now && DueAfter(run.time, run.repeats[n], run.now[n].timeout)
  {
    hide Later, TimerLessThan, DueAfter;
    forall i, j | 0 <= i < j < |run.fired| ensures run.fired[i] != run.fired[j] {
      assert InOrder(run, run.fired[i], run.fired[j]);
      SoonerDiffers(run, run.fired[i], run.fired[j]);
    }
    forall n | n in run.armed ensures run.now[n].timeout > run.time {
      if n in run.fired {
        assert FiredOk(run, n);
        LaterIsLater(run.time, run.repeats[n]);
      }
    }
    assert forall n :: n in run.fired ==> FiredOk(run, n);
    forall n | n in run.fired && run.repeats[n] > 0 ensures DueAfter(run.time, run.repeats[n], run.now[n].timeout) {
      LaterIsDue(run.time, run.repeats[n]);
    }
  }

  function NodesOf(ts: seq<Timer>): (ns: seq<Node<Key>>)
    ensures |ns| == |ts| && forall i :: 0 <= i < |ts| ==> ns[i] == ts[i].node
    decreases |ts|
  {
    if ts == [] then [] else NodesOf(ts[..|ts| - 1]) + [ts[|ts| - 1].node]
  }

  lemma NoNodes()
    ensures NodesOf([]) == []
  {
  }

  lemma NodesOfMore(ts: seq<Timer>, t: Timer)
    ensures NodesOf(ts + [t]) == NodesOf(ts) + [t.node]
  {
    assert (ts + [t])[..|ts|] == ts;
  }

  // No timer goes off twice, so there is room for every start id.
  lemma FiredFits(run: Run, n: Node<Key>)
    requires RanOk(run) && NextDue(run, n)
    ensures |run.fired| < |run.keys.Keys| && run.counter <= run.start + |run.fired|
  {
    hide Later, TimerLessThan;
    var s := set n | n in run.fired;
    forall i, j | 0 <= i < j < |run.fired| ensures run.fired[i] != run.fired[j] {
      assert InOrder(run, run.fired[i], run.fired[j]);
      SoonerDiffers(run, run.fired[i], run.fired[j]);
    }
    DistinctCount(run.fired);
    assert forall n :: n in s ==> FiredOk(run, n);
    SubsetSmaller(s, run.keys.Keys, n);
  }

  lemma SoonerDiffers(run: Run, m: Node<Key>, n: Node<Key>)
    requires Sooner(run, m, n)
    ensures m != n
  {
  }

  lemma {:induction false} DistinctCount<T>(xs: seq<T>)
    requires forall i, j :: 0 <= i < j < |xs| ==> xs[i] != xs[j]
    ensures |set x | x in xs| == |xs|
    decreases |xs|
  {
    if xs != [] {
      var front, last := xs[..|xs| - 1], xs[|xs| - 1];
      DistinctCount(front);
      assert (set x | x in xs) == (set x | x in front) + {last};
    }
  }

  lemma LaterIsLater(time: nat, repeat: nat)
    requires repeat > 0 && time < MAX64
    ensures Later(time, repeat) > time
  {
  }

  class Loop {
    const heap: Heap<Key>
    var time: nat
    var timerCounter: nat
    var handles: map<Node<Key>, Timer>   // the handle that contains a heap node

    ghost predicate Valid()
      reads this, heap, heap.repr, handles.Keys, handles.Values
    {
      && heap.Valid() && heap.less == TimerLessThan && time <= MAX64 && timerCounter <= MAX64
      && (forall n :: n in heap.repr ==> n in handles) && HandlesOk(heap.repr) && DistinctIds(heap.repr)
    }

    // Exactly the handles in the heap are active; they have a callback and an id already given out.
    ghost predicate HandlesOk(armed: set<Node<Key>>)
      reads this, handles.Keys`key, handles.Values
    {
      forall n :: n in handles ==> HandleOk(n, armed)
    }

    ghost predicate HandleOk(n: Node<Key>, armed: set<Node<Key>>)
      requires n in handles
      reads this, n`key, handles[n]
    {
      var t := handles[n];
      && t.node == n && (t.active <==> n in armed) && t.repeat <= MAX64
      && (t.active ==> t.hasCallback && !t.closing && n.key.startId < timerCounter)
    }

    static ghost predicate DistinctIds(armed: set<Node<Key>>)
      reads armed`key
    {
      forall m, n :: m in armed && n in armed && m != n ==> m.key.startId != n.key.startId
    }

    constructor ()
      ensures Valid() && handles == map[] && fresh(heap) && time == 0
    {
      TimerOrder();
      var h := new Heap<Key>(TimerLessThan);
      heap := h;
      time, timerCounter, handles := 0, 0, map[];
    }

    ghost predicate Owns(t: Timer)
      reads this`handles
    {
      t.node in handles && handles[t.node] == t
    }

    // uv_timer_init: a handle with no callback, not active.
    method TimerInit(handle: Timer)
      requires Valid() && handle.node !in handles && handle !in handles.Values
      modifies this`handles, handle`repeat, handle`hasCallback, handle`active
      ensures Valid() && handles == old(handles)[handle.node := handle] && Owns(handle) && heap.repr == old(heap.repr)
      ensures !handle.active && !handle.hasCallback && handle.repeat == 0
    {
      hide Heap.Valid, StrictOrder, DistinctIds;
      handle.repeat, handle.hasCallback, handle.active := 0, false, false;
      handles := handles[handle.node := handle];
      forall n | n in handles ensures HandleOk(n, heap.repr) {
        assert n != handle.node ==> old(HandleOk(n, heap.repr));
      }
    }

    // The loop's clock moves on.
    method UpdateTime(now: nat)
      requires Valid() && time <= now <= MAX64
      modifies this`time
      ensures Valid() && time == now
    {
      hide Heap.Valid, StrictOrder, DistinctIds;
      time := now;
      forall n | n in handles ensures HandleOk(n, heap.repr) {
        assert old(HandleOk(n, heap.repr));
      }
    }

    // uv_timer_stop
    method TimerStop(handle: Timer)
      requires Valid() && Owns(handle)
      modifies handle`active, heap`min, heap`nelts, heap`nodes, heap`repr, heap.repr`left,
               heap.repr`right, heap.repr`parent
      ensures Valid() && !handle.active && heap.repr == old(heap.repr) - {handle.node}
    {
      hide Heap.Valid, StrictOrder, HandlesOk, DistinctIds;
      InactiveIsOut(handle);
      if !handle.active {
        return;
      }
      ghost var armed := heap.repr;
      heap.Remove(handle.node);
      FewerIds(armed, handle.node);
      Deactivate(handle, armed);
    }

    method Deactivate(handle: Timer, ghost armed: set<Node<Key>>)
      requires Owns(handle) && HandlesOk(armed)
      modifies handle`active
      ensures !handle.active && HandlesOk(armed - {handle.node})
    {
      handle.active := false;
      forall n | n in handles ensures HandleOk(n, armed - {handle.node}) {
        assert old(HandleOk(n, armed));
      }
    }

    method Activate(handle: Timer, ghost armed: set<Node<Key>>)
      requires Owns(handle) && HandlesOk(armed)
      requires handle.hasCallback && !handle.closing && handle.node.key.startId < timerCounter
      modifies handle`active
      ensures handle.active && HandlesOk(armed + {handle.node})
    {
      handle.active := true;
      forall n | n in handles ensures HandleOk(n, armed + {handle.node}) {
        assert old(HandleOk(n, armed));
      }
    }

    static lemma FewerIds(armed: set<Node<Key>>, n: Node<Key>)
      requires DistinctIds(armed)
      ensures DistinctIds(armed - {n})
    {
    }

    static lemma MoreIds(armed: set<Node<Key>>, n: Node<Key>)
      requires DistinctIds(armed) && forall m :: m in armed ==> m.key.startId != n.key.startId
      ensures DistinctIds(armed + {n})
    {
    }

    // uv_timer_start
    method TimerStart(handle: Timer, callback: bool, timeout: nat, repeat: nat) returns (r: Result)
      requires Valid() && Owns(handle) && timeout <= MAX64 && repeat <= MAX64
      requires timerCounter < MAX64 && |handles| <= 0xffff_ffff
      modifies this`timerCounter, handle`repeat, handle`hasCallback, handle`active, handle.node`key
      modifies heap`min, heap`nelts, heap`nodes, heap`repr
      modifies heap.repr`left, heap.repr`right, heap.repr`parent, handle.node`left,
               handle.node`right, handle.node`parent
      ensures Valid() && (r.EInval? <==> handle.closing || !callback)
      ensures r.EInval? ==>
                heap.repr == old(heap.repr) && timerCounter == old(timerCounter) &&
                    handle.node.key == old(handle.node.key)
                            && handle.repeat == old(handle.repeat) && handle.active == old(handle.active)
                            && handle.hasCallback == old(handle.hasCallback)
      ensures r.Ok? ==> heap.repr == old(heap.repr) + {handle.node} && timerCounter == old(timerCounter) + 1
                        && handle.node.key == Key(Later(time, timeout), old(timerCounter))
                        && DueAfter(time, timeout, handle.node.key.timeout)
                        && handle.repeat == repeat && handle.active && handle.hasCallback
    {
      hide Heap.Valid, StrictOrder, HandlesOk, DistinctIds;
      if handle.closing || !callback {
        return EInval;
      }
      if handle.active {
        TimerStop(handle);
      }
      InactiveIsOut(handle);
      var clampedTimeout := (time + timeout) % (MAX64 + 1);
      if clampedTimeout < timeout {
        clampedTimeout := MAX64;
      }
      assert clampedTimeout == Later(time, timeout);
      Arm(handle, clampedTimeout, repeat);
      return Ok;
    }

    lemma InactiveIsOut(handle: Timer)
      requires Valid() && Owns(handle)
      ensures handle.active <==> handle.node in heap.repr
    {
      hide Heap.Valid;
      assert HandleOk(handle.node, heap.repr);
    }

    // Sets the fields of an inactive handle and puts it into the heap.
    method Arm(handle: Timer, timeout: nat, repeat: nat)
      requires Valid() && Owns(handle) && !handle.closing && handle.node !in heap.repr
      requires timerCounter < MAX64 && |handles| <= 0xffff_ffff && repeat <= MAX64
      modifies this`timerCounter, handle`repeat, handle`hasCallback, handle`active, handle.node`key
      modifies heap`min, heap`nelts, heap`nodes, heap`repr
      modifies heap.repr`left, heap.repr`right, heap.repr`parent, handle.node`left,
               handle.node`right, handle.node`parent
      ensures Valid() && heap.repr == old(heap.repr) + {handle.node} && timerCounter == old(timerCounter) + 1
      ensures handle.node.key == Key(timeout, old(timerCounter))
      ensures handle.repeat == repeat && handle.active && handle.hasCallback
    {
      hide Heap.Valid, StrictOrder, HandlesOk, DistinctIds;
      SetFields(handle, timeout, repeat);
      StartHandle(handle);
    }

    method SetFields(handle: Timer, timeout: nat, repeat: nat)
      requires Valid() && Owns(handle) && handle.node !in heap.repr && timerCounter < MAX64 && repeat <= MAX64
      modifies this`timerCounter, handle`repeat, handle`hasCallback, handle.node`key
      ensures Valid() && handle.hasCallback && handle.repeat == repeat
      ensures handle.node.key == Key(timeout, old(timerCounter)) && timerCounter == old(timerCounter) + 1
      ensures forall m :: m in heap.repr ==> m.key.startId != old(timerCounter)
    {
      hide Heap.Valid, StrictOrder, DistinctIds;
      handle.hasCallback := true;
      handle.repeat := repeat;
      handle.node.key := Key(timeout, timerCounter);
      timerCounter := timerCounter + 1;
      forall n | n in handles
          ensures HandleOk(n, heap.repr) && (n in heap.repr ==> n.key.startId != old(timerCounter)) {
        assert old(HandleOk(n, heap.repr));
      }
    }

    // Puts an inactive handle with a fresh start id into the heap.
    method StartHandle(handle: Timer)
      requires Valid() && Owns(handle) && !handle.closing && handle.hasCallback && handle.node !in heap.repr
      requires |handles| <= 0xffff_ffff && handle.node.key.startId < timerCounter
      requires forall m :: m in heap.repr ==> m.key.startId != handle.node.key.startId
      modifies handle`active, heap`min, heap`nelts, heap`nodes, heap`repr
      modifies heap.repr`left, heap.repr`right, heap.repr`parent, handle.node`left,
               handle.node`right, handle.node`parent
      ensures Valid() && handle.active && heap.repr == old(heap.repr) + {handle.node}
    {
      hide Heap.Valid, StrictOrder, HandlesOk, DistinctIds;
      RoomForOne(handle.node);
      ghost var armed := heap.repr;
      MoreIds(armed, handle.node);
      heap.Insert(handle.node);
      Activate(handle, armed);
    }

    // uv_timer_again: a repeating timer is started again with its repeat value.
    method TimerAgain(handle: Timer) returns (r: Result)
      requires Valid() && Owns(handle) && timerCounter < MAX64 && |handles| <= 0xffff_ffff
      modifies this`timerCounter, handle`repeat, handle`hasCallback, handle`active, handle.node`key
      modifies heap`min, heap`nelts, heap`nodes, heap`repr
      modifies heap.repr`left, heap.repr`right, heap.repr`parent, handle.node`left,
               handle.node`right, handle.node`parent
      ensures Valid() && (r.EInval? <==> !old(handle.hasCallback)) && handle.repeat == old(handle.repeat)
      ensures handle.hasCallback == old(handle.hasCallback)
      ensures if !handle.hasCallback || handle.repeat == 0 then
                heap.repr == old(heap.repr) && handle.node.key == old(handle.node.key) &&
                    timerCounter == old(timerCounter)
              else if handle.closing then
                heap.repr == old(heap.repr) - {handle.node} && handle.node.key == old(handle.node.key) &&
                    timerCounter == old(timerCounter)
              else
                && heap.repr == old(heap.repr) + {handle.node} && timerCounter == old(timerCounter) + 1
                && handle.node.key == Key(Later(time, handle.repeat), old(timerCounter))
                && DueAfter(time, handle.repeat, handle.node.key.timeout)
    {
      hide Valid, Later, DueAfter;
      RepeatFits(handle);
      if !handle.hasCallback {
        return EInval;
      }
      if handle.repeat != 0 {
        TimerStop(handle);
        var _ := TimerStart(handle, handle.hasCallback, handle.repeat, handle.repeat);
      }
      return Ok;
    }

    // The root is the first timer in (timeout, start id) order.
    lemma LeastTimer()
      requires Valid()
      ensures heap.min == null <==> heap.repr == {}
      ensures heap.min != null ==> heap.min in heap.repr && heap.min in handles
      ensures forall n :: n in heap.repr && n != heap.min ==> TimerLessThan(heap.min.key, n.key)
    {
      hide Heap.Valid, HandlesOk, StrictOrder;
      heap.MinIsLeast();
      forall n | n in heap.repr && n != heap.min ensures TimerLessThan(heap.min.key, n.key) {
        assert !heap.less(n.key, heap.min.key);
      }
    }

    // uv__next_timeout: how long to wait for the next timer.
    method NextTimeout() returns (ms: int)
      requires Valid()
      ensures ms == -1 <==> heap.repr == {}
      ensures ms != -1 ==> exists n :: n in heap.repr && Waits(n.key.timeout, ms) &&
                             forall m :: m in heap.repr ==> n.key.timeout <= m.key.timeout
    {
      hide Valid;
      LeastTimer();
      var node := heap.min;
      if node == null {
        return -1;   // block indefinitely
      }
      if node.key.timeout <= time {
        return 0;
      }
      var diff := node.key.timeout - time;
      if diff > INT_MAX {
        diff := INT_MAX;
      }
      return diff;
    }

    // The time left until a timeout, as far as an int of 32 bits holds it.
    predicate Waits(timeout: nat, ms: int)
      reads this
    {
      if timeout > time + 2147483647 then ms == 2147483647 else ms == (if timeout > time then timeout - time else 0)
    }

    lemma RepeatFits(handle: Timer)
      requires Valid() && Owns(handle)
      ensures handle.repeat <= MAX64 && (handle.active ==> handle.hasCallback && !handle.closing)
    {
      hide Heap.Valid, DistinctIds;
      assert HandleOk(handle.node, heap.repr);
    }

    // One due timer: stopped, and started again if it repeats.
    method FireOne(handle: Timer)
      requires Valid() && Owns(handle) && handle.node in heap.repr && timerCounter < MAX64 && |handles| <= 0xffff_ffff
      modifies this`timerCounter, handle`repeat, handle`hasCallback, handle`active, handle.node`key
      modifies heap`min, heap`nelts, heap`nodes, heap`repr, heap.repr`left, heap.repr`right, heap.repr`parent
      ensures Valid() && handle.repeat == old(handle.repeat)
      ensures heap.repr == if handle.repeat > 0 then old(heap.repr) else old(heap.repr) - {handle.node}
      ensures if handle.repeat > 0 then
                handle.node.key == Key(Later(time, handle.repeat), old(timerCounter)) &&
                    DueAfter(time, handle.repeat, handle.node.key.timeout) && timerCounter == old(timerCounter) + 1
              else timerCounter == old(timerCounter) && handle.node.key == old(handle.node.key)
    {
      hide Valid, Later, DueAfter;
      InactiveIsOut(handle);
      RepeatFits(handle);
      TimerStop(handle);
      var _ := TimerAgain(handle);
    }

    // The keys and repeat values of the handles, as maps.
    ghost predicate KeysAre(now: map<Node<Key>, Key>)
      reads this, handles.Keys`key
    {
      now.Keys == handles.Keys && forall n :: n in handles ==> n.key == now[n]
    }

    ghost predicate RepeatsAre(repeats: map<Node<Key>, nat>)
      reads this, handles.Values`repeat
    {
      repeats.Keys == handles.Keys && forall n :: n in handles ==> handles[n].repeat == repeats[n]
    }

    lemma OwnerOf(n: Node<Key>)
      requires Valid() && n in handles
      ensures handles[n].node == n && handles[n] in handles.Values
    {
      hide Heap.Valid, DistinctIds;
      assert HandleOk(n, heap.repr);
    }

    // The first timer of the heap, when due, is one of those that were due at the start and did not go off yet.
    lemma MinIsNext(run: Run)
      requires Valid() && Running(run) && time < MAX64
      ensures heap.min != null && heap.min.key.timeout <= time ==>
                heap.min in handles && heap.min in heap.repr && NextDue(run, heap.min)
      ensures forall n :: n in heap.repr ==> n in handles
      ensures heap.min == null || heap.min.key.timeout > time ==> AllFired(run)
    {
      hide Valid, Later, InOrder;
      LeastTimer();
      forall n | n in run.armed && run.now[n].timeout <= time ensures n !in run.fired {
        if n in run.fired {
          var i :| 0 <= i < |run.fired| && run.fired[i] == n;
          assert FiredOk(run, n);
          LaterIsLater(time, run.repeats[n]);
        }
      }
    }

    method FireTracked(handle: Timer, ghost now: map<Node<Key>, Key>, ghost repeats: map<Node<Key>, nat>)
      requires Valid() && Owns(handle) && handle.node in heap.repr && timerCounter < MAX64 && |handles| <= 0xffff_ffff
      requires KeysAre(now) && RepeatsAre(repeats)
      modifies this`timerCounter, handle`repeat, handle`hasCallback, handle`active, handle.node`key
      modifies heap`min, heap`nelts, heap`nodes, heap`repr, heap.repr`left, heap.repr`right, heap.repr`parent
      ensures Valid() && KeysAre(now[handle.node := handle.node.key]) && RepeatsAre(repeats)
      ensures heap.repr == if handle.repeat > 0 then old(heap.repr) else old(heap.repr) - {handle.node}
      ensures if handle.repeat > 0 then
                handle.node.key == Key(Later(time, handle.repeat), old(timerCounter)) &&
                    timerCounter == old(timerCounter) + 1
              else timerCounter == old(timerCounter) && handle.node.key == old(handle.node.key)
    {
      hide Valid, Later, KeysAre, RepeatsAre, KeysExcept, RepeatsExcept;
      ExceptOne(handle, now, repeats);
      FireOne(handle);
      WithOne(handle, now, repeats);
    }

    ghost predicate KeysExcept(now: map<Node<Key>, Key>, n: Node<Key>)
      reads this, (handles.Keys - {n})`key
    {
      now.Keys == handles.Keys && forall m :: m in handles.Keys - {n} ==> m.key == now[m]
    }

    ghost predicate RepeatsExcept(repeats: map<Node<Key>, nat>, t: Timer)
      reads this, (handles.Values - {t})`repeat
    {
      repeats.Keys == handles.Keys && forall m :: m in handles && handles[m] != t ==> handles[m].repeat == repeats[m]
    }

    lemma ExceptOne(handle: Timer, now: map<Node<Key>, Key>, repeats: map<Node<Key>, nat>)
      requires Valid() && Owns(handle) && KeysAre(now) && RepeatsAre(repeats)
      ensures KeysExcept(now, handle.node) && RepeatsExcept(repeats, handle)
      ensures repeats[handle.node] == handle.repeat
      ensures forall m :: m in handles && handles[m] == handle ==> repeats[m] == handle.repeat
    {
    }

    lemma WithOne(handle: Timer, now: map<Node<Key>, Key>, repeats: map<Node<Key>, nat>)
      requires Owns(handle) && KeysExcept(now, handle.node) && RepeatsExcept(repeats, handle)
      requires forall m :: m in handles && handles[m] == handle ==> repeats[m] == handle.repeat
      ensures KeysAre(now[handle.node := handle.node.key]) && RepeatsAre(repeats)
    {
    }

    lemma ValueOf(handle: Timer, now: map<Node<Key>, Key>, repeats: map<Node<Key>, nat>)
      requires Owns(handle) && KeysAre(now) && RepeatsAre(repeats)
      ensures handle.node in now && handle.node in repeats
      ensures handle.node.key == now[handle.node] && handle.repeat == repeats[handle.node]
      ensures now[handle.node := handle.node.key] == now
    {
    }

    method FireNext(handle: Timer, ghost run: Run) returns (ghost next: Run)
      requires Valid() && Owns(handle) && Running(run) && time < MAX64
      requires timerCounter < MAX64 && |handles| <= 0xffff_ffff
      requires NextDue(run, handle.node) && handle.node in heap.repr
      modifies this`timerCounter, handle`repeat, handle`hasCallback, handle`active, handle.node`key
      modifies heap`min, heap`nelts, heap`nodes, heap`repr, heap.repr`left, heap.repr`right, heap.repr`parent
      ensures Valid() && Running(next)
      ensures next.fired == run.fired + [handle.node] && next.keys == run.keys
      ensures next.repeats == run.repeats && next.start == run.start
    {
      hide Valid, Later, RanOk, NextDue, KeysAre, RepeatsAre;
      RunStep(run, handle.node);
      ValueOf(handle, run.now, run.repeats);
      next := Fired(run, handle.node);
      FireTracked(handle, run.now, run.repeats);
      ValueOf(handle, run.now[handle.node := handle.node.key], run.repeats);
    }

    /** uv__run_timers: every timer that was due goes off exactly once, in (timeout, start id) order.  Afterwards the
        timers that were not due are as they were, and the repeating ones are armed past the loop's time, with start
        ids in the order in which they went off; no other timer is armed.
     */
    method RunTimers() returns (fired: seq<Timer>, ghost run: Run)
      requires Valid() && time < MAX64 && |handles| <= 0xffff_ffff && timerCounter + |heap.repr| <= MAX64
      modifies this`timerCounter, handles.Values`repeat, handles.Values`hasCallback,
               handles.Values`active, handles.Keys`key
      modifies heap`min, heap`nelts, heap`nodes, heap`repr, handles.Keys`left, handles.Keys`right, handles.Keys`parent
      ensures Valid() && Running(run) && AllFired(run) && run.start == old(timerCounter)
      ensures run.keys.Keys == old(heap.repr) && forall n :: n in run.keys ==> run.keys[n] == old(n.key)
      ensures run.fired == NodesOf(fired) && OwnsAll(fired)
      ensures forall n :: n in handles ==> handles[n].repeat == old(handles[n].repeat)
    {
      hide Valid, Running, AllFired, NextDue, OwnsAll, NodesOf;
      run := StartRun();
      fired := [];
      ghost var keys, repeats := run.keys, run.repeats;
      RepeatsOf(run);
      assert NodesOf(fired) == [] by { NoNodes(); }
      assert OwnsAll(fired) by { OwnsNone(); }
      while true
        invariant Valid() && Running(run) && run.keys == keys && run.start == old(timerCounter)
        invariant run.repeats == repeats
        invariant run.fired == NodesOf(fired) && OwnsAll(fired)
        decreases |keys.Keys| - |run.fired|
      {
        MinIsNext(run);
        var node := heap.min;
        if node == null {
          break;
        }
        if node.key.timeout > time {
          break;
        }
        OwnerOf(node);
        RoomFor(run, node);
        var handle := handles[node];
        run := FireNext(handle, run);
        OwnsMore(fired, handle);
        fired := fired + [handle];
      }
      RepeatsOf(run);
    }

    // The record of the run agrees with the loop.
    ghost predicate Running(run: Run)
      reads this, handles.Keys`key, handles.Values`repeat, heap`repr
    {
      && KeysAre(run.now) && RepeatsAre(run.repeats) && RanOk(run)
      && run.time == time && run.armed == heap.repr && run.counter == timerCounter
    }

    lemma RepeatsOf(run: Run)
      requires Running(run)
      ensures forall n :: n in handles ==> n in run.repeats && handles[n].repeat == run.repeats[n]
    {
      hide RanOk, KeysAre;
    }

    lemma RoomFor(run: Run, n: Node<Key>)
      requires Running(run) && NextDue(run, n)
      ensures |run.fired| < |run.keys.Keys| && timerCounter < run.start + |run.keys.Keys|
    {
      hide RanOk, NextDue;
      FiredFits(run, n);
    }

    ghost predicate OwnsAll(ts: seq<Timer>)
      reads this`handles
    {
      forall t :: t in ts ==> Owns(t)
    }

    lemma OwnsNone()
      ensures OwnsAll([])
    {
    }

    lemma OwnsMore(ts: seq<Timer>, t: Timer)
      requires OwnsAll(ts) && Owns(t)
      ensures OwnsAll(ts + [t]) && NodesOf(ts + [t]) == NodesOf(ts) + [t.node]
    {
      NodesOfMore(ts, t);
    }

    lemma StartRun() returns (run: Run)
      requires Valid()
      ensures Running(run) && run.start == timerCounter && run.fired == []
      ensures run.keys.Keys == heap.repr && forall n :: n in run.keys ==> run.keys[n] == n.key
    {
      hide Heap.Valid, DistinctIds, HandlesOk;
      var keys := map n | n in heap.repr :: n.key;
      var now := map n | n in handles :: n.key;
      var repeats := map n | n in handles :: handles[n].repeat;
      run := Run(time, keys, repeats, now, heap.repr, [], timerCounter, timerCounter);
    }

    lemma RoomForOne(n: Node<Key>)
      requires Valid() && n in handles && n !in heap.repr && |handles| <= 0xffff_ffff
      ensures heap.nelts < 0xffff_ffff
    {
      heap.MinIsLeast();
      SubsetSmaller(heap.repr, handles.Keys, n);
    }
  }

  lemma {:induction false} SubsetSmaller<T>(a: set<T>, b: set<T>, x: T)
    requires a <= b && x in b && x !in a
    ensures |a| < |b|
    decreases a
  {
    if a != {} {
      var y :| y in a;
      SubsetSmaller(a - {y}, b - {y}, x);
    }
  }
}
