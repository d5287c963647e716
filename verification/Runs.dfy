/** Short runs of the other state machines, from their initial states to a finished piece of work. */
module WriteQueueRun {
  import opened Entries
  import opened Wrappers
  import opened WriteQueue

  // A second writer arrives while the first makes room; one group serves both.
  lemma TwoWritersOneGroup(a: seq<Op>, b: seq<Op>) returns (states: seq<State>, actions: seq<Action>)
    ensures Run(states, actions) && |states| == 6
    ensures states[4].rounds == [Round([0, 1], Group(1, a + b), false, true)]
    ensures 1 in states[5].phase && states[5].phase[1] == Returned(true) && states[5].lastSequence == |a + b|
  {
    hide IsGroup, Merged, ArriveStep, WakeStep, LeadStep, FinishAloneStep, FinishGroupStep;
    var ra, rb := Request(Some(a), 10, false), Request(Some(b), 10, false);
    var g := Group(1, a + b);
    var s0 := State(map[], [], map[], map[], 0, [], [], 0);
    var s1 := State(map[0 := ra], [0], map[0 := MakingRoom], map[], 0, [0], [], 0);
    var s2 := State(map[0 := ra, 1 := rb], [0, 1], map[0 := MakingRoom, 1 := Asleep], map[], 0, [0, 1], [], 0);
    var s3 := s2.(phase := map[0 := InLog(2, g), 1 := Asleep]);
    var s4 := s2.(queue := [], phase := map[0 := Returned(true), 1 := Signalled], outcome := map[0 := true, 1 := true],
                  lastSequence := |g.ops|, rounds := [Round([0, 1], g, false, true)]);
    var s5 := s4.(phase := map[0 := Returned(true), 1 := Returned(true)]);
    states := [s0, s1, s2, s3, s4, s5];
    actions := [Arrive(0, ra), Arrive(1, rb), Lead(0), FinishGroup(0, true), Wake(1)];
    BothArrive(s0, s1, s2, ra, rb);
    Leads(s2, a, b, s3);
    Completes(s3, g, s4);
    Wakes(s4, s5);
  }

  lemma BothArrive(s0: State, s1: State, s2: State, a: Request, b: Request)
    requires Init(s0) && s0.base == 0
    requires s1 == State(map[0 := a], [0], map[0 := MakingRoom], map[], 0, [0], [], 0)
    requires s2 == State(map[0 := a, 1 := b], [0, 1], map[0 := MakingRoom, 1 := Asleep], map[], 0, [0, 1], [], 0)
    ensures ArriveStep(s0, 0, a, s1) && ArriveStep(s1, 1, b, s2)
  {
  }

  lemma Leads(s: State, a: seq<Op>, b: seq<Op>, s': State)
    requires s.queue == [0, 1] && s.phase == map[0 := MakingRoom, 1 := Asleep] && s.lastSequence == 0
    requires s.requests == map[0 := Request(Some(a), 10, false), 1 := Request(Some(b), 10, false)]
    requires s' == s.(phase := map[0 := InLog(2, Group(1, a + b)), 1 := Asleep])
    ensures LeadStep(s, 0, s')
  {
    var q := Requests(s, s.queue);
    assert q == [Request(Some(a), 10, false), Request(Some(b), 10, false)];
    assert GroupBytes(q, 1) == 10 && GroupBytes(q, 2) == 20;
    assert Merged(q, 1) == [] + a;
    assert IsGroup(q, 2) && Merged(q, 2) == a + b;
    assert s'.phase == s.phase[0 := InLog(2, Group(1, a + b))];
  }

  lemma Completes(s: State, g: Group, s': State)
    requires s.queue == [0, 1] && s.phase == map[0 := InLog(2, g), 1 := Asleep] && s.outcome == map[] && s.rounds == []
    requires 0 in s.requests && !s.requests[0].sync
    requires s' ==
             s.(queue := [], phase := map[0 := Returned(true), 1 := Signalled], outcome := map[0 := true, 1 := true],
                      lastSequence := s.lastSequence + |g.ops|, rounds := [Round([0, 1], g, false, true)])
    ensures FinishGroupStep(s, 0, true, s')
  {
    var r := Round([0, 1], g, false, true);
    assert s.queue[..2] == [0, 1] && s.queue[2..] == [];
    var t := Completed(s, 2, r);
    assert t.outcome == s'.outcome;
    assert t.phase == s'.phase;
    assert t.rounds == s'.rounds;
  }

  lemma Wakes(s: State, s': State)
    requires s.phase == map[0 := Returned(true), 1 := Signalled] && s.outcome == map[0 := true, 1 := true]
    requires s' == s.(phase := map[0 := Returned(true), 1 := Returned(true)])
    ensures WakeStep(s, 1, s')
  {
  }
}

module SkipListRun {
  import opened SkipList

  // A key is inserted and a search finds it.
  lemma InsertAndFind(key: int) returns (states: seq<State>, actions: seq<Action>)
    ensures Run(states, actions) && |states| == 7
    ensures states[4].writer.Idle? && |states[4].levels| == MAX_HEIGHT && states[4].levels[0] == [1]
    ensures |states[4].m.nodes| == 2 && states[4].m.nodes[1].key == key
    ensures states[6].readers == [Found(1)]
  {
    hide BeginInsertStep, RaiseHeightStep, AllocateStep, PointStep, PublishStep, LoadStep, ForgetStep;
    var heads, none: seq<nat> := seq(MAX_HEIGHT, i => HEAD), seq(MAX_HEIGHT, i => NULL);
    var empty: Levels := seq(MAX_HEIGHT, i => []);
    var s0 := State(Memory([Node(0, none)], 1), Idle, [], empty);
    var s1 := s0.(writer := Placing(key, 1, heads));
    var s2 := State(Memory([Node(0, none), Node(key, [NULL])], 1), Linking(1, heads, 0, false), [], empty);
    var s3 := s2.(writer := Linking(1, heads, 0, true));
    var s4 := State(Memory([Node(0, none[0 := 1]), Node(key, [NULL])], 1), Idle, [], empty[0 := [1]]);
    var s5 := s4.(readers := [Searching(AtLeast(key), HEAD, 0)]);
    var s6 := s4.(readers := [Found(1)]);
    states := [s0, s1, s2, s3, s4, s5, s6];
    actions := [BeginInsert(key, 1, heads), Allocate, PointNext, Publish, BeginSearch(AtLeast(key)), Load(0)];
    Begins(s0, key, heads, s1);
    Allocates(s1, s2);
    Points(s2, s3);
    Publishes(s3, s4);
    assert LoadStep(s5, 0, s6) by { Finds(s5, key, s6); }
  }

  lemma Begins(s: State, key: int, heads: seq<nat>, s': State)
    requires Init(s) && heads == seq(MAX_HEIGHT, i => HEAD) && s' == s.(writer := Placing(key, 1, heads))
    ensures BeginInsertStep(s, key, 1, heads, s')
  {
    assert Position(s.m, [], key, 0) && Before([], 0) == HEAD;
    assert s.levels[0] == [];
    assert IsPrev(s.m, s.levels[0], key, heads[0]);
  }

  lemma Allocates(s: State, s': State)
    requires s.writer.Placing? && s.writer.height == 1 && s.m.maxHeight == 1 && |s.m.nodes| == 1
    requires s' == s.(m := s.m.(nodes := [s.m.nodes[0], Node(s.writer.key, [NULL])]),
                      writer := Linking(1, s.writer.prev, 0, false))
    ensures AllocateStep(s, s')
  {
    assert seq(1, i => NULL) == [NULL];
    assert s.m.nodes == [s.m.nodes[0]];
  }

  lemma Points(s: State, s': State)
    requires s.writer.Linking? && s.writer.node == 1 && s.writer.level == 0 && !s.writer.pointed
    requires |s.writer.prev| > 0 && s.writer.prev[0] == HEAD
    requires |s.m.nodes| == 2 && |s.m.nodes[0].next| > 0 && s.m.nodes[0].next[0] == NULL && s.m.nodes[1].next == [NULL]
    requires s' == s.(writer := s.writer.(pointed := true))
    ensures PointStep(s, s')
  {
    var x := s.m.nodes[1];
    assert [NULL][0 := NULL] == [NULL];
    assert x.(next := x.next[0 := NULL]) == x;
    assert s.m.nodes[1 := x] == s.m.nodes;
    assert SetNext(s.m, 1, 0, NULL) == s.m;
  }

  lemma Publishes(s: State, s': State)
    requires s.writer == Linking(1, seq(MAX_HEIGHT, i => HEAD), 0, true)
    requires |s.levels| == MAX_HEIGHT && s.levels[0] == []
    requires |s.m.nodes| == 2 && |s.m.nodes[0].next| > 0 && |s.m.nodes[1].next| == 1
    requires s' == s.(writer := Idle, m := SetNext(s.m, HEAD, 0, 1), levels := s.levels[0 := [1]])
    ensures PublishStep(s, s')
  {
    assert Position(s.m, s.levels[0], s.m.nodes[1].key, 0) && Before([], 0) == HEAD;
    assert InsertAt([], 0, 1) == [1];
  }

  lemma Finds(s: State, key: int, s': State)
    requires s.readers == [Searching(AtLeast(key), HEAD, 0)] && |s.m.nodes| == 2 && s.m.nodes[1].key == key
    requires |s.m.nodes[0].next| > 0 && s.m.nodes[0].next[0] == 1
    requires s' == s.(readers := [Found(1)])
    ensures LoadStep(s, 0, s')
  {
  }
}

module ThreadPoolRun {
  import opened ThreadPool

  // One worker runs one request and the loop calls its done callback.
  lemma RunOneRequest() returns (states: seq<State>, actions: seq<Action>)
    ensures Run(states, actions) && |states| == 8
    ensures 0 in states[7].reqs && states[7].reqs[0].place.Finished? && states[7].reqs[0].runs == 1
    ensures states[7].reqs[0].doneCalls == [false]
  {
    hide SubmitStep, AcquireStep, IterateStep, SpuriousWakeStep, ExecuteStep, PublishStep, TryCancelStep,
      FinishCancelStep, CollectStep, CallDoneStep;
    var r := Request(Cpu, 0, Work, true, Queued, 0, false, []);
    var e := r.(linked := false, place := Executing(0));
    var q := e.(fn := Null, linked := true, place := AtLoop(0), runs := 1);
    var f := q.(place := Finished, doneCalls := [false]);
    var s0 := State([], [], 0, 0, [Returning(false)], map[], map[], map[], map[]);
    var s1 := s0.(wq := [Job(0)], reqs := map[0 := r]);
    var s2 := s1.(workers := [InLoop]);
    var s3 := s0.(workers := [Running(0, false, false)], reqs := map[0 := e]);
    var s4 := s0.(workers := [Running(0, false, true)], reqs := map[0 := e.(runs := 1)]);
    var s5 := s0.(reqs := map[0 := q], loopQueue := map[0 := [0]]);
    var s6 := s5.(loopQueue := map[0 := []], local := map[0 := [0]]);
    var s7 := s6.(local := map[0 := []], reqs := map[0 := f]);
    states := [s0, s1, s2, s3, s4, s5, s6, s7];
    actions := [Submit(0, Cpu, 0), Acquire(0), Iterate(0), Execute(0), Publish(0), Collect(0), CallDone(0)];
    assert SubmitStep(s0, 0, Cpu, 0, s1) && AcquireStep(s1, 0, s2) by { Accepts(s0, r, s1, s2); }
    assert IterateStep(s2, 0, s3) by { Starts(s2, r, s3); }
    assert ExecuteStep(s3, 0, s4) && PublishStep(s4, 0, s5) by { Works(s3, e, s4, s5); }
    assert CollectStep(s5, 0, s6) && CallDoneStep(s6, 0, s7) by { Finishes(s5, q, s6, s7); }
  }

  lemma Accepts(s: State, r: Request, s1: State, s2: State)
    requires s == State([], [], 0, 0, [Returning(false)], map[], map[], map[], map[])
    requires r == Request(Cpu, 0, Work, true, Queued, 0, false, [])
    requires s1 == s.(wq := [Job(0)], reqs := map[0 := r]) && s2 == s1.(workers := [InLoop])
    ensures SubmitStep(s, 0, Cpu, 0, s1) && AcquireStep(s1, 0, s2)
  {
    assert s.reqs[0 := r] == s1.reqs;
  }

  lemma Starts(s: State, r: Request, s': State)
    requires s.wq == [Job(0)] && s.workers == [InLoop] && s.reqs == map[0 := r]
    requires s' == s.(wq := [], workers := [Running(0, false, false)],
                      reqs := map[0 := r.(linked := false, place := Executing(0))])
    ensures IterateStep(s, 0, s')
  {
    assert s.wq[1..] == [];
    assert s.reqs[0 := r.(linked := false, place := Executing(0))] == s'.reqs;
  }

  lemma Works(s: State, r: Request, s1: State, s2: State)
    requires s.workers == [Running(0, false, false)] && s.reqs == map[0 := r] && s.loopQueue == map[]
    requires r.runs == 0 && r.loop == 0
    requires s1 == s.(workers := [Running(0, false, true)], reqs := map[0 := r.(runs := 1)])
    requires s2 == s.(workers := [Returning(false)], loopQueue := map[0 := [0]],
                      reqs := map[0 := r.(fn := Null, linked := true, place := AtLoop(0), runs := 1)])
    ensures ExecuteStep(s, 0, s1) && PublishStep(s1, 0, s2)
  {
    assert s.reqs[0 := r.(runs := 1)] == s1.reqs;
    assert s1.reqs[0 := r.(fn := Null, linked := true, place := AtLoop(0), runs := 1)] == s2.reqs;
    assert QueueOf(s1.loopQueue, 0) + [0] == [0];
    assert s1.loopQueue[0 := [0]] == s2.loopQueue;
  }

  lemma Finishes(s: State, r: Request, s1: State, s2: State)
    requires s.reqs == map[0 := r] && s.loopQueue == map[0 := [0]] && s.local == map[] && s.limbo == map[]
    requires r.doneCalls == [] && r.fn == Null
    requires s1 == s.(loopQueue := map[0 := []], local := map[0 := [0]])
    requires s2 == s1.(local := map[0 := []], reqs := map[0 := r.(place := Finished, doneCalls := [false])])
    ensures CollectStep(s, 0, s1) && CallDoneStep(s1, 0, s2)
  {
    assert s.local[0 := [0]] == s1.local && s.loopQueue[0 := []] == s1.loopQueue;
    assert [0][1..] == [];
    assert s1.local[0 := []] == s2.local;
    assert r.doneCalls + [false] == [false];
    assert s1.reqs[0 := r.(place := Finished, doneCalls := [false])] == s2.reqs;
  }

  // In a pool of three threads two slow requests are run at once.
  lemma TwoSlowRequests() returns (states: seq<State>, actions: seq<Action>)
    ensures Run(states, actions) && |states| == 7 && |states[6].workers| == 3
    ensures states[6].workers[0] == Running(0, true, false) && states[6].workers[1] == Running(1, true, false)
  {
    hide SubmitStep, AcquireStep, IterateStep, SpuriousWakeStep, ExecuteStep, PublishStep, TryCancelStep,
      FinishCancelStep, CollectStep, CallDoneStep;
    var r := Request(SlowIO, 0, Work, true, SlowPending, 0, false, []);
    var w := Returning(false);
    var s0 := State([], [], 0, 0, [w, w, w], map[], map[], map[], map[]);
    var s1 := s0.(wq := [SlowMessage], slowPending := [0], reqs := map[0 := r]);
    var s2 := s1.(slowPending := [0, 1], reqs := map[0 := r, 1 := r]);
    var s3 := s2.(workers := [InLoop, w, w]);
    var e0 := r.(linked := false, place := Executing(0));
    var s4 := s2.(workers := [Running(0, true, false), w, w], slowPending := [1], slowRunning := 1,
                  reqs := map[0 := e0, 1 := r]);
    var s5 := s4.(workers := [Running(0, true, false), InLoop, w]);
    var e1 := r.(linked := false, place := Executing(1));
    var s6 := s4.(workers := [Running(0, true, false), Running(1, true, false), w], wq := [], slowPending := [],
                  slowRunning := 2, reqs := map[0 := e0, 1 := e1]);
    states := [s0, s1, s2, s3, s4, s5, s6];
    actions := [Submit(0, SlowIO, 0), Submit(1, SlowIO, 0), Acquire(0), Iterate(0), Acquire(1), Iterate(1)];
    assert SubmitStep(s0, 0, SlowIO, 0, s1) && SubmitStep(s1, 1, SlowIO, 0, s2) by { SlowArrive(s0, r, s1, s2); }
    assert AcquireStep(s2, 0, s3) && AcquireStep(s4, 1, s5) by { Wake(s2, 0, s3); Wake(s4, 1, s5); }
    assert IterateStep(s3, 0, s4) by { StartsSlow(s3, r, s4); }
    assert IterateStep(s5, 1, s6) by { StartsLastSlow(s5, r, s6); }
  }

  lemma SlowArrive(s: State, r: Request, s1: State, s2: State)
    requires r == Request(SlowIO, 0, Work, true, SlowPending, 0, false, [])
    requires s ==
             State([], [], 0, 0, [Returning(false), Returning(false), Returning(false)], map[], map[], map[], map[])
    requires s1 == s.(wq := [SlowMessage], slowPending := [0], reqs := map[0 := r])
    requires s2 == s1.(slowPending := [0, 1], reqs := map[0 := r, 1 := r])
    ensures SubmitStep(s, 0, SlowIO, 0, s1) && SubmitStep(s1, 1, SlowIO, 0, s2)
  {
    assert s.reqs[0 := r] == s1.reqs && s1.reqs[1 := r] == s2.reqs;
    assert [0] + [1] == [0, 1];
  }

  lemma Wake(s: State, k: nat, s': State)
    requires k < |s.workers| == 3 && s.workers[k] == Returning(false) && MutexFree(s)
    requires s' == s.(workers := s.workers[k := InLoop])
    ensures AcquireStep(s, k, s')
  {
  }

  lemma StartsSlow(s: State, r: Request, s': State)
    requires s.wq == [SlowMessage] && s.slowPending == [0, 1] && s.slowRunning == 0 && s.idle == 0
    requires s.workers == [InLoop, Returning(false), Returning(false)] && s.reqs == map[0 := r, 1 := r]
    requires s' == s.(workers := [Running(0, true, false), Returning(false), Returning(false)], slowPending := [1],
                      slowRunning := 1, reqs := map[0 := r.(linked := false, place := Executing(0)), 1 := r])
    ensures IterateStep(s, 0, s')
  {
    assert s.slowPending[1..] == [1] && s.wq[1..] + [SlowMessage] == [SlowMessage];
    assert s.reqs[0 := r.(linked := false, place := Executing(0))] == s'.reqs;
  }

  lemma StartsLastSlow(s: State, r: Request, s': State)
    requires s.wq == [SlowMessage] && s.slowPending == [1] && s.slowRunning == 1 && 1 in s.reqs && s.reqs[1] == r
    requires s.workers == [Running(0, true, false), InLoop, Returning(false)]
    requires s' == s.(workers := [Running(0, true, false), Running(1, true, false), Returning(false)], wq := [],
                      slowPending := [], slowRunning := 2,
                      reqs := s.reqs[1 := r.(linked := false, place := Executing(1))])
    ensures IterateStep(s, 1, s')
  {
    assert s.slowPending[1..] == [] && s.wq[1..] == [];
  }
}
