/** The memtable's skip list: one writer, any number of readers that take no lock.

    Nodes live in an arena and are never freed, so a node is its arena index.  Index 0 is the head;
    no link ever leads back to it, so 0 also stands for a null link.  Keys are compared only through
    the comparator and are numbered in its order.
 */
module SkipList {
  import opened Wrappers

  const MAX_HEIGHT: nat := 12
  const HEAD: nat := 0
  const NULL: nat := 0

  datatype Node = Node(key: int, next: seq<nat>)

  datatype Memory = Memory(nodes: seq<Node>, maxHeight: nat)

  // A single pointer store.
  function SetNext(m: Memory, n: nat, level: nat, target: nat): Memory
    requires n < |m.nodes| && level < |m.nodes[n].next|
  {
    m.(nodes := m.nodes[n := m.nodes[n].(next := m.nodes[n].next[level := target])])
  }

  // The nodes linked on each level, in link order, without the head.
  type Levels = seq<seq<nat>>

  // The node before and at position j of a level; position |level| is the end.
  function Before(list: seq<nat>, j: nat): nat
    requires j <= |list|
  {
    if j == 0 then HEAD else list[j-1]
  }

  function Here(list: seq<nat>, j: nat): nat
    requires j <= |list|
  {
    if j == |list| then NULL else list[j]
  }

  // The links of one level spell out its list.
  ghost predicate Linked(m: Memory, level: nat, list: seq<nat>) {
    && (forall j :: 0 <= j < |list| ==> HEAD < list[j] < |m.nodes| && level < |m.nodes[list[j]].next|)
    && (forall j :: 0 <= j <= |list| ==>
          var n := Before(list, j);
          n < |m.nodes| && level < |m.nodes[n].next| && m.nodes[n].next[level] == Here(list, j))
  }

  ghost predicate Ascending(m: Memory, list: seq<nat>) {
    && (forall j :: 0 <= j < |list| ==> list[j] < |m.nodes|)
    && (forall i, j :: 0 <= i < j < |list| ==> m.nodes[list[i]].key < m.nodes[list[j]].key)
  }

  ghost predicate Contained(levels: Levels, l: nat)
    requires 0 < l < |levels|
  {
    forall n :: n in levels[l] ==> n in levels[l-1]
  }

  // Every level is sorted and contained in the level below.
  ghost predicate Shape(m: Memory, levels: Levels) {
    && m.nodes != [] && |m.nodes[HEAD].next| == MAX_HEIGHT
    && 1 <= m.maxHeight <= MAX_HEIGHT && |levels| == MAX_HEIGHT
    && (forall l :: 0 <= l < MAX_HEIGHT ==> Linked(m, l, levels[l]) && Ascending(m, levels[l]))
    && (forall l :: 0 < l < MAX_HEIGHT ==> Contained(levels, l))
    && (forall l :: m.maxHeight <= l < MAX_HEIGHT ==> levels[l] == [])
  }

  // Where a key belongs in a level: all keys before are smaller, none from there on is.
  ghost predicate Position(m: Memory, list: seq<nat>, key: int, j: nat) {
    && j <= |list| && (forall i :: 0 <= i < |list| ==> list[i] < |m.nodes|)
    && (forall i :: 0 <= i < j ==> m.nodes[list[i]].key < key)
    && (forall i :: j <= i < |list| ==> m.nodes[list[i]].key >= key)
  }

  ghost predicate Absent(m: Memory, list: seq<nat>, key: int) {
    forall n :: n in list && n < |m.nodes| ==> m.nodes[n].key != key
  }

  // No node is lost, and none changes its key.
  ghost predicate KeysStay(m: Memory, after: Memory) {
    && |m.nodes| <= |after.nodes|
    && forall n :: 0 <= n < |m.nodes| ==> after.nodes[n].key == m.nodes[n].key
  }

  // ------------------------------------------------------------------ pointer stores

  function InsertAt(list: seq<nat>, j: nat, n: nat): seq<nat>
    requires j <= |list|
  {
    list[..j] + [n] + list[j..]
  }

  // Preparing the link of a node that is not on the level is invisible.
  lemma PointKeeps(m: Memory, levels: Levels, n: nat, level: nat, target: nat)
    requires Shape(m, levels) && HEAD < n < |m.nodes| && level < |m.nodes[n].next| && level < MAX_HEIGHT
    requires n !in levels[level]
    ensures Shape(SetNext(m, n, level, target), levels)
  {
    var m' := SetNext(m, n, level, target);
    forall l | 0 <= l < MAX_HEIGHT ensures Linked(m', l, levels[l]) && Ascending(m', levels[l]) {
      assert Linked(m, l, levels[l]) && Ascending(m, levels[l]);
    }
  }

  // Publishing a prepared node inserts it into exactly one level.
  lemma PublishLinks(m: Memory, level: nat, list: seq<nat>, j: nat, n: nat)
    requires Linked(m, level, list) && j <= |list| && HEAD < n < |m.nodes| && level < |m.nodes[n].next|
    requires n !in list && m.nodes[n].next[level] == Here(list, j)
    requires forall i, k :: 0 <= i < k < |list| ==> list[i] != list[k]
    ensures Linked(SetNext(m, Before(list, j), level, n), level, InsertAt(list, j, n))
  {
    var p := Before(list, j);
    assert p < |m.nodes| && level < |m.nodes[p].next|;
    var m', list' := SetNext(m, p, level, n), InsertAt(list, j, n);
    forall k | 0 <= k <= |list'|
      ensures var b := Before(list', k);
              b < |m'.nodes| && level < |m'.nodes[b].next| && m'.nodes[b].next[level] == Here(list', k)
    {
      if k < j {
        assert Before(list', k) == Before(list, k) && Here(list', k) == Here(list, k);
      } else if k > j {
        assert k == j + 1 || Before(list', k) == Before(list, k - 1);
        assert Here(list', k) == Here(list, k - 1);
      }
    }
  }

  lemma PublishSorted(m: Memory, list: seq<nat>, j: nat, n: nat)
    requires Ascending(m, list) && n < |m.nodes| && Position(m, list, m.nodes[n].key, j)
    requires Absent(m, list, m.nodes[n].key)
    ensures Ascending(m, InsertAt(list, j, n))
  {
  }

  lemma OtherLevelLinked(m: Memory, l: nat, list: seq<nat>, n: nat, level: nat, target: nat)
    requires Linked(m, l, list) && Ascending(m, list) && l != level
    requires n < |m.nodes| && level < |m.nodes[n].next|
    ensures Linked(SetNext(m, n, level, target), l, list) && Ascending(SetNext(m, n, level, target), list)
  {
  }

  lemma PublishKeeps(m: Memory, levels: Levels, level: nat, j: nat, n: nat)
    requires Shape(m, levels) && level < m.maxHeight && j <= |levels[level]|
    requires HEAD < n < |m.nodes| && level < |m.nodes[n].next|
    requires Position(m, levels[level], m.nodes[n].key, j) && Absent(m, levels[level], m.nodes[n].key)
    requires m.nodes[n].next[level] == Here(levels[level], j)
    requires level > 0 ==> n in levels[level-1]
    ensures var p := Before(levels[level], j);
      && p < |m.nodes| && level < |m.nodes[p].next|
      && Shape(SetNext(m, p, level, n), levels[level := InsertAt(levels[level], j, n)])
  {
    var list := levels[level];
    assert Linked(m, level, list) && Ascending(m, list);
    var p := Before(list, j);
    assert p < |m.nodes| && level < |m.nodes[p].next|;
    var m', levels' := SetNext(m, p, level, n), levels[level := InsertAt(list, j, n)];
    PublishLinks(m, level, list, j, n);
    PublishSorted(m, list, j, n);
    assert forall i :: 0 <= i < |m.nodes| ==> m'.nodes[i].key == m.nodes[i].key;
    forall l | 0 <= l < MAX_HEIGHT ensures Linked(m', l, levels'[l]) && Ascending(m', levels'[l]) {
      if l != level {
        OtherLevelLinked(m, l, levels[l], p, level, n);
      }
    }
    hide Linked, Ascending, Position;
    PublishContained(levels, level, j, n, levels');
  }

  lemma PublishContained(levels: Levels, level: nat, j: nat, n: nat, levels': Levels)
    requires |levels| == MAX_HEIGHT && level < MAX_HEIGHT && j <= |levels[level]|
    requires forall l :: 0 < l < MAX_HEIGHT ==> Contained(levels, l)
    requires level > 0 ==> n in levels[level-1]
    requires levels' == levels[level := InsertAt(levels[level], j, n)]
    ensures forall l :: 0 < l < MAX_HEIGHT ==> Contained(levels', l)
  {
    InsertAtMembers(levels[level], j, n);
    hide InsertAt;
    forall l | 0 < l < MAX_HEIGHT ensures Contained(levels', l) {
      assert Contained(levels, l);
    }
  }

  lemma InsertAtMembers(list: seq<nat>, j: nat, n: nat)
    requires j <= |list|
    ensures forall x :: x in InsertAt(list, j, n) ==> x in list || x == n
    ensures n in InsertAt(list, j, n) && forall x :: x in list ==> x in InsertAt(list, j, n)
  {
    assert list == list[..j] + list[j..];
  }

  // ------------------------------------------------------------------ one writer

  datatype Writer =
    | Idle
    | Placing(key: int, height: nat, prev: seq<nat>)              // FindGreaterOrEqual has filled prev
    | Linking(node: nat, prev: seq<nat>, level: nat, pointed: bool)

  // A search in progress: the node it stands on and the level it reads next.
  datatype Search = AtLeast(target: int) | LessThan(target: int) | Last

  datatype Reader =
    | Searching(search: Search, x: nat, level: nat)
    | Found(result: nat)

  datatype State = State(m: Memory, writer: Writer, readers: seq<Reader>, levels: Levels)

  ghost predicate Init(s: State) {
    s == State(Memory([Node(0, seq(MAX_HEIGHT, i => NULL))], 1), Idle, [], seq(MAX_HEIGHT, i => []))
  }

  // What FindGreaterOrEqual leaves in prev[l]: the last node of the level with a smaller key.
  ghost predicate IsPrev(m: Memory, list: seq<nat>, key: int, p: nat) {
    exists j :: Position(m, list, key, j) && p == Before(list, j)
  }

  datatype Action =
    | BeginInsert(key: int, height: nat, prev: seq<nat>)
    | RaiseHeight
    | Allocate
    | PointNext
    | Publish
    | BeginSearch(search: Search)
    | Load(reader: nat)
    | Forget(reader: nat)

  ghost predicate BeginInsertStep(s: State, key: int, height: nat, prev: seq<nat>, s': State)
    requires |s.levels| == MAX_HEIGHT
  {
    && s.writer.Idle? && 1 <= height <= MAX_HEIGHT && |prev| == MAX_HEIGHT && Absent(s.m, s.levels[0], key)
    && (forall l ::
        0 <= l < MAX_HEIGHT ==> if l < s.m.maxHeight then IsPrev(s.m, s.levels[l], key, prev[l]) else prev[l] == HEAD)
    && s' == s.(writer := Placing(key, height, prev))
  }

  ghost predicate RaiseHeightStep(s: State, s': State) {
    && s.writer.Placing? && s.writer.height > s.m.maxHeight
    && s' == s.(m := s.m.(maxHeight := s.writer.height))
  }

  ghost predicate AllocateStep(s: State, s': State) {
    && s.writer.Placing? && s.writer.height <= s.m.maxHeight
    && s' == s.(m := s.m.(nodes := s.m.nodes + [Node(s.writer.key, seq(s.writer.height, i => NULL))]),
                writer := Linking(|s.m.nodes|, s.writer.prev, 0, false))
  }

  // x->next[level] := prev[level]->next[level]
  ghost predicate PointStep(s: State, s': State) {
    && s.writer.Linking? && !s.writer.pointed
    && var n, l := s.writer.node, s.writer.level;
    && n < |s.m.nodes| && l < |s.m.nodes[n].next| && l < |s.writer.prev|
    && var p := s.writer.prev[l];
    && p < |s.m.nodes| && l < |s.m.nodes[p].next|
    && s' == s.(m := SetNext(s.m, n, l, s.m.nodes[p].next[l]), writer := s.writer.(pointed := true))
  }

  // prev[level]->next[level] := x, which adds x to the list of that level
  ghost predicate PublishStep(s: State, s': State) {
    && s.writer.Linking? && s.writer.pointed && |s.levels| == MAX_HEIGHT
    && var n, l := s.writer.node, s.writer.level;
    && n < |s.m.nodes| && l < |s.m.nodes[n].next| && l < |s.writer.prev| && l < MAX_HEIGHT
    && var p := s.writer.prev[l];
    && p < |s.m.nodes| && l < |s.m.nodes[p].next|
    && exists j :: Position(s.m, s.levels[l], s.m.nodes[n].key, j) && p == Before(s.levels[l], j) &&
         s' == s.(m := SetNext(s.m, p, l, n), levels := s.levels[l := InsertAt(s.levels[l], j, n)],
                  writer := if l + 1 < |s.m.nodes[n].next| then Linking(n, s.writer.prev, l + 1, false) else Idle)
  }

  // ------------------------------------------------------------------ readers

  // Does the search move on to the node it has just loaded?
  function MovesOn(m: Memory, search: Search, next: nat): bool
    requires next < |m.nodes|
  {
    next != NULL && (search.Last? || m.nodes[next].key < search.target)
  }

  // One load of x->Next(level), and what the search does with it.
  function AfterLoad(m: Memory, r: Reader): Reader
    requires r.Searching? && r.x < |m.nodes| && r.level < |m.nodes[r.x].next|
    requires m.nodes[r.x].next[r.level] < |m.nodes|
  {
    var next := m.nodes[r.x].next[r.level];
    if MovesOn(m, r.search, next) then r.(x := next)
    else if r.level > 0 then r.(level := r.level - 1)
    else Found(if r.search.AtLeast? then next else r.x)
  }

  ghost predicate CanLoad(m: Memory, r: Reader) {
    r.Searching? && r.x < |m.nodes| && r.level < |m.nodes[r.x].next| && m.nodes[r.x].next[r.level] < |m.nodes|
  }

  ghost predicate LoadStep(s: State, i: nat, s': State) {
    && i < |s.readers| && CanLoad(s.m, s.readers[i])
    && s' == s.(readers := s.readers[i := AfterLoad(s.m, s.readers[i])])
  }

  ghost predicate BeginSearchStep(s: State, search: Search, s': State) {
    && s.m.maxHeight > 0
    && s' == s.(readers := s.readers + [Searching(search, HEAD, s.m.maxHeight - 1)])
  }

  ghost predicate ForgetStep(s: State, i: nat, s': State) {
    i < |s.readers| && s' == s.(readers := s.readers[..i] + s.readers[i+1..])
  }

  ghost predicate Step(s: State, a: Action, s': State) {
    match a
    case BeginInsert(key, height, prev) => |s.levels| == MAX_HEIGHT && BeginInsertStep(s, key, height, prev, s')
    case RaiseHeight => RaiseHeightStep(s, s')
    case Allocate => AllocateStep(s, s')
    case PointNext => PointStep(s, s')
    case Publish => PublishStep(s, s')
    case BeginSearch(search) => BeginSearchStep(s, search, s')
    case Load(i) => LoadStep(s, i, s')
    case Forget(i) => ForgetStep(s, i, s')
  }

  ghost predicate Run(states: seq<State>, actions: seq<Action>) {
    && |states| == |actions| + 1 && Init(states[0])
    && forall i :: 0 <= i < |actions| ==> Step(states[i], actions[i], states[i+1])
  }

  // ------------------------------------------------------------------ the invariant

  // The writer's remaining prev pointers still stand where the new node belongs.
  ghost predicate PrevsOk(s: State, key: int, prev: seq<nat>, from: nat, height: nat)
    requires |s.levels| == MAX_HEIGHT
  {
    && |prev| == MAX_HEIGHT && height <= MAX_HEIGHT
    && forall l :: from <= l < height ==> IsPrev(s.m, s.levels[l], key, prev[l]) && Absent(s.m, s.levels[l], key)
  }

  ghost predicate WriterOk(s: State)
    requires |s.levels| == MAX_HEIGHT
  {
    match s.writer
    case Idle => true
    case Placing(key, height, prev) => 1 <= height && PrevsOk(s, key, prev, 0, height)
    case Linking(n, prev, level, pointed) =>
      && HEAD < n < |s.m.nodes| && level < |s.m.nodes[n].next| <= s.m.maxHeight <= MAX_HEIGHT
      && PrevsOk(s, s.m.nodes[n].key, prev, level, |s.m.nodes[n].next|)
      && (level > 0 ==> n in s.levels[level-1])
      && (forall l :: level <= l < MAX_HEIGHT ==> n !in s.levels[l])
      && (pointed ==> prev[level] < |s.m.nodes| && level < |s.m.nodes[prev[level]].next|
                      && s.m.nodes[n].next[level] == s.m.nodes[prev[level]].next[level])
  }

  // A search stands on the head, or on a node of the level it reads that it was right to pass.
  ghost predicate ReaderOk(m: Memory, levels: Levels, r: Reader)
    requires |levels| == MAX_HEIGHT
  {
    r.Searching? ==>
      && r.level < MAX_HEIGHT
      && (r.x == HEAD ||
          (r.x in levels[r.level] && r.x < |m.nodes| && (r.search.Last? || m.nodes[r.x].key < r.search.target)))
  }

  ghost predicate Inv(s: State) {
    && Shape(s.m, s.levels) && WriterOk(s)
    && forall r :: r in s.readers ==> ReaderOk(s.m, s.levels, r)
  }

  // ------------------------------------------------------------------ writer steps

  lemma BeginInsertKeeps(s: State, key: int, height: nat, prev: seq<nat>, s': State)
    requires Inv(s) && BeginInsertStep(s, key, height, prev, s')
    ensures Inv(s')
  {
    hide Linked, Ascending;
    forall l | 0 <= l < height
      ensures IsPrev(s.m, s.levels[l], key, prev[l]) && Absent(s.m, s.levels[l], key)
    {
      LevelBelow(s.levels, l, 0);
      if l >= s.m.maxHeight {
        assert Position(s.m, s.levels[l], key, 0) && prev[l] == Before(s.levels[l], 0);
      }
    }
  }

  // Higher levels are contained in lower ones.
  lemma {:induction false} LevelBelow(levels: Levels, l: nat, k: nat)
    requires |levels| == MAX_HEIGHT && k <= l < MAX_HEIGHT
    requires forall i :: 0 < i < MAX_HEIGHT ==> Contained(levels, i)
    ensures forall n :: n in levels[l] ==> n in levels[k]
  {
    if k < l {
      assert Contained(levels, l);
      LevelBelow(levels, l - 1, k);
    }
  }

  lemma RaiseHeightKeeps(s: State, s': State)
    requires Inv(s) && RaiseHeightStep(s, s')
    ensures Inv(s')
  {
    assert forall l :: 0 <= l < MAX_HEIGHT ==> Linked(s'.m, l, s.levels[l]) && Ascending(s'.m, s.levels[l]);
    SameNodes(s, s');
    hide Linked, Ascending, IsPrev, Absent;
  }

  // Nothing that the invariant says about keys depends on more than the nodes already there.
  lemma SameNodes(s: State, s': State)
    requires Inv(s) && s'.levels == s.levels && |s.m.nodes| <= |s'.m.nodes|
    requires forall n :: 0 <= n < |s.m.nodes| ==> s'.m.nodes[n].key == s.m.nodes[n].key
    ensures forall l, key, p ::
              0 <= l < MAX_HEIGHT && IsPrev(s.m, s.levels[l], key, p) ==> IsPrev(s'.m, s.levels[l], key, p)
    ensures forall l, key :: 0 <= l < MAX_HEIGHT && Absent(s.m, s.levels[l], key) ==> Absent(s'.m, s.levels[l], key)
    ensures forall r :: ReaderOk(s.m, s.levels, r) ==> ReaderOk(s'.m, s.levels, r)
  {
    forall l, key, p | 0 <= l < MAX_HEIGHT && IsPrev(s.m, s.levels[l], key, p)
      ensures IsPrev(s'.m, s.levels[l], key, p)
    {
      var j :| Position(s.m, s.levels[l], key, j) && p == Before(s.levels[l], j);
      assert Position(s'.m, s.levels[l], key, j);
    }
    forall l, key | 0 <= l < MAX_HEIGHT && Absent(s.m, s.levels[l], key)
      ensures Absent(s'.m, s.levels[l], key)
    {
      assert Linked(s.m, l, s.levels[l]);
      hide ReaderOk;
    }
  }

  lemma AllocateShape(m: Memory, m': Memory, levels: Levels, node: Node)
    requires Shape(m, levels) && m' == m.(nodes := m.nodes + [node])
    ensures Shape(m', levels) && forall l :: 0 <= l < MAX_HEIGHT ==> |m.nodes| !in levels[l]
  {
    forall l | 0 <= l < MAX_HEIGHT ensures Linked(m', l, levels[l]) && Ascending(m', levels[l]) {
      assert Linked(m, l, levels[l]) && Ascending(m, levels[l]);
    }
    forall l | 0 <= l < MAX_HEIGHT ensures |m.nodes| !in levels[l] {
      assert Linked(m, l, levels[l]);
    }
  }

  lemma AllocateKeeps(s: State, s': State)
    requires Inv(s) && AllocateStep(s, s')
    ensures Inv(s')
  {
    AllocateShape(s.m, s'.m, s.levels, s'.m.nodes[|s.m.nodes|]);
    SameNodes(s, s');
    hide Linked, Ascending, IsPrev, Absent, ReaderOk;
  }

  lemma PointKeepsInv(s: State, s': State)
    requires Inv(s) && PointStep(s, s')
    ensures Inv(s')
  {
    var n, l := s.writer.node, s.writer.level;
    PointKeeps(s.m, s.levels, n, l, s.m.nodes[s.writer.prev[l]].next[l]);
    SameNodes(s, s');
    hide Linked, Ascending, IsPrev, Absent, ReaderOk;
  }

  // Where a search stands, the next link leads to the next node of that level.
  lemma Successor(m: Memory, levels: Levels, level: nat, x: nat) returns (j: nat)
    requires Shape(m, levels) && level < MAX_HEIGHT && (x == HEAD || x in levels[level])
    ensures j <= |levels[level]| && x == Before(levels[level], j)
    ensures x < |m.nodes| && level < |m.nodes[x].next| && m.nodes[x].next[level] == Here(levels[level], j) < |m.nodes|
  {
    var list := levels[level];
    assert Linked(m, level, list);
    if x == HEAD {
      j := 0;
    } else {
      var i :| 0 <= i < |list| && list[i] == x;
      j := i + 1;
    }
    assert x == Before(list, j);
  }

  lemma PublishWriter(s: State, s': State, l: nat, j: nat)
    requires Shape(s.m, s.levels) && WriterOk(s) && s.writer.Linking? && l == s.writer.level < MAX_HEIGHT
    requires j <= |s.levels[l]| && s'.levels == s.levels[l := InsertAt(s.levels[l], j, s.writer.node)]
    requires s'.m.maxHeight == s.m.maxHeight && |s'.m.nodes| == |s.m.nodes|
    requires forall n :: 0 <= n < |s.m.nodes| ==> s'.m.nodes[n].key == s.m.nodes[n].key
    requires forall n :: 0 <= n < |s.m.nodes| ==> |s'.m.nodes[n].next| == |s.m.nodes[n].next|
    requires s'.writer == if l + 1 < |s.m.nodes[s.writer.node].next|
             then Linking(s.writer.node, s.writer.prev, l + 1, false) else Idle
    ensures WriterOk(s')
  {
    var n, prev := s.writer.node, s.writer.prev;
    InsertAtMembers(s.levels[l], j, n);
    forall k | l < k < |s.m.nodes[n].next|
      ensures IsPrev(s'.m, s'.levels[k], s.m.nodes[n].key, prev[k]) && Absent(s'.m, s'.levels[k], s.m.nodes[n].key)
    {
      SameKeys(s.m, s'.m, s.levels[k], s.m.nodes[n].key, prev[k]);
    }
    hide IsPrev, Absent, Linked, Ascending, InsertAt, Shape;
  }

  lemma SameKeys(m: Memory, m': Memory, list: seq<nat>, key: int, p: nat)
    requires |m'.nodes| == |m.nodes| && forall n :: 0 <= n < |m.nodes| ==> m'.nodes[n].key == m.nodes[n].key
    ensures IsPrev(m, list, key, p) ==> IsPrev(m', list, key, p)
    ensures Absent(m, list, key) ==> Absent(m', list, key)
  {
    if IsPrev(m, list, key, p) {
      var i :| Position(m, list, key, i) && p == Before(list, i);
      assert Position(m', list, key, i);
    }
  }

  lemma PublishReader(m: Memory, m': Memory, levels: Levels, l: nat, j: nat, n: nat, r: Reader)
    requires |levels| == MAX_HEIGHT && l < MAX_HEIGHT && j <= |levels[l]| && |m'.nodes| == |m.nodes|
    requires forall i :: 0 <= i < |m.nodes| ==> m'.nodes[i].key == m.nodes[i].key
    requires ReaderOk(m, levels, r)
    ensures ReaderOk(m', levels[l := InsertAt(levels[l], j, n)], r)
  {
    InsertAtMembers(levels[l], j, n);
  }

  // The store of a publishing step, and where it inserts.
  lemma PublishPosition(s: State, s': State) returns (j: nat)
    requires Shape(s.m, s.levels) && PublishStep(s, s')
    ensures var n, l := s.writer.node, s.writer.level;
      && j <= |s.levels[l]| && Position(s.m, s.levels[l], s.m.nodes[n].key, j)
      && Before(s.levels[l], j) == s.writer.prev[l]
      && s.m.nodes[s.writer.prev[l]].next[l] == Here(s.levels[l], j)
      && s'.m == SetNext(s.m, s.writer.prev[l], l, n) && s'.levels == s.levels[l := InsertAt(s.levels[l], j, n)]
      && s'.readers == s.readers
      && s'.writer == if l + 1 < |s.m.nodes[n].next| then Linking(n, s.writer.prev, l + 1, false) else Idle
  {
    var n, l := s.writer.node, s.writer.level;
    assert Linked(s.m, l, s.levels[l]);
    hide Ascending, Contained;
    j :| Position(s.m, s.levels[l], s.m.nodes[n].key, j) && s.writer.prev[l] == Before(s.levels[l], j) &&
      s' == s.(m := SetNext(s.m, s.writer.prev[l], l, n), levels := s.levels[l := InsertAt(s.levels[l], j, n)],
               writer := if l + 1 < |s.m.nodes[n].next| then Linking(n, s.writer.prev, l + 1, false) else Idle);
  }

  lemma PublishKeepsInv(s: State, s': State)
    requires Inv(s) && PublishStep(s, s')
    ensures Inv(s')
  {
    var n, l := s.writer.node, s.writer.level;
    var j := PublishPosition(s, s');
    hide PublishStep, Linked, Ascending, Position, InsertAt, Contained, ReaderOk;
    PublishKeeps(s.m, s.levels, l, j, n);
    PublishWriter(s, s', l, j);
    hide WriterOk, Shape, Absent;
    forall r | r in s.readers ensures ReaderOk(s'.m, s'.levels, r) {
      PublishReader(s.m, s'.m, s.levels, l, j, n, r);
    }
  }

  // ------------------------------------------------------------------ readers

  lemma LoadKeeps(s: State, i: nat, s': State)
    requires Inv(s) && LoadStep(s, i, s')
    ensures Inv(s')
  {
    var r := s.readers[i];
    assert ReaderOk(s.m, s.levels, r);
    var j := Successor(s.m, s.levels, r.level, r.x);
    var next := s.m.nodes[r.x].next[r.level];
    assert r.level > 0 ==> Contained(s.levels, r.level);
    hide Linked, Ascending, IsPrev, Absent;
    assert ReaderOk(s.m, s.levels, s'.readers[i]);
    hide Shape;
    assert WriterOk(s');
    hide WriterOk, ReaderOk;
  }

  lemma BeginSearchKeeps(s: State, search: Search, s': State)
    requires Inv(s) && BeginSearchStep(s, search, s')
    ensures Inv(s')
  {
    hide Linked, Ascending, IsPrev, Absent;
  }

  lemma ForgetKeeps(s: State, i: nat, s': State)
    requires Inv(s) && ForgetStep(s, i, s')
    ensures Inv(s')
  {
    hide Linked, Ascending, IsPrev, Absent;
  }

  lemma StepKeeps(s: State, a: Action, s': State)
    requires Inv(s) && Step(s, a, s')
    ensures Inv(s')
  {
    hide Inv, BeginInsertStep, RaiseHeightStep, AllocateStep, PointStep, PublishStep, BeginSearchStep, LoadStep,
      ForgetStep;
    match a
    case BeginInsert(key, height, prev) => BeginInsertKeeps(s, key, height, prev, s');
    case RaiseHeight => RaiseHeightKeeps(s, s');
    case Allocate => AllocateKeeps(s, s');
    case PointNext => PointKeepsInv(s, s');
    case Publish => PublishKeepsInv(s, s');
    case BeginSearch(search) => BeginSearchKeeps(s, search, s');
    case Load(i) => LoadKeeps(s, i, s');
    case Forget(i) => ForgetKeeps(s, i, s');
  }

  lemma InitInv(s: State)
    requires Init(s)
    ensures Inv(s)
  {
    forall l | 0 <= l < MAX_HEIGHT ensures Linked(s.m, l, s.levels[l]) && Ascending(s.m, s.levels[l]) {
      assert s.levels[l] == [];
    }
  }

  lemma {:induction false} RunInv(states: seq<State>, actions: seq<Action>, n: nat)
    requires Run(states, actions) && n < |states|
    ensures Inv(states[n])
  {
    hide Inv, Step;
    if n == 0 {
      InitInv(states[0]);
    } else {
      RunInv(states, actions, n - 1);
      StepKeeps(states[n-1], actions[n-1], states[n]);
    }
  }

  // ------------------------------------------------------------------ theorems

  // The right answer of a search on a sorted list.
  ghost predicate Answers(m: Memory, list: seq<nat>, search: Search, result: nat) {
    match search
    case AtLeast(target) => exists j :: Position(m, list, target, j) && result == Here(list, j)
    case LessThan(target) => exists j :: Position(m, list, target, j) && result == Before(list, j)
    case Last => result == Before(list, |list|)
  }

  /** Reads are linearizable: whatever stores of a concurrent Insert happen in between, a search
      that ends answers correctly for the level-0 list as it was at the search's last load.
   */
  lemma SearchesAreLinearizable(states: seq<State>, actions: seq<Action>, n: nat, i: nat)
    requires Run(states, actions) && n < |actions| && actions[n] == Load(i)
    requires i < |states[n].readers| && i < |states[n+1].readers| && states[n+1].readers[i].Found?
    ensures states[n].readers[i].Searching? && |states[n].levels| == MAX_HEIGHT
    ensures Answers(states[n].m, states[n].levels[0], states[n].readers[i].search, states[n+1].readers[i].result)
  {
    RunInv(states, actions, n);
    var s := states[n];
    assert Step(s, actions[n], states[n+1]);
    hide Run, WriterOk;
    LastLoad(s, s.readers[i]);
  }

  lemma LastLoad(s: State, r: Reader)
    requires Shape(s.m, s.levels) && ReaderOk(s.m, s.levels, r) && CanLoad(s.m, r) && AfterLoad(s.m, r).Found?
    ensures Answers(s.m, s.levels[0], r.search, AfterLoad(s.m, r).result)
  {
    var j := Successor(s.m, s.levels, 0, r.x);
    assert Ascending(s.m, s.levels[0]);
    hide Linked, Shape;
    if Here(s.levels[0], j) == NULL {
      NullIsEnd(s, j);
    }
    if !r.search.Last? {
      assert Position(s.m, s.levels[0], r.search.target, j);
    }
  }

  lemma NullIsEnd(s: State, j: nat)
    requires Shape(s.m, s.levels) && j <= |s.levels[0]| && Here(s.levels[0], j) == NULL
    ensures j == |s.levels[0]|
  {
    assert Linked(s.m, 0, s.levels[0]);
  }

  // The keys a reader can find.
  ghost function Contents(s: State): set<int>
    requires |s.levels| == MAX_HEIGHT
  {
    KeysOf(s.m, s.levels[0])
  }

  ghost predicate AddsKey(s: State, a: Action) {
    a.Publish? && s.writer.Linking? && s.writer.level == 0 && s.writer.node < |s.m.nodes|
  }

  lemma ListedNodes(m: Memory, levels: Levels)
    requires Shape(m, levels)
    ensures forall n :: n in levels[0] ==> n < |m.nodes|
  {
    assert Linked(m, 0, levels[0]);
  }

  lemma SameContents(s: State, s': State)
    requires |s.levels| == MAX_HEIGHT && s'.levels == s.levels && forall n :: n in s.levels[0] ==> n < |s.m.nodes|
    requires |s'.m.nodes| >= |s.m.nodes|
    requires forall n :: 0 <= n < |s.m.nodes| ==> s'.m.nodes[n].key == s.m.nodes[n].key
    ensures Contents(s') == Contents(s)
  {
    assert forall n :: n in s.levels[0] ==> s'.m.nodes[n].key == s.m.nodes[n].key;
  }

  lemma PublishContents(s: State, s': State)
    requires Shape(s.m, s.levels) && PublishStep(s, s')
    ensures |s'.levels| == MAX_HEIGHT
    ensures Contents(s') == Contents(s) + if s.writer.level == 0 then {s.m.nodes[s.writer.node].key} else {}
  {
    var n, l := s.writer.node, s.writer.level;
    var j := PublishPosition(s, s');
    ListedNodes(s.m, s.levels);
    InsertAtMembers(s.levels[l], j, n);
    assert forall i :: 0 <= i < |s.m.nodes| ==> s'.m.nodes[i].key == s.m.nodes[i].key;
    assert l == 0 ==> |s'.levels[0]| == |s.levels[0]| + 1;
    hide PublishStep, Shape, InsertAt, Position, KeysOf;
    KeysOfMore(s.m, s'.m, s.levels[0], s'.levels[0], n);
  }

  ghost function KeysOf(m: Memory, list: seq<nat>): set<int> {
    set n | n in list && n < |m.nodes| :: m.nodes[n].key
  }

  lemma KeysOfMore(m: Memory, m': Memory, list: seq<nat>, list': seq<nat>, n: nat)
    requires |m'.nodes| == |m.nodes| && n < |m.nodes|
    requires forall i :: 0 <= i < |m.nodes| ==> m'.nodes[i].key == m.nodes[i].key
    requires list' == list ||
             (n in list' && (forall x :: x in list ==> x in list') && forall x :: x in list' ==> x in list || x == n)
    ensures KeysOf(m', list') == KeysOf(m, list) + if list' == list then {} else {m.nodes[n].key}
  {
    forall k | k in KeysOf(m, list) ensures k in KeysOf(m', list') {
      var x :| x in list && x < |m.nodes| && m.nodes[x].key == k;
      assert x in list' && m'.nodes[x].key == k;
    }
    assert list' != list ==> m'.nodes[n].key in KeysOf(m', list');
  }

  /** An Insert takes effect at one store, the one that links its node on level 0: that step adds
      exactly its key to the contents, and every other step leaves the contents alone.
   */
  lemma ContentsChange(s: State, a: Action, s': State)
    requires Inv(s) && Step(s, a, s') && |s'.levels| == MAX_HEIGHT
    ensures Contents(s') == Contents(s) + if AddsKey(s, a) then {s.m.nodes[s.writer.node].key} else {}
  {
    ListedNodes(s.m, s.levels);
    hide Shape, Contents, WriterOk, ReaderOk, PublishStep;
    if a.Publish? {
      PublishContents(s, s');
      assert AddsKey(s, a) <==> s.writer.level == 0 by { PublishShape(s, s'); }
    } else {
      SameContents(s, s');
    }
  }

  lemma PublishShape(s: State, s': State)
    requires PublishStep(s, s')
    ensures s.writer.Linking? && s.writer.node < |s.m.nodes|
  {
  }

  lemma {:induction false} PositionExists(m: Memory, list: seq<nat>, key: int) returns (j: nat)
    requires Ascending(m, list)
    ensures Position(m, list, key, j)
  {
    if list == [] {
      j := 0;
    } else if m.nodes[list[|list| - 1]].key < key {
      j := |list|;
    } else {
      j := PositionExists(m, list[..|list| - 1], key);
    }
  }

  lemma {:induction false} PrevsExist(m: Memory, levels: Levels, key: int, n: nat) returns (prev: seq<nat>)
    requires Shape(m, levels) && n <= 12
    ensures |prev| == n
    ensures forall l :: 0 <= l < n ==> if l < m.maxHeight then IsPrev(m, levels[l], key, prev[l]) else prev[l] == HEAD
  {
    if n == 0 {
      return [];
    }
    prev := PrevsExist(m, levels, key, n - 1);
    if n - 1 < m.maxHeight {
      var j := PositionExists(m, levels[n - 1], key);
      prev := prev + [Before(levels[n - 1], j)];
    } else {
      prev := prev + [HEAD];
    }
  }

  /** While no insertion is running, any key that is not in the list can be inserted, on up to twelve levels. */
  lemma InsertCanBegin(states: seq<State>, actions: seq<Action>, n: nat, key: int, height: nat)
    returns (prev: seq<nat>, s': State)
    requires Run(states, actions) && n < |states| && states[n].writer.Idle? && 1 <= height <= 12
    requires states[n].levels != [] && Absent(states[n].m, states[n].levels[0], key)
    ensures Step(states[n], BeginInsert(key, height, prev), s')
  {
    hide Shape, WriterOk, ReaderOk, IsPrev, Absent;
    RunInv(states, actions, n);
    var s := states[n];
    prev := PrevsExist(s.m, s.levels, key, 12);
    TwelveLevels(s);
    s' := s.(writer := Placing(key, height, prev));
  }

  lemma TwelveLevels(s: State)
    requires Shape(s.m, s.levels)
    ensures |s.levels| == 12
  {
  }

  // Neither the writer nor a search is ever stuck on a bad pointer.
  lemma NextStoreIsPossible(s: State)
    requires Inv(s) && s.writer.Linking?
    ensures if s.writer.pointed then exists s' :: PublishStep(s, s') else exists s' :: PointStep(s, s')
  {
    var n, l, prev := s.writer.node, s.writer.level, s.writer.prev;
    assert IsPrev(s.m, s.levels[l], s.m.nodes[n].key, prev[l]);
    var j: nat :| Position(s.m, s.levels[l], s.m.nodes[n].key, j) && prev[l] == Before(s.levels[l], j);
    assert Linked(s.m, l, s.levels[l]);
    if s.writer.pointed {
      assert PublishStep(s, s.(m := SetNext(s.m, prev[l], l, n), levels := s.levels[l := InsertAt(s.levels[l], j, n)],
        writer := if l + 1 < |s.m.nodes[n].next| then Linking(n, prev, l + 1, false) else Idle));
    } else {
      assert PointStep(s,
                       s.(m := SetNext(s.m, n, l, s.m.nodes[prev[l]].next[l]), writer := s.writer.(pointed := true)));
    }
  }

  lemma NextLoadIsPossible(s: State, i: nat)
    requires Inv(s) && i < |s.readers| && s.readers[i].Searching?
    ensures CanLoad(s.m, s.readers[i])
  {
    assert ReaderOk(s.m, s.levels, s.readers[i]);
    var j := Successor(s.m, s.levels, s.readers[i].level, s.readers[i].x);
  }

  // ------------------------------------------------------------------ the list used by one thread

  // A search stands at position j of a level, and everything before is below the target.
  ghost predicate StandsAt(m: Memory, levels: Levels, search: Search, level: nat, x: nat, j: nat) {
    && |levels| == MAX_HEIGHT && level < MAX_HEIGHT && j <= |levels[level]| && x == Before(levels[level], j)
    && (j > 0 && !search.Last? ==> levels[level][j-1] < |m.nodes| && m.nodes[levels[level][j-1]].key < search.target)
  }

  lemma DownOneLevel(m: Memory, levels: Levels, search: Search, level: nat, x: nat, j: nat) returns (k: nat)
    requires Shape(m, levels) && StandsAt(m, levels, search, level, x, j) && level > 0
    ensures StandsAt(m, levels, search, level - 1, x, k)
  {
    assert Contained(levels, level);
    if j == 0 {
      k := 0;
    } else {
      assert x in levels[level] && x in levels[level-1];
      assert Linked(m, level, levels[level]);
      k := Successor(m, levels, level - 1, x);
    }
  }

  // The search may not move on: this is where the target belongs.
  lemma StopsAt(m: Memory, levels: Levels, search: Search, level: nat, x: nat, j: nat)
    requires Shape(m, levels) && StandsAt(m, levels, search, level, x, j)
    requires Here(levels[level], j) < |m.nodes| && !MovesOn(m, search, Here(levels[level], j))
    ensures !search.Last? ==> Position(m, levels[level], search.target, j)
    ensures search.Last? ==> j == |levels[level]|
  {
    assert Linked(m, level, levels[level]) && Ascending(m, levels[level]);
  }

  lemma LinkOf(m: Memory, levels: Levels, level: nat, x: nat, j: nat)
    requires Shape(m, levels) && level < MAX_HEIGHT && j <= |levels[level]| && x == Before(levels[level], j)
    ensures x < |m.nodes| && level < |m.nodes[x].next|
    ensures m.nodes[x].next[level] == Here(levels[level], j) < |m.nodes|
  {
    assert Linked(m, level, levels[level]);
  }

  // prev is filled in from a level upwards; above the list's height it stays at the head.
  ghost predicate PrevFilled(m: Memory, levels: Levels, key: int, prev: seq<nat>, from: nat) {
    && |levels| == MAX_HEIGHT && |prev| == MAX_HEIGHT
    && forall l ::
         from <= l < MAX_HEIGHT ==> if l < m.maxHeight then IsPrev(m, levels[l], key, prev[l]) else prev[l] == HEAD
  }

  lemma FillPrev(m: Memory, levels: Levels, key: int, prev: seq<nat>, level: nat, x: nat, j: nat)
    requires level < m.maxHeight && level < MAX_HEIGHT && PrevFilled(m, levels, key, prev, level + 1)
    requires Position(m, levels[level], key, j) && x == Before(levels[level], j)
    ensures PrevFilled(m, levels, key, prev[level := x], level)
  {
    hide Position;
    assert IsPrev(m, levels[level], key, x);
  }

  class SkipList {
    var m: Memory
    ghost var levels: Levels

    ghost predicate Valid()
      reads this
    {
      Shape(m, levels)
    }

    constructor ()
      ensures Valid() && |m.nodes| == 1 && levels[0] == []
    {
      m := Memory([Node(0, seq(MAX_HEIGHT, i => NULL))], 1);
      levels := seq(MAX_HEIGHT, i => []);
      new;
      forall l | 0 <= l < MAX_HEIGHT ensures Linked(m, l, levels[l]) && Ascending(m, levels[l]) {
        assert levels[l] == [];
      }
    }

    // The first node at or after key, and on each level the last node before it.
    method FindGreaterOrEqual(key: int) returns (result: nat, prev: seq<nat>)
      requires Valid()
      ensures Answers(m, levels[0], AtLeast(key), result)
      ensures PrevFilled(m, levels, key, prev, 0)
    {
      hide Position, IsPrev, Linked, Ascending, Contained;
      var x, level := HEAD, m.maxHeight - 1;
      prev := seq(MAX_HEIGHT, i => HEAD);
      ghost var search, j := AtLeast(key), 0;
      while true
        invariant 0 <= level < m.maxHeight && StandsAt(m, levels, search, level, x, j)
        invariant PrevFilled(m, levels, key, prev, level + 1)
        decreases level, |levels[level]| - j
      {
        LinkOf(m, levels, level, x, j);
        var next := m.nodes[x].next[level];
        if next != NULL && m.nodes[next].key < key {
          // The key lies further on
          x := next;
          j := j + 1;
        } else {
          StopsAt(m, levels, search, level, x, j);
          FillPrev(m, levels, key, prev, level, x, j);
          prev := prev[level := x];
          if level == 0 {
            return next, prev;
          }
          // Go one level down
          j := DownOneLevel(m, levels, search, level, x, j);
          level := level - 1;
        }
      }
    }

    // The last node with a smaller key, or the head.
    method FindLessThan(key: int) returns (x: nat)
      requires Valid()
      ensures Answers(m, levels[0], LessThan(key), x)
    {
      x := HEAD;
      var level := m.maxHeight - 1;
      ghost var search, j := LessThan(key), 0;
      while true
        invariant 0 <= level < m.maxHeight && StandsAt(m, levels, search, level, x, j)
        decreases level, |levels[level]| - j
      {
        LinkOf(m, levels, level, x, j);
        var next := m.nodes[x].next[level];
        if next == NULL || m.nodes[next].key >= key {
          StopsAt(m, levels, search, level, x, j);
          if level == 0 {
            return;
          }
          j := DownOneLevel(m, levels, search, level, x, j);
          level := level - 1;
        } else {
          x := next;
          j := j + 1;
        }
      }
    }

    // The last node, or the head of an empty list.
    method FindLast() returns (x: nat)
      requires Valid()
      ensures Answers(m, levels[0], Last, x)
    {
      x := HEAD;
      var level := m.maxHeight - 1;
      ghost var j := 0;
      while true
        invariant 0 <= level < m.maxHeight && StandsAt(m, levels, Last, level, x, j)
        decreases level, |levels[level]| - j
      {
        LinkOf(m, levels, level, x, j);
        var next := m.nodes[x].next[level];
        if next == NULL {
          StopsAt(m, levels, Last, level, x, j);
          if level == 0 {
            return;
          }
          j := DownOneLevel(m, levels, Last, level, x, j);
          level := level - 1;
        } else {
          x := next;
          j := j + 1;
        }
      }
    }

    // The list and a new node whose levels below `level` are linked.
    ghost predicate Inserting(x: nat, prev: seq<nat>, level: nat)
      reads this
    {
      Inv(Linkage(m, levels, Linking(x, prev, level, false)))
    }

    ghost predicate NodeIs(x: nat, key: int, height: nat)
      reads this
    {
      x < |m.nodes| && m.nodes[x].key == key && |m.nodes[x].next| == height
    }

    method AllocateNode(key: int, height: nat, prev: seq<nat>) returns (x: nat)
      requires Valid() && 1 <= height <= MAX_HEIGHT && Absent(m, levels[0], key)
      requires PrevFilled(m, levels, key, prev, 0)
      modifies this
      ensures Inserting(x, prev, 0) && NodeIs(x, key, height) && x == |old(m.nodes)| && |m.nodes| == x + 1
      ensures levels == old(levels) && m.maxHeight == Max(old(m.maxHeight), height)
      ensures KeysOf(m, levels[0]) == old(KeysOf(m, levels[0])) && KeysStay(old(m), m)
    {
      ghost var s := NowPlacing(m, levels, key, height, prev);
      if height > m.maxHeight {
        m := m.(maxHeight := height);
        s := NowRaised(s);
      }
      x := |m.nodes|;
      m := m.(nodes := m.nodes + [Node(key, seq(height, i => NULL))]);
      s := NowAllocated(s);
      assert s == Linkage(m, levels, Linking(x, prev, 0, false));
    }

    // Prepares the new node's link on one level, then publishes it.
    method LinkLevel(x: nat, prev: seq<nat>, level: nat, ghost key: int, ghost height: nat)
      requires Inserting(x, prev, level) && NodeIs(x, key, height)
      modifies this
      ensures Valid() && |levels| == MAX_HEIGHT && NodeIs(x, key, height)
      ensures level + 1 < height ==> Inserting(x, prev, level + 1)
      ensures GainsFrom(old(levels), levels, x, level, level + 1)
      ensures |m.nodes| == |old(m.nodes)| && m.maxHeight == old(m.maxHeight)
      ensures KeysOf(m, levels[0]) == old(KeysOf(m, levels[0])) + if level == 0 then {key} else {}
      ensures KeysStay(old(m), m)
    {
      ghost var s := NowPointed(Linkage(m, levels, Linking(x, prev, level, false)));
      m := SetNext(m, x, level, m.nodes[prev[level]].next[level]);
      ghost var t := NowPublished(s);
      m := SetNext(m, prev[level], level, x);
      levels := t.levels;
    }

    // Links the node from the bottom level up; only the first link changes the contents.
    method LinkAll(x: nat, prev: seq<nat>, key: int, height: nat)
      requires Inserting(x, prev, 0) && NodeIs(x, key, height) && height >= 1
      modifies this
      ensures Valid() && KeysOf(m, levels[0]) == old(KeysOf(m, levels[0])) + {key}
      ensures NodeIs(x, key, height) && GainsFrom(old(levels), levels, x, 0, height)
      ensures |m.nodes| == |old(m.nodes)| && m.maxHeight == old(m.maxHeight) && KeysStay(old(m), m)
    {
      hide Inserting, NodeIs, KeysOf, Shape, GainsFrom;
      LinkLevel(x, prev, 0, key, height);
      ghost var keys := KeysOf(m, levels[0]);
      var i := 1;
      while i < height
        invariant 1 <= i <= height && Valid() && NodeIs(x, key, height)
        invariant i < height ==> Inserting(x, prev, i)
        invariant |levels| == MAX_HEIGHT && KeysOf(m, levels[0]) == keys
        invariant GainsFrom(old(levels), levels, x, 0, i)
        invariant |m.nodes| == |old(m.nodes)| && m.maxHeight == old(m.maxHeight) && KeysStay(old(m), m)
      {
        ghost var before := levels;
        LinkLevel(x, prev, i, key, height);
        GainsMore(old(levels), before, levels, x, i);
        i := i + 1;
      }
    }

    static lemma GainsMore(a: Levels, b: Levels, c: Levels, x: nat, i: nat)
      requires GainsFrom(a, b, x, 0, i) && GainsFrom(b, c, x, i, i + 1)
      ensures GainsFrom(a, c, x, 0, i + 1)
    {
    }

    // Insert with the height that RandomHeight drew: the contents gain exactly the key, in a new node that joins as
    // many levels.
    method Insert(key: int, height: nat)
      requires Valid() && 1 <= height <= MAX_HEIGHT && Absent(m, levels[0], key)
      modifies this
      ensures Valid() && KeysOf(m, levels[0]) == old(KeysOf(m, levels[0])) + {key}
      ensures var x := |old(m.nodes)|;
              |m.nodes| == x + 1 && NodeIs(x, key, height) && GainsFrom(old(levels), levels, x, 0, height)
      ensures m.maxHeight == Max(old(m.maxHeight), height) && KeysStay(old(m), m)
    {
      var x, prev := FindGreaterOrEqual(key);
      hide Shape, Answers, PrevFilled, Absent, KeysOf, Inserting, NodeIs, GainsFrom;
      x := AllocateNode(key, height, prev);
      LinkAll(x, prev, key, height);
    }

    // Is the key in the list?
    method Contains(key: int) returns (found: bool)
      requires Valid()
      ensures found <==> key in KeysOf(m, levels[0])
    {
      var x, prev := FindGreaterOrEqual(key);
      AnswerTellsMembership(m, levels, key, x);
      found := x != NULL && m.nodes[x].key == key;
    }
  }

  // A cursor over the list; the null node stands for the position past the end.
  class Iterator {
    const list: SkipList
    var node: nat

    constructor (list: SkipList)
      ensures this.list == list && node == NULL
    {
      this.list := list;
      node := NULL;
    }

    // The cursor is on the j-th smallest key.
    ghost predicate At(j: nat)
      reads this, list
    {
      list.Valid() && j <= |list.levels[0]| && node == Here(list.levels[0], j)
    }

    method SeekToFirst()
      requires list.Valid()
      modifies this
      ensures At(0)
    {
      LinkOf(list.m, list.levels, 0, HEAD, 0);
      node := list.m.nodes[HEAD].next[0];
    }

    method SeekToLast()
      requires list.Valid()
      modifies this
      ensures if list.levels[0] == [] then At(0) else At(|list.levels[0]| - 1)
    {
      node := list.FindLast();
      assert Linked(list.m, 0, list.levels[0]);
      if node == HEAD {
        node := NULL;
      }
    }

    method Seek(target: int) returns (ghost j: nat)
      requires list.Valid()
      modifies this
      ensures At(j) && Position(list.m, list.levels[0], target, j)
    {
      ghost var prev;
      node, prev := list.FindGreaterOrEqual(target);
      j :| Position(list.m, list.levels[0], target, j) && node == Here(list.levels[0], j);
    }

    method Next(ghost j: nat)
      requires At(j) && node != NULL
      modifies this
      ensures At(j + 1)
    {
      assert j < |list.levels[0]|;
      LinkOf(list.m, list.levels, 0, node, j + 1);
      node := list.m.nodes[node].next[0];
    }

    // Without back links: searches for the last node before the current key.
    method Prev(ghost j: nat)
      requires At(j) && node != NULL
      modifies this
      ensures if j == 0 then node == NULL else At(j - 1)
    {
      LinkOf(list.m, list.levels, 0, node, j + 1);
      var key := list.m.nodes[node].key;
      OwnPosition(list.m, list.levels, j);
      node := list.FindLessThan(key);
      ghost var k :| Position(list.m, list.levels[0], key, k) && node == Before(list.levels[0], k);
      PositionIsUnique(list.m, list.levels[0], key, j, k);
      if node == HEAD {
        node := NULL;
      }
    }
  }

  lemma OwnPosition(m: Memory, levels: Levels, j: nat)
    requires Shape(m, levels) && j < |levels[0]|
    ensures levels[0][j] < |m.nodes| && Position(m, levels[0], m.nodes[levels[0][j]].key, j)
    ensures j > 0 ==> levels[0][j-1] != HEAD
  {
    assert Linked(m, 0, levels[0]) && Ascending(m, levels[0]);
  }

  lemma PositionIsUnique(m: Memory, list: seq<nat>, key: int, j: nat, k: nat)
    requires Position(m, list, key, j) && Position(m, list, key, k)
    ensures j == k
  {
    assert j < |list| ==> m.nodes[list[j]].key >= key;
    assert k < |list| ==> m.nodes[list[k]].key >= key;
  }

  lemma AnswerTellsMembership(m: Memory, levels: Levels, key: int, x: nat)
    requires Shape(m, levels) && Answers(m, levels[0], AtLeast(key), x)
    ensures x < |m.nodes| && (x != NULL && m.nodes[x].key == key <==> key in KeysOf(m, levels[0]))
  {
    var list := levels[0];
    assert Linked(m, 0, list);
    var j :| Position(m, list, key, j) && x == Here(list, j);
    if key in KeysOf(m, list) {
      var n :| n in list && n < |m.nodes| && m.nodes[n].key == key;
      var i :| 0 <= i < |list| && list[i] == n;
      assert Ascending(m, list);
    }
  }

  // The concurrent machine without readers, which the sequential methods step through.
  ghost function Linkage(m: Memory, levels: Levels, w: Writer): State {
    State(m, w, [], levels)
  }

  lemma NowPlacing(m: Memory, levels: Levels, key: int, height: nat, prev: seq<nat>) returns (s: State)
    requires Shape(m, levels) && 1 <= height <= MAX_HEIGHT && Absent(m, levels[0], key)
    requires PrevFilled(m, levels, key, prev, 0)
    ensures s == Linkage(m, levels, Placing(key, height, prev)) && Inv(s)
  {
    s := Linkage(m, levels, Placing(key, height, prev));
    BeginInsertKeeps(Linkage(m, levels, Idle), key, height, prev, s);
  }

  lemma NowRaised(s: State) returns (t: State)
    requires Inv(s) && s.writer.Placing? && s.writer.height > s.m.maxHeight
    ensures t == s.(m := s.m.(maxHeight := s.writer.height)) && Inv(t)
  {
    t := s.(m := s.m.(maxHeight := s.writer.height));
    RaiseHeightKeeps(s, t);
  }

  lemma NowAllocated(s: State) returns (t: State)
    requires Inv(s) && s.writer.Placing? && s.writer.height <= s.m.maxHeight
    ensures t == s.(m := s.m.(nodes := s.m.nodes + [Node(s.writer.key, seq(s.writer.height, i => NULL))]),
                    writer := Linking(|s.m.nodes|, s.writer.prev, 0, false))
    ensures Inv(t) && KeysOf(t.m, t.levels[0]) == KeysOf(s.m, s.levels[0])
  {
    t := s.(m := s.m.(nodes := s.m.nodes + [Node(s.writer.key, seq(s.writer.height, i => NULL))]),
            writer := Linking(|s.m.nodes|, s.writer.prev, 0, false));
    AllocateKeeps(s, t);
    ListedNodes(s.m, s.levels);
    SameContents(s, t);
  }

  lemma NowPointed(s: State) returns (t: State)
    requires Inv(s) && s.writer.Linking? && !s.writer.pointed
    ensures var n, l, prev := s.writer.node, s.writer.level, s.writer.prev;
      && n < |s.m.nodes| && l < |s.m.nodes[n].next| && l < |prev| && prev[l] < |s.m.nodes| &&
         l < |s.m.nodes[prev[l]].next|
      && t == s.(m := SetNext(s.m, n, l, s.m.nodes[prev[l]].next[l]), writer := s.writer.(pointed := true))
    ensures Inv(t) && KeysOf(t.m, t.levels[0]) == KeysOf(s.m, s.levels[0])
  {
    NextStoreIsPossible(s);
    t :| PointStep(s, t);
    hide Inv;
    PointKeepsInv(s, t);
    PointContents(s, t);
  }

  lemma PointContents(s: State, t: State)
    requires Inv(s) && PointStep(s, t)
    ensures Contents(t) == Contents(s)
  {
    ListedNodes(s.m, s.levels);
    hide Shape, WriterOk, ReaderOk, Contents;
    SameContents(s, t);
  }

  // The node has joined the levels from low up to high, and nothing else has changed.
  ghost predicate GainsFrom(levels: Levels, after: Levels, n: nat, low: nat, high: nat) {
    && |levels| == |after| == MAX_HEIGHT
    && forall l, x :: 0 <= l < MAX_HEIGHT ==>
         (x in after[l] <==> x in levels[l] || (x == n && low <= l < high))
  }

  lemma PublishGains(s: State, t: State)
    requires PublishStep(s, t)
    ensures GainsFrom(s.levels, t.levels, s.writer.node, s.writer.level, s.writer.level + 1)
  {
    hide InsertAt;
    var n, l := s.writer.node, s.writer.level;
    var j :| Position(s.m, s.levels[l], s.m.nodes[n].key, j) && t.levels == s.levels[l := InsertAt(s.levels[l], j, n)];
    InsertAtMembers(s.levels[l], j, n);
  }

  lemma NowPublished(s: State) returns (t: State)
    requires Inv(s) && s.writer.Linking? && s.writer.pointed
    ensures var n, l, prev := s.writer.node, s.writer.level, s.writer.prev;
      && n < |s.m.nodes| && l < |s.m.nodes[n].next| && l < |prev| && prev[l] < |s.m.nodes| &&
         l < |s.m.nodes[prev[l]].next|
      && t.m == SetNext(s.m, prev[l], l, n) && t.readers == s.readers
      && (l + 1 < |s.m.nodes[n].next| ==> t.writer == Linking(n, prev, l + 1, false))
      && |t.levels| == MAX_HEIGHT
      && GainsFrom(s.levels, t.levels, n, l, l + 1)
      && KeysOf(t.m, t.levels[0]) == KeysOf(s.m, s.levels[0]) + if l == 0 then {s.m.nodes[n].key} else {}
    ensures Inv(t)
  {
    hide Shape, WriterOk, ReaderOk, InsertAt, Position, KeysOf;
    NextStoreIsPossible(s);
    t :| PublishStep(s, t);
    PublishGains(s, t);
    PublishKeepsInv(s, t);
    PublishContents(s, t);
    var j := PublishPosition(s, t);
  }
}
