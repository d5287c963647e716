/** A binary min heap of nodes linked by left, right and parent pointers. */
module Heap {
  import opened Wrappers

  class Node<K(!new)> {
    var left: Node?<K>
    var right: Node?<K>
    var parent: Node?<K>
    var key: K

    constructor (key: K)
      ensures this.key == key && left == null && right == null && parent == null
    {
      this.key := key;
      left, right, parent := null, null, null;
    }

    ghost function Pointers(): Links<K>
      reads this
    {
      Links(left, right, parent)
    }
  }

  // The three pointers of a node.
  datatype Links<K(!new)> = Links(left: Node?<K>, right: Node?<K>, parent: Node?<K>)

  // A strict total order.
  ghost predicate StrictOrder<K(!new)>(less: (K, K) -> bool) {
    && (forall a :: !less(a, a))
    && (forall a, b :: a != b ==> less(a, b) || less(b, a))
    && (forall a, b, c :: less(a, b) && less(b, c) ==> less(a, c))
  }

  // ------------------------------------------------------------------ the shape

  // The nodes of a complete binary tree level by level: the children of position i are at 2i+1 and 2i+2.
  function At<K(!new)>(nodes: seq<Node<K>>, i: int): Node?<K> {
    if 0 <= i < |nodes| then nodes[i] else null
  }

  function Up(i: int): int {
    if i <= 0 then -1 else (i - 1) / 2
  }

  // Two positions change places.
  function Exchange<T>(s: seq<T>, i: nat, c: nat): (r: seq<T>)
    requires i < |s| && c < |s|
    ensures |r| == |s|
  {
    s[i := s[c]][c := s[i]]
  }

  ghost predicate Within<K(!new)>(nodes: seq<Node<K>>, repr: set<Node<K>>) {
    forall i :: 0 <= i < |nodes| ==> nodes[i] in repr
  }

  ghost function AllLinks<K(!new)>(nodes: seq<Node<K>>, repr: set<Node<K>>): (ls: seq<Links<K>>)
    requires Within(nodes, repr)
    reads repr
    ensures |ls| == |nodes| && forall i :: 0 <= i < |nodes| ==> ls[i] == nodes[i].Pointers()
    decreases |nodes|
  {
    if nodes == [] then []
    else AllLinks(nodes[..|nodes| - 1], repr) + [nodes[|nodes| - 1].Pointers()]
  }

  // The pointers are those of the complete tree.
  ghost predicate Tree<K(!new)>(nodes: seq<Node<K>>, ls: seq<Links<K>>) {
    |ls| == |nodes| && forall i :: 0 <= i < |nodes| ==> ls[i] == TreeLinks(nodes, i)
  }

  ghost function TreeLinks<K(!new)>(nodes: seq<Node<K>>, i: int): Links<K> {
    Links(At(nodes, 2 * i + 1), At(nodes, 2 * i + 2), At(nodes, Up(i)))
  }

  // The nodes around a parent and its child; those that exist are different nodes.
  ghost predicate Around<K(!new)>(p: Node<K>, c: Node<K>, sibling: Node?<K>, left: Node?<K>,
                                  right: Node?<K>, up: Node?<K>) {
    && p != c && sibling != p && sibling != c && left != p && left != c && right != p &&
       right != c && up != p && up != c
    && (sibling != null ==> sibling != left && sibling != right && sibling != up)
    && (left != null ==> left != right && left != up) && (right != null ==> right != up)
  }

  function Sibling<K(!new)>(c: Node<K>, lp: Links<K>): Node?<K> {
    if lp.left == c then lp.right else lp.left
  }

  // What a swap of p and its child c makes of the links l of a node n.
  ghost function SwappedLinks<K(!new)>(p: Node<K>, c: Node<K>, lp: Links<K>, lc: Links<K>,
                                       n: Node<K>, l: Links<K>): Links<K> {
    if n == p then Links(lc.left, lc.right, c)
    else if n == c then (if lp.left == c then Links(p, lp.right, lp.parent) else Links(lp.left, p, lp.parent))
    else if n == lp.parent then (if l.left == p then l.(left := c) else l.(right := c))
    else if n == Sibling(c, lp) then l.(parent := c)
    else if n == lc.left || n == lc.right then l.(parent := p)
    else l
  }

  // ------------------------------------------------------------------ paths

  // The k low bits of the path, lowest bit first.
  function Turns(path: nat, k: nat): nat
    decreases k
  {
    if k == 0 then 0 else (if path % 2 == 1 then Pow2(k - 1) else 0) + Turns(path / 2, k - 1)
  }

  lemma {:induction false} TurnsBound(path: nat, k: nat)
    ensures Turns(path, k) < Pow2(k)
    decreases k
  {
    if k > 0 {
      TurnsBound(path / 2, k - 1);
    }
  }

  // Positions count from 1: from position pos the path leads to position n.
  ghost predicate Leads(pos: nat, path: nat, k: nat, n: nat) {
    n == pos * Pow2(k) + Turns(path, k)
  }

  lemma LeadsBack(pos: nat, path: nat, k: nat, n: nat)
    requires Leads(pos, path, k, n)
    ensures Leads(pos / 2, 2 * path + pos % 2, k + 1, n)
  {
    var q, r := pos / 2, pos % 2;
    assert (2 * path + r) % 2 == r && (2 * path + r) / 2 == path;
    assert Turns(2 * path + r, k + 1) == (if r == 1 then Pow2(k) else 0) + Turns(path, k);
    Halves(q, r, Pow2(k));
  }

  lemma Halves(q: nat, r: nat, p: nat)
    requires r < 2
    ensures (2 * q + r) * p == q * (2 * p) + if r == 1 then p else 0
  {
    assert (2 * q + r) * p == 2 * q * p + r * p;
  }

  lemma LeadsOn(pos: nat, path: nat, k: nat, n: nat)
    requires Leads(pos, path, k, n) && k > 0 && pos > 0
    ensures Leads(2 * pos + path % 2, path / 2, k - 1, n) && pos < n
  {
    Halves(pos, path % 2, Pow2(k - 1));
    MulAtLeast(pos, Pow2(k));
    TurnsBound(path, k);
  }

  lemma MulAtLeast(a: nat, b: nat)
    requires a > 0 && b > 1 && b % 2 == 0
    ensures a * b > a
  {
  }

  // The turns that lead from the root to position n.
  method PathTo(n0: nat) returns (path: nat, k: nat)
    requires n0 > 0
    ensures Leads(1, path, k, n0)
  {
    hide Leads, Turns, Pow2;
    path, k := 0, 0;
    var n := n0;
    LeadsHere(n0);
    while n >= 2
      invariant n > 0 && Leads(n, path, k, n0)
    {
      LeadsBack(n, path, k, n0);
      path := 2 * path + n % 2;
      k, n := k + 1, n / 2;
    }
  }

  lemma LeadsHere(n: nat)
    ensures Leads(n, 0, 0, n)
  {
    assert Pow2(0) == 1 && Turns(0, 0) == 0;
  }

  lemma LeadsBound(pos: nat, path: nat, k: nat, n: nat)
    requires Leads(pos, path, k, n)
    ensures pos <= n
  {
    MulPositive(pos, Pow2(k));
  }

  lemma MulPositive(a: nat, b: nat)
    requires b > 0
    ensures a * b >= a
  {
  }

  lemma LeadsEnd(pos: nat, path: nat, n: nat)
    requires Leads(pos, path, 0, n)
    ensures pos == n
  {
    assert Pow2(0) == 1 && Turns(path, 0) == 0;
  }

  // ------------------------------------------------------------------ the order

  ghost function Keys<K(!new)>(nodes: seq<Node<K>>, repr: set<Node<K>>): (ks: seq<K>)
    requires Within(nodes, repr)
    reads repr`key
    ensures |ks| == |nodes| && forall i :: 0 <= i < |nodes| ==> ks[i] == nodes[i].key
    decreases |nodes|
  {
    if nodes == [] then [] else Keys(nodes[..|nodes| - 1], repr) + [nodes[|nodes| - 1].key]
  }

  // The key at position k is not less than its parent's.
  predicate PairOk<K(!new)>(less: (K, K) -> bool, ks: seq<K>, k: int)
    requires 0 < k < |ks|
  {
    !less(ks[k], ks[(k - 1) / 2])
  }

  ghost predicate HeapOrdered<K(!new)>(less: (K, K) -> bool, ks: seq<K>) {
    forall k :: 0 < k < |ks| ==> PairOk(less, ks, k)
  }

  // The children of i are not less than its parent.
  ghost predicate Bridged<K(!new)>(less: (K, K) -> bool, ks: seq<K>, i: nat)
    requires i < |ks|
  {
    i > 0 ==> forall k :: 0 < k < |ks| && (k - 1) / 2 == i ==> !less(ks[k], ks[(i - 1) / 2])
  }

  // Ordered but for i, which may be less than its parent.
  ghost predicate UpHole<K(!new)>(less: (K, K) -> bool, ks: seq<K>, i: nat)
    requires i < |ks|
  {
    Bridged(less, ks, i) && forall k :: 0 < k < |ks| && k != i ==> PairOk(less, ks, k)
  }

  // Ordered but for i, which may be less than its parent or greater than its children.
  ghost predicate DownHole<K(!new)>(less: (K, K) -> bool, ks: seq<K>, i: nat)
    requires i < |ks|
  {
    Bridged(less, ks, i) && forall k :: 0 < k < |ks| && k != i && (k - 1) / 2 != i ==> PairOk(less, ks, k)
  }

  lemma UpStep<K(!new)>(less: (K, K) -> bool, ks: seq<K>, i: nat)
    requires StrictOrder(less) && 0 < i < |ks| && UpHole(less, ks, i) && less(ks[i], ks[(i - 1) / 2])
    ensures UpHole(less, Exchange(ks, (i - 1) / 2, i), (i - 1) / 2)
  {
    var p := (i - 1) / 2;
    var after := Exchange(ks, p, i);
    forall k | 0 < k < |ks| && k != p ensures PairOk(less, after, k) {
      if k == i {
      } else if (k - 1) / 2 == i {
        assert !less(ks[k], ks[p]);
      } else if (k - 1) / 2 == p {
        assert PairOk(less, ks, k);
      } else {
        assert PairOk(less, ks, k);
      }
    }
    if p > 0 {
      var g := (p - 1) / 2;
      assert PairOk(less, ks, p);
      forall k | 0 < k < |ks| && (k - 1) / 2 == p ensures !less(after[k], after[g]) {
        assert k != i ==> PairOk(less, ks, k);
      }
    }
  }

  lemma UpDone<K(!new)>(less: (K, K) -> bool, ks: seq<K>, i: nat)
    requires i < |ks| && UpHole(less, ks, i) && (i > 0 ==> !less(ks[i], ks[(i - 1) / 2]))
    ensures HeapOrdered(less, ks)
  {
  }

  lemma DownStep<K(!new)>(less: (K, K) -> bool, ks: seq<K>, i: nat, s: nat)
    requires StrictOrder(less) && i < s < |ks| && (s - 1) / 2 == i && DownHole(less, ks, i) && less(ks[s], ks[i])
    requires forall k :: 0 < k < |ks| && (k - 1) / 2 == i ==> !less(ks[k], ks[s])
    ensures DownHole(less, Exchange(ks, i, s), s)
  {
    var after := Exchange(ks, i, s);
    forall k | 0 < k < |ks| && k != s && (k - 1) / 2 != s ensures PairOk(less, after, k) {
      if k == i {
        assert !less(ks[s], ks[(i - 1) / 2]);
      } else if (k - 1) / 2 == i {
      } else {
        assert PairOk(less, ks, k);
      }
    }
    forall k | 0 < k < |ks| && (k - 1) / 2 == s ensures !less(after[k], after[i]) {
      assert PairOk(less, ks, k);
    }
  }

  lemma DownDone<K(!new)>(less: (K, K) -> bool, ks: seq<K>, i: nat)
    requires i < |ks| && DownHole(less, ks, i)
    requires forall k :: 0 < k < |ks| && (k - 1) / 2 == i ==> !less(ks[k], ks[i])
    ensures UpHole(less, ks, i)
  {
  }

  // The root is the minimum.
  lemma {:induction false} RootIsMin<K(!new)>(less: (K, K) -> bool, ks: seq<K>, k: nat)
    requires StrictOrder(less) && HeapOrdered(less, ks) && k < |ks|
    ensures !less(ks[k], ks[0])
    decreases k
  {
    if k > 0 {
      RootIsMin(less, ks, (k - 1) / 2);
      assert PairOk(less, ks, k);
    }
  }

  lemma AppendUpHole<K(!new)>(less: (K, K) -> bool, ks: seq<K>, key: K)
    requires HeapOrdered(less, ks)
    ensures UpHole(less, ks + [key], |ks|)
  {
    var after := ks + [key];
    forall k | 0 < k < |after| && k != |ks| ensures PairOk(less, after, k) {
      assert PairOk(less, ks, k);
    }
  }

  lemma ReplaceDownHole<K(!new)>(less: (K, K) -> bool, ks: seq<K>, i: nat, key: K)
    requires StrictOrder(less) && HeapOrdered(less, ks) && i < |ks|
    ensures DownHole(less, ks[i := key], i)
  {
    var after := ks[i := key];
    forall k | 0 < k < |after| && k != i && (k - 1) / 2 != i ensures PairOk(less, after, k) {
      assert PairOk(less, ks, k);
    }
    if i > 0 {
      assert PairOk(less, ks, i);
      forall k | 0 < k < |ks| && (k - 1) / 2 == i ensures !less(after[k], after[(i - 1) / 2]) {
        assert PairOk(less, ks, k);
      }
    }
  }

  class Heap<K(!new)> {
    const less: (K, K) -> bool
    var min: Node?<K>
    var nelts: nat
    ghost var nodes: seq<Node<K>>
    ghost var repr: set<Node<K>>

    ghost predicate Shape()
      reads this, repr
    {
      && Within(nodes, repr) && (forall n :: n in repr ==> n in nodes)
      && nelts == |nodes| && min == At(nodes, 0) && Distinct(nodes) && Tree(nodes, AllLinks(nodes, repr))
    }

    // heap_node_swap: child and parent trade places.
    method NodeSwap(parent: Node<K>, child: Node<K>, ghost lp: Links<K>, ghost lc: Links<K>)
      requires lp == parent.Pointers() && lc == child.Pointers()
      requires parent.left == child || parent.right == child
      requires Around(parent, child, Sibling(child, lp), lc.left, lc.right, lp.parent)
      modifies this`min, {parent, child, lp.parent}`left, {parent, child, lp.parent}`right
      modifies {parent, child, lp.left, lp.right, lc.left, lc.right}`parent
      ensures min == if lp.parent == null then child else old(min)
      ensures parent.Pointers() == Links(lc.left, lc.right, child)
      ensures child.Pointers() == if lp.left == child then Links(parent, lp.right, lp.parent)
              else Links(lp.left, parent, lp.parent)
      ensures var s := Sibling(child, lp); s != null ==> s.Pointers() == old(s.Pointers()).(parent := child)
      ensures lc.left != null ==> lc.left.Pointers() == old(lc.left.Pointers()).(parent := parent)
      ensures lc.right != null ==> lc.right.Pointers() == old(lc.right.Pointers()).(parent := parent)
      ensures var u := lp.parent; u != null ==>
                u.Pointers() ==
                    (if old(u.left) == parent then old(u.Pointers()).(left := child)
                     else old(u.Pointers()).(right := child))
    {
      var sibling := SwapFields(parent, child);
      Adopt(sibling, child);
      Adopt(parent.left, parent);
      Adopt(parent.right, parent);
      Redirect(child.parent, parent, child);
    }

    // Parent and child change places among themselves.
    static method SwapFields(parent: Node<K>, child: Node<K>) returns (sibling: Node?<K>)
      requires parent != child && parent != child.left && (parent.left == child || parent.right == child)
      modifies parent`left, parent`right, parent`parent, child`left, child`right, child`parent
      ensures parent.left == old(child.left) && parent.right == old(child.right) && parent.parent == child
      ensures child.parent == old(parent.parent)
      ensures child.left == if old(parent.left) == child then parent else old(parent.left)
      ensures child.right == if old(parent.left) == child then old(parent.right) else parent
      ensures sibling == if old(parent.left) == child then old(parent.right) else old(parent.left)
    {
      var left, right, up := parent.left, parent.right, parent.parent;
      parent.left, parent.right, parent.parent := child.left, child.right, child.parent;
      child.left, child.right, child.parent := left, right, up;

      parent.parent := child;
      if child.left == child {
        child.left := parent;
        sibling := child.right;
      } else {
        child.right := parent;
        sibling := child.left;
      }
    }

    static method Adopt(n: Node?<K>, parent: Node<K>)
      modifies {n}`parent
      ensures n != null ==> n.parent == parent
    {
      if n != null {
        n.parent := parent;
      }
    }

    method Redirect(up: Node?<K>, was: Node<K>, now: Node<K>)
      modifies this`min, {up}`left, {up}`right
      ensures min == if up == null then now else old(min)
      ensures up != null ==> up.left == if old(up.left) == was then now else old(up.left)
      ensures up != null ==> up.right == if old(up.left) == was then old(up.right) else now
    {
      if up == null {
        min := now;
      } else if up.left == was {
        up.left := now;
      } else {
        up.right := now;
      }
    }

    // The swap exchanges two positions of the tree.
    method SwapAt(parent: Node<K>, child: Node<K>, ghost i: nat, ghost c: nat)
      requires Shape() && i < c < |nodes| && (c == 2 * i + 1 || c == 2 * i + 2)
      requires parent == nodes[i] && child == nodes[c]
      modifies this`min, this`nodes, repr`left, repr`right, repr`parent
      ensures Shape() && nodes == Exchange(old(nodes), i, c)
    {
      hide Tree, Around, Distinct, At, NearOk, AllLinks, AfterSwap, Sibling, Up, Exchange, TreeLinks, SwappedLinks;
      ghost var ls := AllLinks(nodes, repr);
      NearIsKnown(nodes, ls, i, c);
      ExchangeDistinct(nodes, i, c);
      SwapLinks(parent, child, i, c, ls);
      SwapKeepsTree(nodes, ls, i, c, AllLinks(nodes, repr));
      AllLinksExchange(nodes, repr, i, c);
      nodes := Exchange(nodes, i, c);
    }

    method SwapLinks(parent: Node<K>, child: Node<K>, ghost i: nat, ghost c: nat, ghost ls: seq<Links<K>>)
      requires Within(nodes, repr) && ls == AllLinks(nodes, repr)
      requires i < |nodes| && c < |nodes| && parent == nodes[i] && child == nodes[c]
      requires NearOk(nodes, ls, i, c)
      modifies this`min, repr`left, repr`right, repr`parent
      ensures min == if ls[i].parent == null then child else old(min)
      ensures AfterSwap(nodes, ls, i, c, AllLinks(nodes, repr))
    {
      hide Around;
      ghost var lp, lc := ls[i], ls[c];
      NodeSwap(parent, child, lp, lc);
      ghost var ms := AllLinks(nodes, repr);
      forall k | 0 <= k < |nodes| ensures ms[k] == SwappedLinks(parent, child, lp, lc, nodes[k], ls[k]) {
      }
    }

    // A slot is the root pointer, or one side of a node.
    function Slot(holder: Node?<K>, right: bool): Node?<K>
      reads this, {holder}
    {
      if holder == null then min else if right then holder.right else holder.left
    }

    // Traverses the heap along a path to the slot of position n.
    method Traverse(path0: nat, k0: nat, ghost n: nat) returns (holder: Node?<K>, right: bool)
      requires Shape() && n > 0 && n - 1 <= |nodes| && Leads(1, path0, k0, n)
      ensures holder == At(nodes, Up(n - 1)) && (n > 1 ==> holder != null && (right <==> n % 2 == 1))
    {
      hide Leads, Tree, Distinct, AllLinks, TreeLinks;
      holder, right := null, false;
      var path, k := path0, k0;
      ghost var pos := 1;
      while k > 0
        invariant 0 < pos <= n && Leads(pos, path, k, n)
        invariant holder == At(nodes, Up(pos - 1)) && (pos > 1 ==> (right <==> pos % 2 == 1))
      {
        LeadsOn(pos, path, k, n);
        SlotHolds(pos - 1, holder, right);
        holder := Slot(holder, right);
        right := path % 2 == 1;
        pos := 2 * pos + path % 2;
        path, k := path / 2, k - 1;
        LeadsBound(pos, path, k, n);
      }
      LeadsEnd(pos, path, n);
    }

    lemma SlotHolds(i: nat, holder: Node?<K>, right: bool)
      requires Shape() && i <= |nodes| && holder == At(nodes, Up(i)) && (i > 0 ==> (right <==> i % 2 == 0))
      ensures Slot(holder, right) == At(nodes, i)
    {
      hide Shape;
      ShapeFacts();
      if i > 0 {
        PointersAt(Up(i));
      }
    }

    lemma ShapeFacts()
      requires Shape()
      ensures nelts == |nodes| && min == At(nodes, 0)
    {
      hide Tree, Distinct, AllLinks;
    }

    lemma PointersAt(i: nat)
      requires Shape() && i < |nodes|
      ensures nodes[i] in repr && nodes[i].Pointers() == TreeLinks(nodes, i)
    {
      hide TreeLinks, Distinct, At;
      assert AllLinks(nodes, repr)[i] == TreeLinks(nodes, i);
    }

    // Lifts a node, swap by swap, until its parent is not larger.
    method SiftUp(node: Node<K>, ghost i0: nat)
      requires Shape() && i0 < |nodes| && node == nodes[i0]
      requires StrictOrder(less) && UpHole(less, Keys(nodes, repr), i0)
      modifies this`min, this`nodes, repr`left, repr`right, repr`parent
      ensures Shape() && HeapOrdered(less, Keys(nodes, repr))
    {
      hide Shape, UpHole, StrictOrder, Keys, HeapOrdered, At, Exchange;
      ghost var i: nat := i0;
      ShapeWithin();
      ParentAt(i);
      while node.parent != null && less(node.key, node.parent.key)
        invariant Shape() && Within(nodes, repr) && i < |nodes|
        invariant node == nodes[i] && UpHole(less, Keys(nodes, repr), i)
        invariant node.parent == (if i == 0 then null else nodes[(i - 1) / 2])
        decreases i
      {
        UpStep(less, Keys(nodes, repr), i);
        KeysExchange(nodes, repr, (i - 1) / 2, i);
        ExchangeWithin(nodes, repr, (i - 1) / 2, i);
        SwapAt(node.parent, node, (i - 1) / 2, i);
        i := (i - 1) / 2;
        ParentAt(i);
      }
      UpDone(less, Keys(nodes, repr), i);
    }

    lemma ShapeWithin()
      requires Shape()
      ensures Within(nodes, repr)
    {
    }

    lemma ParentAt(i: nat)
      requires Shape() && i < |nodes|
      ensures nodes[i] in repr && nodes[i].parent == if i == 0 then null else nodes[(i - 1) / 2]
    {
      hide Shape;
      PointersAt(i);
    }

    // Walk down the subtree and swap with the smallest child while it is less.
    method SiftDown(node: Node<K>, ghost i0: nat) returns (ghost i: nat)
      requires Shape() && i0 < |nodes| && node == nodes[i0]
      requires StrictOrder(less) && DownHole(less, Keys(nodes, repr), i0)
      modifies this`min, this`nodes, repr`left, repr`right, repr`parent
      ensures Shape() && i < |nodes| && node == nodes[i] && Within(nodes, repr) && UpHole(less, Keys(nodes, repr), i)
    {
      hide Shape, UpHole, DownHole, StrictOrder, Keys, At, Exchange, HeapOrdered;
      i := i0;
      ShapeWithin();
      while true
        invariant Shape() && Within(nodes, repr) && i < |nodes|
        invariant node == nodes[i] && DownHole(less, Keys(nodes, repr), i)
        decreases |nodes| - i
      {
        var smallest; ghost var s;
        smallest, s := SmallestChild(node, i);
        if smallest == node {
          DownDone(less, Keys(nodes, repr), i);
          break;
        }
        DownStep(less, Keys(nodes, repr), i, s);
        KeysExchange(nodes, repr, i, s);
        ExchangeWithin(nodes, repr, i, s);
        SwapAt(node, smallest, i, s);
        i := s;
      }
    }

    // The smallest among a node and its children.
    method SmallestChild(child: Node<K>, ghost i: nat) returns (smallest: Node<K>, ghost s: nat)
      requires Shape() && Within(nodes, repr) && i < |nodes| && child == nodes[i] && StrictOrder(less)
      ensures s < |nodes| && smallest == nodes[s] && (smallest == child <==> s == i)
      ensures s == i || ((s == 2 * i + 1 || s == 2 * i + 2) && less(smallest.key, child.key))
      ensures forall k :: 0 < k < |nodes| && (k - 1) / 2 == i ==> !less(Keys(nodes, repr)[k], Keys(nodes, repr)[s])
    {
      hide Shape, Keys;
      ChildrenAt(i);
      smallest, s := child, i;
      if child.left != null && less(child.left.key, smallest.key) {
        smallest, s := child.left, 2 * i + 1;
      }
      if child.right != null && less(child.right.key, smallest.key) {
        smallest, s := child.right, 2 * i + 2;
      }
    }

    lemma ChildrenAt(i: nat)
      requires Shape() && i < |nodes|
      ensures nodes[i].left == At(nodes, 2 * i + 1) && nodes[i].right == At(nodes, 2 * i + 2)
      ensures 2 * i + 1 < |nodes| ==> nodes[2 * i + 1] != nodes[i]
      ensures 2 * i + 2 < |nodes| ==> nodes[2 * i + 2] != nodes[i]
    {
      PointersAt(i);
      hide Tree, AllLinks, At;
    }

    method SetSlot(holder: Node?<K>, right: bool, n: Node?<K>)
      modifies this`min, {holder}`left, {holder}`right
      ensures holder == null ==> min == n
      ensures holder != null ==> min == old(min) && holder.Pointers() == WithSide(old(holder.Pointers()), right, n)
    {
      if holder == null {
        min := n;
      } else if right {
        holder.right := n;
      } else {
        holder.left := n;
      }
    }

    // Insert the new node at the left-most free place of the bottom row.
    method Link(newnode: Node<K>, holder: Node?<K>, right: bool)
      requires Shape() && newnode !in repr && newnode.left == null && newnode.right == null
      requires holder == At(nodes, Up(|nodes|)) && (|nodes| > 0 ==> holder != null && (right <==> |nodes| % 2 == 0))
      modifies this`min, this`nelts, this`nodes, this`repr, {holder}`left, {holder}`right, newnode`parent
      ensures Shape() && nodes == old(nodes) + [newnode] && repr == old(repr) + {newnode}
    {
      hide Tree, TreeLinks, Distinct, At, AllLinks, AppendedLinks;
      ghost var was, ls := nodes, AllLinks(nodes, repr);
      AppendKeepsTree(nodes, ls, newnode, right);
      LinkSlot(newnode, holder, right, ls);
      nelts := nelts + 1;
      nodes, repr := nodes + [newnode], repr + {newnode};
      AppendFacts(was, newnode);
      AppendedPointers(was, ls, newnode, right, repr);
    }

    method LinkSlot(newnode: Node<K>, holder: Node?<K>, right: bool, ghost ls: seq<Links<K>>)
      requires Within(nodes, repr) && Distinct(nodes) && ls == AllLinks(nodes, repr)
      requires newnode !in repr && newnode.left == null && newnode.right == null && holder == At(nodes, Up(|nodes|))
      modifies this`min, {holder}`left, {holder}`right, newnode`parent
      ensures newnode.Pointers() == Links(null, null, holder) && min == if holder == null then newnode else old(min)
      ensures forall k :: 0 <= k < |nodes| ==>
                nodes[k].Pointers() == if k == Up(|nodes|) then WithSide(ls[k], right, newnode) else ls[k]
    {
      newnode.parent := holder;
      SetSlot(holder, right, newnode);
    }

    // Takes the last node out of its parent.
    method Unlink(holder: Node?<K>, right: bool) returns (max: Node<K>)
      requires Shape() && nelts > 0 && holder == At(nodes, Up(nelts - 1)) && (nelts > 1 ==> (right <==> nelts % 2 == 1))
      modifies this`min, this`nelts, this`nodes, this`repr, {holder}`left, {holder}`right
      ensures old(nelts) > 0 && max == old(nodes)[old(nelts) - 1] && nodes == old(nodes)[..old(nelts) - 1]
      ensures Shape() && max !in repr && repr == old(repr) - {max}
    {
      hide Tree, TreeLinks, Distinct, At, AllLinks, UnlinkedLinks;
      ghost var was, ls := nodes, AllLinks(nodes, repr);
      SlotHolds(nelts - 1, holder, right);
      DropKeepsTree(nodes, ls, right);
      DropFacts(nodes, repr);
      max := Slot(holder, right);
      UnlinkSlot(holder, right, ls);
      nelts := nelts - 1;
      nodes, repr := nodes[..nelts], repr - {max};
      UnlinkedPointers(was, ls, right, repr);
    }

    method UnlinkSlot(holder: Node?<K>, right: bool, ghost ls: seq<Links<K>>)
      requires Within(nodes, repr) && Distinct(nodes) && ls == AllLinks(nodes, repr) && |nodes| > 0
      requires holder == At(nodes, Up(|nodes| - 1))
      modifies this`min, {holder}`left, {holder}`right
      ensures min == if holder == null then null else old(min)
      ensures forall k :: 0 <= k < |nodes| ==>
                nodes[k].Pointers() == if k == Up(|nodes| - 1) then WithSide(ls[k], right, null) else ls[k]
    {
      SetSlot(holder, right, null);
    }

    // Puts the last node in the place of the removed one.
    method Replace(node: Node<K>, child: Node<K>, ghost i: nat)
      requires Shape() && i < |nodes| && node == nodes[i] && child !in repr
      modifies this`min, this`nodes, this`repr, child`left, child`right, child`parent
      modifies {node.left, node.right}`parent, {node.parent}`left, {node.parent}`right
      ensures Shape() && nodes == old(nodes)[i := child] && repr == old(repr) - {node} + {child}
    {
      hide Tree, TreeLinks, Distinct, At, AllLinks, ReplacedLinks, ReplaceOk, ReplacedAll;
      ghost var was, ls := nodes, AllLinks(nodes, repr);
      ReplaceFacts(nodes, ls, repr, i, child);
      ReplaceSlots(node, child, i, ls);
      nodes, repr := nodes[i := child], repr - {node} + {child};
      ReplacedPointers(was, ls, i, child, repr);
      ReplaceKeepsTree(was, ls, i, child, AllLinks(nodes, repr));
    }

    method ReplaceSlots(node: Node<K>, child: Node<K>, ghost i: nat, ghost ls: seq<Links<K>>)
      requires Within(nodes, repr) && Distinct(nodes) && ls == AllLinks(nodes, repr)
      requires i < |nodes| && node == nodes[i] && child !in repr && ReplaceOk(nodes, ls, i)
      modifies this`min, child`left, child`right, child`parent
      modifies {node.left, node.right}`parent, {node.parent}`left, {node.parent}`right
      ensures child.Pointers() == ls[i] && min == if ls[i].parent == null then child else old(min)
      ensures forall k :: 0 <= k < |nodes| && k != i ==> nodes[k].Pointers() == ReplacedLinks(nodes, ls, i, child, k)
    {
      child.left := node.left;
      child.right := node.right;
      child.parent := node.parent;
      Adopt(child.left, child);
      Adopt(child.right, child);
      Redirect(node.parent, node, child);
    }

    // ---------------------------------------------------------------- the operations

    ghost predicate Valid()
      reads this, repr
    {
      Shape() && StrictOrder(less) && HeapOrdered(less, Keys(nodes, repr))
    }

    constructor (less: (K, K) -> bool)
      requires StrictOrder(less)
      ensures Valid() && repr == {} && this.less == less && min == null
    {
      this.less, min, nelts, nodes, repr := less, null, 0, [], {};
    }

    // The root is the least element.
    lemma MinIsLeast()
      requires Valid()
      ensures nelts == |repr| && (min == null <==> repr == {})
      ensures min != null ==> min in repr && forall n :: n in repr ==> !less(n.key, min.key)
    {
      hide Tree, AllLinks, StrictOrder, HeapOrdered, Distinct;
      CountNodes(nodes, repr);
      assert nodes != [] ==> nodes[0] in repr;
      forall n | n in repr ensures min != null && !less(n.key, min.key) {
        var k :| 0 <= k < |nodes| && nodes[k] == n;
        RootIsMin(less, Keys(nodes, repr), k);
      }
    }

    /** heap_insert: the nodes are those there were and the new one. */
    method Insert(newnode: Node<K>)
      requires Valid() && newnode !in repr && nelts < 0xffff_ffff
      modifies this`min, this`nelts, this`nodes, this`repr, repr`left, repr`right, repr`parent
      modifies newnode`left, newnode`right, newnode`parent
      ensures Valid() && repr == old(repr) + {newnode}
    {
      hide Shape, StrictOrder, HeapOrdered, UpHole, Leads, Keys;
      ShapeFacts();
      ShapeWithin();
      newnode.left := null;
      newnode.right := null;
      newnode.parent := null;
      var path, k := PathTo(1 + nelts);
      var holder, right := Traverse(path, k, 1 + nelts);
      HolderIn(Up(nelts));
      ghost var ks, n := Keys(nodes, repr), |nodes|;
      AppendUpHole(less, ks, newnode.key);
      Link(newnode, holder, right);
      ShapeWithin();
      KeysAppend(nodes, repr);
      assert Keys(nodes, repr) == ks + [newnode.key];
      SiftUp(newnode, n);
    }

    lemma HolderIn(i: int)
      requires Shape()
      ensures OneOf(nodes, At(nodes, i)) && (At(nodes, i) != null ==> At(nodes, i) in repr)
    {
      hide Tree, AllLinks, Distinct;
    }

    /** heap_remove: the nodes are those there were without this one. */
    method Remove(node: Node<K>)
      requires Valid() && (nelts > 0 ==> node in repr)
      modifies this`min, this`nelts, this`nodes, this`repr, repr`left, repr`right, repr`parent
      ensures Valid() && repr == old(repr) - {node}
    {
      hide Shape, StrictOrder, HeapOrdered, UpHole, DownHole, Leads, Keys;
      ShapeFacts();
      if nelts == 0 {
        EmptyRepr();
        return;
      }
      ShapeWithin();
      var path, k := PathTo(nelts);
      var holder, right := Traverse(path, k, nelts);
      HolderIn(Up(nelts - 1));
      ghost var ks := Keys(nodes, repr);
      ghost var all := repr;
      var child := Unlink(holder, right);
      ShapeWithin();
      KeysFront(ks, nodes, repr);
      FrontOrdered(less, ks, |nodes|);
      if child == node {
        // The removed node is the last one; nothing takes its place.
        return;
      }
      ghost var i := PositionOf(node);
      ReplaceDownHole(less, Keys(nodes, repr), i, child.key);
      ghost var front := Keys(nodes, repr);
      NeighboursIn(i);
      Replace(node, child, i);
      ShapeWithin();
      KeysReplaced(front, nodes, repr, i);
      assert Keys(nodes, repr) == front[i := child.key];
      assert repr == all - {node};
      ghost var j := SiftDown(child, i);
      SiftUp(child, j);
    }

    lemma NeighboursIn(i: nat)
      requires Shape() && i < |nodes|
      ensures nodes[i].left != null ==> nodes[i].left in repr
      ensures nodes[i].right != null ==> nodes[i].right in repr
      ensures nodes[i].parent != null ==> nodes[i].parent in repr
    {
      hide Shape;
      PointersAt(i);
      HolderIn(2 * i + 1);
      HolderIn(2 * i + 2);
      HolderIn(Up(i));
    }

    lemma PositionOf(n: Node<K>) returns (i: nat)
      requires Shape() && n in repr
      ensures i < |nodes| && nodes[i] == n
    {
      hide Tree, AllLinks, Distinct;
      i :| 0 <= i < |nodes| && nodes[i] == n;
    }

    lemma EmptyRepr()
      requires Shape() && nelts == 0
      ensures repr == {}
    {
      hide Tree, AllLinks, Distinct;
    }
  }

  function WithSide<K(!new)>(l: Links<K>, right: bool, n: Node?<K>): Links<K> {
    if right then l.(right := n) else l.(left := n)
  }

  // The links after a node is appended.
  ghost function AppendedLinks<K(!new)>(nodes: seq<Node<K>>, ls: seq<Links<K>>, n: Node<K>,
                                        right: bool): (ms: seq<Links<K>>)
    requires |ls| == |nodes|
    ensures |ms| == |nodes| + 1
  {
    var p := Up(|nodes|);
    (if p < 0 then ls else ls[p := WithSide(ls[p], right, n)]) + [Links(null, null, At(nodes, p))]
  }

  lemma AppendedPointers<K(!new)>(nodes: seq<Node<K>>, ls: seq<Links<K>>, n: Node<K>, right: bool, repr: set<Node<K>>)
    requires |ls| == |nodes| && Within(nodes + [n], repr)
    requires n.Pointers() == Links(null, null, At(nodes, Up(|nodes|)))
    requires forall k :: 0 <= k < |nodes| ==>
               nodes[k].Pointers() == if k == Up(|nodes|) then WithSide(ls[k], right, n) else ls[k]
    ensures AllLinks(nodes + [n], repr) == AppendedLinks(nodes, ls, n, right)
  {
    hide WithSide, At;
  }

  lemma AppendKeepsTree<K(!new)>(nodes: seq<Node<K>>, ls: seq<Links<K>>, n: Node<K>, right: bool)
    requires Tree(nodes, ls) && (|nodes| > 0 ==> (right <==> |nodes| % 2 == 0))
    ensures Tree(nodes + [n], AppendedLinks(nodes, ls, n, right))
  {
    var after, ms := nodes + [n], AppendedLinks(nodes, ls, n, right);
    forall k | 0 <= k < |after| ensures ms[k] == TreeLinks(after, k) {
      AppendAt(nodes, ls, n, right, k);
    }
  }

  lemma AppendAt<K(!new)>(nodes: seq<Node<K>>, ls: seq<Links<K>>, n: Node<K>, right: bool, k: nat)
    requires Tree(nodes, ls) && (|nodes| > 0 ==> (right <==> |nodes| % 2 == 0)) && k <= |nodes|
    ensures AppendedLinks(nodes, ls, n, right)[k] == TreeLinks(nodes + [n], k)
  {
    hide Tree;
    if k < |nodes| {
      TreeAt(nodes, ls, k);
    }
  }

  lemma TreeAt<K(!new)>(nodes: seq<Node<K>>, ls: seq<Links<K>>, k: nat)
    requires Tree(nodes, ls) && k < |nodes|
    ensures |ls| == |nodes| && ls[k] == TreeLinks(nodes, k)
  {
    hide TreeLinks;
  }

  lemma AppendFacts<K(!new)>(nodes: seq<Node<K>>, n: Node<K>)
    requires Distinct(nodes) && n !in nodes
    ensures Distinct(nodes + [n]) && At(nodes + [n], 0) == (if nodes == [] then n else At(nodes, 0))
    ensures At(nodes, Up(|nodes|)) == null <==> nodes == []
  {
  }

  // The links after the last node is unlinked.
  ghost function UnlinkedLinks<K(!new)>(nodes: seq<Node<K>>, ls: seq<Links<K>>, right: bool): (ms: seq<Links<K>>)
    requires |ls| == |nodes| && |nodes| > 0
    ensures |ms| == |nodes| - 1
  {
    var p := Up(|nodes| - 1);
    (if p < 0 then ls else ls[p := WithSide(ls[p], right, null)])[..|nodes| - 1]
  }

  lemma UnlinkedPointers<K(!new)>(nodes: seq<Node<K>>, ls: seq<Links<K>>, right: bool, repr: set<Node<K>>)
    requires |ls| == |nodes| && |nodes| > 0 && Within(nodes[..|nodes| - 1], repr)
    requires forall k :: 0 <= k < |nodes| ==>
               nodes[k].Pointers() == if k == Up(|nodes| - 1) then WithSide(ls[k], right, null) else ls[k]
    ensures AllLinks(nodes[..|nodes| - 1], repr) == UnlinkedLinks(nodes, ls, right)
  {
    hide WithSide;
  }

  lemma DropKeepsTree<K(!new)>(nodes: seq<Node<K>>, ls: seq<Links<K>>, right: bool)
    requires Tree(nodes, ls) && |nodes| > 0 && (|nodes| > 1 ==> (right <==> |nodes| % 2 == 1))
    ensures Tree(nodes[..|nodes| - 1], UnlinkedLinks(nodes, ls, right))
  {
    var after, ms := nodes[..|nodes| - 1], UnlinkedLinks(nodes, ls, right);
    forall k | 0 <= k < |after| ensures ms[k] == TreeLinks(after, k) {
      DropAt(nodes, ls, right, k);
    }
  }

  lemma DropAt<K(!new)>(nodes: seq<Node<K>>, ls: seq<Links<K>>, right: bool, k: nat)
    requires Tree(nodes, ls) && k < |nodes| - 1 && (right <==> |nodes| % 2 == 1)
    ensures UnlinkedLinks(nodes, ls, right)[k] == TreeLinks(nodes[..|nodes| - 1], k)
  {
    hide Tree;
    TreeAt(nodes, ls, k);
  }

  lemma DropFacts<K(!new)>(nodes: seq<Node<K>>, repr: set<Node<K>>)
    requires Distinct(nodes) && |nodes| > 0 && Within(nodes, repr) && forall n :: n in repr ==> n in nodes
    ensures var last, front := nodes[|nodes| - 1], nodes[..|nodes| - 1];
            && Distinct(front) && Within(front, repr - {last}) && (forall n :: n in repr - {last} ==> n in front)
            && At(front, 0) == (if |nodes| == 1 then null else At(nodes, 0)) && At(nodes, |nodes| - 1) == last
            && (At(nodes, Up(|nodes| - 1)) == null <==> |nodes| == 1)
  {
    forall n | n in repr && n != nodes[|nodes| - 1] ensures n in nodes[..|nodes| - 1] {
      var k :| 0 <= k < |nodes| && nodes[k] == n;
      assert nodes[..|nodes| - 1][k] == n;
    }
  }

  // The links of the node at k after the node at i is replaced.
  ghost function ReplacedLinks<K(!new)>(nodes: seq<Node<K>>, ls: seq<Links<K>>, i: nat,
                                        child: Node<K>, k: nat): Links<K>
    requires |ls| == |nodes| && i < |nodes| && k < |nodes|
  {
    if k == i then ls[i]
    else if nodes[k] == ls[i].parent then
      (if ls[k].left == nodes[i] then ls[k].(left := child) else ls[k].(right := child))
    else if nodes[k] == ls[i].left || nodes[k] == ls[i].right then ls[k].(parent := child)
    else ls[k]
  }

  ghost predicate ReplaceOk<K(!new)>(nodes: seq<Node<K>>, ls: seq<Links<K>>, i: nat)
    requires |ls| == |nodes| && i < |nodes|
  {
    && OneOf(nodes, ls[i].left) && OneOf(nodes, ls[i].right) && OneOf(nodes, ls[i].parent)
    && nodes[i] != ls[i].left && nodes[i] != ls[i].right && nodes[i] != ls[i].parent
    && (ls[i].parent != null ==> ls[i].parent != ls[i].left && ls[i].parent != ls[i].right)
  }

  lemma ReplaceFacts<K(!new)>(nodes: seq<Node<K>>, ls: seq<Links<K>>, repr: set<Node<K>>, i: nat, child: Node<K>)
    requires Distinct(nodes) && Tree(nodes, ls) && i < |nodes| && child !in repr
    requires Within(nodes, repr) && forall n :: n in repr ==> n in nodes
    ensures ReplaceOk(nodes, ls, i) && (ls[i].parent == null <==> i == 0)
    ensures var after := nodes[i := child];
            && Distinct(after) && Within(after, repr - {nodes[i]} + {child})
            && (forall n :: n in repr - {nodes[i]} + {child} ==> n in after)
            && At(after, 0) == if i == 0 then child else At(nodes, 0)
  {
    hide Tree;
    TreeAt(nodes, ls, i);
    var after := nodes[i := child];
    forall n | n in repr - {nodes[i]} + {child} ensures n in after {
      if n == child {
        assert after[i] == n;
      } else {
        var k :| 0 <= k < |nodes| && nodes[k] == n;
        assert after[k] == n;
      }
    }
  }

  ghost predicate ReplacedAll<K(!new)>(nodes: seq<Node<K>>, ls: seq<Links<K>>, i: nat,
                                       child: Node<K>, ms: seq<Links<K>>)
    requires |ls| == |nodes| && i < |nodes|
  {
    |ms| == |nodes| && forall k :: 0 <= k < |nodes| ==> ms[k] == ReplacedLinks(nodes, ls, i, child, k)
  }

  lemma ReplaceKeepsTree<K(!new)>(nodes: seq<Node<K>>, ls: seq<Links<K>>, i: nat, child: Node<K>, ms: seq<Links<K>>)
    requires Distinct(nodes) && Tree(nodes, ls) && i < |nodes|
    requires child !in nodes && ReplacedAll(nodes, ls, i, child, ms)
    ensures Tree(nodes[i := child], ms)
  {
    hide TreeLinks, ReplacedLinks;
    forall k | 0 <= k < |nodes| ensures ReplacedLinks(nodes, ls, i, child, k) == TreeLinks(nodes[i := child], k) {
      ReplaceAt(nodes, ls, i, child, k);
    }
  }

  lemma ReplaceAt<K(!new)>(nodes: seq<Node<K>>, ls: seq<Links<K>>, i: nat, child: Node<K>, k: nat)
    requires Distinct(nodes) && Tree(nodes, ls) && i < |nodes| && child !in nodes && k < |nodes|
    ensures ReplacedLinks(nodes, ls, i, child, k) == TreeLinks(nodes[i := child], k)
  {
    hide Tree;
    TreeAt(nodes, ls, i);
    TreeAt(nodes, ls, k);
  }

  lemma ReplacedPointers<K(!new)>(nodes: seq<Node<K>>, ls: seq<Links<K>>, i: nat, child: Node<K>, repr: set<Node<K>>)
    requires |ls| == |nodes| && i < |nodes| && Within(nodes[i := child], repr) && child.Pointers() == ls[i]
    requires forall k :: 0 <= k < |nodes| && k != i ==> nodes[k].Pointers() == ReplacedLinks(nodes, ls, i, child, k)
    ensures ReplacedAll(nodes, ls, i, child, AllLinks(nodes[i := child], repr))
  {
  }

  lemma {:induction false} CountNodes<K(!new)>(nodes: seq<Node<K>>, repr: set<Node<K>>)
    requires Distinct(nodes) && Within(nodes, repr) && forall n :: n in repr ==> n in nodes
    ensures |repr| == |nodes|
    decreases |nodes|
  {
    if nodes == [] {
      assert repr == {};
    } else {
      DropFacts(nodes, repr);
      CountNodes(nodes[..|nodes| - 1], repr - {nodes[|nodes| - 1]});
    }
  }

  lemma KeysAppend<K(!new)>(nodes: seq<Node<K>>, repr: set<Node<K>>)
    requires Within(nodes, repr)
    ensures |Keys(nodes, repr)| == |nodes| && forall k :: 0 <= k < |nodes| ==> Keys(nodes, repr)[k] == nodes[k].key
  {
  }

  lemma KeysFront<K(!new)>(ks: seq<K>, nodes: seq<Node<K>>, repr: set<Node<K>>)
    requires Within(nodes, repr) && |ks| == |nodes| + 1 && forall k :: 0 <= k < |nodes| ==> ks[k] == nodes[k].key
    ensures Keys(nodes, repr) == ks[..|nodes|]
  {
  }

  lemma FrontOrdered<K(!new)>(less: (K, K) -> bool, ks: seq<K>, n: nat)
    requires HeapOrdered(less, ks) && n <= |ks|
    ensures HeapOrdered(less, ks[..n])
  {
    forall k | 0 < k < n ensures PairOk(less, ks[..n], k) {
      assert PairOk(less, ks, k);
    }
  }

  lemma KeysReplaced<K(!new)>(front: seq<K>, nodes: seq<Node<K>>, repr: set<Node<K>>, i: nat)
    requires Within(nodes, repr) && |front| == |nodes| && i < |nodes|
    requires forall k :: 0 <= k < |nodes| && k != i ==> front[k] == nodes[k].key
    ensures Keys(nodes, repr) == front[i := nodes[i].key]
  {
  }

  lemma ExchangeWithin<K(!new)>(nodes: seq<Node<K>>, repr: set<Node<K>>, i: nat, c: nat)
    requires i < |nodes| && c < |nodes| && Within(nodes, repr)
    ensures Within(Exchange(nodes, i, c), repr)
    ensures Exchange(nodes, i, c)[i] == nodes[c] && Exchange(nodes, i, c)[c] == nodes[i]
  {
  }

  lemma KeysExchange<K(!new)>(nodes: seq<Node<K>>, repr: set<Node<K>>, i: nat, c: nat)
    requires i < |nodes| && c < |nodes| && Within(nodes, repr)
    ensures Within(Exchange(nodes, i, c), repr)
    ensures Keys(Exchange(nodes, i, c), repr) == Exchange(Keys(nodes, repr), i, c)
  {
  }

  lemma AllLinksExchange<K(!new)>(nodes: seq<Node<K>>, repr: set<Node<K>>, i: nat, c: nat)
    requires i < |nodes| && c < |nodes| && Within(nodes, repr)
    ensures Within(Exchange(nodes, i, c), repr)
    ensures var ms := AllLinks(nodes, repr);
            AllLinks(Exchange(nodes, i, c), repr) == Exchange(ms, i, c)
  {
  }

  // The links ms, after a swap, by the position the nodes had before it.
  ghost predicate AfterSwap<K(!new)>(nodes: seq<Node<K>>, ls: seq<Links<K>>, i: nat, c: nat, ms: seq<Links<K>>)
    requires |ls| == |nodes| && i < |nodes| && c < |nodes|
  {
    && |ms| == |nodes|
    && forall k :: 0 <= k < |nodes| ==> ms[k] == SwappedLinks(nodes[i], nodes[c], ls[i], ls[c], nodes[k], ls[k])
  }

  predicate OneOf<K(!new)>(nodes: seq<Node<K>>, n: Node?<K>) {
    n == null || n in nodes
  }

  ghost predicate NearOk<K(!new)>(nodes: seq<Node<K>>, ls: seq<Links<K>>, i: nat, c: nat)
    requires |ls| == |nodes| && i < |nodes| && c < |nodes|
  {
    && (ls[i].left == nodes[c] || ls[i].right == nodes[c])
    && Around(nodes[i], nodes[c], Sibling(nodes[c], ls[i]), ls[c].left, ls[c].right, ls[i].parent)
    && OneOf(nodes, ls[i].left) && OneOf(nodes, ls[i].right) && OneOf(nodes, ls[i].parent)
    && OneOf(nodes, ls[c].left) && OneOf(nodes, ls[c].right)
  }

  lemma NearIsKnown<K(!new)>(nodes: seq<Node<K>>, ls: seq<Links<K>>, i: nat, c: nat)
    requires Distinct(nodes) && Tree(nodes, ls) && i < c < |nodes| && (c == 2 * i + 1 || c == 2 * i + 2)
    ensures ls[i].parent == null <==> i == 0
    ensures NearOk(nodes, ls, i, c)
  {
    assert ls[i] == TreeLinks(nodes, i) && ls[c] == TreeLinks(nodes, c);
  }

  lemma SwapKeepsTree<K(!new)>(nodes: seq<Node<K>>, ls: seq<Links<K>>, i: nat, c: nat, ms: seq<Links<K>>)
    requires Distinct(nodes) && Tree(nodes, ls)
    requires i < c < |nodes| && (c == 2 * i + 1 || c == 2 * i + 2) && AfterSwap(nodes, ls, i, c, ms)
    ensures Tree(Exchange(nodes, i, c), Exchange(ms, i, c))
  {
    hide TreeLinks, SwappedLinks;
    var after := Exchange(nodes, i, c);
    var ns := Exchange(ms, i, c);
    forall k | 0 <= k < |nodes| ensures ns[k] == TreeLinks(after, k) {
      if k == i {
        SwapAtParent(nodes, ls, i, c);
      } else if k == c {
        SwapAtChild(nodes, ls, i, c);
      } else {
        SwapElsewhere(nodes, ls, i, c, k);
      }
    }
  }

  lemma ExchangeDistinct<K(!new)>(nodes: seq<Node<K>>, i: nat, c: nat)
    requires Distinct(nodes) && i < c < |nodes|
    ensures Distinct(Exchange(nodes, i, c))
    ensures |Exchange(nodes, i, c)| == |nodes|
    ensures forall n :: n in nodes ==> n in Exchange(nodes, i, c)
    ensures At(Exchange(nodes, i, c), 0) == if i == 0 then nodes[c] else At(nodes, 0)
  {
    var after := Exchange(nodes, i, c);
    forall n | n in nodes ensures n in after {
      var k :| 0 <= k < |nodes| && nodes[k] == n;
      assert after[if k == i then c else if k == c then i else k] == n;
    }
  }

  lemma SwapAtParent<K(!new)>(nodes: seq<Node<K>>, ls: seq<Links<K>>, i: nat, c: nat)
    requires Distinct(nodes) && Tree(nodes, ls) && i < c < |nodes| && (c == 2 * i + 1 || c == 2 * i + 2)
    ensures TreeLinks(Exchange(nodes, i, c), i) == SwappedLinks(nodes[i], nodes[c], ls[i], ls[c], nodes[c], ls[c])
  {
    assert ls[i] == TreeLinks(nodes, i);
  }

  lemma SwapAtChild<K(!new)>(nodes: seq<Node<K>>, ls: seq<Links<K>>, i: nat, c: nat)
    requires Distinct(nodes) && Tree(nodes, ls) && i < c < |nodes| && (c == 2 * i + 1 || c == 2 * i + 2)
    ensures TreeLinks(Exchange(nodes, i, c), c) == SwappedLinks(nodes[i], nodes[c], ls[i], ls[c], nodes[i], ls[i])
  {
    assert ls[c] == TreeLinks(nodes, c);
  }

  lemma SwapElsewhere<K(!new)>(nodes: seq<Node<K>>, ls: seq<Links<K>>, i: nat, c: nat, k: nat)
    requires Distinct(nodes) && Tree(nodes, ls) && i < c < |nodes| && (c == 2 * i + 1 || c == 2 * i + 2)
    requires k < |nodes| && k != i && k != c
    ensures TreeLinks(Exchange(nodes, i, c), k) == SwappedLinks(nodes[i], nodes[c], ls[i], ls[c], nodes[k], ls[k])
  {
    assert ls[i] == TreeLinks(nodes, i) && ls[c] == TreeLinks(nodes, c) && ls[k] == TreeLinks(nodes, k);
  }
}
