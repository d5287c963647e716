/** Circular doubly linked lists through a header node: the thread pool's queues and the list of live snapshots. */
module Queue {
  import opened Wrappers

  class Node<T> {
    const data: T            // the structure the node is embedded in
    var next: Node?<T>
    var prev: Node?<T>

    constructor (data: T)
      ensures this.data == data && next == null && prev == null
    {
      this.data, next, prev := data, null, null;
    }
  }

  ghost predicate Linked<T>(a: Node<T>, b: Node<T>)
    reads a`next, b`prev
  {
    a.next == b && b.prev == a
  }

  ghost predicate DistinctFrom<T(!new)>(h: Node<T>, items: seq<Node<T>>) {
    h !in items && Distinct(items)
  }

  // Each item is linked to the one after it.
  ghost predicate Chained<T(!new)>(items: seq<Node<T>>)
    reads items
  {
    forall i, j :: 0 <= i < j < |items| && j == i + 1 ==> Linked(items[i], items[j])
  }

  // The items of the queue with header h, first to last; the circle closes through the header.
  ghost predicate Ring<T(!new)>(h: Node<T>, items: seq<Node<T>>)
    reads h, items
  {
    && DistinctFrom(h, items) && Chained(items)
    && (items == [] ==> Linked(h, h))
    && (items != [] ==> Linked(h, items[0]) && Linked(items[|items| - 1], h))
  }

  // QUEUE_INIT
  method Init<T(!new)>(h: Node<T>)
    modifies h
    ensures Ring(h, [])
  {
    h.next := h;
    h.prev := h;
  }

  // QUEUE_EMPTY
  method Empty<T(!new)>(h: Node<T>, ghost items: seq<Node<T>>) returns (b: bool)
    requires Ring(h, items)
    ensures b <==> items == []
  {
    return h.next == h;
  }

  // QUEUE_HEAD
  method Head<T(!new)>(h: Node<T>, ghost items: seq<Node<T>>) returns (q: Node<T>)
    requires Ring(h, items)
    ensures q == if items == [] then h else items[0]
  {
    return h.next;
  }

  lemma Between<T(!new)>(h: Node<T>, items: seq<Node<T>>, i: nat)
    requires Ring(h, items) && i < |items|
    ensures items[i].prev == (if i == 0 then h else items[i - 1])
    ensures items[i].next == (if i == |items| - 1 then h else items[i + 1])
  {
    if i > 0 {
      assert Linked(items[i - 1], items[i]);
    }
    if i + 1 < |items| {
      assert Linked(items[i], items[i + 1]);
    }
  }

  // QUEUE_INSERT_HEAD
  method InsertHead<T(!new)>(h: Node<T>, q: Node<T>, ghost items: seq<Node<T>>)
    requires Ring(h, items) && q != h && q !in items
    modifies h, q, items
    ensures Ring(h, [q] + items)
  {
    q.next := h.next;
    q.prev := h;
    q.next.prev := q;
    h.next := q;
  }

  // QUEUE_INSERT_TAIL
  method InsertTail<T(!new)>(h: Node<T>, q: Node<T>, ghost items: seq<Node<T>>)
    requires Ring(h, items) && q != h && q !in items
    modifies h, q, items
    ensures Ring(h, items + [q])
  {
    q.next := h;
    q.prev := h.prev;
    q.prev.next := q;
    h.prev := q;
  }

  // QUEUE_REMOVE: the node's own links stay.
  method Remove<T(!new)>(q: Node<T>, ghost h: Node<T>, ghost items: seq<Node<T>>, ghost i: nat)
    requires Ring(h, items) && i < |items| && q == items[i]
    modifies h, items
    ensures Ring(h, items[..i] + items[i + 1..])
    ensures q.next == old(q.next) && q.prev == old(q.prev)
  {
    Between(h, items, i);
    assert q.prev != q && q.next != q;
    q.prev.next := q.next;
    q.next.prev := q.prev;
  }

  lemma DistinctAppend<T(!new)>(h: Node<T>, a: seq<Node<T>>, b: seq<Node<T>>)
    requires DistinctFrom(h, a) && DistinctFrom(h, b) && forall x :: x in a ==> x !in b
    ensures DistinctFrom(h, a + b)
  {
    forall i, j | 0 <= i < j < |a + b| ensures (a + b)[i] != (a + b)[j] {
      if i < |a| <= j {
        assert (a + b)[i] in a && (a + b)[j] in b;
      }
    }
  }

  lemma ChainedParts<T(!new)>(h: Node<T>, a: seq<Node<T>>, b: seq<Node<T>>)
    requires Ring(h, a + b) && b != []
    ensures DistinctFrom(h, a) && DistinctFrom(h, b) && (forall x :: x in a ==> x !in b) && Chained(a) && Chained(b)
    ensures if a == [] then Linked(h, b[0]) else Linked(h, a[0]) && Linked(a[|a| - 1], b[0])
    ensures Linked(b[|b| - 1], h)
  {
    var c := a + b;
    forall i, j | 0 <= i < |a| && 0 <= j < |b| ensures a[i] != b[j] {
      assert c[i] != c[|a| + j];
    }
    forall i, j | 0 <= i < j < |a| ensures a[i] != a[j] && (j == i + 1 ==> Linked(a[i], a[j])) {
      assert c[i] != c[j] && (j == i + 1 ==> Linked(c[i], c[j]));
    }
    forall i, j | 0 <= i < j < |b| ensures b[i] != b[j] && (j == i + 1 ==> Linked(b[i], b[j])) {
      assert c[|a| + i] != c[|a| + j] && (j == i + 1 ==> Linked(c[|a| + i], c[|a| + j]));
    }
    assert forall x :: x in a ==> x in c;
    assert forall x :: x in b ==> x in c;
    if a != [] {
      assert Linked(c[|a| - 1], c[|a|]);
    }
  }

  // QUEUE_ADD: the items of n follow those of h.
  method Add<T(!new)>(h: Node<T>, n: Node<T>, ghost a: seq<Node<T>>, ghost b: seq<Node<T>>)
    requires Ring(h, a) && Ring(n, b) && h != n && h !in b && n !in a && forall x :: x in a ==> x !in b
    modifies h, n, a, b
    ensures Ring(h, a + b)
  {
    DistinctAppend(h, a, b);
    h.prev.next := n.next;
    n.next.prev := h.prev;
    h.prev := n.prev;
    h.prev.next := h;
  }

  // QUEUE_SPLIT: the items from q on go to n.
  method Split<T(!new)>(h: Node<T>, q: Node<T>, n: Node<T>, ghost a: seq<Node<T>>, ghost b: seq<Node<T>>)
    requires Ring(h, a + b) && b != [] && q == b[0] && n != h && n !in a && n !in b
    modifies h, n, a, b
    ensures Ring(h, a) && Ring(n, b)
  {
    ChainedParts(h, a, b);
    n.prev := h.prev;
    n.prev.next := n;
    n.next := q;
    h.prev := q.prev;
    h.prev.next := h;
    q.prev := n;
  }

  // QUEUE_MOVE: n takes all items and h is left empty.
  method Move<T(!new)>(h: Node<T>, n: Node<T>, ghost items: seq<Node<T>>)
    requires Ring(h, items) && n != h && n !in items
    modifies h, n, items
    ensures Ring(h, []) && Ring(n, items)
  {
    hide Ring;
    assert items == [] + items;
    var empty := Empty(h, items);
    if empty {
      Init(n);
    } else {
      var q := Head(h, items);
      Split(h, q, n, [], items);
    }
  }
}
