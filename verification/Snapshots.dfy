/** The list of live snapshots: a circular list in which the oldest snapshot is always first. */
module Snapshots {
  import opened Queue

  ghost function NumbersOf(live: seq<Node<nat>>): (s: seq<nat>)
    ensures |s| == |live| && forall i :: 0 <= i < |live| ==> s[i] == live[i].data
  {
    if live == [] then [] else NumbersOf(live[..|live| - 1]) + [live[|live| - 1].data]
  }

  class SnapshotList {
    const head: Node<nat>
    ghost var live: seq<Node<nat>>       // the snapshots, oldest first

    ghost predicate Valid()
      reads this, head, live
    {
      Ring(head, live) && forall i, j :: 0 <= i <= j < |live| ==> live[i].data <= live[j].data
    }

    // The sequence numbers of the live snapshots.
    ghost function Numbers(): (s: seq<nat>)
      reads this
      ensures |s| == |live| && forall i :: 0 <= i < |live| ==> s[i] == live[i].data
    {
      NumbersOf(live)
    }

    constructor ()
      ensures Valid() && Numbers() == [] && fresh(head)
    {
      var h := new Node<nat>(0);
      Init(h);
      head, live := h, [];
    }

    method IsEmpty() returns (b: bool)
      requires Valid()
      ensures b <==> Numbers() == []
    {
      b := Empty(head, live);
    }

    /** oldest(): no live snapshot is older. */
    method Oldest() returns (snapshot: Node<nat>)
      requires Valid() && Numbers() != []
      ensures snapshot == live[0] && snapshot.data == Numbers()[0] && forall s :: s in Numbers() ==> snapshot.data <= s
    {
      snapshot := head.next;
    }

    method Newest() returns (snapshot: Node<nat>)
      requires Valid() && Numbers() != []
      ensures snapshot == live[|live| - 1] && forall s :: s in Numbers() ==> s <= snapshot.data
    {
      snapshot := head.prev;
    }

    // A new snapshot becomes the newest of the list; sequence numbers must not go down.
    method New(sequenceNumber: nat) returns (snapshot: Node<nat>)
      requires Valid() && forall s :: s in Numbers() ==> s <= sequenceNumber
      modifies this, head, live
      ensures Valid() && fresh(snapshot) && snapshot.data == sequenceNumber
      ensures live == old(live) + [snapshot] && Numbers() == old(Numbers()) + [sequenceNumber]
    {
      hide Ring;
      snapshot := new Node(sequenceNumber);
      ghost var numbers := Numbers();
      assert forall i :: 0 <= i < |live| ==> numbers[i] in numbers;
      InsertTail(head, snapshot, live);
      live := live + [snapshot];
    }

    // Removes a live snapshot, wherever it is in the list.
    method Delete(snapshot: Node<nat>, ghost i: nat)
      requires Valid() && i < |live| && snapshot == live[i]
      modifies this, head, live
      ensures Valid() && live == old(live[..i] + live[i + 1..])
      ensures Numbers() == old(Numbers()[..i] + Numbers()[i + 1..])
    {
      Remove(snapshot, head, live, i);
      live := live[..i] + live[i + 1..];
    }
  }

  /** The first step of a merge (DoCompactionWork): no live snapshot is below the chosen sequence number, and none
      taken later will be.
   */
  method SmallestSnapshot(snapshots: SnapshotList, lastSequence: nat) returns (smallest: nat)
    requires snapshots.Valid() && forall s :: s in snapshots.Numbers() ==> s <= lastSequence
    ensures smallest <= lastSequence && forall s :: s in snapshots.Numbers() ==> smallest <= s
    ensures smallest == if snapshots.Numbers() == [] then lastSequence else snapshots.Numbers()[0]
  {
    var none := snapshots.IsEmpty();
    if none {
      smallest := lastSequence;
    } else {
      var oldest := snapshots.Oldest();
      assert oldest.data in snapshots.Numbers();
      smallest := oldest.data;
    }
  }
}
