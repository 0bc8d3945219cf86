/**
 * The intrusive doubly linked list: nodes carry their own links, the list holds a
 * sentinel root.  Every operation is proved to refine an operation on the sequence
 * of linked nodes.
 */
module Intrusive {
  import opened Base
  import opened Ordering

  class Node<T> {
    var owner: Option<T>
    var list: List?<T>
    var next: Node<T>
    var prev: Node<T>

    constructor (owner: Option<T>)
      ensures this.owner == owner && Unlinked()
    {
      this.owner := owner;
      list, next, prev := null, this, this;
    }

    ghost predicate Unlinked()
      reads this
    {
      list == null && next == this && prev == this
    }

    /** Take this node out of whatever ring it is in. */
    method Unlink()
      requires next.prev == this && prev.next == this
      modifies this`next, this`prev, this`list, next`prev, prev`next
      ensures Unlinked()
      ensures old(next) != this ==> old(next).prev == old(prev)
      ensures old(prev) != this ==> old(prev).next == old(next)
    {
      next.prev := prev;
      prev.next := next;
      next := this;
      prev := this;
      list := null;
    }

    /** Link this node in front of `pos`. */
    method LinkBefore(pos: Node<T>)
      requires Unlinked() && pos != this && pos.prev != this
      modifies this`next, this`prev, this`list, pos`prev, pos.prev`next
      ensures next == pos && prev == old(pos.prev) && list == old(pos.list)
      ensures pos.prev == this && old(pos.prev).next == this
    {
      next := pos;
      prev := pos.prev;
      list := pos.list;
      pos.prev.next := this;
      pos.prev := this;
    }
  }

  /** The ring through the root: position 0 and position |nodes| + 1 are the root. */
  ghost function RingAt<T>(root: Node<T>, nodes: seq<Node<T>>, k: nat): Node<T>
    requires k <= |nodes| + 1
  {
    if k == 0 || k == |nodes| + 1 then root else nodes[k - 1]
  }

  /** Two neighbours on the ring know of each other. */
  ghost predicate Joined<T>(root: Node<T>, nodes: seq<Node<T>>, k: nat)
    requires k <= |nodes|
    reads root, nodes
  {
    && RingAt(root, nodes, k).next == RingAt(root, nodes, k + 1)
    && RingAt(root, nodes, k + 1).prev == RingAt(root, nodes, k)
  }

  /** `next` and `prev` are mutually inverse steps around one ring through the root. */
  ghost predicate Ring<T>(root: Node<T>, nodes: seq<Node<T>>)
    reads root, nodes
  {
    forall k: nat | k <= |nodes| :: Joined(root, nodes, k)
  }

  lemma RingAfterRemove<T>(root: Node<T>, nodes: seq<Node<T>>, k: nat, i: nat)
    requires k < |nodes| && i < |nodes|
    ensures RingAt(root, RemoveAt(nodes, k), i) == RingAt(root, nodes, if i <= k then i else i + 1)
    ensures RingAt(root, RemoveAt(nodes, k), i + 1) == RingAt(root, nodes, if i < k then i + 1 else i + 2)
  {
  }

  lemma RingAfterInsert<T>(root: Node<T>, nodes: seq<Node<T>>, k: nat, node: Node<T>, i: nat)
    requires k <= |nodes| && i <= |nodes| + 1
    ensures RingAt(root, InsertAt(nodes, k, node), i) ==
            if i == k + 1 then node else RingAt(root, nodes, if i <= k then i else i - 1)
    ensures RingAt(root, InsertAt(nodes, k, node), i + 1) ==
            if i == k then node else RingAt(root, nodes, if i < k then i + 1 else i)
  {
  }

  /** The ring without one of its nodes. */
  method CutOut<T>(ghost root: Node<T>, ghost nodes: seq<Node<T>>, ghost k: nat, node: Node<T>)
    requires Ring(root, nodes) && NoDup(nodes) && root !in nodes && k < |nodes| && node == nodes[k]
    modifies root, nodes
    ensures Ring(root, RemoveAt(nodes, k)) && node.Unlinked()
    ensures root.list == old(root.list) && root.owner == old(root.owner)
    ensures forall n | n in nodes :: n.owner == old(n.owner) && (n != node ==> n.list == old(n.list))
  {
    assert Joined(root, nodes, k) && Joined(root, nodes, k + 1);
    node.Unlink();
    forall i: nat | i <= |nodes| - 1 ensures Joined(root, RemoveAt(nodes, k), i) {
      RingAfterRemove(root, nodes, k, i);
      assert old(Joined(root, nodes, if i < k then i else i + 1));
    }
  }

  /** The ring with one more node. */
  method PutIn<T>(ghost root: Node<T>, ghost nodes: seq<Node<T>>, ghost k: nat, node: Node<T>, pos: Node<T>)
    requires Ring(root, nodes) && NoDup(nodes) && root !in nodes && k <= |nodes| && pos == RingAt(root, nodes, k + 1)
    requires node !in nodes && node != root && node.Unlinked()
    modifies root, nodes, node
    ensures Ring(root, InsertAt(nodes, k, node)) && node.list == old(pos.list)
    ensures root.list == old(root.list) && root.owner == old(root.owner) && node.owner == old(node.owner)
    ensures forall n | n in nodes :: n.owner == old(n.owner) && n.list == old(n.list)
  {
    assert Joined(root, nodes, k);
    node.LinkBefore(pos);
    forall i: nat | i <= |nodes| + 1 ensures Joined(root, InsertAt(nodes, k, node), i) {
      RingAfterInsert(root, nodes, k, node, i);
      assert old(Joined(root, nodes, if i <= k then Min(i, |nodes|) else i - 1));
    }
  }

  /** The elements the nodes of a ring belong to. */
  ghost predicate OwnedBy<T>(nodes: seq<Node<T>>, s: seq<T>)
    reads nodes
  {
    |s| == |nodes| && forall i | 0 <= i < |nodes| :: nodes[i].owner == Some(s[i])
  }

  lemma RingNeighbours<T>(root: Node<T>, nodes: seq<Node<T>>, k: nat)
    requires Ring(root, nodes) && 0 < k <= |nodes|
    ensures nodes[k - 1].next == RingAt(root, nodes, k + 1) && nodes[k - 1].prev == RingAt(root, nodes, k - 1)
    ensures RingAt(root, nodes, k + 1).prev == nodes[k - 1] && RingAt(root, nodes, k - 1).next == nodes[k - 1]
  {
    assert Joined(root, nodes, k) && Joined(root, nodes, k - 1);
  }

  /** The node in front of which `prioritize` would put `node`. */
  method WalkForward<T>(root: Node<T>, node: Node<T>, less: (T, T) -> bool, ghost nodes: seq<Node<T>>,
                        ghost s: seq<T>, ghost k: nat)
    returns (pos: Node<T>, ghost j: nat)
    requires Ring(root, nodes) && NoDup(nodes) && root !in nodes && OwnedBy(nodes, s) && k < |nodes| && nodes[k] == node
    ensures j == Rise(s, s[k], k, less) && pos == nodes[j]
  {
    pos, j := node, k;
    assert Joined(root, nodes, 0);
    while pos != root.next
      invariant 0 <= j <= k && pos == nodes[j]
      invariant forall i | j <= i < k :: less(s[k], s[i])
      decreases j
    {
      RingNeighbours(root, nodes, j + 1);
      if !less(node.owner.value, pos.prev.owner.value) {
        break;
      }
      pos := pos.prev;
      j := j - 1;
    }
    RiseIsFirst(s, s[k], k, less, j);
  }

  /** The node, or the root, in front of which `deprioritize` would put `node`. */
  method WalkBack<T>(root: Node<T>, node: Node<T>, less: (T, T) -> bool, ghost nodes: seq<Node<T>>, ghost s: seq<T>,
                     ghost k: nat)
    returns (pos: Node<T>, ghost j: nat)
    requires Ring(root, nodes) && NoDup(nodes) && root !in nodes && OwnedBy(nodes, s) && k < |nodes| && nodes[k] == node
    ensures j == Sink(s, s[k], k + 1, less) && pos == RingAt(root, nodes, j + 1)
    ensures pos != node && (pos == node.next <==> j == k + 1)
  {
    RingNeighbours(root, nodes, k + 1);
    pos, j := node.next, k + 1;
    while pos != root
      invariant k < j <= |nodes| && pos == RingAt(root, nodes, j + 1)
      invariant forall i | k < i < j :: !less(s[k], s[i])
      decreases |nodes| - j
    {
      if less(node.owner.value, pos.owner.value) {
        break;
      }
      RingNeighbours(root, nodes, j + 1);
      pos := pos.next;
      j := j + 1;
    }
    SinkIsFirst(s, s[k], k + 1, less, j);
  }

  class List<T> {
    const root: Node<T>
    var count: nat

    /** The linked nodes, front to back. */
    ghost var nodes: seq<Node<T>>
    /** Every node that may ever be linked here; some may be linked in other lists. */
    ghost const pool: set<Node<T>>

    /** All of the invariant but the element count. */
    ghost predicate Linked()
      reads this, root, pool
    {
      && root !in pool && root.list == this && root.owner.None?
      && NoDup(nodes)
      && (forall k | 0 <= k < |nodes| :: nodes[k] in pool)
      && (forall n | n in pool :: n.owner.Some?)
      && (forall n | n in pool :: n.list == this <==> n in nodes)
      && (forall n | n in pool && n.list == null :: n.Unlinked())
      && Ring(root, nodes)
    }

    ghost predicate Valid()
      reads this, root, pool
    {
      Linked() && count == |nodes|
    }

    /** The elements the list holds, front to back. */
    ghost function Owners(): (s: seq<T>)
      requires Linked()
      reads this, root, pool
      ensures |s| == |nodes|
    {
      seq(|nodes|, k requires 0 <= k < |nodes| && nodes[k].owner.Some? reads this, nodes => nodes[k].owner.value)
    }

    constructor (ghost pool: set<Node<T>>)
      requires forall n | n in pool :: n.owner.Some? && (n.list == null ==> n.Unlinked())
      ensures Valid() && nodes == [] && this.pool == pool && fresh(root)
    {
      var r := new Node(None);
      root, count, nodes := r, 0, [];
      this.pool := pool;
      new;
      root.list := this;
    }

    method Contains(node: Node<T>) returns (b: bool)
      requires Linked() && node in pool
      ensures b <==> node in nodes
    {
      b := node.list == this;
    }

    method Empty() returns (b: bool)
      requires Linked()
      ensures b <==> nodes == []
    {
      b := root == root.next;
      assert Joined(root, nodes, 0);
    }

    method Front() returns (x: T)
      requires Linked() && nodes != []
      ensures x == Owners()[0]
    {
      assert Joined(root, nodes, 0);
      x := root.next.owner.value;
    }

    method Back() returns (x: T)
      requires Linked() && nodes != []
      ensures x == Owners()[|nodes| - 1]
    {
      assert Joined(root, nodes, |nodes|);
      x := root.prev.owner.value;
    }

    /** Take a linked node out of the ring, leaving `count` to the caller. */
    method Unlink(node: Node<T>, ghost k: nat)
      requires Linked() && k < |nodes| && nodes[k] == node
      modifies this`nodes, root, pool
      ensures Linked() && nodes == RemoveAt(old(nodes), k)
      ensures node.Unlinked()
      ensures forall n | n in pool :: n.owner == old(n.owner)
      ensures forall n | n in pool && n !in old(nodes) :: unchanged(n)
    {
      RemoveMembers(nodes, k);
      CutOut(root, nodes, k, node);
      nodes := RemoveAt(nodes, k);
    }

    /** Put an unlinked node at index `k`, in front of `pos`, leaving `count` to the caller. */
    method LinkBefore(pos: Node<T>, node: Node<T>, ghost k: nat)
      requires Linked() && k <= |nodes| && pos == RingAt(root, nodes, k + 1)
      requires node in pool && node.Unlinked()
      modifies this`nodes, root, pool
      ensures Linked() && nodes == InsertAt(old(nodes), k, node)
      ensures forall n | n in pool :: n.owner == old(n.owner)
      ensures forall n | n in pool && n !in old(nodes) && n != node :: unchanged(n)
    {
      InsertMembers(nodes, k, node);
      PutIn(root, nodes, k, node, pos);
      nodes := InsertAt(nodes, k, node);
    }

    /** `insert(pos, node)`. */
    method Insert(pos: Node<T>, node: Node<T>, ghost k: nat)
      requires Valid() && k <= |nodes| && pos == RingAt(root, nodes, k + 1)
      requires node in pool && node.Unlinked()
      modifies this, root, pool
      ensures Valid() && nodes == InsertAt(old(nodes), k, node)
      ensures forall n | n in pool :: n.owner == old(n.owner)
      ensures forall n | n in pool && n !in old(nodes) && n != node :: unchanged(n)
    {
      count := count + 1;
      LinkBefore(pos, node, k);
    }

    /** `remove(node)`: the node may be linked here or nowhere; the next node is returned. */
    method Remove(node: Node<T>, ghost k: nat) returns (next: Node<T>)
      requires Valid() && node in pool
      requires node.list == this || node.list == null
      requires node in nodes ==> k < |nodes| && nodes[k] == node
      modifies this, root, pool
      ensures Valid()
      ensures old(node in nodes) ==>
                nodes == RemoveAt(old(nodes), k) && next == RingAt(root, nodes, k + 1) && node.Unlinked()
      ensures old(node !in nodes) ==>
                nodes == old(nodes) && next == node
      ensures forall n | n in pool :: n.owner == old(n.owner)
      ensures forall n | n in pool && n !in old(nodes) :: unchanged(n)
    {
      var linked := Contains(node);
      next := node.next;
      if linked {
        RingNeighbours(root, nodes, k + 1);
        count := count - 1;
        Unlink(node, k);
        RingAfterRemove(root, old(nodes), k, k);
      } else {
        node.Unlink();
      }
    }

    method PushBack(node: Node<T>)
      requires Valid() && node in pool && node.Unlinked()
      modifies this, root, pool
      ensures Valid() && nodes == old(nodes) + [node]
      ensures forall n | n in pool :: n.owner == old(n.owner)
      ensures forall n | n in pool && n !in old(nodes) && n != node :: unchanged(n)
    {
      count := count + 1;
      LinkBefore(root, node, |nodes|);
    }

    method PushFront(node: Node<T>)
      requires Valid() && node in pool && node.Unlinked()
      modifies this, root, pool
      ensures Valid() && nodes == [node] + old(nodes)
      ensures forall n | n in pool :: n.owner == old(n.owner)
      ensures forall n | n in pool && n !in old(nodes) && n != node :: unchanged(n)
    {
      assert Joined(root, nodes, 0);
      count := count + 1;
      LinkBefore(root.next, node, 0);
    }

    method PopBack()
      requires Valid() && nodes != []
      modifies this, root, pool
      ensures Valid() && nodes == old(nodes)[..|old(nodes)| - 1] && old(nodes[|nodes| - 1]).Unlinked()
      ensures forall n | n in pool :: n.owner == old(n.owner)
      ensures forall n | n in pool && n !in old(nodes) :: unchanged(n)
    {
      assert Joined(root, nodes, |nodes|);
      count := count - 1;
      Unlink(root.prev, |nodes| - 1);
    }

    method PopFront()
      requires Valid() && nodes != []
      modifies this, root, pool
      ensures Valid() && nodes == old(nodes)[1..] && old(nodes[0]).Unlinked()
      ensures forall n | n in pool :: n.owner == old(n.owner)
      ensures forall n | n in pool && n !in old(nodes) :: unchanged(n)
    {
      assert Joined(root, nodes, 0);
      count := count - 1;
      Unlink(root.next, 0);
    }

    /** Unlink every node, last first. */
    method Clear()
      requires Valid()
      modifies this, root, pool
      ensures Valid() && nodes == [] && count == 0
      ensures forall n | n in old(nodes) :: n.Unlinked()
      ensures forall n | n in pool && n !in old(nodes) :: unchanged(n)
    {
      while root.prev != root
        invariant Linked() && nodes <= old(nodes)
        invariant forall n | n in old(nodes) && n !in nodes :: n.Unlinked()
        invariant forall n | n in pool && n !in old(nodes) :: unchanged(n)
        decreases |nodes|
      {
        assert Joined(root, nodes, |nodes|);
        ghost var before := nodes;
        Unlink(root.prev, |nodes| - 1);
        assert nodes == before[..|before| - 1];
      }
      assert Joined(root, nodes, |nodes|);
      count := 0;
    }

    /** Remove a node and insert it again in front of `pos`, another node or the root. */
    method Relocate(node: Node<T>, pos: Node<T>, ghost k: nat, ghost j: nat)
      requires Valid() && k < |nodes| && j < |nodes| && nodes[k] == node
      requires pos == RingAt(root, nodes, if j < k then j + 1 else j + 2) && pos != node
      modifies this, root, pool
      ensures Valid() && nodes == Move(old(nodes), k, j)
      ensures forall n | n in pool :: n.owner == old(n.owner)
      ensures forall n | n in pool && n !in old(nodes) :: unchanged(n)
    {
      RingAfterRemove(root, nodes, k, j);
      var _ := Remove(node, k);
      Insert(pos, node, j);
    }

    /** The same, seen from the elements. */
    method RelocateOwner(node: Node<T>, pos: Node<T>, ghost k: nat, ghost j: nat)
      requires Valid() && k < |nodes| && j < |nodes| && nodes[k] == node
      requires pos == RingAt(root, nodes, if j < k then j + 1 else j + 2) && pos != node
      modifies this, root, pool
      ensures Valid() && nodes == Move(old(nodes), k, j) && Owners() == Move(old(Owners()), k, j)
      ensures forall n | n in pool :: n.owner == old(n.owner)
      ensures forall n | n in pool && n !in old(nodes) :: unchanged(n)
    {
      Relocate(node, pos, k, j);
      forall i | 0 <= i < |nodes| ensures Owners()[i] == Move(old(Owners()), k, j)[i] {
        MoveAt(old(nodes), k, j, i);
        MoveAt(old(Owners()), k, j, i);
      }
    }

    lemma OwnersAt()
      requires Linked()
      ensures OwnedBy(nodes, Owners()) && root !in nodes
    {
    }

    method PlaceForward(node: Node<T>, less: (T, T) -> bool, ghost k: nat) returns (pos: Node<T>, ghost j: nat)
      requires Linked() && k < |nodes| && nodes[k] == node
      ensures j == Rise(Owners(), Owners()[k], k, less) && pos == nodes[j]
    {
      OwnersAt();
      pos, j := WalkForward(root, node, less, nodes, Owners(), k);
    }

    method PlaceBack(node: Node<T>, less: (T, T) -> bool, ghost k: nat) returns (pos: Node<T>, ghost j: nat)
      requires Linked() && k < |nodes| && nodes[k] == node
      ensures j == Sink(Owners(), Owners()[k], k + 1, less) && pos == RingAt(root, nodes, j + 1)
      ensures pos != node && (pos == node.next <==> j == k + 1)
    {
      OwnersAt();
      pos, j := WalkBack(root, node, less, nodes, Owners(), k);
    }

    /** `prioritize`: the list becomes the sequence-level `Prioritized`. */
    method Prioritize(node: Node<T>, less: (T, T) -> bool, ghost k: nat) returns (ghost j: nat)
      requires Valid() && k < |nodes| && nodes[k] == node
      modifies this, root, pool
      ensures Valid()
      ensures j < |old(nodes)| && nodes == Move(old(nodes), k, j)
      ensures Owners() == Prioritized(old(Owners()), k, less) == Move(old(Owners()), k, j)
      ensures forall n | n in pool :: n.owner == old(n.owner)
      ensures forall n | n in pool && n !in old(nodes) :: unchanged(n)
    {
      var pos;
      pos, j := PlaceForward(node, less, k);
      if pos != node {
        RelocateOwner(node, pos, k, j);
      } else {
        MoveNowhere(nodes, k);
        MoveNowhere(Owners(), k);
      }
    }

    /** `deprioritize`: the list becomes the sequence-level `Deprioritized`. */
    method Deprioritize(node: Node<T>, less: (T, T) -> bool, ghost k: nat) returns (ghost j: nat)
      requires Valid() && k < |nodes| && nodes[k] == node
      modifies this, root, pool
      ensures Valid()
      ensures j < |old(nodes)| && nodes == Move(old(nodes), k, j)
      ensures Owners() == Deprioritized(old(Owners()), k, less) == Move(old(Owners()), k, j)
      ensures forall n | n in pool :: n.owner == old(n.owner)
      ensures forall n | n in pool && n !in old(nodes) :: unchanged(n)
    {
      var pos, stop := PlaceBack(node, less, k);
      j := stop - 1;
      if pos != node.next {
        RelocateOwner(node, pos, k, j);
      } else {
        MoveNowhere(nodes, k);
        MoveNowhere(Owners(), k);
      }
    }
  }
}
