/** The intrusive doubly linked list under the request queues and the LRU array: every element carries its own links
    and knows the list it is on. What else it carries is `data`, which the list never touches. */
module InList {

  class Node<T> {
    var next: Node?<T>
    var prev: Node?<T>
    var owner: List?<T>
    const data: T

    constructor (data: T)
      ensures Free() && this.data == data
    {
      next, prev, owner := null, null, null;
      this.data := data;
    }

    ghost predicate Free()
      reads this
    {
      next == null && prev == null && owner == null
    }

    /** Takes the node out from between its neighbours. */
    method Unlink(list: List<T>)
      requires list == owner && next != this && prev != this && (next != null ==> next != prev)
      modifies this, next, prev
      ensures Free()
      ensures old(next) != null ==>
                old(next).prev == old(prev) && old(next).next == old(next.next) && old(next).owner == old(next.owner)
      ensures old(prev) != null ==>
                old(prev).next == old(next) && old(prev).prev == old(prev.prev) && old(prev).owner == old(prev.owner)
    {
      if next != null {
        next.prev := prev;
      }
      if prev != null {
        prev.next := next;
      }
      next := null;
      prev := null;
      owner := null;
    }

    /** Puts the node behind `p`. */
    method LinkPrev(p: Node<T>, list: List<T>)
      requires Free() && p != this && p.next != this && p.next != p && (p.next != null ==> p.next.prev == p)
      modifies this, p, p.next
      ensures prev == p && next == old(p.next) && owner == list
      ensures p.next == this && p.prev == old(p.prev) && p.owner == old(p.owner)
      ensures next != null ==> next.prev == this && next.next == old(p.next.next) && next.owner == old(p.next.owner)
    {
      if p.next != null {
        p.next.prev := this;
        next := p.next;
      }
      p.next := this;
      prev := p;
      owner := list;
    }
  }

  class List<T> {
    var head: Node?<T>
    var tail: Node?<T>
    var elems: nat
    ghost var nodes: seq<Node<T>>

    /** The nodes from the head on; every one points to its neighbours, and to this list. */
    ghost predicate Valid()
      reads this, nodes
    {
      && elems == |nodes|
      && (forall i, j :: 0 <= i < j < |nodes| ==> nodes[i] != nodes[j])
      && head == At(0) && tail == At(|nodes| - 1)
      && (forall i :: 0 <= i < |nodes| ==> Linked(i))
    }

    /** The node at place `i`, or null if there is none. */
    ghost function At(i: int): Node?<T>
      reads this
    {
      if 0 <= i < |nodes| then nodes[i] else null
    }

    ghost predicate Linked(i: int)
      requires 0 <= i < |nodes|
      reads this, nodes[i]
    {
      nodes[i].next == At(i + 1) && nodes[i].prev == At(i - 1) && nodes[i].owner == this
    }

    constructor ()
      ensures Valid() && nodes == []
    {
      head, tail, elems, nodes := null, null, 0, [];
    }

    predicate Empty()
      requires Valid()
      reads this, nodes
      ensures Empty() <==> nodes == []
    {
      head == null
    }

    method PushFront(e: Node<T>)
      requires Valid() && e.Free()
      modifies this, nodes, e
      ensures Valid() && nodes == [e] + old(nodes)
    {
      NotListed(e);
      ghost var was := nodes;
      if Empty() {
        head := e;
        tail := e;
      } else {
        assert Linked(0);
        assert head.prev == null && head.owner == this;
        e.next := head;
        head.prev := e;
        head := e;
      }
      e.owner := this;
      elems := elems + 1;
      nodes := [e] + nodes;
      forall i | 0 <= i < |nodes|
        ensures Linked(i)
      {
        assert i > 0 ==> old(Linked(i - 1)) && nodes[i] == was[i - 1];
      }
    }

    method PushBack(e: Node<T>)
      requires Valid() && e.Free()
      modifies this, nodes, e
      ensures Valid() && nodes == old(nodes) + [e]
    {
      NotListed(e);
      ghost var was := nodes;
      if Empty() {
        head := e;
        tail := e;
        e.owner := this;
      } else {
        assert Linked(|nodes| - 1);
        e.LinkPrev(tail, this);
        tail := e;
      }
      elems := elems + 1;
      nodes := nodes + [e];
      forall i | 0 <= i < |nodes|
        ensures Linked(i)
      {
        assert i < |was| ==> old(Linked(i)) && nodes[i] == was[i];
      }
    }

    method PopFront()
      requires Valid()
      modifies this, nodes
      ensures Valid() && nodes == if old(nodes) == [] then [] else old(nodes)[1..]
      ensures old(nodes) != [] ==> old(nodes)[0].Free()
    {
      if Empty() {
        return;
      }
      assert Linked(0);
      assert |nodes| > 1 ==> Linked(1);
      ghost var was := nodes;
      var e := head;
      head := e.next;
      e.Unlink(this);
      if head == null {
        tail := null;
      }
      elems := elems - 1;
      nodes := nodes[1..];
      forall i | 0 <= i < |nodes|
        ensures Linked(i)
      {
        assert old(Linked(i + 1)) && nodes[i] == was[i + 1];
      }
    }

    method PopBack()
      requires Valid()
      modifies this, nodes
      ensures Valid() && nodes == if old(nodes) == [] then [] else old(nodes)[..|old(nodes)| - 1]
      ensures old(nodes) != [] ==> old(nodes)[|old(nodes)| - 1].Free()
    {
      if Empty() {
        return;
      }
      assert Linked(|nodes| - 1);
      assert |nodes| > 1 ==> Linked(|nodes| - 2);
      ghost var was := nodes;
      var e := tail;
      tail := e.prev;
      e.Unlink(this);
      if tail == null {
        head := null;
      }
      elems := elems - 1;
      nodes := nodes[..|nodes| - 1];
      forall i | 0 <= i < |nodes|
        ensures Linked(i)
      {
        assert old(Linked(i)) && nodes[i] == was[i];
      }
    }

    /** Takes out the element at place `k`, in one step. */
    method Remove(e: Node<T>, ghost k: nat)
      requires Valid() && k < |nodes| && nodes[k] == e
      modifies this, nodes
      ensures Valid() && nodes == old(nodes)[..k] + old(nodes)[k + 1..] && e.Free()
    {
      assert Linked(k);
      assert k > 0 ==> Linked(k - 1);
      assert k + 1 < |nodes| ==> Linked(k + 1);
      ghost var was := nodes;
      if e == head {
        head := e.next;
      }
      if e == tail {
        tail := e.prev;
      }
      e.Unlink(this);
      elems := elems - 1;
      nodes := nodes[..k] + nodes[k + 1..];
      forall i | 0 <= i < |nodes|
        ensures Linked(i)
      {
        var j := if i < k then i else i + 1;
        assert old(Linked(j)) && nodes[i] == was[j];
      }
    }

    /** Puts `e` behind the element at place `k`. */
    method InsertAfter(prev: Node<T>, e: Node<T>, ghost k: nat)
      requires Valid() && e.Free() && k < |nodes| && nodes[k] == prev
      modifies this, nodes, e
      ensures Valid() && nodes == old(nodes)[..k + 1] + [e] + old(nodes)[k + 1..]
    {
      NotListed(e);
      assert Linked(k);
      assert k + 1 < |nodes| ==> Linked(k + 1);
      ghost var was := nodes;
      e.LinkPrev(prev, this);
      if prev == tail {
        tail := e;
      }
      elems := elems + 1;
      nodes := nodes[..k + 1] + [e] + nodes[k + 1..];
      forall i | 0 <= i < |nodes|
        ensures Linked(i)
      {
        var j := if i <= k then i else i - 1;
        assert old(Linked(j)) && (i != k + 1 ==> nodes[i] == was[j]);
      }
    }

    /** A free node is not on the list. */
    lemma NotListed(e: Node<T>)
      requires Valid() && e.Free()
      ensures e !in nodes
    {
      forall i | 0 <= i < |nodes|
        ensures nodes[i] != e
      {
        assert Linked(i);
      }
    }
  }
}
