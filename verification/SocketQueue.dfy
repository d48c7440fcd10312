/**
 The singly linked lists of the RIL sockets: Ril_queue of rilSocketQueue.h, and the list of
 pending requests in ril.cpp, which is walked and unlinked in the same way.
 */
module SocketQueue {

  class Node<T> {
    var item: T
    var next: Node?<T>

    constructor (item: T)
      ensures this.item == item && next == null
    {
      this.item, next := item, null;
    }
  }

  /** The list that starts at `front` has exactly these nodes. */
  ghost predicate Chain<T>(front: Node?<T>, nodes: seq<Node<T>>)
    reads nodes`next
  {
    Distinct(nodes) && front == At(nodes, 0) &&
    forall i {:trigger nodes[i].next} :: 0 <= i < |nodes| ==> nodes[i].next == At(nodes, i + 1)
  }

  ghost predicate Distinct<T>(s: seq<T>) {
    forall i, j :: 0 <= i < j < |s| ==> s[i] != s[j]
  }

  lemma DistinctWithout<T>(s: seq<T>, k: nat)
    requires Distinct(s) && k < |s|
    ensures Distinct(Without(s, k)) && s[k] !in Without(s, k)
  {
  }

  ghost function At<T>(nodes: seq<Node<T>>, i: nat): Node?<T> {
    if i < |nodes| then nodes[i] else null
  }

  /** The first place from i on whose item matches. */
  ghost function FirstMatch<T>(items: seq<T>, wanted: T -> bool, i: nat): (k: nat)
    requires i <= |items|
    ensures i <= k <= |items| && (k < |items| ==> wanted(items[k]))
    decreases |items| - i
  {
    if i < |items| && !wanted(items[i]) then FirstMatch(items, wanted, i + 1) else i
  }

  lemma {:induction false} NoMatchBefore<T>(items: seq<T>, wanted: T -> bool, i: nat, j: nat)
    requires i <= |items| && i <= j < FirstMatch(items, wanted, i)
    ensures !wanted(items[j])
    decreases |items| - i
  {
    if i < j { NoMatchBefore(items, wanted, i + 1, j); }
  }

  function Without<T>(s: seq<T>, k: nat): (r: seq<T>)
    requires k < |s|
    ensures |r| == |s| - 1 && forall i :: 0 <= i < |r| ==> r[i] == if i < k then s[i] else s[i + 1]
  {
    seq(|s| - 1, i requires 0 <= i < |s| - 1 => if i < k then s[i] else s[i + 1])
  }

  lemma WithoutIsSplice<T>(s: seq<T>, k: nat)
    requires k < |s|
    ensures Without(s, k) == s[..k] + s[k + 1..]
    ensures multiset(s) == multiset(Without(s, k)) + multiset{s[k]}
  {
    assert s == s[..k] + [s[k]] + s[k + 1..];
  }

  lemma Relinked<T>(front: Node?<T>, s: seq<Node<T>>, k: nat)
    requires k < |s| && Distinct(s) && front == At(s, if k == 0 then 1 else 0)
    requires forall i {:trigger s[i].next} :: 0 <= i < |s| && i != k ==> s[i].next == At(s, if i + 1 == k then k + 1 else i + 1)
    ensures Chain(front, Without(s, k))
  {
    DistinctWithout(s, k);
    var r := Without(s, k);
    forall i | 0 <= i < |r| ensures r[i].next == At(r, i + 1) {
      assert r[i] == s[if i < k then i else i + 1];
    }
  }

  ghost function Mapped<T>(f: T -> T, s: seq<T>): (r: seq<T>)
    ensures |r| == |s| && forall i :: 0 <= i < |s| ==> r[i] == f(s[i])
  {
    seq(|s|, i requires 0 <= i < |s| => f(s[i]))
  }

  class Queue<T> {
    var front: Node?<T>
    ghost var nodes: seq<Node<T>>
    ghost var items: seq<T>

    constructor ()
      ensures Valid() && nodes == [] && items == []
    {
      front, nodes, items := null, [], [];
    }

    ghost predicate Valid()
      reads this, nodes
    {
      Chain(front, nodes) && |items| == |nodes| && forall i :: 0 <= i < |nodes| ==> items[i] == nodes[i].item
    }

    /** enqueue: at the front. */
    method Enqueue(node: Node<T>)
      requires Valid() && node !in nodes
      modifies this, node`next
      ensures Valid() && nodes == [node] + old(nodes) && items == [node.item] + old(items)
    {
      if front == null {
        front := node;
        node.next := null;
      } else {
        node.next := front;
        front := node;
      }
      nodes, items := [node] + nodes, [node.item] + items;
    }

    /** dequeue: from the front.  An empty queue makes the caller wait until it is not. */
    method Dequeue() returns (node: Node<T>)
      requires Valid() && nodes != []
      modifies this
      ensures Valid() && old(nodes) == [node] + nodes && old(items) == [node.item] + items
    {
      node := front;
      if front.next != null {
        front := front.next;
      } else {
        front := null;
      }
      nodes, items := nodes[1..], items[1..];
    }

    /** checkAndDequeue: unlink the first node that matches, through a pointer to the link
        that leads to it. */
    method Unlink(wanted: T -> bool) returns (victim: Node?<T>)
      requires Valid()
      modifies this, nodes`next
      ensures Valid()
      ensures var k := FirstMatch(old(items), wanted, 0);
              if k == |old(items)| then victim == null && nodes == old(nodes) && items == old(items)
              else victim == old(nodes)[k] && nodes == Without(old(nodes), k) && items == Without(old(items), k)
      ensures forall n :: n in nodes ==> n in old(nodes)
    {
      var prev: Node?<T> := null;
      victim := front;
      ghost var k := 0;
      while victim != null && !wanted(victim.item)
        invariant k <= |nodes| && victim == At(nodes, k) && prev == if k == 0 then null else nodes[k - 1]
        invariant FirstMatch(items, wanted, 0) == FirstMatch(items, wanted, k)
        decreases |nodes| - k
      {
        prev, victim, k := victim, victim.next, k + 1;
      }
      if victim != null { Bypass(prev, victim, k); }
    }

    /** The link that led to the victim leads past it. */
    method Bypass(prev: Node?<T>, victim: Node<T>, ghost k: nat)
      requires Valid() && k < |nodes| && victim == nodes[k] && prev == if k == 0 then null else nodes[k - 1]
      modifies this, nodes`next
      ensures forall n :: n in old(nodes) && n != prev ==> n.next == old(n.next)
      ensures Valid() && nodes == Without(old(nodes), k) && items == Without(old(items), k)
    {
      if prev == null {
        front := victim.next;
      } else {
        prev.next := victim.next;
      }
      Relinked(front, nodes, k);
      nodes, items := Without(nodes, k), Without(items, k);
    }

    /** One update for every item, from the front to the end of the list. */
    method Update(f: T -> T)
      requires Valid()
      modifies this`items, nodes`item
      ensures Valid() && nodes == old(nodes)
      ensures items == Mapped(f, old(items))
    {
      var cur := front;
      ghost var k := 0;
      while cur != null
        invariant k <= |nodes| == |items| && cur == At(nodes, k) && items == old(items)
        invariant forall i :: 0 <= i < |nodes| ==> nodes[i].item == if i < k then f(items[i]) else items[i]
        decreases |nodes| - k
      {
        cur.item := f(cur.item);
        cur, k := cur.next, k + 1;
      }
      items := Mapped(f, items);
    }
  }
}
