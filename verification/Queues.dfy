/** The kernel's linked queue, refined to a sequence. */
module Queues {
  import opened Options

  // ---------------------------------------------------------------- specification

  /** Index of the first match; |s| if there is none. */
  function FirstMatch<T>(s: seq<T>, p: T -> bool): (i: nat)
    ensures i <= |s|
    ensures i < |s| ==> p(s[i])
    ensures forall j :: 0 <= j < i ==> !p(s[j])
  {
    if s == [] || p(s[0]) then 0
    else
      assert forall j :: 0 < j < |s| ==> s[j] == s[1..][j - 1];
      1 + FirstMatch(s[1..], p)
  }

  function WithoutFirst<T>(s: seq<T>, p: T -> bool): seq<T> {
    var i := FirstMatch(s, p);
    if i < |s| then Without(s, i) else s
  }

  lemma {:induction false} FirstMatchIs<T>(s: seq<T>, p: T -> bool, i: nat)
    requires i <= |s| && (i < |s| ==> p(s[i])) && forall j :: 0 <= j < i ==> !p(s[j])
    ensures FirstMatch(s, p) == i
  {
  }

  function Without<X>(s: seq<X>, i: nat): (r: seq<X>)
    requires i < |s|
    ensures |r| == |s| - 1
    ensures forall j :: 0 <= j < |r| ==> r[j] == s[if j < i then j else j + 1]
  {
    s[..i] + s[i + 1..]
  }

  // ---------------------------------------------------------------- the queue in memory

  class Node<T> {
    var data: T
    var next: Node?<T>

    constructor (data: T)
      ensures this.data == data && next == null
    {
      this.data, next := data, null;
    }
  }

  /** Node i carries its item, links to the next, and comes once. */
  ghost predicate NodeOk<T>(nodes: seq<Node<T>>, items: seq<T>, i: nat)
    requires i < |nodes|
    reads nodes
  {
    && i < |items| && nodes[i].data == items[i]
    && nodes[i].next == (if i + 1 < |nodes| then nodes[i + 1] else null)
    && (forall j :: i < j < |nodes| ==> nodes[j] != nodes[i])
  }

  class Queue<T> {
    var front: Node?<T>
    var rear: Node?<T>
    var size: nat
    ghost var nodes: seq<Node<T>>
    ghost var items: seq<T>      // what the nodes carry
    ghost var Repr: set<object>

    ghost predicate Valid()
      reads this, Repr
    {
      && this in Repr
      && (forall n :: n in nodes ==> n in Repr)
      && size == |nodes| == |items|
      && front == (if nodes == [] then null else nodes[0])
      && rear == (if nodes == [] then null else nodes[|nodes| - 1])
      && (forall i {:trigger NodeOk(nodes, items, i)} :: 0 <= i < |nodes| ==> NodeOk(nodes, items, i))
    }

    /** The queued values, front first. */
    ghost function Contents(): seq<T>
      reads this
    {
      items
    }

    constructor ()
      ensures Valid() && Contents() == [] && Repr == {this}
    {
      front, rear, size, nodes, items := null, null, 0, [], [];
      Repr := {this};
    }

    /** -1 when no memory is left for the node. */
    method Enqueue(data: T, memoryLeft: bool) returns (r: int)
      requires Valid()
      modifies Repr
      ensures Valid() && fresh(Repr - old(Repr)) && r == (if memoryLeft then 0 else -1)
      ensures Contents() == old(Contents()) + (if memoryLeft then [data] else [])
    {
      if !memoryLeft {
        return -1;
      }
      var newNode := new Node(data);
      assert forall i :: 0 <= i < |nodes| ==> NodeOk(nodes, items, i);
      if rear == null {
        front := newNode;
        rear := newNode;
      } else {
        rear.next := newNode;
        rear := newNode;
      }
      size := size + 1;
      nodes, items, Repr := nodes + [newNode], items + [data], Repr + {newNode};
      forall i | 0 <= i < |nodes| ensures NodeOk(nodes, items, i) {
        if i < |nodes| - 1 {
          assert old(NodeOk(nodes, items, i));
          assert i + 1 < |old(nodes)| ==> old(nodes)[i] != old(nodes)[|old(nodes)| - 1];
        }
      }
      r := 0;
    }

    method Dequeue() returns (r: Option<T>)
      requires Valid()
      modifies Repr
      ensures Valid() && Repr == old(Repr)
      ensures old(Contents()) == [] ==> r == None && Contents() == []
      ensures old(Contents()) != [] ==> r == Some(old(Contents())[0]) && Contents() == old(Contents())[1..]
    {
      if front == null {
        return None;
      }
      var temp := front;
      assert NodeOk(nodes, items, 0);
      ghost var before, carried := nodes, items;
      r := Some(temp.data);
      front := front.next;
      if front == null {
        rear := null;
      }
      size := size - 1;
      nodes, items := nodes[1..], items[1..];
      forall i | 0 <= i < |nodes| ensures NodeOk(nodes, items, i) {
        assert NodeOk(before, carried, i + 1);
      }
    }

    method QueueSize() returns (n: nat)
      requires Valid()
      ensures n == |Contents()|
    {
      n := size;
    }

    method IsQueueEmpty() returns (b: bool)
      requires Valid()
      ensures b <==> Contents() == []
    {
      b := size == 0;
    }

    method PeekQueue() returns (r: Option<T>)
      requires Valid()
      ensures r == if Contents() == [] then None else Some(Contents()[0])
    {
      if front == null {
        return None;
      }
      assert NodeOk(nodes, items, 0);
      r := Some(front.data);
    }

    method ClearQueue()
      requires Valid()
      modifies this
      ensures Valid() && Contents() == [] && Repr == old(Repr)
    {
      front, rear, size, nodes, items := null, null, 0, [], [];
    }

    /** The first queued value that satisfies the comparison. */
    method ContainsQueue(p: T -> bool) returns (r: Option<T>)
      requires Valid()
      ensures var i := FirstMatch(Contents(), p);
              r == if i < |Contents()| then Some(Contents()[i]) else None
    {
      var current := front;
      ghost var i := 0;
      while current != null
        invariant 0 <= i <= |nodes|
        invariant current == if i < |nodes| then nodes[i] else null
        invariant forall j :: 0 <= j < i ==> !p(items[j])
        decreases |nodes| - i
      {
        assert NodeOk(nodes, items, i);
        if p(current.data) {
          FirstMatchIs(items, p, i);
          return Some(current.data);
        }
        current := current.next;
        i := i + 1;
      }
      FirstMatchIs(items, p, i);
      r := None;
    }

    /** Take the i-th node, whose predecessor is at hand, out of the chain. */
    method Unchain(previous: Node?<T>, current: Node<T>, ghost i: nat)
      requires Valid() && i < |nodes| && current == nodes[i]
      requires previous == if i > 0 then nodes[i - 1] else null
      modifies Repr
      ensures Valid() && Repr == old(Repr) && Contents() == Without(old(Contents()), i)
    {
      assert NodeOk(nodes, items, i);
      assert i > 0 ==> NodeOk(nodes, items, i - 1);
      if previous == null {
        front := current.next;
      } else {
        previous.next := current.next;
      }
      if current == rear {
        rear := previous;
      }
      size := size - 1;
      nodes, items := Without(nodes, i), Without(items, i);
      forall j | 0 <= j < |nodes| ensures NodeOk(nodes, items, j) {
        assert old(NodeOk(nodes, items, if j < i then j else j + 1));
      }
    }

    /** Take the first queued value that satisfies the comparison out, keeping the others in order. */
    method RemoveFromQueue(p: T -> bool) returns (r: Option<T>)
      requires Valid()
      modifies Repr
      ensures Valid() && Repr == old(Repr)
      ensures var s := old(Contents()); var i := FirstMatch(s, p);
              && Contents() == WithoutFirst(s, p)
              && r == if i < |s| then Some(s[i]) else None
    {
      var current := front;
      var previous: Node?<T> := null;
      ghost var i := 0;
      while current != null
        invariant 0 <= i <= |nodes|
        invariant current == if i < |nodes| then nodes[i] else null
        invariant previous == if i > 0 then nodes[i - 1] else null
        invariant forall j :: 0 <= j < i ==> !p(items[j])
        invariant Valid() && nodes == old(nodes) && items == old(items) && Repr == old(Repr)
        decreases |nodes| - i
      {
        assert NodeOk(nodes, items, i);
        if p(current.data) {
          FirstMatchIs(items, p, i);
          r := Some(current.data);
          Unchain(previous, current, i);
          return;
        }
        previous := current;
        current := current.next;
        i := i + 1;
      }
      FirstMatchIs(items, p, i);
      r := None;
    }

    /** The queued values as an array; null when there are none or no memory is left. */
    method DumpQueue(memoryLeft: bool, filler: T) returns (a: array?<T>)
      requires Valid()
      ensures a == null <==> Contents() == [] || !memoryLeft
      ensures a != null ==> fresh(a) && a[..] == Contents()
    {
      if size == 0 || !memoryLeft {
        return null;
      }
      a := new T[size](_ => filler);
      var current := front;
      var index := 0;
      while current != null
        invariant 0 <= index <= |nodes|
        invariant current == if index < |nodes| then nodes[index] else null
        invariant forall j :: 0 <= j < index ==> a[j] == items[j]
        invariant Valid() && items == old(items)
        decreases |nodes| - index
      {
        assert NodeOk(nodes, items, index);
        a[index] := current.data;
        index := index + 1;
        current := current.next;
      }
    }
  }
}
