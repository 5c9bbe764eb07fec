/**
 The circular singly linked list behind the run queue: only the last node is kept, and it points to the first.
 */
module RunQueue {

  class Node<T> {
    var next: Node?<T>
    const t: T

    constructor (t: T)
      ensures this.t == t
    {
      this.t := t;
      next := null;
    }
  }

  class LinkedList<T> {
    var last: Node?<T>
    ghost var nodes: seq<Node<T>>
    ghost var contents: seq<T>

    /** `nodes` is the ring from the first node to the last, and `contents` what they carry. */
    ghost predicate Valid()
      reads this, nodes
    {
      && (last == null <==> nodes == []) && |contents| == |nodes|
      && (forall i :: 0 <= i < |nodes| ==> nodes[i].t == contents[i])
      && (nodes != [] ==> last == nodes[|nodes| - 1])
      && (forall i, j :: 0 <= i < j < |nodes| ==> nodes[i] != nodes[j])
      && (forall i :: 0 <= i < |nodes| - 1 ==> nodes[i].next == nodes[i + 1])
      && (nodes != [] ==> nodes[|nodes| - 1].next == nodes[0])
    }

    constructor ()
      ensures Valid() && contents == [] && nodes == []
    {
      last, nodes, contents := null, [], [];
    }

    predicate IsEmpty()
      requires Valid()
      reads this, nodes
      ensures IsEmpty() <==> contents == []
    {
      last == null
    }

    method Push(t: T)
      requires Valid()
      modifies this, nodes
      ensures Valid() && contents == old(contents) + [t]
      ensures |nodes| == |old(nodes)| + 1 && nodes[..|old(nodes)|] == old(nodes) && fresh(nodes[|old(nodes)|])
    {
      var node := new Node(t);
      if last == null {
        last := node;
        last.next := node;
      } else {
        node.next := last.next;
        last.next := node;
        last := node;
      }
      nodes, contents := nodes + [node], contents + [t];
    }

    method Pop() returns (t: T)
      requires Valid() && contents != []
      modifies this, nodes
      ensures Valid() && old(contents) == [t] + contents
      ensures nodes == old(nodes)[1..]
    {
      var node := last.next;
      assert node == nodes[0];
      last.next := node.next;
      if node == last {
        last := null;
      }
      nodes, contents := nodes[1..], contents[1..];
      t := node.t;
    }
  }
}
