/** A node of a linked list. */
module Links {

  class Node<T> {
    var value: T
    var next: Node?<T>

    constructor (v: T, n: Node?<T>)
      ensures value == v && next == n
    {
      value, next := v, n;
    }
  }

  /** The nodes are linked in this order, and the last one has no successor. */
  ghost predicate Chained<T>(nodes: seq<Node<T>>)
    reads nodes
  {
    && (forall i :: 0 <= i < |nodes| - 1 ==> nodes[i].next == nodes[i + 1])
    && (nodes != [] ==> nodes[|nodes| - 1].next == null)
  }

  ghost function Values<T>(nodes: seq<Node<T>>): seq<T>
    reads nodes
  {
    seq(|nodes|, i requires 0 <= i < |nodes| reads nodes => nodes[i].value)
  }
}
