/** The packet queue of Project-3/mysock.c: a singly linked list with head and tail pointers. */
module StcpQueue {

  import opened Streams

  class Node<T> {
    var data: T
    var next: Node?<T>

    constructor (data: T)
      ensures this.data == data && next == null
    {
      this.data := data;
      next := null;
    }
  }

  class PacketQueue<T> {
    var head: Node?<T>
    var tail: Node?<T>
    /** What the list holds, in order, and the objects it is made of. */
    ghost var contents: seq<T>
    ghost var nodes: seq<Node<T>>
    ghost var repr: set<object>

    /** The nodes are distinct, linked in order, and head and tail are their two ends. */
    ghost predicate Valid()
      reads this, repr
    {
      && this in repr
      && (forall i :: 0 <= i < |nodes| ==> nodes[i] in repr)
      && (forall i, j :: 0 <= i < j < |nodes| ==> nodes[i] != nodes[j])
      && (forall i, j :: 0 <= i && j == i + 1 && j < |nodes| ==> nodes[i].next == nodes[j])
      && (nodes != [] ==> nodes[|nodes| - 1].next == null)
      && (nodes == [] ==> head == null && tail == null)
      && (nodes != [] ==> head == nodes[0] && tail == nodes[|nodes| - 1])
      && |contents| == |nodes|
      && (forall i :: 0 <= i < |nodes| ==> contents[i] == nodes[i].data)
    }

    constructor ()
      ensures Valid() && fresh(repr) && contents == []
    {
      head, tail, nodes, contents := null, null, [], [];
      repr := {this};
    }

    /** `_mysock_enqueue_buffer`: link a new node behind the tail. */
    method Enqueue(x: T)
      requires Valid()
      modifies repr
      ensures Valid() && fresh(repr - old(repr)) && old(repr) <= repr
      ensures contents == old(contents) + [x]
    {
      var node := new Node(x);
      if head == null {
        head, tail := node, node;
      } else {
        tail.next := node;
        tail := node;
      }
      nodes := nodes + [node];
      contents := contents + [x];
      repr := repr + {node};
    }

    /** Unlink and return the whole buffer at the head. */
    method DequeueWhole() returns (x: T)
      requires Valid() && contents != []
      modifies this
      ensures Valid() && repr == old(repr)
      ensures x == old(contents)[0] && contents == old(contents)[1..]
    {
      var node := head;
      x := node.data;
      head := head.next;
      if head == null {
        tail := null;
      }
      nodes := nodes[1..];
      contents := contents[1..];
    }

    /** Overwrite the buffer at the head, leaving the list as it is. */
    method ReplaceHead(x: T)
      requires Valid() && contents != []
      modifies repr
      ensures Valid() && repr == old(repr)
      ensures contents == [x] + old(contents)[1..]
    {
      head.data := x;
      contents := [x] + contents[1..];
    }
  }

  /** What `_mysock_dequeue_buffer` hands out with partial removal allowed. */
  function Taken(q: seq<seq<Byte>>, maxLen: nat): (taken: seq<Byte>)
    requires q != []
    ensures |taken| <= maxLen
  {
    if |q[0]| > maxLen then q[0][..maxLen] else q[0]
  }

  /** What `_mysock_dequeue_buffer` leaves behind with partial removal allowed. */
  function Remaining(q: seq<seq<Byte>>, maxLen: nat): seq<seq<Byte>>
    requires q != []
  {
    if |q[0]| > maxLen then [q[0][maxLen..]] + q[1..] else q[1..]
  }

  lemma SplitHead(head: seq<Byte>, n: nat, tail: seq<Byte>)
    requires n <= |head|
    ensures head[..n] + (head[n..] + tail) == head + tail
  {
  }

  /** A partial dequeue splits the stream: nothing lost, nothing repeated, and as much of the head buffer as was asked
      for, so empty only if nothing was asked for or that buffer is itself empty. */
  lemma DequeueSplits(q: seq<seq<Byte>>, maxLen: nat)
    requires q != []
    ensures Taken(q, maxLen) + Flatten(Remaining(q, maxLen)) == Flatten(q)
    ensures |Taken(q, maxLen)| == if |q[0]| < maxLen then |q[0]| else maxLen
    ensures Taken(q, maxLen) == [] <==> maxLen == 0 || q[0] == []
  {
    if |q[0]| > maxLen {
      FlattenCons(q[0][maxLen..], q[1..]);
      SplitHead(q[0], maxLen, Flatten(q[1..]));
    }
  }

  /** `_mysock_dequeue_buffer`; a caller that would block on an empty queue is not let in. */
  method DequeueBuffer(q: PacketQueue<seq<Byte>>, maxLen: nat, removePartial: bool)
    returns (dst: seq<Byte>, packetLen: nat)
    requires q.Valid() && q.contents != []
    modifies q.repr
    ensures q.Valid() && q.repr == old(q.repr)
    ensures removePartial ==>
              && dst == Taken(old(q.contents), maxLen)
              && packetLen == |dst|
              && q.contents == Remaining(old(q.contents), maxLen)
    ensures !removePartial ==>
              && packetLen == |old(q.contents)[0]|
              && dst == old(q.contents)[0][..if maxLen < packetLen then maxLen else packetLen]
              && q.contents == old(q.contents)[1..]
  {
    var node := q.head;
    if |node.data| > maxLen && removePartial {
      dst := node.data[..maxLen];
      packetLen := maxLen;
      q.ReplaceHead(node.data[maxLen..]);
    } else {
      var data := q.DequeueWhole();
      dst := data[..if maxLen < |data| then maxLen else |data|];
      packetLen := |data|;
    }
  }
}
