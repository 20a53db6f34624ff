/** The linked FIFO of accepted connections, as a pair of pointers into a chain of nodes. */
module WorkQueue {
  import opened CStrings

  class ClientNode {
    var clientFd: int
    var next: ClientNode?

    constructor (clientFd: int)
      ensures this.clientFd == clientFd && next == null
    {
      this.clientFd := clientFd;
      next := null;
    }
  }

  class ClientQueue {
    var front: ClientNode?
    var rear: ClientNode?
    ghost var nodes: seq<ClientNode>

    /** front and rear are the ends of one null-terminated chain, and null together. */
    ghost predicate Valid()
      reads this, nodes
    {
      && (front == null <==> rear == null)
      && (front == null <==> nodes == [])
      && (nodes != [] ==> front == nodes[0] && rear == nodes[|nodes| - 1] && rear.next == null)
      && (forall i {:trigger nodes[i].next} :: 0 <= i < |nodes| - 1 ==> nodes[i].next == nodes[i + 1])
      && (forall i, j :: 0 <= i < j < |nodes| ==> nodes[i] != nodes[j])
    }

    ghost function Contents(): (c: seq<int>)
      reads this, nodes
    {
      seq(|nodes|, i requires 0 <= i < |nodes| reads this, nodes => nodes[i].clientFd)
    }

    constructor ()
      ensures Valid() && Contents() == []
    {
      front, rear, nodes := null, null, [];
    }

    /** enqueue_client; mallocOk says whether malloc succeeded. */
    method Enqueue(clientFd: int, mallocOk: bool) returns (queued: bool)
      requires Valid()
      modifies this, nodes
      ensures Valid() && queued == mallocOk
      ensures Contents() == if mallocOk then old(Contents()) + [clientFd] else old(Contents())
      ensures fresh(set n | n in nodes && n !in old(nodes))
    {
      if !mallocOk {
        return false;
      }
      var newNode := new ClientNode(clientFd);
      if rear == null {
        front := newNode;
        rear := newNode;
      } else {
        rear.next := newNode;
        rear := newNode;
      }
      nodes := nodes + [newNode];
      return true;
    }

    /** The critical section of dequeue_client; None means that the worker has to wait. */
    method Dequeue() returns (clientFd: Option<int>)
      requires Valid()
      modifies this
      ensures Valid()
      ensures old(Contents()) == [] ==> clientFd == None && Contents() == []
      ensures old(Contents()) != [] ==> clientFd == Some(old(Contents())[0]) && Contents() == old(Contents())[1..]
      ensures forall n :: n in nodes ==> n in old(nodes)
    {
      if front == null {
        return None;
      }
      var temp := front;
      clientFd := Some(temp.clientFd);
      assert |nodes| > 1 ==> nodes[0].next == nodes[1];
      front := front.next;
      if front == null {
        rear := null;
      }
      nodes := nodes[1..];
    }

    /** Following next k times from front visits the nodes in order: the chain ends at rear. */
    ghost function Follow(k: nat): (n: ClientNode?)
      reads this, nodes
      requires Valid() && k <= |nodes|
      ensures n == if k < |nodes| then nodes[k] else null
    {
      if k == 0 then front
      else
        assert k < |nodes| ==> nodes[k - 1].next == nodes[k];
        Follow(k - 1).next
    }
  }
}
