/** The linked list behind the work queue: what SW_stub/sr_work_queue.c does while it holds the lock. */
module WorkQueue {
  class Work {
    const item: int
    var next: Work?

    constructor (item: int)
      ensures this.item == item && next == null
    {
      this.item := item;
      next := null;
    }
  }

  /** Node i of a list, or the NULL after its end. */
  ghost function NodeAt(nodes: seq<Work>, i: nat): Work? {
    if i < |nodes| then nodes[i] else null
  }

  lemma NodeAtIs(nodes: seq<Work>, i: nat)
    requires i <= |nodes|
    ensures NodeAt(nodes, i) == null <==> i == |nodes|
    ensures i < |nodes| ==> NodeAt(nodes, i) == nodes[i] && nodes[..i + 1] == nodes[..i] + [nodes[i]]
    ensures i == |nodes| ==> nodes[..i] == nodes
  {
  }

  class Queue {
    var head: Work?
    var tail: Work?
    var done: bool
    ghost var nodes: seq<Work>   // the list from head

    /** next leads through the nodes in order, the last of them is tail, and head and tail are NULL together. */
    ghost predicate Valid()
      reads this, nodes
    {
      && (forall i, j :: 0 <= i < j < |nodes| ==> nodes[i] != nodes[j])
      && (forall i {:trigger nodes[i]} :: 0 <= i < |nodes| ==> nodes[i].next == NodeAt(nodes, i + 1))
      && head == NodeAt(nodes, 0)
      && (!done ==> tail == if nodes == [] then null else nodes[|nodes| - 1])
      && (done ==> nodes == [])
    }

    /** wq_init(). */
    constructor ()
      ensures Valid() && nodes == [] && !done
    {
      head, tail, done, nodes := null, null, false, [];
    }

    /** wq_enqueue(). */
    method Enqueue(item: int)
      requires Valid() && !done
      modifies this, nodes
      ensures Valid() && !done && |nodes| == |old(nodes)| + 1 && nodes[..|old(nodes)|] == old(nodes)
      ensures fresh(nodes[|old(nodes)|]) && nodes[|old(nodes)|].item == item
    {
      var w := new Work(item);
      if tail != null {
        tail.next := w;
      } else {
        head := w;
      }
      tail := w;
      nodes := nodes + [w];
    }

    /** What a worker does when the queue is not done and not empty. */
    method Dequeue() returns (w: Work)
      requires Valid() && !done && head != null
      modifies this
      ensures Valid() && !done && old(nodes) == [w] + nodes
    {
      w := head;
      assert nodes == [nodes[0]] + nodes[1..] && nodes[0] == w;
      assert w.next == NodeAt(nodes, 1);
      ghost var rest := nodes[1..];
      assert forall i :: 0 <= i < |rest| ==> rest[i] == nodes[i + 1];
      head := head.next;
      if head == null {
        tail := null;
      }
      nodes := rest;
    }

    /** wq_destroy(): frees every node once, in order, and leaves tail as it was. */
    method Destroy() returns (ghost freed: seq<Work>)
      requires Valid() && !done
      modifies this
      ensures Valid() && done && head == null && freed == old(nodes)
      ensures old(nodes) != [] ==> tail == old(nodes)[|old(nodes)| - 1]
    {
      hide NodeAt;
      done := true;
      freed := [];
      NodeAtIs(nodes, 0);
      while head != null
        invariant |freed| <= |nodes| && freed == nodes[..|freed|]
        invariant nodes == old(nodes) && done && tail == old(tail)
        invariant head == NodeAt(nodes, |freed|)
        decreases |nodes| - |freed|
      {
        ghost var n := |freed|;
        NodeAtIs(nodes, n);
        assert nodes[n].next == NodeAt(nodes, n + 1);
        freed := freed + [head];
        head := head.next;
      }
      NodeAtIs(nodes, |freed|);
      nodes := [];
      NodeAtIs(nodes, 0);
    }
  }
}
