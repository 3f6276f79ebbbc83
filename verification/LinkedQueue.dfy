/** The linked FIFO of src/server/queue.c. Only `count` says how long the list is: the `next` of the
    last node is never initialised, and after the queue runs empty `first` and `last` keep whatever
    they held. */
module LinkedQueue {
  import opened Options

  class QueueNode<T> {
    var next: QueueNode?<T>
    var data: T

    constructor (data: T)
      ensures this.data == data
    {
      this.data := data;
    }
  }

  class Queue<T> {
    var count: int
    var first: QueueNode?<T>
    var last: QueueNode?<T>
    ghost var nodes: seq<QueueNode<T>>
    ghost var contents: seq<T>
    ghost var Repr: set<object>

    ghost predicate Valid()
      reads this, Repr
      ensures Valid() ==> this in Repr
    {
      && this in Repr
      && (forall i :: 0 <= i < |nodes| ==> nodes[i] in Repr)
      && count == |nodes| == |contents|
      && (forall i, j :: 0 <= i < j < |nodes| ==> nodes[i] != nodes[j])
      && (forall i :: 0 <= i < |nodes| ==> nodes[i].data == contents[i])
      && (forall i :: 0 < i < |nodes| ==> nodes[i - 1].next == nodes[i])
      && (count > 0 ==> first == nodes[0] && last == nodes[|nodes| - 1])
    }

    constructor ()
      ensures Valid() && fresh(Repr) && contents == []
    {
      count := 0;
      first := null;
      last := null;
      nodes := [];
      contents := [];
      Repr := {this};
    }

    method IsEmpty() returns (empty: bool)
      requires Valid()
      ensures empty <==> contents == []
    {
      empty := !(count > 0);
    }

    method Enqueue(data: T)
      requires Valid()
      modifies Repr
      ensures Valid() && fresh(Repr - old(Repr))
      ensures contents == old(contents) + [data]
    {
      var node := new QueueNode(data);
      if count > 0 {
        last.next := node;
        last := node;
      } else {
        last := node;
        first := last;
      }
      count := count + 1;
      nodes := nodes + [node];
      contents := contents + [data];
      Repr := Repr + {node};
    }

    /** An empty queue hands out NULL and stays as it is. */
    method Dequeue() returns (data: Option<T>)
      requires Valid()
      modifies Repr
      ensures Valid() && Repr == old(Repr)
      ensures old(contents) == [] ==> data == None && contents == []
      ensures old(contents) != [] ==> data == Some(old(contents)[0]) && contents == old(contents)[1..]
    {
      var node := first;
      if !(count > 0) {
        return None;
      }
      data := Some(node.data);
      first := node.next;
      count := count - 1;
      nodes := nodes[1..];
      contents := contents[1..];
    }
  }
}
