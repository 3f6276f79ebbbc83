/** The linked job list of src/game_processing/job_queue.c. The head struct is cast to a node, so that
    its first field, `first_node`, is the `next` of a sentinel: appending to the empty list through
    `last_node->next` sets `first_node`. Here the sentinel is a node whose `next` is that field. */
module JobList {
  import opened Options

  class JobNode<Job(0)> {
    var next: JobNode?<Job>
    var qjob: Job

    constructor (qjob: Job)
      ensures next == null && this.qjob == qjob
    {
      next := null;
      this.qjob := qjob;
    }

    /** The head struct seen as a node; it has no job. */
    constructor Head()
      ensures next == null
    {
      next := null;
    }
  }

  class JobQueue<Job(0)> {
    /** (job_queue_node_t*)head: its `next` is `first_node`. */
    const head: JobNode<Job>
    var lastNode: JobNode<Job>
    ghost var nodes: seq<JobNode<Job>>
    ghost var jobs: seq<Job>

    /** `nodes` is the head followed by the nodes that hang off it, `jobs` what these carry; `lastNode`
        is the end of the chain, so it is the head exactly when the list is empty. */
    ghost predicate Valid()
      reads this, nodes
    {
      && |nodes| == |jobs| + 1
      && nodes[0] == head
      && (forall i, j :: 0 <= i < j < |nodes| ==> nodes[i] != nodes[j])
      && (forall i :: 0 < i < |nodes| ==> nodes[i].qjob == jobs[i - 1])
      && (forall i :: 0 < i < |nodes| ==> nodes[i - 1].next == nodes[i])
      && nodes[|nodes| - 1].next == null
      && lastNode == nodes[|nodes| - 1]
    }

    /** jqueue_create. */
    constructor ()
      ensures Valid() && jobs == [] && fresh(head) && nodes == [head]
    {
      var h := new JobNode<Job>.Head();
      head := h;
      lastNode := h;
      nodes := [h];
      jobs := [];
    }

    lemma LastMeaning()
      requires Valid()
      ensures lastNode == head <==> jobs == []
      ensures head.next == null <==> jobs == []
    {
      if jobs != [] {
        assert nodes[0].next == nodes[1];
      }
    }

    /** jqueue_is_empty. */
    method IsEmpty() returns (empty: bool)
      requires Valid()
      ensures empty <==> jobs == []
    {
      LastMeaning();
      empty := head.next == null;
    }

    /** jqueue_add_job. */
    method AddJob(job: Job)
      requires Valid()
      modifies this, lastNode
      ensures Valid() && jobs == old(jobs) + [job]
      ensures |nodes| == |old(nodes)| + 1 && nodes[..|old(nodes)|] == old(nodes) && fresh(nodes[|old(nodes)|])
    {
      var newNode := new JobNode(job);
      lastNode.next := newNode;
      lastNode := newNode;
      nodes := nodes + [newNode];
      jobs := jobs + [job];
    }

    /** jqueue_get_job: NULL on the empty list; removing the only node makes the head the last node
        again. */
    method GetJob() returns (job: Option<Job>)
      requires Valid()
      modifies this, head
      ensures Valid()
      ensures old(jobs) == [] ==> job == None && jobs == [] && nodes == old(nodes)
      ensures old(jobs) != [] ==>
                job == Some(old(jobs)[0]) && jobs == old(jobs)[1..] && nodes == [head] + old(nodes)[2..]
    {
      LastMeaning();
      var first := head.next;
      if first == null {
        return None;
      }
      assert first == nodes[1];
      job := Some(first.qjob);
      head.next := first.next;
      if lastNode == first {
        lastNode := head;
      }
      nodes := [head] + nodes[2..];
      jobs := jobs[1..];
    }

    /** jqueue_destroy frees the nodes front to back; `dropped` is what they carried. The head is freed
        after that, with `lastNode` still pointing at the last freed node. */
    method Destroy() returns (dropped: seq<Job>)
      requires Valid()
      modifies head
      ensures head.next == null && dropped == jobs
    {
      dropped := [];
      var current := head.next;
      ghost var k := 0;
      assert |nodes| > 1 ==> nodes[0].next == nodes[1];
      while current != null
        invariant 0 <= k <= |jobs| && dropped == jobs[..k]
        invariant head.next == current && current == if k == |jobs| then null else nodes[k + 1]
        invariant forall i :: 0 < i < |nodes| ==> nodes[i].qjob == jobs[i - 1]
        invariant forall i :: 1 < i < |nodes| ==> nodes[i - 1].next == nodes[i]
        invariant |nodes| > 1 ==> nodes[|nodes| - 1].next == null
        decreases |jobs| - k
      {
        dropped := dropped + [current.qjob];
        head.next := current.next;
        current := head.next;
        k := k + 1;
      }
    }
  }
}
