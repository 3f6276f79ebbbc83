/** The outgoing queue of src/server/queue.c shared by any number of producers in queue_enqueue and one
    sender_thread (src/server/threads.c:66-100), write by write. queue_dequeue reads `first` and `count`
    before it takes the mutex. Addresses are numbers; malloc may hand out any address not in use, and a
    new node's `next` holds anything. */
module SenderQueue {
  import opened Options

  type Msg = int

  datatype Node = Node(next: nat, data: Msg)

  datatype Producer =
    | Idle
    | Made(node: nat)        // node filled in, mutex wanted
    | Test(node: nat)        // if (!queue_is_empty(queue))
    | LinkNext(node: nat)    // queue->last->next = node
    | SetLast(node: nat)     // queue->last = node, list not empty
    | SetOnly(node: nat)     // queue->last = node, list empty
    | SetFirst(node: nat)    // queue->first = queue->last
    | Bump(node: nat)        // queue->count++
    | Leave                  // pthread_mutex_unlock
    | Signal                 // pthread_cond_signal

  datatype Sender =
    | Enter                              // pthread_mutex_lock
    | Look                               // while (queue_is_empty ...)
    | Asleep                             // pthread_cond_wait
    | Woken                              // pthread_cond_wait taking the mutex again
    | Exit                               // pthread_mutex_unlock
    | ReadFirst                          // node = queue->first
    | ReadCount(node: nat)               // queue_is_empty, without the mutex
    | Null                               // *data = NULL
    | PopLock(node: nat)
    | ReadData(node: nat)                // *data = node->data
    | Advance(node: nat, msg: Msg)       // queue->first = node->next
    | Drop(node: nat, msg: Msg)          // queue->count--
    | Free(node: nat, msg: Msg)          // free(node)
    | PopUnlock(msg: Msg)
    | Send(msg: Msg)                     // msg_send

  datatype Owner = Nobody | TheSender | OfProducer(p: nat)

  /** `chain` is a history variable: the addresses of the `count` nodes the list holds, front first.
      `enqueued` and `sent` record messages in the order of `count++` and of msg_send. */
  datatype State = State(
    heap: map<nat, Node>, first: nat, last: nat, count: int, owner: Owner,
    producers: seq<Producer>, sender: Sender,
    chain: seq<nat>, enqueued: seq<Msg>, sent: seq<Msg>)

  datatype Action =
    | Enqueue(p: nat, address: nat, junk: nat, msg: Msg)
    | ProducerStep(p: nat)
    | SenderStep
    | Spurious

  function Put(s: State, p: nat, pc: Producer): State
    requires p < |s.producers|
  {
    s.(producers := s.producers[p := pc])
  }

  predicate Enabled(s: State, a: Action) {
    match a
    case Enqueue(p, address, _, _) => p < |s.producers| && s.producers[p] == Idle && address !in s.heap
    case ProducerStep(p) =>
      && p < |s.producers| && s.producers[p] != Idle
      && (s.producers[p].Made? ==> s.owner == Nobody)
      && (s.producers[p].LinkNext? ==> s.last in s.heap)
    case SenderStep =>
      && s.sender != Asleep && s.sender != Null
      && (s.sender == Enter || s.sender == Woken || s.sender.PopLock? ==> s.owner == Nobody)
      && (s.sender.ReadData? || s.sender.Advance? ==> s.sender.node in s.heap)
    case Spurious => s.sender == Asleep
  }

  function NextProducer(s: State, p: nat): State
    requires Enabled(s, ProducerStep(p))
  {
    match s.producers[p]
    case Made(n) => Put(s.(owner := OfProducer(p)), p, Test(n))
    case Test(n) => Put(s, p, if s.count > 0 then LinkNext(n) else SetOnly(n))
    case LinkNext(n) => Put(s.(heap := s.heap[s.last := s.heap[s.last].(next := n)]), p, SetLast(n))
    case SetLast(n) => Put(s.(last := n), p, Bump(n))
    case SetOnly(n) => Put(s.(last := n), p, SetFirst(n))
    case SetFirst(n) => Put(s.(first := s.last), p, Bump(n))
    case Bump(n) =>
      Put(s.(count := s.count + 1, chain := s.chain + [n],
             enqueued := s.enqueued + (if n in s.heap then [s.heap[n].data] else [])), p, Leave)
    case Leave => Put(s.(owner := Nobody), p, Signal)
    case Signal => Put(if s.sender == Asleep then s.(sender := Woken) else s, p, Idle)
  }

  function NextSender(s: State): State
    requires Enabled(s, SenderStep)
  {
    match s.sender
    case Enter => s.(owner := TheSender, sender := Look)
    case Look => if s.count > 0 then s.(sender := Exit) else s.(owner := Nobody, sender := Asleep)
    case Woken => s.(owner := TheSender, sender := Look)
    case Exit => s.(owner := Nobody, sender := ReadFirst)
    case ReadFirst => s.(sender := ReadCount(s.first))
    case ReadCount(n) => s.(sender := if s.count > 0 then PopLock(n) else Null)
    case PopLock(n) => s.(owner := TheSender, sender := ReadData(n))
    case ReadData(n) => s.(sender := Advance(n, s.heap[n].data))
    case Advance(n, m) => s.(first := s.heap[n].next, sender := Drop(n, m))
    case Drop(n, m) =>
      s.(count := s.count - 1, sender := Free(n, m), chain := if s.chain == [] then [] else s.chain[1..])
    case Free(n, m) => s.(heap := s.heap - {n}, sender := PopUnlock(m))
    case PopUnlock(m) => s.(owner := Nobody, sender := Send(m))
    case Send(m) => s.(sent := s.sent + [m], sender := Enter)
  }

  function Next(s: State, a: Action): State
    requires Enabled(s, a)
  {
    match a
    case Enqueue(p, address, junk, msg) => Put(s.(heap := s.heap[address := Node(junk, msg)]), p, Made(address))
    case ProducerStep(p) => NextProducer(s, p)
    case SenderStep => NextSender(s)
    case Spurious => s.(sender := Woken)
  }

  /** queue_init with m producers about: `first` and `last` start as NULL. */
  predicate Initial(s: State) {
    && s.heap == map[] && s.count == 0 && s.owner == Nobody && s.sender == Enter
    && (forall p :: 0 <= p < |s.producers| ==> s.producers[p] == Idle)
    && s.chain == [] && s.enqueued == [] && s.sent == []
  }

  ghost predicate Execution(s: State, actions: seq<Action>, t: State)
    decreases |actions|
  {
    if actions == [] then t == s
    else Enabled(s, actions[0]) && Execution(Next(s, actions[0]), actions[1..], t)
  }

  ghost predicate Reachable(t: State) {
    exists s, actions :: Initial(s) && Execution(s, actions, t)
  }

  // ---- invariant --------------------------------------------------------------------------

  predicate Inside(p: Producer) {
    !p.Idle? && !p.Made? && !p.Signal?
  }

  predicate SenderInside(c: Sender) {
    c == Look || c == Exit || c.ReadData? || c.Advance? || c.Drop? || c.Free? || c.PopUnlock?
  }

  ghost predicate MutexInv(s: State) {
    && (s.owner == TheSender <==> SenderInside(s.sender))
    && (forall p :: 0 <= p < |s.producers| ==> (s.owner == OfProducer(p) <==> Inside(s.producers[p])))
    && (s.owner.OfProducer? ==> s.owner.p < |s.producers|)
  }

  /** The node a producer is still about to add. */
  function Adding(p: Producer): Option<nat> {
    if p == Idle || p == Leave || p == Signal then None else Some(p.node)
  }

  /** The node the sender has unlinked and not yet freed. */
  function Unlinked(c: Sender): Option<nat> {
    if c.Free? then Some(c.node) else None
  }

  /** Listed nodes, nodes being added and the node being freed are all allocated and all different. */
  ghost predicate NodesInv(s: State) {
    && (forall i :: 0 <= i < |s.chain| ==> s.chain[i] in s.heap)
    && (forall i, j :: 0 <= i < j < |s.chain| ==> s.chain[i] != s.chain[j])
    && (forall p :: 0 <= p < |s.producers| && Adding(s.producers[p]).Some? ==>
          Adding(s.producers[p]).value in s.heap && Adding(s.producers[p]).value !in s.chain)
    && (forall p, q :: 0 <= p < |s.producers| && 0 <= q < |s.producers| && p != q && Adding(s.producers[p]).Some? ==>
          Adding(s.producers[p]) != Adding(s.producers[q]))
    && (Unlinked(s.sender).Some? ==>
          && Unlinked(s.sender).value in s.heap && Unlinked(s.sender).value !in s.chain
          && forall p :: 0 <= p < |s.producers| ==> Adding(s.producers[p]) != Unlinked(s.sender))
  }

  /** Each listed node but the last points at its successor. */
  ghost predicate LinksInv(s: State)
    requires NodesInv(s)
  {
    forall i :: 0 < i < |s.chain| ==> s.heap[s.chain[i - 1]].next == s.chain[i]
  }

  /** `first` is the front node, except between the sender's two writes. */
  ghost predicate FrontInv(s: State)
    requires NodesInv(s)
  {
    && s.count == |s.chain|
    && (s.chain != [] && !s.sender.Drop? ==> s.first == s.chain[0])
    && (match s.sender
        case Exit => s.chain != []
        case ReadFirst => s.chain != []
        case ReadCount(n) => s.chain != [] && n == s.chain[0]
        case Null => false
        case PopLock(n) => s.chain != [] && n == s.chain[0]
        case ReadData(n) => s.chain != [] && n == s.chain[0]
        case Advance(n, m) => s.chain != [] && n == s.chain[0] && m == s.heap[n].data
        case Drop(n, m) => s.chain != [] && n == s.chain[0] && m == s.heap[n].data && s.first == s.heap[n].next
        case _ => true)
  }

  /** What the producer inside has done so far; with none inside, `last` is the end of the list. */
  ghost predicate BackInv(s: State)
    requires MutexInv(s) && NodesInv(s)
  {
    if s.owner.OfProducer? then
      match s.producers[s.owner.p]
      case Test(n) => EndsWell(s)
      case LinkNext(n) => s.chain != [] && EndsWell(s)
      case SetLast(n) => s.chain != [] && EndsWell(s) && s.heap[s.last].next == n
      case SetOnly(n) => s.chain == []
      case SetFirst(n) => s.chain == [] && s.last == n
      case Bump(n) =>
        s.last == n && if s.chain == [] then s.first == n else s.heap[s.chain[|s.chain| - 1]].next == n
      case _ => EndsWell(s)
    else EndsWell(s)
  }

  ghost predicate EndsWell(s: State) {
    s.chain != [] ==> s.last == s.chain[|s.chain| - 1]
  }

  ghost function DataOf(heap: map<nat, Node>, chain: seq<nat>): seq<Msg>
    requires forall i :: 0 <= i < |chain| ==> chain[i] in heap
  {
    seq(|chain|, i requires 0 <= i < |chain| => heap[chain[i]].data)
  }

  /** The message popped and not yet sent. */
  function InFlight(c: Sender): seq<Msg> {
    if c.Free? || c.PopUnlock? || c.Send? then [c.msg] else []
  }

  /** Sent, then in flight, then listed: all messages enqueued, in order. */
  ghost predicate OrderInv(s: State)
    requires NodesInv(s)
  {
    s.enqueued == s.sent + InFlight(s.sender) + DataOf(s.heap, s.chain)
  }

  /** A sleeping sender with work to do has a signal coming. */
  ghost predicate WakeInv(s: State) {
    s.sender == Asleep && s.chain != [] ==> SignalComing(s)
  }

  ghost predicate SignalComing(s: State) {
    exists p :: 0 <= p < |s.producers| && (s.producers[p] == Leave || s.producers[p] == Signal)
  }

  ghost predicate Inv(s: State) {
    MutexInv(s) && NodesInv(s) && LinksInv(s) && FrontInv(s) && BackInv(s) && OrderInv(s) && WakeInv(s)
  }

  // ---- each step keeps it -----------------------------------------------------------------

  lemma EnqueueKeeps(s: State, p: nat, address: nat, junk: nat, msg: Msg)
    requires Inv(s) && Enabled(s, Enqueue(p, address, junk, msg))
    ensures Inv(Next(s, Enqueue(p, address, junk, msg)))
  {
  }

  lemma ProducerMutex(s: State, p: nat)
    requires Inv(s) && Enabled(s, ProducerStep(p))
    ensures MutexInv(NextProducer(s, p))
  {
    var t := NextProducer(s, p);
    assert s.owner == OfProducer(p) <==> Inside(s.producers[p]);
    assert t.owner == OfProducer(p) <==> Inside(t.producers[p]);
    assert t.owner == TheSender <==> s.owner == TheSender;
    assert SenderInside(t.sender) <==> SenderInside(s.sender);
    forall q | 0 <= q < |t.producers| && q != p
      ensures t.owner == OfProducer(q) <==> Inside(t.producers[q])
    {
      assert t.producers[q] == s.producers[q];
    }
  }

  lemma BumpNodes(s: State, p: nat)
    requires NodesInv(s) && Enabled(s, ProducerStep(p)) && s.producers[p].Bump?
    ensures NodesInv(NextProducer(s, p))
  {
    var t, n := NextProducer(s, p), s.producers[p].node;
    assert Adding(s.producers[p]) == Some(n);
    forall q | 0 <= q < |t.producers| && Adding(t.producers[q]).Some?
      ensures Adding(t.producers[q]).value !in t.chain
    {
      assert q != p && Adding(t.producers[q]) == Adding(s.producers[q]);
    }
  }

  /** Nothing is added to the list, freed or reused. */
  lemma SameNodes(s: State, t: State)
    requires NodesInv(s) && t.chain == s.chain && s.heap.Keys <= t.heap.Keys && |t.producers| == |s.producers|
    requires forall q :: 0 <= q < |s.producers| ==> Adding(t.producers[q]) == Adding(s.producers[q])
    requires Unlinked(t.sender) == Unlinked(s.sender)
    ensures NodesInv(t)
  {
  }

  lemma ProducerNodes(s: State, p: nat)
    requires Inv(s) && Enabled(s, ProducerStep(p))
    ensures NodesInv(NextProducer(s, p))
  {
    if s.producers[p].Bump? {
      BumpNodes(s, p);
    } else {
      SameNodes(s, NextProducer(s, p));
    }
  }

  lemma ProducerLinks(s: State, p: nat)
    requires Inv(s) && Enabled(s, ProducerStep(p))
    ensures NodesInv(NextProducer(s, p)) && LinksInv(NextProducer(s, p))
  {
    ProducerNodes(s, p);
  }

  lemma ProducerFront(s: State, p: nat)
    requires Inv(s) && Enabled(s, ProducerStep(p))
    ensures NodesInv(NextProducer(s, p)) && FrontInv(NextProducer(s, p))
  {
    ProducerNodes(s, p);
  }

  lemma ProducerOrder(s: State, p: nat)
    requires Inv(s) && Enabled(s, ProducerStep(p))
    ensures NodesInv(NextProducer(s, p)) && OrderInv(NextProducer(s, p))
  {
    ProducerNodes(s, p);
  }

  /** The writes of the two branches of queue_enqueue. */
  lemma WritesBack(s: State, p: nat)
    requires Inv(s) && Enabled(s, ProducerStep(p)) && s.owner == OfProducer(p)
    requires MutexInv(NextProducer(s, p)) && NodesInv(NextProducer(s, p))
    ensures BackInv(NextProducer(s, p))
  {
    assert Inside(s.producers[p]);
  }

  lemma OutsideBack(s: State, p: nat)
    requires Inv(s) && Enabled(s, ProducerStep(p)) && s.owner != OfProducer(p)
    requires MutexInv(NextProducer(s, p)) && NodesInv(NextProducer(s, p))
    ensures BackInv(NextProducer(s, p))
  {
    assert !Inside(s.producers[p]);
  }

  lemma ProducerBack(s: State, p: nat)
    requires Inv(s) && Enabled(s, ProducerStep(p))
    ensures MutexInv(NextProducer(s, p)) && NodesInv(NextProducer(s, p)) && BackInv(NextProducer(s, p))
  {
    hide *;
    ProducerMutex(s, p);
    ProducerNodes(s, p);
    if s.owner == OfProducer(p) {
      WritesBack(s, p);
    } else {
      OutsideBack(s, p);
    }
  }

  lemma ProducerWake(s: State, p: nat)
    requires Inv(s) && Enabled(s, ProducerStep(p))
    ensures WakeInv(NextProducer(s, p))
  {
    var t := NextProducer(s, p);
    if s.producers[p].Bump? || s.producers[p] == Leave {
      assert t.producers[p] == Leave || t.producers[p] == Signal;
    } else if t.sender == Asleep && t.chain != [] {
      var q :| 0 <= q < |s.producers| && (s.producers[q] == Leave || s.producers[q] == Signal);
      assert t.producers[q] == s.producers[q];
    }
  }

  lemma SenderMutex(s: State)
    requires Inv(s) && Enabled(s, SenderStep)
    ensures MutexInv(NextSender(s))
  {
  }

  lemma SenderNodes(s: State)
    requires Inv(s) && Enabled(s, SenderStep)
    ensures NodesInv(NextSender(s))
  {
  }

  lemma SenderLinks(s: State)
    requires Inv(s) && Enabled(s, SenderStep)
    ensures NodesInv(NextSender(s)) && LinksInv(NextSender(s))
  {
    SenderNodes(s);
  }

  lemma SenderFront(s: State)
    requires Inv(s) && Enabled(s, SenderStep)
    ensures NodesInv(NextSender(s)) && FrontInv(NextSender(s))
  {
    SenderNodes(s);
  }

  lemma SenderOrder(s: State)
    requires Inv(s) && Enabled(s, SenderStep)
    ensures NodesInv(NextSender(s)) && OrderInv(NextSender(s))
  {
    SenderNodes(s);
  }

  lemma SenderBack(s: State)
    requires Inv(s) && Enabled(s, SenderStep)
    ensures MutexInv(NextSender(s)) && NodesInv(NextSender(s)) && BackInv(NextSender(s))
  {
    SenderMutex(s);
    SenderNodes(s);
  }

  lemma SenderWake(s: State)
    requires Inv(s) && Enabled(s, SenderStep)
    ensures WakeInv(NextSender(s))
  {
  }

  lemma StepKeeps(s: State, a: Action)
    requires Inv(s) && Enabled(s, a)
    ensures Inv(Next(s, a))
  {
    match a {
      case Enqueue(p, address, junk, msg) => EnqueueKeeps(s, p, address, junk, msg);
      case ProducerStep(p) =>
        ProducerMutex(s, p);
        ProducerNodes(s, p);
        ProducerLinks(s, p);
        ProducerFront(s, p);
        ProducerBack(s, p);
        ProducerOrder(s, p);
        ProducerWake(s, p);
      case SenderStep =>
        SenderMutex(s);
        SenderNodes(s);
        SenderLinks(s);
        SenderFront(s);
        SenderBack(s);
        SenderOrder(s);
        SenderWake(s);
      case Spurious =>
        SameNodes(s, Next(s, a));
    }
  }

  lemma {:induction false} ExecutionKeeps(s: State, actions: seq<Action>, t: State)
    requires Inv(s) && Execution(s, actions, t)
    ensures Inv(t)
    decreases |actions|
  {
    if actions != [] {
      StepKeeps(s, actions[0]);
      ExecutionKeeps(Next(s, actions[0]), actions[1..], t);
    }
  }

  lemma ReachableInv(t: State)
    requires Reachable(t)
    ensures Inv(t)
  {
    var s, actions :| Initial(s) && Execution(s, actions, t);
    ExecutionKeeps(s, actions, t);
  }

  // ---- what every reachable state has -----------------------------------------------------

  /** The unlocked reads are sound: from leaving the wait loop to the pop, the list is not empty, the
      node read as `first` stays the front, and so the sender never gets NULL. */
  lemma UnlockedReadsAgree(s: State)
    requires Reachable(s)
    ensures s.sender != Null
    ensures s.sender == ReadFirst || s.sender.ReadCount? || s.sender.PopLock? || s.sender.ReadData? ==>
              s.count > 0 && s.chain != [] && s.first == s.chain[0]
    ensures s.sender.ReadCount? || s.sender.PopLock? || s.sender.ReadData? || s.sender.Advance? ==>
              s.chain != [] && s.sender.node == s.chain[0] && s.sender.node in s.heap
  {
    ReachableInv(s);
  }

  /** What is sent is always a prefix of what was enqueued; the rest is in flight or listed, in order. */
  lemma SentIsPrefix(s: State)
    requires Reachable(s)
    ensures s.sent <= s.enqueued
    ensures forall i :: 0 <= i < |s.chain| ==> s.chain[i] in s.heap
    ensures s.enqueued == s.sent + InFlight(s.sender) + DataOf(s.heap, s.chain)
    ensures s.count == |s.chain|
  {
    ReachableInv(s);
  }

  /** No step touches a node that is not allocated: the accesses guarded in Enabled never block. */
  lemma NoDanglingAccess(s: State, p: nat)
    requires Reachable(s)
    ensures p < |s.producers| && s.producers[p].LinkNext? ==> s.last in s.heap
    ensures s.sender.ReadData? || s.sender.Advance? || s.sender.Free? ==> s.sender.node in s.heap
  {
    ReachableInv(s);
    if p < |s.producers| && s.producers[p].LinkNext? {
      assert Inside(s.producers[p]) && s.owner == OfProducer(p);
    }
  }

  /** The sender is never stranded: while messages are listed, it or a producer in the middle of its
      call can take a step without a spurious wake-up. */
  lemma NeverStranded(s: State) returns (a: Action)
    requires Reachable(s) && s.chain != []
    ensures (a == SenderStep || a.ProducerStep?) && Enabled(s, a)
  {
    ReachableInv(s);
    match s.owner {
      case OfProducer(p) =>
        NoDanglingAccess(s, p);
        assert Inside(s.producers[p]);
        a := ProducerStep(p);
      case TheSender =>
        a := SenderStep;
      case Nobody =>
        if s.sender == Asleep {
          var p :| 0 <= p < |s.producers| && (s.producers[p] == Leave || s.producers[p] == Signal);
          a := ProducerStep(p);
        } else {
          a := SenderStep;
        }
    }
  }
}
