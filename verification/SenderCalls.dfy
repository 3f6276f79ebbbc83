/** The messages of the outgoing queue are those its callers pass to queue_enqueue: none changed, lost or
    added, and each caller's in the order of its calls. */
module SenderCalls {
  import opened Options
  import opened SenderQueue
  import opened SenderProgress

  // ---- what a run was asked for -----------------------------------------------------------

  /** The messages producer p passes in, in the order of its calls. */
  function CallsOf(actions: seq<Action>, p: nat): seq<Msg> {
    if actions == [] then []
    else (if actions[0].Enqueue? && actions[0].p == p then [actions[0].msg] else []) + CallsOf(actions[1..], p)
  }

  /** All messages passed in. */
  function AllCalls(actions: seq<Action>): seq<Msg> {
    if actions == [] then []
    else (if actions[0].Enqueue? then [actions[0].msg] else []) + AllCalls(actions[1..])
  }

  /** A call is counted when its count++ is executed. */
  predicate Counts(s: State, a: Action) {
    a.ProducerStep? && a.p < |s.producers| && s.producers[a.p].Bump?
  }

  /** The producers whose calls are counted, in the order in which they are. */
  function Callers(s: State, actions: seq<Action>): seq<nat>
    decreases |actions|
  {
    if actions == [] || !Enabled(s, actions[0]) then []
    else (if Counts(s, actions[0]) then [actions[0].p] else []) + Callers(Next(s, actions[0]), actions[1..])
  }

  /** The messages of caller p. */
  function Those(msgs: seq<Msg>, callers: seq<nat>, p: nat): seq<Msg>
    requires |msgs| <= |callers|
  {
    if msgs == [] then []
    else
      var n := |msgs| - 1;
      Those(msgs[..n], callers, p) + if callers[n] == p then [msgs[n]] else []
  }

  /** Calls of producer p that have not executed count++ yet: none or one. */
  function Uncounted(s: State, p: nat): nat {
    if p < |s.producers| && Adding(s.producers[p]).Some? then 1 else 0
  }

  // ---- one step ---------------------------------------------------------------------------

  /** The message producer p is about to add. */
  ghost function Pending(s: State, p: nat): seq<Msg>
    requires NodesInv(s)
  {
    if p < |s.producers| && Adding(s.producers[p]).Some? then [s.heap[Adding(s.producers[p]).value].data] else []
  }

  lemma InvNodes(t: State)
    requires Inv(t)
    ensures NodesInv(t)
  {
  }

  lemma EnqueuePends(s: State, a: Action, p: nat)
    requires Inv(s) && a.Enqueue? && Enabled(s, a) && NodesInv(Next(s, a))
    ensures Next(s, a).enqueued == s.enqueued
    ensures Pending(s, p) + (if a.p == p then [a.msg] else []) == Pending(Next(s, a), p)
  {
    var t := Next(s, a);
    if p == a.p {
      assert Adding(t.producers[p]) == Some(a.address) && Pending(s, p) == [];
    }
  }

  lemma BumpCounts(s: State, p: nat)
    requires Inv(s) && Enabled(s, ProducerStep(p)) && s.producers[p].Bump? && NodesInv(NextProducer(s, p))
    ensures var t := NextProducer(s, p);
            && |Pending(s, p)| == 1 && t.enqueued == s.enqueued + Pending(s, p) && Pending(t, p) == []
            && forall q: nat :: q != p ==> Pending(t, q) == Pending(s, q)
  {
    var t, n := NextProducer(s, p), s.producers[p].node;
    assert Adding(s.producers[p]) == Some(n);
    forall q: nat | q != p
      ensures Pending(t, q) == Pending(s, q)
    {
      if q < |s.producers| {
        assert t.producers[q] == s.producers[q];
      }
    }
  }

  /** Other steps neither count a call nor touch the data of a node being added. */
  lemma OthersKeep(s: State, a: Action)
    requires Inv(s) && Enabled(s, a) && !a.Enqueue? && !Counts(s, a) && NodesInv(Next(s, a))
    ensures Next(s, a).enqueued == s.enqueued && forall q: nat :: Pending(Next(s, a), q) == Pending(s, q)
  {
    var t := Next(s, a);
    assert |t.producers| == |s.producers|;
    forall q: nat | q < |s.producers|
      ensures Pending(t, q) == Pending(s, q)
    {
      assert Adding(t.producers[q]) == Adding(s.producers[q]);
      if Adding(s.producers[q]).Some? {
        assert Adding(s.producers[q]).value in s.heap;
        SameData(s, a, Adding(s.producers[q]).value);
      }
    }
  }

  lemma SameData(s: State, a: Action, n: nat)
    requires Enabled(s, a) && !a.Enqueue? && n in s.heap && n in Next(s, a).heap
    ensures Next(s, a).heap[n].data == s.heap[n].data
  {
  }

  // ---- runs -------------------------------------------------------------------------------

  lemma {:induction false} ThoseIgnore(msgs: seq<Msg>, callers: seq<nat>, more: seq<nat>, p: nat)
    requires |msgs| <= |callers|
    ensures Those(msgs, callers + more, p) == Those(msgs, callers, p)
  {
    if msgs != [] {
      ThoseIgnore(msgs[..|msgs| - 1], callers, more, p);
    }
  }

  lemma ThoseGrow(msgs: seq<Msg>, callers: seq<nat>, m: Msg, c: nat, p: nat)
    requires |msgs| == |callers|
    ensures Those(msgs + [m], callers + [c], p) == Those(msgs, callers, p) + if c == p then [m] else []
  {
    assert (msgs + [m])[..|msgs|] == msgs;
    ThoseIgnore(msgs, callers, [c], p);
  }

  lemma CountsMeans(s: State, a: Action)
    requires Enabled(s, a)
    ensures a.Enqueue? ==> !Counts(s, a)
    ensures Counts(s, a) ==>
              && a.ProducerStep? && a.p < |s.producers| && s.producers[a.p].Bump?
              && Enabled(s, ProducerStep(a.p)) && Next(s, a) == NextProducer(s, a.p)
  {
  }

  lemma RunUnfolds(s: State, actions: seq<Action>, t: State, p: nat)
    requires Execution(s, actions, t)
    ensures actions == [] ==>
              t == s && Callers(s, actions) == [] && CallsOf(actions, p) == [] && AllCalls(actions) == []
    ensures actions != [] ==>
              var a := actions[0];
              && Enabled(s, a) && Execution(Next(s, a), actions[1..], t)
              && Callers(s, actions) == (if Counts(s, a) then [a.p] else []) + Callers(Next(s, a), actions[1..])
              && CallsOf(actions, p) == (if a.Enqueue? && a.p == p then [a.msg] else []) + CallsOf(actions[1..], p)
              && AllCalls(actions) == (if a.Enqueue? then [a.msg] else []) + AllCalls(actions[1..])
  {
  }

  /** The lists after one more action. */
  lemma StepMatches(s: State, callers: seq<nat>, a: Action, p: nat)
    requires Inv(s) && Enabled(s, a) && |callers| == |s.enqueued| && Inv(Next(s, a))
    ensures var now := callers + (if Counts(s, a) then [a.p] else []);
            && |now| == |Next(s, a).enqueued|
            && Those(Next(s, a).enqueued, now, p) + Pending(Next(s, a), p) ==
               Those(s.enqueued, callers, p) + Pending(s, p) + (if a.Enqueue? && a.p == p then [a.msg] else [])
  {
    hide *;
    InvNodes(s);
    InvNodes(Next(s, a));
    CountsMeans(s, a);
    assert callers + [] == callers;
    if a.Enqueue? {
      EnqueuePends(s, a, p);
    } else if Counts(s, a) {
      BumpCounts(s, a.p);
      ThoseGrow(s.enqueued, callers, Pending(s, a.p)[0], a.p, p);
      assert s.enqueued + Pending(s, a.p) == s.enqueued + [Pending(s, a.p)[0]];
    } else {
      OthersKeep(s, a);
    }
  }

  lemma {:induction false} RunMatches(s: State, callers: seq<nat>, actions: seq<Action>, t: State, p: nat)
    requires Inv(s) && |callers| == |s.enqueued| && Execution(s, actions, t)
    ensures Inv(t) && |callers + Callers(s, actions)| == |t.enqueued|
    ensures Those(t.enqueued, callers + Callers(s, actions), p) + Pending(t, p) ==
            Those(s.enqueued, callers, p) + Pending(s, p) + CallsOf(actions, p)
    decreases |actions|
  {
    hide *;
    InvNodes(s);
    RunUnfolds(s, actions, t, p);
    if actions == [] {
      assert callers + Callers(s, actions) == callers;
      assert Those(s.enqueued, callers, p) + Pending(s, p) + [] == Those(s.enqueued, callers, p) + Pending(s, p);
    } else {
      var a := actions[0];
      CountsMeans(s, a);
      var n, more := Next(s, a), if Counts(s, a) then [a.p] else [];
      StepKeeps(s, a);
      InvNodes(n);
      StepMatches(s, callers, a, p);
      RunMatches(n, callers + more, actions[1..], t, p);
      assert callers + more + Callers(n, actions[1..]) == callers + Callers(s, actions);
      var one := if a.Enqueue? && a.p == p then [a.msg] else [];
      assert Those(s.enqueued, callers, p) + Pending(s, p) + one + CallsOf(actions[1..], p) ==
             Those(s.enqueued, callers, p) + Pending(s, p) + CallsOf(actions, p);
    }
  }

  lemma PendingLength(s: State, p: nat)
    requires NodesInv(s)
    ensures |Pending(s, p)| == Uncounted(s, p)
  {
  }

  lemma StartsEmpty(s: State, p: nat)
    requires Initial(s)
    ensures Inv(s) && s.enqueued == [] && Pending(s, p) == []
  {
  }

  /** Over every run, the messages enqueued on behalf of each producer are the ones it passed in, in the
      order of its calls, up to the call that has not executed count++ yet, if there is one. */
  lemma EnqueuedAreCalls(s: State, actions: seq<Action>, t: State, p: nat)
    requires Initial(s) && Execution(s, actions, t)
    ensures |Callers(s, actions)| == |t.enqueued| && Uncounted(t, p) <= |CallsOf(actions, p)|
    ensures Those(t.enqueued, Callers(s, actions), p) ==
            CallsOf(actions, p)[..|CallsOf(actions, p)| - Uncounted(t, p)]
  {
    StartsEmpty(s, p);
    RunMatches(s, [], actions, t, p);
    hide Inv;
    var callers := Callers(s, actions);
    assert [] + callers == callers;
    InvNodes(t);
    PendingLength(t, p);
    var mine := Those(t.enqueued, callers, p);
    assert Those([], [], p) == [];
    assert mine + Pending(t, p) == CallsOf(actions, p);
    assert (mine + Pending(t, p))[..|mine|] == mine;
  }

  // ---- as multisets -----------------------------------------------------------------------

  /** The messages of the calls of the first k producers that are not counted yet. */
  ghost function PendingBag(s: State, k: nat): multiset<Msg>
    requires NodesInv(s)
  {
    if k == 0 then multiset{} else PendingBag(s, k - 1) + multiset(Pending(s, k - 1))
  }

  lemma AddBoth(a: multiset<Msg>, b: multiset<Msg>, c: multiset<Msg>, d: multiset<Msg>, x: multiset<Msg>)
    requires a + b == c + d
    ensures (a + x) + b == (c + x) + d
  {
    assert (a + x) + b == (a + b) + x;
  }

  lemma Cancel(a: multiset<Msg>, b: multiset<Msg>, c: multiset<Msg>, d: multiset<Msg>)
    requires a + b == c + (b + d)
    ensures a == c + d
  {
    forall e
      ensures a[e] == (c + d)[e]
    {
      assert (a + b)[e] == (c + (b + d))[e];
    }
  }

  lemma {:induction false} BagSame(s: State, t: State, k: nat)
    requires NodesInv(s) && NodesInv(t) && forall q: nat :: q < k ==> Pending(s, q) == Pending(t, q)
    ensures PendingBag(s, k) == PendingBag(t, k)
  {
    if k > 0 {
      BagSame(s, t, k - 1);
    }
  }

  lemma {:induction false} BagChange(s: State, t: State, k: nat, p: nat)
    requires NodesInv(s) && NodesInv(t) && p < k && forall q: nat :: q != p ==> Pending(s, q) == Pending(t, q)
    ensures PendingBag(t, k) + multiset(Pending(s, p)) == PendingBag(s, k) + multiset(Pending(t, p))
  {
    hide Pending, NodesInv;
    if p == k - 1 {
      BagSame(s, t, k - 1);
    } else {
      assert Pending(s, k - 1) == Pending(t, k - 1);
      BagChange(s, t, k - 1, p);
      AddBoth(PendingBag(t, k - 1), multiset(Pending(s, p)), PendingBag(s, k - 1), multiset(Pending(t, p)),
              multiset(Pending(s, k - 1)));
    }
  }

  lemma CrewSame(s: State, a: Action)
    requires Enabled(s, a)
    ensures |Next(s, a).producers| == |s.producers|
    ensures a.Enqueue? || a.ProducerStep? ==> a.p < |s.producers|
  {
  }

  lemma StepBag(s: State, a: Action)
    requires Inv(s) && Enabled(s, a) && Inv(Next(s, a))
    ensures var t, k := Next(s, a), |s.producers|;
            && |t.producers| == k
            && multiset(t.enqueued) + PendingBag(t, k) ==
               multiset(s.enqueued) + PendingBag(s, k) + multiset(if a.Enqueue? then [a.msg] else [])
  {
    hide *;
    var t, k := Next(s, a), |s.producers|;
    InvNodes(s);
    InvNodes(t);
    CountsMeans(s, a);
    CrewSame(s, a);
    if a.Enqueue? {
      forall q: nat
        ensures q != a.p ==> Pending(t, q) == Pending(s, q)
        ensures q == a.p ==> Pending(s, q) + [a.msg] == Pending(t, q)
      {
        EnqueuePends(s, a, q);
        assert Pending(s, q) + [] == Pending(s, q);
      }
      EnqueuePends(s, a, a.p);
      BagChange(s, t, k, a.p);
      assert Pending(t, a.p) == Pending(s, a.p) + [a.msg];
      assert multiset(Pending(t, a.p)) == multiset(Pending(s, a.p)) + multiset([a.msg]);
      Cancel(PendingBag(t, k), multiset(Pending(s, a.p)), PendingBag(s, k), multiset([a.msg]));
      assert multiset(s.enqueued) + PendingBag(t, k) == multiset(s.enqueued) + (PendingBag(s, k) + multiset([a.msg]));
    } else if Counts(s, a) {
      BumpCounts(s, a.p);
      BagChange(s, t, k, a.p);
      assert multiset(t.enqueued) == multiset(s.enqueued) + multiset(Pending(s, a.p));
      assert multiset(Pending(t, a.p)) == multiset{};
      assert PendingBag(t, k) + multiset(Pending(s, a.p)) == PendingBag(s, k);
      assert multiset(t.enqueued) + PendingBag(t, k) == multiset(s.enqueued) + PendingBag(s, k);
      assert multiset(s.enqueued) + PendingBag(s, k) + multiset([]) == multiset(s.enqueued) + PendingBag(s, k);
    } else {
      OthersKeep(s, a);
      BagSame(s, t, k);
    }
  }

  lemma {:induction false} RunBag(s: State, actions: seq<Action>, t: State)
    requires Inv(s) && Execution(s, actions, t)
    ensures Inv(t) && |t.producers| == |s.producers|
    ensures multiset(t.enqueued) + PendingBag(t, |s.producers|) ==
            multiset(s.enqueued) + PendingBag(s, |s.producers|) + multiset(AllCalls(actions))
    decreases |actions|
  {
    hide *;
    InvNodes(s);
    RunUnfolds(s, actions, t, 0);
    if actions != [] {
      var a := actions[0];
      StepKeeps(s, a);
      InvNodes(Next(s, a));
      StepBag(s, a);
      RunBag(Next(s, a), actions[1..], t);
      var one := if a.Enqueue? then [a.msg] else [];
      assert AllCalls(actions) == one + AllCalls(actions[1..]);
    }
  }

  /** Over every run, the messages enqueued and those of calls not counted yet are, with multiplicity,
      the messages passed in. */
  lemma NothingLostOrInvented(s: State, actions: seq<Action>, t: State)
    requires Initial(s) && Execution(s, actions, t)
    ensures NodesInv(t)
    ensures multiset(t.enqueued) + PendingBag(t, |t.producers|) == multiset(AllCalls(actions))
  {
    StartsEmpty(s, 0);
    RunBag(s, actions, t);
    InvNodes(t);
    EmptyBag(s, |s.producers|);
  }

  lemma {:induction false} EmptyBag(s: State, k: nat)
    requires Initial(s) && NodesInv(s)
    ensures PendingBag(s, k) == multiset{}
  {
    hide Inv, NodesInv, Initial, Pending;
    if k > 0 {
      StartsEmpty(s, k - 1);
      EmptyBag(s, k - 1);
    }
  }

  // ---- what is sent -----------------------------------------------------------------------

  lemma {:induction false} ThosePrefix(msgs: seq<Msg>, callers: seq<nat>, k: nat, p: nat)
    requires k <= |msgs| <= |callers|
    ensures Those(msgs[..k], callers, p) <= Those(msgs, callers, p)
  {
    if k < |msgs| {
      var n := |msgs| - 1;
      ThosePrefix(msgs[..n], callers, k, p);
      assert msgs[..n][..k] == msgs[..k];
    } else {
      assert msgs[..k] == msgs;
    }
  }

  /** At any time the messages sent for a producer are the first ones it passed in, in order. */
  lemma SentAreCalls(s: State, actions: seq<Action>, t: State, p: nat)
    requires Initial(s) && Execution(s, actions, t)
    ensures t.sent <= t.enqueued && |t.sent| <= |Callers(s, actions)|
    ensures Those(t.sent, Callers(s, actions), p) <= CallsOf(actions, p)
  {
    assert Reachable(t);
    SentIsPrefix(t);
    EnqueuedAreCalls(s, actions, t, p);
    hide Execution, Callers, Those, CallsOf;
    ThosePrefix(t.enqueued, Callers(s, actions), |t.sent|, p);
    assert t.enqueued[..|t.sent|] == t.sent;
  }

  // ---- every call gets through ------------------------------------------------------------

  /** Steps of a producer up to its count++ and unlock. */
  function ToCount(p: Producer): nat {
    match p
    case Made(_) => 7
    case Test(_) => 6
    case LinkNext(_) => 5
    case SetOnly(_) => 5
    case SetLast(_) => 4
    case SetFirst(_) => 4
    case Bump(_) => 3
    case Leave => 1
    case _ => 0
  }

  /** Steps of the sender up to its unlock. */
  function ToUnlock(c: Sender): nat {
    match c
    case ReadData(_) => 5
    case Advance(_, _) => 4
    case Drop(_, _) => 3
    case Free(_, _) => 2
    case PopUnlock(_) => 1
    case Look => 2
    case Exit => 1
    case _ => 0
  }

  function CallsLeft(producers: seq<Producer>): nat {
    if producers == [] then 0
    else CallsLeft(producers[..|producers| - 1]) + ToCount(producers[|producers| - 1])
  }

  lemma {:induction false} CallsLeftUpdate(producers: seq<Producer>, p: nat, pc: Producer)
    requires p < |producers|
    ensures CallsLeft(producers[p := pc]) == CallsLeft(producers) - ToCount(producers[p]) + ToCount(pc)
  {
    var n := |producers| - 1;
    if p == n {
      assert producers[p := pc][..n] == producers[..n];
    } else {
      assert producers[p := pc][..n] == producers[..n][p := pc];
      CallsLeftUpdate(producers[..n], p, pc);
    }
  }

  ghost predicate AllCounted(s: State) {
    forall p :: 0 <= p < |s.producers| ==> Adding(s.producers[p]) == None
  }

  lemma ProducerCounts(s: State, p: nat)
    requires Inv(s) && p < |s.producers|
    requires s.owner == OfProducer(p) || (s.owner == Nobody && s.producers[p].Made?)
    ensures Enabled(s, ProducerStep(p)) && CallsLeft(NextProducer(s, p).producers) < CallsLeft(s.producers)
  {
    hide *;
    if s.owner == OfProducer(p) {
      ProducerHelps(s, p);
      InsideIs(s, p);
    } else {
      LockEnabled(s, p);
    }
    ProducerAdvances(s, p);
    CallsLeftUpdate(s.producers, p, NextProducer(s, p).producers[p]);
  }

  lemma InsideIs(s: State, p: nat)
    requires Inv(s) && s.owner == OfProducer(p)
    ensures p < |s.producers| && Inside(s.producers[p])
  {
  }

  lemma LockEnabled(s: State, p: nat)
    requires p < |s.producers| && s.owner == Nobody && s.producers[p].Made?
    ensures Enabled(s, ProducerStep(p))
  {
  }

  lemma ProducerAdvances(s: State, p: nat)
    requires Enabled(s, ProducerStep(p)) && (Inside(s.producers[p]) || s.producers[p].Made?)
    ensures var t := NextProducer(s, p);
            && p < |s.producers| == |t.producers| && t.producers == s.producers[p := t.producers[p]]
            && ToCount(t.producers[p]) < ToCount(s.producers[p])
  {
  }

  lemma SenderUnlocks(s: State)
    requires Inv(s) && s.owner == TheSender
    ensures Enabled(s, SenderStep) && NextSender(s).producers == s.producers
    ensures ToUnlock(NextSender(s).sender) < ToUnlock(s.sender)
  {
  }

  /** A step towards all calls under way being counted. */
  lemma CountingStep(s: State) returns (a: Action)
    requires Inv(s) && !AllCounted(s)
    ensures Helpful(a) && Enabled(s, a)
    ensures CallsLeft(Next(s, a).producers) < CallsLeft(s.producers) ||
            (Next(s, a).producers == s.producers && ToUnlock(Next(s, a).sender) < ToUnlock(s.sender))
  {
    match s.owner {
      case OfProducer(p) =>
        a := ProducerStep(p);
        ProducerCounts(s, p);
      case TheSender =>
        a := SenderStep;
        SenderUnlocks(s);
      case Nobody =>
        var p :| 0 <= p < |s.producers| && Adding(s.producers[p]) != None;
        assert !Inside(s.producers[p]);
        a := ProducerStep(p);
        ProducerCounts(s, p);
    }
  }

  lemma {:induction false} CallsCounted(s: State) returns (actions: seq<Action>, t: State)
    requires Inv(s)
    ensures Onward(s, actions, t) && Inv(t) && AllCounted(t)
    decreases CallsLeft(s.producers), ToUnlock(s.sender)
  {
    hide Inv, Enabled, Next, AllCounted, CallsLeft, ToUnlock, Helpful;
    if AllCounted(s) {
      actions, t := [], s;
    } else {
      var a := CountingStep(s);
      StepKeeps(s, a);
      var rest;
      rest, t := CallsCounted(Next(s, a));
      actions := [a] + rest;
      assert actions[1..] == rest;
    }
  }

  lemma {:induction false} OnwardJoins(s: State, a: seq<Action>, t: State, b: seq<Action>, u: State)
    requires Execution(s, a, t) && Execution(t, b, u)
    ensures Execution(s, a + b, u)
    decreases |a|
  {
    if a == [] {
      assert a + b == b;
    } else {
      assert (a + b)[1..] == a[1..] + b;
      OnwardJoins(Next(s, a[0]), a[1..], t, b, u);
    }
  }

  /** Helpful steps make no calls; with none under way they count none. */
  lemma {:induction false} NoNewMessages(s: State, actions: seq<Action>, t: State)
    requires Onward(s, actions, t) && AllCounted(s)
    ensures AllCounted(t) && t.enqueued == s.enqueued
    decreases |actions|
  {
    if actions != [] {
      var n := Next(s, actions[0]);
      assert Helpful(actions[0]);
      if actions[0].ProducerStep? {
        assert Adding(s.producers[actions[0].p]) == None;
      }
      assert AllCounted(n) && n.enqueued == s.enqueued;
      NoNewMessages(n, actions[1..], t);
    }
  }

  lemma {:induction false} CallsJoin(a: seq<Action>, b: seq<Action>, p: nat)
    requires forall k :: 0 <= k < |b| ==> Helpful(b[k])
    ensures CallsOf(a + b, p) == CallsOf(a, p)
    decreases |a| + |b|
  {
    if a != [] {
      assert (a + b)[1..] == a[1..] + b;
      CallsJoin(a[1..], b, p);
    } else if b != [] {
      assert a + b == b && [] + b[1..] == b[1..];
      CallsJoin([], b[1..], p);
    }
  }

  /** From wherever a run has got to, the sender and the producers in the middle of a call can go on, without
      new calls or spurious wake-ups, until everything passed in so far is sent: all the messages of each
      producer, in the order of its calls. */
  lemma CallsGetThrough(s: State, actions: seq<Action>, t: State) returns (more: seq<Action>, u: State)
    requires Initial(s) && Execution(s, actions, t)
    ensures Onward(t, more, u) && Execution(s, actions + more, u)
    ensures |u.sent| == |Callers(s, actions + more)|
    ensures forall p: nat :: Those(u.sent, Callers(s, actions + more), p) == CallsOf(actions, p)
  {
    assert Reachable(t);
    ReachableInv(t);
    var first, mid := CallsCounted(t);
    var second;
    second, u := AllSent(mid, mid.enqueued);
    hide Inv, Execution, Those, CallsOf, Callers, AllCounted;
    NoNewMessages(mid, second, u);
    more := first + second;
    OnwardJoins(t, first, mid, second, u);
    OnwardJoins(s, actions, t, more, u);
    EverythingSent(s, actions, more, u);
  }

  lemma EverythingSent(s: State, actions: seq<Action>, more: seq<Action>, u: State)
    requires Initial(s) && Execution(s, actions + more, u) && AllCounted(u) && u.enqueued <= u.sent
    requires forall k :: 0 <= k < |more| ==> Helpful(more[k])
    ensures |u.sent| == |Callers(s, actions + more)|
    ensures forall p: nat :: Those(u.sent, Callers(s, actions + more), p) == CallsOf(actions, p)
  {
    assert Reachable(u);
    SentIsPrefix(u);
    assert u.sent == u.enqueued;
    forall p: nat
      ensures |u.sent| == |Callers(s, actions + more)|
      ensures Those(u.sent, Callers(s, actions + more), p) == CallsOf(actions, p)
    {
      EnqueuedAreCalls(s, actions + more, u, p);
      CallsJoin(actions, more, p);
      assert Uncounted(u, p) == 0;
    }
    EnqueuedAreCalls(s, actions + more, u, 0);
  }
}
