/** What becomes of the queue when the pool is destroyed. jqueue_destroy reads `first_node` before it
    takes the mutex and frees the head after it has released it, while producers may still be calling
    jqueue_add_job. */
module PoolShutdown {
  import opened Options
  import opened ThreadPool

  // ---- which jobs are lost ----------------------------------------------------------------

  /** jqueue_destroy will not look at the list again: it found none, or is through with it. */
  predicate TooLate(s: Pool) {
    s.stopper == Peeked(None) || s.stopper == Drained || s.stopper == Destroyed
  }

  predicate Appends(s: Pool, a: Action) {
    a.ProducerStep? && a.p < |s.producers| && s.producers[a.p].Append?
  }

  /** How many jobs are appended between the look at an empty list, or the unlock, and the end. */
  function LateAppends(s: Pool, actions: seq<Action>): nat
    decreases |actions|
  {
    if actions == [] || !Enabled(s, actions[0]) then 0
    else
      (if TooLate(s) && Appends(s, actions[0]) then 1 else 0) + LateAppends(Next(s, actions[0]), actions[1..])
  }

  function Doomed(s: Pool): nat {
    if TooLate(s) then |s.queue| else 0
  }

  lemma StepDooms(s: Pool, a: Action)
    requires StopInv(s) && Enabled(s, a)
    ensures Doomed(Next(s, a)) == Doomed(s) + (if TooLate(s) && Appends(s, a) then 1 else 0)
  {
  }

  lemma {:induction false} RunDooms(s: Pool, actions: seq<Action>, t: Pool)
    requires Inv(s) && Execution(s, actions, t)
    ensures Doomed(t) == Doomed(s) + LateAppends(s, actions)
    decreases |actions|
  {
    hide *;
    ExecutionUnfolds(s, actions, t);
    if actions != [] {
      InvParts(s);
      StepKeeps(s, actions[0]);
      StepDooms(s, actions[0]);
      RunDooms(Next(s, actions[0]), actions[1..], t);
    }
  }

  lemma ExecutionUnfolds(s: Pool, actions: seq<Action>, t: Pool)
    requires Execution(s, actions, t)
    ensures actions == [] ==> t == s && LateAppends(s, actions) == 0
    ensures actions != [] ==>
              && Enabled(s, actions[0]) && Execution(Next(s, actions[0]), actions[1..], t)
              && LateAppends(s, actions) ==
                 (if TooLate(s) && Appends(s, actions[0]) then 1 else 0) +
                 LateAppends(Next(s, actions[0]), actions[1..])
  {
  }

  /** Job j was added and neither run nor freed. */
  predicate Lost(s: Pool, j: Job) {
    j in s.added && j !in s.ran && j !in s.dropped
  }

  ghost predicate NothingLost(s: Pool) {
    forall j :: j in s.added ==> j in s.ran || j in s.dropped
  }

  lemma LeftInQueue(s: Pool)
    requires ReachableState(s) && Joined(s)
    ensures forall j :: Lost(s, j) <==> j in s.queue
    ensures NothingLost(s) <==> s.queue == []
  {
    hide *;
    AfterJoin(s);
    LostMeans(s);
  }

  lemma LostMeans(s: Pool)
    ensures forall j :: Lost(s, j) <==> j in s.added && j !in s.ran && j !in s.dropped
    ensures NothingLost(s) <==> forall j :: !Lost(s, j)
    ensures s.queue != [] ==> s.queue[0] in s.queue
  {
    if NothingLost(s) {
      forall j
        ensures !Lost(s, j)
      {
      }
    } else {
      var j :| j in s.added && !(j in s.ran || j in s.dropped);
      assert Lost(s, j);
    }
  }

  /** In every run to the end of the pool, the jobs neither run nor dropped are exactly those left in the
      queue, as many as were appended too late: every added job is run or dropped if and only if none was
      appended between the look at an empty list and the drain, or after the drain. */
  lemma LostExactly(n: nat, m: nat, actions: seq<Action>, t: Pool)
    requires Execution(Initial(n, m), actions, t) && t.stopper == Destroyed
    ensures forall j :: Lost(t, j) <==> j in t.queue
    ensures |t.queue| == LateAppends(Initial(n, m), actions)
    ensures NothingLost(t) <==> LateAppends(Initial(n, m), actions) == 0
  {
    hide *;
    InitialInv(n, m);
    RunDooms(Initial(n, m), actions, t);
    Ends(n, m, actions, t);
    LeftInQueue(t);
  }

  lemma Ends(n: nat, m: nat, actions: seq<Action>, t: Pool)
    requires Execution(Initial(n, m), actions, t) && t.stopper == Destroyed
    ensures ReachableState(t) && Joined(t) && Doomed(Initial(n, m)) == 0 && Doomed(t) == |t.queue|
  {
    assert ReachableFrom(n, m, t);
  }

  // ---- what a caller can check when the joins have returned -------------------------------

  /** Nobody starts a new call of jqueue_add_job. */
  ghost predicate NoNewCalls(actions: seq<Action>) {
    forall k :: 0 <= k < |actions| ==> !actions[k].NewJob?
  }

  /** A call under way whose append can still come too late: one that does not have the mutex yet, or
      one that has it while the list is empty. */
  ghost predicate LateCall(s: Pool) {
    exists p :: 0 <= p < |s.producers| && (s.producers[p].AddLock? || (s.producers[p].Append? && s.queue == []))
  }

  /** Any append still to come is seen by the look or has been. */
  ghost predicate Timely(s: Pool) {
    forall p :: 0 <= p < |s.producers| ==>
      && !s.producers[p].AddLock?
      && (s.producers[p].Append? ==>
          s.queue != [] && (s.stopper == Joining || (s.stopper.Peeked? && s.stopper.first.Some?)))
  }

  lemma StepStaysTimely(s: Pool, a: Action)
    requires MutexInv(s) && StopInv(s) && Timely(s) && Joined(s) && Enabled(s, a) && !a.NewJob?
    ensures Timely(Next(s, a)) && Joined(Next(s, a)) && !(TooLate(s) && Appends(s, a))
  {
    var t := Next(s, a);
    forall p | 0 <= p < |t.producers|
      ensures !t.producers[p].AddLock?
      ensures t.producers[p].Append? ==>
              t.queue != [] && (t.stopper == Joining || (t.stopper.Peeked? && t.stopper.first.Some?))
    {
      assert ProducerDepth(s.producers[p]) > 0 ==> s.owner == OfProducer(p);
    }
  }

  lemma {:induction false} TimelyRun(s: Pool, actions: seq<Action>, t: Pool)
    requires Inv(s) && Timely(s) && Joined(s) && NoNewCalls(actions) && Execution(s, actions, t)
    ensures LateAppends(s, actions) == 0
    decreases |actions|
  {
    hide *;
    ExecutionUnfolds(s, actions, t);
    if actions != [] {
      InvParts(s);
      NoNewCallsSplit(actions);
      StepKeeps(s, actions[0]);
      StepStaysTimely(s, actions[0]);
      TimelyRun(Next(s, actions[0]), actions[1..], t);
    }
  }

  lemma NoNewCallsSplit(actions: seq<Action>)
    requires NoNewCalls(actions) && actions != []
    ensures !actions[0].NewJob? && NoNewCalls(actions[1..])
  {
  }

  /** t is reached from s without a new call. */
  ghost predicate Settles(s: Pool, t: Pool) {
    exists actions :: NoNewCalls(actions) && Execution(s, actions, t)
  }

  lemma SettlesSelf(s: Pool)
    ensures Settles(s, s)
  {
    assert NoNewCalls([]) && Execution(s, [], s);
  }

  lemma SettlesThen(s: Pool, t: Pool, a: Action) returns (u: Pool)
    requires Settles(s, t) && Enabled(t, a) && !a.NewJob?
    ensures u == Next(t, a) && Settles(s, u)
  {
    u := Next(t, a);
    var actions :| NoNewCalls(actions) && Execution(s, actions, t);
    ExecutionThen(s, actions, t, a);
    assert NoNewCalls(actions + [a]);
  }

  lemma SettledReachable(s: Pool, t: Pool)
    requires ReachableState(s) && Settles(s, t)
    ensures ReachableState(t)
  {
    var n: nat, m: nat :| ReachableFrom(n, m, s);
    var before :| Execution(Initial(n, m), before, s);
    var actions :| NoNewCalls(actions) && Execution(s, actions, t);
    ExecutionJoins(Initial(n, m), before, s, actions, t);
    assert ReachableFrom(n, m, t);
  }

  lemma NoWorkerInside(s: Pool)
    requires MutexInv(s) && StopInv(s) && Joined(s)
    ensures !s.owner.OfWorker?
  {
  }

  /** What the producer inside does next, and that it leaves everybody else alone. */
  lemma InsideSteps(t: Pool, p: nat)
    requires MutexInv(t) && t.owner == OfProducer(p) && t.stopper != Destroyed
    ensures Enabled(t, ProducerStep(p, None))
    ensures var u := Next(t, ProducerStep(p, None));
            && u.stopper == t.stopper && |u.producers| == |t.producers| > p && t.queue <= u.queue
            && (forall q :: 0 <= q < |t.producers| && q != p ==> u.producers[q] == t.producers[q])
            && (if t.producers[p].Append? then u.owner == t.owner && u.queue != [] && u.producers[p] == AddUnlock
                else t.producers[p] == AddUnlock && u.owner == Nobody)
  {
  }

  /** The producer that has the mutex, if any, finishes its append and unlocks. */
  lemma MutexFreed(s: Pool, t: Pool) returns (u: Pool)
    requires Settles(s, t) && Inv(t) && Joined(t) && t.stopper != Destroyed
    ensures Settles(s, u) && u.owner == Nobody && u.stopper == t.stopper
    ensures |u.producers| == |t.producers| && t.queue <= u.queue
    ensures forall p :: 0 <= p < |t.producers| && t.owner == OfProducer(p) && t.producers[p].Append? ==> u.queue != []
    ensures forall p :: 0 <= p < |t.producers| && t.owner != OfProducer(p) ==> u.producers[p] == t.producers[p]
  {
    hide *;
    u := t;
    InvParts(t);
    NoWorkerInside(t);
    if t.owner.OfProducer? {
      var p := t.owner.i;
      InsideSteps(u, p);
      if u.producers[p].Append? {
        StepKeeps(u, ProducerStep(p, None));
        u := SettlesThen(s, u, ProducerStep(p, None));
        InvParts(u);
        InsideSteps(u, p);
      }
      u := SettlesThen(s, u, ProducerStep(p, None));
    }
  }

  /** A call that wants the mutex appends after the drain. */
  lemma AppendsAfterDrain(s: Pool, t: Pool, p: nat) returns (u: Pool)
    requires Settles(s, t) && Inv(t) && t.stopper == Joining && p < |t.producers| && t.producers[p].AddLock?
    ensures Settles(s, u) && u.stopper == Destroyed && u.queue != []
  {
    u := MutexFreed(s, t);
    u := SettlesThen(s, u, Peek);
    u := SettlesThen(s, u, Drain);
    u := SettlesThen(s, u, ProducerStep(p, None));
    u := SettlesThen(s, u, ProducerStep(p, None));
    u := SettlesThen(s, u, Free);
  }

  /** A call that has the mutex while the list is empty appends between the look and the drain. */
  lemma AppendsAfterPeek(s: Pool, t: Pool, p: nat) returns (u: Pool)
    requires Settles(s, t) && Inv(t) && t.stopper == Joining && t.queue == []
    requires p < |t.producers| && t.producers[p].Append?
    ensures Settles(s, u) && u.stopper == Destroyed && u.queue != []
  {
    assert t.owner == OfProducer(p) by {
      assert ProducerDepth(t.producers[p]) > 0;
    }
    StepKeeps(t, Peek);
    u := SettlesThen(s, t, Peek);
    u := MutexFreed(s, u);
    u := SettlesThen(s, u, Drain);
    u := SettlesThen(s, u, Free);
  }

  /** When the joins have returned and no new call starts, nothing can get lost if and only if no call
      is under way that still wants the mutex, or holds it before its append to an empty list. */
  lemma SafeToDestroy(s: Pool)
    requires ReachableState(s) && s.stopper == Joining
    ensures (forall t :: Settles(s, t) && t.stopper == Destroyed ==> NothingLost(t)) <==> !LateCall(s)
  {
    ReachableInv(s);
    if LateCall(s) {
      var p :| 0 <= p < |s.producers| && (s.producers[p].AddLock? || (s.producers[p].Append? && s.queue == []));
      SettlesSelf(s);
      var t;
      if s.producers[p].AddLock? {
        t := AppendsAfterDrain(s, s, p);
      } else {
        t := AppendsAfterPeek(s, s, p);
      }
      SettledReachable(s, t);
      LeftInQueue(t);
    } else {
      forall t | Settles(s, t) && t.stopper == Destroyed
        ensures NothingLost(t)
      {
        var actions :| NoNewCalls(actions) && Execution(s, actions, t);
        TimelyRun(s, actions, t);
        RunDooms(s, actions, t);
        SettledReachable(s, t);
        LeftInQueue(t);
      }
    }
  }

  /** In particular nothing is lost if all producers are outside jqueue_add_job when the joins have
      returned and stay there. */
  lemma QuietProducersLoseNothing(s: Pool, t: Pool)
    requires ReachableState(s) && s.stopper == Joining && forall p :: 0 <= p < |s.producers| ==> s.producers[p] == Idle
    requires Settles(s, t) && t.stopper == Destroyed
    ensures NothingLost(t)
  {
    SafeToDestroy(s);
  }

  // ---- with producers that are never told to stop -----------------------------------------

  /** The workers of a deactivated fresh pool leave one by one. */
  lemma {:induction false} WorkersLeave(n: nat, m: nat, k: nat) returns (s: Pool)
    requires k <= n
    ensures ReachableFrom(n, m, s)
    ensures s == Initial(n, m).(active := false, stopper := Signalling(n),
                                workers := seq(n, i requires 0 <= i < n => if i < k then Done else Check))
  {
    if k == 0 {
      s := Initial(n, m);
      assert Execution(s, [], s);
      s := Does(n, m, s, Deactivate);
      assert s.workers == seq(n, i requires 0 <= i < n => if i < k then Done else Check);
    } else {
      s := WorkersLeave(n, m, k - 1);
      s := Does(n, m, s, WorkerStep(k - 1));
      assert s.workers == seq(n, i requires 0 <= i < n => if i < k then Done else Check);
    }
  }

  lemma {:induction false} SignalsSent(n: nat, m: nat, k: nat) returns (s: Pool)
    requires k <= n
    ensures ReachableFrom(n, m, s)
    ensures s == Initial(n, m).(active := false, stopper := Signalling(n - k), workers := seq(n, _ => Done))
  {
    if k == 0 {
      s := WorkersLeave(n, m, n);
      assert s.workers == seq(n, _ => Done);
    } else {
      s := SignalsSent(n, m, k - 1);
      s := Does(n, m, s, StopSignal(None));
    }
  }

  /** The failing interleaving: the look finds an empty list, then a producer appends. */
  lemma LostBetweenPeekAndDrain(n: nat, m: nat) returns (s: Pool)
    requires m > 0
    ensures ReachableFrom(n, m, s) && s.stopper == Destroyed && s.dropped == [] && s.ran == [] && |s.added| == 1
    ensures !NothingLost(s)
  {
    s := SignalsSent(n, m, n);
    s := Does(n, m, s, JoinAll);
    s := Does(n, m, s, Peek);
    s := Does(n, m, s, NewJob(0, 0, 0));
    s := Does(n, m, s, ProducerStep(0, None));
    s := Does(n, m, s, ProducerStep(0, None));
    s := Does(n, m, s, ProducerStep(0, None));
    s := Does(n, m, s, Drain);
    s := Does(n, m, s, Free);
    assert Lost(s, s.added[0]);
  }

  /** With any producer about that is not stopped, some run loses a job; without producers none does. */
  lemma SomeRunLosesExactly(n: nat, m: nat)
    ensures (forall s :: ReachableFrom(n, m, s) && s.stopper == Destroyed ==> NothingLost(s)) <==> m == 0
  {
    if m > 0 {
      var s := LostBetweenPeekAndDrain(n, m);
    } else {
      forall s | ReachableFrom(n, m, s) && s.stopper == Destroyed
        ensures NothingLost(s)
      {
        var actions :| Execution(Initial(n, m), actions, s);
        CrewStays(Initial(n, m), actions, s);
      }
    }
  }
}
