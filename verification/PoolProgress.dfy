/** What the wake-up bound of ThreadPool is good for, and exactly when it holds without its last term. */
module PoolProgress {
  import opened Options
  import opened ThreadPool

  // ---- queued jobs can always be handed out -----------------------------------------------

  /** A worker goes on, or a producer in the middle of its call does: no new call, no spurious wake-up,
      no shutdown. */
  predicate Helpful(a: Action) {
    a.WorkerStep? || a.ProducerStep?
  }

  ghost predicate Onward(s: Pool, actions: seq<Action>, t: Pool) {
    (forall k :: 0 <= k < |actions| ==> Helpful(actions[k])) && Execution(s, actions, t)
  }

  ghost predicate Anyone(s: Pool, w: Worker) {
    exists i :: 0 <= i < |s.workers| && s.workers[i] == w
  }

  /** How far the next take is away. */
  ghost function Rank(s: Pool): nat {
    match s.owner
    case OfWorker(i) =>
      if i >= |s.workers| then 0
      else
        (match s.workers[i]
         case TestEmpty => 3
         case GetLock => 2
         case Take => 1
         case GetUnlock(_) => 10
         case _ => 9)
    case OfProducer(p) => if p < |s.producers| && s.producers[p].Append? then 10 else 9
    case Nobody =>
      if Anyone(s, Lock) || Anyone(s, Woken) then 4
      else if Anyone(s, Check) then 5
      else if exists i :: 0 <= i < |s.workers| && s.workers[i].Run? then 6
      else 8
  }

  /** Working with jobs queued. */
  ghost predicate Busy(s: Pool) {
    Inv(s) && s.active && s.queue != [] && s.workers != []
  }

  /** A step that hands out the front job, or brings the next take nearer and leaves it the front. */
  ghost predicate Helps(s: Pool, a: Action)
    requires s.queue != [] && Enabled(s, a)
  {
    var t := Next(s, a);
    && t.active == s.active && |t.workers| == |s.workers| && s.added <= t.added
    && (t.handed == s.handed + [s.queue[0]] ||
        (t.handed == s.handed && t.queue != [] && t.queue[0] == s.queue[0] && Rank(t) < Rank(s)))
  }

  lemma InsideHelps(s: Pool, i: nat)
    requires Busy(s) && s.owner == OfWorker(i)
    ensures Enabled(s, WorkerStep(i)) && Helps(s, WorkerStep(i))
  {
    assert SeenBy(s, s.workers[i]);
  }

  lemma ProducerHelps(s: Pool, p: nat)
    requires Busy(s) && s.owner == OfProducer(p)
    ensures Enabled(s, ProducerStep(p, None)) && Helps(s, ProducerStep(p, None))
  {
  }

  /** With the mutex free, a worker that is not asleep comes nearer to it. */
  lemma OutsideHelps(s: Pool, i: nat)
    requires Busy(s) && s.owner == Nobody && i < |s.workers|
    requires s.workers[i] == Lock || s.workers[i] == Woken
             || (s.workers[i] == Check && !Anyone(s, Lock) && !Anyone(s, Woken))
             || (s.workers[i].Run? && !Anyone(s, Lock) && !Anyone(s, Woken) && !Anyone(s, Check))
    ensures Enabled(s, WorkerStep(i)) && Helps(s, WorkerStep(i))
  {
    var t := NextWorker(s, i);
    assert t.workers[i] == Lock || t.workers[i] == TestEmpty || t.workers[i] == Check;
  }

  lemma SignalRouses(s: Pool, p: nat)
    requires s.owner == Nobody && Enabled(s, ProducerStep(p, Some(0))) && s.producers[p] == Signal
    requires s.queue != [] && forall i :: 0 <= i < |s.workers| ==> s.workers[i] == Asleep
    ensures Helps(s, ProducerStep(p, Some(0)))
  {
    var t := NextProducer(s, p, Some(0));
    assert t.workers[0] == Woken;
  }

  /** With everybody asleep, a signal is on its way. */
  lemma SignalHelps(s: Pool) returns (a: Action)
    requires Busy(s) && s.owner == Nobody && forall i :: 0 <= i < |s.workers| ==> s.workers[i] == Asleep
    ensures Helpful(a) && Enabled(s, a) && Helps(s, a)
  {
    assert s.workers[0] == Asleep;
    a := HelpForSleeper(s, 0);
    SignalRouses(s, a.p);
  }

  lemma HelpfulStep(s: Pool) returns (a: Action)
    requires Busy(s)
    ensures Helpful(a) && Enabled(s, a) && Helps(s, a)
  {
    match s.owner {
      case OfWorker(i) =>
        a := WorkerStep(i);
        InsideHelps(s, i);
      case OfProducer(p) =>
        a := ProducerStep(p, None);
        ProducerHelps(s, p);
      case Nobody =>
        if i :| 0 <= i < |s.workers| && (s.workers[i] == Lock || s.workers[i] == Woken) {
          a := WorkerStep(i);
          OutsideHelps(s, i);
        } else if i :| 0 <= i < |s.workers| && s.workers[i] == Check {
          a := WorkerStep(i);
          OutsideHelps(s, i);
        } else if i :| 0 <= i < |s.workers| && s.workers[i].Run? {
          a := WorkerStep(i);
          OutsideHelps(s, i);
        } else {
          AllAsleep(s);
          a := SignalHelps(s);
        }
    }
  }

  lemma AllAsleep(s: Pool)
    requires MutexInv(s) && SeenInv(s) && s.active && s.owner == Nobody
    requires forall i :: 0 <= i < |s.workers| ==>
               s.workers[i] != Lock && s.workers[i] != Woken && s.workers[i] != Check && !s.workers[i].Run?
    ensures forall i :: 0 <= i < |s.workers| ==> s.workers[i] == Asleep
  {
    forall i | 0 <= i < |s.workers|
      ensures s.workers[i] == Asleep
    {
      assert SeenBy(s, s.workers[i]) && WorkerDepth(s.workers[i]) == 0;
    }
  }

  /** Some way of going on hands out the front job. */
  lemma {:induction false} FrontIsHanded(s: Pool) returns (actions: seq<Action>, t: Pool)
    requires Busy(s)
    ensures Onward(s, actions, t) && t.handed == s.handed + [s.queue[0]]
    ensures Inv(t) && t.active && |t.workers| == |s.workers| && s.added <= t.added
    decreases Rank(s)
  {
    var a := HelpfulStep(s);
    StepKeeps(s, a);
    var n := Next(s, a);
    if n.handed == s.handed + [s.queue[0]] {
      actions, t := [a], n;
      assert Execution(n, [], n) && [a][1..] == [];
    } else {
      var rest;
      rest, t := FrontIsHanded(n);
      actions := [a] + rest;
      assert actions[1..] == rest;
    }
  }

  lemma {:induction false} AllHanded(s: Pool, jobs: seq<Job>) returns (actions: seq<Action>, t: Pool)
    requires Inv(s) && s.active && s.workers != [] && jobs <= s.added
    ensures Onward(s, actions, t) && jobs <= t.handed
    decreases |jobs| - |s.handed|
  {
    assert s.added == s.handed + s.queue;
    if |jobs| <= |s.handed| {
      actions, t := [], s;
    } else {
      var first, n := FrontIsHanded(s);
      var rest;
      rest, t := AllHanded(n, jobs);
      ExecutionJoins(s, first, n, rest, t);
      actions := first + rest;
    }
  }

  /** No job is ever stranded: from every reachable state of an active pool with at least one worker,
      workers and the producers in the middle of a call can go on so that every job added so far is
      handed out, in order, without a new call and without a spurious wake-up. */
  lemma JobsGetThrough(s: Pool) returns (actions: seq<Action>, t: Pool)
    requires ReachableState(s) && s.active && s.workers != []
    ensures Onward(s, actions, t) && s.added <= t.handed
  {
    ReachableInv(s);
    actions, t := AllHanded(s, s.added);
  }

  // ---- exactly when signals and woken workers alone cover the queue -----------------------

  /** With one worker, or without producers, they do. */
  lemma SignalsAndWokenSuffice(n: nat, m: nat, s: Pool)
    requires ReachableFrom(n, m, s) && AnyAsleep(s) && (n <= 1 || m == 0)
    ensures |s.queue| <= Pending(s) + Rousing(s)
  {
    var actions :| Execution(Initial(n, m), actions, s);
    CrewStays(Initial(n, m), actions, s);
    ReachableInv(s);
    WakeupBound(s);
    if n <= 1 {
      var i :| 0 <= i < |s.workers| && s.workers[i] == Asleep;
    }
  }

  /** A pool at work with the mutex free. */
  ghost predicate Calm(n: nat, m: nat, s: Pool) {
    && ReachableFrom(n, m, s) && s.owner == Nobody && s.depth == 0 && s.active && s.stopper == Serving
    && |s.workers| == n && |s.producers| == m
  }

  /** A worker that finds nothing to do goes to sleep. */
  lemma FallsAsleep(n: nat, m: nat, s: Pool, i: nat) returns (t: Pool)
    requires Calm(n, m, s) && s.queue == [] && i < n && s.workers[i] == Check
    ensures Calm(n, m, t) && t == At(s, i, Asleep)
  {
    t := Does(n, m, s, WorkerStep(i));
    t := Does(n, m, t, WorkerStep(i));
    assert t == At(s, i, TestEmpty).(owner := OfWorker(i), depth := 1);
    t := Does(n, m, t, WorkerStep(i));
    t := Does(n, m, t, WorkerStep(i));
    t := Does(n, m, t, WorkerStep(i));
  }

  /** A producer appends a job and unlocks; its signal is still to come. */
  lemma AddsJob(n: nat, m: nat, s: Pool, p: nat) returns (t: Pool)
    requires Calm(n, m, s) && p < m && s.producers[p] == Idle
    ensures Calm(n, m, t) && t.workers == s.workers && |t.queue| == |s.queue| + 1
    ensures t.producers == s.producers[p := Signal]
  {
    t := Does(n, m, s, NewJob(p, 0, 0));
    t := Does(n, m, t, ProducerStep(p, None));
    t := Does(n, m, t, ProducerStep(p, None));
    t := Does(n, m, t, ProducerStep(p, None));
  }

  /** With two workers they need not: after the signal the woken worker holds the mutex, another still
      sleeps, and the job is still queued. */
  lemma SignalsAndWokenAreNotEnough(n: nat, m: nat) returns (s: Pool)
    requires n >= 2 && m >= 1
    ensures ReachableFrom(n, m, s) && AnyAsleep(s) && |s.queue| > Pending(s) + Rousing(s)
  {
    s := Initial(n, m);
    assert Execution(s, [], s);
    s := FallsAsleep(n, m, s, 0);
    s := FallsAsleep(n, m, s, 1);
    s := AddsJob(n, m, s, 0);
    assert s.workers[0] == Asleep;
    s := Does(n, m, s, ProducerStep(0, Some(0)));
    s := Does(n, m, s, WorkerStep(0));
    assert s.workers[1] == Asleep;
    CountPositive(s.producers, SignalDue);
    CountPositive(s.workers, IsWoken);
  }

  /** In every state n workers and m producers can reach, signals still to be sent and woken workers
      cover the queue while anybody sleeps: exactly if there is at most one worker or no producer. */
  lemma SignalsAndWokenExactly(n: nat, m: nat)
    ensures (forall s :: ReachableFrom(n, m, s) && AnyAsleep(s) ==> |s.queue| <= Pending(s) + Rousing(s)) <==>
            n <= 1 || m == 0
  {
    if n <= 1 || m == 0 {
      forall s | ReachableFrom(n, m, s) && AnyAsleep(s)
        ensures |s.queue| <= Pending(s) + Rousing(s)
      {
        SignalsAndWokenSuffice(n, m, s);
      }
    } else {
      var s := SignalsAndWokenAreNotEnough(n, m);
    }
  }
}
