/** Whether threadpool_destroy gets past its joins. It clears `threads_active` and sends one signal per
    worker without the mutex, so a worker that has read the flag but does not sleep yet misses them. */
module PoolJoin {
  import opened Options
  import opened ThreadPool
  import opened PoolProgress

  predicate IsAsleep(w: Worker) {
    w == Asleep
  }

  function Sleepers(s: Pool): nat {
    Count(s.workers, IsAsleep)
  }

  /** Signals threadpool_destroy has still to send. */
  function Left(s: Pool): nat {
    if s.stopper.Signalling? then s.stopper.left else 0
  }

  /** Some worker has found the flag set and is about to sleep. */
  ghost predicate AboutToSleep(s: Pool) {
    exists i :: 0 <= i < |s.workers| && s.workers[i] == Wait
  }

  /** Every sleeper still gets a signal. */
  ghost predicate Covered(s: Pool) {
    && !s.active && s.stopper != Serving && !AboutToSleep(s)
    && Sleepers(s) <= Left(s)
  }

  lemma {:induction false} CountAtMost<T>(s: seq<T>, p: T -> bool)
    ensures Count(s, p) <= |s|
  {
    if s != [] {
      CountAtMost(s[..|s| - 1], p);
    }
  }

  lemma SleepersAt(s: Pool, i: nat, pc: Worker)
    requires i < |s.workers|
    ensures Sleepers(At(s, i, pc)) ==
            Sleepers(s) - (if s.workers[i] == Asleep then 1 else 0) + (if pc == Asleep then 1 else 0)
  {
    CountUpdate(s.workers, i, pc, IsAsleep);
  }

  lemma SomeSleeper(s: Pool)
    ensures Sleepers(s) > 0 <==> AnyAsleep(s)
  {
    CountPositive(s.workers, IsAsleep);
    if i :| 0 <= i < |s.workers| && s.workers[i] == Asleep {
      assert IsAsleep(s.workers[i]);
    }
  }

  lemma SignalRousesOne(s: Pool, woken: Option<nat>)
    requires Wakes(s, woken)
    ensures Sleepers(Signalled(s, woken)) == if Sleepers(s) > 0 then Sleepers(s) - 1 else 0
    ensures AboutToSleep(Signalled(s, woken)) ==> AboutToSleep(s)
  {
    SomeSleeper(s);
    if woken.Some? {
      SleepersAt(s, woken.value, Woken);
      OthersStay(s, woken.value, Woken);
    }
  }

  lemma OthersStay(s: Pool, i: nat, pc: Worker)
    requires i < |s.workers| && pc != Wait
    ensures AboutToSleep(At(s, i, pc)) ==> AboutToSleep(s)
  {
    var t := At(s, i, pc);
    if AboutToSleep(t) {
      var j :| 0 <= j < |t.workers| && t.workers[j] == Wait;
      assert s.workers[j] == Wait;
    }
  }

  lemma WorkerStaysCovered(s: Pool, i: nat)
    requires Covered(s) && Enabled(s, WorkerStep(i))
    ensures Covered(NextWorker(s, i))
  {
    var t := NextWorker(s, i);
    assert s.workers[i] != Wait && s.workers[i] != Asleep;
    assert t.workers == s.workers[i := t.workers[i]] && t.workers[i] != Asleep && t.workers[i] != Wait;
    SleepersAt(s, i, t.workers[i]);
    OthersStay(s, i, t.workers[i]);
    SameWorkers(At(s, i, t.workers[i]), t);
  }

  lemma SameWorkers(s: Pool, t: Pool)
    requires t.workers == s.workers
    ensures Sleepers(t) == Sleepers(s) && AboutToSleep(t) == AboutToSleep(s) && AnyAsleep(t) == AnyAsleep(s)
  {
  }

  lemma StepStaysCovered(s: Pool, a: Action)
    requires Covered(s) && (Joined(s) ==> AllDone(s)) && Enabled(s, a)
    ensures Covered(Next(s, a))
  {
    match a {
      case WorkerStep(i) => WorkerStaysCovered(s, i);
      case ProducerStep(p, woken) =>
        if s.producers[p] == Signal {
          SignalRousesOne(s, woken);
          SameWorkers(Signalled(s, woken), Next(s, a));
        } else {
          SameWorkers(s, Next(s, a));
        }
      case Spurious(i) =>
        SleepersAt(s, i, Woken);
        OthersStay(s, i, Woken);
      case StopSignal(woken) =>
        SignalRousesOne(s, woken);
        SameWorkers(Signalled(s, woken), Next(s, a));
      case JoinAll =>
        SomeSleeper(s);
        SameWorkers(s, Next(s, a));
      case _ => SameWorkers(s, Next(s, a));
    }
  }

  lemma {:induction false} RunStaysCovered(s: Pool, actions: seq<Action>, t: Pool)
    requires Inv(s) && Covered(s) && Execution(s, actions, t)
    ensures Inv(t) && Covered(t)
    decreases |actions|
  {
    hide Inv, Covered, Next, Enabled;
    if actions != [] {
      InvParts(s);
      StepKeeps(s, actions[0]);
      StepStaysCovered(s, actions[0]);
      RunStaysCovered(Next(s, actions[0]), actions[1..], t);
    }
  }

  // ---- the joins can return ---------------------------------------------------------------

  /** Steps of a worker up to its end, once the pool is deactivated. */
  function ToEnd(w: Worker): nat {
    match w
    case Check => 1
    case Lock => 9
    case TestEmpty => 8
    case TestActive => 7
    case Wait => 11
    case Asleep => 10
    case Woken => 9
    case GetLock => 6
    case Take => 5
    case GetUnlock(_) => 4
    case Unlock(_) => 3
    case Run(_) => 2
    case Done => 0
  }

  function ToUnlock(p: Producer): nat {
    match p
    case Append(_) => 2
    case AddUnlock => 1
    case _ => 0
  }

  function Sum<T>(s: seq<T>, f: T -> nat): nat {
    if s == [] then 0 else Sum(s[..|s| - 1], f) + f(s[|s| - 1])
  }

  lemma {:induction false} SumUpdate<T>(s: seq<T>, i: nat, v: T, f: T -> nat)
    requires i < |s|
    ensures Sum(s[i := v], f) == Sum(s, f) - f(s[i]) + f(v)
  {
    var n := |s| - 1;
    if i == n {
      assert s[i := v][..n] == s[..n];
    } else {
      assert s[i := v][..n] == s[..n][i := v];
      SumUpdate(s[..n], i, v, f);
    }
  }

  function Distance(s: Pool): nat {
    Sum(s.workers, ToEnd) + Sum(s.producers, ToUnlock)
  }

  /** Deactivated, all signals sent, and nobody asleep or about to sleep. */
  ghost predicate Leaving(s: Pool) {
    Inv(s) && s.stopper == Signalling(0) && !AnyAsleep(s) && !AboutToSleep(s)
  }

  lemma WorkerLeaves(s: Pool, i: nat)
    requires Leaving(s) && Enabled(s, WorkerStep(i))
    ensures Distance(NextWorker(s, i)) < Distance(s)
  {
    var t := NextWorker(s, i);
    assert !s.active && s.workers[i] != Wait;
    assert t.workers == s.workers[i := t.workers[i]] && t.producers == s.producers
        && ToEnd(t.workers[i]) < ToEnd(s.workers[i]);
    SumUpdate(s.workers, i, t.workers[i], ToEnd);
  }

  lemma ProducerLeaves(s: Pool, p: nat)
    requires MutexInv(s) && s.owner == OfProducer(p) && s.stopper != Destroyed
    ensures Enabled(s, ProducerStep(p, None)) && Distance(NextProducer(s, p, None)) < Distance(s)
  {
    var t := NextProducer(s, p, None);
    assert t.producers == s.producers[p := t.producers[p]] && t.workers == s.workers;
    SumUpdate(s.producers, p, t.producers[p], ToUnlock);
  }

  /** A step towards the end of all workers. */
  lemma LeavingStep(s: Pool) returns (a: Action)
    requires Leaving(s) && !AllDone(s)
    ensures Helpful(a) && Enabled(s, a) && Distance(Next(s, a)) < Distance(s) && Next(s, a).stopper == s.stopper
  {
    match s.owner {
      case OfWorker(i) =>
        a := WorkerStep(i);
        WorkerLeaves(s, i);
      case OfProducer(p) =>
        a := ProducerStep(p, None);
        ProducerLeaves(s, p);
      case Nobody =>
        var i :| 0 <= i < |s.workers| && s.workers[i] != Done;
        a := WorkerStep(i);
        WorkerLeaves(s, i);
    }
  }

  lemma StaysLeaving(s: Pool, a: Action)
    requires Leaving(s) && Helpful(a) && Enabled(s, a) && Next(s, a).stopper == s.stopper
    ensures Leaving(Next(s, a))
  {
    SomeSleeper(s);
    InvParts(s);
    StepKeeps(s, a);
    StepStaysCovered(s, a);
    SomeSleeper(Next(s, a));
  }

  lemma {:induction false} AllLeave(s: Pool) returns (actions: seq<Action>, t: Pool)
    requires Leaving(s)
    ensures Onward(s, actions, t) && Leaving(t) && AllDone(t)
    decreases Distance(s)
  {
    if AllDone(s) {
      actions, t := [], s;
    } else {
      var a := LeavingStep(s);
      StaysLeaving(s, a);
      hide Leaving, Distance, Enabled, Next, AllDone;
      var rest;
      rest, t := AllLeave(Next(s, a));
      actions := [a] + rest;
      assert actions[1..] == rest;
    }
  }

  // ---- exactly when no worker misses its signal -------------------------------------------

  /** t is reached from s. */
  ghost predicate LeadsTo(s: Pool, t: Pool) {
    exists actions :: Execution(s, actions, t)
  }

  lemma LeadsThen(s: Pool, t: Pool, a: Action) returns (u: Pool)
    requires LeadsTo(s, t) && Enabled(t, a)
    ensures u == Next(t, a) && LeadsTo(s, u)
  {
    u := Next(t, a);
    var actions :| Execution(s, actions, t);
    ExecutionThen(s, actions, t, a);
  }

  /** The remaining signals go out while worker i has not moved. */
  lemma {:induction false} SignalsPass(s: Pool, t: Pool, i: nat) returns (u: Pool)
    requires LeadsTo(s, t) && t.stopper.Signalling? && i < |t.workers| && t.workers[i] == Wait
    ensures LeadsTo(s, u) && u.stopper == Signalling(0) && |u.workers| == |t.workers| && u.workers[i] == Wait
    decreases t.stopper.left
  {
    if t.stopper.left == 0 {
      u := t;
    } else if j :| 0 <= j < |t.workers| && t.workers[j] == Asleep {
      u := LeadsThen(s, t, StopSignal(Some(j)));
      u := SignalsPass(s, u, i);
    } else {
      u := LeadsThen(s, t, StopSignal(None));
      u := SignalsPass(s, u, i);
    }
  }

  /** The worker that was about to sleep does so after the last signal. */
  lemma MissesSignals(s: Pool, i: nat) returns (t: Pool)
    requires s.stopper.Signalling? && i < |s.workers| && s.workers[i] == Wait
    ensures LeadsTo(s, t) && t.stopper == Signalling(0) && AnyAsleep(t)
  {
    assert Execution(s, [], s);
    t := SignalsPass(s, s, i);
    t := LeadsThen(s, t, WorkerStep(i));
    assert t.workers[i] == Asleep;
  }

  /** Once deactivated, a pool is sure to have nobody asleep after its signals, if and only if no worker
      was between reading the flag and sleeping at that moment. */
  lemma SignalsReachAllExactly(s: Pool)
    requires ReachableState(s) && s.stopper == Signalling(|s.workers|)
    ensures (forall t :: LeadsTo(s, t) && t.stopper == Signalling(0) ==> !AnyAsleep(t)) <==> !AboutToSleep(s)
  {
    if AboutToSleep(s) {
      var i :| 0 <= i < |s.workers| && s.workers[i] == Wait;
      var t := MissesSignals(s, i);
    } else {
      ReachableInv(s);
      CountAtMost(s.workers, IsAsleep);
      forall t | LeadsTo(s, t) && t.stopper == Signalling(0)
        ensures !AnyAsleep(t)
      {
        var actions :| Execution(s, actions, t);
        RunStaysCovered(s, actions, t);
        SomeSleeper(t);
      }
    }
  }

  /** It does happen: a fresh pool's first worker can be caught there. */
  lemma CaughtAboutToSleep(n: nat, m: nat) returns (s: Pool)
    requires n > 0
    ensures ReachableFrom(n, m, s) && s.stopper == Signalling(n) && |s.workers| == n && s.workers[0] == Wait
  {
    s := Initial(n, m);
    assert Execution(s, [], s);
    s := Does(n, m, s, WorkerStep(0));
    s := Does(n, m, s, WorkerStep(0));
    s := Does(n, m, s, WorkerStep(0));
    s := Does(n, m, s, WorkerStep(0));
    s := Does(n, m, s, Deactivate);
  }

  lemma LeadsReachable(n: nat, m: nat, s: Pool, t: Pool)
    requires ReachableFrom(n, m, s) && LeadsTo(s, t)
    ensures ReachableFrom(n, m, t)
  {
    var before :| Execution(Initial(n, m), before, s);
    var after :| Execution(s, after, t);
    ExecutionJoins(Initial(n, m), before, s, after, t);
  }

  /** So in some run a worker sleeps through its shutdown, unless the pool has no workers. */
  lemma SomeRunSleepsExactly(n: nat, m: nat)
    ensures (forall t :: ReachableFrom(n, m, t) && t.stopper == Signalling(0) ==> !AnyAsleep(t)) <==> n == 0
  {
    if n > 0 {
      var s := CaughtAboutToSleep(n, m);
      var t := MissesSignals(s, 0);
      LeadsReachable(n, m, s, t);
    } else {
      forall t | ReachableFrom(n, m, t)
        ensures !AnyAsleep(t)
      {
        var actions :| Execution(Initial(n, m), actions, t);
        CrewStays(Initial(n, m), actions, t);
      }
    }
  }

  /** With nobody caught there, the joins can return from wherever the run has got to when the signals
      are out: the workers and the producers in mid-call can go on, without new calls or spurious
      wake-ups, until every worker is done. */
  lemma JoinsCanReturn(s: Pool, t: Pool) returns (actions: seq<Action>, u: Pool)
    requires ReachableState(s) && s.stopper == Signalling(|s.workers|) && !AboutToSleep(s)
    requires LeadsTo(s, t) && t.stopper == Signalling(0)
    ensures Onward(t, actions, u) && Enabled(u, JoinAll)
  {
    ReachableInv(s);
    CountAtMost(s.workers, IsAsleep);
    var before :| Execution(s, before, t);
    RunStaysCovered(s, before, t);
    SomeSleeper(t);
    actions, u := AllLeave(t);
  }

  /** A worker that missed its signals blocks the joins for good: with all other workers gone and no call
      under way, nothing but a new call or a spurious wake-up can happen. */
  lemma MissedForGood(s: Pool, a: Action)
    requires s.stopper == Signalling(0) && AnyAsleep(s) && Enabled(s, a)
    requires forall i :: 0 <= i < |s.workers| ==> s.workers[i] == Asleep || s.workers[i] == Done
    requires forall p :: 0 <= p < |s.producers| ==> s.producers[p] == Idle
    ensures a.NewJob? || a.Spurious?
  {
    var i :| 0 <= i < |s.workers| && s.workers[i] == Asleep;
  }
}
