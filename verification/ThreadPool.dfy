/** threadpool.c and job_queue.c as threads that interleave freely: any number of workers in
    thread_function, any number of producers in jqueue_add_job, and the thread that calls
    threadpool_destroy. They share one recursive mutex and one condition variable; add_job signals
    only after it has unlocked. The job list is a sequence here; JobList proves the linked list. */
module ThreadPool {
  import opened Options

  /** A job as allocated by jqueue_add_job; the ticket tells apart equal calls. */
  datatype Job = Job(ticket: nat, routine: int, arg: int)

  /** Where a worker is in thread_function and jqueue_get_job. */
  datatype Worker =
    | Check                          // while (threads_active)
    | Lock                           // pthread_mutex_lock
    | TestEmpty                      // while (jqueue_is_empty ...
    | TestActive                     // ... && threads_active), a flag the mutex does not guard
    | Wait                           // pthread_cond_wait entered: release the mutex and sleep
    | Asleep                         // inside pthread_cond_wait
    | Woken                          // pthread_cond_wait taking the mutex again
    | GetLock                        // the inner lock of jqueue_get_job
    | Take                           // read and unlink the first node
    | GetUnlock(job: Option<Job>)    // the inner unlock
    | Unlock(job: Option<Job>)       // pthread_mutex_unlock
    | Run(job: Option<Job>)          // if (job != NULL) do_job
    | Done

  datatype Producer =
    | Idle
    | AddLock(job: Job)             // job allocated, mutex wanted
    | Append(job: Job)
    | AddUnlock
    | Signal                         // unlocked, signal still to be sent

  /** The thread in threadpool_destroy. jqueue_destroy reads `first_node` before it takes the mutex;
      `first` is what it saw. */
  datatype Stopper =
    | Serving
    | Signalling(left: nat)
    | Joining
    | Peeked(first: Option<Job>)     // current_node = first_node, without the mutex
    | Drained                        // unlocked again
    | Destroyed                      // the list head is freed

  datatype Owner = Nobody | OfWorker(i: nat) | OfProducer(i: nat)

  datatype Pool = Pool(
    workers: seq<Worker>, producers: seq<Producer>, stopper: Stopper,
    active: bool, queue: seq<Job>, owner: Owner, depth: nat,
    tickets: nat, added: seq<Job>, handed: seq<Job>, ran: seq<Job>, dropped: seq<Job>)

  /** One atomic step of one thread. `woken` is the sleeper a signal wakes, if there is any. */
  datatype Action =
    | WorkerStep(i: nat)
    | Spurious(i: nat)
    | NewJob(p: nat, routine: int, arg: int)
    | ProducerStep(p: nat, woken: Option<nat>)
    | Deactivate
    | StopSignal(woken: Option<nat>)
    | JoinAll
    | Peek
    | Drain
    | Free

  // ---- the steps --------------------------------------------------------------------------

  /** The mutex is recursive: its owner may lock it again. */
  predicate CanLock(s: Pool, who: Owner) {
    s.owner == Nobody || s.owner == who
  }

  function Locked(s: Pool, who: Owner): Pool {
    s.(owner := who, depth := s.depth + 1)
  }

  /** Unlocking, and the release inside pthread_cond_wait, undo one lock. */
  function Released(s: Pool): Pool {
    if s.depth <= 1 then s.(owner := Nobody, depth := 0) else s.(depth := s.depth - 1)
  }

  predicate AnyAsleep(s: Pool) {
    exists i :: 0 <= i < |s.workers| && s.workers[i] == Asleep
  }

  /** A signal wakes a sleeper if there is one, and is lost otherwise. */
  predicate Wakes(s: Pool, woken: Option<nat>) {
    match woken
    case Some(i) => i < |s.workers| && s.workers[i] == Asleep
    case None => !AnyAsleep(s)
  }

  function Signalled(s: Pool, woken: Option<nat>): Pool
    requires Wakes(s, woken)
  {
    if woken.Some? then At(s, woken.value, Woken) else s
  }

  function At(s: Pool, i: nat, pc: Worker): Pool
    requires i < |s.workers|
  {
    s.(workers := s.workers[i := pc])
  }

  function ProducerAt(s: Pool, p: nat, pc: Producer): Pool
    requires p < |s.producers|
  {
    s.(producers := s.producers[p := pc])
  }

  predicate Enabled(s: Pool, a: Action) {
    s.stopper != Destroyed &&
    match a
    case WorkerStep(i) =>
      i < |s.workers| &&
      (match s.workers[i]
       case Asleep => false
       case Done => false
       case Lock => CanLock(s, OfWorker(i))
       case Woken => CanLock(s, OfWorker(i))
       case GetLock => CanLock(s, OfWorker(i))
       case _ => true)
    case Spurious(i) => i < |s.workers| && s.workers[i] == Asleep
    case NewJob(p, _, _) => p < |s.producers| && s.producers[p] == Idle
    case ProducerStep(p, woken) =>
      p < |s.producers| &&
      (match s.producers[p]
       case Idle => false
       case AddLock(_) => CanLock(s, OfProducer(p))
       case Signal => Wakes(s, woken)
       case _ => true)
    case Deactivate => s.stopper == Serving
    case StopSignal(woken) => s.stopper.Signalling? && s.stopper.left > 0 && Wakes(s, woken)
    case JoinAll => s.stopper == Signalling(0) && forall i :: 0 <= i < |s.workers| ==> s.workers[i] == Done
    case Peek => s.stopper == Joining
    case Drain => s.stopper.Peeked? && s.owner == Nobody
    case Free => s.stopper == Drained
  }

  function NextWorker(s: Pool, i: nat): Pool
    requires Enabled(s, WorkerStep(i))
  {
    match s.workers[i]
    case Check => At(s, i, if s.active then Lock else Done)
    case Lock => At(Locked(s, OfWorker(i)), i, TestEmpty)
    case TestEmpty => At(s, i, if s.queue == [] then TestActive else GetLock)
    case TestActive => At(s, i, if s.active then Wait else GetLock)
    case Wait => At(Released(s), i, Asleep)
    case Woken => At(Locked(s, OfWorker(i)), i, TestEmpty)
    case GetLock => At(Locked(s, OfWorker(i)), i, Take)
    case Take =>
      if s.queue == [] then At(s, i, GetUnlock(None))
      else At(s.(queue := s.queue[1..], handed := s.handed + [s.queue[0]]), i, GetUnlock(Some(s.queue[0])))
    case GetUnlock(job) => At(Released(s), i, Unlock(job))
    case Unlock(job) => At(Released(s), i, Run(job))
    case Run(job) => At(if job.Some? then s.(ran := s.ran + [job.value]) else s, i, Check)
  }

  function NextProducer(s: Pool, p: nat, woken: Option<nat>): Pool
    requires Enabled(s, ProducerStep(p, woken))
  {
    match s.producers[p]
    case AddLock(j) => ProducerAt(Locked(s, OfProducer(p)), p, Append(j))
    case Append(j) => ProducerAt(s.(queue := s.queue + [j], added := s.added + [j]), p, AddUnlock)
    case AddUnlock => ProducerAt(Released(s), p, Signal)
    case Signal => ProducerAt(Signalled(s, woken), p, Idle)
  }

  function Next(s: Pool, a: Action): Pool
    requires Enabled(s, a)
  {
    match a
    case WorkerStep(i) => NextWorker(s, i)
    case Spurious(i) => At(s, i, Woken)
    case NewJob(p, f, x) => ProducerAt(s.(tickets := s.tickets + 1), p, AddLock(Job(s.tickets, f, x)))
    case ProducerStep(p, woken) => NextProducer(s, p, woken)
    case Deactivate => s.(active := false, stopper := Signalling(|s.workers|))
    case StopSignal(woken) => Signalled(s, woken).(stopper := Signalling(s.stopper.left - 1))
    case JoinAll => s.(stopper := Joining)
    case Peek => s.(stopper := Peeked(if s.queue == [] then None else Some(s.queue[0])))
    case Drain =>
      if s.stopper.first.None? then s.(stopper := Drained)
      else s.(stopper := Drained, dropped := s.queue, queue := [])
    case Free => s.(stopper := Destroyed)
  }

  /** threadpool_create with n threads, and m producers about to be. */
  function Initial(n: nat, m: nat): Pool {
    Pool(seq(n, _ => Check), seq(m, _ => Idle), Serving, true, [], Nobody, 0, 0, [], [], [], [])
  }

  ghost predicate Execution(s: Pool, actions: seq<Action>, t: Pool)
    decreases |actions|
  {
    if actions == [] then t == s
    else Enabled(s, actions[0]) && Execution(Next(s, actions[0]), actions[1..], t)
  }

  ghost predicate ReachableFrom(n: nat, m: nat, s: Pool) {
    exists actions :: Execution(Initial(n, m), actions, s)
  }

  ghost predicate ReachableState(s: Pool) {
    exists n: nat, m: nat :: ReachableFrom(n, m, s)
  }

  // ---- mutual exclusion -------------------------------------------------------------------

  /** How often a worker holds the mutex at each place. */
  function WorkerDepth(w: Worker): nat {
    match w
    case TestEmpty => 1
    case TestActive => 1
    case Wait => 1
    case GetLock => 1
    case Take => 2
    case GetUnlock(_) => 2
    case Unlock(_) => 1
    case _ => 0
  }

  function ProducerDepth(p: Producer): nat {
    match p
    case Append(_) => 1
    case AddUnlock => 1
    case _ => 0
  }

  /** The mutex belongs to exactly the thread that is inside, locked as often as its place says. */
  ghost predicate MutexInv(s: Pool) {
    && (match s.owner
        case Nobody => s.depth == 0
        case OfWorker(i) => i < |s.workers| && s.depth == WorkerDepth(s.workers[i]) > 0
        case OfProducer(p) => p < |s.producers| && s.depth == ProducerDepth(s.producers[p]) > 0)
    && (forall i :: 0 <= i < |s.workers| && WorkerDepth(s.workers[i]) > 0 ==> s.owner == OfWorker(i))
    && (forall p :: 0 <= p < |s.producers| && ProducerDepth(s.producers[p]) > 0 ==> s.owner == OfProducer(p))
  }

  /** What a worker has seen inside stays true while it is inside; only a deactivated pool hands out
      nothing. */
  ghost predicate SeenInv(s: Pool) {
    forall i :: 0 <= i < |s.workers| ==> SeenBy(s, s.workers[i])
  }

  /** Moving one worker keeps the mutex in order when lock and place change together. */
  lemma WorkerMoves(s: Pool, t: Pool, i: nat)
    requires MutexInv(s) && i < |s.workers| == |t.workers| && t.producers == s.producers
             && t.workers == s.workers[i := t.workers[i]]
    requires CanLock(s, OfWorker(i)) || WorkerDepth(t.workers[i]) == 0
    requires var d := WorkerDepth(t.workers[i]);
             if d > 0 then t.owner == OfWorker(i) && t.depth == d
             else if WorkerDepth(s.workers[i]) > 0 then t.owner == Nobody && t.depth == 0
             else t.owner == s.owner && t.depth == s.depth
    ensures MutexInv(t)
  {
  }

  lemma ProducerMoves(s: Pool, t: Pool, p: nat)
    requires MutexInv(s) && p < |s.producers| == |t.producers| && t.workers == s.workers
             && t.producers == s.producers[p := t.producers[p]]
    requires CanLock(s, OfProducer(p)) || ProducerDepth(t.producers[p]) == 0
    requires var d := ProducerDepth(t.producers[p]);
             if d > 0 then t.owner == OfProducer(p) && t.depth == d
             else if ProducerDepth(s.producers[p]) > 0 then t.owner == Nobody && t.depth == 0
             else t.owner == s.owner && t.depth == s.depth
    ensures MutexInv(t)
  {
  }

  lemma WorkerKeepsMutex(s: Pool, i: nat)
    requires MutexInv(s) && Enabled(s, WorkerStep(i))
    ensures MutexInv(NextWorker(s, i))
  {
    assert WorkerDepth(s.workers[i]) > 0 ==> s.owner == OfWorker(i);
    assert s.owner == OfWorker(i) ==> s.depth == WorkerDepth(s.workers[i]);
    assert s.owner == Nobody ==> s.depth == 0;
    LockMoves(s, i);
    hide NextWorker, Enabled;
    WorkerMoves(s, NextWorker(s, i), i);
  }

  /** How lock and place change together. */
  lemma LockMoves(s: Pool, i: nat)
    requires Enabled(s, WorkerStep(i)) && (s.owner == Nobody ==> s.depth == 0)
    requires WorkerDepth(s.workers[i]) > 0 ==> s.owner == OfWorker(i)
    requires s.owner == OfWorker(i) ==> s.depth == WorkerDepth(s.workers[i])
    ensures var t := NextWorker(s, i);
            && i < |s.workers| == |t.workers| && t.producers == s.producers && t.workers == s.workers[i := t.workers[i]]
            && (CanLock(s, OfWorker(i)) || WorkerDepth(t.workers[i]) == 0)
            && var d := WorkerDepth(t.workers[i]);
               if d > 0 then t.owner == OfWorker(i) && t.depth == d
               else if WorkerDepth(s.workers[i]) > 0 then t.owner == Nobody && t.depth == 0
               else t.owner == s.owner && t.depth == s.depth
  {
  }

  lemma ProducerKeepsMutex(s: Pool, p: nat, woken: Option<nat>)
    requires MutexInv(s) && Enabled(s, ProducerStep(p, woken))
    ensures MutexInv(NextProducer(s, p, woken))
  {
    assert ProducerDepth(s.producers[p]) > 0 ==> s.owner == OfProducer(p);
    if s.producers[p] == Signal {
      SignalKeepsMutex(s, woken);
      ProducerMoves(Signalled(s, woken), NextProducer(s, p, woken), p);
    } else {
      ProducerMoves(s, NextProducer(s, p, woken), p);
    }
  }

  lemma SignalKeepsMutex(s: Pool, woken: Option<nat>)
    requires MutexInv(s) && Wakes(s, woken)
    ensures MutexInv(Signalled(s, woken))
  {
    if woken.Some? {
      WorkerMoves(s, Signalled(s, woken), woken.value);
    }
  }

  lemma StepKeepsMutex(s: Pool, a: Action)
    requires MutexInv(s) && Enabled(s, a)
    ensures MutexInv(Next(s, a))
  {
    match a {
      case WorkerStep(i) => WorkerKeepsMutex(s, i);
      case ProducerStep(p, woken) => ProducerKeepsMutex(s, p, woken);
      case Spurious(i) => WorkerMoves(s, Next(s, a), i);
      case NewJob(p, _, _) => ProducerMoves(s, Next(s, a), p);
      case StopSignal(woken) => SignalKeepsMutex(s, woken);
      case _ =>
    }
  }

  ghost predicate SeenBy(s: Pool, w: Worker) {
    match w
    case TestActive => s.queue == []
    case Wait => s.queue == []
    case GetLock => s.queue != [] || !s.active
    case Take => s.queue != [] || !s.active
    case GetUnlock(job) => job.Some? || !s.active
    case Unlock(job) => job.Some? || !s.active
    case Run(job) => job.Some? || !s.active
    case Done => !s.active
    case _ => true
  }

  lemma WorkerKeepsSeen(s: Pool, i: nat)
    requires MutexInv(s) && SeenInv(s) && Enabled(s, WorkerStep(i))
    ensures SeenInv(NextWorker(s, i))
  {
    var t := NextWorker(s, i);
    assert SeenBy(s, s.workers[i]);
    forall j | 0 <= j < |t.workers| && j != i
      ensures SeenBy(t, t.workers[j])
    {
      assert SeenBy(s, s.workers[j]) && t.workers[j] == s.workers[j];
      assert WorkerDepth(s.workers[j]) > 0 ==> s.owner == OfWorker(j);
    }
  }

  /** With the queue as it is, or a producer inside, workers keep what they have seen. */
  lemma OthersKeepSeen(s: Pool, t: Pool)
    requires MutexInv(s) && SeenInv(s) && |t.workers| == |s.workers| && (t.active ==> s.active)
    requires t.queue == s.queue || s.owner.OfProducer?
    requires forall j :: 0 <= j < |s.workers| ==> t.workers[j] == s.workers[j] || t.workers[j] == Woken
    ensures SeenInv(t)
  {
    forall j | 0 <= j < |t.workers|
      ensures SeenBy(t, t.workers[j])
    {
      assert SeenBy(s, s.workers[j]);
      assert WorkerDepth(s.workers[j]) > 0 ==> s.owner == OfWorker(j);
    }
  }

  lemma StepKeepsSeen(s: Pool, a: Action)
    requires MutexInv(s) && SeenInv(s) && Enabled(s, a) && (a == Drain ==> AllDone(s))
    ensures SeenInv(Next(s, a))
  {
    match a {
      case WorkerStep(i) => WorkerKeepsSeen(s, i);
      case Drain =>
      case _ => OthersKeepSeen(s, Next(s, a));
    }
  }

  ghost predicate AllDone(s: Pool) {
    forall i :: 0 <= i < |s.workers| ==> s.workers[i] == Done
  }

  // ---- no lost wake-up --------------------------------------------------------------------

  function Count<T>(s: seq<T>, p: T -> bool): nat {
    if s == [] then 0 else Count(s[..|s| - 1], p) + if p(s[|s| - 1]) then 1 else 0
  }

  lemma {:induction false} CountUpdate<T>(s: seq<T>, i: nat, v: T, p: T -> bool)
    requires i < |s|
    ensures Count(s[i := v], p) == Count(s, p) - (if p(s[i]) then 1 else 0) + (if p(v) then 1 else 0)
  {
    var n := |s| - 1;
    if i == n {
      assert s[i := v][..n] == s[..n];
    } else {
      assert s[i := v][..n] == s[..n][i := v];
      CountUpdate(s[..n], i, v, p);
    }
  }

  lemma {:induction false} CountPositive<T>(s: seq<T>, p: T -> bool)
    ensures Count(s, p) > 0 <==> exists i :: 0 <= i < |s| && p(s[i])
  {
    if s != [] {
      var n := |s| - 1;
      CountPositive(s[..n], p);
      if Count(s[..n], p) > 0 {
        var i :| 0 <= i < n && p(s[..n][i]);
        assert p(s[i]);
      }
      if i :| 0 <= i < |s| && p(s[i]) {
        if i < n {
          assert p(s[..n][i]);
        }
      }
    }
  }

  predicate SignalDue(p: Producer) {
    p == AddUnlock || p == Signal
  }

  predicate IsWoken(w: Worker) {
    w == Woken
  }

  predicate BeforeTake(w: Worker) {
    w == TestEmpty || w == TestActive || w == Wait || w == GetLock || w == Take
  }

  /** Signals still to be sent. */
  function Pending(s: Pool): nat {
    Count(s.producers, SignalDue)
  }

  /** Woken, without the mutex yet. */
  function Rousing(s: Pool): nat {
    Count(s.workers, IsWoken)
  }

  /** Inside, before the take: at most one worker. */
  function Taking(s: Pool): nat {
    Count(s.workers, BeforeTake)
  }

  /** While anybody sleeps, every queued job has a signal, a woken worker or a worker inside on its way. */
  ghost predicate NoLostWakeup(s: Pool) {
    AnyAsleep(s) ==> |s.queue| <= Pending(s) + Rousing(s) + Taking(s)
  }

  lemma WorkerCounts(s: Pool, i: nat, pc: Worker)
    requires i < |s.workers|
    ensures var t := At(s, i, pc);
            && Rousing(t) == Rousing(s) - (if IsWoken(s.workers[i]) then 1 else 0) + (if IsWoken(pc) then 1 else 0)
            && Taking(t) == Taking(s) - (if BeforeTake(s.workers[i]) then 1 else 0) + (if BeforeTake(pc) then 1 else 0)
            && Pending(t) == Pending(s)
  {
    CountUpdate(s.workers, i, pc, IsWoken);
    CountUpdate(s.workers, i, pc, BeforeTake);
  }

  lemma ProducerCounts(s: Pool, p: nat, pc: Producer)
    requires p < |s.producers|
    ensures var t := ProducerAt(s, p, pc);
            && Pending(t) == Pending(s) - (if SignalDue(s.producers[p]) then 1 else 0)
                             + (if SignalDue(pc) then 1 else 0)
            && Rousing(t) == Rousing(s) && Taking(t) == Taking(s)
  {
    CountUpdate(s.producers, p, pc, SignalDue);
  }

  /** What a worker's step does to the queue and to its own place. */
  lemma WorkerStepShape(s: Pool, i: nat)
    requires Enabled(s, WorkerStep(i))
    ensures var t := NextWorker(s, i);
            && |t.workers| == |s.workers| && t.workers == s.workers[i := t.workers[i]] && t.producers == s.producers
            && |t.queue| == |s.queue| - (if s.workers[i] == Take && s.queue != [] then 1 else 0)
            && !IsWoken(t.workers[i])
            && (t.workers[i] == Asleep ==> s.workers[i] == Wait && t.queue == s.queue)
            && (s.workers[i] == Take ==>
                  BeforeTake(s.workers[i]) && !IsWoken(s.workers[i]) && !BeforeTake(t.workers[i]))
            && (s.workers[i] != Take && t.workers[i] != Asleep && (IsWoken(s.workers[i]) || BeforeTake(s.workers[i]))
                ==>
                  BeforeTake(t.workers[i]) && !(IsWoken(s.workers[i]) && BeforeTake(s.workers[i])))
  {
  }

  lemma SleepersStay(s: Pool, t: Pool, i: nat)
    requires i < |s.workers| == |t.workers| && t.workers == s.workers[i := t.workers[i]] && t.workers[i] != Asleep
    ensures AnyAsleep(t) ==> AnyAsleep(s)
  {
    if AnyAsleep(t) {
      var j :| 0 <= j < |t.workers| && t.workers[j] == Asleep;
      assert s.workers[j] == Asleep;
    }
  }

  lemma SameCounts(s: Pool, t: Pool)
    requires s.workers == t.workers && s.producers == t.producers
    ensures Pending(s) == Pending(t) && Rousing(s) == Rousing(t) && Taking(s) == Taking(t)
  {
  }

  lemma WorkerKeepsWakeups(s: Pool, i: nat)
    requires MutexInv(s) && SeenInv(s) && NoLostWakeup(s) && Enabled(s, WorkerStep(i))
    ensures NoLostWakeup(NextWorker(s, i))
  {
    assert SeenBy(s, s.workers[i]);
    hide NextWorker, Enabled, MutexInv, Count, AnyAsleep;
    var t := NextWorker(s, i);
    WorkerStepShape(s, i);
    WorkerCounts(s, i, t.workers[i]);
    SameCounts(At(s, i, t.workers[i]), t);
    if t.workers[i] != Asleep {
      SleepersStay(s, t, i);
    }
  }

  lemma SignalKeepsWakeups(s: Pool, woken: Option<nat>)
    requires Wakes(s, woken)
    ensures var t := Signalled(s, woken);
            && t.queue == s.queue && Pending(t) == Pending(s) && Taking(t) == Taking(s)
            && Rousing(t) == Rousing(s) + (if woken.Some? then 1 else 0)
            && (AnyAsleep(t) ==> AnyAsleep(s) && woken.Some?)
  {
    if woken.Some? {
      WorkerCounts(s, woken.value, Woken);
    }
  }

  lemma ProducerKeepsWakeups(s: Pool, p: nat, woken: Option<nat>)
    requires MutexInv(s) && NoLostWakeup(s) && Enabled(s, ProducerStep(p, woken))
    ensures NoLostWakeup(NextProducer(s, p, woken))
  {
    var t := NextProducer(s, p, woken);
    if s.producers[p] == Signal {
      SignalKeepsWakeups(s, woken);
      ProducerCounts(Signalled(s, woken), p, Idle);
    } else {
      ProducerCounts(s, p, t.producers[p]);
      assert ProducerAt(s, p, t.producers[p]).producers == t.producers && t.workers == s.workers;
    }
  }

  lemma StepKeepsWakeups(s: Pool, a: Action)
    requires MutexInv(s) && SeenInv(s) && NoLostWakeup(s) && Enabled(s, a)
    ensures NoLostWakeup(Next(s, a))
  {
    match a {
      case WorkerStep(i) => WorkerKeepsWakeups(s, i);
      case ProducerStep(p, woken) => ProducerKeepsWakeups(s, p, woken);
      case Spurious(i) => WorkerCounts(s, i, Woken);
      case NewJob(p, _, _) => ProducerCounts(s, p, Next(s, a).producers[p]);
      case StopSignal(woken) => SignalKeepsWakeups(s, woken);
      case _ =>
    }
  }

  // ---- jobs -------------------------------------------------------------------------------

  /** The job a worker has been handed and not finished. */
  function Held(w: Worker): Option<Job> {
    match w
    case GetUnlock(job) => job
    case Unlock(job) => job
    case Run(job) => job
    case _ => None
  }

  /** The job a producer has allocated and not appended. */
  function Carried(p: Producer): Option<Job> {
    match p
    case AddLock(j) => Some(j)
    case Append(j) => Some(j)
    case _ => None
  }

  /** No job is added twice: allocation gives each its own ticket. */
  ghost predicate FreshInv(s: Pool) {
    && (forall k :: 0 <= k < |s.added| ==> s.added[k].ticket < s.tickets)
    && (forall k, l :: 0 <= k < l < |s.added| ==> s.added[k].ticket != s.added[l].ticket)
    && (forall p :: 0 <= p < |s.producers| && Carried(s.producers[p]).Some? ==>
          && Carried(s.producers[p]).value.ticket < s.tickets
          && (forall k :: 0 <= k < |s.added| ==> s.added[k].ticket != Carried(s.producers[p]).value.ticket))
    && (forall p, q :: 0 <= p < |s.producers| && 0 <= q < |s.producers| && p != q &&
                       Carried(s.producers[p]).Some? && Carried(s.producers[q]).Some? ==>
          Carried(s.producers[p]).value.ticket != Carried(s.producers[q]).value.ticket)
  }

  /** Jobs come out in the order they were added, and none is lost. */
  ghost predicate OrderInv(s: Pool) {
    && s.added == s.handed + s.dropped + s.queue
    && (s.dropped != [] ==> s.stopper == Drained || s.stopper == Destroyed)
  }

  /** Each job handed out is with exactly one worker, or has been run exactly once. */
  ghost predicate OnceInv(s: Pool) {
    && (forall k, l :: 0 <= k < l < |s.ran| ==> s.ran[k] != s.ran[l])
    && (forall k :: 0 <= k < |s.ran| ==> s.ran[k] in s.handed)
    && (forall i :: 0 <= i < |s.workers| && Held(s.workers[i]).Some? ==>
          Held(s.workers[i]).value in s.handed && Held(s.workers[i]).value !in s.ran)
    && (forall i, j :: 0 <= i < |s.workers| && 0 <= j < |s.workers| && i != j &&
                       Held(s.workers[i]).Some? && Held(s.workers[j]).Some? ==>
          Held(s.workers[i]) != Held(s.workers[j]))
    && (forall k :: 0 <= k < |s.handed| ==> s.handed[k] in s.ran || InHand(s, s.handed[k]))
  }

  ghost predicate InHand(s: Pool, j: Job) {
    exists i :: 0 <= i < |s.workers| && Held(s.workers[i]) == Some(j)
  }

  lemma AllocationKeepsFresh(s: Pool, p: nat, routine: int, arg: int)
    requires FreshInv(s) && Enabled(s, NewJob(p, routine, arg))
    ensures FreshInv(Next(s, NewJob(p, routine, arg)))
  {
  }

  lemma AppendKeepsFresh(s: Pool, p: nat)
    requires FreshInv(s) && Enabled(s, ProducerStep(p, None)) && s.producers[p].Append?
    ensures FreshInv(NextProducer(s, p, None))
  {
  }

  /** Neither jobs nor what producers carry change. */
  lemma SameJobs(s: Pool, t: Pool)
    requires FreshInv(s) && t.added == s.added && t.tickets == s.tickets && |t.producers| == |s.producers|
    requires forall p :: 0 <= p < |s.producers| ==> Carried(t.producers[p]) == Carried(s.producers[p])
    ensures FreshInv(t)
  {
  }

  lemma StepKeepsFresh(s: Pool, a: Action)
    requires FreshInv(s) && Enabled(s, a)
    ensures FreshInv(Next(s, a))
  {
    match a {
      case NewJob(p, f, x) => AllocationKeepsFresh(s, p, f, x);
      case ProducerStep(p, woken) =>
        if s.producers[p].Append? {
          AppendKeepsFresh(s, p);
        } else {
          SameJobs(s, Next(s, a));
        }
      case _ => SameJobs(s, Next(s, a));
    }
  }

  lemma StepKeepsOrder(s: Pool, a: Action)
    requires StopInv(s) && OrderInv(s) && Enabled(s, a)
    ensures OrderInv(Next(s, a))
  {
  }

  /** A worker that neither takes nor finishes a job keeps holding what it held. */
  lemma MovedOn(s: Pool, t: Pool, i: nat)
    requires OnceInv(s) && i < |s.workers| && |t.workers| == |s.workers| && t.handed == s.handed && t.ran == s.ran
    requires forall j :: 0 <= j < |s.workers| && j != i ==> t.workers[j] == s.workers[j]
    requires Held(t.workers[i]) == Held(s.workers[i])
    ensures OnceInv(t)
  {
    forall k | 0 <= k < |t.handed|
      ensures t.handed[k] in t.ran || InHand(t, t.handed[k])
    {
      if s.handed[k] !in s.ran {
        var j :| 0 <= j < |s.workers| && Held(s.workers[j]) == Some(s.handed[k]);
        assert Held(t.workers[j]) == Some(t.handed[k]);
      }
    }
  }

  lemma TakeKeepsOnce(s: Pool, i: nat)
    requires FreshInv(s) && OrderInv(s) && OnceInv(s) && Enabled(s, WorkerStep(i)) && s.workers[i] == Take
             && s.queue != []
    ensures OnceInv(NextWorker(s, i))
  {
    var t, j := NextWorker(s, i), s.queue[0];
    assert j !in s.handed by {
      assert s.added[|s.handed| + |s.dropped|] == j;
      assert forall k :: 0 <= k < |s.handed| ==> s.added[k] == s.handed[k];
    }
    forall k | 0 <= k < |t.handed|
      ensures t.handed[k] in t.ran || InHand(t, t.handed[k])
    {
      if k == |s.handed| {
        assert Held(t.workers[i]) == Some(j);
      } else if s.handed[k] !in s.ran {
        var m :| 0 <= m < |s.workers| && Held(s.workers[m]) == Some(s.handed[k]);
        assert Held(t.workers[m]) == Some(t.handed[k]);
      }
    }
  }

  lemma RunKeepsOnce(s: Pool, i: nat)
    requires OnceInv(s) && Enabled(s, WorkerStep(i)) && s.workers[i].Run? && s.workers[i].job.Some?
    ensures OnceInv(NextWorker(s, i))
  {
    var t, j := NextWorker(s, i), s.workers[i].job.value;
    assert Held(s.workers[i]) == Some(j);
    forall k | 0 <= k < |t.handed|
      ensures t.handed[k] in t.ran || InHand(t, t.handed[k])
    {
      if s.handed[k] !in s.ran && s.handed[k] != j {
        var m :| 0 <= m < |s.workers| && Held(s.workers[m]) == Some(s.handed[k]);
        assert Held(t.workers[m]) == Some(t.handed[k]);
      }
    }
  }

  lemma SignalKeepsOnce(s: Pool, woken: Option<nat>)
    requires OnceInv(s) && Wakes(s, woken)
    ensures OnceInv(Signalled(s, woken))
  {
    if woken.Some? {
      MovedOn(s, Signalled(s, woken), woken.value);
    }
  }

  lemma WorkerKeepsOnce(s: Pool, i: nat)
    requires FreshInv(s) && OrderInv(s) && OnceInv(s) && Enabled(s, WorkerStep(i))
    ensures OnceInv(NextWorker(s, i))
  {
    if s.workers[i] == Take && s.queue != [] {
      TakeKeepsOnce(s, i);
    } else if s.workers[i].Run? && s.workers[i].job.Some? {
      RunKeepsOnce(s, i);
    } else {
      MovedOn(s, NextWorker(s, i), i);
    }
  }

  lemma ProducerKeepsOnce(s: Pool, p: nat, woken: Option<nat>)
    requires OnceInv(s) && Enabled(s, ProducerStep(p, woken))
    ensures OnceInv(NextProducer(s, p, woken))
  {
    if s.producers[p] == Signal {
      SignalKeepsOnce(s, woken);
      SameHands(Signalled(s, woken), NextProducer(s, p, woken));
    } else {
      SameHands(s, NextProducer(s, p, woken));
    }
  }

  lemma StepKeepsOnce(s: Pool, a: Action)
    requires FreshInv(s) && OrderInv(s) && OnceInv(s) && Enabled(s, a)
    ensures OnceInv(Next(s, a))
  {
    match a {
      case WorkerStep(i) => WorkerKeepsOnce(s, i);
      case ProducerStep(p, woken) => ProducerKeepsOnce(s, p, woken);
      case Spurious(i) => MovedOn(s, Next(s, a), i);
      case StopSignal(woken) =>
        SignalKeepsOnce(s, woken);
        SameHands(Signalled(s, woken), Next(s, a));
      case _ => SameHands(s, Next(s, a));
    }
  }

  lemma SameHands(s: Pool, t: Pool)
    requires OnceInv(s) && t.workers == s.workers && t.handed == s.handed && t.ran == s.ran
    ensures OnceInv(t)
  {
    forall j | InHand(s, j)
      ensures InHand(t, j)
    {
    }
  }

  // ---- every execution --------------------------------------------------------------------

  /** pthread_join has returned for every worker. */
  predicate Joined(s: Pool) {
    !s.stopper.Serving? && !s.stopper.Signalling?
  }

  /** After the joins all workers are gone, and the node jqueue_destroy saw stays the front. */
  ghost predicate StopInv(s: Pool) {
    && (s.active <==> s.stopper == Serving)
    && (Joined(s) ==> AllDone(s))
    && (s.stopper.Peeked? && s.stopper.first.Some? ==> s.queue != [] && s.queue[0] == s.stopper.first.value)
  }

  ghost predicate Inv(s: Pool) {
    MutexInv(s) && SeenInv(s) && StopInv(s) && NoLostWakeup(s) && FreshInv(s) && OrderInv(s) && OnceInv(s)
  }

  lemma StepKeepsStop(s: Pool, a: Action)
    requires StopInv(s) && Enabled(s, a)
    ensures StopInv(Next(s, a))
  {
  }

  lemma StepKeeps(s: Pool, a: Action)
    requires Inv(s) && Enabled(s, a)
    ensures Inv(Next(s, a))
  {
    StepKeepsMutex(s, a);
    StepKeepsSeen(s, a);
    StepKeepsStop(s, a);
    StepKeepsWakeups(s, a);
    StepKeepsFresh(s, a);
    StepKeepsOrder(s, a);
    StepKeepsOnce(s, a);
  }

  lemma InitialInv(n: nat, m: nat)
    ensures Inv(Initial(n, m))
  {
    var s := Initial(n, m);
    assert MutexInv(s) && SeenInv(s) && StopInv(s);
    assert NoLostWakeup(s);
    assert FreshInv(s) && OrderInv(s) && OnceInv(s) by {
      hide Count;
    }
  }

  lemma {:induction false} ExecutionKeeps(s: Pool, actions: seq<Action>, t: Pool)
    requires Inv(s) && Execution(s, actions, t)
    ensures Inv(t)
    decreases |actions|
  {
    if actions != [] {
      StepKeeps(s, actions[0]);
      ExecutionKeeps(Next(s, actions[0]), actions[1..], t);
    }
  }

  lemma ReachableInv(s: Pool)
    requires ReachableState(s)
    ensures Inv(s)
  {
    var n: nat, m: nat :| ReachableFrom(n, m, s);
    var actions :| Execution(Initial(n, m), actions, s);
    InitialInv(n, m);
    ExecutionKeeps(Initial(n, m), actions, s);
  }

  // ---- what every reachable state has -----------------------------------------------------

  /** No wake-up is lost, although signals are sent after unlocking: while any worker sleeps, each
      queued job is matched by a signal still to be sent, a woken worker on its way to the mutex, or the
      one worker inside before its take. */
  lemma WakeupBound(s: Pool)
    requires ReachableState(s) && AnyAsleep(s)
    ensures |s.queue| <= Pending(s) + Rousing(s) + Taking(s)
    ensures Taking(s) > 0 <==> s.owner.OfWorker? && s.owner.i < |s.workers| && BeforeTake(s.workers[s.owner.i])
    ensures Taking(s) <= 1
  {
    ReachableInv(s);
    CountPositive(s.workers, BeforeTake);
    if s.owner.OfWorker? && BeforeTake(s.workers[s.owner.i]) {
      OneAtMost(s.workers, BeforeTake, s.owner.i);
    }
    if i :| 0 <= i < |s.workers| && BeforeTake(s.workers[i]) {
      assert WorkerDepth(s.workers[i]) > 0;
    }
  }

  lemma {:induction false} OneAtMost<T>(s: seq<T>, p: T -> bool, i: nat)
    requires i < |s| && p(s[i]) && forall j :: 0 <= j < |s| && p(s[j]) ==> j == i
    ensures Count(s, p) == 1
  {
    var n := |s| - 1;
    if i < n {
      OneAtMost(s[..n], p, i);
    } else {
      CountPositive(s[..n], p);
    }
  }

  lemma {:induction false} ExecutionThen(s: Pool, actions: seq<Action>, t: Pool, a: Action)
    requires Execution(s, actions, t) && Enabled(t, a)
    ensures Execution(s, actions + [a], Next(t, a))
    decreases |actions|
  {
    if actions == [] {
      assert [a][1..] == [] && Execution(Next(t, a), [], Next(t, a));
    } else {
      assert (actions + [a])[1..] == actions[1..] + [a];
      ExecutionThen(Next(s, actions[0]), actions[1..], t, a);
    }
  }

  lemma {:induction false} ExecutionJoins(s: Pool, a: seq<Action>, t: Pool, b: seq<Action>, u: Pool)
    requires Execution(s, a, t) && Execution(t, b, u)
    ensures Execution(s, a + b, u)
    decreases |a|
  {
    if a == [] {
      assert a + b == b;
    } else {
      assert (a + b)[1..] == a[1..] + b;
      ExecutionJoins(Next(s, a[0]), a[1..], t, b, u);
    }
  }

  lemma Does(n: nat, m: nat, s: Pool, a: Action) returns (t: Pool)
    requires ReachableFrom(n, m, s) && Enabled(s, a)
    ensures t == Next(s, a) && ReachableFrom(n, m, t)
  {
    t := Next(s, a);
    var actions :| Execution(Initial(n, m), actions, s);
    ExecutionThen(Initial(n, m), actions, s, a);
  }

  lemma {:induction false} CrewStays(s: Pool, actions: seq<Action>, t: Pool)
    requires Execution(s, actions, t)
    ensures |t.workers| == |s.workers| && |t.producers| == |s.producers|
    ensures s.producers == [] ==> t.added == s.added
    decreases |actions|
  {
    if actions != [] {
      CrewStays(Next(s, actions[0]), actions[1..], t);
    }
  }

  /** Queued work is never stranded: until the workers are gone, some worker or some producer in the
      middle of its call can take a step without a spurious wake-up. */
  lemma NeverStranded(s: Pool) returns (a: Action)
    requires ReachableState(s) && s.queue != [] && !AllDone(s)
    ensures (a.WorkerStep? || a.ProducerStep?) && Enabled(s, a)
  {
    ReachableInv(s);
    match s.owner {
      case OfWorker(i) => a := WorkerStep(i);
      case OfProducer(p) => a := ProducerStep(p, None);
      case Nobody =>
        if j :| 0 <= j < |s.workers| && s.workers[j] == Asleep {
          a := HelpForSleeper(s, j);
        } else {
          var i :| 0 <= i < |s.workers| && s.workers[i] != Done;
          a := WorkerStep(i);
        }
    }
  }

  /** With the mutex free and a worker asleep, a queued job has a signal or a woken worker on its way. */
  lemma HelpForSleeper(s: Pool, j: nat) returns (a: Action)
    requires MutexInv(s) && NoLostWakeup(s) && s.owner == Nobody && s.stopper != Destroyed && s.queue != []
    requires j < |s.workers| && s.workers[j] == Asleep
    ensures (a.WorkerStep? || a.ProducerStep?) && Enabled(s, a)
    ensures a.WorkerStep? ==> s.workers[a.i] == Woken
    ensures a.ProducerStep? ==> s.producers[a.p] == Signal && a.woken == Some(j)
  {
    CountPositive(s.workers, BeforeTake);
    CountPositive(s.workers, IsWoken);
    CountPositive(s.producers, SignalDue);
    forall i | 0 <= i < |s.workers|
      ensures !BeforeTake(s.workers[i])
    {
      assert WorkerDepth(s.workers[i]) == 0;
    }
    if Rousing(s) > 0 {
      var i :| 0 <= i < |s.workers| && IsWoken(s.workers[i]);
      a := WorkerStep(i);
    } else {
      var p :| 0 <= p < |s.producers| && SignalDue(s.producers[p]);
      assert ProducerDepth(s.producers[p]) == 0;
      a := ProducerStep(p, Some(j));
    }
  }

  /** The lock is held exactly once by a worker that starts to wait, and not at all by one outside. */
  lemma LockDepth(s: Pool, i: nat)
    requires ReachableState(s) && i < |s.workers|
    ensures s.workers[i] == TestActive || s.workers[i] == Wait ==> s.owner == OfWorker(i) && s.depth == 1
    ensures s.workers[i] == Take ==> s.owner == OfWorker(i) && s.depth == 2
    ensures (s.workers[i].Run? || s.workers[i] == Asleep || s.workers[i] == Check || s.workers[i] == Done) ==>
            s.owner != OfWorker(i)
  {
    ReachableInv(s);
  }

  /** Jobs handed out, then those queued, then those dropped by jqueue_destroy, are the jobs added, in
      order; no job is added, run or in hand twice; a worker leaves the queue empty-handed only once the
      pool is being shut down. */
  lemma JobsConserved(s: Pool)
    requires ReachableState(s)
    ensures s.added == s.handed + s.dropped + s.queue
    ensures forall k, l :: 0 <= k < l < |s.added| ==> s.added[k] != s.added[l]
    ensures forall k, l :: 0 <= k < l < |s.ran| ==> s.ran[k] != s.ran[l]
    ensures forall j :: j in s.handed <==> j in s.ran || InHand(s, j)
    ensures forall j :: j in s.ran ==> !InHand(s, j)
    ensures forall i, j :: 0 <= i < |s.workers| && 0 <= j < |s.workers| && i != j && Held(s.workers[i]).Some? ==>
              Held(s.workers[i]) != Held(s.workers[j])
    ensures forall i :: 0 <= i < |s.workers| && s.workers[i] == Run(None) ==> !s.active
  {
    hide *;
    ReachableInv(s);
    InvParts(s);
    OrderMeans(s);
    OnceMeans(s);
    EmptyHanded(s);
  }

  lemma InvParts(s: Pool)
    requires Inv(s)
    ensures MutexInv(s) && SeenInv(s) && StopInv(s) && NoLostWakeup(s) && FreshInv(s) && OrderInv(s) && OnceInv(s)
  {
  }

  lemma OrderMeans(s: Pool)
    requires FreshInv(s) && OrderInv(s)
    ensures s.added == s.handed + s.dropped + s.queue
    ensures forall k, l :: 0 <= k < l < |s.added| ==> s.added[k] != s.added[l]
  {
  }

  lemma OnceMeans(s: Pool)
    requires OnceInv(s)
    ensures forall k, l :: 0 <= k < l < |s.ran| ==> s.ran[k] != s.ran[l]
    ensures forall j :: j in s.handed <==> j in s.ran || InHand(s, j)
    ensures forall j :: j in s.ran ==> !InHand(s, j)
    ensures forall i, j :: 0 <= i < |s.workers| && 0 <= j < |s.workers| && i != j && Held(s.workers[i]).Some? ==>
              Held(s.workers[i]) != Held(s.workers[j])
  {
  }

  lemma EmptyHanded(s: Pool)
    requires SeenInv(s)
    ensures forall i :: 0 <= i < |s.workers| && s.workers[i] == Run(None) ==> !s.active
  {
    forall i | 0 <= i < |s.workers| && s.workers[i] == Run(None)
      ensures !s.active
    {
      assert SeenBy(s, s.workers[i]);
    }
  }

  /** Once the joins have returned, every added job has been run exactly once, or was never handed out
      and is dropped or still queued; what jqueue_destroy drops came before what is left queued. */
  lemma AfterJoin(s: Pool)
    requires ReachableState(s) && Joined(s)
    ensures forall j :: j in s.added <==> j in s.ran || j in s.dropped || j in s.queue
    ensures forall j :: j in s.ran ==> j !in s.queue && j !in s.dropped
    ensures forall j :: j in s.dropped ==> j !in s.queue
    ensures multiset(s.ran) == multiset(s.handed)
  {
    ReachableInv(s);
    JobsConserved(s);
    forall j
      ensures !InHand(s, j)
    {
    }
    forall j
      ensures j in s.handed <==> j in s.ran
    {
      assert !InHand(s, j);
    }
    hide *;
    ThreeParts(s.added, s.handed, s.dropped, s.queue);
    assert forall k, l :: 0 <= k < l < |s.handed| ==> s.handed[k] != s.handed[l];
    DistinctSameSet(s.ran, s.handed);
  }

  /** A repetition-free list in three parts. */
  lemma ThreeParts<T>(whole: seq<T>, a: seq<T>, b: seq<T>, c: seq<T>)
    requires whole == a + b + c && forall k, l :: 0 <= k < l < |whole| ==> whole[k] != whole[l]
    ensures forall j :: j in whole <==> j in a || j in b || j in c
    ensures forall j :: j in a ==> j !in b && j !in c
    ensures forall j :: j in b ==> j !in c
    ensures forall k, l :: 0 <= k < l < |a| ==> a[k] != a[l]
  {
    forall k | 0 <= k < |a|
      ensures whole[k] == a[k]
    {
    }
    forall k | 0 <= k < |b|
      ensures whole[|a| + k] == b[k]
    {
    }
    forall k | 0 <= k < |c|
      ensures whole[|a| + |b| + k] == c[k]
    {
    }
  }

  /** Two repetition-free lists of the same elements are permutations of each other. */
  lemma DistinctSameSet<T>(a: seq<T>, b: seq<T>)
    requires forall k, l :: 0 <= k < l < |a| ==> a[k] != a[l]
    requires forall k, l :: 0 <= k < l < |b| ==> b[k] != b[l]
    requires forall j :: j in a <==> j in b
    ensures multiset(a) == multiset(b)
  {
    forall j
      ensures multiset(a)[j] == multiset(b)[j]
    {
      DistinctCount(a, j);
      DistinctCount(b, j);
    }
  }

  lemma {:induction false} DistinctCount<T>(a: seq<T>, j: T)
    requires forall k, l :: 0 <= k < l < |a| ==> a[k] != a[l]
    ensures multiset(a)[j] == if j in a then 1 else 0
  {
    if a != [] {
      var n := |a| - 1;
      DistinctCount(a[..n], j);
      assert a == a[..n] + [a[n]];
    }
  }
}
