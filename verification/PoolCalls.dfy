/** The jobs of the pool are the calls of jqueue_add_job: each with the routine and the argument it was
    called with, none missing, and each producer's in the order of its calls. */
module PoolCalls {
  import opened Options
  import opened ThreadPool

  /** The calls of a run, in the order in which they allocate their jobs. */
  function Calls(actions: seq<Action>): (calls: seq<Action>)
    ensures forall k :: 0 <= k < |calls| ==> calls[k].NewJob?
  {
    if actions == [] then [] else (if actions[0].NewJob? then [actions[0]] else []) + Calls(actions[1..])
  }

  /** Job j is what call number j.ticket asked for. */
  predicate MadeBy(j: Job, calls: seq<Action>) {
    && j.ticket < |calls| && calls[j.ticket].NewJob?
    && j.routine == calls[j.ticket].routine && j.arg == calls[j.ticket].arg
  }

  /** Jobs match their calls; those of one producer come in call order. */
  ghost predicate CallsInv(s: Pool, calls: seq<Action>) {
    && s.tickets == |calls|
    && (forall k :: 0 <= k < |s.added| ==> MadeBy(s.added[k], calls))
    && (forall k, l :: 0 <= k < l < |s.added| && calls[s.added[k].ticket].p == calls[s.added[l].ticket].p ==>
          s.added[k].ticket < s.added[l].ticket)
    && (forall p :: 0 <= p < |s.producers| && Carried(s.producers[p]).Some? ==>
          var j := Carried(s.producers[p]).value;
          && MadeBy(j, calls) && calls[j.ticket].p == p
          && forall k :: 0 <= k < |s.added| && calls[s.added[k].ticket].p == p ==> s.added[k].ticket < j.ticket)
  }

  ghost predicate CarriedBy(s: Pool, k: nat) {
    exists p :: 0 <= p < |s.producers| && Carries(s.producers[p], k)
  }

  predicate Carries(p: Producer, k: nat) {
    Carried(p).Some? && Carried(p).value.ticket == k
  }

  /** Call number k has its job in the list's history, or still with the producer that makes the call. */
  ghost predicate Placed(s: Pool, k: nat) {
    || (exists i :: 0 <= i < |s.added| && s.added[i].ticket == k)
    || CarriedBy(s, k)
  }

  ghost predicate AllPlaced(s: Pool) {
    forall k: nat :: k < s.tickets ==> Placed(s, k)
  }

  lemma CallMatches(s: Pool, calls: seq<Action>, a: Action)
    requires CallsInv(s, calls) && AllPlaced(s) && a.NewJob? && Enabled(s, a)
    ensures CallsInv(Next(s, a), calls + [a]) && AllPlaced(Next(s, a))
  {
    var t := Next(s, a);
    assert Carried(t.producers[a.p]) == Some(Job(|calls|, a.routine, a.arg));
    forall k: nat | k < t.tickets
      ensures Placed(t, k)
    {
      if k < s.tickets {
        assert Placed(s, k);
        if p :| 0 <= p < |s.producers| && Carries(s.producers[p], k) {
          assert t.producers[p] == s.producers[p];
        }
      }
    }
  }

  lemma AppendMatches(s: Pool, calls: seq<Action>, p: nat)
    requires CallsInv(s, calls) && AllPlaced(s) && Enabled(s, ProducerStep(p, None)) && s.producers[p].Append?
    ensures CallsInv(NextProducer(s, p, None), calls) && AllPlaced(NextProducer(s, p, None))
  {
    var t, j := NextProducer(s, p, None), s.producers[p].job;
    assert Carried(s.producers[p]) == Some(j) && t.added == s.added + [j] && t.added[|s.added|] == j;
    forall q | 0 <= q < |t.producers| && Carried(t.producers[q]).Some?
      ensures q != p && t.producers[q] == s.producers[q]
    {
    }
    forall k: nat | k < t.tickets
      ensures Placed(t, k)
    {
      assert Placed(s, k);
      if i :| 0 <= i < |s.added| && s.added[i].ticket == k {
        assert t.added[i].ticket == k;
      } else {
        var q :| 0 <= q < |s.producers| && Carries(s.producers[q], k);
        if q != p {
          assert t.producers[q] == s.producers[q];
        }
      }
    }
  }

  /** Neither jobs nor what producers carry change. */
  lemma SameCalls(s: Pool, t: Pool, calls: seq<Action>)
    requires CallsInv(s, calls) && AllPlaced(s) && t.added == s.added && t.tickets == s.tickets
    requires |t.producers| == |s.producers|
    requires forall p :: 0 <= p < |s.producers| ==> Carried(t.producers[p]) == Carried(s.producers[p])
    ensures CallsInv(t, calls) && AllPlaced(t)
  {
    forall k: nat | k < t.tickets
      ensures Placed(t, k)
    {
      assert Placed(s, k);
    }
  }

  lemma StepMatches(s: Pool, calls: seq<Action>, a: Action)
    requires CallsInv(s, calls) && AllPlaced(s) && Enabled(s, a)
    ensures CallsInv(Next(s, a), calls + Calls([a])) && AllPlaced(Next(s, a))
  {
    hide CallsInv, AllPlaced;
    if a.NewJob? {
      assert Calls([a]) == [a];
      CallMatches(s, calls, a);
    } else {
      assert calls + Calls([a]) == calls;
      if a.ProducerStep? && s.producers[a.p].Append? {
        AppendMatches(s, calls, a.p);
      } else {
        SameCalls(s, Next(s, a), calls);
      }
    }
  }

  lemma {:induction false} RunMatches(s: Pool, before: seq<Action>, actions: seq<Action>, t: Pool)
    requires CallsInv(s, before) && AllPlaced(s) && Execution(s, actions, t)
    ensures CallsInv(t, before + Calls(actions)) && AllPlaced(t)
    decreases |actions|
  {
    hide CallsInv, AllPlaced;
    if actions == [] {
      assert before + Calls(actions) == before;
    } else {
      StepMatches(s, before, actions[0]);
      RunMatches(Next(s, actions[0]), before + Calls([actions[0]]), actions[1..], t);
      assert before + Calls([actions[0]]) + Calls(actions[1..]) == before + Calls(actions);
    }
  }

  lemma StartMatches(n: nat, m: nat)
    ensures CallsInv(Initial(n, m), []) && AllPlaced(Initial(n, m))
  {
  }

  /** Over every run, each job added, and so each job queued, handed out, run or dropped, has the routine
      and the argument of the call with its number. */
  lemma JobsAreCalls(n: nat, m: nat, actions: seq<Action>, t: Pool)
    requires Execution(Initial(n, m), actions, t)
    ensures t.tickets == |Calls(actions)|
    ensures forall j :: j in t.added || j in t.handed || j in t.ran || j in t.dropped || j in t.queue ==>
              && j.ticket < |Calls(actions)|
              && j.routine == Calls(actions)[j.ticket].routine && j.arg == Calls(actions)[j.ticket].arg
  {
    assert ReachableFrom(n, m, t);
    hide Initial, Calls, Execution;
    StartMatches(n, m);
    RunMatches(Initial(n, m), [], actions, t);
    assert [] + Calls(actions) == Calls(actions);
    AllAdded(t);
    forall j | j in t.added
      ensures MadeBy(j, Calls(actions))
    {
    }
  }

  lemma AllAdded(t: Pool)
    requires ReachableState(t)
    ensures forall j :: j in t.handed || j in t.ran || j in t.dropped || j in t.queue ==> j in t.added
  {
    hide *;
    JobsConserved(t);
    forall j | j in t.handed || j in t.ran || j in t.dropped || j in t.queue
      ensures j in t.handed + t.dropped + t.queue
    {
      assert j in t.handed || j in t.dropped || j in t.queue;
    }
  }

  /** Every call is accounted for: its job was added, or its producer is still on the way to add it. */
  lemma NoCallForgotten(n: nat, m: nat, actions: seq<Action>, t: Pool, k: nat)
    requires Execution(Initial(n, m), actions, t) && k < |Calls(actions)|
    ensures var c := Calls(actions)[k];
            || Job(k, c.routine, c.arg) in t.added
            || (c.p < |t.producers| && Carried(t.producers[c.p]) == Some(Job(k, c.routine, c.arg)))
  {
    var calls := Calls(actions);
    RunMatches(Initial(n, m), [], actions, t);
    assert [] + calls == calls;
    assert Placed(t, k);
    if i :| 0 <= i < |t.added| && t.added[i].ticket == k {
      assert MadeBy(t.added[i], calls);
      assert t.added[i] == Job(k, calls[k].routine, calls[k].arg);
    } else {
      var p :| 0 <= p < |t.producers| && Carries(t.producers[p], k);
      assert MadeBy(Carried(t.producers[p]).value, calls);
    }
  }

  /** The jobs of one producer are added, and so handed out, in the order of its calls. */
  lemma CallOrderKept(n: nat, m: nat, actions: seq<Action>, t: Pool, k: nat, l: nat)
    requires Execution(Initial(n, m), actions, t) && k < l < |t.added|
    ensures t.added[k].ticket < |Calls(actions)| && t.added[l].ticket < |Calls(actions)|
    ensures Calls(actions)[t.added[k].ticket].p == Calls(actions)[t.added[l].ticket].p ==>
              t.added[k].ticket < t.added[l].ticket
  {
    RunMatches(Initial(n, m), [], actions, t);
    assert [] + Calls(actions) == Calls(actions);
    assert MadeBy(t.added[k], Calls(actions)) && MadeBy(t.added[l], Calls(actions));
  }
}
