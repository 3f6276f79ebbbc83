/** Every message of the outgoing queue can always be brought to msg_send. */
module SenderProgress {
  import opened SenderQueue

  /** The sender goes on, or a producer in the middle of its call does: no new call, no spurious wake-up. */
  predicate Helpful(a: Action) {
    a == SenderStep || a.ProducerStep?
  }

  ghost predicate Onward(s: State, actions: seq<Action>, t: State) {
    (forall k :: 0 <= k < |actions| ==> Helpful(actions[k])) && Execution(s, actions, t)
  }

  /** Steps of the sender up to its next msg_send. */
  function SenderRank(c: Sender): nat {
    match c
    case Asleep => 13
    case Enter => 12
    case Woken => 12
    case Look => 11
    case Exit => 10
    case ReadFirst => 9
    case ReadCount(_) => 8
    case PopLock(_) => 7
    case ReadData(_) => 6
    case Advance(_, _) => 5
    case Drop(_, _) => 4
    case Free(_, _) => 3
    case PopUnlock(_) => 2
    case Send(_) => 1
    case Null => 0
  }

  /** Steps of a producer up to its unlock. */
  function ProducerRank(p: Producer): nat {
    match p
    case Test(_) => 6
    case LinkNext(_) => 5
    case SetLast(_) => 4
    case SetOnly(_) => 5
    case SetFirst(_) => 4
    case Bump(_) => 3
    case _ => 2
  }

  function Rank(s: State): nat {
    SenderRank(s.sender) +
    if s.owner.OfProducer? && s.owner.p < |s.producers| then ProducerRank(s.producers[s.owner.p]) else 0
  }

  /** A step that sends, or brings the next msg_send nearer. */
  ghost predicate Helps(s: State, a: Action)
    requires Enabled(s, a)
  {
    var t := Next(s, a);
    && s.enqueued <= t.enqueued && |t.sent| >= |s.sent|
    && (|t.sent| == |s.sent| ==> Rank(t) < Rank(s))
  }

  lemma ProducerHelps(s: State, p: nat)
    requires Inv(s) && s.owner == OfProducer(p)
    ensures Enabled(s, ProducerStep(p)) && Helps(s, ProducerStep(p))
  {
    assert Inside(s.producers[p]);
  }

  lemma SignalHelps(s: State, p: nat)
    requires s.owner == Nobody && s.sender == Asleep && p < |s.producers| && s.producers[p] == Signal
    ensures Enabled(s, ProducerStep(p)) && Helps(s, ProducerStep(p))
  {
  }

  lemma SenderHelps(s: State)
    requires Inv(s) && !s.owner.OfProducer? && s.sender != Asleep && |s.sent| < |s.enqueued|
    ensures Enabled(s, SenderStep) && Helps(s, SenderStep)
  {
    assert s.sender == Look ==> s.chain != [];
  }

  lemma HelpfulStep(s: State) returns (a: Action)
    requires Inv(s) && |s.sent| < |s.enqueued|
    ensures Helpful(a) && Enabled(s, a) && Helps(s, a)
  {
    if s.owner.OfProducer? {
      a := ProducerStep(s.owner.p);
      ProducerHelps(s, s.owner.p);
    } else if s.sender == Asleep {
      assert s.chain != [] && !SenderInside(s.sender);
      var p :| 0 <= p < |s.producers| && (s.producers[p] == Leave || s.producers[p] == Signal);
      assert !Inside(s.producers[p]);
      a := ProducerStep(p);
      SignalHelps(s, p);
    } else {
      a := SenderStep;
      SenderHelps(s);
    }
  }

  lemma {:induction false} AllSent(s: State, msgs: seq<Msg>) returns (actions: seq<Action>, t: State)
    requires Inv(s) && msgs <= s.enqueued
    ensures Onward(s, actions, t) && msgs <= t.sent
    decreases |msgs| - |s.sent|, Rank(s)
  {
    assert s.sent <= s.enqueued;
    if |msgs| <= |s.sent| {
      actions, t := [], s;
    } else {
      var a := HelpfulStep(s);
      StepKeeps(s, a);
      hide Inv, Enabled, Next, Rank;
      var rest;
      rest, t := AllSent(Next(s, a), msgs);
      actions := [a] + rest;
      assert actions[1..] == rest;
    }
  }

  /** From every reachable state the sender and the producers in the middle of a call can go on so that
      every message enqueued so far is sent, in order, without a new call and without a spurious
      wake-up. */
  lemma MessagesGetThrough(s: State) returns (actions: seq<Action>, t: State)
    requires Reachable(s)
    ensures Onward(s, actions, t) && s.enqueued <= t.sent
  {
    ReachableInv(s);
    actions, t := AllSent(s, s.enqueued);
  }
}
