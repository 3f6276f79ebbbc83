/** A bot's turns in the tick machine among any number of foes. */
module Roam {
  import opened Options
  import opened Grid
  import opened World
  import opened Movement
  import opened Ticks
  import opened TickChase

  ghost predicate ClosestFoe(s: World, i: nat, t: nat) {
    && i < |s.chars| && t < |s.chars| && Foe(s, i, t)
    && forall j :: 0 <= j < |s.chars| && Foe(s, i, j) ==> Dist(s.chars[i], s.chars[t]) <= Dist(s.chars[i], s.chars[j])
  }

  /** Character t is where it was, and one cell nearer to i than before. */
  ghost predicate Gained(s: World, n: World, i: nat, t: nat) {
    && i < |s.chars| == |n.chars| && t < |s.chars|
    && n.chars[t].x == s.chars[t].x && n.chars[t].y == s.chars[t].y && Gap(n, i, t) == Gap(s, i, t) - 1
    && Dist(n.chars[i], n.chars[t]) < Dist(s.chars[i], s.chars[t])
  }

  lemma RetargetFinds(l: World, i: nat)
    requires Sound(l) && i < |l.chars| && !l.chars[i].isPlayer
    ensures Retarget(l, i).target.Some? ==> ClosestFoe(l, i, Retarget(l, i).target.value)
  {
    NearestFoeMeaning(l, i, |l.chars|);
    assert SoundChar(l, l.chars[i]);
    if l.chars[i].target.Some? {
      assert Foe(l, i, l.chars[i].target.value);
    }
  }

  /** The target chosen, and the step towards it. */
  lemma AimedShape(s: World, i: nat, stepNow: int)
    requires Ready(s) && i < |s.chars| && !s.chars[i].isPlayer
    ensures var l, r, a := s.Put(s.chars[i].x, s.chars[i].y, Nothing), Retargeted(s, i), Aimed(s, i, stepNow);
            && l.chars == s.chars && |a.chars| == |s.chars|
            && a.chars[i].target == Retarget(l, i).target
            && (a.chars[i].target.None? ==> a.chars[i].nextStep == Nowhere)
            && (a.chars[i].target.Some? ==>
                  var t := a.chars[i].target.value;
                  t < |s.chars| && a.chars[i].nextStep ==
                    BotStep(r, s.chars[i].x, s.chars[i].y, s.chars[t].x, s.chars[t].y))
  {
    hide BotStep, SumSq;
    RetargetedKnows(s, i);
  }

  lemma StepGains(r: World, x: int, y: int, tx: int, ty: int)
    ensures var d := BotStep(r, x, y, tx, ty);
            d != Nowhere ==>
              && Manhattan(x + d.Dx(), y + d.Dy(), tx, ty) == Manhattan(x, y, tx, ty) - 1
              && SumSq(tx - (x + d.Dx()), ty - (y + d.Dy())) < SumSq(tx - x, ty - y)
  {
    BotIsGreedy(r, x, y, tx, ty);
    StepNearer(r, x, y, tx, ty);
  }

  /** A bot with a step to take has chosen a closest foe, and the step is nearer to it. */
  lemma AimedStep(s: World, i: nat, stepNow: int)
    requires Inv(s) && Ready(s) && i < |s.chars| && !s.chars[i].isPlayer
    ensures |Aimed(s, i, stepNow).chars| == |s.chars|
    ensures var d, t := Aimed(s, i, stepNow).chars[i].nextStep, Aimed(s, i, stepNow).chars[i].target;
            d != Nowhere ==>
              && t.Some? && ClosestFoe(s, i, t.value) && t.value < |s.chars|
              && var x, y, tx, ty := s.chars[i].x, s.chars[i].y, s.chars[t.value].x, s.chars[t.value].y;
                 && Manhattan(x + d.Dx(), y + d.Dy(), tx, ty) == Manhattan(x, y, tx, ty) - 1
                 && SumSq(tx - (x + d.Dx()), ty - (y + d.Dy())) < SumSq(tx - x, ty - y)
  {
    hide *;
    var l, a := s.Put(s.chars[i].x, s.chars[i].y, Nothing), Aimed(s, i, stepNow);
    AimedShape(s, i, stepNow);
    InvSound(s);
    PutSound(s, s.chars[i].x, s.chars[i].y, Nothing);
    RetargetFinds(l, i);
    var t := a.chars[i].target;
    if t.Some? {
      ClosestLifted(s, l, i, t.value);
      StepGains(Retargeted(s, i), s.chars[i].x, s.chars[i].y, s.chars[t.value].x, s.chars[t.value].y);
    }
  }

  lemma InvSound(s: World)
    requires Inv(s)
    ensures Sound(s)
  {
  }

  lemma ClosestLifted(s: World, lifted: World, i: nat, t: nat)
    requires lifted.chars == s.chars && ClosestFoe(lifted, i, t)
    ensures ClosestFoe(s, i, t)
  {
    assert Foe(s, i, t) == Foe(lifted, i, t);
    forall j | 0 <= j < |s.chars| && Foe(s, i, j)
      ensures Dist(s.chars[i], s.chars[t]) <= Dist(s.chars[i], s.chars[j])
    {
      assert Foe(lifted, i, j);
    }
  }

  /** Only the character whose turn it is moves, by the step it has chosen; if it moves, it keeps its
      target. */
  lemma TurnPlaces(s: World, i: nat, input: Inputs, j: nat)
    requires Inv(s) && Ready(s) && i < |s.chars| && j < |s.chars|
    ensures var n, a := Turn(s, i, input), Aimed(s, i, input.stepNow);
            && |n.chars| == |a.chars| == |s.chars|
            && n.chars[j].race == s.chars[j].race && n.chars[j].isPlayer == s.chars[j].isPlayer
            && (j != i || s.chars[i].Idle(input.now) ==> n.chars[j].x == s.chars[j].x && n.chars[j].y == s.chars[j].y)
            && (!s.chars[i].Idle(input.now) ==>
                  && n.chars[i].x == s.chars[i].x + a.chars[i].nextStep.Dx()
                  && n.chars[i].y == s.chars[i].y + a.chars[i].nextStep.Dy()
                  && (a.chars[i].nextStep != Nowhere ==> n.chars[i].target == a.chars[i].target))
  {
    hide *;
    TurnUnfolds(s, i, input);
    TurnApplies(s, i, input);
    AgedMeans(s, Turn(s, i, input), j);
    if !s.chars[i].Idle(input.now) {
      var a := Aimed(s, i, input.stepNow);
      AimedAt(s, i, input.stepNow, j);
      AimedAt(s, i, input.stepNow, i);
      ActPlaces(a, i, input.roll, j);
    }
  }

  lemma AgedMeans(s: World, n: World, j: nat)
    requires Aged(s, n) && j < |s.chars|
    ensures j < |n.chars| && n.chars[j].race == s.chars[j].race && n.chars[j].isPlayer == s.chars[j].isPlayer
  {
  }

  lemma AimedAt(s: World, i: nat, stepNow: int, j: nat)
    requires i < |s.chars| && j < |s.chars| && Ready(s)
    ensures |Aimed(s, i, stepNow).chars| == |s.chars|
    ensures Aimed(s, i, stepNow).chars[j].x == s.chars[j].x && Aimed(s, i, stepNow).chars[j].y == s.chars[j].y
  {
    RetargetedKnows(s, i);
  }

  lemma ActPlaces(a: World, i: nat, roll: nat, j: nat)
    requires i < |a.chars| && j < |a.chars| && TargetKnown(a, a.chars[i]) && Fightable(a)
    ensures var n, d := Landed(Acted(a, i, roll), i), a.chars[i].nextStep;
            && |n.chars| == |a.chars|
            && (j != i ==> n.chars[j].x == a.chars[j].x && n.chars[j].y == a.chars[j].y)
            && n.chars[i].x == a.chars[i].x + d.Dx() && n.chars[i].y == a.chars[i].y + d.Dy()
            && (d != Nowhere ==> n.chars[i].target == a.chars[i].target)
  {
  }

  /** With any number of foes, a turn that moves a bot brings it one cell nearer to a closest foe, which
      it ends the turn with as its target. */
  lemma BotMoveGains(s: World, i: nat, input: Inputs) returns (t: nat)
    requires Inv(s) && Ready(s) && i < |s.chars| && !s.chars[i].isPlayer
    requires |Turn(s, i, input).chars| == |s.chars| && Moved(s, Turn(s, i, input), i) == 1
    ensures ClosestFoe(s, i, t) && Turn(s, i, input).chars[i].target == Some(t) && Gained(s, Turn(s, i, input), i, t)
  {
    hide *;
    var a, n := Aimed(s, i, input.stepNow), Turn(s, i, input);
    TurnPlaces(s, i, input, i);
    AimedStep(s, i, input.stepNow);
    MovedMeans(s, n, i, a.chars[i].nextStep);
    t := a.chars[i].target.value;
    ClosestIsFoe(s, i, t);
    TurnPlaces(s, i, input, t);
    GainedIs(s, n, i, t, a.chars[i].nextStep);
  }

  lemma MovedMeans(s: World, n: World, i: nat, d: Direction)
    requires i < |s.chars| && i < |n.chars| && Moved(s, n, i) == 1
    ensures (n.chars[i].x, n.chars[i].y) != (s.chars[i].x, s.chars[i].y)
    ensures n.chars[i].x == s.chars[i].x + d.Dx() && n.chars[i].y == s.chars[i].y + d.Dy() ==> d != Nowhere
  {
  }

  lemma ClosestIsFoe(s: World, i: nat, t: nat)
    requires ClosestFoe(s, i, t)
    ensures i < |s.chars| && t < |s.chars| && t != i && Foe(s, i, t)
  {
  }

  lemma GainedIs(s: World, n: World, i: nat, t: nat, d: Direction)
    requires i < |s.chars| == |n.chars| && t < |s.chars|
    requires n.chars[i].x == s.chars[i].x + d.Dx() && n.chars[i].y == s.chars[i].y + d.Dy()
    requires n.chars[t].x == s.chars[t].x && n.chars[t].y == s.chars[t].y
    requires var x, y, tx, ty := s.chars[i].x, s.chars[i].y, s.chars[t].x, s.chars[t].y;
             && Manhattan(x + d.Dx(), y + d.Dy(), tx, ty) == Manhattan(x, y, tx, ty) - 1
             && SumSq(tx - (x + d.Dx()), ty - (y + d.Dy())) < SumSq(tx - x, ty - y)
    ensures Gained(s, n, i, t)
  {
  }

  /** Squared distance to the closest foe, 0 without foes. */
  function FoeDist(s: World, i: nat): nat
    requires i < |s.chars|
  {
    NearestFoeMeaning(s, i, |s.chars|);
    var foe := NearestFoe(s, i, |s.chars|);
    if foe.None? then 0 else Dist(s.chars[i], s.chars[foe.value])
  }

  lemma FoeDistMeaning(s: World, i: nat)
    requires i < |s.chars|
    ensures forall t: nat :: ClosestFoe(s, i, t) ==> FoeDist(s, i) == Dist(s.chars[i], s.chars[t])
    ensures (forall t :: 0 <= t < |s.chars| ==> !Foe(s, i, t)) ==> FoeDist(s, i) == 0
    ensures forall t :: 0 <= t < |s.chars| && Foe(s, i, t) ==> FoeDist(s, i) <= Dist(s.chars[i], s.chars[t])
    ensures (exists t: nat :: ClosestFoe(s, i, t)) || forall t :: 0 <= t < |s.chars| ==> !Foe(s, i, t)
  {
    NearestFoeMeaning(s, i, |s.chars|);
    var foe := NearestFoe(s, i, |s.chars|);
    if foe.Some? {
      assert ClosestFoe(s, i, foe.value);
    }
  }

  /** Nobody changes race, and a bot that stays keeps its distances. */
  lemma FoesStay(s: World, i: nat, input: Inputs)
    requires Inv(s) && Ready(s) && i < |s.chars|
    ensures |Turn(s, i, input).chars| == |s.chars|
    ensures forall j :: 0 <= j < |s.chars| ==> Foe(Turn(s, i, input), i, j) == Foe(s, i, j)
    ensures Moved(s, Turn(s, i, input), i) == 0 ==>
              forall j :: 0 <= j < |s.chars| && Foe(s, i, j) ==>
                Dist(Turn(s, i, input).chars[i], Turn(s, i, input).chars[j]) == Dist(s.chars[i], s.chars[j])
  {
    hide *;
    var n := Turn(s, i, input);
    TurnPlaces(s, i, input, i);
    forall j | 0 <= j < |s.chars|
      ensures Foe(n, i, j) == Foe(s, i, j)
      ensures Moved(s, n, i) == 0 && Foe(s, i, j) ==> Dist(n.chars[i], n.chars[j]) == Dist(s.chars[i], s.chars[j])
    {
      TurnPlaces(s, i, input, j);
      FoeStays(s, n, i, j);
    }
  }

  lemma FoeStays(s: World, n: World, i: nat, j: nat)
    requires i < |s.chars| == |n.chars| && j < |s.chars|
    requires n.chars[i].race == s.chars[i].race && n.chars[j].race == s.chars[j].race
    requires j != i ==> n.chars[j].x == s.chars[j].x && n.chars[j].y == s.chars[j].y
    ensures Foe(n, i, j) == Foe(s, i, j)
    ensures Moved(s, n, i) == 0 && Foe(s, i, j) ==> Dist(n.chars[i], n.chars[j]) == Dist(s.chars[i], s.chars[j])
  {
  }

  /** The closest foe gets strictly nearer, in squared distance, with each move. */
  lemma FoeDistFalls(s: World, i: nat, input: Inputs)
    requires Inv(s) && Ready(s) && i < |s.chars| && !s.chars[i].isPlayer
    ensures var n := Turn(s, i, input);
            && |n.chars| == |s.chars| && Inv(n) && Ready(n) && !n.chars[i].isPlayer
            && FoeDist(n, i) + Moved(s, n, i) <= FoeDist(s, i)
  {
    var n := Turn(s, i, input);
    hide Turn, Inv, Ready, FoeDist, Foe, Dist;
    TurnApplies(s, i, input);
    TurnPlaces(s, i, input, i);
    FoesStay(s, i, input);
    FoeDistMeaning(s, i);
    FoeDistMeaning(n, i);
    if Moved(s, n, i) == 1 {
      var t := BotMoveGains(s, i, input);
      assert Foe(n, i, t);
    } else if t: nat :| ClosestFoe(s, i, t) {
      assert Foe(n, i, t);
    }
  }

  /** Over any series of its turns among foes that do nothing, however many, a bot makes fewer moves than
      the squared distance to its closest foe, and none without foes. */
  lemma {:induction false} RoamBound(s: World, i: nat, inputs: seq<Inputs>)
    requires Inv(s) && Ready(s) && i < |s.chars| && !s.chars[i].isPlayer
    ensures FoeDist(s, i) == 0 ==> Moves(s, i, inputs) == 0
    ensures FoeDist(s, i) > 0 ==> Moves(s, i, inputs) < FoeDist(s, i)
    decreases |inputs|
  {
    hide Dist, FoeDist, Foe, Turn, Inv, Ready, Moved;
    if inputs != [] {
      var n := Turn(s, i, inputs[0]);
      FoeDistFalls(s, i, inputs[0]);
      FoesRemain(s, i, inputs[0]);
      RoamBound(n, i, inputs[1..]);
    }
  }

  /** Nobody stands on a foe, before or after the turn. */
  lemma FoesRemain(s: World, i: nat, input: Inputs)
    requires Inv(s) && Ready(s) && i < |s.chars|
    ensures |Turn(s, i, input).chars| == |s.chars|
    ensures FoeDist(s, i) == 0 <==> FoeDist(Turn(s, i, input), i) == 0
  {
    var n := Turn(s, i, input);
    hide Turn, Foe, FoeDist;
    TurnApplies(s, i, input);
    FoesStay(s, i, input);
    FoeDistZero(s, i);
    FoeDistZero(n, i);
  }

  lemma FoeDistZero(s: World, i: nat)
    requires Inv(s) && i < |s.chars|
    ensures FoeDist(s, i) == 0 <==> forall j :: 0 <= j < |s.chars| ==> !Foe(s, i, j)
  {
    hide *;
    FoeDistMeaning(s, i);
    if t: nat :| ClosestFoe(s, i, t) {
      ClosestIsFoe(s, i, t);
      OwnCells(s, i, t);
      DistZero(s.chars[i], s.chars[t]);
    }
  }

  lemma OwnCells(s: World, i: nat, t: nat)
    requires Inv(s) && i < |s.chars| && t < |s.chars| && i != t
    ensures (s.chars[i].x, s.chars[i].y) != (s.chars[t].x, s.chars[t].y)
  {
  }

  lemma DistZero(a: Char, b: Char)
    ensures Dist(a, b) == 0 <==> a.x == b.x && a.y == b.y
  {
    SquareSize(b.x - a.x);
    SquareSize(b.y - a.y);
  }
}
