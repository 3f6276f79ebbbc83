/** A bot's turns in the tick machine against its one foe, which stays where it is. */
module TickChase {
  import opened Options
  import opened Grid
  import opened World
  import opened Movement
  import opened Ticks

  /** The map with character i lifted off it: all that the bot's next step depends on. */
  function Stage(s: World, i: nat): World
    requires i < |s.chars|
  {
    s.Put(s.chars[i].x, s.chars[i].y, Nothing).(chars := [])
  }

  /** Character i is a bot and t is the only character of the other race. */
  ghost predicate Hunts(s: World, i: nat, t: nat) {
    && i < |s.chars| && t < |s.chars| && !s.chars[i].isPlayer
    && forall j :: 0 <= j < |s.chars| ==> (Foe(s, i, j) <==> j == t)
  }

  function Gap(s: World, i: nat, t: nat): nat
    requires i < |s.chars| && t < |s.chars|
  {
    Manhattan(s.chars[i].x, s.chars[i].y, s.chars[t].x, s.chars[t].y)
  }

  function Heading(s: World, i: nat, t: nat): Direction
    requires i < |s.chars| && t < |s.chars|
  {
    BotStep(Stage(s, i), s.chars[i].x, s.chars[i].y, s.chars[t].x, s.chars[t].y)
  }

  lemma FreeOnMap(s: World, t: World, x: int, y: int)
    requires s.w == t.w && s.h == t.h && s.cells == t.cells
    ensures s.Free(x, y) == t.Free(x, y)
  {
  }

  lemma {:induction false} LookOnSameMap(s: World, t: World, x: int, y: int, d: Direction, steps: nat, tx: int, ty: int)
    requires s.w == t.w && s.h == t.h && s.cells == t.cells
    ensures Look(s, x, y, d, steps, tx, ty) == Look(t, x, y, d, steps, tx, ty)
    decreases steps
  {
    hide *;
    LookUnfolds(s, x, y, d, steps, tx, ty);
    LookUnfolds(t, x, y, d, steps, tx, ty);
    var nx, ny := x + d.Dx(), y + d.Dy();
    FreeOnMap(s, t, nx, ny);
    if steps > 0 {
      LookOnSameMap(s, t, nx, ny, d, steps - 1, tx, ty);
    }
  }

  lemma BotStepOnSameMap(s: World, t: World, x: int, y: int, tx: int, ty: int)
    requires s.w == t.w && s.h == t.h && s.cells == t.cells
    ensures BotStep(s, x, y, tx, ty) == BotStep(t, x, y, tx, ty)
  {
    LookOnSameMap(s, t, x, y, West, VISIBILITY_RANGE, tx, ty);
    LookOnSameMap(s, t, x, y, East, VISIBILITY_RANGE, tx, ty);
    LookOnSameMap(s, t, x, y, North, VISIBILITY_RANGE, tx, ty);
    LookOnSameMap(s, t, x, y, South, VISIBILITY_RANGE, tx, ty);
  }

  /** A hunting bot aims at its foe and heads for it. */
  lemma AimsAtFoe(s: World, i: nat, t: nat, stepNow: int)
    requires Inv(s) && Ready(s) && Hunts(s, i, t)
    ensures |Aimed(s, i, stepNow).chars| == |s.chars|
    ensures Aimed(s, i, stepNow).chars[i] ==
            s.chars[i].(target := Some(t), nextStep := Heading(s, i, t), stepStartTime := stepNow)
    ensures forall j :: 0 <= j < |s.chars| && j != i ==> Aimed(s, i, stepNow).chars[j] == s.chars[j]
    ensures Aimed(s, i, stepNow).(chars := []) == Stage(s, i)
  {
    var lifted := s.Put(s.chars[i].x, s.chars[i].y, Nothing);
    NearestFoeMeaning(lifted, i, |s.chars|);
    assert Foe(lifted, i, t) == Foe(s, i, t);
    forall j | 0 <= j < |s.chars|
      ensures Foe(lifted, i, j) <==> j == t
    {
      assert Foe(lifted, i, j) == Foe(s, i, j);
    }
    RetargetedKnows(s, i);
    var r := Retargeted(s, i);
    assert r.chars[i].target == Some(t) && r.chars[t] == s.chars[t];
    BotStepOnSameMap(r, Stage(s, i), s.chars[i].x, s.chars[i].y, s.chars[t].x, s.chars[t].y);
  }

  /** One turn of the bot: idle, it changes nothing; otherwise it takes one step in its heading, and
      the map without it, its foe and everybody's race stay the same. */
  lemma HuntTurn(s: World, i: nat, t: nat, input: Inputs)
    requires Inv(s) && Ready(s) && Hunts(s, i, t)
    ensures var n := Turn(s, i, input);
            && Inv(n) && Ready(n) && Hunts(n, i, t)
            && (s.chars[i].Idle(input.now) ==> n == s)
            && (!s.chars[i].Idle(input.now) ==>
                  && n.chars[i].x == s.chars[i].x + Heading(s, i, t).Dx()
                  && n.chars[i].y == s.chars[i].y + Heading(s, i, t).Dy()
                  && n.chars[t].x == s.chars[t].x && n.chars[t].y == s.chars[t].y
                  && Stage(n, i) == Stage(s, i))
  {
    hide *;
    HuntsInRange(s, i, t);
    TurnApplies(s, i, input);
    HuntsStay(s, Turn(s, i, input), i, t);
    TurnUnfolds(s, i, input);
    if !s.chars[i].Idle(input.now) {
      AimsAtFoe(s, i, t, input.stepNow);
      var a := Aimed(s, i, input.stepNow);
      HuntAct(s, a, i, t, input.roll);
      HeadingFree(s, i, t);
      StageStays(s, a, i, t, input.roll);
    }
  }

  lemma TurnApplies(s: World, i: nat, input: Inputs)
    requires Inv(s) && Ready(s) && i < |s.chars|
    ensures var n := Turn(s, i, input); Inv(n) && Ready(n) && Aged(s, n) && |n.chars| == |s.chars|
  {
    ApplyKeeps(s, Tick(i, input));
    TurnKeepsPlaces(s, i, input);
  }

  lemma HuntsInRange(s: World, i: nat, t: nat)
    requires Hunts(s, i, t)
    ensures i < |s.chars| && t < |s.chars| && i != t
  {
    assert Foe(s, i, t);
  }

  lemma HuntsStay(s: World, n: World, i: nat, t: nat)
    requires Hunts(s, i, t) && Aged(s, n) && |n.chars| == |s.chars|
    ensures Hunts(n, i, t)
  {
    forall j | 0 <= j < |n.chars|
      ensures Foe(n, i, j) <==> Foe(s, i, j)
    {
    }
  }

  lemma HeadingFree(s: World, i: nat, t: nat)
    requires i < |s.chars| && t < |s.chars|
    ensures var d := Heading(s, i, t);
            d != Nowhere ==> Stage(s, i).Free(s.chars[i].x + d.Dx(), s.chars[i].y + d.Dy())
  {
    BotIsGreedy(Stage(s, i), s.chars[i].x, s.chars[i].y, s.chars[t].x, s.chars[t].y);
  }

  /** Where the act and the landing leave the bot and its foe. */
  lemma HuntAct(s: World, a: World, i: nat, t: nat, roll: nat)
    requires i < |s.chars| && t < |s.chars| && i != t && |a.chars| == |s.chars| && TargetKnown(a, a.chars[i])
             && Fightable(a)
    requires a.chars[i].x == s.chars[i].x && a.chars[i].y == s.chars[i].y && a.chars[t] == s.chars[t]
    ensures var d, n := a.chars[i].nextStep, Landed(Acted(a, i, roll), i);
            && n.chars[i].x == s.chars[i].x + d.Dx() && n.chars[i].y == s.chars[i].y + d.Dy()
            && n.chars[t].x == s.chars[t].x && n.chars[t].y == s.chars[t].y
  {
  }

  lemma ActedKeepsMap(a: World, i: nat, roll: nat)
    requires i < |a.chars| && TargetKnown(a, a.chars[i]) && Fightable(a)
    ensures var b := Acted(a, i, roll);
            && b.w == a.w && b.h == a.h && b.cells == a.cells && |b.chars| == |a.chars|
            && b.chars[i].x == a.chars[i].x + a.chars[i].nextStep.Dx()
            && b.chars[i].y == a.chars[i].y + a.chars[i].nextStep.Dy()
  {
  }

  /** Lifting a character that has just landed on an unmarked cell gives back the map it landed on. */
  lemma LiftLanded(b: World, i: nat, g: World)
    requires i < |b.chars| && b.w == g.w && b.h == g.h && b.cells == g.cells && g.chars == []
    requires var k := Index(b.w, b.chars[i].x, b.chars[i].y);
             0 <= k < |b.cells| && b.cells[k].childObjectType == Nothing
    ensures |Landed(b, i).chars| == |b.chars| && Stage(Landed(b, i), i) == g
  {
    var k := Index(b.w, b.chars[i].x, b.chars[i].y);
    assert g.cells[k := g.cells[k].(childObjectType := b.chars[i].Kind())][k := g.cells[k]] == g.cells;
  }

  /** The cell the bot ends on is unmarked on the map without it. */
  lemma StepLands(s: World, i: nat, d: Direction)
    requires Inv(s) && i < |s.chars|
    requires d != Nowhere ==> Stage(s, i).Free(s.chars[i].x + d.Dx(), s.chars[i].y + d.Dy())
    ensures var g := Stage(s, i);
            var k := Index(g.w, s.chars[i].x + d.Dx(), s.chars[i].y + d.Dy());
            0 <= k < |g.cells| && g.cells[k].childObjectType == Nothing && g.chars == []
  {
    assert Walkable(s, s.chars[i].x, s.chars[i].y);
  }

  lemma StageStays(s: World, a: World, i: nat, t: nat, roll: nat)
    requires Inv(s) && i < |s.chars| && |a.chars| == |s.chars| && TargetKnown(a, a.chars[i]) && Fightable(a)
    requires a.(chars := []) == Stage(s, i) && a.chars[i].x == s.chars[i].x && a.chars[i].y == s.chars[i].y
    requires var d := a.chars[i].nextStep;
             d != Nowhere ==> Stage(s, i).Free(s.chars[i].x + d.Dx(), s.chars[i].y + d.Dy())
    ensures |Landed(Acted(a, i, roll), i).chars| == |s.chars| && Stage(Landed(Acted(a, i, roll), i), i) == Stage(s, i)
  {
    hide *;
    ActedKeepsMap(a, i, roll);
    StepLands(s, i, a.chars[i].nextStep);
    LiftLanded(Acted(a, i, roll), i, Stage(s, i));
  }

  // ---- runs of the bot's turns ------------------------------------------------------------

  /** 1 if character i changed its place, else 0. */
  function Moved(s: World, n: World, i: nat): nat
    requires i < |s.chars| && i < |n.chars|
  {
    if (n.chars[i].x, n.chars[i].y) != (s.chars[i].x, s.chars[i].y) then 1 else 0
  }

  /** How many of a series of turns of character i move it. */
  ghost function Moves(s: World, i: nat, inputs: seq<Inputs>): nat
    requires Inv(s) && Ready(s) && i < |s.chars|
    decreases |inputs|
  {
    if inputs == [] then 0
    else
      ApplyKeeps(s, Tick(i, inputs[0]));
      var n := Turn(s, i, inputs[0]);
      Moved(s, n, i) + Moves(n, i, inputs[1..])
  }

  /** The steps the bot has in it before it stops for good. */
  function Budget(s: World, i: nat, t: nat): nat
    requires i < |s.chars| && t < |s.chars|
  {
    Chase(Stage(s, i), s.chars[i].x, s.chars[i].y, s.chars[t].x, s.chars[t].y)
  }

  lemma FoeBlocks(s: World, i: nat, t: nat)
    requires Inv(s) && Hunts(s, i, t)
    ensures !Stage(s, i).Free(s.chars[t].x, s.chars[t].y)
    ensures (s.chars[i].x, s.chars[i].y) != (s.chars[t].x, s.chars[t].y)
  {
    assert Foe(s, i, t);
    PutEffect(s, s.chars[i].x, s.chars[i].y, Nothing);
    var lifted := s.Put(s.chars[i].x, s.chars[i].y, Nothing);
    assert Occ(s, s.chars[t].x, s.chars[t].y) == s.chars[t].Kind();
    FreeMeaning(lifted, s.chars[t].x, s.chars[t].y);
    assert lifted.Free(s.chars[t].x, s.chars[t].y) == Stage(s, i).Free(s.chars[t].x, s.chars[t].y);
  }

  lemma MovedBy(s: World, n: World, i: nat, d: Direction)
    requires i < |s.chars| && i < |n.chars|
    ensures n == s ==> Moved(s, n, i) == 0
    ensures n.chars[i].x == s.chars[i].x + d.Dx() && n.chars[i].y == s.chars[i].y + d.Dy() ==>
              Moved(s, n, i) == if d == Nowhere then 0 else 1
  {
  }

  /** One turn spends one step of the budget exactly when it moves the bot. */
  lemma HuntSpends(s: World, i: nat, t: nat, input: Inputs)
    requires Inv(s) && Ready(s) && Hunts(s, i, t)
    ensures var n := Turn(s, i, input);
            && Inv(n) && Ready(n) && Hunts(n, i, t)
            && Budget(s, i, t) == Budget(n, i, t) + Moved(s, n, i)
            && (!s.chars[i].Idle(input.now) && Budget(s, i, t) > 0 ==> Moved(s, n, i) == 1)
  {
    hide *;
    HuntTurn(s, i, t, input);
    HuntsInRange(s, i, t);
    HuntsInRange(Turn(s, i, input), i, t);
    BudgetUnfolds(s, i, t);
    MovedBy(s, Turn(s, i, input), i, Heading(s, i, t));
    if !s.chars[i].Idle(input.now) {
      BudgetAt(Turn(s, i, input), i, t);
    }
  }

  lemma BudgetUnfolds(s: World, i: nat, t: nat)
    requires i < |s.chars| && t < |s.chars|
    ensures var d := Heading(s, i, t);
            && (d == Nowhere ==> Budget(s, i, t) == 0 && d.Dx() == 0 && d.Dy() == 0)
            && (d != Nowhere ==>
                  Budget(s, i, t) == 1 + Chase(Stage(s, i), s.chars[i].x + d.Dx(), s.chars[i].y + d.Dy(), s.chars[t].x,
                                               s.chars[t].y))
            && Budget(s, i, t) == Chase(Stage(s, i), s.chars[i].x, s.chars[i].y, s.chars[t].x, s.chars[t].y)
  {
    hide *;
    HeadingIs(s, i, t);
    BudgetAt(s, i, t);
    ChaseUnfolds(Stage(s, i), s.chars[i].x, s.chars[i].y, s.chars[t].x, s.chars[t].y);
  }

  lemma HeadingIs(s: World, i: nat, t: nat)
    requires i < |s.chars| && t < |s.chars|
    ensures Heading(s, i, t) == BotStep(Stage(s, i), s.chars[i].x, s.chars[i].y, s.chars[t].x, s.chars[t].y)
    ensures Heading(s, i, t) == Nowhere ==> Heading(s, i, t).Dx() == 0 && Heading(s, i, t).Dy() == 0
  {
  }

  lemma BudgetAt(s: World, i: nat, t: nat)
    requires i < |s.chars| && t < |s.chars|
    ensures Budget(s, i, t) == Chase(Stage(s, i), s.chars[i].x, s.chars[i].y, s.chars[t].x, s.chars[t].y)
  {
  }

  ghost predicate AlwaysDue(s: World, i: nat, inputs: seq<Inputs>)
    requires Inv(s) && Ready(s) && i < |s.chars|
    decreases |inputs|
  {
    inputs == [] ||
    (ApplyKeeps(s, Tick(i, inputs[0]));
     !s.chars[i].Idle(inputs[0].now) && AlwaysDue(Turn(s, i, inputs[0]), i, inputs[1..]))
  }

  /** Over any series of its turns the bot makes at most |dx| + |dy| - 1 moves. */
  lemma {:induction false} ChaseTurns(s: World, i: nat, t: nat, inputs: seq<Inputs>)
    requires Inv(s) && Ready(s) && Hunts(s, i, t)
    ensures Moves(s, i, inputs) <= Budget(s, i, t) <= Gap(s, i, t) - 1
    ensures AlwaysDue(s, i, inputs) && |inputs| >= Budget(s, i, t) ==> Moves(s, i, inputs) == Budget(s, i, t)
    decreases |inputs|
  {
    FoeBlocks(s, i, t);
    ChaseBound(Stage(s, i), s.chars[i].x, s.chars[i].y, s.chars[t].x, s.chars[t].y);
    if inputs != [] {
      HuntSpends(s, i, t, inputs[0]);
      ChaseTurns(Turn(s, i, inputs[0]), i, t, inputs[1..]);
    }
  }

  /** On open land, given enough turns that are due, it makes exactly that many. */
  lemma OpenChaseTurns(s: World, i: nat, t: nat, inputs: seq<Inputs>)
    requires Inv(s) && Ready(s) && Hunts(s, i, t)
    requires Unobstructed(Stage(s, i), s.chars[i].x, s.chars[i].y, s.chars[t].x, s.chars[t].y)
    requires AlwaysDue(s, i, inputs) && |inputs| >= Gap(s, i, t) - 1
    ensures Moves(s, i, inputs) == Gap(s, i, t) - 1
  {
    FoeBlocks(s, i, t);
    ChaseExact(Stage(s, i), s.chars[i].x, s.chars[i].y, s.chars[t].x, s.chars[t].y);
    ChaseTurns(s, i, t, inputs);
  }
}
