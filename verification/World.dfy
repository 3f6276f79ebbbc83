/** Characters on the map as values: character.c's decisions as functions, and one character's turn of
    game_tick as a state change. GameTick proves the imperative code against these. */
module World {
  import opened Options
  import opened Grid

  datatype Race = Human | Beast

  datatype Direction = West | East | North | South | Nowhere {
    function Dx(): int {
      match this
      case West => 1
      case East => -1
      case _ => 0
    }

    function Dy(): int {
      match this
      case North => 1
      case South => -1
      case _ => 0
    }
  }

  const VISIBILITY_RANGE: nat := 3

  datatype Char = Char(
    x: int, y: int, race: Race, lvl: int,
    power: int, armor: int, evasion: int, hp: int,
    isPlayer: bool, target: Option<nat>, aggression: bool,
    nextStep: Direction, stepTime: int, stepStartTime: int)
  {
    function Kind(): Occupant {
      if isPlayer then Player else Enemy
    }

    /** The source's early `continue`: nothing to do, or the last step is too recent. */
    predicate Idle(now: int) {
      (nextStep == Nowhere && !aggression) || now - stepStartTime <= stepTime
    }
  }

  datatype World = World(w: nat, h: nat, cells: seq<MapPoint>, chars: seq<Char>) {
    predicate InMap(x: int, y: int) {
      0 <= x < w && 0 <= y < h
    }

    /** A cell a character may step on: in the map, no wall, nobody there, land. */
    predicate Free(x: int, y: int) {
      && InMap(x, y)
      && 0 <= Index(w, x, y) < |cells|
      && var c := cells[Index(w, x, y)]; c.surface != Wall && c.childObjectType == Nothing && c.ground.Land()
    }

    function Put(x: int, y: int, who: Occupant): World {
      var k := Index(w, x, y);
      if 0 <= k < |cells| then this.(cells := cells[k := cells[k].(childObjectType := who)]) else this
    }

    function With(i: nat, c: Char): World
      requires i < |chars|
    {
      this.(chars := chars[i := c])
    }
  }

  /** Squared distance of two characters. */
  function Dist(a: Char, b: Char): nat {
    SumSq(b.x - a.x, b.y - a.y)
  }

  // ---- choosing a target ------------------------------------------------------------------

  predicate Foe(s: World, i: nat, j: nat)
    requires i < |s.chars| && j < |s.chars|
  {
    j != i && s.chars[j].race != s.chars[i].race
  }

  /** The first nearest foe of i among characters 0 .. n - 1. */
  function NearestFoe(s: World, i: nat, n: nat): Option<nat>
    requires i < |s.chars| && n <= |s.chars|
  {
    if n == 0 then None
    else
      var best := NearestFoe(s, i, n - 1);
      if Foe(s, i, n - 1) &&
         (best.None? || best.value >= |s.chars|
          || Dist(s.chars[i], s.chars[n - 1]) < Dist(s.chars[i], s.chars[best.value]))
      then Some(n - 1)
      else best
  }

  lemma {:induction false} NearestFoeMeaning(s: World, i: nat, n: nat)
    requires i < |s.chars| && n <= |s.chars|
    ensures var best := NearestFoe(s, i, n);
            && (best.None? <==> forall j :: 0 <= j < n ==> !Foe(s, i, j))
            && (best.Some? ==>
                  && best.value < n && Foe(s, i, best.value)
                  && (forall j :: 0 <= j < n && Foe(s, i, j) ==>
                        Dist(s.chars[i], s.chars[best.value]) <= Dist(s.chars[i], s.chars[j]))
                  && (forall j :: 0 <= j < best.value && Foe(s, i, j) ==>
                        Dist(s.chars[i], s.chars[best.value]) < Dist(s.chars[i], s.chars[j])))
  {
    hide Dist;
    if n > 0 {
      NearestFoeMeaning(s, i, n - 1);
    }
  }

  /** character_find_target: bots turn to the nearest foe and keep the old target if there is none. */
  function Retarget(s: World, i: nat): Char
    requires i < |s.chars|
  {
    var c := s.chars[i];
    var foe := NearestFoe(s, i, |s.chars|);
    if c.isPlayer || foe.None? then c else c.(target := foe, nextStep := West, stepStartTime := 0)
  }

  // ---- choosing a step --------------------------------------------------------------------

  function Least(a: Option<nat>, b: Option<nat>): Option<nat> {
    if b.Some? && (a.None? || b.value < a.value) then b else a
  }

  /** The least squared distance to the target over the free cells seen in direction d. */
  function Look(s: World, x: int, y: int, d: Direction, steps: nat, tx: int, ty: int): Option<nat>
    decreases steps
  {
    var nx, ny := x + d.Dx(), y + d.Dy();
    if steps == 0 || !s.Free(nx, ny) then None
    else Least(Some(SumSq(tx - nx, ty - ny)), Look(s, nx, ny, d, steps - 1, tx, ty))
  }

  /** First direction with the least look-ahead value, in the order west, east, north, south. */
  function Choose(west: Option<nat>, east: Option<nat>, north: Option<nat>, south: Option<nat>)
    : (Direction, Option<nat>)
  {
    var a := if west.Some? then (West, west) else (Nowhere, None);
    var b := if east.Some? && (a.1.None? || east.value < a.1.value) then (East, east) else a;
    var c := if north.Some? && (b.1.None? || north.value < b.1.value) then (North, north) else b;
    if south.Some? && (c.1.None? || south.value < c.1.value) then (South, south) else c
  }

  /** character_move_to_target for a bot at (x, y) whose target stands at (tx, ty). */
  function BotStep(s: World, x: int, y: int, tx: int, ty: int): Direction {
    var (d, least) := Choose(
      Look(s, x, y, West, VISIBILITY_RANGE, tx, ty), Look(s, x, y, East, VISIBILITY_RANGE, tx, ty),
      Look(s, x, y, North, VISIBILITY_RANGE, tx, ty), Look(s, x, y, South, VISIBILITY_RANGE, tx, ty));
    var dist := SumSq(tx - x, ty - y);
    if least.None? || dist < least.value || dist <= 1 then Nowhere else d
  }

  predicate TargetKnown(s: World, c: Char) {
    c.target.Some? ==> c.target.value < |s.chars|
  }

  /** character_move_to_target. */
  function StepOf(s: World, c: Char): Direction
    requires TargetKnown(s, c)
  {
    if c.isPlayer then
      if s.Free(c.x + c.nextStep.Dx(), c.y + c.nextStep.Dy()) then c.nextStep else Nowhere
    else if c.target.None? then Nowhere
    else BotStep(s, c.x, c.y, s.chars[c.target.value].x, s.chars[c.target.value].y)
  }

  // ---- fighting ---------------------------------------------------------------------------

  /** character_damage; `roll` is the value drawn with rand(). */
  function Damage(a: Char, t: Char, roll: nat): int
    requires t.evasion > 0
  {
    var d := a.power - roll % t.evasion - t.armor;
    if d < 0 then 0 else d
  }

  function HpAfter(a: Char, t: Char, roll: nat): int
    requires t.evasion > 0
  {
    var hp := t.hp - Damage(a, t, roll);
    if hp < 0 then 0 else hp
  }

  predicate Fightable(s: World) {
    forall j :: 0 <= j < |s.chars| ==> s.chars[j].evasion > 0
  }

  /** character_attack of character i: hits a target closer than 2, which turns on its attacker; a target
      at 0 hp is let go. */
  function Attack(s: World, i: nat, roll: nat): World
    requires i < |s.chars| && TargetKnown(s, s.chars[i]) && Fightable(s)
  {
    var c := s.chars[i];
    if c.target.None? || Dist(c, s.chars[c.target.value]) >= 4 then s
    else
      var t := s.chars[c.target.value];
      var hp := HpAfter(c, t, roll);
      var hit := s.With(c.target.value, t.(hp := hp, target := Some(i), aggression := true));
      if hp <= 0 then hit.With(i, hit.chars[i].(target := None)) else hit
  }

  // ---- one turn ---------------------------------------------------------------------------

  predicate Ready(s: World) {
    Fightable(s) && forall j :: 0 <= j < |s.chars| ==> TargetKnown(s, s.chars[j])
  }

  datatype Inputs = Inputs(now: int, stepNow: int, roll: nat)

  /** Lifted off the map, with its target chosen. */
  function Retargeted(s: World, i: nat): World
    requires i < |s.chars|
  {
    var lifted := s.Put(s.chars[i].x, s.chars[i].y, Nothing);
    lifted.With(i, Retarget(lifted, i))
  }

  lemma RetargetedKnows(s: World, i: nat)
    requires i < |s.chars| && Ready(s)
    ensures var r := Retargeted(s, i); |r.chars| == |s.chars| && TargetKnown(r, r.chars[i])
  {
    NearestFoeMeaning(s.Put(s.chars[i].x, s.chars[i].y, Nothing), i, |s.chars|);
    assert TargetKnown(s, s.chars[i]);
  }

  /** Then with its direction chosen. */
  function Aimed(s: World, i: nat, stepNow: int): World
    requires i < |s.chars| && Ready(s)
  {
    RetargetedKnows(s, i);
    var r := Retargeted(s, i);
    r.With(i, r.chars[i].(nextStep := StepOf(r, r.chars[i]), stepStartTime := stepNow))
  }

  /** The switch on next_step: move one cell, or stay and attack. */
  function Acted(s: World, i: nat, roll: nat): World
    requires i < |s.chars| && TargetKnown(s, s.chars[i]) && Fightable(s)
  {
    var c := s.chars[i];
    if c.nextStep == Nowhere then Attack(s, i, roll)
    else s.With(i, c.(x := c.x + c.nextStep.Dx(), y := c.y + c.nextStep.Dy()))
  }

  /** Back on the map; a player's wish is used up. */
  function Landed(s: World, i: nat): World
    requires i < |s.chars|
  {
    var c := s.chars[i];
    var put := s.Put(c.x, c.y, c.Kind());
    if c.isPlayer then put.With(i, c.(nextStep := Nowhere, aggression := false)) else put
  }

  lemma AimedReady(s: World, i: nat, stepNow: int)
    requires i < |s.chars| && Ready(s)
    ensures |Aimed(s, i, stepNow).chars| == |s.chars|
    ensures TargetKnown(Aimed(s, i, stepNow), Aimed(s, i, stepNow).chars[i]) && Fightable(Aimed(s, i, stepNow))
  {
    RetargetedKnows(s, i);
    var a := Aimed(s, i, stepNow);
    forall j | 0 <= j < |a.chars|
      ensures a.chars[j].evasion > 0
    {
      assert a.chars[j].evasion == s.chars[j].evasion;
    }
  }

  /** The body of game_tick's loop for character i, without the messages. */
  function Turn(s: World, i: nat, input: Inputs): World
    requires i < |s.chars| && Ready(s)
  {
    AimedReady(s, i, input.stepNow);
    if s.chars[i].Idle(input.now) then s
    else Landed(Acted(Aimed(s, i, input.stepNow), i, input.roll), i)
  }
}
