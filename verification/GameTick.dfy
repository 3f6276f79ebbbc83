/** The imperative tick machine: characters as objects, the map as an array (character.c, game_main.c,
    gfunc_map and gfunc_go of game_functions.c), proved against the state changes of World. */
module GameTick {
  import opened Options
  import opened Grid
  import opened World
  import opened Ticks
  import Movement

  /** The indent map_to_file generates maps with. */
  const INDENT: nat := 10

  class Character {
    var id: nat
    var x: int
    var y: int
    var race: Race
    var lvl: int
    var power: int
    var armor: int
    var evasion: int
    var hp: int
    var isPlayer: bool
    var target: Character?
    var aggression: bool
    var nextStep: Direction
    var stepTime: int
    var stepStartTime: int

    /** character_new. */
    constructor (x: int, y: int, race: Race, lvl: int, stepTime: int, isPlayer: bool)
      ensures Shows(NewChar(x, y, race, lvl, stepTime, isPlayer)) && target == null
    {
      this.id := 0;
      this.x := x;
      this.y := y;
      this.race := race;
      this.lvl := lvl;
      match race {
        case Human =>
          power, armor, evasion, hp := 10 * lvl, 5 * lvl, 2 * lvl, 100 * lvl;
        case Beast =>
          power, armor, evasion, hp := 13 * lvl, 2 * lvl, 2 * lvl, 100 * lvl;
      }
      this.isPlayer := isPlayer;
      target := null;
      aggression := false;
      nextStep := Nowhere;
      this.stepTime := stepTime;
      stepStartTime := 0;
    }

    /** The fields other than the target are those of v. */
    ghost predicate Shows(v: Char)
      reads this
    {
      && x == v.x && y == v.y && race == v.race && lvl == v.lvl
      && power == v.power && armor == v.armor && evasion == v.evasion && hp == v.hp
      && isPlayer == v.isPlayer && aggression == v.aggression && nextStep == v.nextStep
      && stepTime == v.stepTime && stepStartTime == v.stepStartTime
    }

    /** The target is the character v names by its number. */
    ghost predicate Points(v: Char, cs: seq<Character>)
      reads this
    {
      match v.target
      case None => target == null
      case Some(k) => k < |cs| && target == cs[k]
    }
  }

  class Game {
    const w: nat
    const h: nat
    const grid: array<MapPoint>
    var characters: seq<Character>
    ghost var model: World

    /** The objects and the array show exactly the state m. */
    ghost predicate Mirrors(m: World)
      reads this`characters, grid, characters
    {
      && m.w == w && m.h == h && m.cells == grid[..] && |m.chars| == |characters|
      && forall i :: 0 <= i < |characters| ==>
           characters[i].id == i && characters[i].Shows(m.chars[i]) && characters[i].Points(m.chars[i], characters)
    }

    ghost predicate Valid()
      reads this, grid, characters
    {
      Mirrors(model) && Inv(model) && Ready(model) && Bordered(model.cells, w, h, INDENT)
    }

    /** A game on a freshly loaded map: nobody there yet. */
    constructor (w: nat, h: nat, grid: array<MapPoint>)
      requires Shaped(grid[..], w, h) && Bordered(grid[..], w, h, INDENT)
      requires forall i :: 0 <= i < grid.Length ==> grid[i].childObjectType == Nothing
      ensures Valid() && model == World(w, h, grid[..], []) && this.grid == grid && characters == []
    {
      this.w := w;
      this.h := h;
      this.grid := grid;
      characters := [];
      model := World(w, h, grid[..], []);
    }

    predicate FreeCell(x: int, y: int)
      reads grid
    {
      && 0 <= x < w && 0 <= y < h
      && 0 <= Index(w, x, y) < grid.Length
      && grid[Index(w, x, y)].surface != Wall && grid[Index(w, x, y)].childObjectType == Nothing
      && grid[Index(w, x, y)].ground.Land()
    }

    lemma FreeCellMeaning(m: World, x: int, y: int)
      requires Mirrors(m)
      ensures FreeCell(x, y) == m.Free(x, y)
    {
    }

    /** Updating one character object updates one entry of the mirrored state. */
    twostate lemma OneChanged(new i: nat, m: World, new v: Char)
      requires old(Mirrors(m)) && i < |characters| && characters == old(characters) && grid[..] == old(grid[..])
      requires forall j :: 0 <= j < |characters| && j != i ==> unchanged(characters[j])
      requires characters[i].id == i && characters[i].Shows(v) && characters[i].Points(v, characters)
      ensures Mirrors(m.With(i, v))
    {
    }

    // The larger methods below hide all definitions and get them one at a time, through small lemmas
    // that open a single definition each; this keeps every proof small.

    // ---- single updates -------------------------------------------------------------------

    /** What the fields of character i are. */
    lemma Read(m: World, i: nat)
      requires Mirrors(m) && i < |characters|
      ensures i < |m.chars| && |m.chars| == |characters|
      ensures var c, v := characters[i], m.chars[i];
              && c.x == v.x && c.y == v.y && c.race == v.race && c.isPlayer == v.isPlayer && c.hp == v.hp
              && c.power == v.power && c.armor == v.armor && c.evasion == v.evasion
              && c.aggression == v.aggression && c.nextStep == v.nextStep
              && c.stepTime == v.stepTime && c.stepStartTime == v.stepStartTime
              && (c.target == null <==> v.target == None)
              && (v.target.Some? ==> v.target.value < |characters| && c.target == characters[v.target.value])
    {
      assert characters[i].Shows(m.chars[i]) && characters[i].Points(m.chars[i], characters);
    }

    lemma WithSame(m: World, i: nat, a: Char, b: Char)
      requires i < |m.chars|
      ensures m.With(i, m.chars[i]) == m && m.With(i, a).With(i, b) == m.With(i, b)
      ensures m.With(i, a).chars[i] == a && |m.With(i, a).chars| == |m.chars|
      ensures forall j :: 0 <= j < |m.chars| && j != i ==> m.With(i, a).chars[j] == m.chars[j]
    {
    }

    /** character_set_target. */
    method Aim(i: nat, foe: Character, ghost k: nat, ghost m: World)
      requires Mirrors(m) && i < |characters| && k < |characters| && foe == characters[k]
      modifies characters[i]
      ensures Mirrors(m.With(i, m.chars[i].(target := Some(k), nextStep := West, stepStartTime := 0)))
    {
      characters[i].target := foe;
      characters[i].nextStep := West;
      characters[i].stepStartTime := 0;
      OneChanged(i, m, m.chars[i].(target := Some(k), nextStep := West, stepStartTime := 0));
    }

    method LetGo(i: nat, ghost m: World)
      requires Mirrors(m) && i < |characters|
      modifies characters[i]
      ensures Mirrors(m.With(i, m.chars[i].(target := None)))
    {
      characters[i].target := null;
      OneChanged(i, m, m.chars[i].(target := None));
    }

    /** character_damage, and the target turning on its attacker. */
    method Hit(c: Character, t: Character, ghost i: nat, ghost k: nat, roll: nat, ghost m: World)
      requires Mirrors(m) && i < |characters| && k < |characters| && i != k && m.chars[k].evasion > 0
      requires c == characters[i] && t == characters[k]
      modifies t
      ensures Mirrors(m.With(k, m.chars[k].(hp := HpAfter(m.chars[i], m.chars[k], roll), target := Some(i),
                                            aggression := true)))
    {
      assert c.Shows(m.chars[i]) && t.Shows(m.chars[k]);
      var damage := c.power - roll % t.evasion - t.armor;
      if damage < 0 {
        damage := 0;
      }
      t.hp := t.hp - damage;
      if t.hp < 0 {
        t.hp := 0;
      }
      t.target := c;
      t.aggression := true;
      OneChanged(k, m, m.chars[k].(hp := HpAfter(m.chars[i], m.chars[k], roll), target := Some(i), aggression := true));
    }

    method Aims(i: nat, d: Direction, stepNow: int, ghost m: World)
      requires Mirrors(m) && i < |characters|
      modifies characters[i]
      ensures Mirrors(m.With(i, m.chars[i].(nextStep := d, stepStartTime := stepNow)))
    {
      characters[i].nextStep := d;
      characters[i].stepStartTime := stepNow;
      OneChanged(i, m, m.chars[i].(nextStep := d, stepStartTime := stepNow));
    }

    method Move(i: nat, dx: int, dy: int, ghost m: World)
      requires Mirrors(m) && i < |characters|
      modifies characters[i]
      ensures Mirrors(m.With(i, m.chars[i].(x := m.chars[i].x + dx, y := m.chars[i].y + dy)))
    {
      characters[i].x := characters[i].x + dx;
      characters[i].y := characters[i].y + dy;
      OneChanged(i, m, m.chars[i].(x := m.chars[i].x + dx, y := m.chars[i].y + dy));
    }

    method Wish(i: nat, d: Direction, aggression: bool, ghost m: World)
      requires Mirrors(m) && i < |characters|
      modifies characters[i]
      ensures Mirrors(m.With(i, m.chars[i].(nextStep := d, aggression := aggression)))
    {
      characters[i].nextStep := d;
      characters[i].aggression := aggression;
      OneChanged(i, m, m.chars[i].(nextStep := d, aggression := aggression));
    }

    method SetOccupant(x: int, y: int, who: Occupant, ghost m: World)
      requires Mirrors(m) && m.InMap(x, y) && Shaped(m.cells, m.w, m.h)
      modifies grid
      ensures Mirrors(m.Put(x, y, who))
    {
      IndexInRange(w, h, x, y);
      var at := Index(w, x, y);
      grid[at] := grid[at].(childObjectType := who);
    }

    // ---- choosing -------------------------------------------------------------------------

    static lemma NearestFoeNext(m: World, i: nat, j: nat)
      requires i < |m.chars| && j < |m.chars|
      ensures var best := NearestFoe(m, i, j);
              && (best.Some? ==> best.value < j)
              && NearestFoe(m, i, j + 1) ==
                 if j != i && m.chars[j].race != m.chars[i].race &&
                    (best.None? || Dist(m.chars[i], m.chars[j]) < Dist(m.chars[i], m.chars[best.value]))
                 then Some(j) else best
    {
      NearestFoeMeaning(m, i, j);
    }

    static lemma RetargetIs(m: World, i: nat)
      requires i < |m.chars|
      ensures Retarget(m, i) == if m.chars[i].isPlayer then m.chars[i]
              else Turned(m.chars[i], NearestFoe(m, i, |m.chars|))
      ensures NearestFoe(m, i, 0) == None && Turned(m.chars[i], None) == m.chars[i]
      ensures forall j ::
                Turned(m.chars[i], Some(j)) ==
                m.chars[i].(target := Some(j), nextStep := West, stepStartTime := 0)
      ensures forall j, k ::
                Turned(m.chars[i], k).(target := Some(j), nextStep := West, stepStartTime := 0) ==
                Turned(m.chars[i], Some(j))
      ensures forall k {:trigger Turned(m.chars[i], k)} :: var v := Turned(m.chars[i], k);
                v.x == m.chars[i].x && v.y == m.chars[i].y && v.race == m.chars[i].race
    {
    }

    static ghost function Turned(c: Char, foe: Option<nat>): Char {
      if foe.None? then c else c.(target := foe, nextStep := West, stepStartTime := 0)
    }

    static lemma DistIs(a: Char, b: Char)
      ensures Dist(a, b) == SumSq(b.x - a.x, b.y - a.y)
    {
    }

    /** character_find_target. */
    method FindTarget(i: nat, ghost m: World)
      requires Mirrors(m) && i < |characters|
      modifies characters[i]
      ensures Mirrors(m.With(i, Retarget(m, i)))
    {
      hide *;
      Read(m, i);
      RetargetIs(m, i);
      WithSame(m, i, m.chars[i], m.chars[i]);
      if characters[i].isPlayer {
        return;
      }
      var minDist: Option<nat> := None;
      ghost var best: Option<nat> := None;
      for j := 0 to |characters|
        invariant |m.chars| == |characters|
        invariant best == NearestFoe(m, i, j) && (best.None? <==> minDist.None?)
        invariant best.Some? ==> best.value < j && minDist == Some(Dist(m.chars[i], m.chars[best.value]))
        invariant Mirrors(m.With(i, Turned(m.chars[i], best)))
      {
        ghost var now := m.With(i, Turned(m.chars[i], best));
        WithSame(m, i, Turned(m.chars[i], best), Turned(m.chars[i], Some(j)));
        Read(now, i);
        Read(now, j);
        NearestFoeNext(m, i, j);
        if j != i && characters[j].race != characters[i].race {
          var dist := SumSq(characters[j].x - characters[i].x, characters[j].y - characters[i].y);
          DistIs(m.chars[i], m.chars[j]);
          if minDist.None? || dist < minDist.value {
            minDist := Some(dist);
            Aim(i, characters[j], j, now);
            best := Some(j);
          }
        }
      }
    }

    static lemma LeastChain(a: Option<nat>, dist: nat, rest: Option<nat>)
      ensures Least(a, Least(Some(dist), rest)) == Least(if a.None? || dist < a.value then Some(dist) else a, rest)
      ensures Least(a, None) == a && Least(None, rest) == rest
    {
    }

    /** One of the four look-ahead loops of character_move_to_target, which differ in their direction. */
    method LookAlong(x: int, y: int, d: Direction, tx: int, ty: int, ghost m: World) returns (least: Option<nat>)
      requires Mirrors(m)
      ensures least == Look(m, x, y, d, VISIBILITY_RANGE, tx, ty)
    {
      hide Look, Least, FreeCell, SumSq, World.Free, Mirrors;
      least := None;
      var steps := VISIBILITY_RANGE;
      var px, py := x, y;
      LeastChain(None, 0, Look(m, x, y, d, VISIBILITY_RANGE, tx, ty));
      while steps > 0
        invariant Least(least, Look(m, px, py, d, steps, tx, ty)) == Look(m, x, y, d, VISIBILITY_RANGE, tx, ty)
      {
        Movement.LookUnfolds(m, px, py, d, steps, tx, ty);
        px, py := px + d.Dx(), py + d.Dy();
        FreeCellMeaning(m, px, py);
        LeastChain(least, SumSq(tx - px, ty - py), Look(m, px, py, d, steps - 1, tx, ty));
        if !FreeCell(px, py) {
          return;
        }
        var dist := SumSq(tx - px, ty - py);
        if least.None? || dist < least.value {
          least := Some(dist);
        }
        steps := steps - 1;
      }
      Movement.LookUnfolds(m, px, py, d, 0, tx, ty);
      LeastChain(least, 0, None);
    }

    static lemma StepOfIs(m: World, i: nat)
      requires i < |m.chars| && TargetKnown(m, m.chars[i])
      ensures var c := m.chars[i];
              && (c.isPlayer ==>
                    StepOf(m, c) == if m.Free(c.x + c.nextStep.Dx(), c.y + c.nextStep.Dy()) then c.nextStep
                    else Nowhere)
              && (!c.isPlayer && c.target.None? ==> StepOf(m, c) == Nowhere)
              && (!c.isPlayer && c.target.Some? ==>
                    && c.target.value < |m.chars|
                    && var t := m.chars[c.target.value];
                    var (e, least) := Choose(Look(m, c.x, c.y, West, VISIBILITY_RANGE, t.x, t.y),
                                             Look(m, c.x, c.y, East, VISIBILITY_RANGE, t.x, t.y),
                                             Look(m, c.x, c.y, North, VISIBILITY_RANGE, t.x, t.y),
                                             Look(m, c.x, c.y, South, VISIBILITY_RANGE, t.x, t.y));
                    StepOf(m, c) == if least.None? || SumSq(t.x - c.x, t.y - c.y) < least.value
                        || SumSq(t.x - c.x, t.y - c.y) <= 1
                                    then Nowhere else e)
    {
    }

    /** character_move_to_target. */
    method MoveToTarget(i: nat, ghost m: World) returns (d: Direction)
      requires Mirrors(m) && i < |characters| && i < |m.chars| && TargetKnown(m, m.chars[i])
      ensures d == StepOf(m, m.chars[i])
    {
      hide *;
      Read(m, i);
      StepOfIs(m, i);
      var c := characters[i];
      if c.isPlayer {
        FreeCellMeaning(m, c.x + c.nextStep.Dx(), c.y + c.nextStep.Dy());
        return if FreeCell(c.x + c.nextStep.Dx(), c.y + c.nextStep.Dy()) then c.nextStep else Nowhere;
      }
      if c.target == null {
        return Nowhere;
      }
      Read(m, m.chars[i].target.value);
      var tx, ty := c.target.x, c.target.y;
      var west := LookAlong(c.x, c.y, West, tx, ty, m);
      var east := LookAlong(c.x, c.y, East, tx, ty, m);
      var north := LookAlong(c.x, c.y, North, tx, ty, m);
      var south := LookAlong(c.x, c.y, South, tx, ty, m);
      d := Pick(c.x, c.y, tx, ty, west, east, north, south);
    }

    /** The end of character_move_to_target: the least of the four values, then the comparison with the
        present distance. `direction` starts unset, and is set whenever it is returned. */
    static method Pick(x: int, y: int, tx: int, ty: int,
                       west: Option<nat>, east: Option<nat>, north: Option<nat>, south: Option<nat>)
      returns (d: Direction)
      ensures d == var (e, least) := Choose(west, east, north, south);
                   if least.None? || SumSq(tx - x, ty - y) < least.value || SumSq(tx - x, ty - y) <= 1 then Nowhere
                   else e
    {
      var names := [West, East, North, South];
      var dirs := [west, east, north, south];
      var least: Option<nat> := None;
      var direction: Option<Direction> := None;
      for k := 0 to 4
        invariant direction.Some? == least.Some?
        invariant (if direction.Some? then direction.value else Nowhere, least) ==
                  Choose(west, if k > 1 then east else None, if k > 2 then north else None,
                         if k > 3 then south else None) ||
                  (k == 0 && least == None)
      {
        if dirs[k].Some? && (least.None? || dirs[k].value < least.value) {
          least := dirs[k];
          direction := Some(names[k]);
        }
      }
      var dist := SumSq(tx - x, ty - y);
      if least.None? || dist < least.value || dist <= 1 {
        direction := Some(Nowhere);
      }
      d := direction.value;
    }

    // ---- acting ---------------------------------------------------------------------------

    static lemma AttackIs(m: World, i: nat, roll: nat)
      requires i < |m.chars| && TargetKnown(m, m.chars[i]) && Fightable(m) && m.chars[i].target != Some(i)
      ensures m.chars[i].target.Some? ==> m.chars[i].target.value < |m.chars|
      ensures m.chars[i].target.None? ==> Attack(m, i, roll) == m
      ensures m.chars[i].target.Some? ==>
                var c, t := m.chars[i], m.chars[m.chars[i].target.value];
                && t.evasion > 0
                && var hit := m.With(c.target.value,
                                     t.(hp := HpAfter(c, t, roll), target := Some(i), aggression := true));
                && |hit.chars| == |m.chars| && hit.chars[c.target.value].hp == HpAfter(c, t, roll)
                && hit.chars[i] == m.chars[i]
                && Attack(m, i, roll) == if SumSq(t.x - c.x, t.y - c.y) >= 4 then m
                                         else if HpAfter(c, t, roll) <= 0
                                             then hit.With(i, hit.chars[i].(target := None))
                                         else hit
    {
    }

    /** character_attack. */
    method AttackTarget(i: nat, roll: nat, ghost m: World)
      requires Mirrors(m) && i < |characters| && TargetKnown(m, m.chars[i]) && Fightable(m)
      requires m.chars[i].target != Some(i)
      modifies characters
      ensures Mirrors(Attack(m, i, roll))
    {
      hide *;
      Read(m, i);
      AttackIs(m, i, roll);
      var c := characters[i];
      if c.target == null {
        return;
      }
      var t := c.target;
      ghost var k := m.chars[i].target.value;
      Read(m, k);
      if SumSq(t.x - c.x, t.y - c.y) < 4 {
        Hit(c, t, i, k, roll, m);
        ghost var hit := m.With(k, m.chars[k].(hp := HpAfter(m.chars[i], m.chars[k], roll), target := Some(i),
                                               aggression := true));
        Read(hit, k);
        if t.hp <= 0 {
          LetGo(i, hit);
        }
      }
    }

    // ---- one turn -------------------------------------------------------------------------

    static lemma AimedIs(m: World, i: nat, stepNow: int)
      requires Ready(m) && i < |m.chars|
      ensures var lifted, r := m.Put(m.chars[i].x, m.chars[i].y, Nothing), Retargeted(m, i);
              && lifted.chars == m.chars && r == lifted.With(i, Retarget(lifted, i)) && |r.chars| == |m.chars|
              && TargetKnown(r, r.chars[i])
              && Aimed(m, i, stepNow) == r.With(i,
                                                r.chars[i].(nextStep := StepOf(r, r.chars[i]),
                                                            stepStartTime := stepNow))
      ensures var a := Aimed(m, i, stepNow); |a.chars| == |m.chars| && TargetKnown(a, a.chars[i]) && Fightable(a)
    {
      RetargetedKnows(m, i);
      AimedReady(m, i, stepNow);
    }

    static lemma AimedNotSelf(m: World, i: nat, stepNow: int)
      requires Ready(m) && Inv(m) && i < |m.chars|
      ensures |Aimed(m, i, stepNow).chars| == |m.chars| && Aimed(m, i, stepNow).chars[i].target != Some(i)
    {
      AimedIs(m, i, stepNow);
      AimSound(m, i, stepNow);
      assert SoundChar(Aimed(m, i, stepNow), Aimed(m, i, stepNow).chars[i]);
    }

    static lemma ActedIs(a: World, i: nat, roll: nat)
      requires i < |a.chars| && TargetKnown(a, a.chars[i]) && Fightable(a)
      ensures |Acted(a, i, roll).chars| == |a.chars|
      ensures var c := a.chars[i];
              Acted(a, i, roll) == if c.nextStep == Nowhere then Attack(a, i, roll)
                                   else a.With(i, c.(x := c.x + c.nextStep.Dx(), y := c.y + c.nextStep.Dy()))
    {
    }

    static lemma LandedIs(b: World, i: nat)
      requires i < |b.chars|
      ensures var c, put := b.chars[i], b.Put(b.chars[i].x, b.chars[i].y, b.chars[i].Kind());
              && c.Kind() == (if c.isPlayer then Player else Enemy)
              && put.chars == b.chars
              && Landed(b, i) == if c.isPlayer then put.With(i, c.(nextStep := Nowhere, aggression := false)) else put
    {
    }

    static lemma IdleIs(c: Char, now: int)
      ensures c.Idle(now) <==> (c.nextStep == Nowhere && !c.aggression) || now - c.stepStartTime <= c.stepTime
    {
    }

    static lemma InPlace(m: World, i: nat)
      requires Inv(m) && i < |m.chars|
      ensures m.InMap(m.chars[i].x, m.chars[i].y) && Shaped(m.cells, m.w, m.h)
    {
      assert Walkable(m, m.chars[i].x, m.chars[i].y);
    }

    static lemma ActedInPlace(m: World, i: nat, input: Inputs)
      requires Inv(m) && Ready(m) && i < |m.chars|
      ensures var a := Aimed(m, i, input.stepNow);
              && |a.chars| == |m.chars| && TargetKnown(a, a.chars[i]) && Fightable(a)
              && var b := Acted(a, i, input.roll);
              && |b.chars| == |m.chars| && Shaped(b.cells, b.w, b.h) && b.InMap(b.chars[i].x, b.chars[i].y)
    {
      hide *;
      var a := Aimed(m, i, input.stepNow);
      AimedIs(m, i, input.stepNow);
      PlacedOf(m);
      AimKeepsPlaces(m, i, input.stepNow);
      AimedStepIsFree(m, i, input.stepNow);
      ActKeepsPlaces(a, i, input.roll);
      LandsInMap(Acted(a, i, input.roll), i);
    }

    static lemma PlacedOf(m: World)
      requires Inv(m)
      ensures Placed(m)
    {
    }

    static lemma LandsInMap(b: World, i: nat)
      requires i < |b.chars| && PlacedBut(b, i) && CanLand(b, i)
      ensures Shaped(b.cells, b.w, b.h) && b.InMap(b.chars[i].x, b.chars[i].y)
    {
    }

    /** Every event keeps the border, so with the invariant and the tie to the objects the game stays
        valid. */
    lemma Stays(before: World)
      requires before.w == w && before.h == h && Bordered(before.cells, w, h, INDENT)
      requires Inv(model) && Ready(model) && Mirrors(model) && SameTerrain(before.cells, model.cells)
      ensures Valid()
    {
      BorderStays(before, model, INDENT);
    }

    /** Lift the character, choose its target and its direction. */
    method PickUp(i: nat, stepNow: int, ghost m: World)
      requires Mirrors(m) && Inv(m) && Ready(m) && i < |characters| && i < |m.chars|
      modifies grid, characters[i]
      ensures Mirrors(Aimed(m, i, stepNow))
    {
      hide *;
      Read(m, i);
      InPlace(m, i);
      AimedIs(m, i, stepNow);
      SetOccupant(characters[i].x, characters[i].y, Nothing, m);
      FindTarget(i, m.Put(m.chars[i].x, m.chars[i].y, Nothing));
      var d := MoveToTarget(i, Retargeted(m, i));
      Aims(i, d, stepNow, Retargeted(m, i));
    }

    /** The switch on next_step. */
    method Act(i: nat, roll: nat, ghost a: World)
      requires Mirrors(a) && i < |characters| && i < |a.chars|
      requires TargetKnown(a, a.chars[i]) && Fightable(a) && a.chars[i].target != Some(i)
      modifies characters
      ensures Mirrors(Acted(a, i, roll))
    {
      hide *;
      Read(a, i);
      ActedIs(a, i, roll);
      var d := characters[i].nextStep;
      if d == Nowhere {
        AttackTarget(i, roll, a);
      } else {
        Move(i, d.Dx(), d.Dy(), a);
      }
    }

    /** Mark the new cell; a player's wish is used up. */
    method PutDown(i: nat, ghost b: World)
      requires Mirrors(b) && i < |characters| && i < |b.chars|
      requires Shaped(b.cells, b.w, b.h) && b.InMap(b.chars[i].x, b.chars[i].y)
      modifies grid, characters[i]
      ensures Mirrors(Landed(b, i))
    {
      hide *;
      Read(b, i);
      LandedIs(b, i);
      var c := characters[i];
      SetOccupant(c.x, c.y, if c.isPlayer then Player else Enemy, b);
      ghost var put := b.Put(b.chars[i].x, b.chars[i].y, b.chars[i].Kind());
      Read(put, i);
      if c.isPlayer {
        Wish(i, Nowhere, false, put);
      }
    }

    /** The body of game_tick's loop up to the messages. */
    method TakeTurn(i: nat, input: Inputs)
      requires Valid() && i < |characters|
      modifies this`model, grid, characters
      ensures Valid() && characters == old(characters)
      ensures i < |old(model).chars| && model == Turn(old(model), i, input)
    {
      hide *;
      ghost var m := model;
      Opened();
      Read(m, i);
      IdleIs(m.chars[i], input.now);
      TurnUnfolds(m, i, input);
      TurnApplied(m, i, input);
      var c := characters[i];
      if (c.nextStep == Nowhere && !c.aggression) || input.now - c.stepStartTime <= c.stepTime {
        return;
      }
      PickUp(i, input.stepNow, m);
      ghost var a := Aimed(m, i, input.stepNow);
      AimedNotSelf(m, i, input.stepNow);
      ActedInPlace(m, i, input);
      Act(i, input.roll, a);
      PutDown(i, Acted(a, i, input.roll));
      model := Turn(m, i, input);
      Stays(m);
    }

    lemma Opened()
      requires Valid()
      ensures Mirrors(model) && Inv(model) && Ready(model) && Bordered(model.cells, w, h, INDENT)
    {
    }

    static lemma TurnApplied(m: World, i: nat, input: Inputs)
      requires Inv(m) && Ready(m) && i < |m.chars|
      ensures var t := Turn(m, i, input); Inv(t) && Ready(t) && SameTerrain(m.cells, t.cells)
    {
      ApplyKeeps(m, Tick(i, input));
    }

    /** One character's body of the loop: its turn, then the scan for players to notify. */
    method TurnAndScan(i: nat, input: Inputs) returns (seen: seq<nat>)
      requires Valid() && i < |characters|
      modifies this`model, grid, characters
      ensures Valid() && characters == old(characters)
      ensures i < |old(model).chars| && model == Turn(old(model), i, input)
      ensures old(model).chars[i].Idle(input.now) ==> seen == []
      ensures !old(model).chars[i].Idle(input.now) ==> forall k :: k in seen <==>
              OccupiedNear(k, characters[i].x, characters[i].y)
      ensures ColumnOrder(seen)
    {
      hide *;
      Opened();
      Read(model, i);
      IdleIs(model.chars[i], input.now);
      var c := characters[i];
      var idle := (c.nextStep == Nowhere && !c.aggression) || input.now - c.stepStartTime <= c.stepTime;
      TakeTurn(i, input);
      seen := [];
      NothingSeen();
      if !idle {
        seen := ScanWindow(i);
      }
    }

    lemma NothingSeen()
      ensures ColumnOrder([])
    {
    }

    /** Cell k is marked and lies in the 9x9 window around (x, y). */
    ghost predicate OccupiedNear(k: int, x: int, y: int)
      reads grid
    {
      && 0 <= k < grid.Length
      && x - 4 <= grid[k].x <= x + 4 && y - 4 <= grid[k].y <= y + 4
      && grid[k].childObjectType != Nothing
    }

    /** The cells of the window scanned before (px, py), column by column. */
    ghost predicate ScannedTo(seen: seq<nat>, x: int, y: int, px: int, py: int)
      reads grid
    {
      forall k :: k in seen <==> OccupiedNear(k, x, y) && (grid[k].x < px || (grid[k].x == px && grid[k].y < py))
    }

    /** Cell j comes before cell k, column by column. */
    ghost predicate Earlier(j: nat, k: nat)
      reads grid
    {
      && j < grid.Length && k < grid.Length
      && (grid[j].x < grid[k].x || (grid[j].x == grid[k].x && grid[j].y < grid[k].y))
    }

    /** Each cell once, column by column. */
    ghost predicate ColumnOrder(seen: seq<nat>)
      reads grid
    {
      forall j, k :: 0 <= j < k < |seen| ==> Earlier(seen[j], seen[k])
    }

    /** One more cell of the window. */
    lemma ScanCell(seen: seq<nat>, cx: int, cy: int, x: int, y: int, at: nat)
      requires Shaped(grid[..], w, h) && at < grid.Length && at == Index(w, x, y) && grid[at].x == x && grid[at].y == y
      requires cx - 4 <= x <= cx + 4 && cy - 4 <= y <= cy + 4
      requires ScannedTo(seen, cx, cy, x, y) && ColumnOrder(seen)
      ensures var now := if grid[at].childObjectType != Nothing then seen + [at] else seen;
              ScannedTo(now, cx, cy, x, y + 1) && ColumnOrder(now)
    {
      hide Index, Shaped;
      PlaceDetermines(x, y);
      forall j | 0 <= j < |seen|
        ensures Earlier(seen[j], at)
      {
        assert seen[j] in seen;
      }
    }

    lemma ScanStart(cx: int, cy: int)
      ensures ScannedTo([], cx, cy, cx - 4, cy - 4) && ColumnOrder([])
    {
    }

    lemma ScanColumn(seen: seq<nat>, cx: int, cy: int, x: int)
      requires ScannedTo(seen, cx, cy, x, cy + 5)
      ensures ScannedTo(seen, cx, cy, x + 1, cy - 4)
    {
    }

    lemma ScanEnd(seen: seq<nat>, cx: int, cy: int)
      requires ScannedTo(seen, cx, cy, cx + 5, cy - 4)
      ensures forall k :: k in seen <==> OccupiedNear(k, cx, cy)
    {
    }

    /** The 9x9 loops of game_tick: no bounds test, yet every read is of the cell meant. */
    method ScanWindow(i: nat) returns (seen: seq<nat>)
      requires Valid() && i < |characters|
      ensures forall k :: k in seen <==> OccupiedNear(k, characters[i].x, characters[i].y)
      ensures ColumnOrder(seen)
    {
      hide *;
      var cx, cy := characters[i].x, characters[i].y;
      seen := [];
      ScanStart(cx, cy);
      for x := cx - 4 to cx + 5
        invariant ScannedTo(seen, cx, cy, x, cy - 4) && ColumnOrder(seen)
      {
        for y := cy - 4 to cy + 5
          invariant ScannedTo(seen, cx, cy, x, y) && ColumnOrder(seen)
        {
          WindowCell(i, x, y);
          GridShaped();
          var at := Index(w, x, y);
          ScanCell(seen, cx, cy, x, y, at);
          if grid[at].childObjectType != Nothing {
            seen := seen + [at];
          }
        }
        ScanColumn(seen, cx, cy, x);
      }
      ScanEnd(seen, cx, cy);
    }

    lemma GridShaped()
      requires Valid()
      ensures Shaped(grid[..], w, h)
    {
      Opened();
    }

    lemma PlaceDetermines(x: int, y: int)
      requires Shaped(grid[..], w, h)
      ensures forall k :: 0 <= k < grid.Length && grid[k].x == x && grid[k].y == y ==> k == Index(w, x, y)
    {
      forall k | 0 <= k < grid.Length && grid[k].x == x && grid[k].y == y
        ensures k == Index(w, x, y)
      {
        assert grid[..][k] == grid[k];
      }
    }

    // ---- the map reply --------------------------------------------------------------------

    /** gfunc_map: 81 pairs of a tile code and an occupant code, column by column. */
    method MapReply(i: nat) returns (body: array<int>)
      requires Valid() && i < |characters|
      ensures fresh(body) && WindowEncoded(body[..], grid[..], w, characters[i].x, characters[i].y)
    {
      hide *;
      body := new int[162];
      var cx, cy := characters[i].x, characters[i].y;
      var bodyIndex := 0;
      EncodeStart(body[..], grid[..], w, cx, cy);
      for a := 0 to 9
        invariant bodyIndex == Pair(a, 0) && EncodedTo(body[..], grid[..], w, cx, cy, a, 0)
      {
        for b := 0 to 9
          invariant bodyIndex == Pair(a, b) && EncodedTo(body[..], grid[..], w, cx, cy, a, b)
        {
          ghost var before := body[..];
          WindowCell(i, cx - 4 + a, cy - 4 + b);
          EncodeNext(before, grid[..], w, cx, cy, a, b);
          var at := Index(w, cx - 4 + a, cy - 4 + b);
          var tile := TileCode(grid[at]);
          var who := grid[at].childObjectType.Code();
          body[bodyIndex] := tile;
          bodyIndex := bodyIndex + 1;
          body[bodyIndex] := who;
          bodyIndex := bodyIndex + 1;
          assert body[..] == before[Pair(a, b) := tile][Pair(a, b) + 1 := who];
        }
        EncodeRow(body[..], grid[..], w, cx, cy, a);
      }
      EncodeEnd(body[..], grid[..], w, cx, cy);
    }

    lemma WindowCell(i: nat, x: int, y: int)
      requires Valid() && i < |characters|
      requires characters[i].x - 4 <= x <= characters[i].x + 4 && characters[i].y - 4 <= y <= characters[i].y + 4
      ensures 0 <= Index(w, x, y) < grid.Length && grid[Index(w, x, y)].x == x && grid[Index(w, x, y)].y == y
    {
      Read(model, i);
      WindowInside(model, INDENT, i, x, y);
    }

    // ---- requests and newcomers -----------------------------------------------------------

    /** gfunc_go; the reply reports a missing, an unknown or an impossible direction. */
    method GoRequest(i: nat, word: Option<string>) returns (reply: GoReply)
      requires Valid() && i < |characters| && characters[i].isPlayer
      modifies this`model, characters[i]
      ensures Valid() && characters == old(characters)
      ensures Enabled(old(model), Go(i, word)) && model == Apply(old(model), Go(i, word))
      ensures i < |model.chars| && reply == ReplyTo(model, model.chars[i], word)
    {
      hide *;
      ghost var m := model;
      Opened();
      Read(m, i);
      GoIs(m, i, word);
      if word.None? {
        return NoDirection;
      }
      var direction := GoDirection(word.value);
      if direction.None? {
        return UnknownDirection;
      }
      Wish(i, direction.value, characters[i].aggression, m);
      model := Apply(m, Go(i, word));
      Stays(m);
      Read(model, i);
      var d := MoveToTarget(i, model);
      StepOfPlayer(model, model.chars[i]);
      reply := if d == Nowhere then CannotGo else Accepted;
    }

    static lemma GoIs(m: World, i: nat, word: Option<string>)
      requires Inv(m) && Ready(m) && i < |m.chars| && m.chars[i].isPlayer
      ensures Enabled(m, Go(i, word))
      ensures var t := Apply(m, Go(i, word));
              && Inv(t) && Ready(t) && SameTerrain(m.cells, t.cells) && |t.chars| == |m.chars|
              && TargetKnown(t, t.chars[i]) && t.chars[i].isPlayer
              && (word.None? || GoDirection(word.value).None? ==> t == m)
              && (word.Some? && GoDirection(word.value).Some? ==>
                    && t == m.With(i, m.chars[i].(nextStep := GoDirection(word.value).value,
                                                  aggression := m.chars[i].aggression))
                    && t.chars[i].nextStep == GoDirection(word.value).value && t.chars[i].nextStep != Nowhere)
      ensures word.None? ==> ReplyTo(m, m.chars[i], word) == NoDirection
      ensures word.Some? && GoDirection(word.value).None? ==> ReplyTo(m, m.chars[i], word) == UnknownDirection
      ensures word.Some? && GoDirection(word.value).Some? ==>
                var c := Apply(m, Go(i, word)).chars[i];
                ReplyTo(Apply(m, Go(i, word)), c, word) ==
                if Apply(m, Go(i, word)).Free(c.x + c.nextStep.Dx(), c.y + c.nextStep.Dy()) then Accepted else CannotGo
    {
      ApplyKeeps(m, Go(i, word));
      var t := Apply(m, Go(i, word));
      assert TargetKnown(t, t.chars[i]);
    }

    static lemma StepOfPlayer(m: World, c: Char)
      requires TargetKnown(m, c) && c.isPlayer
      ensures StepOf(m, c) == if m.Free(c.x + c.nextStep.Dx(), c.y + c.nextStep.Dy()) then c.nextStep else Nowhere
    {
    }

    /** query_text: the first message of a player is its name; it wakes the character. */
    method NameGiven(i: nat)
      requires Valid() && i < |characters| && characters[i].isPlayer
      modifies this`model, characters[i]
      ensures Valid() && characters == old(characters)
      ensures Enabled(old(model), Named(i)) && model == Apply(old(model), Named(i))
    {
      ghost var m := model;
      Read(m, i);
      ApplyKeeps(m, Named(i));
      Wish(i, characters[i].nextStep, true, m);
      model := Apply(m, Named(i));
      Stays(m);
    }

    /** character_new and character_add on a free cell. */
    method Add(x: int, y: int, race: Race, lvl: int, stepTime: int, isPlayer: bool)
      requires Valid() && FreeCell(x, y) && lvl >= 1
      modifies this, grid
      ensures Valid() && |characters| == |old(characters)| + 1 && characters[..|old(characters)|] == old(characters)
      ensures fresh(characters[|old(characters)|])
      ensures var e := Join(x, y, race, lvl, stepTime, isPlayer);
              Enabled(old(model), e) && model == Apply(old(model), e)
    {
      ghost var m := model;
      ghost var e := Join(x, y, race, lvl, stepTime, isPlayer);
      FreeCellMeaning(m, x, y);
      ApplyKeeps(m, e);
      var c := new Character(x, y, race, lvl, stepTime, isPlayer);
      c.aggression := !isPlayer;
      c.id := |characters|;
      characters := characters + [c];
      ghost var more := m.(chars := m.chars + [Newcomer(e)]);
      Appended(m, c, Newcomer(e));
      SetOccupant(x, y, if isPlayer then Player else Enemy, more);
      model := Apply(m, e);
      Stays(m);
    }

    twostate lemma Appended(m: World, new c: Character, new v: Char)
      requires old(Mirrors(m)) && characters == old(characters) + [c] && grid[..] == old(grid[..])
      requires forall j :: 0 <= j < |old(characters)| ==> unchanged(old(characters)[j])
      requires c.id == |old(characters)| && c.Shows(v) && v.target == None && c.target == null
      ensures Mirrors(m.(chars := m.chars + [v]))
    {
      var n := m.(chars := m.chars + [v]);
      forall i | 0 <= i < |characters|
        ensures characters[i].id == i && characters[i].Shows(n.chars[i]) && characters[i].Points(n.chars[i], characters)
      {
        if i < |old(characters)| {
          assert old(characters[i].Shows(m.chars[i]) && characters[i].Points(m.chars[i], characters));
        }
      }
    }

    // ---- game_tick ------------------------------------------------------------------------

    /** game_tick: one turn for each character in order. */
    method RunTick(inputs: nat -> Inputs)
      requires Valid()
      modifies this`model, grid, characters
      ensures Valid() && characters == old(characters)
      ensures Run(old(model), TickEvents(|characters|, inputs), model)
    {
      hide *;
      NoTicks(model, inputs);
      for i := 0 to |characters|
        invariant Valid() && characters == old(characters)
        invariant Run(old(model), TickEvents(i, inputs), model)
      {
        ghost var before := model;
        Opened();
        var seen := TurnAndScan(i, inputs(i));
        OneMoreTick(old(model), before, i, inputs);
      }
    }
  }

  lemma NoTicks(s: World, inputs: nat -> Inputs)
    ensures Run(s, TickEvents(0, inputs), s)
  {
  }

  lemma OneMoreTick(s: World, t: World, i: nat, inputs: nat -> Inputs)
    requires Run(s, TickEvents(i, inputs), t) && i < |t.chars| && Ready(t)
    ensures Run(s, TickEvents(i + 1, inputs), Turn(t, i, inputs(i)))
  {
    RunThen(s, TickEvents(i, inputs), t, Tick(i, inputs(i)));
    assert TickEvents(i + 1, inputs) == TickEvents(i, inputs) + [Tick(i, inputs(i))];
  }

  /** The events of one game_tick over n characters. */
  ghost function TickEvents(n: nat, inputs: nat -> Inputs): seq<Event> {
    seq(n, i requires 0 <= i < n => Tick(i, inputs(i)))
  }

  datatype GoReply = NoDirection | UnknownDirection | CannotGo | Accepted

  /** Where the pair of column a and row b of the window starts in the reply. */
  function Pair(a: int, b: int): int {
    2 * (9 * a + b)
  }

  /** What gfunc_go answers a player whose wish has just been recorded. */
  function ReplyTo(s: World, c: Char, word: Option<string>): GoReply {
    if word.None? then NoDirection
    else if GoDirection(word.value).None? then UnknownDirection
    else if s.Free(c.x + c.nextStep.Dx(), c.y + c.nextStep.Dy()) then Accepted
    else CannotGo
  }

  /** The pair for column a and row b shows the cell at (cx - 4 + a, cy - 4 + b). */
  ghost predicate Encoded(body: seq<int>, cells: seq<MapPoint>, w: nat, cx: int, cy: int, a: int, b: int)
    requires |body| == 162 && 0 <= a < 9 && 0 <= b < 9
  {
    var at := Index(w, cx - 4 + a, cy - 4 + b);
    && 0 <= at < |cells| && cells[at].x == cx - 4 + a && cells[at].y == cy - 4 + b
    && body[Pair(a, b)] == TileCode(cells[at]) && body[Pair(a, b) + 1] == cells[at].childObjectType.Code()
  }

  ghost predicate EncodedTo(body: seq<int>, cells: seq<MapPoint>, w: nat, cx: int, cy: int, a: int, b: int) {
    && |body| == 162
    && forall p, q ::
         0 <= p < 9 && 0 <= q < 9 && (p < a || (p == a && q < b)) ==> Encoded(body, cells, w, cx, cy, p, q)
  }

  /** The reply holds the whole 9x9 window around (cx, cy). */
  ghost predicate WindowEncoded(body: seq<int>, cells: seq<MapPoint>, w: nat, cx: int, cy: int) {
    && |body| == 162
    && forall p, q :: 0 <= p < 9 && 0 <= q < 9 ==> Encoded(body, cells, w, cx, cy, p, q)
  }

  lemma EncodeStart(body: seq<int>, cells: seq<MapPoint>, w: nat, cx: int, cy: int)
    requires |body| == 162
    ensures Pair(0, 0) == 0 && EncodedTo(body, cells, w, cx, cy, 0, 0)
  {
  }

  lemma EncodeNext(body: seq<int>, cells: seq<MapPoint>, w: nat, cx: int, cy: int, a: int, b: int)
    requires 0 <= a < 9 && 0 <= b < 9 && EncodedTo(body, cells, w, cx, cy, a, b)
    requires var at := Index(w, cx - 4 + a, cy - 4 + b);
             0 <= at < |cells| && cells[at].x == cx - 4 + a && cells[at].y == cy - 4 + b
    ensures 0 <= Pair(a, b) < Pair(a, b) + 1 < |body| == 162 && Pair(a, b + 1) == Pair(a, b) + 2
    ensures var c := cells[Index(w, cx - 4 + a, cy - 4 + b)];
            EncodedTo(body[Pair(a, b) := TileCode(c)][Pair(a, b) + 1 := c.childObjectType.Code()], cells, w, cx, cy, a,
                      b + 1)
  {
    var c := cells[Index(w, cx - 4 + a, cy - 4 + b)];
    var next := body[Pair(a, b) := TileCode(c)][Pair(a, b) + 1 := c.childObjectType.Code()];
    forall p, q | 0 <= p < 9 && 0 <= q < 9 && (p < a || (p == a && q < b + 1))
      ensures Encoded(next, cells, w, cx, cy, p, q)
    {
      if (p, q) != (a, b) {
        assert Encoded(body, cells, w, cx, cy, p, q);
        assert Pair(p, q) + 1 < Pair(a, b);
      }
    }
  }

  lemma EncodeRow(body: seq<int>, cells: seq<MapPoint>, w: nat, cx: int, cy: int, a: int)
    requires EncodedTo(body, cells, w, cx, cy, a, 9)
    ensures Pair(a, 9) == Pair(a + 1, 0) && EncodedTo(body, cells, w, cx, cy, a + 1, 0)
  {
  }

  lemma EncodeEnd(body: seq<int>, cells: seq<MapPoint>, w: nat, cx: int, cy: int)
    requires EncodedTo(body, cells, w, cx, cy, 9, 0)
    ensures WindowEncoded(body, cells, w, cx, cy)
  {
  }

  /** What the reply shows of a cell: its surface if something is built there, else its ground. */
  function TileCode(c: MapPoint): nat {
    if c.surface != Empty then c.surface.Code() + GROUND_TYPE_CNT else c.ground.Code()
  }

  /** The code tells built cells from bare ones, which surface is built, and which ground is bare. */
  lemma TileCodeFaithful(c: MapPoint, d: MapPoint)
    requires TileCode(c) == TileCode(d)
    ensures c.surface == d.surface && (c.surface == Empty ==> c.ground == d.ground)
  {
  }
}
