/** What every run of the tick machine keeps: ticks of single characters interleaved with player
    requests and newcomers, in any order. */
module Ticks {
  import opened Options
  import opened Grid
  import opened World
  import opened Movement

  // ---- places -----------------------------------------------------------------------------

  ghost predicate Walkable(s: World, x: int, y: int)
    requires Shaped(s.cells, s.w, s.h)
  {
    && s.InMap(x, y)
    && 0 <= Index(s.w, x, y) < |s.cells|
    && s.cells[Index(s.w, x, y)].surface != Wall && s.cells[Index(s.w, x, y)].ground.Land()
  }

  /** Who stands on a cell according to the map. */
  ghost function Occ(s: World, x: int, y: int): Occupant
    requires Shaped(s.cells, s.w, s.h)
  {
    if s.InMap(x, y) && 0 <= Index(s.w, x, y) < |s.cells| then s.cells[Index(s.w, x, y)].childObjectType else Nothing
  }

  ghost predicate StandsAt(s: World, i: int, x: int, y: int) {
    0 <= i < |s.chars| && s.chars[i].x == x && s.chars[i].y == y
  }

  /** Map and characters agree, leaving out character `out` (-1: nobody): everybody stands alone on a
      walkable cell marked with the right kind, and no other cell is marked. */
  ghost predicate PlacedBut(s: World, out: int) {
    && Shaped(s.cells, s.w, s.h)
    && (forall i :: 0 <= i < |s.chars| && i != out ==>
          && Walkable(s, s.chars[i].x, s.chars[i].y)
          && Occ(s, s.chars[i].x, s.chars[i].y) == s.chars[i].Kind())
    && (forall i, j :: 0 <= i < |s.chars| && 0 <= j < |s.chars| && i != j && i != out && j != out ==>
          (s.chars[i].x, s.chars[i].y) != (s.chars[j].x, s.chars[j].y))
    && (forall x, y {:trigger Occ(s, x, y)} :: Occ(s, x, y) != Nothing ==> exists i :: i != out && StandsAt(s, i, x, y))
  }

  ghost predicate Placed(s: World) {
    PlacedBut(s, -1)
  }

  lemma FreeMeaning(s: World, x: int, y: int)
    requires Shaped(s.cells, s.w, s.h)
    ensures s.Free(x, y) <==> Walkable(s, x, y) && Occ(s, x, y) == Nothing
  {
  }

  lemma PutEffect(s: World, x: int, y: int, who: Occupant)
    requires Shaped(s.cells, s.w, s.h) && s.InMap(x, y)
    ensures var t := s.Put(x, y, who);
            && t.w == s.w && t.h == s.h && t.chars == s.chars && Shaped(t.cells, t.w, t.h)
            && SameTerrain(s.cells, t.cells)
            && (forall px, py {:trigger Walkable(t, px, py)} :: Walkable(t, px, py) <==> Walkable(s, px, py))
            && (forall px, py {:trigger Occ(t, px, py)} ::
                  Occ(t, px, py) == if (px, py) == (x, y) then who else Occ(s, px, py))
  {
    IndexInRange(s.w, s.h, x, y);
    var t := s.Put(x, y, who);
    forall px, py {:trigger Occ(t, px, py)}
      ensures Occ(t, px, py) == if (px, py) == (x, y) then who else Occ(s, px, py)
    {
      if s.InMap(px, py) && Index(s.w, px, py) == Index(s.w, x, y) {
        IndexInjective(s.w, px, py, x, y);
      }
    }
  }

  /** Only occupants differ. */
  ghost predicate SameTerrain(a: seq<MapPoint>, b: seq<MapPoint>) {
    |a| == |b| && forall i :: 0 <= i < |a| ==> b[i] == a[i].(childObjectType := b[i].childObjectType)
  }

  // ---- characters -------------------------------------------------------------------------

  function BasePower(r: Race): int { if r == Human then 10 else 13 }

  function BaseArmor(r: Race): int { if r == Human then 5 else 2 }

  /** character_new: race decides the base values, the level multiplies them. */
  function NewChar(x: int, y: int, race: Race, lvl: int, stepTime: int, isPlayer: bool): Char {
    Char(x, y, race, lvl, BasePower(race) * lvl, BaseArmor(race) * lvl, 2 * lvl, 100 * lvl,
         isPlayer, None, false, Nowhere, stepTime, 0)
  }

  ghost predicate SoundChar(s: World, c: Char) {
    && c.lvl >= 1
    && c.power == BasePower(c.race) * c.lvl && c.armor == BaseArmor(c.race) * c.lvl && c.evasion == 2 * c.lvl
    && 0 <= c.hp <= 100 * c.lvl
    && (c.target.Some? ==> c.target.value < |s.chars| && s.chars[c.target.value].race != c.race)
  }

  /** Level-scaled characteristics, hp between 0 and full, and every target of the other race. */
  ghost predicate Sound(s: World) {
    forall i :: 0 <= i < |s.chars| ==> SoundChar(s, s.chars[i])
  }

  ghost predicate Inv(s: World) {
    Placed(s) && Sound(s)
  }

  lemma SoundIsReady(s: World)
    requires Sound(s)
    ensures Ready(s)
  {
    forall j | 0 <= j < |s.chars|
      ensures s.chars[j].evasion > 0 && TargetKnown(s, s.chars[j])
    {
      assert SoundChar(s, s.chars[j]);
    }
  }

  // ---- one turn keeps the places ----------------------------------------------------------

  /** Character i may be put down: its cell is walkable, unmarked and nobody else's. */
  ghost predicate CanLand(s: World, i: int)
    requires Shaped(s.cells, s.w, s.h) && 0 <= i < |s.chars|
  {
    && Walkable(s, s.chars[i].x, s.chars[i].y)
    && Occ(s, s.chars[i].x, s.chars[i].y) == Nothing
  }

  lemma Lift(s: World, i: nat)
    requires Placed(s) && i < |s.chars|
    ensures var t := s.Put(s.chars[i].x, s.chars[i].y, Nothing);
            PlacedBut(t, i) && CanLand(t, i) && SameTerrain(s.cells, t.cells) && t.chars == s.chars && t.w == s.w
                && t.h == s.h
  {
    PutEffect(s, s.chars[i].x, s.chars[i].y, Nothing);
    var t := s.Put(s.chars[i].x, s.chars[i].y, Nothing);
    forall x, y {:trigger Occ(t, x, y)} | Occ(t, x, y) != Nothing
      ensures exists j :: j != i && StandsAt(t, j, x, y)
    {
      assert Occ(s, x, y) != Nothing;
      var j :| j != -1 && StandsAt(s, j, x, y);
      assert StandsAt(t, j, x, y);
    }
  }

  /** Same cells, and same places and kinds of all characters but `out`. */
  ghost predicate SamePlaces(s: World, t: World, out: int) {
    && s.w == t.w && s.h == t.h && s.cells == t.cells && |s.chars| == |t.chars|
    && forall j :: 0 <= j < |s.chars| && j != out ==>
         s.chars[j].x == t.chars[j].x && s.chars[j].y == t.chars[j].y && s.chars[j].isPlayer == t.chars[j].isPlayer
  }

  lemma SamePlacesKeep(s: World, t: World, out: int)
    requires PlacedBut(s, out) && SamePlaces(s, t, out)
    ensures PlacedBut(t, out)
    ensures forall x, y {:trigger Walkable(t, x, y)} :: Walkable(t, x, y) <==> Walkable(s, x, y)
    ensures forall x, y {:trigger Occ(t, x, y)} :: Occ(t, x, y) == Occ(s, x, y)
  {
    forall x, y {:trigger Occ(t, x, y)} | Occ(t, x, y) != Nothing
      ensures exists j :: j != out && StandsAt(t, j, x, y)
    {
      assert Occ(s, x, y) == Occ(t, x, y);
      var j :| j != out && StandsAt(s, j, x, y);
      assert StandsAt(t, j, x, y);
    }
  }

  /** Marking the cell of the one character left out, as character_add does. */
  lemma LandPlain(s: World, i: nat)
    requires i < |s.chars| && PlacedBut(s, i) && CanLand(s, i)
    ensures var t := s.Put(s.chars[i].x, s.chars[i].y, s.chars[i].Kind());
            Placed(t) && SameTerrain(s.cells, t.cells) && t.chars == s.chars && t.w == s.w && t.h == s.h
  {
    var c := s.chars[i];
    var t := s.Put(c.x, c.y, c.Kind());
    PutEffect(s, c.x, c.y, c.Kind());
    forall j | 0 <= j < |s.chars| && j != i
      ensures (s.chars[j].x, s.chars[j].y) != (c.x, c.y)
    {
      assert Occ(s, s.chars[j].x, s.chars[j].y) == s.chars[j].Kind();
    }
    forall x, y {:trigger Occ(t, x, y)} | Occ(t, x, y) != Nothing
      ensures exists j :: j != -1 && StandsAt(t, j, x, y)
    {
      if (x, y) == (c.x, c.y) {
        assert StandsAt(t, i, x, y);
      } else {
        assert Occ(s, x, y) != Nothing;
        var j :| j != i && StandsAt(s, j, x, y);
        assert StandsAt(t, j, x, y);
      }
    }
  }

  lemma Land(s: World, i: nat)
    requires i < |s.chars| && PlacedBut(s, i) && CanLand(s, i)
    ensures Placed(Landed(s, i)) && SameTerrain(s.cells, Landed(s, i).cells)
    ensures Landed(s, i).w == s.w && Landed(s, i).h == s.h && |Landed(s, i).chars| == |s.chars|
  {
    var c := s.chars[i];
    LandPlain(s, i);
    SamePlacesKeep(s.Put(c.x, c.y, c.Kind()), Landed(s, i), -1);
  }

  /** The chosen direction is none, or leads onto a free cell. */
  lemma StepIsFree(s: World, c: Char)
    requires TargetKnown(s, c)
    ensures StepOf(s, c) != Nowhere ==> s.Free(c.x + StepOf(s, c).Dx(), c.y + StepOf(s, c).Dy())
  {
    hide BotStep, SumSq;
    if !c.isPlayer && c.target.Some? {
      BotIsGreedy(s, c.x, c.y, s.chars[c.target.value].x, s.chars[c.target.value].y);
    }
  }

  lemma AttackStays(s: World, i: nat, roll: nat)
    requires i < |s.chars| && TargetKnown(s, s.chars[i]) && Fightable(s)
    ensures SamePlaces(s, Attack(s, i, roll), -1)
  {
    hide SumSq, Damage;
  }

  lemma ActKeepsPlaces(s: World, i: nat, roll: nat)
    requires i < |s.chars| && TargetKnown(s, s.chars[i]) && Fightable(s)
    requires PlacedBut(s, i) && CanLand(s, i)
    requires var c := s.chars[i]; c.nextStep != Nowhere ==> s.Free(c.x + c.nextStep.Dx(), c.y + c.nextStep.Dy())
    ensures var t := Acted(s, i, roll);
            PlacedBut(t, i) && CanLand(t, i) && t.cells == s.cells && t.w == s.w && t.h == s.h && |t.chars| == |s.chars|
  {
    if s.chars[i].nextStep == Nowhere {
      AttackStays(s, i, roll);
      SamePlacesKeep(s, Attack(s, i, roll), i);
    } else {
      MoveKeepsPlaces(s, i, roll);
    }
  }

  lemma MoveStays(s: World, i: nat, roll: nat)
    requires i < |s.chars| && TargetKnown(s, s.chars[i]) && Fightable(s) && s.chars[i].nextStep != Nowhere
    ensures var c, t := s.chars[i], Acted(s, i, roll);
            && SamePlaces(s, t, i) && |t.chars| == |s.chars|
            && t.chars[i].x == c.x + c.nextStep.Dx() && t.chars[i].y == c.y + c.nextStep.Dy()
  {
  }

  lemma MoveKeepsPlaces(s: World, i: nat, roll: nat)
    requires i < |s.chars| && TargetKnown(s, s.chars[i]) && Fightable(s) && PlacedBut(s, i)
    requires var c := s.chars[i]; c.nextStep != Nowhere && s.Free(c.x + c.nextStep.Dx(), c.y + c.nextStep.Dy())
    ensures var t := Acted(s, i, roll);
            PlacedBut(t, i) && CanLand(t, i) && t.cells == s.cells && t.w == s.w && t.h == s.h && |t.chars| == |s.chars|
  {
    var c, t := s.chars[i], Acted(s, i, roll);
    var x, y := c.x + c.nextStep.Dx(), c.y + c.nextStep.Dy();
    MoveStays(s, i, roll);
    hide Acted, World.Free, Direction.Dx, Direction.Dy, Fightable, TargetKnown;
    FreeMeaning(s, x, y);
    SamePlacesKeep(s, t, i);
    assert Walkable(t, x, y) && Occ(t, x, y) == Nothing;
  }

  lemma AimedPlaces(s: World, i: nat, stepNow: int)
    requires i < |s.chars| && Ready(s)
    ensures var t, lifted := Aimed(s, i, stepNow), s.Put(s.chars[i].x, s.chars[i].y, Nothing);
            && SamePlaces(lifted, t, i) && lifted.chars == s.chars
            && t.chars[i].x == s.chars[i].x && t.chars[i].y == s.chars[i].y
  {
    RetargetedKnows(s, i);
  }

  lemma AimedChar(s: World, i: nat, stepNow: int)
    requires i < |s.chars| && Ready(s)
    ensures var r, t := Retargeted(s, i), Aimed(s, i, stepNow);
            && |r.chars| == |t.chars| == |s.chars| && TargetKnown(r, r.chars[i])
            && SamePlaces(r, t, -1) && t.chars[i].nextStep == StepOf(r, r.chars[i])
  {
    RetargetedKnows(s, i);
  }

  lemma FreeOnSameMap(s: World, t: World, x: int, y: int, out: int)
    requires SamePlaces(s, t, out)
    ensures s.Free(x, y) <==> t.Free(x, y)
  {
  }

  lemma AimedStepIsFree(s: World, i: nat, stepNow: int)
    requires i < |s.chars| && Ready(s)
    ensures var t := Aimed(s, i, stepNow); i < |t.chars| && var c := t.chars[i];
            c.nextStep != Nowhere ==> t.Free(c.x + c.nextStep.Dx(), c.y + c.nextStep.Dy())
  {
    hide *;
    var r, t := Retargeted(s, i), Aimed(s, i, stepNow);
    AimedChar(s, i, stepNow);
    StepIsFree(r, r.chars[i]);
    var d := t.chars[i].nextStep;
    SamePlace(r, t, i);
    FreeOnSameMap(r, t, t.chars[i].x + d.Dx(), t.chars[i].y + d.Dy(), -1);
  }

  lemma SamePlace(s: World, t: World, i: nat)
    requires SamePlaces(s, t, -1) && i < |s.chars|
    ensures s.chars[i].x == t.chars[i].x && s.chars[i].y == t.chars[i].y
  {
  }

  lemma AimKeepsPlaces(s: World, i: nat, stepNow: int)
    requires i < |s.chars| && Ready(s) && Placed(s)
    ensures var t := Aimed(s, i, stepNow);
            && |t.chars| == |s.chars| && t.w == s.w && t.h == s.h
            && PlacedBut(t, i) && CanLand(t, i) && SameTerrain(s.cells, t.cells)
  {
    var t, lifted := Aimed(s, i, stepNow), s.Put(s.chars[i].x, s.chars[i].y, Nothing);
    AimedPlaces(s, i, stepNow);
    Lift(s, i);
    SamePlacesKeep(lifted, t, i);
  }

  lemma TurnKeepsPlaces(s: World, i: nat, input: Inputs)
    requires i < |s.chars| && Ready(s) && Placed(s)
    ensures var t := Turn(s, i, input);
            Placed(t) && SameTerrain(s.cells, t.cells) && t.w == s.w && t.h == s.h && |t.chars| == |s.chars|
  {
    hide *;
    TurnUnfolds(s, i, input);
    TerrainReflexive(s.cells);
    if !s.chars[i].Idle(input.now) {
      var a := Aimed(s, i, input.stepNow);
      AimedReady(s, i, input.stepNow);
      AimKeepsPlaces(s, i, input.stepNow);
      AimedStepIsFree(s, i, input.stepNow);
      ActKeepsPlaces(a, i, input.roll);
      var b := Acted(a, i, input.roll);
      Land(b, i);
      TerrainTrans(s.cells, b.cells, Landed(b, i).cells);
    }
  }

  lemma TurnUnfolds(s: World, i: nat, input: Inputs)
    requires i < |s.chars| && Ready(s)
    ensures |Aimed(s, i, input.stepNow).chars| == |s.chars|
    ensures TargetKnown(Aimed(s, i, input.stepNow), Aimed(s, i, input.stepNow).chars[i])
            && Fightable(Aimed(s, i, input.stepNow))
    ensures |Acted(Aimed(s, i, input.stepNow), i, input.roll).chars| == |s.chars|
    ensures Turn(s, i, input) == if s.chars[i].Idle(input.now) then s
                                 else Landed(Acted(Aimed(s, i, input.stepNow), i, input.roll), i)
  {
    AimedReady(s, i, input.stepNow);
  }

  lemma TerrainReflexive(a: seq<MapPoint>)
    ensures SameTerrain(a, a)
  {
  }

  lemma TerrainTrans(a: seq<MapPoint>, b: seq<MapPoint>, c: seq<MapPoint>)
    requires SameTerrain(a, b) && SameTerrain(b, c)
    ensures SameTerrain(a, c)
  {
  }

  // ---- one turn keeps the characters sound ------------------------------------------------

  /** Nobody vanishes, changes race, level or kind, or gains hp. */
  ghost predicate Aged(s: World, t: World) {
    && |s.chars| <= |t.chars|
    && forall j :: 0 <= j < |s.chars| ==>
         && t.chars[j].race == s.chars[j].race && t.chars[j].lvl == s.chars[j].lvl
         && t.chars[j].isPlayer == s.chars[j].isPlayer && t.chars[j].hp <= s.chars[j].hp
  }

  /** Replacing characters by sound ones of the same race keeps all sound. */
  lemma ReplaceSound(s: World, i: nat, c: Char)
    requires Sound(s) && i < |s.chars| && SoundChar(s, c)
    requires c.race == s.chars[i].race && c.lvl == s.chars[i].lvl && c.isPlayer == s.chars[i].isPlayer
             && c.hp <= s.chars[i].hp
    ensures Sound(s.With(i, c)) && Aged(s, s.With(i, c))
  {
    var t := s.With(i, c);
    forall j | 0 <= j < |t.chars|
      ensures SoundChar(t, t.chars[j])
    {
      assert SoundChar(s, s.chars[j]);
    }
  }

  lemma PutSound(s: World, x: int, y: int, who: Occupant)
    requires Sound(s)
    ensures Sound(s.Put(x, y, who)) && s.Put(x, y, who).chars == s.chars
  {
    var t := s.Put(x, y, who);
    forall j | 0 <= j < |t.chars|
      ensures SoundChar(t, t.chars[j])
    {
      assert SoundChar(s, s.chars[j]);
    }
  }

  lemma AimSound(s: World, i: nat, stepNow: int)
    requires i < |s.chars| && Ready(s) && Sound(s)
    ensures Sound(Aimed(s, i, stepNow)) && Aged(s, Aimed(s, i, stepNow))
  {
    var lifted := s.Put(s.chars[i].x, s.chars[i].y, Nothing);
    PutSound(s, s.chars[i].x, s.chars[i].y, Nothing);
    NearestFoeMeaning(lifted, i, |s.chars|);
    assert SoundChar(lifted, lifted.chars[i]);
    var r := Retargeted(s, i);
    ReplaceSound(lifted, i, r.chars[i]);
    RetargetedKnows(s, i);
    assert SoundChar(r, r.chars[i]);
    ReplaceSound(r, i, Aimed(s, i, stepNow).chars[i]);
    AgedTrans(s, r, Aimed(s, i, stepNow));
  }

  lemma DamageBounds(a: Char, t: Char, roll: nat)
    requires t.evasion > 0 && t.hp >= 0
    ensures 0 <= HpAfter(a, t, roll) <= t.hp
  {
  }

  lemma AttackSound(s: World, i: nat, roll: nat)
    requires i < |s.chars| && Ready(s) && Sound(s)
    ensures Sound(Attack(s, i, roll)) && Aged(s, Attack(s, i, roll))
  {
    var c := s.chars[i];
    assert SoundChar(s, c) && TargetKnown(s, c);
    if c.target.Some? && Dist(c, s.chars[c.target.value]) < 4 {
      var k := c.target.value;
      var t := s.chars[k];
      assert SoundChar(s, t);
      DamageBounds(c, t, roll);
      var hp := HpAfter(c, t, roll);
      var hit := s.With(k, t.(hp := hp, target := Some(i), aggression := true));
      ReplaceSound(s, k, hit.chars[k]);
      if hp <= 0 {
        assert SoundChar(hit, hit.chars[i]);
        ReplaceSound(hit, i, hit.chars[i].(target := None));
      }
    }
  }

  lemma ActSound(s: World, i: nat, roll: nat)
    requires i < |s.chars| && Ready(s) && Sound(s) && TargetKnown(s, s.chars[i])
    ensures Sound(Acted(s, i, roll)) && Aged(s, Acted(s, i, roll))
  {
    if s.chars[i].nextStep == Nowhere {
      AttackSound(s, i, roll);
    } else {
      assert SoundChar(s, s.chars[i]);
      ReplaceSound(s, i, Acted(s, i, roll).chars[i]);
    }
  }

  lemma LandSound(s: World, i: nat)
    requires i < |s.chars| && Sound(s)
    ensures Sound(Landed(s, i)) && Aged(s, Landed(s, i))
  {
    var c := s.chars[i];
    PutSound(s, c.x, c.y, c.Kind());
    assert SoundChar(s, c);
    ReplaceSound(s.Put(c.x, c.y, c.Kind()), i, Landed(s, i).chars[i]);
  }

  lemma AgedTrans(s: World, t: World, u: World)
    requires Aged(s, t) && Aged(t, u)
    ensures Aged(s, u)
  {
  }

  lemma TurnSound(s: World, i: nat, input: Inputs)
    requires i < |s.chars| && Ready(s) && Sound(s)
    ensures Sound(Turn(s, i, input)) && Aged(s, Turn(s, i, input))
  {
    if !s.chars[i].Idle(input.now) {
      AimedReady(s, i, input.stepNow);
      AimSound(s, i, input.stepNow);
      var a := Aimed(s, i, input.stepNow);
      SoundIsReady(a);
      ActSound(a, i, input.roll);
      var b := Acted(a, i, input.roll);
      LandSound(b, i);
      AgedTrans(s, a, b);
      AgedTrans(s, b, Landed(b, i));
    }
  }

  // ---- every run --------------------------------------------------------------------------

  /** gfunc_go: the word a player types; "up" is south and "down" is north in the map's coordinates. */
  function GoDirection(word: string): Option<Direction> {
    if word == "west" || word == "right" then Some(West)
    else if word == "east" || word == "left" then Some(East)
    else if word == "north" || word == "up" then Some(South)
    else if word == "south" || word == "down" then Some(North)
    else None
  }

  datatype Event =
    | Tick(i: nat, input: Inputs)
    | Go(i: nat, word: Option<string>)
    | Named(i: nat)
    | Join(x: int, y: int, race: Race, lvl: int, stepTime: int, isPlayer: bool)

  function Joined(s: World, c: Char): World {
    s.(chars := s.chars + [c]).Put(c.x, c.y, c.Kind())
  }

  /** A newcomer: bots are aggressive from the start, players once they have given their name. */
  function Newcomer(e: Event): Char
    requires e.Join?
  {
    NewChar(e.x, e.y, e.race, e.lvl, e.stepTime, e.isPlayer).(aggression := !e.isPlayer)
  }

  /** Newcomers are put on free cells at a positive level. */
  predicate Enabled(s: World, e: Event) {
    match e
    case Tick(i, _) => i < |s.chars|
    case Go(i, _) => i < |s.chars| && s.chars[i].isPlayer
    case Named(i) => i < |s.chars| && s.chars[i].isPlayer
    case Join(x, y, _, lvl, _, _) => s.Free(x, y) && lvl >= 1
  }

  function Apply(s: World, e: Event): World
    requires Enabled(s, e) && Ready(s)
  {
    match e
    case Tick(i, input) => Turn(s, i, input)
    case Go(i, word) =>
      if word.None? || GoDirection(word.value).None? then s
      else s.With(i, s.chars[i].(nextStep := GoDirection(word.value).value))
    case Named(i) => s.With(i, s.chars[i].(aggression := true))
    case Join(_, _, _, _, _, _) => Joined(s, Newcomer(e))
  }

  lemma JoinKeeps(s: World, c: Char)
    requires Inv(s) && s.Free(c.x, c.y) && SoundChar(s, c) && c.target.None?
    ensures Inv(Joined(s, c)) && Aged(s, Joined(s, c)) && SameTerrain(s.cells, Joined(s, c).cells)
  {
    var more := s.(chars := s.chars + [c]);
    var n := |s.chars|;
    FreeMeaning(s, c.x, c.y);
    forall x, y {:trigger Occ(more, x, y)} | Occ(more, x, y) != Nothing
      ensures exists j :: j != n && StandsAt(more, j, x, y)
    {
      assert Occ(s, x, y) == Occ(more, x, y);
      var j :| j != -1 && StandsAt(s, j, x, y);
      assert StandsAt(more, j, x, y);
    }
    assert PlacedBut(more, n) by {
      forall i | 0 <= i < |more.chars| && i != n
        ensures Walkable(more, more.chars[i].x, more.chars[i].y)
                && Occ(more, more.chars[i].x, more.chars[i].y) == more.chars[i].Kind()
      {
        assert Walkable(s, s.chars[i].x, s.chars[i].y);
      }
    }
    assert CanLand(more, n);
    LandPlain(more, n);
    forall j | 0 <= j < |more.chars|
      ensures SoundChar(more, more.chars[j])
    {
      if j < n {
        assert SoundChar(s, s.chars[j]);
      }
    }
    PutSound(more, c.x, c.y, c.Kind());
  }

  lemma OwnCell(s: World, i: nat, j: nat)
    requires Placed(s) && i < |s.chars| && j < |s.chars|
    ensures Walkable(s, s.chars[i].x, s.chars[i].y)
    ensures i != j ==> (s.chars[i].x, s.chars[i].y) != (s.chars[j].x, s.chars[j].y)
  {
  }

  /** A marked cell has somebody on it. */
  lemma WhoStands(s: World, x: int, y: int) returns (j: nat)
    requires Placed(s) && Occ(s, x, y) != Nothing
    ensures j < |s.chars| && s.chars[j].x == x && s.chars[j].y == y
  {
    var i :| i != -1 && StandsAt(s, i, x, y);
    j := i;
  }

  lemma JoinTerrain(s: World, c: Char)
    requires Shaped(s.cells, s.w, s.h) && s.InMap(c.x, c.y)
    ensures var t := Joined(s, c);
            && t.chars == s.chars + [c] && Shaped(t.cells, t.w, t.h)
            && (Walkable(t, c.x, c.y) ==> Walkable(s, c.x, c.y))
  {
    var more := s.(chars := s.chars + [c]);
    PutEffect(more, c.x, c.y, c.Kind());
    assert Walkable(more, c.x, c.y) <==> Walkable(s, c.x, c.y);
  }

  lemma JoinNeedsFree(s: World, c: Char)
    requires Placed(s) && Placed(Joined(s, c))
    ensures s.Free(c.x, c.y)
  {
    var t, n := Joined(s, c), |s.chars|;
    assert t.chars == s.chars + [c] && t.w == s.w && t.h == s.h;
    assert t.chars[n] == c;
    assert Shaped(s.cells, s.w, s.h);
    hide Joined, Placed, PlacedBut;
    OwnCell(t, n, n);
    JoinTerrain(s, c);
    FreeMeaning(s, c.x, c.y);
    if Occ(s, c.x, c.y) != Nothing {
      var j := WhoStands(s, c.x, c.y);
      OwnCell(t, j, n);
    }
  }

  /** A free cell is exactly what a newcomer needs: anywhere else the map and the characters part. */
  lemma JoinExactly(s: World, c: Char)
    requires Inv(s) && SoundChar(s, c) && c.target.None?
    ensures Inv(Joined(s, c)) <==> s.Free(c.x, c.y)
  {
    hide SoundChar, Joined, Placed, Sound;
    if s.Free(c.x, c.y) {
      JoinKeeps(s, c);
    } else if Inv(Joined(s, c)) {
      JoinNeedsFree(s, c);
    }
  }

  lemma ApplyKeeps(s: World, e: Event)
    requires Inv(s) && Ready(s) && Enabled(s, e)
    ensures var t := Apply(s, e);
            Inv(t) && Ready(t) && Aged(s, t) && SameTerrain(s.cells, t.cells) && t.w == s.w && t.h == s.h
  {
    match e {
      case Tick(i, input) =>
        TurnKeepsPlaces(s, i, input);
        TurnSound(s, i, input);
      case Go(i, word) =>
        assert SoundChar(s, s.chars[i]);
        ReplaceSound(s, i, s.chars[i].(nextStep := if word.None? || GoDirection(word.value).None?
                                       then s.chars[i].nextStep
                                                   else GoDirection(word.value).value));
        SamePlacesKeep(s, Apply(s, e), -1);
      case Named(i) =>
        assert SoundChar(s, s.chars[i]);
        ReplaceSound(s, i, s.chars[i].(aggression := true));
        SamePlacesKeep(s, Apply(s, e), -1);
      case Join(_, _, _, _, _, _) =>
        JoinKeeps(s, Newcomer(e));
    }
    SoundIsReady(Apply(s, e));
  }

  /** t can be reached from s by the events es. */
  ghost predicate Run(s: World, es: seq<Event>, t: World)
    decreases |es|
  {
    if es == [] then t == s
    else Enabled(s, es[0]) && Ready(s) && Run(Apply(s, es[0]), es[1..], t)
  }

  /** Every reachable state: everybody stands on their own walkable cell, the map marks exactly those
      cells with the right kinds, targets are foes, hp never rises and stays non-negative, and the
      terrain never changes. */
  lemma {:induction false} RunKeeps(s: World, es: seq<Event>, t: World)
    requires Inv(s) && Run(s, es, t)
    ensures Inv(t) && Aged(s, t) && SameTerrain(s.cells, t.cells) && t.w == s.w && t.h == s.h
    decreases |es|
  {
    if es != [] {
      var n := Apply(s, es[0]);
      ApplyKeeps(s, es[0]);
      RunKeeps(n, es[1..], t);
    }
  }

  /** Runs compose. */
  lemma {:induction false} RunThen(s: World, es: seq<Event>, t: World, e: Event)
    requires Run(s, es, t) && Enabled(t, e) && Ready(t)
    ensures Run(s, es + [e], Apply(t, e))
    decreases |es|
  {
    if es == [] {
      assert [e][1..] == [] && Run(Apply(t, e), [], Apply(t, e));
    } else {
      assert (es + [e])[1..] == es[1..] + [e];
      RunThen(Apply(s, es[0]), es[1..], t, e);
    }
  }

  // ---- the 9x9 windows --------------------------------------------------------------------

  /** Every cell of the 9x9 window around a character is a cell of the map. */
  lemma WindowInside(s: World, indent: nat, i: nat, x: int, y: int)
    requires Inv(s) && Bordered(s.cells, s.w, s.h, indent) && indent >= 5 && i < |s.chars|
    requires s.chars[i].x - 4 <= x <= s.chars[i].x + 4 && s.chars[i].y - 4 <= y <= s.chars[i].y + 4
    ensures s.InMap(x, y) && 0 <= Index(s.w, x, y) < |s.cells|
    ensures s.cells[Index(s.w, x, y)].x == x && s.cells[Index(s.w, x, y)].y == y
  {
    var c := s.chars[i];
    assert Walkable(s, c.x, c.y);
    CellAt(s.cells, s.w, s.h, c.x, c.y);
    CellAt(s.cells, s.w, s.h, x, y);
  }

  lemma BorderStays(s: World, t: World, indent: nat)
    requires SameTerrain(s.cells, t.cells) && t.w == s.w && t.h == s.h && Bordered(s.cells, s.w, s.h, indent)
    ensures Bordered(t.cells, t.w, t.h, indent)
  {
  }
}
