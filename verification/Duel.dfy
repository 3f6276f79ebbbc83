/** The bounds of Combat.KnockOut cannot be improved: runs that reach them. */
module Duel {
  import opened Options
  import opened Grid
  import opened World
  import opened Ticks
  import opened TickChase
  import opened Combat
  import opened Hunt

  /** A character whose every turn is due at time 1. */
  predicate Eager(c: Char) {
    c.aggression && c.stepTime == 0 && c.stepStartTime == 0 && !c.isPlayer
  }

  predicate Prompt(inputs: seq<Inputs>) {
    forall k :: 0 <= k < |inputs| ==> inputs[k].now == 1 && inputs[k].stepNow == 0
  }

  lemma ActStaysEager(a: World, i: nat, roll: nat)
    requires i < |a.chars| && TargetKnown(a, a.chars[i]) && Fightable(a) && a.chars[i].target != Some(i)
    requires Eager(a.chars[i])
    ensures |Landed(Acted(a, i, roll), i).chars| == |a.chars| && Eager(Landed(Acted(a, i, roll), i).chars[i])
  {
  }

  lemma EagerDue(c: Char, input: Inputs)
    requires Eager(c) && input.now == 1
    ensures !c.Idle(input.now)
  {
  }

  lemma AimedEager(c: Char, d: Char, heading: Direction, t: nat)
    requires Eager(c) && d == c.(target := Some(t), nextStep := heading, stepStartTime := 0)
    ensures Eager(d)
  {
  }

  /** An eager bot beside its foe is always due. */
  lemma {:induction false} DuelDue(s: World, i: nat, t: nat, inputs: seq<Inputs>)
    requires Inv(s) && Ready(s) && Hunts(s, i, t) && Gap(s, i, t) == 1 && Eager(s.chars[i]) && Prompt(inputs)
    ensures AlwaysDue(s, i, inputs)
    decreases |inputs|
  {
    hide Turn, Aimed, Acted, Landed, Inv, Ready, Hunts, Gap, Heading, Eager, Fightable, TargetKnown;
    if inputs != [] {
      var input := inputs[0];
      HuntsInRange(s, i, t);
      EagerDue(s.chars[i], input);
      StayBeside(s, i, t, input);
      TurnUnfolds(s, i, input);
      AimsAtFoe(s, i, t, input.stepNow);
      var a := Aimed(s, i, input.stepNow);
      AimedEager(s.chars[i], a.chars[i], Heading(s, i, t), t);
      ActStaysEager(a, i, input.roll);
      DuelDue(Turn(s, i, inputs[0]), i, t, inputs[1..]);
    }
  }

  // ---- two characters side by side --------------------------------------------------------

  function Bot(l: nat): Char {
    NewChar(0, 0, Beast, l, 0, false).(aggression := true)
  }

  function Victim(l: nat): Char {
    NewChar(1, 0, Human, l, 0, false)
  }

  /** The smallest map for a fight. */
  function Arena(l: nat): World {
    World(2, 1, [MapPoint(0, 0, Soil, Empty, Enemy, 0, 0), MapPoint(1, 0, Soil, Empty, Enemy, 0, 0)],
          [Bot(l), Victim(l)])
  }

  lemma ArenaStands(l: nat)
    requires l >= 1
    ensures var s := Arena(l);
            && Inv(s) && Ready(s) && Hunts(s, 0, 1) && Gap(s, 0, 1) == 1 && Eager(s.chars[0])
            && Levelled(s, l) && s.chars[1].hp == 100 * l
  {
    var s := Arena(l);
    ArenaPlaced(l);
    assert Sound(s) by {
      assert SoundChar(s, s.chars[0]) && SoundChar(s, s.chars[1]);
    }
    SoundIsReady(s);
  }

  lemma FirstRow(x: int)
    ensures Index(2, x, 0) == x
  {
  }

  lemma ArenaShaped(l: nat)
    ensures Shaped(Arena(l).cells, 2, 1) && |Arena(l).cells| == 2
  {
    assert Shaped([MapPoint(0, 0, Soil, Empty, Enemy, 0, 0), MapPoint(1, 0, Soil, Empty, Enemy, 0, 0)], 2, 1);
  }

  lemma MarkedInMap(s: World, x: int, y: int)
    requires Shaped(s.cells, s.w, s.h) && Occ(s, x, y) != Nothing
    ensures 0 <= x < s.w && 0 <= y < s.h
  {
    hide Shaped, Index;
  }

  lemma CellMeans(s: World, x: int, y: int, k: int)
    requires Shaped(s.cells, s.w, s.h) && s.InMap(x, y) && k == Index(s.w, x, y) && 0 <= k < |s.cells|
    ensures Occ(s, x, y) == s.cells[k].childObjectType
    ensures s.cells[k].surface == Empty && s.cells[k].ground == Soil ==> Walkable(s, x, y)
  {
    hide Shaped, Index;
  }

  lemma ArenaCells(l: nat)
    ensures var s := Arena(l);
            && Shaped(s.cells, s.w, s.h)
            && Walkable(s, 0, 0) && Walkable(s, 1, 0) && Occ(s, 0, 0) == Enemy && Occ(s, 1, 0) == Enemy
            && forall x, y {:trigger Occ(s, x, y)} :: Occ(s, x, y) != Nothing ==> 0 <= x < 2 && y == 0
  {
    var s := Arena(l);
    ArenaShaped(l);
    FirstRow(0);
    FirstRow(1);
    hide Shaped, Occ, Walkable, Index, Bot, Victim;
    CellMeans(s, 0, 0, 0);
    CellMeans(s, 1, 0, 1);
    forall x, y {:trigger Occ(s, x, y)} | Occ(s, x, y) != Nothing
      ensures 0 <= x < 2 && y == 0
    {
      MarkedInMap(s, x, y);
    }
  }

  lemma ArenaPlaced(l: nat)
    ensures Placed(Arena(l))
  {
    var s := Arena(l);
    ArenaCells(l);
    hide Occ, Walkable, Shaped;
    assert s.chars == [Bot(l), Victim(l)];
    forall x, y {:trigger Occ(s, x, y)} | Occ(s, x, y) != Nothing
      ensures exists i :: i != -1 && StandsAt(s, i, x, y)
    {
      assert StandsAt(s, x, x, y);
    }
    forall i | 0 <= i < |s.chars|
      ensures Walkable(s, s.chars[i].x, s.chars[i].y) && Occ(s, s.chars[i].x, s.chars[i].y) == s.chars[i].Kind()
    {
      assert i == 0 || i == 1;
    }
  }

  function Round(n: nat, roll: nat): seq<Inputs> {
    seq(n, _ => Inputs(1, 0, roll))
  }

  /** A run of n hits with the same roll. */
  lemma RoundRun(l: nat, n: nat, roll: nat) returns (es: seq<Event>, t: World)
    requires l >= 1
    ensures Run(Arena(l), es, t) && JoinAt(es, l) && Hits(Arena(l), es, 1) == n
    ensures |t.chars| == 2
    ensures n == 13 && roll == 0 ==> t.chars[1].hp == 0
    ensures l > 4 && n == 16 && roll == 2 * l - 1 ==> t.chars[1].hp > 0
  {
    hide *;
    var s, inputs := Arena(l), Round(n, roll);
    ArenaStands(l);
    ArenaChars(l);
    RoundIs(n, roll, l);
    DuelDue(s, 0, 1, inputs);
    HuntTight(s, 0, 1, l, inputs);
    es, t := TickEvents(0, inputs), Turns(s, 0, inputs);
  }

  lemma ArenaChars(l: nat)
    ensures |Arena(l).chars| == 2 && Arena(l).chars[0].lvl == l && Arena(l).chars[1].lvl == l
  {
  }

  lemma RoundIs(n: nat, roll: nat, l: nat)
    ensures |Round(n, roll)| == n && Rolls(Round(n, roll)) == seq(n, _ => roll) && Prompt(Round(n, roll))
    ensures JoinAt(TickEvents(0, Round(n, roll)), l)
  {
  }

  /** For every level some run brings a character at full health to 0 hp with 13 hits. */
  lemma ThirteenCanDo(l: nat) returns (es: seq<Event>, t: World)
    requires l >= 1
    ensures Inv(Arena(l)) && Levelled(Arena(l), l) && Arena(l).chars[1].hp == 100 * l
    ensures Run(Arena(l), es, t) && JoinAt(es, l) && Hits(Arena(l), es, 1) == 13
    ensures |t.chars| == 2 && t.chars[1].hp == 0
  {
    ArenaStands(l);
    hide *;
    es, t := RoundRun(l, 13, 0);
  }

  /** From level 5 on some run has 16 hits and leaves it alive: no smaller range than 13 to 17 is right for
      all runs. */
  lemma SixteenNeedNot(l: nat) returns (es: seq<Event>, t: World)
    requires l > 4
    ensures Inv(Arena(l)) && Levelled(Arena(l), l) && Arena(l).chars[1].hp == 100 * l
    ensures Run(Arena(l), es, t) && JoinAt(es, l) && Hits(Arena(l), es, 1) == 16
    ensures |t.chars| == 2 && t.chars[1].hp > 0
  {
    ArenaStands(l);
    hide *;
    es, t := RoundRun(l, 16, 2 * l - 1);
  }
}
