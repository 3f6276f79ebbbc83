/** What turns do, in plain terms: when they are due, where they lead, what a strike takes, what a request
    leads to, and how far apart a character's turns are over a run. */
module TurnEffects {
  import opened Options
  import opened Grid
  import opened World
  import opened Movement
  import opened Ticks
  import opened TickChase
  import opened Combat

  // ---- what the map shows -----------------------------------------------------------------

  ghost predicate Stands(s: World, player: bool, x: int, y: int) {
    exists i :: 0 <= i < |s.chars| && s.chars[i].isPlayer == player && s.chars[i].x == x && s.chars[i].y == y
  }

  /** A cell is marked with a player exactly when a player stands there, with an enemy exactly when a bot
      does, and otherwise with nobody. */
  lemma MarksExactly(s: World, k: nat)
    requires Inv(s) && k < |s.cells|
    ensures s.cells[k].childObjectType == Player <==> Stands(s, true, s.cells[k].x, s.cells[k].y)
    ensures s.cells[k].childObjectType == Enemy <==> Stands(s, false, s.cells[k].x, s.cells[k].y)
  {
    var x, y := s.cells[k].x, s.cells[k].y;
    assert Occ(s, x, y) == s.cells[k].childObjectType;
    if Occ(s, x, y) != Nothing {
      var j := WhoStands(s, x, y);
      assert Occ(s, s.chars[j].x, s.chars[j].y) == s.chars[j].Kind();
      assert Stands(s, s.chars[j].isPlayer, x, y);
    }
    forall j | 0 <= j < |s.chars| && s.chars[j].x == x && s.chars[j].y == y
      ensures Occ(s, x, y) == if s.chars[j].isPlayer then Player else Enemy
    {
      assert Occ(s, s.chars[j].x, s.chars[j].y) == s.chars[j].Kind();
    }
  }

  // ---- when a turn is due -----------------------------------------------------------------

  /** There is a wish or aggression, and more than the step time has passed. */
  predicate Due(c: Char, now: int) {
    (c.nextStep != Nowhere || c.aggression) && now > c.stepStartTime + c.stepTime
  }

  /** A turn that is not due changes nothing, so a character only acts when it is due. */
  lemma IdleExactly(s: World, i: nat, input: Inputs)
    requires i < |s.chars| && Ready(s)
    ensures s.chars[i].Idle(input.now) <==> !Due(s.chars[i], input.now)
    ensures !Due(s.chars[i], input.now) ==> Turn(s, i, input) == s
  {
    hide Aimed, Acted, Landed;
  }

  // ---- where a turn leads -----------------------------------------------------------------

  lemma FreeLifted(s: World, i: nat, x: int, y: int)
    requires Inv(s) && i < |s.chars| && (x, y) != (s.chars[i].x, s.chars[i].y)
    ensures s.Put(s.chars[i].x, s.chars[i].y, Nothing).Free(x, y) <==> s.Free(x, y)
  {
    var c := s.chars[i];
    assert Walkable(s, c.x, c.y);
    PutEffect(s, c.x, c.y, Nothing);
    FreeMeaning(s, x, y);
    FreeMeaning(s.Put(c.x, c.y, Nothing), x, y);
  }

  lemma AimedPlayer(s: World, i: nat, stepNow: int)
    requires Ready(s) && i < |s.chars| && s.chars[i].isPlayer
    ensures var c := s.chars[i]; var d := c.nextStep;
            Aimed(s, i, stepNow).chars ==
            s.chars[i := c.(stepStartTime := stepNow,
                            nextStep := if s.Put(c.x, c.y, Nothing).Free(c.x + d.Dx(), c.y + d.Dy()) then d
                                else Nowhere)]
  {
    hide World.Free;
    RetargetedKnows(s, i);
    var c, r := s.chars[i], Retargeted(s, i);
    assert r.chars[i] == c && r.chars == s.chars;
    FreeOnMap(r, s.Put(c.x, c.y, Nothing), c.x + c.nextStep.Dx(), c.y + c.nextStep.Dy());
  }

  lemma ActMoves(a: World, i: nat, roll: nat)
    requires i < |a.chars| && TargetKnown(a, a.chars[i]) && Fightable(a) && a.chars[i].nextStep != Nowhere
    ensures var c := a.chars[i]; var moved := c.(x := Cell(c.x, c.y, c.nextStep, 1).0,
                                                 y := Cell(c.x, c.y, c.nextStep, 1).1);
            Landed(Acted(a, i, roll), i).chars ==
            a.chars[i := if c.isPlayer then moved.(nextStep := Nowhere, aggression := false) else moved]
  {
  }

  lemma ActRests(a: World, i: nat, roll: nat)
    requires i < |a.chars| && TargetKnown(a, a.chars[i]) && Fightable(a) && a.chars[i].nextStep == Nowhere
    requires forall k: nat :: !Reaches(a, i, k)
    ensures var c := a.chars[i];
            Landed(Acted(a, i, roll), i).chars ==
            a.chars[i := if c.isPlayer then c.(nextStep := Nowhere, aggression := false) else c]
  {
    var c := a.chars[i];
    if c.target.Some? {
      assert !Reaches(a, i, c.target.value);
    }
  }

  /** A player whose wish leads to a free cell goes there, and rests: no wish and no aggression are left.
      Nobody else changes. */
  lemma PlayerGoes(s: World, i: nat, input: Inputs)
    requires Inv(s) && Ready(s) && i < |s.chars| && s.chars[i].isPlayer && Due(s.chars[i], input.now)
    requires s.chars[i].nextStep != Nowhere
    requires var (x, y) := Cell(s.chars[i].x, s.chars[i].y, s.chars[i].nextStep, 1); s.Free(x, y)
    ensures var c := s.chars[i]; var (x, y) := Cell(c.x, c.y, c.nextStep, 1);
            Turn(s, i, input).chars ==
            s.chars[i := c.(x := x, y := y, nextStep := Nowhere, aggression := false, stepStartTime := input.stepNow)]
  {
    hide *;
    var c := s.chars[i];
    IdleExactly(s, i, input);
    TurnUnfolds(s, i, input);
    AimedPlayer(s, i, input.stepNow);
    CellNext(c.x, c.y, c.nextStep, 0);
    NextCell(c.x, c.y, c.nextStep);
    FreeLifted(s, i, c.x + c.nextStep.Dx(), c.y + c.nextStep.Dy());
    ActMoves(Aimed(s, i, input.stepNow), i, input.roll);
  }

  lemma NextCell(x: int, y: int, d: Direction)
    requires d != Nowhere
    ensures (x + d.Dx(), y + d.Dy()) != (x, y) && Cell(x, y, d, 1) == (x + d.Dx(), y + d.Dy())
  {
  }

  /** A player who cannot go and has nobody to strike within reach only rests. */
  lemma PlayerRests(s: World, i: nat, input: Inputs)
    requires Inv(s) && Ready(s) && i < |s.chars| && s.chars[i].isPlayer && Due(s.chars[i], input.now)
    requires s.chars[i].nextStep == Nowhere ||
             var (x, y) := Cell(s.chars[i].x, s.chars[i].y, s.chars[i].nextStep, 1); !s.Free(x, y)
    requires s.chars[i].target.Some? ==>
               && s.chars[i].target.value < |s.chars|
               && !Beside(s.chars[i], s.chars[s.chars[i].target.value])
    ensures Turn(s, i, input).chars ==
            s.chars[i := s.chars[i].(nextStep := Nowhere, aggression := false, stepStartTime := input.stepNow)]
  {
    hide *;
    var c := s.chars[i];
    IdleExactly(s, i, input);
    TurnUnfolds(s, i, input);
    AimedPlayer(s, i, input.stepNow);
    var a := Aimed(s, i, input.stepNow);
    StaysPut(s, i);
    assert a.chars[i].nextStep == Nowhere;
    forall k: nat
      ensures !Reaches(a, i, k)
    {
      if c.target == Some(k) && k < |s.chars| {
        BesideExactly(c, s.chars[k]);
        PlayerNotNear(s, a, i, k, input.stepNow);
      }
      ReachesTarget(a, i, k);
    }
    ActRests(a, i, input.roll);
  }

  lemma ReachesTarget(a: World, i: nat, k: nat)
    ensures Reaches(a, i, k) ==>
              i < |a.chars| && k < |a.chars| && a.chars[i].target == Some(k) && Dist(a.chars[i], a.chars[k]) < 4
  {
  }

  lemma PlayerNotNear(s: World, a: World, i: nat, k: nat, stepNow: int)
    requires i < |s.chars| && k < |s.chars| && |a.chars| == |s.chars| && Dist(s.chars[i], s.chars[k]) >= 4
    requires exists d :: a.chars == s.chars[i := s.chars[i].(stepStartTime := stepNow, nextStep := d)]
    ensures Dist(a.chars[i], a.chars[k]) >= 4
  {
  }

  lemma StaysPut(s: World, i: nat)
    requires Inv(s) && i < |s.chars|
    requires s.chars[i].nextStep == Nowhere ||
             var (x, y) := Cell(s.chars[i].x, s.chars[i].y, s.chars[i].nextStep, 1); !s.Free(x, y)
    ensures var c := s.chars[i]; var d := c.nextStep;
            d == Nowhere || !s.Put(c.x, c.y, Nothing).Free(c.x + d.Dx(), c.y + d.Dy())
  {
    hide World.Free, Inv;
    var c := s.chars[i];
    if c.nextStep != Nowhere {
      NextCell(c.x, c.y, c.nextStep);
      FreeLifted(s, i, c.x + c.nextStep.Dx(), c.y + c.nextStep.Dy());
    }
  }

  // ---- strikes ----------------------------------------------------------------------------

  /** On one of the eight cells around, or the same. */
  predicate Beside(a: Char, b: Char) {
    -1 <= b.x - a.x <= 1 && -1 <= b.y - a.y <= 1
  }

  lemma SquareReach(a: int)
    ensures -1 <= a <= 1 ==> Sq(a) <= 1
    ensures !(-1 <= a <= 1) ==> Sq(a) >= 4
  {
    if a >= 2 {
      assert SquareOf(a) == SquareOf(a - 1) + 2 * a - 1;
      SquareOfMeaning(a - 1);
    } else if a <= -2 {
      assert SquareOf(-a) == SquareOf(-a - 1) + 2 * -a - 1;
      SquareOfMeaning(-a - 1);
    }
  }

  /** A strike reaches the eight cells around. */
  lemma BesideExactly(a: Char, b: Char)
    ensures Dist(a, b) < 4 <==> Beside(a, b)
  {
    SquareReach(b.x - a.x);
    SquareReach(b.y - a.y);
  }

  /** hp after a strike of the given power against the given armour, when the roll leaves remainder r. */
  function HpStruck(hp: int, power: int, armor: int, r: int): int {
    var damage := if power - armor - r > 0 then power - armor - r else 0;
    if hp > damage then hp - damage else 0
  }

  lemma AtLeastOne(x: int, n: nat)
    requires x >= 1
    ensures x * n >= n
  {
    assert (x - 1) * n >= 0;
  }

  lemma Quotients(q: int, q': int, n: nat, r: int, r': int)
    requires q * n + r == q' * n + r' && 0 <= r < n && 0 <= r' < n
    ensures r == r'
  {
    assert (q - q') * n == q * n - q' * n;
    assert (q' - q) * n == q' * n - q * n;
    if q > q' {
      AtLeastOne(q - q', n);
    } else if q < q' {
      AtLeastOne(q' - q, n);
    }
  }

  lemma UniqueRemainder(a: nat, n: nat, q: nat, r: nat)
    requires r < n && a == q * n + r
    ensures a % n == r
  {
    Quotients(q, a / n, n, r, a % n);
  }

  lemma SameRemainder(a: nat, n: nat)
    requires n > 0
    ensures (a + n) % n == a % n
  {
    assert a == (a / n) * n + a % n;
    assert (a / n + 1) * n == (a / n) * n + n;
    UniqueRemainder(a + n, n, a / n + 1, a % n);
  }

  /** The roll counts by its remainder, and what is left after armour is taken, never below 0. */
  lemma StrikeTakes(a: Char, t: Char, q: nat, r: nat)
    requires r < t.evasion
    ensures t.evasion > 0 && HpAfter(a, t, q * t.evasion + r) == HpStruck(t.hp, a.power, t.armor, r)
    ensures Damage(a, t, q * t.evasion + r) == if a.power - t.armor - r > 0 then a.power - t.armor - r else 0
  {
    UniqueRemainder(q * t.evasion + r, t.evasion, q, r);
  }

  /** Adding the evasion to a roll changes nothing. */
  lemma RollWraps(a: Char, t: Char, roll: nat)
    requires t.evasion > 0
    ensures Damage(a, t, roll + t.evasion) == Damage(a, t, roll)
  {
    SameRemainder(roll, t.evasion);
  }

  /** Between characters of any two levels: what a strike takes for each remainder, down to 0. */
  lemma DamageBetweenLevels(a: Char, t: Char, l: nat, m: nat, q: nat, r: nat)
    requires l >= 1 && m >= 1 && Built(a, l) && Built(t, m) && r < 2 * m
    ensures t.evasion > 0
    ensures a.race == Human && t.race == Beast ==> HpAfter(a, t, q * (2 * m) + r) == HpStruck(t.hp, 10 * l, 2 * m, r)
    ensures a.race == Beast && t.race == Human ==> HpAfter(a, t, q * (2 * m) + r) == HpStruck(t.hp, 13 * l, 5 * m, r)
    ensures a.race == Human && t.race == Human ==> HpAfter(a, t, q * (2 * m) + r) == HpStruck(t.hp, 10 * l, 5 * m, r)
    ensures a.race == Beast && t.race == Beast ==> HpAfter(a, t, q * (2 * m) + r) == HpStruck(t.hp, 13 * l, 2 * m, r)
  {
    StrikeTakes(a, t, q, r);
  }

  lemma ActHits(a: World, i: nat, k: nat, roll: nat)
    requires Reaches(a, i, k) && i != k && TargetKnown(a, a.chars[i]) && Fightable(a)
    ensures i < |a.chars| && k < |a.chars|
    ensures var hp := HpAfter(a.chars[i], a.chars[k], roll);
            var c := a.chars[i].(target := if hp <= 0 then None else Some(k));
            Landed(Acted(a, i, roll), i).chars ==
            a.chars[k := a.chars[k].(hp := hp, target := Some(i), aggression := true)]
                   [i := if c.isPlayer then c.(nextStep := Nowhere, aggression := false) else c]
  {
  }

  lemma AimedOther(s: World, i: nat, k: nat, stepNow: int)
    requires i < |s.chars| && k < |s.chars| && i != k && Ready(s)
    ensures var a := Aimed(s, i, stepNow);
            && |a.chars| == |s.chars| && a.chars[k] == s.chars[k]
            && a.chars == s.chars[i := a.chars[i]]
            && a.chars[i] == s.chars[i].(target := a.chars[i].target, nextStep := a.chars[i].nextStep,
                                         stepStartTime := stepNow)
  {
    RetargetedKnows(s, i);
  }

  /** A turn that strikes k: nobody moves; k loses what the strike takes, turns on the striker and becomes
      aggressive; the striker lets go of k exactly if k is at 0; nobody else changes. */
  lemma StrikeAftermath(s: World, i: nat, input: Inputs, k: nat, q: nat, r: nat)
    requires Inv(s) && Ready(s) && i < |s.chars| && Strikes(s, i, input, k)
    requires k < |s.chars| && r < s.chars[k].evasion && input.roll == q * s.chars[k].evasion + r
    ensures var n := Turn(s, i, input);
            var hp := HpStruck(s.chars[k].hp, s.chars[i].power, s.chars[k].armor, r);
            && k != i && |n.chars| == |s.chars|
            && n.chars[k] == s.chars[k].(hp := hp, target := Some(i), aggression := true)
            && n.chars[i].target == (if hp == 0 then None else Some(k))
            && n.chars[i].x == s.chars[i].x && n.chars[i].y == s.chars[i].y && n.chars[i].hp == s.chars[i].hp
            && forall j :: 0 <= j < |s.chars| && j != i && j != k ==> n.chars[j] == s.chars[j]
  {
    hide *;
    StrikesMeans(s, i, input, k);
    InvMeans(s);
    AimSound(s, i, input.stepNow);
    var a := Aimed(s, i, input.stepNow);
    NotItself(a, i);
    ReachesTarget(a, i, k);
    TurnUnfolds(s, i, input);
    AimedOther(s, i, k, input.stepNow);
    ActHits(a, i, k, input.roll);
    StrikeTakes(a.chars[i], a.chars[k], q, r);
    HpStruckRange(s.chars[k].hp, s.chars[i].power, s.chars[k].armor, r);
  }

  lemma HpStruckRange(hp: int, power: int, armor: int, r: int)
    ensures HpStruck(hp, power, armor, r) >= 0
  {
  }

  /** A due bot with foes aims at the first closest one, goes where BotStepExactly says on the map without
      it, and changes nobody else by going. */
  lemma BotGoes(s: World, i: nat, input: Inputs, t: nat)
    requires Inv(s) && Ready(s) && i < |s.chars| && !s.chars[i].isPlayer && Due(s.chars[i], input.now)
    requires t < |s.chars| && NearestFoe(s, i, |s.chars|) == Some(t)
    requires Heading(s, i, t) != Nowhere
    ensures var c, d := s.chars[i], Heading(s, i, t);
            Turn(s, i, input).chars ==
            s.chars[i := c.(x := Cell(c.x, c.y, d, 1).0, y := Cell(c.x, c.y, d, 1).1,
                            target := Some(t), nextStep := d, stepStartTime := input.stepNow)]
  {
    hide *;
    IdleExactly(s, i, input);
    TurnUnfolds(s, i, input);
    AimedBot(s, i, input.stepNow, t);
    ActMoves(Aimed(s, i, input.stepNow), i, input.roll);
  }

  lemma {:induction false} NearestOnSameChars(s: World, l: World, i: nat, n: nat)
    requires l.chars == s.chars && i < |s.chars| && n <= |s.chars|
    ensures NearestFoe(l, i, n) == NearestFoe(s, i, n)
  {
    if n > 0 {
      NearestOnSameChars(s, l, i, n - 1);
      assert Foe(l, i, n - 1) == Foe(s, i, n - 1);
    }
  }

  lemma AimedBot(s: World, i: nat, stepNow: int, t: nat)
    requires Ready(s) && i < |s.chars| && !s.chars[i].isPlayer
    requires t < |s.chars| && NearestFoe(s, i, |s.chars|) == Some(t)
    ensures Aimed(s, i, stepNow).chars ==
            s.chars[i := s.chars[i].(target := Some(t), nextStep := Heading(s, i, t), stepStartTime := stepNow)]
  {
    hide NearestFoe, BotStep;
    var l := s.Put(s.chars[i].x, s.chars[i].y, Nothing);
    NearestOnSameChars(s, l, i, |s.chars|);
    RetargetedKnows(s, i);
    NearestFoeMeaning(s, i, |s.chars|);
    var r := Retargeted(s, i);
    BotStepOnSameMap(r, Stage(s, i), s.chars[i].x, s.chars[i].y, s.chars[t].x, s.chars[t].y);
  }

  /** Whom a bot strikes: its first closest foe, when its turn is due, it has no step to take and the foe
      is beside it; a bot without foes strikes nobody. */
  lemma BotStrikesExactly(s: World, i: nat, input: Inputs, k: nat)
    requires Inv(s) && Ready(s) && i < |s.chars| && !s.chars[i].isPlayer && k < |s.chars|
    ensures Strikes(s, i, input, k) <==>
            && Due(s.chars[i], input.now) && NearestFoe(s, i, |s.chars|) == Some(k)
            && Heading(s, i, k) == Nowhere && Beside(s.chars[i], s.chars[k])
  {
    hide *;
    IdleExactly(s, i, input);
    StrikesMeans(s, i, input, k);
    BesideExactly(s.chars[i], s.chars[k]);
    if NearestFoe(s, i, |s.chars|).Some? {
      var t := NearestFoe(s, i, |s.chars|).value;
      NearestFoeMeaning(s, i, |s.chars|);
      AimedBot(s, i, input.stepNow, t);
      AimedReaches(s, Aimed(s, i, input.stepNow), i, k);
    } else {
      NoFoeNoTarget(s, i, input.stepNow);
      ReachesTarget(Aimed(s, i, input.stepNow), i, k);
    }
  }

  lemma AimedReaches(s: World, a: World, i: nat, k: nat)
    requires i < |s.chars| && k < |s.chars| && |a.chars| == |s.chars|
    requires a.chars == s.chars[i := a.chars[i]] && a.chars[i].x == s.chars[i].x && a.chars[i].y == s.chars[i].y
    ensures Reaches(a, i, k) <==>
            a.chars[i].nextStep == Nowhere && a.chars[i].target == Some(k) && Dist(s.chars[i], s.chars[k]) < 4
  {
  }

  lemma NoFoeNoTarget(s: World, i: nat, stepNow: int)
    requires Inv(s) && Ready(s) && i < |s.chars| && !s.chars[i].isPlayer && NearestFoe(s, i, |s.chars|).None?
    ensures i < |Aimed(s, i, stepNow).chars| && Aimed(s, i, stepNow).chars[i].target.None?
  {
    var c, l := s.chars[i], s.Put(s.chars[i].x, s.chars[i].y, Nothing);
    NearestOnSameChars(s, l, i, |s.chars|);
    NearestFoeMeaning(s, i, |s.chars|);
    assert SoundChar(s, c);
    assert c.target.Some? ==> Foe(s, i, c.target.value);
    hide NearestFoe;
    RetargetedKnows(s, i);
  }

  /** Whom a player strikes: its target, when its turn is due, no wish leads to a free cell and the target is
      beside it. */
  lemma PlayerStrikesExactly(s: World, i: nat, input: Inputs, k: nat)
    requires Inv(s) && Ready(s) && i < |s.chars| && s.chars[i].isPlayer && k < |s.chars|
    ensures Strikes(s, i, input, k) <==>
            && Due(s.chars[i], input.now) && s.chars[i].target == Some(k) && Beside(s.chars[i], s.chars[k])
            && (s.chars[i].nextStep == Nowhere ||
                var (x, y) := Cell(s.chars[i].x, s.chars[i].y, s.chars[i].nextStep, 1); !s.Free(x, y))
  {
    hide *;
    var c := s.chars[i];
    IdleExactly(s, i, input);
    StrikesMeans(s, i, input, k);
    BesideExactly(c, s.chars[k]);
    AimedPlayer(s, i, input.stepNow);
    AimedReaches(s, Aimed(s, i, input.stepNow), i, k);
    if c.nextStep != Nowhere {
      NextCell(c.x, c.y, c.nextStep);
      FreeLifted(s, i, c.x + c.nextStep.Dx(), c.y + c.nextStep.Dy());
    }
  }

  // ---- how far apart turns are ------------------------------------------------------------

  /** The inputs of the due turns of character i over a run. */
  function DueTurns(s: World, es: seq<Event>, i: nat): seq<Inputs>
    requires i < |s.chars|
    decreases |es|
  {
    if es == [] || !Enabled(s, es[0]) || !Ready(s) || i >= |Apply(s, es[0]).chars| then []
    else
      var e := es[0];
      (if e.Tick? && e.i == i && Due(s.chars[i], e.input.now) then [e.input] else []) +
      DueTurns(Apply(s, e), es[1..], i)
  }

  /** Only its own due turns set a character's clock, to the time they read. */
  lemma ClockSet(s: World, e: Event, i: nat)
    requires Inv(s) && Ready(s) && Enabled(s, e) && i < |s.chars|
    ensures i < |Apply(s, e).chars| && Apply(s, e).chars[i].stepTime == s.chars[i].stepTime
    ensures Apply(s, e).chars[i].stepStartTime ==
            if e.Tick? && e.i == i && Due(s.chars[i], e.input.now) then e.input.stepNow else s.chars[i].stepStartTime
  {
    if e.Tick? {
      hide Turn, Due, Inv, Ready;
      TurnClock(s, e.i, e.input, i);
    }
  }

  lemma TurnClock(s: World, j: nat, input: Inputs, i: nat)
    requires Inv(s) && Ready(s) && j < |s.chars| && i < |s.chars|
    ensures i < |Turn(s, j, input).chars| && Turn(s, j, input).chars[i].stepTime == s.chars[i].stepTime
    ensures Turn(s, j, input).chars[i].stepStartTime ==
            if j == i && Due(s.chars[i], input.now) then input.stepNow else s.chars[i].stepStartTime
  {
    hide *;
    IdleExactly(s, j, input);
    if Due(s.chars[j], input.now) {
      InvMeans(s);
      TurnUnfolds(s, j, input);
      AimSound(s, j, input.stepNow);
      var a := Aimed(s, j, input.stepNow);
      NotItself(a, j);
      AimedClock(s, j, input.stepNow, i);
      ActClock(a, j, input.roll, i);
    }
  }

  lemma AimedClock(s: World, j: nat, stepNow: int, i: nat)
    requires j < |s.chars| && i < |s.chars| && Ready(s)
    ensures |Aimed(s, j, stepNow).chars| == |s.chars|
    ensures Aimed(s, j, stepNow).chars[i].stepTime == s.chars[i].stepTime
    ensures Aimed(s, j, stepNow).chars[i].stepStartTime == if j == i then stepNow else s.chars[i].stepStartTime
  {
    RetargetedKnows(s, j);
  }

  lemma ActClock(a: World, j: nat, roll: nat, i: nat)
    requires j < |a.chars| && i < |a.chars| && TargetKnown(a, a.chars[j]) && Fightable(a)
             && a.chars[j].target != Some(j)
    ensures |Landed(Acted(a, j, roll), j).chars| == |a.chars|
    ensures Landed(Acted(a, j, roll), j).chars[i].stepTime == a.chars[i].stepTime
    ensures Landed(Acted(a, j, roll), j).chars[i].stepStartTime == a.chars[i].stepStartTime
  {
  }

  lemma DueTurnsUnfold(s: World, es: seq<Event>, i: nat)
    requires Inv(s) && Ready(s) && i < |s.chars| && es != [] && Enabled(s, es[0])
    ensures i < |Apply(s, es[0]).chars|
    ensures DueTurns(s, es, i) ==
            (if es[0].Tick? && es[0].i == i && Due(s.chars[i], es[0].input.now) then [es[0].input] else []) +
            DueTurns(Apply(s, es[0]), es[1..], i)
  {
    ClockSet(s, es[0], i);
  }

  lemma RunFront(s: World, es: seq<Event>, t: World)
    requires Run(s, es, t) && es != []
    ensures Enabled(s, es[0]) && Ready(s) && Run(Apply(s, es[0]), es[1..], t)
  {
  }

  lemma NoTurns(s: World, i: nat)
    requires i < |s.chars|
    ensures DueTurns(s, [], i) == []
  {
  }

  lemma DueIs(c: Char, now: int)
    ensures Due(c, now) ==> now > c.stepStartTime + c.stepTime
  {
  }

  /** Turn k comes more than `step` after the one before it, the first after `start`. */
  ghost predicate Later(turns: seq<Inputs>, k: nat, start: int, step: int) {
    k < |turns| && turns[k].now > (if k == 0 then start else turns[k - 1].stepNow) + step
  }

  ghost predicate Paced(turns: seq<Inputs>, start: int, step: int) {
    forall k: nat :: k < |turns| ==> Later(turns, k, start, step)
  }

  lemma PacedFront(input: Inputs, rest: seq<Inputs>, start: int, step: int)
    requires input.now > start + step && Paced(rest, input.stepNow, step)
    ensures Paced([input] + rest, start, step)
  {
    var turns := [input] + rest;
    forall k: nat | k < |turns|
      ensures Later(turns, k, start, step)
    {
      if k > 0 {
        assert Later(rest, k - 1, input.stepNow, step);
      }
    }
  }

  lemma PacedNone(start: int, step: int)
    ensures Paced([], start, step)
  {
  }

  /** Over any run, a character acts only when more than its step time has passed since it last did. */
  lemma {:induction false} PaceKept(s: World, es: seq<Event>, t: World, i: nat)
    requires Inv(s) && Run(s, es, t) && i < |s.chars|
    ensures Paced(DueTurns(s, es, i), s.chars[i].stepStartTime, s.chars[i].stepTime)
    decreases |es|
  {
    hide *;
    if es == [] {
      NoTurns(s, i);
      PacedNone(s.chars[i].stepStartTime, s.chars[i].stepTime);
    } else {
      RunFront(s, es, t);
      var e, n := es[0], Apply(s, es[0]);
      ApplyKeeps(s, e);
      ClockSet(s, e, i);
      DueTurnsUnfold(s, es, i);
      PaceKept(n, es[1..], t, i);
      var rest := DueTurns(n, es[1..], i);
      if e.Tick? && e.i == i && Due(s.chars[i], e.input.now) {
        DueIs(s.chars[i], e.input.now);
        PacedFront(e.input, rest, s.chars[i].stepStartTime, s.chars[i].stepTime);
      } else {
        assert [] + rest == rest;
      }
    }
  }

  // ---- requests and newcomers -------------------------------------------------------------

  /** Where a word asks to go, as a change of x and of y: "up" is towards smaller y. */
  function AskedStep(word: string): Option<(int, int)> {
    if word in ["west", "right"] then Some((1, 0))
    else if word in ["east", "left"] then Some((-1, 0))
    else if word in ["north", "up"] then Some((0, -1))
    else if word in ["south", "down"] then Some((0, 1))
    else None
  }

  lemma AskedDirection(word: string, x: int, y: int)
    ensures GoDirection(word).None? <==> AskedStep(word).None?
    ensures GoDirection(word).Some? ==>
              && GoDirection(word).value != Nowhere
              && Cell(x, y, GoDirection(word).value, 1) == (x + AskedStep(word).value.0, y + AskedStep(word).value.1)
  {
  }

  lemma WishSet(s: World, i: nat, word: string)
    requires Ready(s) && i < |s.chars| && s.chars[i].isPlayer
    ensures Enabled(s, Go(i, Some(word))) && Enabled(s, Go(i, None)) && Apply(s, Go(i, None)) == s
    ensures GoDirection(word).None? ==> Apply(s, Go(i, Some(word))) == s
    ensures GoDirection(word).Some? ==>
              Apply(s, Go(i, Some(word))) == s.(chars := s.chars[i := s.chars[i].(nextStep := GoDirection(word).value)])
  {
  }

  lemma WishDue(c: Char, d: Direction, now: int)
    requires d != Nowhere && now > c.stepStartTime + c.stepTime
    ensures Due(c.(nextStep := d), now)
  {
  }

  /** A request with a known word takes the player to the cell it names with the next due turn, if that
      cell is free; a request with another word, or none, changes nothing. */
  lemma GoesAsAsked(s: World, i: nat, word: string, input: Inputs)
    requires Inv(s) && Ready(s) && i < |s.chars| && s.chars[i].isPlayer
    ensures Enabled(s, Go(i, Some(word))) && Enabled(s, Go(i, None)) && Apply(s, Go(i, None)) == s
    ensures AskedStep(word).None? ==> Apply(s, Go(i, Some(word))) == s
    ensures AskedStep(word).Some? && input.now > s.chars[i].stepStartTime + s.chars[i].stepTime ==>
              var x, y := s.chars[i].x + AskedStep(word).value.0, s.chars[i].y + AskedStep(word).value.1;
              var asked := Apply(s, Go(i, Some(word)));
              s.Free(x, y) ==>
                && Ready(asked) && |asked.chars| == |s.chars|
                && Turn(asked, i, input).chars ==
                   s.chars[i := s.chars[i].(x := x, y := y, nextStep := Nowhere, aggression := false,
                                            stepStartTime := input.stepNow)]
  {
    hide *;
    var c := s.chars[i];
    AskedDirection(word, c.x, c.y);
    WishSet(s, i, word);
    ApplyKeeps(s, Go(i, Some(word)));
    if AskedStep(word).Some? && input.now > c.stepStartTime + c.stepTime {
      var asked, d := Apply(s, Go(i, Some(word))), GoDirection(word).value;
      var (x, y) := Cell(c.x, c.y, d, 1);
      FreeOnMap(s, asked, x, y);
      WishDue(c, d, input.now);
      if s.Free(x, y) {
        PlayerGoes(asked, i, input);
      }
    }
  }

  /** A newcomer's characteristics are its race's base values times its level; it has full health, no target
      and no wish, and only bots are aggressive from the start. */
  lemma NewcomerValues(s: World, e: Event)
    requires Ready(s) && e.Join? && Enabled(s, e)
    ensures var t := Apply(s, e);
            && |t.chars| == |s.chars| + 1 && t.chars[..|s.chars|] == s.chars
            && var c := t.chars[|s.chars|];
               && (c.x, c.y) == (e.x, e.y) && c.race == e.race && c.isPlayer == e.isPlayer && c.lvl == e.lvl
               && (e.race == Human ==> c.power == 10 * e.lvl && c.armor == 5 * e.lvl)
               && (e.race == Beast ==> c.power == 13 * e.lvl && c.armor == 2 * e.lvl)
               && c.evasion == 2 * e.lvl && c.hp == 100 * e.lvl
               && c.target == None && c.nextStep == Nowhere && c.aggression == !e.isPlayer
               && c.stepTime == e.stepTime && c.stepStartTime == 0
  {
  }

  /** Naming a player wakes it: its turn is due once its step time has passed. */
  lemma NamedWakes(s: World, i: nat, now: int)
    requires Ready(s) && Enabled(s, Named(i))
    ensures i < |Apply(s, Named(i)).chars|
    ensures Apply(s, Named(i)) == s.(chars := s.chars[i := s.chars[i].(aggression := true)])
    ensures Due(Apply(s, Named(i)).chars[i], now) <==> now > s.chars[i].stepStartTime + s.chars[i].stepTime
  {
  }
}
