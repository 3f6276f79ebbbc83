/** From chase to kill: what a bot's turns do to its one foe when the foe does nothing. */
module Hunt {
  import opened Options
  import opened World
  import opened Movement
  import opened Ticks
  import opened TickChase
  import opened Combat

  /** The state after a series of turns of character i alone. */
  ghost function Turns(s: World, i: nat, inputs: seq<Inputs>): World
    requires Inv(s) && Ready(s) && i < |s.chars|
    decreases |inputs|
  {
    if inputs == [] then s
    else
      TurnApplies(s, i, inputs[0]);
      Turns(Turn(s, i, inputs[0]), i, inputs[1..])
  }

  /** The hp a due turn leaves the foe: struck when the bot stands still within reach. */
  function FoeHp(s: World, i: nat, t: nat, roll: nat): int
    requires i < |s.chars| && t < |s.chars| && Fightable(s)
  {
    if Heading(s, i, t) == Nowhere && Dist(s.chars[i], s.chars[t]) < 4 then HpAfter(s.chars[i], s.chars[t], roll)
    else s.chars[t].hp
  }

  lemma ActStrikes(a: World, i: nat, t: nat, roll: nat)
    requires i < |a.chars| && t < |a.chars| && i != t && a.chars[i].target == Some(t) && Fightable(a)
    ensures TargetKnown(a, a.chars[i])
    ensures |Landed(Acted(a, i, roll), i).chars| == |a.chars|
    ensures Landed(Acted(a, i, roll), i).chars[t].hp ==
            if a.chars[i].nextStep == Nowhere && Dist(a.chars[i], a.chars[t]) < 4
                then HpAfter(a.chars[i], a.chars[t], roll)
            else a.chars[t].hp
  {
  }

  lemma SameStrike(c: Char, d: Char, t: Char, roll: nat)
    requires c.power == d.power && c.x == d.x && c.y == d.y && t.evasion > 0
    ensures HpAfter(c, t, roll) == HpAfter(d, t, roll) && Dist(c, t) == Dist(d, t)
  {
  }

  lemma HuntStrikes(s: World, i: nat, t: nat, input: Inputs)
    requires Inv(s) && Ready(s) && Hunts(s, i, t) && !s.chars[i].Idle(input.now)
    ensures var n := Turn(s, i, input);
            |n.chars| == |s.chars| && n.chars[t].hp == FoeHp(s, i, t, input.roll)
  {
    HuntsInRange(s, i, t);
    TurnUnfolds(s, i, input);
    AimsAtFoe(s, i, t, input.stepNow);
    hide *;
    var a := Aimed(s, i, input.stepNow);
    FoeHpIs(s, i, t, input.roll);
    ActStrikes(a, i, t, input.roll);
    SameStrike(a.chars[i], s.chars[i], s.chars[t], input.roll);
  }

  lemma FoeHpIs(s: World, i: nat, t: nat, roll: nat)
    requires i < |s.chars| && t < |s.chars| && Ready(s)
    ensures Fightable(s) && s.chars[t].evasion > 0
    ensures FoeHp(s, i, t, roll) ==
            if Heading(s, i, t) == Nowhere && Dist(s.chars[i], s.chars[t]) < 4
                then HpAfter(s.chars[i], s.chars[t], roll)
            else s.chars[t].hp
  {
  }

  lemma HoldsBeside(s: World, i: nat, t: nat)
    requires i < |s.chars| && t < |s.chars| && Gap(s, i, t) == 1
    ensures Heading(s, i, t) == Nowhere
  {
    NearMeaning(s.chars[i].x, s.chars[i].y, s.chars[t].x, s.chars[t].y);
    BotIsGreedy(Stage(s, i), s.chars[i].x, s.chars[i].y, s.chars[t].x, s.chars[t].y);
  }

  lemma BesideIsNear(s: World, i: nat, t: nat)
    requires i < |s.chars| && t < |s.chars| && Gap(s, i, t) == 1
    ensures Dist(s.chars[i], s.chars[t]) < 4
  {
    NearMeaning(s.chars[i].x, s.chars[i].y, s.chars[t].x, s.chars[t].y);
  }

  /** Beside its foe a bot stands still and strikes for at least 6L + 1, down to 0. */
  lemma StrikeBeside(s: World, i: nat, t: nat, l: nat, roll: nat)
    requires Inv(s) && Ready(s) && Hunts(s, i, t) && Gap(s, i, t) == 1
    requires s.chars[i].lvl == l && s.chars[t].lvl == l
    ensures Heading(s, i, t) == Nowhere
    ensures FoeHp(s, i, t, roll) == 0 || 0 < FoeHp(s, i, t, roll) <= s.chars[t].hp - (6 * l + 1)
  {
    var c, f := s.chars[i], s.chars[t];
    assert Foe(s, i, t) && SoundChar(s, c) && SoundChar(s, f);
    HoldsBeside(s, i, t);
    hide Heading, Dist, Placed;
    BesideIsNear(s, i, t);
    DamageRange(c, f, l, roll);
  }

  ghost predicate OpenTo(s: World, i: nat, t: nat) {
    i < |s.chars| && t < |s.chars| && Unobstructed(Stage(s, i), s.chars[i].x, s.chars[i].y, s.chars[t].x, s.chars[t].y)
  }

  /** A due turn away from the foe brings the bot one closer, over land that stays open. */
  lemma March(s: World, i: nat, t: nat, input: Inputs)
    requires Inv(s) && Ready(s) && Hunts(s, i, t) && OpenTo(s, i, t) && Gap(s, i, t) > 1 && !s.chars[i].Idle(input.now)
    ensures var n := Turn(s, i, input);
            Inv(n) && Ready(n) && Hunts(n, i, t) && OpenTo(n, i, t) && Gap(n, i, t) == Gap(s, i, t) - 1
  {
    hide *;
    HuntsInRange(s, i, t);
    HuntTurn(s, i, t, input);
    var n := Turn(s, i, input);
    HuntsInRange(n, i, t);
    FoeBlocks(s, i, t);
    HeadingIs(s, i, t);
    OpenParts(s, i, t);
    OpenParts(n, i, t);
    OpenStep(Stage(s, i), s.chars[i].x, s.chars[i].y, s.chars[t].x, s.chars[t].y);
  }

  lemma OpenParts(s: World, i: nat, t: nat)
    requires i < |s.chars| && t < |s.chars|
    ensures OpenTo(s, i, t) <==> Unobstructed(Stage(s, i), s.chars[i].x, s.chars[i].y, s.chars[t].x, s.chars[t].y)
    ensures Gap(s, i, t) == Manhattan(s.chars[i].x, s.chars[i].y, s.chars[t].x, s.chars[t].y)
  {
  }

  /** A due turn beside the foe leaves both in place. */
  lemma Stay(s: World, i: nat, t: nat, input: Inputs)
    requires Inv(s) && Ready(s) && Hunts(s, i, t) && OpenTo(s, i, t) && Gap(s, i, t) == 1 && !s.chars[i].Idle(input.now)
    requires Heading(s, i, t) == Nowhere
    ensures var n := Turn(s, i, input);
            Inv(n) && Ready(n) && Hunts(n, i, t) && OpenTo(n, i, t) && Gap(n, i, t) == 1
  {
    hide *;
    HuntsInRange(s, i, t);
    HuntTurn(s, i, t, input);
    var n := Turn(s, i, input);
    HuntsInRange(n, i, t);
    HeadingIs(s, i, t);
    OpenParts(s, i, t);
    OpenParts(n, i, t);
  }

  /** A bot whose turns are always due, on open land, brings a foe of its level that does nothing to 0 hp
      within dx + dy - 1 steps and k strikes, if k strikes of the least damage cover the foe's hp. */
  lemma {:induction false} HuntKills(s: World, i: nat, t: nat, l: nat, inputs: seq<Inputs>, k: nat)
    requires Inv(s) && Ready(s) && Hunts(s, i, t) && OpenTo(s, i, t) && AlwaysDue(s, i, inputs)
    requires s.chars[i].lvl == l && s.chars[t].lvl == l && s.chars[t].hp <= Times(k, 6 * l + 1)
    requires |inputs| >= Gap(s, i, t) - 1 + k
    ensures |Turns(s, i, inputs).chars| == |s.chars| && Turns(s, i, inputs).chars[t].hp == 0
    decreases |inputs|
  {
    FoeBlocks(s, i, t);
    Apart(s.chars[i].x, s.chars[i].y, s.chars[t].x, s.chars[t].y);
    assert SoundChar(s, s.chars[t]);
    if inputs != [] {
      var n := Turn(s, i, inputs[0]);
      TurnApplies(s, i, inputs[0]);
      HuntStrikes(s, i, t, inputs[0]);
      if Gap(s, i, t) > 1 {
        March(s, i, t, inputs[0]);
        HuntKills(n, i, t, l, inputs[1..], k);
      } else {
        StrikeBeside(s, i, t, l, inputs[0].roll);
        Stay(s, i, t, inputs[0]);
        HuntKills(n, i, t, l, inputs[1..], if k == 0 then 0 else k - 1);
      }
    }
  }

  /** Seventeen strikes always do. */
  lemma HuntKillsInTime(s: World, i: nat, t: nat, inputs: seq<Inputs>)
    requires Inv(s) && Ready(s) && Hunts(s, i, t) && OpenTo(s, i, t) && AlwaysDue(s, i, inputs)
    requires s.chars[i].lvl == s.chars[t].lvl && |inputs| >= Gap(s, i, t) - 1 + 17
    ensures |Turns(s, i, inputs).chars| == |s.chars| && Turns(s, i, inputs).chars[t].hp == 0
  {
    assert SoundChar(s, s.chars[t]);
    var l: nat := s.chars[t].lvl;
    TimesMeaning(17, 6 * l + 1);
    HuntKills(s, i, t, l, inputs, 17);
  }

  // ---- a fight without a chase ------------------------------------------------------------

  function Rolls(inputs: seq<Inputs>): seq<nat> {
    seq(|inputs|, k requires 0 <= k < |inputs| => inputs[k].roll)
  }

  lemma {:induction false} HpLeftFront(a: Char, t: Char, roll: nat, rolls: seq<nat>)
    requires t.evasion > 0
    ensures HpLeft(a, t, [roll] + rolls) == HpLeft(a, t.(hp := HpAfter(a, t, roll)), rolls)
  {
    var all := [roll] + rolls;
    if rolls == [] {
      assert all[..0] == [];
    } else {
      assert all[..|all| - 1] == [roll] + rolls[..|rolls| - 1];
      HpLeftFront(a, t, roll, rolls[..|rolls| - 1]);
    }
  }

  /** What hits depend on. */
  predicate FightsAlike(a: Char, b: Char) {
    a.power == b.power && a.armor == b.armor && a.evasion == b.evasion
  }

  lemma {:induction false} HpLeftAlike(a: Char, t: Char, b: Char, u: Char, rolls: seq<nat>)
    requires FightsAlike(a, b) && FightsAlike(t, u) && t.hp == u.hp && t.evasion > 0
    ensures HpLeft(a, t, rolls) == HpLeft(b, u, rolls)
  {
    if rolls != [] {
      HpLeftAlike(a, t, b, u, rolls[..|rolls| - 1]);
    }
  }

  /** A due turn beside the foe leaves both in place, whatever lies around. */
  lemma StayBeside(s: World, i: nat, t: nat, input: Inputs)
    requires Inv(s) && Ready(s) && Hunts(s, i, t) && Gap(s, i, t) == 1 && !s.chars[i].Idle(input.now)
    ensures var n := Turn(s, i, input);
            && Inv(n) && Ready(n) && Hunts(n, i, t) && Gap(n, i, t) == 1
            && n.chars[t].hp == HpAfter(s.chars[i], s.chars[t], input.roll)
            && FightsAlike(s.chars[i], n.chars[i]) && FightsAlike(s.chars[t], n.chars[t]) && n.chars[t].evasion > 0
  {
    hide *;
    HuntsInRange(s, i, t);
    HoldsBeside(s, i, t);
    HuntTurn(s, i, t, input);
    HuntStrikes(s, i, t, input);
    FoeHpIs(s, i, t, input.roll);
    BesideIsNear(s, i, t);
    var n := Turn(s, i, input);
    HuntsInRange(n, i, t);
    HeadingIs(s, i, t);
    TurnApplies(s, i, input);
    SameBuild(s, n, i);
    SameBuild(s, n, t);
    GapIs(s, i, t);
    GapIs(n, i, t);
    FoeHpIs(n, i, t, 0);
  }

  lemma GapIs(s: World, i: nat, t: nat)
    requires i < |s.chars| && t < |s.chars|
    ensures Gap(s, i, t) == Manhattan(s.chars[i].x, s.chars[i].y, s.chars[t].x, s.chars[t].y)
  {
  }

  /** Race and level decide the characteristics for good. */
  lemma SameBuild(s: World, n: World, j: nat)
    requires Inv(s) && Inv(n) && Aged(s, n) && j < |s.chars|
    ensures j < |n.chars| && FightsAlike(s.chars[j], n.chars[j])
  {
    assert SoundChar(s, s.chars[j]) && SoundChar(n, n.chars[j]);
  }

  /** Beside its foe, each due turn of a hunting bot is one hit: the rolls alone decide the foe's hp. */
  lemma {:induction false} StrikesFold(s: World, i: nat, t: nat, inputs: seq<Inputs>)
    requires Inv(s) && Ready(s) && Hunts(s, i, t) && Gap(s, i, t) == 1 && AlwaysDue(s, i, inputs)
    ensures s.chars[t].evasion > 0 && |Turns(s, i, inputs).chars| == |s.chars|
    ensures Turns(s, i, inputs).chars[t].hp == HpLeft(s.chars[i], s.chars[t], Rolls(inputs))
    decreases |inputs|
  {
    HuntsInRange(s, i, t);
    FoeHpIs(s, i, t, 0);
    if inputs == [] {
      assert Rolls(inputs) == [];
    } else {
      hide *;
      TurnsUnfold(s, i, inputs);
      StayBeside(s, i, t, inputs[0]);
      TurnApplies(s, i, inputs[0]);
      var n := Turn(s, i, inputs[0]);
      StrikesFold(n, i, t, inputs[1..]);
      RollsFront(inputs);
      HpLeftFront(s.chars[i], s.chars[t], inputs[0].roll, Rolls(inputs[1..]));
      FightAgain(s.chars[i], s.chars[t], n.chars[i], n.chars[t], inputs[0].roll, Rolls(inputs[1..]));
    }
  }

  lemma FightAgain(a: Char, t: Char, b: Char, u: Char, roll: nat, rolls: seq<nat>)
    requires FightsAlike(a, b) && FightsAlike(t, u) && t.evasion > 0 && u.hp == HpAfter(a, t, roll)
    ensures u.evasion > 0 && HpLeft(b, u, rolls) == HpLeft(a, t.(hp := HpAfter(a, t, roll)), rolls)
  {
    HpLeftAlike(a, t.(hp := HpAfter(a, t, roll)), b, u, rolls);
  }

  lemma RollsFront(inputs: seq<Inputs>)
    requires inputs != []
    ensures Rolls(inputs) == [inputs[0].roll] + Rolls(inputs[1..])
  {
  }

  lemma TurnsUnfold(s: World, i: nat, inputs: seq<Inputs>)
    requires Inv(s) && Ready(s) && i < |s.chars| && AlwaysDue(s, i, inputs) && inputs != []
    ensures var n := Turn(s, i, inputs[0]);
            && !s.chars[i].Idle(inputs[0].now) && Inv(n) && Ready(n) && i < |n.chars|
            && AlwaysDue(n, i, inputs[1..]) && Turns(s, i, inputs) == Turns(n, i, inputs[1..])
  {
    TurnApplies(s, i, inputs[0]);
  }

  /** The same turns as events of a run. */
  function TickEvents(i: nat, inputs: seq<Inputs>): seq<Event> {
    seq(|inputs|, k requires 0 <= k < |inputs| => Tick(i, inputs[k]))
  }

  lemma AimsToStrike(s: World, i: nat, t: nat, input: Inputs)
    requires Inv(s) && Ready(s) && Hunts(s, i, t) && Gap(s, i, t) == 1 && !s.chars[i].Idle(input.now)
    ensures i < |s.chars| && Strikes(s, i, input, t)
  {
    hide *;
    HuntsInRange(s, i, t);
    HoldsBeside(s, i, t);
    AimsAtFoe(s, i, t, input.stepNow);
    BesideIsNear(s, i, t);
    StrikesMeans(s, i, input, t);
    ReachesIs(Aimed(s, i, input.stepNow), s.chars[i], s.chars[t], i, t);
  }

  lemma ReachesIs(a: World, c: Char, f: Char, i: nat, t: nat)
    requires i < |a.chars| && t < |a.chars| && a.chars[t] == f && Dist(c, f) < 4
    requires a.chars[i].target == Some(t) && a.chars[i].nextStep == Nowhere && a.chars[i].x == c.x
             && a.chars[i].y == c.y
    ensures Reaches(a, i, t)
  {
  }

  /** Seen as a run, these turns are as many hits on the foe. */
  lemma {:induction false} StrikesCount(s: World, i: nat, t: nat, inputs: seq<Inputs>)
    requires Inv(s) && Ready(s) && Hunts(s, i, t) && Gap(s, i, t) == 1 && AlwaysDue(s, i, inputs)
    ensures Run(s, TickEvents(i, inputs), Turns(s, i, inputs))
    ensures Hits(s, TickEvents(i, inputs), t) == |inputs|
    decreases |inputs|
  {
    if inputs != [] {
      HuntsInRange(s, i, t);
      AimsToStrike(s, i, t, inputs[0]);
      StayBeside(s, i, t, inputs[0]);
      hide Turn, Inv, Ready, Hunts, Gap, Strikes, TickEvents;
      TurnsUnfold(s, i, inputs);
      EventsFront(i, inputs);
      StrikesCount(Turn(s, i, inputs[0]), i, t, inputs[1..]);
    }
  }

  lemma EventsFront(i: nat, inputs: seq<Inputs>)
    requires inputs != []
    ensures TickEvents(i, inputs) == [Tick(i, inputs[0])] + TickEvents(i, inputs[1..])
    ensures TickEvents(i, inputs)[1..] == TickEvents(i, inputs[1..])
  {
  }

  /** Both ends of 13 to 17 are real: from any state with a bot beside its only foe, both of level l and
      the foe at full health, 13 hits that roll 0 bring it to 0, and from level 5 on 16 hits that roll
      highest do not. */
  lemma HuntTight(s: World, i: nat, t: nat, l: nat, inputs: seq<Inputs>)
    requires Inv(s) && Ready(s) && Hunts(s, i, t) && Gap(s, i, t) == 1 && AlwaysDue(s, i, inputs)
    requires s.chars[i].lvl == l && s.chars[t].lvl == l && s.chars[t].hp == 100 * l
    ensures Hits(s, TickEvents(i, inputs), t) == |inputs| && Run(s, TickEvents(i, inputs), Turns(s, i, inputs))
    ensures |Turns(s, i, inputs).chars| == |s.chars|
    ensures Rolls(inputs) == seq(13, _ => 0) ==> Turns(s, i, inputs).chars[t].hp == 0
    ensures l > 4 && Rolls(inputs) == seq(16, _ => 2 * l - 1) ==> Turns(s, i, inputs).chars[t].hp > 0
  {
    assert Foe(s, i, t) && SoundChar(s, s.chars[i]) && SoundChar(s, s.chars[t]);
    hide Turns, Turn, Inv, Ready, HpLeft, Gap, AlwaysDue, Run, Hits;
    StrikesCount(s, i, t, inputs);
    StrikesFold(s, i, t, inputs);
    KnockOutTight(s.chars[i], s.chars[t], l);
  }
}
