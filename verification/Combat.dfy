/** How many hits a fight takes (character_new and character_damage of src/game_processing/character.c). */
module Combat {
  import opened Options
  import opened World
  import opened Ticks

  /** The characteristics of a level-L character. */
  ghost predicate Built(c: Char, l: int) {
    c.lvl == l && c.power == BasePower(c.race) * l && c.armor == BaseArmor(c.race) * l && c.evasion == 2 * l
  }

  /** Among foes of one level each hit takes between 6L + 1 and 8L points before clamping. */
  lemma DamageRange(a: Char, t: Char, l: int, roll: nat)
    requires l >= 1 && Built(a, l) && Built(t, l) && a.race != t.race
    ensures 6 * l + 1 <= Damage(a, t, roll) <= 8 * l
  {
    assert 0 <= roll % t.evasion < t.evasion;
  }

  /** Both ends of the range are taken. */
  lemma DamageRangeTight(a: Char, t: Char, l: nat)
    requires l >= 1 && Built(a, l) && Built(t, l) && a.race != t.race
    ensures Damage(a, t, 0) == 8 * l && Damage(a, t, 2 * l - 1) == 6 * l + 1
  {
    assert 0 % t.evasion == 0;
    assert (2 * l - 1) % t.evasion == 2 * l - 1;
  }

  /** The target's hp after a series of hits. */
  function HpLeft(a: Char, t: Char, rolls: seq<nat>): int
    requires t.evasion > 0
  {
    if rolls == [] then t.hp else HpAfter(a, t.(hp := HpLeft(a, t, rolls[..|rolls| - 1])), rolls[|rolls| - 1])
  }

  /** n hits of k points each. */
  function Times(n: nat, k: nat): nat {
    if n == 0 then 0 else Times(n - 1, k) + k
  }

  lemma {:induction false} TimesMonotone(m: nat, n: nat, k: nat)
    requires m <= n
    ensures Times(m, k) <= Times(n, k)
  {
    if m < n {
      TimesMonotone(m, n - 1, k);
    }
  }

  lemma {:induction false} TimesMeaning(n: nat, k: nat)
    ensures Times(n, k) == n * k
  {
    if n > 0 {
      TimesMeaning(n - 1, k);
    }
  }

  /** 13 hits can do, by always rolling 0, and from level 5 on 16 need not, by always rolling the most. */
  lemma KnockOutTight(a: Char, t: Char, l: nat)
    requires l >= 1 && Built(a, l) && Built(t, l) && a.race != t.race && t.hp == 100 * l
    ensures HpLeft(a, t, seq(13, _ => 0)) == 0
    ensures l > 4 ==> HpLeft(a, t, seq(16, _ => 2 * l - 1)) > 0
  {
    ConstantRolls(a, t, l, 0, 8 * l, 13);
    TimesMeaning(13, 8 * l);
    if l > 4 {
      ConstantRolls(a, t, l, 2 * l - 1, 6 * l + 1, 16);
      TimesMeaning(16, 6 * l + 1);
    }
  }

  lemma {:induction false} ConstantRolls(a: Char, t: Char, l: nat, roll: nat, damage: nat, n: nat)
    requires l >= 1 && Built(a, l) && Built(t, l) && a.race != t.race && t.hp == 100 * l
    requires (roll == 0 && damage == 8 * l) || (roll == 2 * l - 1 && damage == 6 * l + 1)
    ensures HpLeft(a, t, seq(n, _ => roll)) == if t.hp - Times(n, damage) < 0 then 0 else t.hp - Times(n, damage)
  {
    if n > 0 {
      ConstantRolls(a, t, l, roll, damage, n - 1);
      assert seq(n, _ => roll)[..n - 1] == seq(n - 1, _ => roll);
      DamageRangeTight(a, t.(hp := HpLeft(a, t, seq(n - 1, _ => roll))), l);
    }
  }

  // ---- hits over a run --------------------------------------------------------------------

  /** Character i, with its target and its step chosen, stands still with k within reach. */
  predicate Reaches(a: World, i: nat, k: nat) {
    && i < |a.chars| && k < |a.chars|
    && a.chars[i].nextStep == Nowhere && a.chars[i].target == Some(k) && Dist(a.chars[i], a.chars[k]) < 4
  }

  /** A due turn of character i strikes character k. */
  predicate Strikes(s: World, i: nat, input: Inputs, k: nat)
    requires i < |s.chars| && Ready(s)
  {
    !s.chars[i].Idle(input.now) && Reaches(Aimed(s, i, input.stepNow), i, k)
  }

  predicate IsHit(s: World, e: Event, k: nat)
    requires Enabled(s, e) && Ready(s)
  {
    e.Tick? && Strikes(s, e.i, e.input, k)
  }

  /** How often a run strikes character k, whoever strikes. */
  function Hits(s: World, es: seq<Event>, k: nat): nat
    decreases |es|
  {
    if es == [] || !Enabled(s, es[0]) || !Ready(s) then 0
    else (if IsHit(s, es[0], k) then 1 else 0) + Hits(Apply(s, es[0]), es[1..], k)
  }

  /** In every reachable state characters are built for their level, and whoever a turn chooses to strike
      is a foe that can be hit; between characters of one level the hit stays in the range. */
  lemma ReachableHit(s: World, es: seq<Event>, t: World, i: nat, k: nat, stepNow: int, roll: nat)
    requires Inv(s) && Run(s, es, t) && i < |t.chars|
    ensures Ready(t) && |Aimed(t, i, stepNow).chars| == |t.chars|
    ensures Aimed(t, i, stepNow).chars[i].target == Some(k) ==> k < |t.chars|
    ensures Aimed(t, i, stepNow).chars[i].target == Some(k) ==>
              var a, b := Aimed(t, i, stepNow).chars[i], Aimed(t, i, stepNow).chars[k];
              && k != i && a.race != b.race && b.evasion > 0
              && (a.lvl == b.lvl ==> 6 * a.lvl + 1 <= Damage(a, b, roll) <= 8 * a.lvl)
  {
    hide *;
    RunKeeps(s, es, t);
    InvMeans(t);
    SoundIsReady(t);
    AimSound(t, i, stepNow);
    AimedReady(t, i, stepNow);
    if Aimed(t, i, stepNow).chars[i].target == Some(k) {
      SoundHit(Aimed(t, i, stepNow), i, k, roll);
    }
  }

  /** Targets of sound characters. */
  lemma SoundHit(a: World, i: nat, k: nat, roll: nat)
    requires Sound(a) && i < |a.chars| && a.chars[i].target == Some(k)
    ensures k < |a.chars| && k != i && a.chars[i].race != a.chars[k].race && a.chars[k].evasion > 0
    ensures a.chars[i].lvl == a.chars[k].lvl ==>
              6 * a.chars[i].lvl + 1 <= Damage(a.chars[i], a.chars[k], roll) <= 8 * a.chars[i].lvl
  {
    assert SoundChar(a, a.chars[i]) && SoundChar(a, a.chars[k]);
    if a.chars[i].lvl == a.chars[k].lvl {
      DamageRange(a.chars[i], a.chars[k], a.chars[i].lvl, roll);
    }
  }

  /** What the act and the landing do to the hp of character k. */
  lemma ActHp(a: World, i: nat, k: nat, roll: nat)
    requires i < |a.chars| && k < |a.chars| && TargetKnown(a, a.chars[i]) && Fightable(a)
    requires a.chars[i].target != Some(i)
    ensures |Landed(Acted(a, i, roll), i).chars| == |a.chars|
    ensures Landed(Acted(a, i, roll), i).chars[k].hp ==
            if Reaches(a, i, k) then HpAfter(a.chars[i], a.chars[k], roll) else a.chars[k].hp
  {
  }

  lemma AimedHp(s: World, i: nat, k: nat, stepNow: int)
    requires i < |s.chars| && k < |s.chars| && Ready(s)
    ensures |Aimed(s, i, stepNow).chars| == |s.chars|
    ensures Aimed(s, i, stepNow).chars[k].hp == s.chars[k].hp && Aimed(s, i, stepNow).chars[k].lvl == s.chars[k].lvl
  {
    RetargetedKnows(s, i);
  }

  /** Points taken by a hit of level l, down to 0. */
  predicate HitBy(before: int, after: int, l: nat) {
    && before - 8 * l <= after <= before && 0 <= after
    && (after > 0 ==> after <= before - (6 * l + 1))
  }

  /** A character's hp changes by being struck, and in no other way. */
  lemma TurnHp(s: World, i: nat, input: Inputs, k: nat)
    requires Inv(s) && Ready(s) && i < |s.chars| && k < |s.chars|
    ensures |Turn(s, i, input).chars| == |s.chars|
    ensures !Strikes(s, i, input, k) ==> Turn(s, i, input).chars[k].hp == s.chars[k].hp
    ensures Strikes(s, i, input, k) && s.chars[i].lvl == s.chars[k].lvl && s.chars[k].lvl >= 0 ==>
              HitBy(s.chars[k].hp, Turn(s, i, input).chars[k].hp, s.chars[k].lvl)
  {
    hide *;
    InvMeans(s);
    TurnUnfolds(s, i, input);
    StrikesMeans(s, i, input, k);
    if !s.chars[i].Idle(input.now) {
      var a := Aimed(s, i, input.stepNow);
      AimSound(s, i, input.stepNow);
      AimedHp(s, i, k, input.stepNow);
      AimedHp(s, i, i, input.stepNow);
      NotItself(a, i);
      ActHp(a, i, k, input.roll);
      if Reaches(a, i, k) {
        StruckHp(a, i, k, input.roll);
      }
    }
  }

  lemma InvMeans(s: World)
    requires Inv(s)
    ensures Placed(s) && Sound(s)
  {
  }

  lemma StrikesMeans(s: World, i: nat, input: Inputs, k: nat)
    requires i < |s.chars| && Ready(s)
    ensures Strikes(s, i, input, k) <==> !s.chars[i].Idle(input.now) && Reaches(Aimed(s, i, input.stepNow), i, k)
  {
  }

  lemma NotItself(a: World, i: nat)
    requires Sound(a) && i < |a.chars|
    ensures a.chars[i].target != Some(i)
  {
    assert SoundChar(a, a.chars[i]);
  }

  lemma StruckHp(a: World, i: nat, k: nat, roll: nat)
    requires Sound(a) && Reaches(a, i, k)
    ensures i < |a.chars| && k < |a.chars| && a.chars[k].evasion > 0
    ensures a.chars[i].lvl == a.chars[k].lvl && a.chars[k].lvl >= 0 ==>
              HitBy(a.chars[k].hp, HpAfter(a.chars[i], a.chars[k], roll), a.chars[k].lvl)
  {
    SoundHit(a, i, k, roll);
    assert SoundChar(a, a.chars[k]);
  }

  /** Everybody, and every newcomer, has level l. */
  ghost predicate Levelled(s: World, l: nat) {
    forall j :: 0 <= j < |s.chars| ==> s.chars[j].lvl == l
  }

  ghost predicate JoinAt(es: seq<Event>, l: nat) {
    forall e :: e in es && e.Join? ==> e.lvl == l
  }

  lemma ApplyHp(s: World, e: Event, k: nat)
    requires Inv(s) && Ready(s) && Enabled(s, e) && k < |s.chars|
    ensures k < |Apply(s, e).chars|
    ensures !IsHit(s, e, k) ==> Apply(s, e).chars[k].hp == s.chars[k].hp
    ensures IsHit(s, e, k) ==> e.Tick? && e.i < |s.chars|
    ensures IsHit(s, e, k) && s.chars[e.i].lvl == s.chars[k].lvl && s.chars[k].lvl >= 0 ==>
              HitBy(s.chars[k].hp, Apply(s, e).chars[k].hp, s.chars[k].lvl)
  {
    if e.Tick? {
      hide Turn, Strikes, Inv, Ready, HitBy;
      TurnHp(s, e.i, e.input, k);
    }
  }

  lemma StaysLevelled(s: World, e: Event, l: nat)
    requires Inv(s) && Ready(s) && Enabled(s, e) && Levelled(s, l) && (e.Join? ==> e.lvl == l)
    ensures Levelled(Apply(s, e), l)
  {
    ApplyKeeps(s, e);
    CrewGrows(s, e);
  }

  /** Only Join adds a character. */
  lemma CrewGrows(s: World, e: Event)
    requires Inv(s) && Ready(s) && Enabled(s, e)
    ensures |Apply(s, e).chars| == |s.chars| + (if e.Join? then 1 else 0)
    ensures e.Join? ==> Apply(s, e).chars[|s.chars|].lvl == e.lvl
  {
    if e.Tick? {
      InvMeans(s);
      hide Turn;
      TurnKeepsPlaces(s, e.i, e.input);
    }
  }

  lemma RunUnfolds(s: World, es: seq<Event>, t: World, k: nat)
    requires Run(s, es, t)
    ensures es == [] ==> t == s && Hits(s, es, k) == 0
    ensures es != [] ==>
              && Enabled(s, es[0]) && Ready(s) && Run(Apply(s, es[0]), es[1..], t)
              && Hits(s, es, k) == (if IsHit(s, es[0], k) then 1 else 0) + Hits(Apply(s, es[0]), es[1..], k)
  {
  }

  /** Nothing but being struck ever changes anybody's hp, whatever the levels. */
  lemma {:induction false} UnstruckUnhurt(s: World, es: seq<Event>, t: World, k: nat)
    requires Inv(s) && Run(s, es, t) && k < |s.chars| && Hits(s, es, k) == 0
    ensures k < |t.chars| && t.chars[k].hp == s.chars[k].hp
    decreases |es|
  {
    hide *;
    RunUnfolds(s, es, t, k);
    if es != [] {
      ApplyKeeps(s, es[0]);
      ApplyHp(s, es[0], k);
      UnstruckUnhurt(Apply(s, es[0]), es[1..], t, k);
    }
  }

  lemma JoinAtSplit(es: seq<Event>, l: nat)
    requires JoinAt(es, l) && es != []
    ensures (es[0].Join? ==> es[0].lvl == l) && JoinAt(es[1..], l)
  {
  }

  lemma LevelIs(s: World, l: nat, k: nat)
    requires Levelled(s, l) && k < |s.chars|
    ensures s.chars[k].lvl == l
  {
  }

  /** n hits of level l. */
  predicate HitsBy(before: int, after: int, l: nat, n: nat) {
    before - Times(n, 8 * l) <= after && (after > 0 ==> after <= before - Times(n, 6 * l + 1))
  }

  lemma HitsNone(hp: int, l: nat)
    ensures HitsBy(hp, hp, l, 0)
  {
  }

  lemma HitsOneMore(before: int, middle: int, after: int, l: nat, n: nat)
    requires HitBy(before, middle, l) && HitsBy(middle, after, l, n) && after <= middle
    ensures HitsBy(before, after, l, n + 1)
  {
  }

  /** Over any run among characters of one level, whoever strikes and whatever happens in between. */
  lemma {:induction false} RunHits(s: World, es: seq<Event>, t: World, k: nat, l: nat)
    requires Inv(s) && Run(s, es, t) && k < |s.chars| && Levelled(s, l) && JoinAt(es, l)
    ensures k < |t.chars| && HitsBy(s.chars[k].hp, t.chars[k].hp, l, Hits(s, es, k))
    decreases |es|
  {
    hide *;
    RunUnfolds(s, es, t, k);
    if es == [] {
      HitsNone(s.chars[k].hp, l);
    } else {
      var n := Apply(s, es[0]);
      JoinAtSplit(es, l);
      ApplyKeeps(s, es[0]);
      ApplyHp(s, es[0], k);
      StaysLevelled(s, es[0], l);
      RunHits(n, es[1..], t, k, l);
      if IsHit(s, es[0], k) {
        LevelIs(s, l, k);
        LevelIs(s, l, es[0].i);
        HpFalls(n, es[1..], t, k);
        HitsOneMore(s.chars[k].hp, n.chars[k].hp, t.chars[k].hp, l, Hits(n, es[1..], k));
      }
    }
  }

  lemma HpFalls(s: World, es: seq<Event>, t: World, k: nat)
    requires Inv(s) && Run(s, es, t) && k < |s.chars|
    ensures k < |t.chars| && 0 <= t.chars[k].hp <= s.chars[k].hp
  {
    RunKeeps(s, es, t);
    assert SoundChar(t, t.chars[k]);
  }

  /** In any run among characters of one level, a character at full health is alive after up to 12 hits
      and at 0 after 17: it first reaches 0 with its 13th to 17th hit. */
  lemma KnockOut(s: World, es: seq<Event>, t: World, k: nat, l: nat)
    requires Inv(s) && Run(s, es, t) && k < |s.chars| && s.chars[k].hp == 100 * l
    requires l >= 1 && Levelled(s, l) && JoinAt(es, l)
    ensures k < |t.chars|
    ensures Hits(s, es, k) <= 12 ==> t.chars[k].hp > 0
    ensures Hits(s, es, k) >= 17 ==> t.chars[k].hp == 0
  {
    RunHits(s, es, t, k, l);
    HpFalls(s, es, t, k);
    hide *;
    HitsMean(s.chars[k].hp, t.chars[k].hp, l, Hits(s, es, k));
  }

  lemma HitsMean(before: int, after: int, l: nat, n: nat)
    requires HitsBy(before, after, l, n) && before == 100 * l && l >= 1
    ensures n <= 12 ==> after > 0
    ensures n >= 17 ==> after <= 0
  {
    if n <= 12 {
      TimesMonotone(n, 12, 8 * l);
      TimesMeaning(12, 8 * l);
    } else if n >= 17 {
      TimesMonotone(17, n, 6 * l + 1);
      TimesMeaning(17, 6 * l + 1);
    }
  }
}
