/** What character_move_to_target's look-ahead amounts to for a bot, and how long a chase lasts. */
module Movement {
  import opened Options
  import opened Grid
  import opened World

  /** How far the target lies ahead in direction d; negative when it lies behind. */
  function Ahead(x: int, y: int, tx: int, ty: int, d: Direction): int {
    match d
    case West => tx - x
    case East => x - tx
    case North => ty - y
    case South => y - ty
    case Nowhere => 0
  }

  function Abs(x: int): nat {
    if x < 0 then -x else x
  }

  function Manhattan(x: int, y: int, tx: int, ty: int): nat {
    Abs(tx - x) + Abs(ty - y)
  }

  /** The neighbour in direction d is free and strictly closer to the target. */
  predicate Closer(s: World, x: int, y: int, tx: int, ty: int, d: Direction) {
    && d != Nowhere
    && s.Free(x + d.Dx(), y + d.Dy())
    && SumSq(tx - (x + d.Dx()), ty - (y + d.Dy())) < SumSq(tx - x, ty - y)
  }

  lemma SquareStep(a: int)
    ensures Sq(a - 1) == Sq(a) - 2 * a + 1
  {
  }

  /** One step in direction d changes the squared distance by 1 - 2 * Ahead. */
  lemma StepDist(x: int, y: int, tx: int, ty: int, d: Direction)
    requires d != Nowhere
    ensures SumSq(tx - (x + d.Dx()), ty - (y + d.Dy())) == SumSq(tx - x, ty - y) - 2 * Ahead(x, y, tx, ty, d) + 1
    ensures Ahead(x + d.Dx(), y + d.Dy(), tx, ty, d) == Ahead(x, y, tx, ty, d) - 1
  {
    match d
    case West => SquareStep(tx - x);
    case East => SquareStep(x - tx); assert Sq(tx - (x - 1)) == Sq((x - tx) - 1); assert Sq(tx - x) == Sq(x - tx);
    case North => SquareStep(ty - y);
    case South => SquareStep(y - ty); assert Sq(ty - (y - 1)) == Sq((y - ty) - 1); assert Sq(ty - y) == Sq(y - ty);
  }

  lemma LookUnfolds(s: World, x: int, y: int, d: Direction, steps: nat, tx: int, ty: int)
    ensures var nx, ny := x + d.Dx(), y + d.Dy();
            && (steps == 0 ==> Look(s, x, y, d, steps, tx, ty) == None)
            && (steps > 0 ==>
                  Look(s, x, y, d, steps, tx, ty) ==
                  if s.Free(nx, ny) then Least(Some(SumSq(tx - nx, ty - ny)), Look(s, nx, ny, d, steps - 1, tx, ty))
                  else None)
  {
  }

  /** Looking ahead finds something closer exactly when the first cell is free and the target lies
      ahead; otherwise everything it sees is farther away. It never sees an equal distance. */
  lemma {:induction false} LookMeaning(s: World, x: int, y: int, d: Direction, steps: nat, tx: int, ty: int)
    requires d != Nowhere
    ensures var seen := Look(s, x, y, d, steps, tx, ty);
            && (seen.Some? <==> steps > 0 && s.Free(x + d.Dx(), y + d.Dy()))
            && (seen.Some? && Ahead(x, y, tx, ty, d) > 0 ==> seen.value < SumSq(tx - x, ty - y))
            && (seen.Some? && Ahead(x, y, tx, ty, d) <= 0 ==> seen.value > SumSq(tx - x, ty - y))
    decreases steps
  {
    hide World.Free, SumSq, Ahead, Look;
    LookUnfolds(s, x, y, d, steps, tx, ty);
    StepDist(x, y, tx, ty, d);
    if steps > 0 && s.Free(x + d.Dx(), y + d.Dy()) {
      LookMeaning(s, x + d.Dx(), y + d.Dy(), d, steps - 1, tx, ty);
    }
  }

  lemma CloserMeaning(s: World, x: int, y: int, tx: int, ty: int, d: Direction)
    requires d != Nowhere
    ensures Closer(s, x, y, tx, ty, d) <==> s.Free(x + d.Dx(), y + d.Dy()) && Ahead(x, y, tx, ty, d) > 0
  {
    StepDist(x, y, tx, ty, d);
  }

  function Seen(s: World, x: int, y: int, tx: int, ty: int, d: Direction): Option<nat> {
    Look(s, x, y, d, VISIBILITY_RANGE, tx, ty)
  }

  lemma SeenMeaning(s: World, x: int, y: int, tx: int, ty: int, d: Direction)
    requires d != Nowhere
    ensures var seen := Seen(s, x, y, tx, ty, d);
            && (seen.Some? && seen.value <= SumSq(tx - x, ty - y) <==> Closer(s, x, y, tx, ty, d))
            && (Closer(s, x, y, tx, ty, d) ==> seen.value < SumSq(tx - x, ty - y))
  {
    LookMeaning(s, x, y, d, VISIBILITY_RANGE, tx, ty);
    CloserMeaning(s, x, y, tx, ty, d);
  }

  /** The choice is the first direction whose look-ahead value is least. */
  lemma ChooseMeaning(s: World, x: int, y: int, tx: int, ty: int)
    ensures var (d, least) := Choose(Seen(s, x, y, tx, ty, West), Seen(s, x, y, tx, ty, East),
                                     Seen(s, x, y, tx, ty, North), Seen(s, x, y, tx, ty, South));
            && (least.Some? <==> d != Nowhere)
            && (d != Nowhere ==> least == Seen(s, x, y, tx, ty, d))
            && (forall e: Direction :: e != Nowhere && Seen(s, x, y, tx, ty, e).Some? ==>
                  least.Some? && least.value <= Seen(s, x, y, tx, ty, e).value)
  {
    forall e: Direction | e != Nowhere && Seen(s, x, y, tx, ty, e).Some?
      ensures e in {West, East, North, South}
    {
      match e {
        case West | East | North | South =>
      }
    }
  }

  /** Bot movement is exactly greedy: the three-cell look-ahead moves the bot exactly when it is more
      than one away and some free neighbour is strictly closer, and then onto such a neighbour. */
  lemma BotIsGreedy(s: World, x: int, y: int, tx: int, ty: int)
    ensures var d := BotStep(s, x, y, tx, ty);
            && (d != Nowhere <==> SumSq(tx - x, ty - y) > 1 && exists e :: Closer(s, x, y, tx, ty, e))
            && (d != Nowhere ==> Closer(s, x, y, tx, ty, d))
  {
    ChooseMeaning(s, x, y, tx, ty);
    var (d, least) := Choose(Seen(s, x, y, tx, ty, West), Seen(s, x, y, tx, ty, East),
                             Seen(s, x, y, tx, ty, North), Seen(s, x, y, tx, ty, South));
    forall e: Direction | e != Nowhere
      ensures Seen(s, x, y, tx, ty, e).Some? && Seen(s, x, y, tx, ty, e).value <= SumSq(tx - x, ty - y) <==>
              Closer(s, x, y, tx, ty, e)
    {
      SeenMeaning(s, x, y, tx, ty, e);
    }
    if d != Nowhere {
      SeenMeaning(s, x, y, tx, ty, d);
    }
  }

  /** Among closer free neighbours the bot takes one whose three-cell look-ahead gets closest. */
  lemma BotLooksFarthest(s: World, x: int, y: int, tx: int, ty: int, e: Direction)
    requires BotStep(s, x, y, tx, ty) != Nowhere && e != Nowhere && Seen(s, x, y, tx, ty, e).Some?
    ensures var d := BotStep(s, x, y, tx, ty);
            Seen(s, x, y, tx, ty, d).Some? && Seen(s, x, y, tx, ty, d).value <= Seen(s, x, y, tx, ty, e).value
  {
    ChooseMeaning(s, x, y, tx, ty);
  }

  // ---- which direction, exactly -----------------------------------------------------------

  /** The k-th cell from (x, y) in direction d. */
  ghost function Cell(x: int, y: int, d: Direction, k: int): (int, int) {
    match d
    case West => (x + k, y)
    case East => (x - k, y)
    case North => (x, y + k)
    case South => (x, y - k)
    case Nowhere => (x, y)
  }

  /** The first k cells in direction d are free. */
  ghost predicate Clear(s: World, x: int, y: int, d: Direction, k: int) {
    forall j {:trigger Cell(x, y, d, j)} :: 1 <= j <= k ==> s.Free(Cell(x, y, d, j).0, Cell(x, y, d, j).1)
  }

  ghost function CellDistance(x: int, y: int, d: Direction, k: int, tx: int, ty: int): int {
    SquaredDistance(tx, ty, Cell(x, y, d, k).0, Cell(x, y, d, k).1)
  }

  /** The value seen is taken at a cell in sight, and is the least of them. */
  ghost predicate LeastInSight(s: World, x: int, y: int, d: Direction, steps: nat, tx: int, ty: int,
                               seen: Option<nat>) {
    && (seen.None? <==> steps == 0 || !Clear(s, x, y, d, 1))
    && (seen.Some? ==>
          exists k :: 1 <= k <= steps && Clear(s, x, y, d, k) && seen.value == CellDistance(x, y, d, k, tx, ty))
    && (forall k :: 1 <= k <= steps && Clear(s, x, y, d, k) ==>
        seen.Some? && seen.value <= CellDistance(x, y, d, k, tx, ty))
  }

  lemma CellNext(x: int, y: int, d: Direction, k: int)
    ensures Cell(x + d.Dx(), y + d.Dy(), d, k) == Cell(x, y, d, k + 1)
    ensures Cell(x, y, d, 1) == (x + d.Dx(), y + d.Dy())
  {
  }

  lemma ClearNext(s: World, x: int, y: int, d: Direction, k: int)
    requires k >= 0
    ensures Clear(s, x, y, d, 1) <==> s.Free(x + d.Dx(), y + d.Dy())
    ensures Clear(s, x, y, d, k + 1) <==>
            s.Free(x + d.Dx(), y + d.Dy()) && Clear(s, x + d.Dx(), y + d.Dy(), d, k)
  {
    hide World.Free, Cell;
    var nx, ny := x + d.Dx(), y + d.Dy();
    CellNext(x, y, d, 0);
    if Clear(s, x, y, d, k + 1) {
      assert s.Free(Cell(x, y, d, 1).0, Cell(x, y, d, 1).1);
      forall j {:trigger Cell(nx, ny, d, j)} | 1 <= j <= k
        ensures s.Free(Cell(nx, ny, d, j).0, Cell(nx, ny, d, j).1)
      {
        CellNext(x, y, d, j);
      }
    }
    if s.Free(nx, ny) && Clear(s, nx, ny, d, k) {
      forall j {:trigger Cell(x, y, d, j)} | 1 <= j <= k + 1
        ensures s.Free(Cell(x, y, d, j).0, Cell(x, y, d, j).1)
      {
        CellNext(x, y, d, j - 1);
        assert j > 1 ==> s.Free(Cell(nx, ny, d, j - 1).0, Cell(nx, ny, d, j - 1).1);
      }
    }
  }

  lemma {:induction false} LookIsLeast(s: World, x: int, y: int, d: Direction, steps: nat, tx: int, ty: int)
    ensures LeastInSight(s, x, y, d, steps, tx, ty, Look(s, x, y, d, steps, tx, ty))
    decreases steps
  {
    hide *;
    LookUnfolds(s, x, y, d, steps, tx, ty);
    var nx, ny := x + d.Dx(), y + d.Dy();
    ClearNext(s, x, y, d, 0);
    CellNext(x, y, d, 0);
    SumSqMeaning(tx, ty, nx, ny);
    if steps == 0 || !s.Free(nx, ny) {
      SeesNothing(s, x, y, d, steps, tx, ty);
    } else {
      LookIsLeast(s, nx, ny, d, steps - 1, tx, ty);
      SeesMore(s, x, y, d, steps, tx, ty, Look(s, nx, ny, d, steps - 1, tx, ty));
    }
  }

  lemma SeesNothing(s: World, x: int, y: int, d: Direction, steps: nat, tx: int, ty: int)
    requires steps == 0 || !Clear(s, x, y, d, 1)
    ensures LeastInSight(s, x, y, d, steps, tx, ty, None)
  {
    hide World.Free, Cell;
    forall k | 1 <= k
      ensures Clear(s, x, y, d, k) ==> Clear(s, x, y, d, 1)
    {
    }
  }

  lemma SeesMore(s: World, x: int, y: int, d: Direction, steps: nat, tx: int, ty: int, rest: Option<nat>)
    requires steps > 0 && s.Free(x + d.Dx(), y + d.Dy())
    requires LeastInSight(s, x + d.Dx(), y + d.Dy(), d, steps - 1, tx, ty, rest)
    ensures LeastInSight(s, x, y, d, steps, tx, ty, Least(Some(SumSq(tx - (x + d.Dx()), ty - (y + d.Dy()))), rest))
  {
    hide World.Free, SumSq, Cell, SquaredDistance, Clear;
    var nx, ny := x + d.Dx(), y + d.Dy();
    var first := SumSq(tx - nx, ty - ny);
    var seen := Least(Some(first), rest);
    SumSqMeaning(tx, ty, nx, ny);
    CellNext(x, y, d, 0);
    ClearNext(s, x, y, d, 0);
    assert first == CellDistance(x, y, d, 1, tx, ty);
    forall k | 1 <= k <= steps && Clear(s, x, y, d, k)
      ensures seen.value <= CellDistance(x, y, d, k, tx, ty)
    {
      if k > 1 {
        ClearNext(s, x, y, d, k - 1);
        CellNext(x, y, d, k - 1);
        assert CellDistance(nx, ny, d, k - 1, tx, ty) == CellDistance(x, y, d, k, tx, ty);
      }
    }
    if seen == rest {
      var k :| 1 <= k <= steps - 1 && Clear(s, nx, ny, d, k) && rest.value == CellDistance(nx, ny, d, k, tx, ty);
      ClearNext(s, x, y, d, k);
      CellNext(x, y, d, k);
      assert CellDistance(nx, ny, d, k, tx, ty) == CellDistance(x, y, d, k + 1, tx, ty);
    }
  }

  /** What a bot sees in direction d: the least squared distance to the target over the cells up to three
      away, as far as they are free. */
  lemma SeenExactly(s: World, x: int, y: int, tx: int, ty: int, d: Direction)
    ensures LeastInSight(s, x, y, d, 3, tx, ty, Seen(s, x, y, tx, ty, d))
  {
    LookIsLeast(s, x, y, d, 3, tx, ty);
  }

  /** The order in which the source compares directions. */
  predicate Before(e: Direction, d: Direction) {
    || (e == West && d in [East, North, South])
    || (e == East && d in [North, South])
    || (e == North && d == South)
  }

  /** Direction d sees at least as close to the target as every other, and closer than every earlier one. */
  ghost predicate FirstLeast(s: World, x: int, y: int, tx: int, ty: int, d: Direction) {
    && Seen(s, x, y, tx, ty, d).Some?
    && forall e: Direction :: e != Nowhere && e != d && Seen(s, x, y, tx, ty, e).Some? ==>
         && Seen(s, x, y, tx, ty, d).value <= Seen(s, x, y, tx, ty, e).value
         && (Before(e, d) ==> Seen(s, x, y, tx, ty, d).value < Seen(s, x, y, tx, ty, e).value)
  }

  lemma ChooseFirst(s: World, x: int, y: int, tx: int, ty: int)
    ensures var (d, least) := Choose(Seen(s, x, y, tx, ty, West), Seen(s, x, y, tx, ty, East),
                                     Seen(s, x, y, tx, ty, North), Seen(s, x, y, tx, ty, South));
            && (least.Some? <==> d != Nowhere)
            && (d != Nowhere ==> least == Seen(s, x, y, tx, ty, d) && FirstLeast(s, x, y, tx, ty, d))
            && (d == Nowhere ==> forall e: Direction :: e != Nowhere ==> Seen(s, x, y, tx, ty, e).None?)
  {
    hide Seen;
    forall e: Direction | e != Nowhere && Seen(s, x, y, tx, ty, e).Some?
      ensures e in {West, East, North, South}
    {
      match e {
        case West | East | North | South =>
      }
    }
  }

  lemma FirstLeastUnique(s: World, x: int, y: int, tx: int, ty: int, d: Direction, e: Direction)
    requires d != Nowhere && e != Nowhere && FirstLeast(s, x, y, tx, ty, d) && FirstLeast(s, x, y, tx, ty, e)
    ensures d == e
  {
    hide Seen;
    assert d == e || Before(d, e) || Before(e, d);
  }

  /** A bot's step is fully determined: it goes in direction d exactly if its target is more than one
      away, d looks at least as near as the bot stands, no direction looks nearer, and no earlier one in the
      order west, east, north, south looks as near. */
  lemma BotStepExactly(s: World, x: int, y: int, tx: int, ty: int, d: Direction)
    requires d != Nowhere
    ensures BotStep(s, x, y, tx, ty) == d <==>
            && SquaredDistance(tx, ty, x, y) > 1 && FirstLeast(s, x, y, tx, ty, d)
            && Seen(s, x, y, tx, ty, d).Some? && Seen(s, x, y, tx, ty, d).value <= SquaredDistance(tx, ty, x, y)
  {
    SumSqMeaning(tx, ty, x, y);
    ChooseFirst(s, x, y, tx, ty);
    hide SumSq, SquaredDistance, Look, FirstLeast, Choose;
    var (e, least) := Choose(Seen(s, x, y, tx, ty, West), Seen(s, x, y, tx, ty, East),
                             Seen(s, x, y, tx, ty, North), Seen(s, x, y, tx, ty, South));
    if e != Nowhere && FirstLeast(s, x, y, tx, ty, d) {
      FirstLeastUnique(s, x, y, tx, ty, d, e);
    }
    if FirstLeast(s, x, y, tx, ty, d) {
      SeesIfFirst(s, x, y, tx, ty, d);
    }
  }

  lemma SeesIfFirst(s: World, x: int, y: int, tx: int, ty: int, d: Direction)
    requires FirstLeast(s, x, y, tx, ty, d)
    ensures Seen(s, x, y, tx, ty, d).Some?
  {
  }

  /** A step onto a closer neighbour lowers the Manhattan distance by exactly one. */
  lemma CloserLowersManhattan(s: World, x: int, y: int, tx: int, ty: int, d: Direction)
    requires Closer(s, x, y, tx, ty, d)
    ensures Manhattan(x + d.Dx(), y + d.Dy(), tx, ty) == Manhattan(x, y, tx, ty) - 1
  {
    CloserMeaning(s, x, y, tx, ty, d);
  }

  lemma NearMeaning(x: int, y: int, tx: int, ty: int)
    ensures SumSq(tx - x, ty - y) <= 1 <==> Manhattan(x, y, tx, ty) <= 1
  {
    SquareSize(tx - x);
    SquareSize(ty - y);
  }

  lemma SquareSize(a: int)
    ensures a == 0 ==> Sq(a) == 0
    ensures Abs(a) == 1 ==> Sq(a) == 1
    ensures Abs(a) > 1 ==> Sq(a) > 1
  {
    if a > 1 {
      assert SquareOf(a) >= 2 * a - 1;
    } else if a < -1 {
      assert SquareOf(-a) >= 2 * -a - 1;
    }
  }

  // ---- the chase --------------------------------------------------------------------------

  lemma StepNearer(s: World, x: int, y: int, tx: int, ty: int)
    ensures var d := BotStep(s, x, y, tx, ty);
            d != Nowhere ==> Manhattan(x + d.Dx(), y + d.Dy(), tx, ty) == Manhattan(x, y, tx, ty) - 1
  {
    BotIsGreedy(s, x, y, tx, ty);
    if BotStep(s, x, y, tx, ty) != Nowhere {
      CloserLowersManhattan(s, x, y, tx, ty, BotStep(s, x, y, tx, ty));
    }
  }

  /** The number of steps a bot takes from (x, y) towards a target that stays at (tx, ty), in a world
      in which nothing else moves and from which the bot itself has been lifted. */
  function Chase(s: World, x: int, y: int, tx: int, ty: int): nat
    decreases Manhattan(x, y, tx, ty)
  {
    var d := BotStep(s, x, y, tx, ty);
    StepNearer(s, x, y, tx, ty);
    if d == Nowhere then 0
    else
      1 + Chase(s, x + d.Dx(), y + d.Dy(), tx, ty)
  }

  lemma ChaseUnfolds(s: World, x: int, y: int, tx: int, ty: int)
    ensures var d := BotStep(s, x, y, tx, ty);
            Chase(s, x, y, tx, ty) == if d == Nowhere then 0 else 1 + Chase(s, x + d.Dx(), y + d.Dy(), tx, ty)
  {
    hide BotStep, Manhattan;
  }

  lemma Apart(x: int, y: int, tx: int, ty: int)
    ensures Manhattan(x, y, tx, ty) >= 1 <==> (x, y) != (tx, ty)
  {
  }

  /** A bot's step, if it takes one, is onto another cell than its target's, one nearer to it. */
  lemma ChaseStep(s: World, x: int, y: int, tx: int, ty: int)
    requires !s.Free(tx, ty) && BotStep(s, x, y, tx, ty) != Nowhere
    ensures var d := BotStep(s, x, y, tx, ty);
            var nx, ny := x + d.Dx(), y + d.Dy();
            (nx, ny) != (tx, ty) && Manhattan(nx, ny, tx, ty) == Manhattan(x, y, tx, ty) - 1
  {
    StepNearer(s, x, y, tx, ty);
    BotIsGreedy(s, x, y, tx, ty);
  }

  /** A chase takes at most |dx| + |dy| - 1 steps. */
  lemma {:induction false} ChaseBound(s: World, x: int, y: int, tx: int, ty: int)
    requires (x, y) != (tx, ty) && !s.Free(tx, ty)
    ensures Chase(s, x, y, tx, ty) <= Manhattan(x, y, tx, ty) - 1
    decreases Manhattan(x, y, tx, ty)
  {
    hide *;
    Apart(x, y, tx, ty);
    ChaseUnfolds(s, x, y, tx, ty);
    var d := BotStep(s, x, y, tx, ty);
    if d != Nowhere {
      ChaseStep(s, x, y, tx, ty);
      ChaseBound(s, x + d.Dx(), y + d.Dy(), tx, ty);
    }
  }

  /** Every cell of the box spanned by (x, y) and the target is free, but for these two. */
  ghost predicate Unobstructed(s: World, x: int, y: int, tx: int, ty: int) {
    forall px, py {:trigger s.Free(px, py)} ::
      Within(x, px, tx) && Within(y, py, ty) && (px, py) != (tx, ty) && (px, py) != (x, y) ==> s.Free(px, py)
  }

  predicate Within(a: int, p: int, b: int) {
    a <= p <= b || b <= p <= a
  }

  lemma UnobstructedMoves(s: World, x: int, y: int, tx: int, ty: int)
    requires Unobstructed(s, x, y, tx, ty) && Manhattan(x, y, tx, ty) > 1
    ensures BotStep(s, x, y, tx, ty) != Nowhere
  {
    var d := if Abs(tx - x) >= Abs(ty - y) then if tx > x then West else East
             else if ty > y then North else South;
    assert s.Free(x + d.Dx(), y + d.Dy());
    CloserMeaning(s, x, y, tx, ty, d);
    NearMeaning(x, y, tx, ty);
    BotIsGreedy(s, x, y, tx, ty);
  }

  lemma UnobstructedStays(s: World, x: int, y: int, tx: int, ty: int, d: Direction)
    requires Unobstructed(s, x, y, tx, ty) && Closer(s, x, y, tx, ty, d)
    ensures Unobstructed(s, x + d.Dx(), y + d.Dy(), tx, ty)
  {
    CloserMeaning(s, x, y, tx, ty, d);
  }

  lemma OpenStep(s: World, x: int, y: int, tx: int, ty: int)
    requires !s.Free(tx, ty) && Unobstructed(s, x, y, tx, ty) && Manhattan(x, y, tx, ty) > 1
    ensures var d := BotStep(s, x, y, tx, ty);
            var nx, ny := x + d.Dx(), y + d.Dy();
            && d != Nowhere && (nx, ny) != (tx, ty) && Unobstructed(s, nx, ny, tx, ty)
            && Manhattan(nx, ny, tx, ty) == Manhattan(x, y, tx, ty) - 1
  {
    UnobstructedMoves(s, x, y, tx, ty);
    var d := BotStep(s, x, y, tx, ty);
    ChaseStep(s, x, y, tx, ty);
    BotIsGreedy(s, x, y, tx, ty);
    UnobstructedStays(s, x, y, tx, ty, d);
  }

  /** On open land the chase takes exactly |dx| + |dy| - 1 steps, the last of which ends beside the
      target. */
  lemma {:induction false} ChaseExact(s: World, x: int, y: int, tx: int, ty: int)
    requires (x, y) != (tx, ty) && !s.Free(tx, ty) && Unobstructed(s, x, y, tx, ty)
    ensures Chase(s, x, y, tx, ty) == Manhattan(x, y, tx, ty) - 1
    decreases Manhattan(x, y, tx, ty)
  {
    hide *;
    Apart(x, y, tx, ty);
    ChaseBound(s, x, y, tx, ty);
    if Manhattan(x, y, tx, ty) > 1 {
      OpenStep(s, x, y, tx, ty);
      ChaseUnfolds(s, x, y, tx, ty);
      var d := BotStep(s, x, y, tx, ty);
      ChaseExact(s, x + d.Dx(), y + d.Dy(), tx, ty);
    }
  }
}
