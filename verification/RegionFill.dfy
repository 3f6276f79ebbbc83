/** set_region of src/game_processing/map.c: queue-driven flood fill over the flat cell array. */
module RegionFill {
  import opened Grid
  import opened LinkedQueue

  /** The cells of ground g that no region has claimed yet. */
  ghost function Open(cells: seq<MapPoint>, g: Ground): set<int> {
    set i | 0 <= i < |cells| && cells[i].ground == g && cells[i].region == UNLABELLED
  }

  ghost function Unlabelled(cells: seq<MapPoint>): set<int> {
    set i | 0 <= i < |cells| && cells[i].region == UNLABELLED
  }

  /** `cells` after every open cell of ground g reachable from seed through open cells got label r. */
  ghost predicate Filled(before: seq<MapPoint>, after: seq<MapPoint>, w: nat, g: Ground, r: int, seed: int)
    requires w > 0
  {
    && |after| == |before|
    && forall i :: 0 <= i < |before| ==>
         after[i] == if Reach(w, Open(before, g), seed, i) then before[i].(region := r) else before[i]
  }

  /** The state of the fill: `order` lists the cells enqueued so far, each once and in order; exactly
      these are relabelled, all are reachable from the seed, and the first k of them have been
      dequeued and have no open neighbour left outside. */
  ghost predicate Flooding(before: seq<MapPoint>, cells: seq<MapPoint>, w: nat, g: Ground, r: int, seed: int,
                           order: seq<int>, k: nat)
    requires w > 0
  {
    && Relabelled(before, cells, w, g, r, seed, order)
    && k <= |order|
    && forall n, j :: 0 <= n < k && Adjacent(w, order[n], j) && j in Open(before, g) ==> j in order
  }

  ghost predicate Relabelled(before: seq<MapPoint>, cells: seq<MapPoint>, w: nat, g: Ground, r: int, seed: int,
                             order: seq<int>)
    requires w > 0
  {
    && |cells| == |before|
    && seed in order
    && (forall m, n :: 0 <= m < n < |order| ==> order[m] != order[n])
    && (forall i :: i in order ==> i in Open(before, g) && Reach(w, Open(before, g), seed, i))
    && (forall i :: 0 <= i < |before| ==> cells[i] == if i in order then before[i].(region := r) else before[i])
  }

  lemma CounterFits(g: Ground, r: nat)
    requires g.Land()
    ensures g.Code() < GROUND_TYPE_CNT && r != UNLABELLED
  {
  }

  /** The next cell to dequeue lies in the map. */
  lemma Ordered(before: seq<MapPoint>, cells: seq<MapPoint>, w: nat, g: Ground, r: int, seed: int, order: seq<int>,
                k: nat)
    requires w > 0 && Flooding(before, cells, w, g, r, seed, order, k) && k < |order|
    ensures 0 <= order[k] < |cells| && order[k..][1..] == order[k + 1..]
  {
    assert order[k] in order;
  }

  lemma PlacesKept(before: seq<MapPoint>, cells: seq<MapPoint>, w: nat, g: Ground, r: int, seed: int, order: seq<int>,
                   k: nat)
    requires w > 0 && Flooding(before, cells, w, g, r, seed, order, k)
    ensures |cells| == |before|
    ensures forall i :: 0 <= i < |cells| ==> cells[i].x == before[i].x && cells[i].y == before[i].y
  {
  }

  // ---- steps of the fill ------------------------------------------------------------------

  lemma StartFill(before: seq<MapPoint>, w: nat, h: nat, g: Ground, r: int, seed: int)
    requires Shaped(before, w, h) && 0 <= seed < |before| && r != UNLABELLED
    requires before[seed].ground == g && before[seed].region == UNLABELLED
    ensures w > 0
    ensures Flooding(before, before[seed := before[seed].(region := r)], w, g, r, seed, [seed], 0)
    ensures |Unlabelled(before[seed := before[seed].(region := r)])| == |Unlabelled(before)| - 1
  {
    assert before[seed].x < w;
    ReachSelf(w, Open(before, g), seed);
    assert Unlabelled(before[seed := before[seed].(region := r)]) == Unlabelled(before) - {seed}
        && seed in Unlabelled(before);
  }

  /** The source's test of a neighbour: it is open now exactly when it was open at the start and has
      not been enqueued. */
  lemma OpenNow(before: seq<MapPoint>, cells: seq<MapPoint>, w: nat, g: Ground, r: int, seed: int, order: seq<int>,
                j: int)
    requires w > 0 && r != UNLABELLED && Relabelled(before, cells, w, g, r, seed, order) && 0 <= j < |cells|
    ensures cells[j].ground == g && cells[j].region == UNLABELLED <==> j in Open(before, g) && j !in order
  {
  }

  lemma EnqueueCell(before: seq<MapPoint>, cells: seq<MapPoint>, w: nat, g: Ground, r: int, seed: int,
                    order: seq<int>, k: nat, j: int)
    requires w > 0 && r != UNLABELLED && Flooding(before, cells, w, g, r, seed, order, k) && k < |order|
    requires j in Open(before, g) && j !in order && Adjacent(w, order[k], j)
    ensures Flooding(before, cells[j := cells[j].(region := r)], w, g, r, seed, order + [j], k)
    ensures |Unlabelled(cells[j := cells[j].(region := r)])| == |Unlabelled(cells)| - 1
    ensures (order + [j])[k + 1..] == order[k + 1..] + [j]
  {
    ReachStep(w, Open(before, g), seed, order[k], j);
    assert Unlabelled(cells[j := cells[j].(region := r)]) == Unlabelled(cells) - {j} && j in Unlabelled(cells);
  }

  /** When the queue has run dry the relabelled cells are exactly the reachable ones. */
  lemma FillComplete(before: seq<MapPoint>, cells: seq<MapPoint>, w: nat, g: Ground, r: int, seed: int, order: seq<int>)
    requires w > 0 && Flooding(before, cells, w, g, r, seed, order, |order|)
    ensures Filled(before, cells, w, g, r, seed)
    ensures forall i :: i in order <==> Reach(w, Open(before, g), seed, i)
    ensures forall m, n :: 0 <= m < n < |order| ==> order[m] != order[n]
  {
    var area := Open(before, g);
    var closed := set i | i in order;
    forall i | Reach(w, area, seed, i)
      ensures i in order
    {
      ReachStaysClosed(w, area, closed, seed, i);
    }
    forall i | i in order
      ensures Reach(w, area, seed, i)
    {
    }
  }

  // ---- the code ---------------------------------------------------------------------------

  /** Expanding order[k] is complete once each neighbour inside the map, if open, has been enqueued. */
  lemma ExpandDone(before: seq<MapPoint>, cells: seq<MapPoint>, w: nat, h: nat, g: Ground, r: int, seed: int,
                   order: seq<int>, k: nat, x: int, y: int)
    requires w > 0 && Shaped(before, w, h)
    requires Flooding(before, cells, w, g, r, seed, order, k) && k < |order|
    requires 0 <= order[k] < |before| && x == before[order[k]].x && y == before[order[k]].y
    requires Claimed(before, w, h, g, order, x, y - 1) && Claimed(before, w, h, g, order, x, y + 1)
    requires Claimed(before, w, h, g, order, x - 1, y) && Claimed(before, w, h, g, order, x + 1, y)
    ensures Flooding(before, cells, w, g, r, seed, order, k + 1)
  {
    forall j | Adjacent(w, order[k], j) && j in Open(before, g)
      ensures j in order
    {
      AdjacentIsFourNeighbour(before, w, h, order[k], j);
    }
  }

  /** The cell at (x, y), if there is one and it is open, is in `order`. */
  ghost predicate Claimed(before: seq<MapPoint>, w: nat, h: nat, g: Ground, order: seq<int>, x: int, y: int) {
    0 <= x < w && 0 <= y < h && Index(w, x, y) in Open(before, g) ==> Index(w, x, y) in order
  }

  ghost predicate FourNeighbour(c: MapPoint, x: int, y: int) {
    (x == c.x && (y == c.y + 1 || c.y == y + 1)) || (y == c.y && (x == c.x + 1 || c.x == x + 1))
  }

  lemma NeighbourCell(cells: seq<MapPoint>, w: nat, h: nat, i: int, x: int, y: int)
    requires Shaped(cells, w, h) && 0 <= i < |cells| && w > 0 && 0 <= x < w && 0 <= y < h
    requires FourNeighbour(cells[i], x, y)
    ensures 0 <= Index(w, x, y) < |cells| && Adjacent(w, i, Index(w, x, y))
  {
    CellAt(cells, w, h, x, y);
    AdjacentIsFourNeighbour(cells, w, h, i, Index(w, x, y));
  }

  /** One of the four neighbour blocks: claim and enqueue the cell at (x, y) if it is in the map and
      open. The source writes only the half of the bounds test that the step at hand can break. */
  method Visit(grid: array<MapPoint>, points: Queue<nat>, x: int, y: int, w: nat, h: nat, ground: Ground, region: int,
               ghost before: seq<MapPoint>, ghost seed: int, ghost order: seq<int>, ghost k: nat)
    returns (ghost order': seq<int>)
    requires points.Valid() && grid !in points.Repr && w > 0 && region != UNLABELLED && Shaped(before, w, h)
    requires Flooding(before, grid[..], w, ground, region, seed, order, k) && k < |order|
    requires 0 <= order[k] < |before| && FourNeighbour(before[order[k]], x, y)
    requires points.contents == order[k + 1..]
    modifies grid, points.Repr
    ensures points.Valid() && grid !in points.Repr && fresh(points.Repr - old(points.Repr))
    ensures Flooding(before, grid[..], w, ground, region, seed, order', k) && order <= order'
    ensures points.contents == order'[k + 1..]
    ensures Claimed(before, w, h, ground, order', x, y)
    ensures |Unlabelled(grid[..])| + |points.contents| == old(|Unlabelled(grid[..])| + |points.contents|)
  {
    ghost var cells := grid[..];
    order' := order;
    if 0 <= x < w && 0 <= y < h {
      NeighbourCell(before, w, h, order[k], x, y);
      var j := Index(w, x, y);
      OpenNow(before, cells, w, ground, region, seed, order, j);
      hide Open, Index;
      if grid[j].ground == ground && grid[j].region == UNLABELLED {
        EnqueueCell(before, cells, w, ground, region, seed, order, k, j);
        grid[j] := grid[j].(region := region);
        assert grid[..] == cells[j := cells[j].(region := region)];
        points.Enqueue(j);
        order' := order + [j];
      }
    }
  }

  lemma FourSides(c: MapPoint, x: int, y: int)
    requires x == c.x && y == c.y
    ensures FourNeighbour(c, x, y - 1) && FourNeighbour(c, x, y + 1)
    ensures FourNeighbour(c, x - 1, y) && FourNeighbour(c, x + 1, y)
  {
  }

  lemma Grown(before: seq<MapPoint>, w: nat, h: nat, g: Ground, order: seq<int>, order': seq<int>, x: int, y: int)
    requires order <= order' && Claimed(before, w, h, g, order, x, y)
    ensures Claimed(before, w, h, g, order', x, y)
  {
  }

  /** Visit the four neighbours of the cell just dequeued, `order[k]`, in the source's order. */
  method Expand(grid: array<MapPoint>, points: Queue<nat>, point: nat, w: nat, h: nat, ground: Ground, region: int,
                ghost before: seq<MapPoint>, ghost seed: int, ghost order: seq<int>, ghost k: nat)
    returns (ghost order': seq<int>)
    requires points.Valid() && grid !in points.Repr && point < grid.Length && w > 0 && region != UNLABELLED
    requires Shaped(before, w, h)
    requires Flooding(before, grid[..], w, ground, region, seed, order, k) && k < |order| && order[k] == point
    requires points.contents == order[k + 1..]
    modifies grid, points.Repr
    ensures points.Valid() && grid !in points.Repr && fresh(points.Repr - old(points.Repr))
    ensures Flooding(before, grid[..], w, ground, region, seed, order', k + 1) && order <= order'
    ensures points.contents == order'[k + 1..]
    ensures |Unlabelled(grid[..])| + |points.contents| == old(|Unlabelled(grid[..])| + |points.contents|)
  {
    hide *;
    PlacesKept(before, grid[..], w, ground, region, seed, order, k);
    var x, y := grid[point].x, grid[point].y;
    FourSides(before[point], x, y);
    ghost var o1 := Visit(grid, points, x, y - 1, w, h, ground, region, before, seed, order, k);
    ghost var o2 := Visit(grid, points, x, y + 1, w, h, ground, region, before, seed, o1, k);
    ghost var o3 := Visit(grid, points, x - 1, y, w, h, ground, region, before, seed, o2, k);
    order' := Visit(grid, points, x + 1, y, w, h, ground, region, before, seed, o3, k);
    Grown(before, w, h, ground, o1, order', x, y - 1);
    Grown(before, w, h, ground, o2, order', x, y + 1);
    Grown(before, w, h, ground, o3, order', x - 1, y);
    ExpandDone(before, grid[..], w, h, ground, region, seed, order', k, x, y);
  }

  /** set_region: gives the seed's component of unclaimed cells the next region number of its ground.
      The loop's measure, unlabelled cells plus queue length, falls by exactly one per iteration;
      `order`, the cells in the order they were enqueued, lists the component without repetition. */
  method SetRegion(newPoint: nat, grid: array<MapPoint>, w: nat, h: nat, regionsNum: array<nat>)
    returns (ghost order: seq<int>)
    requires Shaped(grid[..], w, h) && newPoint < grid.Length
    requires grid[newPoint].region == UNLABELLED
    requires regionsNum.Length == GROUND_TYPE_CNT && grid[newPoint].ground.Land()
    modifies grid, regionsNum
    ensures w > 0
    ensures var g := old(grid[newPoint].ground);
            && regionsNum[..] == old(regionsNum[..])[g.Code() := old(regionsNum[g.Code()]) + 1]
            && Filled(old(grid[..]), grid[..], w, g, old(regionsNum[g.Code()]), newPoint)
            && (forall m, n :: 0 <= m < n < |order| ==> order[m] != order[n])
            && (forall i :: i in order <==> Reach(w, Open(old(grid[..]), g), newPoint, i))
  {
    hide *;
    ghost var before := grid[..];
    var points := new Queue<nat>();
    var point := newPoint;
    var ground := grid[point].ground;
    CounterFits(ground, 0);
    var region := regionsNum[ground.Code()];
    CounterFits(ground, region);
    regionsNum[ground.Code()] := regionsNum[ground.Code()] + 1;

    StartFill(before, w, h, ground, region, newPoint);
    grid[point] := grid[point].(region := region);
    assert grid[..] == before[newPoint := before[newPoint].(region := region)];
    points.Enqueue(point);
    order := [newPoint];
    ghost var k := 0;
    var empty := false;
    while !empty // the source's do-while
      invariant points.Valid() && fresh(points.Repr) && grid !in points.Repr && regionsNum !in points.Repr
      invariant Flooding(before, grid[..], w, ground, region, newPoint, order, k)
      invariant k <= |order| && points.contents == order[k..] && (empty <==> k == |order|)
      invariant regionsNum[..] == old(regionsNum[..])[ground.Code() := region + 1]
      invariant |Unlabelled(grid[..])| + |points.contents| == |Unlabelled(before)| - k
      decreases |Unlabelled(grid[..])| + |points.contents|
    {
      var data := points.Dequeue();
      point := data.value;
      Ordered(before, grid[..], w, ground, region, newPoint, order, k);
      order := Expand(grid, points, point, w, h, ground, region, before, newPoint, order, k);
      k := k + 1;
      empty := points.IsEmpty();
    }
    FillComplete(before, grid[..], w, ground, region, newPoint, order);
  }
}
