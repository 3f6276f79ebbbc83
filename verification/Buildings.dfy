/** The placement attempt of add_on_map (src/map&builds_gen/buildgen.c:44-81): check a rectangle at a
    sampled corner, then stamp the building onto it. */
module Buildings {
  import opened Grid
  import opened RegionLabels

  /** A building file and where it is tried: `cells` holds sizeX * sizeY points row by row. */
  datatype Placement = Placement(cells: seq<MapPoint>, sizeX: nat, sizeY: nat, x: nat, y: nat, region: int) {
    predicate Covers(px: int, py: int) {
      x <= px < x + sizeX && y <= py < y + sizeY
    }

    /** buildgen gives every building cell soil ground and a wall or a floor. */
    ghost predicate WellMade() {
      && |cells| == sizeX * sizeY
      && forall i :: 0 <= i < |cells| ==> cells[i].ground == Soil && cells[i].surface != Empty
    }
  }

  /** The source's test of one cell, negated. */
  predicate Buildable(c: MapPoint, region: int) {
    c.ground == Soil && c.surface == Empty && c.region == region
  }

  /** The whole rectangle lies in the map and each of its cells may be built on. */
  ghost predicate Fits(world: seq<MapPoint>, w: nat, p: Placement)
    requires Shaped(world, w, w)
  {
    forall px, py {:trigger p.Covers(px, py)} :: p.Covers(px, py) ==> FitsCell(world, w, p, px, py)
  }

  ghost predicate FitsCell(world: seq<MapPoint>, w: nat, p: Placement, px: int, py: int)
    requires Shaped(world, w, w)
  {
    && 0 <= px < w && 0 <= py < w
    && 0 <= Index(w, px, py) < |world|
    && Buildable(world[Index(w, px, py)], p.region)
  }

  lemma CellOfBuilding(p: Placement, px: int, py: int)
    requires p.WellMade() && p.Covers(px, py)
    ensures 0 <= Index(p.sizeX, px - p.x, py - p.y) < |p.cells|
  {
    IndexInRange(p.sizeX, p.sizeY, px - p.x, py - p.y);
  }

  function StampCell(c: MapPoint, p: Placement): MapPoint {
    var at := Index(p.sizeX, c.x - p.x, c.y - p.y);
    if p.Covers(c.x, c.y) && 0 <= at < |p.cells| then c.(surface := p.cells[at].surface, nameId := p.cells[at].nameId)
    else c
  }

  function Stamp(world: seq<MapPoint>, p: Placement): seq<MapPoint> {
    seq(|world|, i requires 0 <= i < |world| => StampCell(world[i], p))
  }

  /** The corners at which the test reads nothing outside the map. */
  predicate Sampled(w: nat, p: Placement) {
    p.x <= w && p.y < w && (p.x == w ==> p.y + 1 < w)
  }

  // ---- testing a rectangle ----------------------------------------------------------------

  /** Rows before py, and the cells of row py before px, have passed the test. */
  ghost predicate Passed(world: seq<MapPoint>, w: nat, p: Placement, px: int, py: int)
    requires Shaped(world, w, w)
  {
    forall qx, qy {:trigger p.Covers(qx, qy)} ::
      p.Covers(qx, qy) && (qy < py || (qy == py && qx < px)) ==> FitsCell(world, w, p, qx, qy)
  }

  /** What keeps the unchecked reads inside the map: a cell that passed is land, so its right and lower
      neighbours still exist. */
  lemma PassedCell(world: seq<MapPoint>, w: nat, indent: nat, p: Placement, px: int, py: int)
    requires Shaped(world, w, w) && Bordered(world, w, w, indent) && indent >= 2
    requires FitsCell(world, w, p, px, py)
    ensures px + 1 < w && py + 1 < w
  {
    CellAt(world, w, w, px, py);
  }

  /** A corner drawn on the far edge, one column to the right of the map: the read lands on the first
      cell of the next row, which is border and fails the test. */
  lemma FarColumn(world: seq<MapPoint>, w: nat, indent: nat, py: int)
    requires Shaped(world, w, w) && Bordered(world, w, w, indent) && indent >= 2 && 0 <= py < w - 1
    ensures Index(w, w, py) == Index(w, 0, py + 1) && 0 <= Index(w, w, py) < |world|
    ensures world[Index(w, w, py)].ground != Soil
  {
    CellAt(world, w, w, 0, py + 1);
  }

  /** Reads, row by row and stopping at the first cell that fails, without any bounds test. On a
      bordered map every index is inside the map, and that of the cell meant unless the corner itself
      was drawn one column too far; only a corner below the last row, or at the far end of it, would be
      read past the map. */
  method HavePlace(grid: array<MapPoint>, w: nat, p: Placement, ghost indent: nat) returns (havePlace: bool)
    requires Shaped(grid[..], w, w) && Bordered(grid[..], w, w, indent) && indent >= 2
    requires p.WellMade() && Sampled(w, p)
    ensures havePlace <==> Fits(grid[..], w, p)
  {
    havePlace := true;
    var yy := p.y;
    while yy < p.y + p.sizeY && havePlace
      invariant p.y <= yy <= p.y + p.sizeY
      invariant havePlace && p.sizeX > 0 ==> yy < w && (yy > p.y ==> p.x < w)
      invariant havePlace ==> Passed(grid[..], w, p, p.x, yy)
      invariant !havePlace ==> !Fits(grid[..], w, p)
      decreases p.y + p.sizeY - yy
    {
      var xx := p.x;
      while xx < p.x + p.sizeX
        invariant p.x <= xx <= p.x + p.sizeX
        invariant havePlace && Passed(grid[..], w, p, xx, yy)
        invariant p.sizeX > 0 ==> xx < w || (xx == w == p.x && yy == p.y)
      {
        assert p.Covers(xx, yy);
        if xx == w {
          FarColumn(grid[..], w, indent, yy);
        } else {
          CellAt(grid[..], w, w, xx, yy);
        }
        var c := grid[Index(w, xx, yy)];
        if c.ground != Soil || c.surface != Empty || c.region != p.region {
          havePlace := false;
          break;
        }
        PassedCell(grid[..], w, indent, p, xx, yy);
        xx := xx + 1;
      }
      if havePlace && p.sizeX > 0 {
        assert p.Covers(p.x, yy);
        PassedCell(grid[..], w, indent, p, p.x, yy);
      }
      yy := yy + 1;
    }
  }

  // ---- the stamping -----------------------------------------------------------------------

  predicate Before(c: MapPoint, px: int, py: int) {
    c.y < py || (c.y == py && c.x < px)
  }

  /** Cells of the rectangle before (px, py) carry the building, all others are as they were. */
  ghost predicate Stamping(before: seq<MapPoint>, now: seq<MapPoint>, p: Placement, px: int, py: int) {
    && |now| == |before|
    && forall i :: 0 <= i < |before| ==>
        now[i] == if Before(before[i], px, py) then StampCell(before[i], p) else before[i]
  }

  lemma StampNext(before: seq<MapPoint>, now: seq<MapPoint>, w: nat, p: Placement, px: int, py: int)
    requires Shaped(before, w, w) && p.WellMade() && p.Covers(px, py) && 0 <= px < w && 0 <= py < w
    requires Stamping(before, now, p, px, py)
    ensures 0 <= Index(w, px, py) < |now| && 0 <= Index(p.sizeX, px - p.x, py - p.y) < |p.cells|
    ensures var at, b := Index(w, px, py), p.cells[Index(p.sizeX, px - p.x, py - p.y)];
            Stamping(before, now[at := now[at].(surface := b.surface, nameId := b.nameId)], p, px + 1, py)
  {
    CellAt(before, w, w, px, py);
    CellOfBuilding(p, px, py);
    forall i | 0 <= i < |before| && before[i].x == px && before[i].y == py
      ensures i == Index(w, px, py)
    {
    }
  }

  lemma StampRowDone(before: seq<MapPoint>, now: seq<MapPoint>, p: Placement, py: int)
    requires Stamping(before, now, p, p.x + p.sizeX, py)
    ensures Stamping(before, now, p, p.x, py + 1)
  {
    forall i | 0 <= i < |before|
      ensures now[i] == if Before(before[i], p.x, py + 1) then StampCell(before[i], p) else before[i]
    {
      if before[i].y == py && before[i].x >= p.x + p.sizeX {
        assert !p.Covers(before[i].x, before[i].y);
      }
    }
  }

  method StampBuilding(grid: array<MapPoint>, w: nat, p: Placement)
    requires Shaped(grid[..], w, w) && p.WellMade() && Fits(grid[..], w, p)
    modifies grid
    ensures grid[..] == Stamp(old(grid[..]), p)
  {
    ghost var before := grid[..];
    var i := 0;
    for yy := p.y to p.y + p.sizeY
      invariant i == Index(p.sizeX, 0, yy - p.y)
      invariant Stamping(before, grid[..], p, p.x, yy)
    {
      for xx := p.x to p.x + p.sizeX
        invariant i == Index(p.sizeX, xx - p.x, yy - p.y)
        invariant Stamping(before, grid[..], p, xx, yy)
      {
        ghost var now := grid[..];
        assert p.Covers(xx, yy);
        StampNext(before, now, w, p, xx, yy);
        var at := Index(w, xx, yy);
        grid[at] := grid[at].(surface := p.cells[i].surface, nameId := p.cells[i].nameId);
        assert grid[..] == now[at := now[at].(surface := p.cells[i].surface, nameId := p.cells[i].nameId)];
        i := i + 1;
      }
      StampRowDone(before, grid[..], p, yy);
    }
    StampAll(before, grid[..], p);
  }

  lemma StampAll(before: seq<MapPoint>, now: seq<MapPoint>, p: Placement)
    requires Stamping(before, now, p, p.x, p.y + p.sizeY)
    ensures now == Stamp(before, p)
  {
    forall i | 0 <= i < |before|
      ensures now[i] == StampCell(before[i], p)
    {
      if !Before(before[i], p.x, p.y + p.sizeY) {
        assert !p.Covers(before[i].x, before[i].y);
      }
    }
  }

  /** One round of add_on_map's loop: nothing changes unless the rectangle fits. */
  method TryPlace(grid: array<MapPoint>, w: nat, p: Placement, ghost indent: nat) returns (placed: bool)
    requires Shaped(grid[..], w, w) && Bordered(grid[..], w, w, indent) && indent >= 2
    requires p.WellMade() && Sampled(w, p)
    modifies grid
    ensures placed <==> Fits(old(grid[..]), w, p)
    ensures grid[..] == if placed then Stamp(old(grid[..]), p) else old(grid[..])
  {
    placed := HavePlace(grid, w, p, indent);
    if placed {
      StampBuilding(grid, w, p);
    }
  }

  // ---- both in plain terms ----------------------------------------------------------------

  /** Some cell of the map stands at (x, y), on empty soil of the region. */
  ghost predicate EmptySoilAt(world: seq<MapPoint>, x: int, y: int, region: int) {
    exists i :: 0 <= i < |world| && world[i].x == x && world[i].y == y
                && world[i].ground == Soil && world[i].surface == Empty && world[i].region == region
  }

  lemma FitsCellExactly(world: seq<MapPoint>, w: nat, p: Placement, x: int, y: int)
    requires Shaped(world, w, w)
    ensures FitsCell(world, w, p, x, y) <==> EmptySoilAt(world, x, y, p.region)
  {
    if 0 <= x < w && 0 <= y < w {
      CellAt(world, w, w, x, y);
    }
  }

  /** A rectangle fits exactly if each of its places is on empty soil of the region. */
  lemma FitsExactly(world: seq<MapPoint>, w: nat, p: Placement)
    requires Shaped(world, w, w)
    ensures Fits(world, w, p) <==>
            forall x, y :: p.x <= x < p.x + p.sizeX && p.y <= y < p.y + p.sizeY ==> EmptySoilAt(world, x, y, p.region)
  {
    forall x, y
      ensures FitsCell(world, w, p, x, y) <==> EmptySoilAt(world, x, y, p.region)
      ensures p.Covers(x, y) <==> p.x <= x < p.x + p.sizeX && p.y <= y < p.y + p.sizeY
    {
      FitsCellExactly(world, w, p, x, y);
    }
    hide FitsCell, EmptySoilAt;
  }

  /** Where the stamp puts what: cell (a, b) of the building, counted row by row in its file, gives its
      surface and its name to the cell a to the right of the corner and b below it; that cell keeps its ground
      and its region, and all cells outside the rectangle stay as they are. */
  lemma StampExactly(world: seq<MapPoint>, w: nat, p: Placement, i: nat)
    requires Shaped(world, w, w) && p.WellMade() && i < |world|
    ensures |Stamp(world, p)| == |world|
    ensures var a, b := world[i].x - p.x, world[i].y - p.y;
            if 0 <= a < p.sizeX && 0 <= b < p.sizeY
            then
              && 0 <= b * p.sizeX + a < |p.cells|
              && Stamp(world, p)[i] == world[i].(surface := p.cells[b * p.sizeX + a].surface,
                                                 nameId := p.cells[b * p.sizeX + a].nameId)
            else Stamp(world, p)[i] == world[i]
  {
    if p.Covers(world[i].x, world[i].y) {
      CellOfBuilding(p, world[i].x, world[i].y);
    }
  }

  // ---- any sequence of successful placements ----------------------------------------------

  /** The map after the placements ps, in order. */
  function Built(start: seq<MapPoint>, ps: seq<Placement>): seq<MapPoint> {
    if ps == [] then start else Stamp(Built(start, ps[..|ps| - 1]), ps[|ps| - 1])
  }

  /** Each placement fitted on the map its predecessors left. */
  ghost predicate AllFitted(start: seq<MapPoint>, w: nat, ps: seq<Placement>)
    requires Shaped(start, w, w)
  {
    ps != [] ==>
      && AllFitted(start, w, ps[..|ps| - 1])
      && ps[|ps| - 1].WellMade()
      && Shaped(Built(start, ps[..|ps| - 1]), w, w)
      && Fits(Built(start, ps[..|ps| - 1]), w, ps[|ps| - 1])
  }

  ghost predicate Covered(c: MapPoint, ps: seq<Placement>) {
    exists k :: 0 <= k < |ps| && ps[k].Covers(c.x, c.y)
  }

  /** A placement changes surfaces and names only, and only inside its rectangle; there no cell stays
      empty. */
  lemma StampEffect(world: seq<MapPoint>, w: nat, p: Placement)
    requires Shaped(world, w, w) && p.WellMade()
    ensures var now := Stamp(world, p);
            && Shaped(now, w, w)
            && (forall i :: 0 <= i < |world| ==>
                now[i] == world[i].(surface := now[i].surface, nameId := now[i].nameId))
            && (forall i :: 0 <= i < |world| && !p.Covers(world[i].x, world[i].y) ==> now[i] == world[i])
            && (forall i :: 0 <= i < |world| && p.Covers(world[i].x, world[i].y) ==> now[i].surface != Empty)
  {
    forall i | 0 <= i < |world| && p.Covers(world[i].x, world[i].y)
      ensures Stamp(world, p)[i].surface != Empty
    {
      CellOfBuilding(p, world[i].x, world[i].y);
    }
  }

  /** Over any run of placements, ground, region and place of every cell stay, cells outside all
      buildings stay untouched, and no covered cell is empty. */
  lemma {:induction false} BuiltKeeps(start: seq<MapPoint>, w: nat, ps: seq<Placement>)
    requires Shaped(start, w, w) && AllFitted(start, w, ps)
    ensures var now := Built(start, ps);
            && Shaped(now, w, w)
            && (forall i :: 0 <= i < |start| ==>
                now[i] == start[i].(surface := now[i].surface, nameId := now[i].nameId))
            && (forall i :: 0 <= i < |start| && !Covered(start[i], ps) ==> now[i] == start[i])
            && (forall i :: 0 <= i < |start| && Covered(start[i], ps) ==> now[i].surface != Empty)
  {
    if ps != [] {
      var front, p := ps[..|ps| - 1], ps[|ps| - 1];
      BuiltKeeps(start, w, front);
      StampEffect(Built(start, front), w, p);
      forall i | 0 <= i < |start|
        ensures Covered(start[i], ps) <==> Covered(start[i], front) || p.Covers(start[i].x, start[i].y)
      {
        if p.Covers(start[i].x, start[i].y) {
          assert ps[|ps| - 1].Covers(start[i].x, start[i].y);
        } else if Covered(start[i], front) {
          var k :| 0 <= k < |front| && front[k].Covers(start[i].x, start[i].y);
          assert ps[k].Covers(start[i].x, start[i].y);
        }
      }
    }
  }

  /** A fitting rectangle covers no cell of an earlier building. */
  lemma FitsAvoidsBuilt(start: seq<MapPoint>, w: nat, ps: seq<Placement>, p: Placement, px: int, py: int)
    requires Shaped(start, w, w) && AllFitted(start, w, ps) && Shaped(Built(start, ps), w, w)
    requires Fits(Built(start, ps), w, p) && p.Covers(px, py)
    ensures forall k :: 0 <= k < |ps| ==> !ps[k].Covers(px, py)
  {
    BuiltKeeps(start, w, ps);
    CellAt(start, w, w, px, py);
    assert !Covered(start[Index(w, px, py)], ps);
  }

  /** Buildings never overlap. */
  lemma {:induction false} BuildingsDisjoint(start: seq<MapPoint>, w: nat, ps: seq<Placement>, a: nat, b: nat, px: int,
                                             py: int)
    requires Shaped(start, w, w) && AllFitted(start, w, ps) && a < b < |ps|
    ensures !(ps[a].Covers(px, py) && ps[b].Covers(px, py))
  {
    var front := ps[..|ps| - 1];
    if b < |front| {
      BuildingsDisjoint(start, w, front, a, b, px, py);
    } else if ps[b].Covers(px, py) {
      FitsAvoidsBuilt(start, w, front, ps[b], px, py);
      assert front[a] == ps[a];
    }
  }

  /** On a canonically labelled map each building stands inside the map on one connected stretch of
      soil. */
  lemma {:induction false} BuildingsOnOneRegion(start: seq<MapPoint>, w: nat, ps: seq<Placement>, bound: Ground, k: nat,
                                                px: int, py: int, qx: int, qy: int)
    requires w > 0 && Shaped(start, w, w) && AllFitted(start, w, ps) && Canonical(start, w, bound) && bound != Soil
    requires k < |ps| && ps[k].Covers(px, py) && ps[k].Covers(qx, qy)
    ensures 0 <= px < w && 0 <= py < w && 0 <= qx < w && 0 <= qy < w
    ensures Reach(w, Area(start, Soil), Index(w, px, py), Index(w, qx, qy))
  {
    var front := ps[..|ps| - 1];
    if k < |front| {
      assert front[k] == ps[k];
      BuildingsOnOneRegion(start, w, front, bound, k, px, py, qx, qy);
    } else {
      var now := Built(start, front);
      assert FitsCell(now, w, ps[k], px, py) && FitsCell(now, w, ps[k], qx, qy);
      BuiltKeeps(start, w, front);
      var i, j := Index(w, px, py), Index(w, qx, qy);
      assert start[i].ground == now[i].ground == Soil && start[j].ground == now[j].ground == Soil;
      assert start[i].region == now[i].region == start[j].region;
    }
  }

  /** Labels, border and shape survive every run of placements, so the next attempt starts from the
      same kind of map. */
  lemma BuiltStaysReady(start: seq<MapPoint>, w: nat, ps: seq<Placement>, bound: Ground, indent: nat)
    requires w > 0 && Shaped(start, w, w) && AllFitted(start, w, ps)
    requires Bordered(start, w, w, indent) && Canonical(start, w, bound)
    ensures var now := Built(start, ps); Shaped(now, w, w) && Bordered(now, w, w, indent) && Canonical(now, w, bound)
  {
    BuiltKeeps(start, w, ps);
    var now := Built(start, ps);
    forall g: Ground
      ensures Area(now, g) == Area(start, g)
    {
    }
    NumbersKept(start, now);
  }

  lemma NumbersKept(start: seq<MapPoint>, now: seq<MapPoint>)
    requires |now| == |start| && NumberedInScanOrder(start)
    requires forall i :: 0 <= i < |start| ==> now[i] == start[i].(surface := now[i].surface, nameId := now[i].nameId)
    ensures NumberedInScanOrder(now)
  {
    forall i | 0 <= i < |now| && now[i].region > 0
      ensures Appears(now, now[i].ground, now[i].region - 1, i)
    {
      assert Appears(start, start[i].ground, start[i].region - 1, i);
      var j :| 0 <= j < i && Uses(start, start[i].ground, start[i].region - 1, j);
      assert Uses(now, now[i].ground, now[i].region - 1, j);
    }
  }
}
