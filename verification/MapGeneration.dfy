/** map_generation of src/game_processing/map.c. The values drawn with rand() are the parameters
    `rx` and `ry`. */
module MapGeneration {
  import opened Grid
  import opened RegionFill
  import opened RegionLabels

  datatype Site = Site(x: int, y: int, ground: Ground)

  function GroundOf(n: nat): Ground {
    if n % GROUND_TYPE_CNT == 0 then Soil else if n % GROUND_TYPE_CNT == 1 then Sand else Grass
  }

  // ---- sites ------------------------------------------------------------------------------

  function SiteDist(s: Site, x: int, y: int): nat {
    SumSq(x - s.x, y - s.y)
  }

  /** Among the first n sites, site i is the first of those nearest to (x, y). */
  ghost predicate NearestOf(sites: seq<Site>, n: nat, x: int, y: int, i: int) {
    && 0 <= i < n <= |sites|
    && (forall j :: 0 <= j < n ==> SiteDist(sites[i], x, y) <= SiteDist(sites[j], x, y))
    && (forall j :: 0 <= j < i ==> SiteDist(sites[i], x, y) < SiteDist(sites[j], x, y))
  }

  ghost predicate IsNearest(sites: seq<Site>, x: int, y: int, i: int) {
    NearestOf(sites, |sites|, x, y, i)
  }

  lemma NearestUnique(sites: seq<Site>, x: int, y: int, i: int, j: int)
    requires IsNearest(sites, x, y, i) && IsNearest(sites, x, y, j)
    ensures i == j
  {
    assert SiteDist(sites[i], x, y) == SiteDist(sites[j], x, y);
  }

  /** Site i is closest to (x, y), and closer than every earlier site. */
  ghost predicate ClosestSite(sites: seq<Site>, x: int, y: int, i: int) {
    && 0 <= i < |sites|
    && (forall j :: 0 <= j < |sites| ==>
          SquaredDistance(x, y, sites[i].x, sites[i].y) <= SquaredDistance(x, y, sites[j].x, sites[j].y))
    && (forall j :: 0 <= j < i ==>
          SquaredDistance(x, y, sites[i].x, sites[i].y) < SquaredDistance(x, y, sites[j].x, sites[j].y))
  }

  lemma NearestIsClosest(sites: seq<Site>, x: int, y: int, i: int)
    ensures IsNearest(sites, x, y, i) <==> ClosestSite(sites, x, y, i)
  {
    forall j | 0 <= j < |sites|
      ensures SiteDist(sites[j], x, y) == SquaredDistance(x, y, sites[j].x, sites[j].y)
    {
      SumSqMeaning(x, y, sites[j].x, sites[j].y);
    }
    hide SiteDist, SquaredDistance;
  }

  /** nearest_ground: the ground of the first nearest site. The source starts from DBL_MAX, which the
      first site always beats. */
  method NearestGround(x: int, y: int, sites: seq<Site>) returns (nearest: Ground)
    requires |sites| > 0
    ensures exists i :: IsNearest(sites, x, y, i) && nearest == sites[i].ground
    ensures exists i :: ClosestSite(sites, x, y, i) && nearest == sites[i].ground
  {
    hide SiteDist;
    nearest := sites[0].ground;
    var distMin := SiteDist(sites[0], x, y);
    ghost var best := 0;
    for i := 1 to |sites|
      invariant NearestOf(sites, i, x, y, best) && nearest == sites[best].ground
                && distMin == SiteDist(sites[best], x, y)
    {
      var dist := SiteDist(sites[i], x, y);
      if dist < distMin {
        distMin := dist;
        nearest := sites[i].ground;
        best := i;
      }
    }
    assert IsNearest(sites, x, y, best);
    NearestIsClosest(sites, x, y, best);
  }

  /** How many positions a loop in steps of half the size visits. */
  function Columns(size: nat): nat {
    if size == 3 then 4 else 3
  }

  /** The anchors around the rim: all positions but the centre. Eight, unless a size is 3. */
  function Anchors(sizeX: nat, sizeY: nat): nat {
    if sizeX == 3 && sizeY == 3 then 15 else if sizeX == 3 || sizeY == 3 then 11 else 8
  }

  /** The i-th anchor of the bound ground, in the order the nested loops of map.c:113-129 visit them. */
  function Anchor(i: nat, sizeX: nat, sizeY: nat, bound: Ground): Site {
    var rows := Columns(sizeY);
    var cell := if i < rows + 1 then i else i + 1;
    Site(Steps(cell / rows, sizeX / 2), Steps(cell % rows, sizeY / 2), bound)
  }

  /** k steps of one half of the map. */
  function Steps(k: nat, half: nat): nat {
    if k == 0 then 0 else Steps(k - 1, half) + half
  }

  /** All sites: the drawn ones with the first overwritten by the anchors. */
  ghost predicate Sited(sites: seq<Site>, count: nat, sizeX: nat, sizeY: nat, bound: Ground, rx: seq<nat>, ry: seq<nat>)
    requires |rx| == |ry| == count
  {
    Anchored(sites, Anchors(sizeX, sizeY), count, sizeX, sizeY, bound, rx, ry)
  }

  /** The loop runs over the first positions and ends. */
  lemma HalfSteps(size: nat, k: nat)
    requires size >= 2 && k <= Columns(size)
    ensures Steps(0, size / 2) == 0
    ensures k < Columns(size) ==> Steps(k + 1, size / 2) == Steps(k, size / 2) + size / 2
    ensures Steps(k, size / 2) <= size <==> k < Columns(size)
    ensures Steps(k, size / 2) == size / 2 <==> k == 1
  {
    var half := size / 2;
    assert Steps(1, half) == half;
    assert Steps(2, half) == half + half;
    assert Steps(3, half) == half + half + half;
    assert Steps(4, half) == half + half + half + half;
  }

  /** How many anchors precede column a, row b. */
  function Slot(a: nat, b: nat, rows: nat): nat {
    if rows * a + b < rows + 2 then rows * a + b else rows * a + b - 1
  }

  lemma AnchorAt(a: nat, b: nat, sizeX: nat, sizeY: nat, bound: Ground)
    requires a < Columns(sizeX) && b < Columns(sizeY)
    ensures var rows := Columns(sizeY);
            && Slot(0, 0, rows) == 0 && Slot(Columns(sizeX), 0, rows) == Anchors(sizeX, sizeY)
            && Slot(a, rows, rows) == Slot(a + 1, 0, rows)
            && ((a, b) == (1, 1) ==> Slot(a, b + 1, rows) == Slot(a, b, rows))
            && ((a, b) != (1, 1) ==>
                  && Slot(a, b, rows) < Anchors(sizeX, sizeY) && Slot(a, b + 1, rows) == Slot(a, b, rows) + 1
                  && Anchor(Slot(a, b, rows), sizeX, sizeY, bound) ==
                     Site(Steps(a, sizeX / 2), Steps(b, sizeY / 2), bound))
  {
    hide Steps;
    var rows := Columns(sizeY);
    if rows == 3 {
      assert Slot(a, b, 3) < 4 <==> 3 * a + b < 4;
    } else {
      assert Slot(a, b, 4) < 5 <==> 4 * a + b < 5;
    }
  }

  /** The first n anchors are written; the drawn sites behind all anchors are untouched. */
  ghost predicate Anchored(sites: seq<Site>, n: nat, count: nat, sizeX: nat, sizeY: nat, bound: Ground,
                           rx: seq<nat>, ry: seq<nat>)
    requires |rx| == |ry| == count
  {
    && n <= Anchors(sizeX, sizeY) <= |sites| == count + 8
    && (forall j :: 0 <= j < n ==> sites[j] == Anchor(j, sizeX, sizeY, bound))
    && (forall j :: Anchors(sizeX, sizeY) <= j < count ==> sites[j] == Site(rx[j], ry[j], GroundOf(j)))
  }

  /** Below size 2 the halving loops never end; at size 3 they write more than the eight sites set aside,
      which is past the array if few sites were drawn. */
  method PlaceSites(count: nat, sizeX: nat, sizeY: nat, bound: Ground, rx: seq<nat>, ry: seq<nat>)
    returns (sites: array<Site>)
    requires |rx| == |ry| == count
    requires sizeX >= 2 && sizeY >= 2 && Anchors(sizeX, sizeY) <= count + 8
    ensures fresh(sites) && Sited(sites[..], count, sizeX, sizeY, bound, rx, ry)
  {
    hide Anchor, Anchors, Columns, Slot, Steps, GroundOf;
    sites := new Site[count + 8];
    for i := 0 to count
      invariant forall j :: 0 <= j < i ==> sites[j] == Site(rx[j], ry[j], GroundOf(j))
    {
      sites[i] := Site(rx[i], ry[i], GroundOf(i));
    }
    ghost var cols, rows := Columns(sizeX), Columns(sizeY);
    ColumnsRange(sizeX);
    ColumnsRange(sizeY);
    AnchorAt(0, 0, sizeX, sizeY, bound);
    HalfSteps(sizeX, 0);
    HalfSteps(sizeY, 0);
    var i, x := 0, 0;
    ghost var a := 0;
    while x <= sizeX
      invariant a <= cols && x == Steps(a, sizeX / 2) && (x <= sizeX <==> a < cols) && i == Slot(a, 0, rows)
      invariant Anchored(sites[..], i, count, sizeX, sizeY, bound, rx, ry)
      decreases cols - a
    {
      var y := 0;
      ghost var b := 0;
      while y <= sizeY
        invariant b <= rows && y == Steps(b, sizeY / 2) && (y <= sizeY <==> b < rows) && i == Slot(a, b, rows)
        invariant Anchored(sites[..], i, count, sizeX, sizeY, bound, rx, ry)
        decreases rows - b
      {
        AnchorAt(a, b, sizeX, sizeY, bound);
        HalfSteps(sizeX, a);
        HalfSteps(sizeY, b);
        HalfSteps(sizeY, b + 1);
        if x == sizeX / 2 && y == sizeY / 2 {
          y := y + sizeY / 2;
          b := b + 1;
          continue;
        }
        sites[i] := Site(x, y, bound);
        i := i + 1;
        y := y + sizeY / 2;
        b := b + 1;
      }
      AnchorAt(a, 0, sizeX, sizeY, bound);
      HalfSteps(sizeX, a);
      HalfSteps(sizeX, a + 1);
      x := x + sizeX / 2;
      a := a + 1;
    }
  }

  lemma ColumnsRange(size: nat)
    ensures 3 <= Columns(size) <= 4
  {
  }

  // ---- the grid before labelling ----------------------------------------------------------

  predicate OnBorder(x: int, y: int, sizeX: nat, sizeY: nat, indent: nat) {
    y < indent || y > sizeY - indent || x < indent || x > sizeX - indent
  }

  const WORD: nat := 0x1_0000_0000_0000_0000

  /** The source's subtraction of size_t values. */
  function MinusWord(a: nat, b: nat): nat {
    (a - b) % WORD
  }

  /** The source tests the border in unsigned arithmetic. When the indent exceeds the size the
      subtraction wraps, but the test comes out the same. */
  lemma BorderInWords(x: nat, y: nat, sizeX: nat, sizeY: nat, indent: nat)
    requires x < sizeX < WORD && y < sizeY < WORD && indent < WORD
    ensures OnBorder(x, y, sizeX, sizeY, indent) <==>
            y < indent || y > MinusWord(sizeY, indent) || x < indent || x > MinusWord(sizeX, indent)
  {
    WordDifference(sizeX, indent);
    WordDifference(sizeY, indent);
  }

  lemma WordDifference(a: nat, b: nat)
    requires a < WORD && b < WORD
    ensures MinusWord(a, b) == if a >= b then a - b else a - b + WORD
  {
    if a < b {
      assert (a - b) % WORD == (a - b + WORD) % WORD;
    }
  }

  /** No cell is inside the border, so that no site is looked for. */
  ghost predicate AllBorder(sizeX: nat, sizeY: nat, indent: nat) {
    forall x, y :: 0 <= x < sizeX && 0 <= y < sizeY ==> OnBorder(x, y, sizeX, sizeY, indent)
  }

  /** The ground map_generation gives to a cell: bound on the border, else that of the nearest site. */
  ghost predicate GroundChosen(c: MapPoint, sites: seq<Site>, sizeX: nat, sizeY: nat, bound: Ground, indent: nat) {
    if OnBorder(c.x, c.y, sizeX, sizeY, indent)
    then c.ground == bound
    else exists i :: IsNearest(sites, c.x, c.y, i) && c.ground == sites[i].ground
  }

  ghost predicate Blank(c: MapPoint, i: int, w: nat, h: nat, sites: seq<Site>, bound: Ground, indent: nat) {
    && 0 <= c.x < w && 0 <= c.y < h && i == Index(w, c.x, c.y)
    && GroundChosen(c, sites, w, h, bound, indent)
    && c.surface == Empty && c.childObjectType == Nothing && c.region == UNLABELLED
  }

  lemma RowEnd(w: nat, h: nat, y: int)
    requires 0 <= y < h
    ensures Index(w, w, y) == Index(w, 0, y + 1) <= w * h
  {
    assert (y + 1) * w <= h * w;
  }

  /** The first k cells are laid. */
  ghost predicate Laid(cells: seq<MapPoint>, k: int, w: nat, h: nat, sites: seq<Site>, bound: Ground, indent: nat) {
    |cells| == w * h && 0 <= k <= |cells| && forall i :: 0 <= i < k ==> Blank(cells[i], i, w, h, sites, bound, indent)
  }

  lemma LayNext(cells: seq<MapPoint>, w: nat, h: nat, sites: seq<Site>, bound: Ground, indent: nat, x: int, y: int,
                c: MapPoint)
    requires 0 <= x < w && 0 <= y < h && Laid(cells, Index(w, x, y), w, h, sites, bound, indent)
    requires c.x == x && c.y == y && c.surface == Empty && c.childObjectType == Nothing && c.region == UNLABELLED
    requires GroundChosen(c, sites, w, h, bound, indent)
    ensures 0 <= Index(w, x, y) < |cells|
    ensures Laid(cells[Index(w, x, y) := c], Index(w, x + 1, y), w, h, sites, bound, indent)
  {
    IndexInRange(w, h, x, y);
    assert Index(w, x + 1, y) == Index(w, x, y) + 1;
    assert Blank(c, Index(w, x, y), w, h, sites, bound, indent);
  }

  lemma LayBounds(cells: seq<MapPoint>, w: nat, h: nat, sites: seq<Site>, bound: Ground, indent: nat)
    requires |cells| == w * h
    ensures Laid(cells, Index(w, 0, 0), w, h, sites, bound, indent)
    ensures Laid(cells, Index(w, 0, h), w, h, sites, bound, indent) ==>
              forall i :: 0 <= i < |cells| ==> Blank(cells[i], i, w, h, sites, bound, indent)
  {
  }

  method ChooseGround(x: int, y: int, w: nat, h: nat, sites: seq<Site>, bound: Ground, indent: nat)
    returns (ground: Ground)
    requires |sites| > 0 || OnBorder(x, y, w, h, indent)
    ensures forall c: MapPoint :: c.x == x && c.y == y && c.ground == ground ==>
            GroundChosen(c, sites, w, h, bound, indent)
  {
    ground := bound;
    if !OnBorder(x, y, w, h, indent) {
      ground := NearestGround(x, y, sites);
    }
  }

  lemma BorderThere(w: nat, h: nat, indent: nat, x: nat, y: nat)
    requires x < w && y < h
    ensures AllBorder(w, h, indent) ==> OnBorder(x, y, w, h, indent)
  {
  }

  method LayGrounds(w: nat, h: nat, sites: seq<Site>, bound: Ground, indent: nat) returns (grid: array<MapPoint>)
    requires |sites| > 0 || AllBorder(w, h, indent)
    ensures fresh(grid) && grid.Length == w * h
    ensures forall i :: 0 <= i < grid.Length ==> Blank(grid[i], i, w, h, sites, bound, indent)
  {
    hide *;
    grid := new MapPoint[w * h];
    LayBounds(grid[..], w, h, sites, bound, indent);
    for y := 0 to h
      invariant Laid(grid[..], Index(w, 0, y), w, h, sites, bound, indent)
    {
      for x := 0 to w
        invariant Laid(grid[..], Index(w, x, y), w, h, sites, bound, indent)
      {
        BorderThere(w, h, indent, x, y);
        var ground := ChooseGround(x, y, w, h, sites, bound, indent);
        ghost var cells := grid[..];
        IndexInRange(w, h, x, y);
        var at := Index(w, x, y);
        var c := MapPoint(x, y, ground, Empty, Nothing, grid[at].nameId, UNLABELLED);
        LayNext(cells, w, h, sites, bound, indent, x, y, c);
        grid[at] := c;
        assert grid[..] == cells[at := c];
      }
      RowEnd(w, h, y);
    }
    LayBounds(grid[..], w, h, sites, bound, indent);
  }

  // ---- labelling --------------------------------------------------------------------------

  /** The scan of map.c:149-158, starting from a blank grid. */
  method LabelRegions(grid: array<MapPoint>, w: nat, h: nat, bound: Ground, regionsNum: array<nat>)
    requires w > 0 && Shaped(grid[..], w, h)
    requires regionsNum.Length == GROUND_TYPE_CNT && regionsNum[..] == [0, 0, 0]
    requires forall i :: 0 <= i < grid.Length ==>
               grid[i].region == UNLABELLED && (grid[i].ground != bound ==> grid[i].ground.Land())
    modifies grid, regionsNum
    ensures SameButRegions(old(grid[..]), grid[..])
    ensures Canonical(grid[..], w, bound)
    ensures DenselyNumbered(grid[..], bound, regionsNum[..])
  {
    hide *;
    ghost var before := grid[..];
    BeginScan(before, w, h, bound);
    for y := 0 to h
      invariant SameButRegions(before, grid[..]) && regionsNum.Length == GROUND_TYPE_CNT
      invariant Scanning(grid[..], w, bound, regionsNum[..], Index(w, 0, y))
    {
      for x := 0 to w
        invariant SameButRegions(before, grid[..]) && regionsNum.Length == GROUND_TYPE_CNT
        invariant Scanning(grid[..], w, bound, regionsNum[..], Index(w, x, y))
      {
        ghost var cells, counts := grid[..], regionsNum[..];
        ScanAt(before, cells, w, h, bound, counts, x, y);
        var at := Index(w, x, y);
        if grid[at].ground != bound && grid[at].region == UNLABELLED {
          ghost var order := SetRegion(at, grid, w, h, regionsNum);
          ScanFill(cells, grid[..], w, bound, counts, at);
          SameTrans(before, cells, grid[..]);
        } else {
          ScanSkip(cells, w, bound, counts, at);
        }
      }
      RowEnd(w, h, y);
    }
    EndScan(before, grid[..], w, h, bound, regionsNum[..]);
  }

  lemma BeginScan(cells: seq<MapPoint>, w: nat, h: nat, bound: Ground)
    requires w > 0 && Shaped(cells, w, h)
    requires forall i :: 0 <= i < |cells| ==>
               cells[i].region == UNLABELLED && (cells[i].ground != bound ==> cells[i].ground.Land())
    ensures SameButRegions(cells, cells) && Scanning(cells, w, bound, [0, 0, 0], Index(w, 0, 0))
  {
    ScanStart(cells, w, bound);
  }

  lemma ScanAt(before: seq<MapPoint>, cells: seq<MapPoint>, w: nat, h: nat, bound: Ground, n: seq<nat>, x: int, y: int)
    requires w > 0 && Shaped(before, w, h) && SameButRegions(before, cells) && 0 <= x < w && 0 <= y < h
    requires Scanning(cells, w, bound, n, Index(w, x, y))
    ensures Shaped(cells, w, h) && 0 <= Index(w, x, y) < |cells| && Index(w, x + 1, y) == Index(w, x, y) + 1
    ensures cells[Index(w, x, y)].ground != bound ==> cells[Index(w, x, y)].ground.Land()
  {
    IndexInRange(w, h, x, y);
  }

  lemma SameTrans(a: seq<MapPoint>, b: seq<MapPoint>, c: seq<MapPoint>)
    requires SameButRegions(a, b) && SameButRegions(b, c)
    ensures SameButRegions(a, c)
  {
  }

  lemma EndScan(before: seq<MapPoint>, cells: seq<MapPoint>, w: nat, h: nat, bound: Ground, n: seq<nat>)
    requires w > 0 && Shaped(before, w, h) && SameButRegions(before, cells)
    requires Scanning(cells, w, bound, n, Index(w, 0, h))
    ensures Canonical(cells, w, bound) && DenselyNumbered(cells, bound, n)
  {
    ScanDone(cells, w, bound, n);
  }

  // ---- map_generation ---------------------------------------------------------------------

  /** A generated map: grounds from border and sites, canonical labels, nothing built, nobody there. */
  ghost predicate Generated(cells: seq<MapPoint>, w: nat, h: nat, sites: seq<Site>, bound: Ground, indent: nat)
    requires w > 0
  {
    && Shaped(cells, w, h)
    && (forall i :: 0 <= i < |cells| ==>
          && GroundChosen(cells[i], sites, w, h, bound, indent)
          && cells[i].surface == Empty && cells[i].childObjectType == Nothing)
    && Canonical(cells, w, bound)
  }

  lemma SitesAreLand(sites: seq<Site>, count: nat, sizeX: nat, sizeY: nat, bound: Ground, rx: seq<nat>, ry: seq<nat>)
    requires |rx| == |ry| == count && Sited(sites, count, sizeX, sizeY, bound, rx, ry)
    ensures forall i :: 0 <= i < count ==> sites[i].ground == bound || sites[i].ground.Land()
  {
  }

  lemma BlankGrid(cells: seq<MapPoint>, w: nat, h: nat, sites: seq<Site>, bound: Ground, indent: nat)
    requires |cells| == w * h && forall i :: 0 <= i < |cells| ==> Blank(cells[i], i, w, h, sites, bound, indent)
    requires forall i :: 0 <= i < |sites| ==> sites[i].ground == bound || sites[i].ground.Land()
    ensures Shaped(cells, w, h)
    ensures forall i :: 0 <= i < |cells| ==>
              cells[i].region == UNLABELLED && (cells[i].ground != bound ==> cells[i].ground.Land())
  {
  }

  lemma LabelledGrid(before: seq<MapPoint>, cells: seq<MapPoint>, w: nat, h: nat, sites: seq<Site>, bound: Ground,
                     indent: nat)
    requires w > 0 && SameButRegions(before, cells) && Canonical(cells, w, bound)
    requires |before| == w * h && forall i :: 0 <= i < |before| ==> Blank(before[i], i, w, h, sites, bound, indent)
    ensures Generated(cells, w, h, sites, bound, indent)
  {
    forall i | 0 <= i < |cells|
      ensures GroundChosen(cells[i], sites, w, h, bound, indent) && cells[i].surface == Empty
              && cells[i].childObjectType == Nothing
    {
      assert Blank(before[i], i, w, h, sites, bound, indent);
    }
  }

  method MapGeneration(factor: nat, sizeX: nat, sizeY: nat, bound: Ground, indent: nat, rx: seq<nat>, ry: seq<nat>)
    returns (grid: array<MapPoint>, ghost sites: seq<Site>, ghost counters: seq<nat>)
    requires sizeX >= 2 && sizeY >= 2 && Anchors(sizeX, sizeY) <= factor * GROUND_TYPE_CNT + 8
    requires factor > 0 || AllBorder(sizeX, sizeY, indent)
    requires |rx| == |ry| == factor * GROUND_TYPE_CNT
    ensures fresh(grid)
    ensures Sited(sites, factor * GROUND_TYPE_CNT, sizeX, sizeY, bound, rx, ry)
    ensures Generated(grid[..], sizeX, sizeY, sites[..factor * GROUND_TYPE_CNT], bound, indent)
    ensures DenselyNumbered(grid[..], bound, counters)
  {
    var count := factor * GROUND_TYPE_CNT;
    var regionsNum := new nat[GROUND_TYPE_CNT](_ => 0);
    assert regionsNum[..] == [0, 0, 0];
    var placed := PlaceSites(count, sizeX, sizeY, bound, rx, ry);
    sites := placed[..];
    SitesAreLand(sites, count, sizeX, sizeY, bound, rx, ry);
    grid := LayGrounds(sizeX, sizeY, placed[..count], bound, indent);
    ghost var before := grid[..];
    BlankGrid(before, sizeX, sizeY, sites[..count], bound, indent);
    LabelRegions(grid, sizeX, sizeY, bound, regionsNum);
    LabelledGrid(before, grid[..], sizeX, sizeY, sites[..count], bound, indent);
    counters := regionsNum[..];
  }

  /** With a water bound no land lies within `indent` of the edge. */
  lemma GeneratedIsBordered(cells: seq<MapPoint>, w: nat, h: nat, sites: seq<Site>, indent: nat)
    requires w > 0 && Generated(cells, w, h, sites, Water, indent)
    ensures Bordered(cells, w, h, indent)
  {
  }

  /** Every cell of a generated map in plain terms: the bound on the border; elsewhere the ground of the
      site closest to the cell, of several the first. */
  lemma GeneratedGrounds(cells: seq<MapPoint>, w: nat, h: nat, sites: seq<Site>, bound: Ground, indent: nat, k: nat)
    requires w > 0 && Generated(cells, w, h, sites, bound, indent) && k < |cells|
    ensures var c := cells[k];
            && k == c.y * w + c.x && 0 <= c.x < w && 0 <= c.y < h
            && if c.x < indent || c.x > w - indent || c.y < indent || c.y > h - indent then c.ground == bound
               else exists i :: ClosestSite(sites, c.x, c.y, i) && c.ground == sites[i].ground
  {
    var c := cells[k];
    assert GroundChosen(c, sites, w, h, bound, indent);
    if !OnBorder(c.x, c.y, w, h, indent) {
      var i :| IsNearest(sites, c.x, c.y, i) && c.ground == sites[i].ground;
      NearestIsClosest(sites, c.x, c.y, i);
    }
  }

  lemma {:induction false} StepsMeaning(k: nat, half: nat)
    ensures Steps(k, half) == k * half
  {
    if k > 0 {
      StepsMeaning(k - 1, half);
      assert (k - 1) * half == k * half - half;
    }
  }

  /** Where the anchors stand: at the multiples of half the size along each side, column by column, the
      centre left out. */
  lemma AnchorPlaces(a: nat, b: nat, sizeX: nat, sizeY: nat, bound: Ground)
    requires sizeX >= 2 && sizeY >= 2 && (a, b) != (1, 1)
    requires a * (sizeX / 2) <= sizeX && b * (sizeY / 2) <= sizeY
    ensures && (sizeY == 3 ==> Anchor(if 4 * a + b < 5 then 4 * a + b else 4 * a + b - 1, sizeX, sizeY, bound) ==
                               Site(a * (sizeX / 2), b * (sizeY / 2), bound))
            && (sizeY != 3 ==> Anchor(if 3 * a + b < 4 then 3 * a + b else 3 * a + b - 1, sizeX, sizeY, bound) ==
                               Site(a * (sizeX / 2), b * (sizeY / 2), bound))
  {
    PositionInRange(sizeX, a);
    PositionInRange(sizeY, b);
    StepsMeaning(a, sizeX / 2);
    StepsMeaning(b, sizeY / 2);
    AnchorAt(a, b, sizeX, sizeY, bound);
  }

  lemma PositionInRange(size: nat, k: nat)
    requires size >= 2 && k * (size / 2) <= size
    ensures k < Columns(size)
  {
    var half := size / 2;
    if k >= 4 {
      FourTimes(k, half);
    }
  }

  lemma FourTimes(k: nat, half: nat)
    requires k >= 4
    ensures k * half >= 4 * half
  {
    assert (k - 4) * half >= 0;
  }

  /** All sites in plain terms: grounds 0, 1 and 2 by turns at the places drawn, behind the anchors. */
  lemma SitesDrawn(sites: seq<Site>, count: nat, sizeX: nat, sizeY: nat, bound: Ground, rx: seq<nat>, ry: seq<nat>,
                   i: nat)
    requires |rx| == |ry| == count && Sited(sites, count, sizeX, sizeY, bound, rx, ry)
    requires i < count && i >= (if sizeX == 3 && sizeY == 3 then 15 else if sizeX == 3 || sizeY == 3 then 11 else 8)
    ensures sites[i].x == rx[i] && sites[i].y == ry[i]
    ensures sites[i].ground == if i % 3 == 0 then Soil else if i % 3 == 1 then Sand else Grass
  {
  }

  // ---- the map is a function of the draws -------------------------------------------------

  lemma GroundDecided(a: MapPoint, b: MapPoint, sites: seq<Site>, w: nat, h: nat, bound: Ground, indent: nat)
    requires a.x == b.x && a.y == b.y
    requires GroundChosen(a, sites, w, h, bound, indent) && GroundChosen(b, sites, w, h, bound, indent)
    ensures a.ground == b.ground
  {
    if !OnBorder(a.x, a.y, w, h, indent) {
      var i :| IsNearest(sites, a.x, a.y, i) && a.ground == sites[i].ground;
      var j :| IsNearest(sites, a.x, a.y, j) && b.ground == sites[j].ground;
      NearestUnique(sites, a.x, a.y, i, j);
    }
  }

  /** Two maps generated from the same sites agree on every cell, names of buildings aside. */
  lemma GeneratedUnique(a: seq<MapPoint>, b: seq<MapPoint>, w: nat, h: nat, sites: seq<Site>, bound: Ground,
                        indent: nat)
    requires w > 0 && Generated(a, w, h, sites, bound, indent) && Generated(b, w, h, sites, bound, indent)
    ensures |a| == |b| && forall i :: 0 <= i < |a| ==> a[i] == b[i].(nameId := a[i].nameId)
  {
    forall i | 0 <= i < |a|
      ensures a[i].x == b[i].x && a[i].y == b[i].y && a[i].ground == b[i].ground
    {
      SamePosition(a, b, w, h, i);
      GroundDecided(a[i], b[i], sites, w, h, bound, indent);
    }
    LabelsFollowGrounds(a, b, w, bound);
  }

  lemma SamePosition(a: seq<MapPoint>, b: seq<MapPoint>, w: nat, h: nat, i: int)
    requires Shaped(a, w, h) && Shaped(b, w, h) && 0 <= i < |a|
    ensures |b| == |a| && a[i].x == b[i].x && a[i].y == b[i].y
  {
    IndexInjective(w, a[i].x, a[i].y, b[i].x, b[i].y);
  }

  /** The whole map is a function of the numbers drawn: two runs of the generator with the same draws
      leave the same map. */
  lemma MapFollowsDraws(a: seq<MapPoint>, b: seq<MapPoint>, count: nat, w: nat, h: nat, bound: Ground, indent: nat,
                        rx: seq<nat>, ry: seq<nat>, sitesA: seq<Site>, sitesB: seq<Site>)
    requires w > 0 && |rx| == |ry| == count
    requires Sited(sitesA, count, w, h, bound, rx, ry) && Generated(a, w, h, sitesA[..count], bound, indent)
    requires Sited(sitesB, count, w, h, bound, rx, ry) && Generated(b, w, h, sitesB[..count], bound, indent)
    ensures |a| == |b| && forall i :: 0 <= i < |a| ==> a[i] == b[i].(nameId := a[i].nameId)
  {
    hide Anchor, Anchors, Generated;
    assert sitesA[..count] == sitesB[..count];
    GeneratedUnique(a, b, w, h, sitesA[..count], bound, indent);
  }
}
