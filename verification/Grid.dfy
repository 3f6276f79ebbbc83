/** The cells of the game map (map.h) and 4-neighbour reachability over the flat cell array. */
module Grid {

  const GROUND_TYPE_CNT: nat := 3
  const UNLABELLED := -1

  datatype Ground = Soil | Sand | Grass | Water {
    function Code(): nat {
      match this
      case Soil => 0
      case Sand => 1
      case Grass => 2
      case Water => 3
    }

    /** The source's `ground < GROUND_TYPE_CNT`. */
    predicate Land() {
      Code() < GROUND_TYPE_CNT
    }
  }

  datatype Surface = Empty | Wall | Floor {
    function Code(): nat {
      match this
      case Empty => 0
      case Wall => 1
      case Floor => 2
    }
  }

  datatype Occupant = Nothing | Player | Enemy {
    function Code(): nat {
      match this
      case Nothing => 0
      case Player => 1
      case Enemy => 2
    }
  }

  datatype MapPoint = MapPoint(
    x: int,
    y: int,
    ground: Ground,
    surface: Surface,
    childObjectType: Occupant,
    nameId: int,
    region: int)

  /** n * n, added up from odd numbers so that proofs about distances stay linear. */
  function SquareOf(n: nat): nat {
    if n == 0 then 0 else SquareOf(n - 1) + 2 * n - 1
  }

  function Sq(x: int): nat {
    SquareOf(if x < 0 then -x else x)
  }

  lemma {:induction false} SquareOfMeaning(n: nat)
    ensures SquareOf(n) == n * n
  {
    if n > 0 {
      SquareOfMeaning(n - 1);
      assert (n - 1) * (n - 1) == n * n - 2 * n + 1;
    }
  }

  lemma SqMeaning(x: int)
    ensures Sq(x) == x * x
  {
    SquareOfMeaning(if x < 0 then -x else x);
  }

  /** Squared distance of two places x and y apart; compared in place of square roots. */
  function SumSq(x: int, y: int): nat {
    Sq(x) + Sq(y)
  }

  /** The squared distance of (x, y) and (px, py), written out. */
  ghost function SquaredDistance(x: int, y: int, px: int, py: int): int {
    (x - px) * (x - px) + (y - py) * (y - py)
  }

  lemma SumSqMeaning(x: int, y: int, px: int, py: int)
    ensures SumSq(x - px, y - py) == SquaredDistance(x, y, px, py)
  {
    SqMeaning(x - px);
    SqMeaning(y - py);
  }

  /** Position of cell (x, y) in the flat array of a map of width w. */
  function Index(w: nat, x: int, y: int): int {
    y * w + x
  }

  /** The array holds w * h cells and every cell knows its own place. */
  ghost predicate Shaped(cells: seq<MapPoint>, w: nat, h: nat) {
    && |cells| == w * h
    && forall i {:trigger cells[i]} :: 0 <= i < |cells| ==>
         0 <= cells[i].x < w && 0 <= cells[i].y < h && i == Index(w, cells[i].x, cells[i].y)
  }

  /** One step left, right, up or down on a map of width w, without wrapping around a row end. */
  ghost predicate Adjacent(w: nat, i: int, j: int)
    requires w > 0
  {
    || j == i + w
    || i == j + w
    || (j == i + 1 && j % w != 0)
    || (i == j + 1 && i % w != 0)
  }

  ghost predicate IsPath(w: nat, area: set<int>, i: int, j: int, path: seq<int>)
    requires w > 0
  {
    && |path| > 0
    && path[0] == i
    && path[|path| - 1] == j
    && (forall k :: 0 <= k < |path| ==> path[k] in area)
    && (forall k :: 0 < k < |path| ==> Adjacent(w, path[k - 1], path[k]))
  }

  /** Some 4-neighbour path of cells of `area` joins i and j. */
  ghost predicate Reach(w: nat, area: set<int>, i: int, j: int)
    requires w > 0
  {
    exists path :: IsPath(w, area, i, j, path)
  }

  /** All cells of one ground. */
  ghost function Area(cells: seq<MapPoint>, g: Ground): set<int> {
    set i | 0 <= i < |cells| && cells[i].ground == g
  }

  /** Land stays `indent` cells away from the low edges and from the far edges' coordinate (map.c:139). */
  ghost predicate Bordered(cells: seq<MapPoint>, w: nat, h: nat, indent: nat) {
    forall i {:trigger cells[i]} :: 0 <= i < |cells| && cells[i].ground.Land() ==>
      indent <= cells[i].x <= w - indent && indent <= cells[i].y <= h - indent
  }

  /** Only region labels differ. */
  ghost predicate SameButRegions(a: seq<MapPoint>, b: seq<MapPoint>) {
    |a| == |b| && forall i :: 0 <= i < |a| ==> b[i] == a[i].(region := b[i].region)
  }

  // ---- index arithmetic -------------------------------------------------------------------

  lemma IndexInRange(w: nat, h: nat, x: int, y: int)
    requires 0 <= x < w && 0 <= y < h
    ensures 0 <= Index(w, x, y) < w * h
  {
    assert y * w <= (h - 1) * w;
  }

  /** Different places have different indices. */
  lemma IndexInjective(w: nat, x: int, y: int, x': int, y': int)
    requires 0 <= x < w && 0 <= x' < w
    requires Index(w, x, y) == Index(w, x', y')
    ensures x == x' && y == y'
  {
    if y < y' {
      RowsApart(w, y, y');
    } else if y' < y {
      RowsApart(w, y', y);
    }
  }

  lemma RowsApart(w: nat, y: int, y': int)
    requires y < y'
    ensures y * w + w <= y' * w
  {
    assert (y' - y - 1) * w >= 0;
  }

  lemma IndexDecodes(w: nat, x: int, y: int)
    requires 0 <= x < w
    ensures Index(w, x, y) % w == x && Index(w, x, y) / w == y
  {
    var i := Index(w, x, y);
    IndexInjective(w, x, y, i % w, i / w);
  }

  /** The cell stored at index (x, y) is the cell of that place. */
  lemma CellAt(cells: seq<MapPoint>, w: nat, h: nat, x: int, y: int)
    requires Shaped(cells, w, h) && 0 <= x < w && 0 <= y < h
    ensures 0 <= Index(w, x, y) < |cells|
    ensures cells[Index(w, x, y)].x == x && cells[Index(w, x, y)].y == y
  {
    IndexInRange(w, h, x, y);
    var c := cells[Index(w, x, y)];
    IndexInjective(w, x, y, c.x, c.y);
  }

  /** `Adjacent` is the 4-neighbourhood of the coordinates the cells carry. */
  lemma AdjacentIsFourNeighbour(cells: seq<MapPoint>, w: nat, h: nat, i: int, j: int)
    requires Shaped(cells, w, h) && 0 <= i < |cells| && 0 <= j < |cells|
    ensures w > 0
    ensures Adjacent(w, i, j) <==>
            (cells[i].x == cells[j].x && (cells[i].y == cells[j].y + 1 || cells[j].y == cells[i].y + 1)) ||
            (cells[i].y == cells[j].y && (cells[i].x == cells[j].x + 1 || cells[j].x == cells[i].x + 1))
  {
    var a, b := cells[i], cells[j];
    IndexDecodes(w, a.x, a.y);
    IndexDecodes(w, b.x, b.y);
    VerticalStep(w, a.x, a.y, b.x, b.y);
    VerticalStep(w, b.x, b.y, a.x, a.y);
    HorizontalStep(w, a.x, a.y, b.x, b.y);
    HorizontalStep(w, b.x, b.y, a.x, a.y);
  }

  lemma VerticalStep(w: nat, x: int, y: int, x': int, y': int)
    requires 0 <= x < w && 0 <= x' < w
    ensures Index(w, x', y') == Index(w, x, y) + w <==> x' == x && y' == y + 1
  {
    assert Index(w, x, y + 1) == Index(w, x, y) + w;
    if Index(w, x', y') == Index(w, x, y) + w {
      IndexInjective(w, x', y', x, y + 1);
    }
  }

  lemma HorizontalStep(w: nat, x: int, y: int, x': int, y': int)
    requires 0 <= x < w && 0 <= x' < w
    ensures Index(w, x', y') == Index(w, x, y) + 1 && x' != 0 <==> y' == y && x' == x + 1
  {
    if Index(w, x', y') == Index(w, x, y) + 1 && x' != 0 {
      assert Index(w, x' - 1, y') == Index(w, x, y);
      IndexInjective(w, x' - 1, y', x, y);
    }
  }

  // ---- reachability -----------------------------------------------------------------------

  lemma ReachSelf(w: nat, area: set<int>, i: int)
    requires w > 0 && i in area
    ensures Reach(w, area, i, i)
  {
    assert IsPath(w, area, i, i, [i]);
  }

  lemma ReachStep(w: nat, area: set<int>, i: int, j: int, k: int)
    requires w > 0 && Reach(w, area, i, j) && Adjacent(w, j, k) && k in area
    ensures Reach(w, area, i, k)
  {
    var path :| IsPath(w, area, i, j, path);
    assert IsPath(w, area, i, k, path + [k]);
  }

  lemma ReachEnds(w: nat, area: set<int>, i: int, j: int)
    requires w > 0 && Reach(w, area, i, j)
    ensures i in area && j in area
  {
  }

  lemma ReachSymmetric(w: nat, area: set<int>, i: int, j: int)
    requires w > 0 && Reach(w, area, i, j)
    ensures Reach(w, area, j, i)
  {
    var path :| IsPath(w, area, i, j, path);
    var n := |path| - 1;
    var back := seq(|path|, k requires 0 <= k < |path| => path[n - k]);
    forall k | 0 < k < |back|
      ensures Adjacent(w, back[k - 1], back[k])
    {
      assert Adjacent(w, path[n - k], path[n - k + 1]) by {
        assert path[n - k] == path[(n - k + 1) - 1];
      }
      assert back[k] == path[n - k] && back[k - 1] == path[n - k + 1];
    }
    assert IsPath(w, area, j, i, back);
  }

  lemma ReachTransitive(w: nat, area: set<int>, i: int, j: int, k: int)
    requires w > 0 && Reach(w, area, i, j) && Reach(w, area, j, k)
    ensures Reach(w, area, i, k)
  {
    var p :| IsPath(w, area, i, j, p);
    var q :| IsPath(w, area, j, k, q);
    var r := p + q[1..];
    assert forall n :: |p| <= n < |r| ==> r[n] == q[n - |p| + 1];
    forall n | 0 < n < |r|
      ensures Adjacent(w, r[n - 1], r[n])
    {
      if n >= |p| {
        assert r[n - 1] == q[n - |p|];
      }
    }
    assert IsPath(w, area, i, k, r);
  }

  lemma ReachMonotone(w: nat, area: set<int>, wider: set<int>, i: int, j: int)
    requires w > 0 && area <= wider && Reach(w, area, i, j)
    ensures Reach(w, wider, i, j)
  {
    var path :| IsPath(w, area, i, j, path);
    assert IsPath(w, wider, i, j, path);
  }

  /** A set that no step inside `area` leaves holds everything reachable from its members, by paths
      inside it. */
  lemma ReachStaysClosed(w: nat, area: set<int>, closed: set<int>, i: int, j: int)
    requires w > 0 && i in closed && Reach(w, area, i, j)
    requires forall a, b :: a in closed && b in area && Adjacent(w, a, b) ==> b in closed
    ensures j in closed && Reach(w, closed, i, j)
  {
    var path :| IsPath(w, area, i, j, path);
    PathStaysClosed(w, area, closed, path, |path| - 1);
    assert IsPath(w, closed, i, j, path);
  }

  lemma {:induction false} PathStaysClosed(w: nat, area: set<int>, closed: set<int>, path: seq<int>, n: nat)
    requires w > 0 && n < |path| && path[0] in closed && IsPath(w, area, path[0], path[|path| - 1], path)
    requires forall a, b :: a in closed && b in area && Adjacent(w, a, b) ==> b in closed
    ensures forall k :: 0 <= k <= n ==> path[k] in closed
  {
    if n > 0 {
      PathStaysClosed(w, area, closed, path, n - 1);
      assert Adjacent(w, path[n - 1], path[n]);
    }
  }
}
