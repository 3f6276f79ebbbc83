/** What the labelling scan of map_generation (src/game_processing/map.c:149-158) leaves behind:
    labels are the connected components of each ground, numbered per ground in scan order. */
module RegionLabels {
  import opened Grid
  import opened RegionFill

  /** Cell j carries region r of ground g. */
  ghost predicate Uses(cells: seq<MapPoint>, g: Ground, r: int, j: int) {
    0 <= j < |cells| && cells[j].ground == g && cells[j].region == r
  }

  /** Region r of ground g has a cell before position k. */
  ghost predicate Appears(cells: seq<MapPoint>, g: Ground, r: int, k: int) {
    exists j :: 0 <= j < k && Uses(cells, g, r, j)
  }

  /** Two non-bound cells share ground and region exactly when a path of cells of that ground joins
      them; exactly the bound cells stay unlabelled. */
  ghost predicate LabelsAreComponents(cells: seq<MapPoint>, w: nat, bound: Ground)
    requires w > 0
  {
    && (forall i :: 0 <= i < |cells| ==>
          cells[i].region >= UNLABELLED && (cells[i].region == UNLABELLED <==> cells[i].ground == bound))
    && (forall i, j :: 0 <= i < |cells| && 0 <= j < |cells| && cells[i].ground != bound && cells[j].ground != bound ==>
          (cells[i].ground == cells[j].ground && cells[i].region == cells[j].region <==>
           Reach(w, Area(cells, cells[i].ground), i, j)))
  }

  /** A region number appears, in row-major order, only after its predecessor of the same ground. */
  ghost predicate NumberedInScanOrder(cells: seq<MapPoint>) {
    forall i :: 0 <= i < |cells| && cells[i].region > 0 ==>
      Appears(cells, cells[i].ground, cells[i].region - 1, i)
  }

  /** Ground g uses exactly the regions 0 .. n[g] - 1. */
  ghost predicate DenselyNumbered(cells: seq<MapPoint>, bound: Ground, n: seq<nat>) {
    && |n| == GROUND_TYPE_CNT
    && forall g: Ground, r: int :: g.Land() && r != UNLABELLED ==>
         (0 <= r < n[g.Code()] <==> Appears(cells, g, r, |cells|))
  }

  ghost predicate Canonical(cells: seq<MapPoint>, w: nat, bound: Ground)
    requires w > 0
  {
    LabelsAreComponents(cells, w, bound) && NumberedInScanOrder(cells)
  }

  // ---- the invariant of the scan ----------------------------------------------------------

  /** Every non-bound cell before k is labelled; labels never stop inside a component, never join two
      components, and each number below the counter of its ground already appears before k. */
  ghost predicate Scanning(cells: seq<MapPoint>, w: nat, bound: Ground, n: seq<nat>, k: int)
    requires w > 0
  {
    && 0 <= k <= |cells|
    && |n| == GROUND_TYPE_CNT
    && LabelsInRange(cells, bound, n)
    && (forall i :: 0 <= i < k && cells[i].ground != bound ==> cells[i].region != UNLABELLED)
    && LabelsSpread(cells, w)
    && LabelsJoined(cells, w)
    && Counted(cells, n, k)
    && NumberedInScanOrder(cells)
  }

  ghost predicate LabelsInRange(cells: seq<MapPoint>, bound: Ground, n: seq<nat>)
    requires |n| == GROUND_TYPE_CNT
  {
    forall i :: 0 <= i < |cells| ==>
      && cells[i].region >= UNLABELLED
      && (cells[i].ground != bound ==> cells[i].ground.Land())
      && (cells[i].region != UNLABELLED ==> cells[i].ground != bound && cells[i].region < n[cells[i].ground.Code()])
  }

  ghost predicate LabelsSpread(cells: seq<MapPoint>, w: nat)
    requires w > 0
  {
    forall i, j ::
      0 <= i < |cells| && 0 <= j < |cells| && Adjacent(w, i, j) &&
      cells[i].ground == cells[j].ground && cells[i].region != UNLABELLED ==>
        cells[j].region == cells[i].region
  }

  ghost predicate LabelsJoined(cells: seq<MapPoint>, w: nat)
    requires w > 0
  {
    forall i, j ::
      0 <= i < |cells| && 0 <= j < |cells| && cells[i].region != UNLABELLED &&
      cells[i].ground == cells[j].ground && cells[i].region == cells[j].region ==>
        Reach(w, Area(cells, cells[i].ground), i, j)
  }

  /** Each number below the counter of its ground has a cell before k. */
  ghost predicate Counted(cells: seq<MapPoint>, n: seq<nat>, k: int)
    requires |n| == GROUND_TYPE_CNT
  {
    forall g: Ground, r: int {:trigger Appears(cells, g, r, k)} ::
      g.Land() && 0 <= r < n[g.Code()] ==> Appears(cells, g, r, k)
  }

  lemma ScanStart(cells: seq<MapPoint>, w: nat, bound: Ground)
    requires w > 0
    requires forall i :: 0 <= i < |cells| ==>
               cells[i].region == UNLABELLED && (cells[i].ground != bound ==> cells[i].ground.Land())
    ensures Scanning(cells, w, bound, [0, 0, 0], 0)
  {
  }

  /** A cell that needs no fill: of the bound ground, or labelled already. */
  lemma ScanSkip(cells: seq<MapPoint>, w: nat, bound: Ground, n: seq<nat>, k: int)
    requires w > 0 && Scanning(cells, w, bound, n, k) && k < |cells|
    requires cells[k].ground == bound || cells[k].region != UNLABELLED
    ensures Scanning(cells, w, bound, n, k + 1)
  {
    forall g: Ground, r: int {:trigger Appears(cells, g, r, k + 1)} | g.Land() && 0 <= r < n[g.Code()]
      ensures Appears(cells, g, r, k + 1)
    {
      assert Appears(cells, g, r, k);
    }
  }

  /** set_region at the first unlabelled cell of the scan keeps the invariant. */
  lemma ScanFill(a: seq<MapPoint>, b: seq<MapPoint>, w: nat, bound: Ground, n: seq<nat>, k: int)
    requires w > 0 && Scanning(a, w, bound, n, k) && k < |a|
    requires a[k].ground != bound && a[k].region == UNLABELLED
    requires Filled(a, b, w, a[k].ground, n[a[k].ground.Code()], k)
    ensures Scanning(b, w, bound, n[a[k].ground.Code() := n[a[k].ground.Code()] + 1], k + 1)
    ensures SameButRegions(a, b)
  {
    FillCells(a, b, w, bound, n, k);
    FillSpreads(a, b, w, bound, n, k);
    FillJoins(a, b, w, bound, n, k);
    FillCounts(a, b, w, bound, n, k);
    FillNumbers(a, b, w, bound, n, k);
  }

  lemma FillCounts(a: seq<MapPoint>, b: seq<MapPoint>, w: nat, bound: Ground, n: seq<nat>, k: int)
    requires w > 0 && Scanning(a, w, bound, n, k) && k < |a|
    requires a[k].ground != bound && a[k].region == UNLABELLED
    requires Filled(a, b, w, a[k].ground, n[a[k].ground.Code()], k)
    ensures Counted(b, n[a[k].ground.Code() := n[a[k].ground.Code()] + 1], k + 1)
  {
    var g := a[k].ground;
    var r := n[g.Code()];
    var n' := n[g.Code() := r + 1];
    FillCells(a, b, w, bound, n, k);
    forall g': Ground, r': int {:trigger Appears(b, g', r', k + 1)} | g'.Land() && 0 <= r' < n'[g'.Code()]
      ensures Appears(b, g', r', k + 1)
    {
      if g' == g && r' == r {
        assert Uses(b, g, r, k);
      } else {
        assert Appears(a, g', r', k);
        var j :| 0 <= j < k && Uses(a, g', r', j);
        assert Uses(b, g', r', j);
      }
    }
  }

  lemma FillNumbers(a: seq<MapPoint>, b: seq<MapPoint>, w: nat, bound: Ground, n: seq<nat>, k: int)
    requires w > 0 && Scanning(a, w, bound, n, k) && k < |a|
    requires a[k].ground != bound && a[k].region == UNLABELLED
    requires Filled(a, b, w, a[k].ground, n[a[k].ground.Code()], k)
    ensures NumberedInScanOrder(b)
  {
    var g := a[k].ground;
    var r := n[g.Code()];
    FillCells(a, b, w, bound, n, k);
    forall i | 0 <= i < |b| && b[i].region > 0
      ensures Appears(b, b[i].ground, b[i].region - 1, i)
    {
      if a[i].region == UNLABELLED {
        assert Appears(a, g, r - 1, k);
        var j :| 0 <= j < k && Uses(a, g, r - 1, j);
        assert Uses(b, g, r - 1, j);
      } else {
        assert Appears(a, a[i].ground, a[i].region - 1, i);
        var j :| 0 <= j < i && Uses(a, a[i].ground, a[i].region - 1, j);
        assert Uses(b, b[i].ground, b[i].region - 1, j);
      }
    }
  }

  /** Which cells a fill changes: unlabelled ones of the seed's ground, none before the seed. */
  lemma FillCells(a: seq<MapPoint>, b: seq<MapPoint>, w: nat, bound: Ground, n: seq<nat>, k: int)
    requires w > 0 && Scanning(a, w, bound, n, k) && k < |a|
    requires a[k].ground != bound && a[k].region == UNLABELLED
    requires Filled(a, b, w, a[k].ground, n[a[k].ground.Code()], k)
    ensures SameButRegions(a, b)
    ensures forall i :: 0 <= i < |a| && b[i] != a[i] ==>
              i >= k && a[i].ground == a[k].ground && a[i].region == UNLABELLED && b[i].region == n[a[k].ground.Code()]
    ensures b[k].region == n[a[k].ground.Code()]
    ensures LabelsInRange(b, bound, n[a[k].ground.Code() := n[a[k].ground.Code()] + 1])
  {
    var open := Open(a, a[k].ground);
    ReachSelf(w, open, k);
    forall i | 0 <= i < |a| && Reach(w, open, k, i)
      ensures i in open
    {
      ReachEnds(w, open, k, i);
    }
  }

  lemma FillSpreads(a: seq<MapPoint>, b: seq<MapPoint>, w: nat, bound: Ground, n: seq<nat>, k: int)
    requires w > 0 && Scanning(a, w, bound, n, k) && k < |a|
    requires a[k].ground != bound && a[k].region == UNLABELLED
    requires Filled(a, b, w, a[k].ground, n[a[k].ground.Code()], k)
    ensures LabelsSpread(b, w)
  {
    var open := Open(a, a[k].ground);
    FillCells(a, b, w, bound, n, k);
    forall i, j | 0 <= i < |b| && 0 <= j < |b| && Adjacent(w, i, j) && b[i].ground == b[j].ground
        && b[i].region != UNLABELLED
      ensures b[j].region == b[i].region
    {
      if a[i].region == UNLABELLED {
        assert Adjacent(w, j, i);
        assert j in open;
        ReachStep(w, open, k, i, j);
      }
    }
  }

  lemma FillJoins(a: seq<MapPoint>, b: seq<MapPoint>, w: nat, bound: Ground, n: seq<nat>, k: int)
    requires w > 0 && Scanning(a, w, bound, n, k) && k < |a|
    requires a[k].ground != bound && a[k].region == UNLABELLED
    requires Filled(a, b, w, a[k].ground, n[a[k].ground.Code()], k)
    ensures LabelsJoined(b, w)
  {
    var open := Open(a, a[k].ground);
    FillCells(a, b, w, bound, n, k);
    forall i, j | 0 <= i < |b| && 0 <= j < |b| && b[i].region != UNLABELLED && b[i].ground == b[j].ground
        && b[i].region == b[j].region
      ensures Reach(w, Area(b, b[i].ground), i, j)
    {
      assert Area(b, b[i].ground) == Area(a, a[i].ground);
      if a[i].region == UNLABELLED {
        assert a[j].region == UNLABELLED;
        ReachSymmetric(w, open, k, i);
        ReachTransitive(w, open, i, k, j);
        ReachMonotone(w, open, Area(b, b[i].ground), i, j);
      }
    }
  }

  /** After the last cell the labelling is complete and canonical. */
  lemma ScanDone(cells: seq<MapPoint>, w: nat, bound: Ground, n: seq<nat>)
    requires w > 0 && Scanning(cells, w, bound, n, |cells|)
    ensures Canonical(cells, w, bound)
    ensures DenselyNumbered(cells, bound, n)
  {
    forall i, j | 0 <= i < |cells| && 0 <= j < |cells| && cells[i].ground != bound
        && Reach(w, Area(cells, cells[i].ground), i, j)
      ensures cells[j].ground == cells[i].ground && cells[j].region == cells[i].region
    {
      var area := Area(cells, cells[i].ground);
      var closed := set m | m in area && cells[m].region == cells[i].region;
      ReachStaysClosed(w, area, closed, i, j);
    }
  }

  // ---- the labelling is a function of the ground grid -------------------------------------

  /** Every smaller number of the same ground appears before a cell. */
  lemma {:induction false} SmallerAppear(cells: seq<MapPoint>, i: int, r: int)
    requires NumberedInScanOrder(cells) && 0 <= i < |cells| && 0 <= r < cells[i].region
    ensures Appears(cells, cells[i].ground, r, i)
    decreases cells[i].region - r
  {
    if r + 1 == cells[i].region {
      assert Appears(cells, cells[i].ground, cells[i].region - 1, i);
    } else {
      SmallerAppear(cells, i, r + 1);
      var j :| 0 <= j < i && Uses(cells, cells[i].ground, r + 1, j);
      SmallerAppear(cells, j, r);
    }
  }

  ghost predicate SameGrounds(a: seq<MapPoint>, b: seq<MapPoint>) {
    |a| == |b| && forall i :: 0 <= i < |a| ==> a[i].ground == b[i].ground
  }

  /** Two canonical labellings of the same grounds agree on every cell. */
  lemma {:induction false} CanonicalUnique(a: seq<MapPoint>, b: seq<MapPoint>, w: nat, bound: Ground, i: int)
    requires w > 0 && SameGrounds(a, b) && Canonical(a, w, bound) && Canonical(b, w, bound)
    requires 0 <= i < |a|
    ensures a[i].region == b[i].region
    decreases i
  {
    forall j | 0 <= j < i
      ensures a[j].region == b[j].region
    {
      CanonicalUnique(a, b, w, bound, j);
    }
    if a[i].ground != bound {
      if a[i].region < b[i].region {
        SmallerAppear(b, i, a[i].region);
        EarlierTwin(a, b, w, bound, i);
      } else if b[i].region < a[i].region {
        SmallerAppear(a, i, b[i].region);
        EarlierTwin(b, a, w, bound, i);
      }
    }
  }

  /** If a's label of cell i already appears before i in b, where both agree, then both agree on i. */
  lemma EarlierTwin(a: seq<MapPoint>, b: seq<MapPoint>, w: nat, bound: Ground, i: int)
    requires w > 0 && SameGrounds(a, b) && LabelsAreComponents(a, w, bound) && LabelsAreComponents(b, w, bound)
    requires 0 <= i < |a| && a[i].ground != bound
    requires forall j :: 0 <= j < i ==> a[j].region == b[j].region
    requires Appears(b, b[i].ground, a[i].region, i)
    ensures a[i].region == b[i].region
  {
    var j :| 0 <= j < i && Uses(b, b[i].ground, a[i].region, j);
    assert a[j].ground == a[i].ground && a[j].region == a[i].region;
    assert Reach(w, Area(a, a[i].ground), i, j);
    assert Area(a, a[i].ground) == Area(b, b[i].ground);
    assert b[j].region == b[i].region;
  }

  /** The whole labelling is a function of the ground grid alone. */
  lemma LabelsFollowGrounds(a: seq<MapPoint>, b: seq<MapPoint>, w: nat, bound: Ground)
    requires w > 0 && SameGrounds(a, b) && Canonical(a, w, bound) && Canonical(b, w, bound)
    ensures forall i :: 0 <= i < |a| ==> a[i].region == b[i].region
  {
    forall i | 0 <= i < |a|
      ensures a[i].region == b[i].region
    {
      CanonicalUnique(a, b, w, bound, i);
    }
  }
}
