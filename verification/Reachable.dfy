/** From a generated map, through any buildings, to every reachable state of the game. */
module Reachable {
  import opened Grid
  import opened MapGeneration
  import opened Buildings
  import W = World
  import Ticks
  import GameTick

  /** main.c:11: every map is square, bounded by water, with indent 10. */
  const INDENT: nat := GameTick.INDENT

  /** The world the server starts with: the map with its buildings, and nobody there. */
  function Opening(cells: seq<MapPoint>, w: nat, ps: seq<Placement>): W.World {
    W.World(w, w, Built(cells, ps), [])
  }

  lemma OpeningIsSound(cells: seq<MapPoint>, w: nat, sites: seq<Site>, ps: seq<Placement>)
    requires w > 0 && Generated(cells, w, w, sites, Water, INDENT) && AllFitted(cells, w, ps)
    ensures var s := Opening(cells, w, ps); Ticks.Inv(s) && W.Ready(s) && Bordered(s.cells, s.w, s.h, INDENT)
  {
    GeneratedIsBordered(cells, w, w, sites, INDENT);
    BuiltStaysReady(cells, w, ps, Water, INDENT);
    BuiltKeeps(cells, w, ps);
    var s := Opening(cells, w, ps);
    forall x, y {:trigger Ticks.Occ(s, x, y)}
      ensures Ticks.Occ(s, x, y) == Nothing
    {
      if s.InMap(x, y) {
        IndexInRange(w, w, x, y);
        assert cells[Index(w, x, y)].childObjectType == Nothing;
      }
    }
  }

  /** In every state reachable by ticks, requests and newcomers, the 9x9 loops around any character read
      cells of the map only. */
  lemma WindowSafe(cells: seq<MapPoint>, w: nat, sites: seq<Site>, ps: seq<Placement>,
                   es: seq<Ticks.Event>, t: W.World, i: nat, x: int, y: int)
    requires w > 0 && Generated(cells, w, w, sites, Water, INDENT) && AllFitted(cells, w, ps)
    requires Ticks.Run(Opening(cells, w, ps), es, t) && i < |t.chars|
    requires t.chars[i].x - 4 <= x <= t.chars[i].x + 4 && t.chars[i].y - 4 <= y <= t.chars[i].y + 4
    ensures t.InMap(x, y) && 0 <= Index(t.w, x, y) < |t.cells|
    ensures t.cells[Index(t.w, x, y)].x == x && t.cells[Index(t.w, x, y)].y == y
  {
    var s := Opening(cells, w, ps);
    OpeningIsSound(cells, w, sites, ps);
    Ticks.RunKeeps(s, es, t);
    Ticks.BorderStays(s, t, INDENT);
    Ticks.WindowInside(t, INDENT, i, x, y);
  }

  /** And nobody ever leaves the stretch between the borders or stands on water, in a wall, or on
      another character's cell. */
  lemma NobodyStrays(cells: seq<MapPoint>, w: nat, sites: seq<Site>, ps: seq<Placement>,
                     es: seq<Ticks.Event>, t: W.World, i: nat, j: nat)
    requires w > 0 && Generated(cells, w, w, sites, Water, INDENT) && AllFitted(cells, w, ps)
    requires Ticks.Run(Opening(cells, w, ps), es, t) && i < |t.chars| && j < |t.chars| && i != j
    ensures var c := t.chars[i];
            && INDENT <= c.x <= w - INDENT && INDENT <= c.y <= w - INDENT
            && 0 <= Index(w, c.x, c.y) < |t.cells|
            && t.cells[Index(w, c.x, c.y)].surface != Wall && t.cells[Index(w, c.x, c.y)].ground.Land()
            && (c.x, c.y) != (t.chars[j].x, t.chars[j].y)
  {
    var s := Opening(cells, w, ps);
    OpeningIsSound(cells, w, sites, ps);
    Ticks.RunKeeps(s, es, t);
    Ticks.BorderStays(s, t, INDENT);
    assert Ticks.Walkable(t, t.chars[i].x, t.chars[i].y);
    CellAt(t.cells, t.w, t.h, t.chars[i].x, t.chars[i].y);
  }
}
