/** The replies to a player's requests in plain numbers and words. */
module Replies {
  import opened Options
  import opened Grid
  import opened World
  import opened Ticks
  import opened TurnEffects
  import opened GameTick

  /** The number shown for a cell: 4 for a wall and 5 for a floor; on a bare cell 0 for soil, 1 for sand, 2
      for grass and 3 for water. */
  function Tile(c: MapPoint): int {
    match c.surface
    case Wall => 4
    case Floor => 5
    case Empty =>
      match c.ground
      case Soil => 0
      case Sand => 1
      case Grass => 2
      case Water => 3
  }

  /** The number shown for who stands there: 1 for a player, 2 for an enemy, 0 for nobody. */
  function Who(o: Occupant): int {
    match o
    case Nothing => 0
    case Player => 1
    case Enemy => 2
  }

  /** The k-th pair of the map reply shows the cell k / 9 columns from the left of the window and k % 9 rows
      down from its top, the window starting 4 cells left of and above the player. */
  lemma ReplyNumbers(body: seq<int>, cells: seq<MapPoint>, w: nat, cx: int, cy: int, k: nat)
    requires WindowEncoded(body, cells, w, cx, cy) && k < 81
    ensures |body| == 162
    ensures var x, y := cx - 4 + k / 9, cy - 4 + k % 9;
            && 0 <= y * w + x < |cells| && cells[y * w + x].x == x && cells[y * w + x].y == y
            && body[2 * k] == Tile(cells[y * w + x]) && body[2 * k + 1] == Who(cells[y * w + x].childObjectType)
  {
    assert Encoded(body, cells, w, cx, cy, k / 9, k % 9);
    assert Pair(k / 9, k % 9) == 2 * k;
  }

  /** The answer to a request: whether a direction is missing or unknown, and otherwise whether the cell it
      names is free now. */
  lemma ReplyExactly(s: World, i: nat, word: Option<string>)
    requires Inv(s) && Ready(s) && i < |s.chars| && s.chars[i].isPlayer
    ensures Enabled(s, Go(i, word)) && i < |Apply(s, Go(i, word)).chars|
    ensures var t := Apply(s, Go(i, word));
            var reply := ReplyTo(t, t.chars[i], word);
            if word.None? then reply == NoDirection
            else if AskedStep(word.value).None? then reply == UnknownDirection
            else
              var x, y := s.chars[i].x + AskedStep(word.value).value.0, s.chars[i].y + AskedStep(word.value).value.1;
              reply == if s.Free(x, y) then Accepted else CannotGo
  {
    if word.Some? {
      AskedDirection(word.value, s.chars[i].x, s.chars[i].y);
    }
  }
}
