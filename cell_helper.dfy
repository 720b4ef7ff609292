/** `CellHelper.getNeighbors` of lib/OrbState.ts: the cells a detonation seeds. */
module CellHelper {
  import opened Geometry

  /**
   * The in-bounds orthogonal neighbours of `pos`, pushed in the order
   * x-1, x+1, y-1, y+1 when each test passes.
   */
  function GetNeighbors(pos: Position, boardSize: int): (r: seq<Position>)
    ensures |r| <= 4
    ensures forall q :: q in r ==> Adjacent(pos, q)
    ensures InBounds(pos, boardSize) ==> forall q :: q in r ==> InBounds(q, boardSize)
  {
    (if pos.x > 0 then [Pos(pos.x - 1, pos.y)] else [])
    + (if pos.x < boardSize - 1 then [Pos(pos.x + 1, pos.y)] else [])
    + (if pos.y > 0 then [Pos(pos.x, pos.y - 1)] else [])
    + (if pos.y < boardSize - 1 then [Pos(pos.x, pos.y + 1)] else [])
  }

  /** Which of the four directions, in push order, leads from `p` to `q`. */
  function Direction(p: Position, q: Position): nat
  {
    if q.x < p.x then 0 else if q.x > p.x then 1 else if q.y < p.y then 2 else 3
  }

  /** The number of board edges `pos` does not touch, one per direction. */
  function OpenSides(pos: Position, boardSize: int): nat
  {
    (if pos.x > 0 then 1 else 0) + (if pos.x < boardSize - 1 then 1 else 0)
    + (if pos.y > 0 then 1 else 0) + (if pos.y < boardSize - 1 then 1 else 0)
  }

  /**
   * For an in-bounds cell the result is exactly the set of in-bounds
   * cells at Manhattan distance 1, without repetition, ordered by
   * direction x-1, x+1, y-1, y+1, one per open side.
   */
  lemma NeighborsExact(pos: Position, boardSize: int)
    requires InBounds(pos, boardSize)
    ensures forall q :: q in GetNeighbors(pos, boardSize) <==> InBounds(q, boardSize) && Adjacent(pos, q)
    ensures |GetNeighbors(pos, boardSize)| == OpenSides(pos, boardSize)
    ensures var r := GetNeighbors(pos, boardSize);
      forall i, j :: 0 <= i < j < |r| ==> Direction(pos, r[i]) < Direction(pos, r[j])
  {
    var r := GetNeighbors(pos, boardSize);
    forall q | InBounds(q, boardSize) && Adjacent(pos, q)
      ensures q in r
    {
      if q.x < pos.x {
        assert q == Pos(pos.x - 1, pos.y);
      } else if q.x > pos.x {
        assert q == Pos(pos.x + 1, pos.y);
      } else if q.y < pos.y {
        assert q == Pos(pos.x, pos.y - 1);
      } else {
        assert q == Pos(pos.x, pos.y + 1);
      }
    }
  }

  /** Four neighbours inside, three on an edge, two in a corner. */
  lemma NeighborCounts(pos: Position, boardSize: int)
    requires InBounds(pos, boardSize) && boardSize >= 2
    ensures var onEdgeX := pos.x == 0 || pos.x == boardSize - 1;
      var onEdgeY := pos.y == 0 || pos.y == boardSize - 1;
      |GetNeighbors(pos, boardSize)| == if onEdgeX && onEdgeY then 2 else if onEdgeX || onEdgeY then 3 else 4
  {
    NeighborsExact(pos, boardSize);
  }
}
