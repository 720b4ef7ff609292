/** Board cells and proton slots: both are `{x, y}` integer pairs in the source. */
module Geometry {

  datatype Position = Pos(x: int, y: int)

  function Abs(n: int): nat
  {
    if n < 0 then -n else n
  }

  /** A cell of a square board of side `size`. */
  predicate InBounds(p: Position, size: int)
  {
    0 <= p.x < size && 0 <= p.y < size
  }

  /** Two cells that share an edge (Manhattan distance 1). */
  predicate Adjacent(p: Position, q: Position)
  {
    Abs(p.x - q.x) + Abs(p.y - q.y) == 1
  }

  /** A slot of the 3x3 local layout inside an orb. */
  predicate InSlotGrid(p: Position)
  {
    0 <= p.x <= 2 && 0 <= p.y <= 2
  }

  /** Pairwise-distinct positions. */
  predicate Distinct(s: seq<Position>)
  {
    forall i, j :: 0 <= i < j < |s| ==> s[i] != s[j]
  }
}
