/**
 * The pure helpers of components/Balls.tsx that mirror the engine: the
 * slot table for the balls drawn inside a cell, the neighbour list, and
 * the list `incrementBallCount` returns when a cell gains a ball. The
 * animations it starts are left out; a ball that is kept records the slot
 * it is animated to, a new ball the slot it is created for.
 */
module Balls {
  import opened Wrappers
  import opened Geometry
  import ProtonHelper
  import CellHelper

  /** What the component throws. */
  datatype BallError =
    | InvalidCount(count: int)   // "Invalid count: <count>"
    | UndefinedRead              // a TypeError: animating `balls[i]` past the end

  /** One entry of the list `incrementBallCount` returns. */
  datatype BallSlot<B> =
    | Kept(ball: B, moveTo: Position)   // an existing ball, animated to a new slot
    | Created(at: Position)             // a fresh ball, animated to its slot

  /** `cellBallBallPositions`: `None` stands for the "Invalid count" exception. */
  function CellBallBallPositions(count: int): (r: Option<seq<Position>>)
    ensures r.Some? <==> 1 <= count <= 4
  {
    if count == 1 then Some([Pos(1, 1)])
    else if count == 2 then Some([Pos(1, 0), Pos(1, 2)])
    else if count == 3 then Some([Pos(0, 1), Pos(2, 0), Pos(2, 2)])
    else if count == 4 then Some([Pos(0, 0), Pos(0, 2), Pos(2, 0), Pos(2, 2)])
    else None
  }

  /**
   * The component's table is the engine's: the same slots in the same
   * order, so the count distinct in-grid slots for 1..4 carry over.
   */
  lemma SameSlotsAsEngine(count: int)
    ensures CellBallBallPositions(count) == ProtonHelper.Positions(count)
    ensures CellBallBallPositions(count).Some? ==>
      |CellBallBallPositions(count).value| == count && Distinct(CellBallBallPositions(count).value)
      && forall i :: 0 <= i < count ==> InSlotGrid(CellBallBallPositions(count).value[i])
  {
  }

  /** `getNeighbors`: push each in-bounds neighbour onto a fresh list. */
  method GetNeighbors(pos: Position, boardSize: int) returns (neighbors: seq<Position>)
    ensures neighbors == CellHelper.GetNeighbors(pos, boardSize)
  {
    neighbors := [];
    if pos.x > 0 {
      neighbors := neighbors + [Pos(pos.x - 1, pos.y)];
    }
    if pos.x < boardSize - 1 {
      neighbors := neighbors + [Pos(pos.x + 1, pos.y)];
    }
    if pos.y > 0 {
      neighbors := neighbors + [Pos(pos.x, pos.y - 1)];
    }
    if pos.y < boardSize - 1 {
      neighbors := neighbors + [Pos(pos.x, pos.y + 1)];
    }
  }

  /**
   * `incrementBallCount`: for `to` in 2..4, the first `to - 1` balls move
   * to the first slots of the layout for `to` and one new ball takes the
   * last slot. Any other `to` throws; too few balls make the animation read
   * a missing ball.
   */
  function IncrementBallCount<B>(balls: seq<B>, to: int): (r: Result<seq<BallSlot<B>>, BallError>)
    ensures !(2 <= to <= 4) ==> r == Err(InvalidCount(to))
    ensures 2 <= to <= 4 && |balls| < to - 1 ==> r == Err(UndefinedRead)
    ensures r.Ok? <==> 2 <= to <= 4 && |balls| >= to - 1
  {
    if to == 2 then
      var positions := CellBallBallPositions(2).value;
      if |balls| < 1 then Err(UndefinedRead)
      else Ok([Kept(balls[0], positions[0]), Created(positions[1])])
    else if to == 3 then
      var positions := CellBallBallPositions(3).value;
      if |balls| < 2 then Err(UndefinedRead)
      else Ok([Kept(balls[0], positions[0]), Kept(balls[1], positions[1]), Created(positions[2])])
    else if to == 4 then
      var positions := CellBallBallPositions(4).value;
      if |balls| < 3 then Err(UndefinedRead)
      else Ok([Kept(balls[0], positions[0]), Kept(balls[1], positions[1]), Kept(balls[2], positions[2]),
               Created(positions[3])])
    else Err(InvalidCount(to))
  }

  /**
   * A successful increment returns `to` entries: the first `to - 1` input
   * balls in order, each sent to its slot of the layout for `to`, then one
   * new ball in the last slot; extra input balls are dropped.
   */
  lemma IncrementShape<B>(balls: seq<B>, to: int)
    requires IncrementBallCount(balls, to).Ok?
    ensures var slots := ProtonHelper.Layout(to);
      var r := IncrementBallCount(balls, to).value;
      |r| == to
      && (forall i :: 0 <= i < to - 1 ==> r[i] == Kept(balls[i], slots[i]))
      && r[to - 1] == Created(slots[to - 1])
  {
    SameSlotsAsEngine(to);
  }
}
