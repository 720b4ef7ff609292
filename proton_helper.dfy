/**
 * `ProtonHelper` of lib/OrbState.ts: the fixed table that lays out the
 * protons of an orb on the 3x3 local grid, one layout per proton count.
 */
module ProtonHelper {
  import opened Wrappers
  import opened Geometry

  /** The slot where every proton is born (`ProtonHelper.center`). */
  const Center: Position := Pos(1, 1)

  /**
   * The slots for `count` protons, in order; `None` stands for the
   * "Invalid count" exception thrown for any count outside 1..4.
   */
  function Positions(count: int): (r: Option<seq<Position>>)
    ensures r.Some? <==> 1 <= count <= 4
    ensures r.Some? ==> |r.value| == count
    ensures r.Some? ==> Distinct(r.value)
    ensures r.Some? ==> forall i :: 0 <= i < |r.value| ==> InSlotGrid(r.value[i])
    ensures count == 1 ==> r == Some([Center])
  {
    if count == 1 then Some([Pos(1, 1)])
    else if count == 2 then Some([Pos(1, 0), Pos(1, 2)])
    else if count == 3 then Some([Pos(0, 1), Pos(2, 0), Pos(2, 2)])
    else if count == 4 then Some([Pos(0, 0), Pos(0, 2), Pos(2, 0), Pos(2, 2)])
    else None
  }

  /** The layout of a valid count, without the failure wrapper. */
  function Layout(count: int): (r: seq<Position>)
    requires 1 <= count <= 4
    ensures Some(r) == Positions(count)
  {
    Positions(count).value
  }
}
