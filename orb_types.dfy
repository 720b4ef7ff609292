/**
 * The entities of lib/OrbState.ts: positions, sides, protons, orbs, the
 * commands the engine accepts, the reaction tree it returns and the
 * exceptions it can throw, with the well-formedness the engine keeps.
 */
module OrbTypes {
  import opened Wrappers
  import opened Geometry
  import opened ProtonHelper

  /** The two players. */
  type Side = s: int | s == 1 || s == 2 witness 1

  datatype Proton = Proton(id: int, pos: Position)

  /**
   * An orb record. `handle` stands for the identity of the JavaScript
   * object: the source compares orbs with `indexOf` and `!==`, and two
   * distinct objects may carry the same `id` after a merge.
   */
  datatype Orb = Orb(handle: nat, id: int, pos: Position, count: int, side: Side,
                     protons: seq<Proton>, movementId: Option<int>)

  /** A (position, count, side) tuple handed to `initialize`. */
  datatype Placement = Placement(pos: Position, count: int, side: Side)

  datatype Command =
    | CreateCommand(pos: Position, side: Side, count: int)
    | IncrementCommand(id: int, to: int)

  /** The reaction tree: six kinds of leaf and two combinators. */
  datatype Reaction =
    | FinishGame
    | Delete(orb: Orb)
    | Create(orb: Orb)
    | Move(id: int, pos: Position)
    | CreateProton(orbId: int, protonId: int, pos: Position)
    | MoveProton(orbId: int, protonId: int, pos: Position)
    | Sequence(reactions: seq<Reaction>)
    | Parallel(reactions: seq<Reaction>)

  /** What the engine throws. */
  datatype EngineError =
    | InvalidCount(count: int)    // ProtonHelper.positions
    | OrbNotFound(id: int)        // "Orb not found: <id>"
    | CollidingOrbMissing         // "Orb not found" in mergeWhenLessThan4
    | NoOldestOrb                 // "No oldest orb"
    | UndefinedRead               // a TypeError: a property read on `undefined`
    | CascadeFuelExhausted        // the cascade loop ran out of its bound

  /** Protons with consecutive ids starting at `firstId`, one per slot. */
  function FreshProtons(firstId: int, slots: seq<Position>): (r: seq<Proton>)
    ensures |r| == |slots|
    ensures forall i :: 0 <= i < |r| ==> r[i].pos == slots[i] && firstId <= r[i].id < firstId + |slots|
    ensures forall i, j :: 0 <= i < j < |r| ==> r[i].id < r[j].id
  {
    seq(|slots|, i requires 0 <= i < |slots| => Proton(firstId + i, slots[i]))
  }

  /** The capacity invariant: 1..4 protons laid out by the slot table. */
  predicate LaidOut(o: Orb)
  {
    1 <= o.count <= 4 && |o.protons| == o.count
    && forall k :: 0 <= k < |o.protons| ==> o.protons[k].pos == Layout(o.count)[k]
  }

  /** Every id the orb carries was handed out before `bound`. */
  predicate IdsBelow(o: Orb, bound: int)
  {
    o.id < bound
    && (forall p :: p in o.protons ==> p.id < bound)
    && (o.movementId.Some? ==> o.movementId.value < bound)
  }

  predicate OrbOk(o: Orb, idBound: int, handleBound: int)
  {
    LaidOut(o) && IdsBelow(o, idBound) && o.handle < handleBound
  }

  /** No JavaScript object occurs twice in the list. */
  predicate DistinctHandles(s: seq<Orb>)
  {
    forall i, j :: 0 <= i < j < |s| ==> s[i].handle != s[j].handle
  }

  /** The engine's board invariant. */
  predicate BoardOk(s: seq<Orb>, idBound: int, handleBound: int)
  {
    (forall o :: o in s ==> OrbOk(o, idBound, handleBound)) && DistinctHandles(s)
  }

  /** Appending a list whose orbs are well formed and newer than the board keeps the invariant. */
  lemma BoardOkAppend(s: seq<Orb>, t: seq<Orb>, idBound: int, oldHandles: int, handleBound: int)
    requires BoardOk(s, idBound, oldHandles) && oldHandles <= handleBound
    requires forall o :: o in t ==> OrbOk(o, idBound, handleBound) && oldHandles <= o.handle
    requires DistinctHandles(t)
    ensures BoardOk(s + t, idBound, handleBound)
  {
    var u := s + t;
    forall i, j | 0 <= i < j < |u|
      ensures u[i].handle != u[j].handle
    {
      if j < |s| {
      } else if i >= |s| {
        assert u[i] == t[i - |s|] && u[j] == t[j - |s|];
      } else {
        assert u[i] in s && u[j] in t;
      }
    }
  }

  /** The first orb with the given id (`orbs.find(o => o.id === id)`). */
  function FindById(orbs: seq<Orb>, id: int): (r: Option<nat>)
    ensures r.None? <==> forall i :: 0 <= i < |orbs| ==> orbs[i].id != id
    ensures r.Some? ==> r.value < |orbs| && orbs[r.value].id == id
                        && forall j :: 0 <= j < r.value ==> orbs[j].id != id
  {
    if |orbs| == 0 then None
    else if orbs[0].id == id then Some(0)
    else match FindById(orbs[1..], id)
      case None => None
      case Some(k) => Some(k + 1)
  }

  /** `s.indexOf(o)`: the first position of the same object, or -1. */
  function IndexOf(s: seq<Orb>, o: Orb): (r: int)
    ensures -1 <= r < |s|
    ensures r == -1 <==> forall i :: 0 <= i < |s| ==> s[i].handle != o.handle
    ensures r >= 0 ==> s[r].handle == o.handle && forall j :: 0 <= j < r ==> s[j].handle != o.handle
  {
    if |s| == 0 then -1
    else if s[0].handle == o.handle then 0
    else var k := IndexOf(s[1..], o); if k == -1 then -1 else k + 1
  }

  lemma IndexOfDistinct(s: seq<Orb>, i: nat)
    requires DistinctHandles(s) && i < |s|
    ensures IndexOf(s, s[i]) == i
  {
  }

  /** `s.splice(start, 1)`: a start past the end removes nothing. */
  function SpliceDelete(s: seq<Orb>, start: nat): (r: seq<Orb>)
    ensures |r| == if start < |s| then |s| - 1 else |s|
    ensures forall x :: x in r ==> x in s
    ensures start < |s| ==> r == s[..start] + s[start + 1..]
    ensures start >= |s| ==> r == s
  {
    if start < |s| then s[..start] + s[start + 1..] else s
  }

  /** `s.splice(start, 1, item)`: a start past the end appends `item`. */
  function SpliceReplace(s: seq<Orb>, start: nat, item: Orb): (r: seq<Orb>)
    ensures |r| == if start < |s| then |s| else |s| + 1
    ensures item in r && forall x :: x in r ==> x in s || x == item
    ensures start < |s| ==> r[start] == item && r[..start] == s[..start] && r[start + 1..] == s[start + 1..]
    ensures start >= |s| ==> r == s + [item]
  {
    if start < |s| then s[..start] + [item] + s[start + 1..] else s + [item]
  }

  lemma DistinctAfterDelete(s: seq<Orb>, start: nat)
    ensures DistinctHandles(s) ==> DistinctHandles(SpliceDelete(s, start))
  {
    if start < |s| && DistinctHandles(s) {
      var r := SpliceDelete(s, start);
      forall i, j | 0 <= i < j < |r|
        ensures r[i].handle != r[j].handle
      {
        var i' := if i < start then i else i + 1;
        var j' := if j < start then j else j + 1;
        assert r[i] == s[i'] && r[j] == s[j'];
      }
    }
  }

  lemma BoardOkAfterDelete(s: seq<Orb>, start: nat, idBound: int, handleBound: int)
    requires BoardOk(s, idBound, handleBound)
    ensures BoardOk(SpliceDelete(s, start), idBound, handleBound)
  {
    DistinctAfterDelete(s, start);
  }

  lemma DistinctAfterReplace(s: seq<Orb>, start: nat, item: Orb)
    requires DistinctHandles(s)
    requires forall x :: x in s ==> x.handle != item.handle
    ensures DistinctHandles(SpliceReplace(s, start, item))
  {
    var r := SpliceReplace(s, start, item);
    forall i, j | 0 <= i < j < |r|
      ensures r[i].handle != r[j].handle
    {
      if start < |s| {
        if i != start && j != start {
          assert r[i] == s[i] && r[j] == s[j];
        } else if i == start {
          assert r[j] in s;
        } else {
          assert r[i] in s;
        }
      } else {
        if j == |s| {
          assert r[i] in s;
        } else {
          assert r[i] == s[i] && r[j] == s[j];
        }
      }
    }
  }
  lemma BoardOkAfterReplace(s: seq<Orb>, start: nat, item: Orb, idBound: int, handleBound: int)
    requires BoardOk(s, idBound, handleBound) && OrbOk(item, idBound, handleBound)
    requires forall x :: x in s ==> x.handle != item.handle
    ensures BoardOk(SpliceReplace(s, start, item), idBound, handleBound)
  {
    DistinctAfterReplace(s, start, item);
  }


  /** The sides present among the orbs. */
  function Sides(orbs: seq<Orb>): set<Side>
  {
    set o | o in orbs :: o.side
  }

  /** One side among the orbs exactly when every orb has the first orb's side. */
  lemma OneSide(orbs: seq<Orb>)
    requires |orbs| > 0
    ensures |Sides(orbs)| == 1 <==> forall o :: o in orbs ==> o.side == orbs[0].side
  {
    var x := orbs[0].side;
    assert x in Sides(orbs);
    if |Sides(orbs)| == 1 {
      var rest := Sides(orbs) - {x};
      assert |rest| == 0;
      forall o | o in orbs
        ensures o.side == x
      {
        assert o.side in Sides(orbs);
        assert o.side !in rest;
      }
    }
    if forall o :: o in orbs ==> o.side == x {
      assert Sides(orbs) == {x};
    }
  }

  /**
   * `isGameFinished`: exactly one side left on the board. An empty board
   * is not finished.
   */
  function IsGameFinished(orbs: seq<Orb>): (b: bool)
    ensures b <==> |orbs| > 0 && forall o :: o in orbs ==> o.side == orbs[0].side
  {
    if |orbs| > 0 then
      OneSide(orbs);
      |Sides(orbs)| == 1
    else
      assert Sides(orbs) == {};
      |Sides(orbs)| == 1
  }

  /** One delete reaction per orb, in order. */
  function Deletes(orbs: seq<Orb>): (r: seq<Reaction>)
    ensures |r| == |orbs| && forall i :: 0 <= i < |r| ==> r[i] == Delete(orbs[i])
  {
    seq(|orbs|, i requires 0 <= i < |orbs| => Delete(orbs[i]))
  }

  /** `sum(count)` over a group (`map(count).reduce(+, 0)`). */
  function Total(orbs: seq<Orb>): int
  {
    if |orbs| == 0 then 0 else Total(orbs[..|orbs| - 1]) + orbs[|orbs| - 1].count
  }

  lemma {:induction false} TotalAtLeast(orbs: seq<Orb>)
    requires forall o :: o in orbs ==> o.count >= 1
    ensures Total(orbs) >= |orbs|
  {
    if |orbs| > 0 {
      assert forall o :: o in orbs[..|orbs| - 1] ==> o in orbs;
      TotalAtLeast(orbs[..|orbs| - 1]);
    }
  }
}
