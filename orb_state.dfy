/**
 * `OrbsState` of lib/OrbState.ts: the command processor that owns the
 * list of orbs, mutates it in place and returns the reaction tree that
 * replays what happened.
 */
module OrbEngine {
  import opened Wrappers
  import opened Geometry
  import opened ProtonHelper
  import opened CellHelper
  import opened OrbTypes
  import opened OrbCollisions

  // ------------------------------------------------- orbs built by the engine

  /** The orb `createOrb` builds: the orb id first, then one proton id per slot. */
  function NewOrb(pos: Position, side: Side, count: int, id: int, handle: nat): (r: Orb)
    requires 1 <= count <= 4
    ensures LaidOut(r) && r.movementId.None?
    ensures r.pos == pos && r.side == side && r.count == count && r.id == id && r.handle == handle
    ensures forall p :: p in r.protons ==> id < p.id <= id + count
  {
    Orb(handle, id, pos, count, side, FreshProtons(id + 1, Layout(count)), None)
  }

  /**
   * The orb `splitFromPos` builds on one neighbour cell: count 1, the
   * orb id, then its one proton's id at the centre, then its movement id.
   */
  function SplitOrb(pos: Position, side: Side, id: int, handle: nat): (r: Orb)
    ensures LaidOut(r) && r.count == 1 && r.pos == pos && r.side == side && r.handle == handle
    ensures r.id == id && r.protons == [Proton(id + 1, Center)] && r.movementId == Some(id + 2)
  {
    Orb(handle, id, pos, 1, side, FreshProtons(id + 1, Layout(1)), Some(id + 2))
  }

  /** The orbs of one detonation, three ids and one object each, in neighbour order. */
  function SplitOrbs(cells: seq<Position>, side: Side, firstId: int, firstHandle: nat): (r: seq<Orb>)
    ensures |r| == |cells|
  {
    seq(|cells|, k requires 0 <= k < |cells| => SplitOrb(cells[k], side, firstId + 3 * k, firstHandle + k))
  }

  lemma SplitOrbsSnoc(cells: seq<Position>, k: nat, side: Side, firstId: int, firstHandle: nat)
    requires k < |cells|
    ensures SplitOrbs(cells[..k + 1], side, firstId, firstHandle)
         == SplitOrbs(cells[..k], side, firstId, firstHandle) + [SplitOrb(cells[k], side, firstId + 3 * k, firstHandle + k)]
  {
  }

  lemma SplitOrbsFresh(cells: seq<Position>, side: Side, firstId: int, firstHandle: nat)
    ensures var r := SplitOrbs(cells, side, firstId, firstHandle);
      && DistinctHandles(r)
      && forall o :: o in r ==> OrbOk(o, firstId + 3 * |cells|, firstHandle + |cells|)
                                && firstHandle <= o.handle && firstId <= o.id
  {
  }

  /** Appending a detonation's orbs keeps a board well formed under the advanced counters. */
  lemma SplitKeepsBoard(s: seq<Orb>, cells: seq<Position>, side: Side, ids: nat, handles: nat)
    requires BoardOk(s, ids, handles)
    ensures BoardOk(s + SplitOrbs(cells, side, ids, handles), ids + 3 * |cells|, handles + |cells|)
  {
    var bound := ids + 3 * |cells|;
    forall o | o in s
      ensures OrbOk(o, bound, handles)
    {
      assert OrbOk(o, ids, handles);
    }
    SplitOrbsFresh(cells, side, ids, handles);
    BoardOkAppend(s, SplitOrbs(cells, side, ids, handles), bound, handles, handles + |cells|);
  }

  /**
   * The orb `mergeWhenLessThan4` builds: the survivor's id, cell and
   * side, the group total as count, then a new movement id and new
   * protons laid out for that total.
   */
  function MergedOrb(survivor: Orb, count: int, firstId: int, handle: nat): (r: Orb)
    requires 1 <= count <= 4
    ensures LaidOut(r) && r.count == count && r.handle == handle
    ensures r.id == survivor.id && r.pos == survivor.pos && r.side == survivor.side
    ensures r.movementId == Some(firstId) && forall p :: p in r.protons ==> firstId < p.id <= firstId + count
  {
    Orb(handle, survivor.id, survivor.pos, count, survivor.side, FreshProtons(firstId + 1, Layout(count)), Some(firstId))
  }

  // ------------------------------------------------------ reaction builders

  /** `createOrb`'s tree: the orb, then its protons born at the centre, then moved to their slots. */
  function CreateReaction(o: Orb): Reaction
  {
    Sequence([
      Create(o),
      Parallel(seq(|o.protons|, i requires 0 <= i < |o.protons| => CreateProton(o.id, o.protons[i].id, Center))),
      Parallel(seq(|o.protons|, i requires 0 <= i < |o.protons| => MoveProton(o.id, o.protons[i].id, o.protons[i].pos)))
    ])
  }

  /** One createProton per proton of every orb, orb by orb (`map(...).flat()`). */
  function ProtonCreations(orbs: seq<Orb>): seq<Reaction>
  {
    if |orbs| == 0 then []
    else
      var last := orbs[|orbs| - 1];
      ProtonCreations(orbs[..|orbs| - 1])
      + seq(|last.protons|, i requires 0 <= i < |last.protons| => CreateProton(last.id, last.protons[i].id, last.protons[i].pos))
  }

  /**
   * `splitFromPos`'s tree: every new orb created on the detonating cell,
   * then every proton created, then every orb moved to its own cell.
   */
  function SplitReaction(origin: Position, spawned: seq<Orb>): Reaction
  {
    Sequence(
      seq(|spawned|, k requires 0 <= k < |spawned| => Create(spawned[k].(pos := origin)))
      + ProtonCreations(spawned)
      + seq(|spawned|, k requires 0 <= k < |spawned| => Move(spawned[k].id, spawned[k].pos)))
  }

  /** The merged orb's protons: moved when the survivor had that many, created otherwise. */
  function MergeProtonReactions(o: Orb, kept: nat): (r: seq<Reaction>)
    ensures |r| == |o.protons|
    ensures forall i :: 0 <= i < |r| ==>
      r[i] == (if i < kept then MoveProton(o.id, o.protons[i].id, o.protons[i].pos)
               else CreateProton(o.id, o.protons[i].id, o.protons[i].pos))
  {
    seq(|o.protons|, i requires 0 <= i < |o.protons| =>
      if i < kept then MoveProton(o.id, o.protons[i].id, o.protons[i].pos)
      else CreateProton(o.id, o.protons[i].id, o.protons[i].pos))
  }

  // --------------------------------------------------- read-only operations

  /** `deleteOrb`: a single delete reaction for the first orb with that id; nothing is removed. */
  function DeleteOrb(orbs: seq<Orb>, id: int): (r: Result<seq<Reaction>, EngineError>)
    ensures r.Err? <==> forall i :: 0 <= i < |orbs| ==> orbs[i].id != id
    ensures r.Err? ==> r.error == OrbNotFound(id)
    ensures r.Ok? ==> exists k :: 0 <= k < |orbs| && orbs[k].id == id && r.value == [Delete(orbs[k])]
                                  && forall j :: 0 <= j < k ==> orbs[j].id != id
  {
    match FindById(orbs, id)
    case None => Err(OrbNotFound(id))
    case Some(k) => Ok([Delete(orbs[k])])
  }

  /**
   * `simpleIncrementOrb`: one parallel group moving the orb's existing
   * protons, by index, to the slots for `to`. Nothing changes. A `to`
   * outside 1..4 throws; so does a `to` above the orb's proton count,
   * since `orb.protons[idx]` is then undefined.
   */
  function SimpleIncrementOrb(orbs: seq<Orb>, id: int, to: int): (r: Result<seq<Reaction>, EngineError>)
    ensures Positions(to).None? ==> r == Err(InvalidCount(to))
    ensures Positions(to).Some? && FindById(orbs, id).None? ==> r == Err(OrbNotFound(id))
    ensures Positions(to).Some? && FindById(orbs, id).Some? ==>
      var o := orbs[FindById(orbs, id).value];
      && (r.Err? <==> to > |o.protons|)
      && (r.Err? ==> r.error == UndefinedRead)
      && (r.Ok? ==>
            && |r.value| == 1 && r.value[0].Parallel? && |r.value[0].reactions| == to
            && forall i :: 0 <= i < to ==> r.value[0].reactions[i] == MoveProton(o.id, o.protons[i].id, Layout(to)[i]))
  {
    match Positions(to)
    case None => Err(InvalidCount(to))
    case Some(slots) =>
      match FindById(orbs, id)
      case None => Err(OrbNotFound(id))
      case Some(k) =>
        var o := orbs[k];
        if |slots| > |o.protons| then Err(UndefinedRead)
        else Ok([Parallel(seq(|slots|, i requires 0 <= i < |slots| => MoveProton(o.id, o.protons[i].id, slots[i])))])
  }

  /**
   * The runner asks for `to = protons.length + 1`; on a well-formed orb
   * below the threshold that request always throws, because the orb has
   * one proton fewer than the new layout reads.
   */
  lemma IncrementToNextCountThrows(orbs: seq<Orb>, id: int)
    requires FindById(orbs, id).Some?
    requires var o := orbs[FindById(orbs, id).value]; LaidOut(o) && o.count < 4
    ensures SimpleIncrementOrb(orbs, id, |orbs[FindById(orbs, id).value].protons| + 1) == Err(UndefinedRead)
  {
  }

  /** One round of the cascade loop: a non-empty parallel group, or the final finishGame. */
  predicate CascadeRounds(rounds: seq<Reaction>)
  {
    forall i :: 0 <= i < |rounds| ==>
      (rounds[i].Parallel? && |rounds[i].reactions| > 0) || (rounds[i] == FinishGame && i == |rounds| - 1)
  }

  /** How the cascade loop ends: finished with a finishGame, or unfinished with no cell shared. */
  predicate Settled(orbs: seq<Orb>, reactions: seq<Reaction>)
  {
    if |reactions| > 0 && reactions[|reactions| - 1] == FinishGame then IsGameFinished(orbs)
    else !IsGameFinished(orbs) && NoCollision(orbs)
  }

  /** The dead-orb loop's result with the orbs already recorded as dead in front. */
  function WithDead(dead: seq<Orb>, rest: DeadLoop): DeadLoop
  {
    DeadLoop(rest.found, rest.live, dead + rest.dead)
  }

  lemma WithNoDead(rest: DeadLoop)
    ensures WithDead([], rest) == rest
  {
    assert [] + rest.dead == rest.dead;
  }

  /** One removal of the dead-orb loop moves a group orb from the list to the dead. */
  lemma RemoveDeadStep(live: seq<Orb>, g: seq<Orb>, keep: nat, dead: seq<Orb>)
    requires |g| > 0 && IndexOf(live, g[0]) >= 0 && IndexOf(live, g[0]) != keep
    ensures WithDead(dead, RemoveDead(live, g, keep))
         == WithDead(dead + [g[0]], RemoveDead(SpliceDelete(live, IndexOf(live, g[0]) as nat), g[1..], keep))
  {
    var rest := RemoveDead(SpliceDelete(live, IndexOf(live, g[0]) as nat), g[1..], keep);
    assert dead + ([g[0]] + rest.dead) == (dead + [g[0]]) + rest.dead;
  }

  /**
   * What `mergeWhenMoreThan4` does to a non-empty group: a split from the
   * group's cell with the oldest orb's side, the splices at each orb's
   * index within the group, and one parallel group of the deletes and the
   * split. `before`, `ids` and `handles` are the state it starts from.
   */
  predicate Detonated(group: seq<Orb>, boardSize: int, before: seq<Orb>, ids: nat, handles: nat,
                      r: Result<seq<Reaction>, EngineError>, after: seq<Orb>, idsAfter: nat, handlesAfter: nat)
  {
    && |group| > 0
    && var spawned := SplitOrbs(GetNeighbors(group[0].pos, boardSize), group[Oldest(group).value].side, ids, handles);
       && after == DropFront(before + spawned, |group|)
       && idsAfter == ids + 3 * |spawned| && handlesAfter == handles + |spawned|
       && r == Ok([Parallel(Deletes(group) + [SplitReaction(group[0].pos, spawned)])])
  }

  /**
   * What `mergeWhenLessThan4` does once it has a survivor and a valid
   * count: the merged orb takes `count` ids after its movement id; the
   * dead-orb loop runs; if it stops at a missing orb the throw leaves the
   * list where the loop stopped, otherwise the merged orb is spliced in at
   * the oldest orb's index within the group.
   */
  predicate Merged(group: seq<Orb>, count: int, before: seq<Orb>, ids: nat, handles: nat,
                   r: Result<seq<Reaction>, EngineError>, after: seq<Orb>, idsAfter: nat, handlesAfter: nat)
  {
    && KillerOf(group).Some? && Positions(count).Some?
    && var killer := KillerOf(group).value;
       var merged := MergedOrb(killer.orb, count, ids, handles);
       var res := RemoveDead(before, group, killer.idx);
       && idsAfter == ids + 1 + count && handlesAfter == handles + 1
       && if res.found then
            && after == SpliceReplace(res.live, IndexOf(group, group[Oldest(group).value]) as nat, merged)
            && r == Ok([Parallel(Deletes(res.dead) + MergeProtonReactions(merged, |killer.orb.protons|))])
          else
            after == res.live && r == Err(CollidingOrbMissing)
  }

  /**
   * A completed merge conserves the cell's total: the list then holds an
   * orb with the survivor's id and side whose count is the group's total.
   */
  lemma MergeKeepsTotal(group: seq<Orb>, before: seq<Orb>, ids: nat, handles: nat,
                        r: Result<seq<Reaction>, EngineError>, after: seq<Orb>, idsAfter: nat, handlesAfter: nat)
    requires Merged(group, Total(group), before, ids, handles, r, after, idsAfter, handlesAfter) && r.Ok?
    ensures exists o :: (o in after && o.count == Total(group)
                         && o.id == KillerOf(group).value.orb.id && o.side == KillerOf(group).value.orb.side)
  {
    var killer := KillerOf(group).value;
    var merged := MergedOrb(killer.orb, Total(group), ids, handles);
    assert merged in after;
  }

  /**
   * What `incrementOrb` does: an unknown id throws with nothing changed;
   * below count 4 the simple increment, with nothing changed; at 4 or more
   * a delete of the orb (which stays in the list), the split with the
   * orb's side, then the cascade rounds, ending settled; with no merge
   * round the list is the old one plus the spawned orbs. The throws on
   * that path are a missing colliding orb or running out of the `fuel`
   * rounds; with no fuel, a board one side owns or a board with no shared
   * cell right after the split, the outcome is fixed. The counters never
   * fall below what the split consumed.
   */
  predicate Incremented(id: int, to: int, fuel: nat, boardSize: int, before: seq<Orb>, ids: nat, handles: nat,
                        r: Result<seq<Reaction>, EngineError>, after: seq<Orb>, idsAfter: nat, handlesAfter: nat)
  {
    match FindById(before, id)
    case None => r == Err(OrbNotFound(id)) && after == before && idsAfter == ids && handlesAfter == handles
    case Some(k) =>
      if before[k].count < 4 then
        r == SimpleIncrementOrb(before, id, to) && after == before && idsAfter == ids && handlesAfter == handles
      else
        var orb := before[k];
        var spawned := SplitOrbs(GetNeighbors(orb.pos, boardSize), orb.side, ids, handles);
        var split := before + spawned;
        var opening := [Delete(orb), SplitReaction(orb.pos, spawned)];
        && idsAfter >= ids + 3 * |spawned| && handlesAfter >= handles + |spawned|
        && (fuel == 0 ==> r == Err(CascadeFuelExhausted) && after == split)
        && (fuel > 0 && IsGameFinished(split) ==> r == Ok(opening + [FinishGame]) && after == split)
        && (fuel > 0 && !IsGameFinished(split) && NoCollision(split) ==> r == Ok(opening) && after == split)
        && (r.Err? ==> r.error == CollidingOrbMissing || r.error == CascadeFuelExhausted)
        && (r.Ok? ==>
              && |r.value| >= 2 && r.value[0] == Delete(orb) && r.value[1] == SplitReaction(orb.pos, spawned)
              && CascadeRounds(r.value[2..])
              && Settled(after, r.value[2..])
              && ((forall i :: 2 <= i < |r.value| ==> r.value[i] == FinishGame) ==> after == before + spawned))
  }

  /** A cell group of a well-formed board is what resolving one cell needs. */
  lemma CellReady(board: seq<Orb>, ids: nat, handles: nat, k: nat, idsNow: nat)
    requires BoardOk(board, ids, handles) && k < |CellGroups(board)| && ids <= idsNow
    ensures DistinctHandles(CellGroups(board)[k])
    ensures forall x :: x in CellGroups(board)[k] ==> x.id < idsNow && x.count >= 1
  {
    GroupFacts(board, k);
  }

  /** The ids `createOrb` consumes for the first `n` placements: one for each orb and one per proton. */
  function IdsUsed(init: seq<Placement>, n: nat): int
    requires n <= |init|
  {
    if n == 0 then 0 else IdsUsed(init, n - 1) + 1 + init[n - 1].count
  }

  /**
   * `created` holds one `NewOrb` for each of the first `n` placements, in
   * order, each taking its ids right after the previous placement's and
   * the next handle.
   */
  predicate Placed(init: seq<Placement>, n: nat, ids: nat, handles: nat, created: seq<Orb>)
    requires n <= |init|
  {
    if n == 0 then created == []
    else
      && |created| == n && 1 <= init[n - 1].count <= 4
      && Placed(init, n - 1, ids, handles, created[..n - 1])
      && created[n - 1] == NewOrb(init[n - 1].pos, init[n - 1].side, init[n - 1].count, ids + IdsUsed(init, n - 1), handles + n - 1)
  }

  /**
   * `initialize` after its first `i` placements: they are all valid, their
   * orbs were created, the counters moved by what they consumed, and there
   * is one create reaction per new orb.
   */
  predicate InitProgress(init: seq<Placement>, i: nat, ids: nat, handles: nat, created: seq<Orb>,
                         idsAfter: int, handlesAfter: int, reactions: seq<Reaction>)
  {
    && i <= |init| && |created| == i
    && Placed(init, i, ids, handles, created)
    && (forall j :: 0 <= j < i ==> 1 <= init[j].count <= 4)
    && idsAfter == ids + IdsUsed(init, i) && handlesAfter == handles + i
    && |reactions| == i
    && forall j :: 0 <= j < i ==> reactions[j] == CreateReaction(created[j])
  }

  /** Creating the next placement's orb extends `Placed` by one. */
  lemma {:induction false} PlacedSnoc(init: seq<Placement>, i: nat, ids: nat, handles: nat, created: seq<Orb>, o: Orb)
    requires i < |init| && 1 <= init[i].count <= 4 && |created| == i
    requires Placed(init, i, ids, handles, created)
    requires o == NewOrb(init[i].pos, init[i].side, init[i].count, ids + IdsUsed(init, i), handles + i)
    ensures Placed(init, i + 1, ids, handles, created + [o])
  {
    var grown := created + [o];
    assert grown[..i] == created;
  }

  /** Creating the next placement's orb extends the progress by one. */
  lemma {:induction false} InitStep(init: seq<Placement>, i: nat, ids: nat, handles: nat, created: seq<Orb>,
                 reactions: seq<Reaction>, o: Orb)
    requires i < |init| && 1 <= init[i].count <= 4
    requires InitProgress(init, i, ids, handles, created, ids + IdsUsed(init, i), handles + i, reactions)
    requires o == NewOrb(init[i].pos, init[i].side, init[i].count, ids + IdsUsed(init, i), handles + i)
    ensures InitProgress(init, i + 1, ids, handles, created + [o],
                         ids + IdsUsed(init, i) + 1 + init[i].count, handles + i + 1, reactions + [CreateReaction(o)])
  {
    PlacedSnoc(init, i, ids, handles, created, o);
  }

  /**
   * What `Placed` means orb by orb: one orb per placement, and the j-th
   * is the j-th placement's `NewOrb`, with a valid count, the ids after
   * those of the placements before it and the j-th handle after `handles`.
   */
  lemma {:induction false} PlacedOrbs(init: seq<Placement>, n: nat, ids: nat, handles: nat, created: seq<Orb>, j: nat)
    requires n <= |init| && Placed(init, n, ids, handles, created) && j < n
    ensures |created| == n && 1 <= init[j].count <= 4
    ensures created[j] == NewOrb(init[j].pos, init[j].side, init[j].count, ids + IdsUsed(init, j), handles + j)
    decreases n
  {
    if j < n - 1 {
      var shorter := created[..n - 1];
      PlacedOrbs(init, n - 1, ids, handles, shorter, j);
      assert shorter[j] == created[j];
    }
  }

  // ------------------------------------------------------------ the engine

  class OrbsState {
    /** The orbs, in insertion order. */
    var orbs: seq<Orb>
    /** `IdGenerator.id`: the next id the process-wide counter hands out. */
    var nextId: nat
    /** The next unused object: stands for JavaScript object allocation. */
    var nextHandle: nat
    const boardSize: int

    /** Every orb laid out by the table, every id already handed out, no object twice. */
    ghost predicate Valid()
      reads this
    {
      BoardOk(orbs, nextId, nextHandle)
    }

    /** A new engine; `idCounter` is wherever the shared counter stands. */
    constructor (boardSize: int, idCounter: nat)
      ensures Valid() && orbs == [] && nextId == idCounter && this.boardSize == boardSize
    {
      this.boardSize := boardSize;
      orbs := [];
      nextId := idCounter;
      nextHandle := 0;
    }

    /** `IdGenerator.newId`: returns the counter, then bumps it. */
    method NewId() returns (id: nat)
      requires Valid()
      modifies this
      ensures Valid() && id == old(nextId) && nextId == old(nextId) + 1
      ensures orbs == old(orbs) && nextHandle == old(nextHandle)
    {
      id := nextId;
      nextId := nextId + 1;
    }

    /** `positions.map(pos => ({ id: IdGenerator.newId(), pos }))`. */
    method NewProtons(slots: seq<Position>) returns (ps: seq<Proton>)
      requires Valid()
      modifies this
      ensures Valid() && ps == FreshProtons(old(nextId), slots) && nextId == old(nextId) + |slots|
      ensures orbs == old(orbs) && nextHandle == old(nextHandle)
    {
      ps := [];
      for i := 0 to |slots|
        invariant Valid() && orbs == old(orbs) && nextHandle == old(nextHandle)
        invariant nextId == old(nextId) + i
        invariant |ps| == i && forall k :: 0 <= k < i ==> ps[k] == Proton(old(nextId) + k, slots[k])
      {
        var id := NewId();
        ps := ps + [Proton(id, slots[i])];
      }
      assert ps == FreshProtons(old(nextId), slots);
    }

    /**
     * `createOrb`: appends one orb with the command's cell, side and
     * count, whatever already stands on that cell. Its ids come fresh
     * from the counter.
     */
    method CreateOrb(pos: Position, side: Side, count: int) returns (r: Result<seq<Reaction>, EngineError>)
      requires Valid()
      modifies this
      ensures Valid()
      ensures Positions(count).None? ==>
        r == Err(InvalidCount(count)) && orbs == old(orbs) && nextId == old(nextId) && nextHandle == old(nextHandle)
      ensures Positions(count).Some? ==>
        var o := NewOrb(pos, side, count, old(nextId), old(nextHandle));
        && orbs == old(orbs) + [o]
        && nextId == old(nextId) + 1 + count && nextHandle == old(nextHandle) + 1
        && r == Ok([CreateReaction(o)])
    {
      var slots := Positions(count);
      if slots.None? {
        return Err(InvalidCount(count));
      }
      var id := NewId();
      var protons := NewProtons(slots.value);
      var o := Orb(nextHandle, id, pos, count, side, protons, None);
      nextHandle := nextHandle + 1;
      BoardOkAppend(orbs, [o], nextId, nextHandle - 1, nextHandle);
      orbs := orbs + [o];
      r := Ok([CreateReaction(o)]);
    }

    /**
     * `initialize`: `createOrb` for each placement in turn, concatenating
     * their trees; nothing is cleared or checked first. The first invalid
     * count throws, after the placements before it have been created.
     */
    method Initialize(init: seq<Placement>) returns (r: Result<seq<Reaction>, EngineError>)
      requires Valid()
      modifies this
      ensures Valid()
      ensures |orbs| >= |old(orbs)| && orbs[..|old(orbs)|] == old(orbs)
      ensures nextHandle == old(nextHandle) + (|orbs| - |old(orbs)|)
      ensures r.Ok? <==> forall i :: 0 <= i < |init| ==> 1 <= init[i].count <= 4
      ensures r.Err? ==> exists i :: 0 <= i < |init| && r.error == InvalidCount(init[i].count)
                                    && !(1 <= init[i].count <= 4)
                                    && |orbs| == |old(orbs)| + i
                                    && Placed(init, i, old(nextId), old(nextHandle), orbs[|old(orbs)|..])
                                    && nextId == old(nextId) + IdsUsed(init, i)
      ensures r.Ok? ==> (
        && Placed(init, |init|, old(nextId), old(nextHandle), orbs[|old(orbs)|..])
        && nextId == old(nextId) + IdsUsed(init, |init|)
        && |orbs| == |old(orbs)| + |init| && |r.value| == |init|
        && forall i :: 0 <= i < |init| ==> r.value[i] == CreateReaction(orbs[|old(orbs)| + i]))
    {
      var reactions: seq<Reaction> := [];
      ghost var created: seq<Orb> := [];
      for i := 0 to |init|
        invariant Valid() && orbs == old(orbs) + created
        invariant InitProgress(init, i, old(nextId), old(nextHandle), created, nextId, nextHandle, reactions)
      {
        var step := CreateOrb(init[i].pos, init[i].side, init[i].count);
        if step.Err? {
          assert orbs[|old(orbs)|..] == created && orbs[..|old(orbs)|] == old(orbs);
          r := Err(step.error);
          assert r.error == InvalidCount(init[i].count) && !(1 <= init[i].count <= 4);
          return;
        }
        InitStep(init, i, old(nextId), old(nextHandle), created, reactions, orbs[|orbs| - 1]);
        created := created + [orbs[|orbs| - 1]];
        reactions := reactions + step.value;
      }
      assert orbs[|old(orbs)|..] == created && orbs[..|old(orbs)|] == old(orbs);
      r := Ok(reactions);
    }

    /** `runCommand`: dispatch on the command kind. */
    method RunCommand(command: Command, fuel: nat) returns (r: Result<seq<Reaction>, EngineError>)
      requires Valid()
      modifies this
      ensures Valid()
      ensures command.CreateCommand? && Positions(command.count).Some? ==>
        var o := NewOrb(command.pos, command.side, command.count, old(nextId), old(nextHandle));
        && orbs == old(orbs) + [o] && r == Ok([CreateReaction(o)])
        && nextId == old(nextId) + 1 + command.count && nextHandle == old(nextHandle) + 1
      ensures command.CreateCommand? && Positions(command.count).None? ==>
        r == Err(InvalidCount(command.count)) && orbs == old(orbs) && nextId == old(nextId)
        && nextHandle == old(nextHandle)
      ensures command.IncrementCommand? ==>
        Incremented(command.id, command.to, fuel, boardSize, old(orbs), old(nextId), old(nextHandle), r, orbs, nextId, nextHandle)
    {
      match command
      case CreateCommand(pos, side, count) =>
        r := CreateOrb(pos, side, count);
      case IncrementCommand(id, to) =>
        r := IncrementOrb(id, to, fuel);
    }

    /** The orb `splitFromPos` builds on one neighbour: its id, its proton's id, its movement id. */
    method NewSplitOrb(cell: Position, side: Side) returns (o: Orb)
      requires Valid()
      modifies this
      ensures Valid() && orbs == old(orbs)
      ensures nextId == old(nextId) + 3 && nextHandle == old(nextHandle) + 1
      ensures o == SplitOrb(cell, side, old(nextId), old(nextHandle))
    {
      var id := NewId();
      var protons := NewProtons(Positions(1).value);
      var movementId := NewId();
      o := Orb(nextHandle, id, cell, 1, side, protons, Some(movementId));
      nextHandle := nextHandle + 1;
    }

    /**
     * `splitFromPos`: one new count-1 orb of `side` on every in-bounds
     * neighbour of `pos`, appended to the list.
     */
    method SplitFromPos(pos: Position, side: Side) returns (r: seq<Reaction>)
      requires Valid()
      modifies this
      ensures Valid()
      ensures var spawned := SplitOrbs(GetNeighbors(pos, boardSize), side, old(nextId), old(nextHandle));
        && orbs == old(orbs) + spawned
        && nextId == old(nextId) + 3 * |spawned| && nextHandle == old(nextHandle) + |spawned|
        && r == [SplitReaction(pos, spawned)]
    {
      var neighbors := GetNeighbors(pos, boardSize);
      var newOrbs: seq<Orb> := [];
      for k := 0 to |neighbors|
        invariant Valid() && orbs == old(orbs)
        invariant nextId == old(nextId) + 3 * k && nextHandle == old(nextHandle) + k
        invariant newOrbs == SplitOrbs(neighbors[..k], side, old(nextId), old(nextHandle))
      {
        var o := NewSplitOrb(neighbors[k], side);
        SplitOrbsSnoc(neighbors, k, side, old(nextId), old(nextHandle));
        newOrbs := newOrbs + [o];
      }
      assert neighbors[..|neighbors|] == neighbors;
      SplitKeepsBoard(orbs, neighbors, side, old(nextId), old(nextHandle));
      orbs := orbs + newOrbs;
      r := [SplitReaction(pos, newOrbs)];
    }

    /**
     * `mergeWhenMoreThan4`: a split from the group's cell with the oldest
     * orb's side, then `splice(k, 1)` on the live list for each orb's
     * index k within the group.
     */
    method MergeWhenMoreThan4(group: seq<Orb>) returns (r: Result<seq<Reaction>, EngineError>)
      requires Valid() && DistinctHandles(group)
      modifies this
      ensures Valid() && nextId >= old(nextId) && nextHandle >= old(nextHandle)
      ensures |group| == 0 ==> r == Err(UndefinedRead) && orbs == old(orbs) && nextId == old(nextId) && nextHandle == old(nextHandle)
      ensures |group| > 0 ==>
        Detonated(group, boardSize, old(orbs), old(nextId), old(nextHandle), r, orbs, nextId, nextHandle)
    {
      if |group| == 0 {
        return Err(UndefinedRead);
      }
      var oldest := OldestOrb(group);
      var splitReactions := SplitFromPos(group[0].pos, group[oldest.value].side);
      ghost var afterSplit := orbs;
      ghost var idsAfterSplit := nextId;
      ghost var handlesAfterSplit := nextHandle;
      for j := 0 to |group|
        invariant nextId == idsAfterSplit && nextHandle == handlesAfterSplit
        invariant orbs == DropFront(afterSplit, j)
        invariant Valid()
      {
        IndexOfDistinct(group, j);
        orbs := SpliceDelete(orbs, IndexOf(group, group[j]) as nat);
      }
      r := Ok([Parallel(Deletes(group) + splitReactions)]);
    }

    /**
     * `mergeWhenLessThan4`: the survivor (the fewest-count orb other than
     * the oldest) gives its id, cell and side to a new orb of count
     * `count` with a new movement id and new protons; the dead-orb
     * loop removes every group orb whose live index differs from the
     * survivor's index among the others, and the new orb then replaces
     * the live orb at the oldest orb's index within the group.
     */
    method MergeWhenLessThan4(group: seq<Orb>, count: int) returns (r: Result<seq<Reaction>, EngineError>)
      requires Valid()
      requires forall x :: x in group ==> x.id < nextId
      modifies this
      ensures Valid() && nextId >= old(nextId) && nextHandle >= old(nextHandle)
      ensures |group| == 0 ==> r == Err(NoOldestOrb)
      ensures |group| > 0 && KillerOf(group).None? ==> r == Err(UndefinedRead)
      ensures KillerOf(group).Some? && Positions(count).None? ==> r == Err(InvalidCount(count))
      ensures r.Err? && r.error != CollidingOrbMissing ==>
        orbs == old(orbs) && nextId == old(nextId) && nextHandle == old(nextHandle)
      ensures KillerOf(group).Some? && Positions(count).Some? ==>
        Merged(group, count, old(orbs), old(nextId), old(nextHandle), r, orbs, nextId, nextHandle)
    {
      var oldest := OldestOrb(group);
      if oldest.None? {
        return Err(NoOldestOrb);
      }
      var killer := KillerOf(group);
      if killer.None? {
        return Err(UndefinedRead);
      }
      var positions := Positions(count);
      if positions.None? {
        return Err(InvalidCount(count));
      }
      r := MergeInto(group, oldest.value, killer.value, count);
    }

    /**
     * The second half of `mergeWhenLessThan4`, once the oldest orb, the
     * survivor and the layout are known: build the merged orb, run the
     * dead-orb loop, then splice the merged orb in at the oldest orb's
     * index within the group.
     */
    method MergeInto(group: seq<Orb>, oldest: nat, killer: Killer, count: int) returns (r: Result<seq<Reaction>, EngineError>)
      requires Valid() && oldest < |group| && killer.orb.id < nextId && 1 <= count <= 4
      modifies this
      ensures Valid() && nextId == old(nextId) + 1 + count && nextHandle == old(nextHandle) + 1
      ensures var merged := MergedOrb(killer.orb, count, old(nextId), old(nextHandle));
        var res := RemoveDead(old(orbs), group, killer.idx);
        if res.found then
          && orbs == SpliceReplace(res.live, IndexOf(group, group[oldest]) as nat, merged)
          && r == Ok([Parallel(Deletes(res.dead) + MergeProtonReactions(merged, |killer.orb.protons|))])
        else
          orbs == res.live && r == Err(CollidingOrbMissing)
    {
      var newOrb := NewMergedOrb(killer.orb, count);
      var found, deadOrbs := RemoveDeadOrbs(group, killer.idx);
      if !found {
        return Err(CollidingOrbMissing);
      }
      var at := IndexOf(group, group[oldest]);
      BoardOkAfterReplace(orbs, at as nat, newOrb, nextId, nextHandle);
      orbs := SpliceReplace(orbs, at as nat, newOrb);
      r := Ok([Parallel(Deletes(deadOrbs) + MergeProtonReactions(newOrb, |killer.orb.protons|))]);
    }

    /** The orb `mergeWhenLessThan4` builds: its movement id first, then its protons' ids. */
    method NewMergedOrb(survivor: Orb, count: int) returns (o: Orb)
      requires Valid() && survivor.id < nextId && 1 <= count <= 4
      modifies this
      ensures Valid() && orbs == old(orbs)
      ensures nextId == old(nextId) + 1 + count && nextHandle == old(nextHandle) + 1
      ensures o == MergedOrb(survivor, count, old(nextId), old(nextHandle))
      ensures OrbOk(o, nextId, nextHandle) && forall x :: x in orbs ==> x.handle < o.handle
    {
      var movementId := NewId();
      var protons := NewProtons(Layout(count));
      o := Orb(nextHandle, survivor.id, survivor.pos, count, survivor.side, protons, Some(movementId));
      nextHandle := nextHandle + 1;
    }

    /**
     * The dead-orb loop of `mergeWhenLessThan4`: each group orb is looked
     * up in the live list and removed unless its live index equals `keep`.
     */
    method RemoveDeadOrbs(group: seq<Orb>, keep: nat) returns (found: bool, dead: seq<Orb>)
      requires Valid()
      modifies this
      ensures Valid() && nextId == old(nextId) && nextHandle == old(nextHandle)
      ensures RemoveDead(old(orbs), group, keep) == DeadLoop(found, orbs, dead)
    {
      dead := [];
      assert group[0..] == group;
      WithNoDead(RemoveDead(orbs, group, keep));
      for j := 0 to |group|
        invariant nextId == old(nextId) && nextHandle == old(nextHandle)
        invariant Valid()
        invariant RemoveDead(old(orbs), group, keep) == WithDead(dead, RemoveDead(orbs, group[j..], keep))
      {
        assert group[j..][0] == group[j] && group[j..][1..] == group[j + 1..];
        var idx := IndexOf(orbs, group[j]);
        if idx == -1 {
          return false, dead;
        }
        if idx == keep {
          continue;
        }
        BoardOkAfterDelete(orbs, idx, nextId, nextHandle);
        RemoveDeadStep(orbs, group[j..], keep, dead);
        dead := dead + [group[j]];
        orbs := SpliceDelete(orbs, idx);
      }
      assert group[|group|..] == [];
      found := true;
    }

    /** The body of `checkMerges`' loop for a shared cell: detonate at a total of 4 or more, merge below. */
    method ResolveGroup(group: seq<Orb>) returns (r: Result<seq<Reaction>, EngineError>)
      requires Valid() && DistinctHandles(group) && |group| >= 2
      requires forall x :: x in group ==> x.id < nextId && x.count >= 1
      modifies this
      ensures Valid() && nextId >= old(nextId) && nextHandle >= old(nextHandle)
      ensures Total(group) >= 4 ==>
        Detonated(group, boardSize, old(orbs), old(nextId), old(nextHandle), r, orbs, nextId, nextHandle)
      ensures Total(group) < 4 ==>
        Merged(group, Total(group), old(orbs), old(nextId), old(nextHandle), r, orbs, nextId, nextHandle)
      ensures r.Ok? ==> |r.value| == 1 && r.value[0].Parallel?
      ensures r.Err? ==> r.error == CollidingOrbMissing
    {
      KillerExists(group);
      TotalAtLeast(group);
      var total := Total(group);
      if total >= 4 {
        r := MergeWhenMoreThan4(group);
      } else {
        r := MergeWhenLessThan4(group, total);
      }
    }

    /**
     * One pass of `checkMerges`' loop: a cell with fewer than two orbs is
     * skipped and nothing changes; a shared cell yields the one parallel
     * group of its detonation or merge, or the missing-orb throw.
     */
    method ResolveCell(group: seq<Orb>) returns (r: Result<seq<Reaction>, EngineError>)
      requires Valid() && DistinctHandles(group)
      requires forall x :: x in group ==> x.id < nextId && x.count >= 1
      modifies this
      ensures Valid() && nextId >= old(nextId) && nextHandle >= old(nextHandle)
      ensures |group| < 2 ==> r == Ok([]) && orbs == old(orbs) && nextId == old(nextId) && nextHandle == old(nextHandle)
      ensures |group| >= 2 && Total(group) >= 4 ==>
        Detonated(group, boardSize, old(orbs), old(nextId), old(nextHandle), r, orbs, nextId, nextHandle)
      ensures |group| >= 2 && Total(group) < 4 ==>
        Merged(group, Total(group), old(orbs), old(nextId), old(nextHandle), r, orbs, nextId, nextHandle)
      ensures |group| >= 2 && r.Ok? ==> |r.value| == 1 && r.value[0].Parallel?
      ensures r.Err? ==> r.error == CollidingOrbMissing
    {
      if |group| < 2 {
        return Ok([]);
      }
      r := ResolveGroup(group);
    }

    /**
     * `checkMerges`: groups the orbs by cell and resolves every cell
     * holding two or more, in order of first appearance: a total of 4 or
     * more detonates the cell, a smaller total merges it. One parallel
     * group per resolved cell; none when no cell is shared.
     */
    method CheckMerges() returns (r: Result<seq<Reaction>, EngineError>)
      requires Valid()
      modifies this
      ensures Valid() && nextId >= old(nextId) && nextHandle >= old(nextHandle)
      ensures r.Ok? ==> |r.value| == |Colliding(CellGroups(old(orbs)))|
      ensures r.Err? ==> r.error == CollidingOrbMissing
      ensures NoCollision(old(orbs)) ==>
        r == Ok([]) && orbs == old(orbs) && nextId == old(nextId) && nextHandle == old(nextHandle)
    {
      var groups := GroupByCell(orbs);
      ghost var start := orbs;
      ghost var startIds := nextId;
      NoCollisionIffNothingColliding(orbs);
      var reactions: seq<Reaction> := [];
      for i := 0 to |groups|
        invariant Valid() && nextId >= startIds && nextHandle >= old(nextHandle)
        invariant BoardOk(start, startIds, old(nextHandle))
        invariant |reactions| == |Colliding(groups[..i])|
        invariant reactions == [] ==> orbs == start && nextId == startIds && nextHandle == old(nextHandle)
      {
        var group := groups[i];
        CollidingStep(groups, i);
        CellReady(start, startIds, old(nextHandle), i, nextId);
        var merged := ResolveCell(group);
        if merged.Err? {
          return Err(merged.error);
        }
        reactions := reactions + merged.value;
      }
      assert groups[..|groups|] == groups;
      r := Ok(reactions);
    }

    /**
     * The `while (true)` loop of `incrementOrb`, bounded by `fuel` rounds:
     * stop with a finishGame once one side owns every orb, stop when
     * `checkMerges` has nothing to do, otherwise record its round and go on.
     */
    method Cascade(fuel: nat) returns (r: Result<seq<Reaction>, EngineError>)
      requires Valid()
      modifies this
      ensures Valid() && nextId >= old(nextId) && nextHandle >= old(nextHandle)
      ensures r.Ok? ==> CascadeRounds(r.value) && Settled(orbs, r.value)
      ensures r.Ok? && (forall i :: 0 <= i < |r.value| ==> r.value[i] == FinishGame) ==> orbs == old(orbs)
      ensures r.Err? ==> r.error == CollidingOrbMissing || r.error == CascadeFuelExhausted
      ensures fuel == 0 ==>
        r == Err(CascadeFuelExhausted) && orbs == old(orbs) && nextId == old(nextId) && nextHandle == old(nextHandle)
      ensures fuel > 0 && IsGameFinished(old(orbs)) ==>
        r == Ok([FinishGame]) && orbs == old(orbs) && nextId == old(nextId) && nextHandle == old(nextHandle)
      ensures fuel > 0 && !IsGameFinished(old(orbs)) && NoCollision(old(orbs)) ==>
        r == Ok([]) && orbs == old(orbs) && nextId == old(nextId) && nextHandle == old(nextHandle)
    {
      var reactions: seq<Reaction> := [];
      var fuelLeft: nat := fuel;
      ghost var settledOnEntry := IsGameFinished(orbs) || NoCollision(orbs);
      while true
        invariant Valid()
        invariant forall i :: 0 <= i < |reactions| ==> reactions[i].Parallel? && |reactions[i].reactions| > 0
        invariant fuelLeft + |reactions| == fuel
        invariant nextId >= old(nextId) && nextHandle >= old(nextHandle)
        invariant |reactions| == 0 ==> orbs == old(orbs) && nextId == old(nextId) && nextHandle == old(nextHandle)
        invariant |reactions| > 0 ==> !settledOnEntry
        decreases fuelLeft
      {
        if fuelLeft == 0 {
          return Err(CascadeFuelExhausted);
        }
        fuelLeft := fuelLeft - 1;
        if IsGameFinished(orbs) {
          assert |reactions| > 0 ==> (reactions + [FinishGame])[0] == reactions[0];
          assert |reactions| == 0 ==> reactions + [FinishGame] == [FinishGame];
          return Ok(reactions + [FinishGame]);
        }
        ghost var beforeMerges := orbs;
        var mergeReactions := CheckMerges();
        if mergeReactions.Err? {
          return Err(mergeReactions.error);
        }
        if |mergeReactions.value| == 0 {
          NoCollisionIffNothingColliding(beforeMerges);
          assert |reactions| > 0 ==> reactions[0].Parallel?;
          return Ok(reactions);
        }
        reactions := reactions + [Parallel(mergeReactions.value)];
      }
    }

    /**
     * `incrementOrb`: an unknown id throws; below count 4 the simple
     * increment; at 4 or more a detonation: a delete reaction (the orb
     * stays in the list), a split with the orb's own side, then the
     * cascade loop, bounded here by `fuel` rounds.
     */
    method IncrementOrb(id: int, to: int, fuel: nat) returns (r: Result<seq<Reaction>, EngineError>)
      requires Valid()
      modifies this
      ensures Valid()
      ensures Incremented(id, to, fuel, boardSize, old(orbs), old(nextId), old(nextHandle), r, orbs, nextId, nextHandle)
    {
      var found := FindById(orbs, id);
      if found.None? {
        return Err(OrbNotFound(id));
      }
      var orb := orbs[found.value];
      if orb.count < 4 {
        return SimpleIncrementOrb(orbs, id, to);
      }
      var deleted := DeleteOrb(orbs, orb.id);
      var split := SplitFromPos(orb.pos, orb.side);
      ghost var spawned := SplitOrbs(GetNeighbors(orb.pos, boardSize), orb.side, old(nextId), old(nextHandle));
      assert split == [SplitReaction(orb.pos, spawned)] && orbs == old(orbs) + spawned;
      var rounds := Cascade(fuel);
      if rounds.Err? {
        return Err(rounds.error);
      }
      assert deleted.value == [Delete(orb)];
      r := Ok(deleted.value + split + rounds.value);
      assert r.value[2..] == rounds.value;
      assert fuel > 0 && IsGameFinished(old(orbs) + spawned) ==> rounds.value == [FinishGame];
      ghost var opening := [Delete(orb), SplitReaction(orb.pos, spawned)];
      assert deleted.value + split == opening;
      assert rounds.value == [FinishGame] ==> r.value == deleted.value + split + [FinishGame];
      assert rounds.value == [] ==> r.value == deleted.value + split;
    }
  }
}
