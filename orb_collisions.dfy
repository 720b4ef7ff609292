/**
 * The collision logic of lib/OrbState.ts: grouping the orbs by cell
 * (`checkMerges`), choosing the oldest orb and the surviving orb of a
 * merge, and the list surgery the two merge rules perform with `splice`.
 */
module OrbCollisions {
  import opened Wrappers
  import opened Geometry
  import opened OrbTypes

  // ---------------------------------------------------------------- grouping

  /** The orbs standing on cell `p`, in list order. */
  function OrbsAt(orbs: seq<Orb>, p: Position): seq<Orb>
  {
    if |orbs| == 0 then []
    else
      var last := orbs[|orbs| - 1];
      OrbsAt(orbs[..|orbs| - 1], p) + (if last.pos == p then [last] else [])
  }

  /** `OrbsAt` keeps exactly the orbs of cell `p`. */
  lemma {:induction false} OrbsAtFacts(orbs: seq<Orb>, p: Position)
    ensures forall x :: x in OrbsAt(orbs, p) ==> x in orbs && x.pos == p
    ensures forall i :: 0 <= i < |orbs| && orbs[i].pos == p ==> orbs[i] in OrbsAt(orbs, p)
  {
    if |orbs| > 0 {
      var init := orbs[..|orbs| - 1];
      OrbsAtFacts(init, p);
      assert forall i :: 0 <= i < |init| ==> orbs[i] == init[i];
    }
  }

  /** A cell that is not listed holds no orb. */
  lemma OrbsAtOfFreeCell(orbs: seq<Orb>, p: Position)
    requires p !in CellKeys(orbs)
    ensures OrbsAt(orbs, p) == []
  {
    CellKeysFacts(orbs);
    OrbsAtFacts(orbs, p);
  }

  /** The occupied cells, each once, in order of first appearance. */
  function CellKeys(orbs: seq<Orb>): seq<Position>
  {
    if |orbs| == 0 then []
    else
      var k := CellKeys(orbs[..|orbs| - 1]);
      var last := orbs[|orbs| - 1];
      if last.pos in k then k else k + [last.pos]
  }

  /** Every occupied cell is listed once, and only occupied cells are. */
  lemma {:induction false} CellKeysFacts(orbs: seq<Orb>)
    ensures Distinct(CellKeys(orbs))
    ensures forall p :: p in CellKeys(orbs) <==> exists i :: 0 <= i < |orbs| && orbs[i].pos == p
  {
    if |orbs| > 0 {
      var init := orbs[..|orbs| - 1];
      CellKeysFacts(init);
      assert forall i :: 0 <= i < |init| ==> orbs[i] == init[i];
      var last := orbs[|orbs| - 1];
      forall p | p in CellKeys(orbs)
        ensures exists i :: 0 <= i < |orbs| && orbs[i].pos == p
      {
        if p == last.pos {
          assert orbs[|orbs| - 1].pos == p;
        } else {
          var i :| 0 <= i < |init| && init[i].pos == p;
          assert orbs[i].pos == p;
        }
      }
    }
  }

  /**
   * `Object.values(orbsMap)` after the grouping loop: one group per
   * occupied cell, in order of first appearance (the keys are never
   * array indices, so a JavaScript object keeps them in insertion order).
   */
  function CellGroups(orbs: seq<Orb>): (r: seq<seq<Orb>>)
    ensures |r| == |CellKeys(orbs)|
  {
    var keys := CellKeys(orbs);
    seq(|keys|, k requires 0 <= k < |keys| => OrbsAt(orbs, keys[k]))
  }

  lemma OrbsAtSnoc(s: seq<Orb>, o: Orb, p: Position)
    ensures OrbsAt(s + [o], p) == OrbsAt(s, p) + (if o.pos == p then [o] else [])
  {
    assert (s + [o])[..|s|] == s;
  }

  lemma CellKeysSnoc(s: seq<Orb>, o: Orb)
    ensures CellKeys(s + [o]) == if o.pos in CellKeys(s) then CellKeys(s) else CellKeys(s) + [o.pos]
  {
    assert (s + [o])[..|s|] == s;
  }

  /** Cell `p` occurs in the list before any orb stands on cell `q`. */
  ghost predicate Before(orbs: seq<Orb>, p: Position, q: Position)
  {
    exists i :: 0 <= i < |orbs| && orbs[i].pos == p && forall j :: 0 <= j <= i ==> orbs[j].pos != q
  }

  lemma BeforeExtends(s: seq<Orb>, o: Orb, p: Position, q: Position)
    requires Before(s, p, q)
    ensures Before(s + [o], p, q)
  {
    var i :| 0 <= i < |s| && s[i].pos == p && forall j :: 0 <= j <= i ==> s[j].pos != q;
    assert (s + [o])[i] == s[i];
    assert forall j :: 0 <= j <= i ==> (s + [o])[j] == s[j];
  }

  lemma BeforeNew(s: seq<Orb>, o: Orb, p: Position)
    requires p in CellKeys(s) && o.pos !in CellKeys(s)
    ensures Before(s + [o], p, o.pos)
  {
    CellKeysFacts(s);
    var i :| 0 <= i < |s| && s[i].pos == p;
    var t := s + [o];
    assert t[i] == s[i];
    forall j | 0 <= j <= i
      ensures t[j].pos != o.pos
    {
      assert t[j] == s[j];
      assert s[j].pos in CellKeys(s);
    }
  }

  /** The cells are listed in order of first appearance. */
  lemma {:induction false} CellKeysOrder(orbs: seq<Orb>)
    ensures forall k, l :: 0 <= k < l < |CellKeys(orbs)| ==> Before(orbs, CellKeys(orbs)[k], CellKeys(orbs)[l])
  {
    if |orbs| > 0 {
      var init := orbs[..|orbs| - 1];
      var last := orbs[|orbs| - 1];
      assert orbs == init + [last];
      CellKeysOrder(init);
      CellKeysSnoc(init, last);
      var ki := CellKeys(init);
      var keys := CellKeys(orbs);
      forall k, l | 0 <= k < l < |keys|
        ensures Before(orbs, keys[k], keys[l])
      {
        if l < |ki| {
          assert keys[k] == ki[k] && keys[l] == ki[l];
          BeforeExtends(init, last, ki[k], ki[l]);
        } else {
          assert keys[k] == ki[k] && keys[l] == last.pos;
          assert ki[k] in ki;
          BeforeNew(init, last, ki[k]);
        }
      }
    }
  }

  lemma OrbsAtDistinct(orbs: seq<Orb>, p: Position)
    requires DistinctHandles(orbs)
    ensures DistinctHandles(OrbsAt(orbs, p))
  {
    if |orbs| > 0 {
      var init := orbs[..|orbs| - 1];
      var last := orbs[|orbs| - 1];
      assert DistinctHandles(init);
      OrbsAtDistinct(init, p);
      var a := OrbsAt(init, p);
      var r := OrbsAt(orbs, p);
      if last.pos == p {
        OrbsAtFacts(init, p);
        assert r == a + [last];
        forall i, j | 0 <= i < j < |r|
          ensures r[i].handle != r[j].handle
        {
          if j == |a| {
            assert r[i] in init;
            var i' :| 0 <= i' < |init| && init[i'] == r[i];
            assert orbs[i'] == init[i'];
          } else {
            assert r[i] == a[i] && r[j] == a[j];
          }
        }
      }
    }
  }

  /**
   * Each group is non-empty and holds exactly the orbs of its cell; the
   * cells differ from group to group.
   */
  lemma CellGroupsShape(orbs: seq<Orb>)
    ensures forall k :: 0 <= k < |CellGroups(orbs)| ==>
      |CellGroups(orbs)[k]| > 0 && CellGroups(orbs)[k] == OrbsAt(orbs, CellKeys(orbs)[k])
      && CellGroups(orbs)[k][0].pos == CellKeys(orbs)[k]
  {
    var g: seq<seq<Orb>> := CellGroups(orbs);
    var keys: seq<Position> := CellKeys(orbs);
    CellKeysFacts(orbs);
    forall k | 0 <= k < |g|
      ensures |g[k]| > 0 && g[k][0].pos == keys[k]
    {
      OrbsAtFacts(orbs, keys[k]);
      assert keys[k] in keys;
      var i :| 0 <= i < |orbs| && orbs[i].pos == keys[k];
      assert orbs[i] in g[k];
    }
  }

  /** Every orb is in the group of its own cell. */
  lemma CellGroupsCover(orbs: seq<Orb>, i: nat)
    requires i < |orbs|
    ensures exists k :: 0 <= k < |CellGroups(orbs)| && orbs[i] in CellGroups(orbs)[k]
                        && CellKeys(orbs)[k] == orbs[i].pos
  {
    var keys := CellKeys(orbs);
    CellKeysFacts(orbs);
    assert orbs[i].pos in keys;
    var k :| 0 <= k < |keys| && keys[k] == orbs[i].pos;
    OrbsAtFacts(orbs, keys[k]);
    assert orbs[i] in CellGroups(orbs)[k];
  }

  /**
   * What `checkMerges` iterates over: groups of distinct cells, in order
   * of first appearance, none holding the same object twice.
   */
  lemma CellGroupsFacts(orbs: seq<Orb>)
    ensures var g := CellGroups(orbs);
      && (forall k :: 0 <= k < |g| ==> |g[k]| > 0 && forall x :: x in g[k] ==> x in orbs && x.pos == g[k][0].pos)
      && (forall k, l :: 0 <= k < l < |g| ==> g[k][0].pos != g[l][0].pos)
      && (forall k, l :: 0 <= k < l < |g| ==> Before(orbs, g[k][0].pos, g[l][0].pos))
      && (DistinctHandles(orbs) ==> forall k :: 0 <= k < |g| ==> DistinctHandles(g[k]))
  {
    CellGroupsShape(orbs);
    CellKeysOrder(orbs);
    CellKeysFacts(orbs);
    forall k | 0 <= k < |CellGroups(orbs)|
      ensures forall x :: x in CellGroups(orbs)[k] ==> x in orbs && x.pos == CellGroups(orbs)[k][0].pos
    {
      OrbsAtFacts(orbs, CellKeys(orbs)[k]);
    }
    if DistinctHandles(orbs) {
      forall k | 0 <= k < |CellGroups(orbs)|
        ensures DistinctHandles(CellGroups(orbs)[k])
      {
        OrbsAtDistinct(orbs, CellKeys(orbs)[k]);
      }
    }
  }

  /** No cell holds two orbs. */
  predicate NoCollision(orbs: seq<Orb>)
  {
    forall g :: g in CellGroups(orbs) ==> |g| < 2
  }

  /** The groups `checkMerges` acts on: those of two or more orbs. */
  function Colliding(groups: seq<seq<Orb>>): (r: seq<seq<Orb>>)
    ensures forall g :: g in r <==> g in groups && |g| >= 2
  {
    if |groups| == 0 then []
    else Colliding(groups[..|groups| - 1])
         + (if |groups[|groups| - 1]| >= 2 then [groups[|groups| - 1]] else [])
  }

  /** One group's members come from the board, each object once. */
  lemma GroupFacts(orbs: seq<Orb>, k: nat)
    requires k < |CellGroups(orbs)|
    ensures forall x :: x in CellGroups(orbs)[k] ==> x in orbs
    ensures DistinctHandles(orbs) ==> DistinctHandles(CellGroups(orbs)[k])
  {
    CellGroupsFacts(orbs);
  }

  lemma CollidingStep(groups: seq<seq<Orb>>, i: nat)
    requires i < |groups|
    ensures Colliding(groups[..i + 1]) == Colliding(groups[..i]) + (if |groups[i]| >= 2 then [groups[i]] else [])
  {
    assert groups[..i + 1][..i] == groups[..i];
  }

  /** No cell is shared exactly when no group is left for `checkMerges` to resolve. */
  lemma NoCollisionIffNothingColliding(orbs: seq<Orb>)
    ensures NoCollision(orbs) <==> Colliding(CellGroups(orbs)) == []
  {
    var c := Colliding(CellGroups(orbs));
    if c != [] {
      assert c[0] in c;
    }
  }

  /**
   * The grouping loop of `checkMerges`: a dictionary keyed by cell whose
   * keys keep their insertion order.
   */
  method GroupByCell(orbs: seq<Orb>) returns (groups: seq<seq<Orb>>)
    ensures groups == CellGroups(orbs)
  {
    var buckets: map<Position, seq<Orb>> := map[];
    var keys: seq<Position> := [];
    for i := 0 to |orbs|
      invariant keys == CellKeys(orbs[..i])
      invariant forall p :: p in buckets <==> p in keys
      invariant forall p :: p in buckets ==> buckets[p] == OrbsAt(orbs[..i], p)
    {
      var o := orbs[i];
      ghost var seen := orbs[..i];
      assert orbs[..i + 1] == seen + [o];
      CellKeysSnoc(seen, o);
      forall p
        ensures OrbsAt(seen + [o], p) == OrbsAt(seen, p) + (if o.pos == p then [o] else [])
      {
        OrbsAtSnoc(seen, o, p);
      }
      if o.pos !in buckets {
        OrbsAtOfFreeCell(seen, o.pos);
        buckets := buckets[o.pos := []];
        keys := keys + [o.pos];
      }
      buckets := buckets[o.pos := buckets[o.pos] + [o]];
    }
    assert orbs[..|orbs|] == orbs;
    groups := seq(|keys|, k requires 0 <= k < |keys| => buckets[keys[k]]);
    assert |groups| == |CellGroups(orbs)|;
    forall k | 0 <= k < |groups|
      ensures groups[k] == CellGroups(orbs)[k]
    {
      assert keys[k] in keys;
    }
  }

  // ---------------------------------------------------------- oldest orb

  /** `!orb.movementId`: no movement id, or the id 0. */
  predicate Falsy(m: Option<int>)
  {
    m.None? || m.value == 0
  }

  /**
   * Orb `k` is the oldest of the group: the first one with a falsy
   * movement id when there is one, otherwise the first one with the
   * smallest movement id.
   */
  predicate IsOldest(g: seq<Orb>, k: nat)
  {
    k < |g| &&
    if exists i :: 0 <= i < |g| && Falsy(g[i].movementId) then
      Falsy(g[k].movementId) && forall j :: 0 <= j < k ==> !Falsy(g[j].movementId)
    else
      forall j :: 0 <= j < |g| ==>
        g[k].movementId.value <= g[j].movementId.value
        && (j < k ==> g[k].movementId.value < g[j].movementId.value)
  }

  lemma OldestUnique(g: seq<Orb>, a: nat, b: nat)
    requires IsOldest(g, a) && IsOldest(g, b)
    ensures a == b
  {
  }

  /** The oldest orb of a group; `None` (undefined) only for an empty group. */
  function Oldest(g: seq<Orb>): (r: Option<nat>)
    ensures r.None? <==> |g| == 0
    ensures r.Some? ==> IsOldest(g, r.value)
  {
    if |g| == 0 then None
    else
      var n := |g| - 1;
      var init := g[..n];
      assert forall i :: 0 <= i < n ==> g[i] == init[i];
      match Oldest(init)
      case None => Some(n)
      case Some(k) =>
        if Falsy(g[k].movementId) then Some(k)
        else if Falsy(g[n].movementId) then Some(n)
        else if g[n].movementId.value < g[k].movementId.value then Some(n)
        else Some(k)
  }

  /** The scan of `oldestOrb`, with `None` standing for `Infinity`. */
  method OldestOrb(g: seq<Orb>) returns (r: Option<nat>)
    ensures r == Oldest(g)
  {
    r := None;
    var oldestId: Option<int> := None;
    for i := 0 to |g|
      invariant forall j :: 0 <= j < i ==> !Falsy(g[j].movementId)
      invariant r.None? <==> i == 0
      invariant r.Some? ==> IsOldest(g[..i], r.value) && oldestId == g[r.value].movementId
      invariant r.None? ==> oldestId.None?
    {
      assert forall j :: 0 <= j < i ==> g[..i + 1][j] == g[..i][j];
      if Falsy(g[i].movementId) {
        r := Some(i);
        assert IsOldest(g, i);
        OldestUnique(g, i, Oldest(g).value);
        return;
      }
      if oldestId.None? || g[i].movementId.value < oldestId.value {
        oldestId := g[i].movementId;
        r := Some(i);
      }
    }
    assert g[..|g|] == g;
    if r.Some? {
      OldestUnique(g, r.value, Oldest(g).value);
    }
  }

  // ---------------------------------------------------------- merge survivor

  /** `orbs.filter(o => o !== oldestOrb)`. */
  function Others(g: seq<Orb>, oldest: Orb): (r: seq<Orb>)
    ensures forall x :: x in r ==> x in g && x.handle != oldest.handle
    ensures forall i :: 0 <= i < |g| && g[i].handle != oldest.handle ==> g[i] in r
  {
    if |g| == 0 then []
    else
      var init := g[..|g| - 1];
      var last := g[|g| - 1];
      assert forall i :: 0 <= i < |init| ==> g[i] == init[i];
      Others(init, oldest) + (if last.handle != oldest.handle then [last] else [])
  }

  /** The filter works element by element: it keeps the order of the group. */
  lemma {:induction false} OthersAppend(a: seq<Orb>, b: seq<Orb>, oldest: Orb)
    ensures Others(a + b, oldest) == Others(a, oldest) + Others(b, oldest)
    decreases |b|
  {
    if |b| == 0 {
      assert a + b == a;
    } else {
      var init := b[..|b| - 1];
      assert (a + b)[..|a + b| - 1] == a + init;
      assert (a + b)[|a + b| - 1] == b[|b| - 1];
      OthersAppend(a, init, oldest);
    }
  }

  /**
   * The `reduce` that picks the merge survivor: the orb with the fewest
   * protons, the first one on ties.
   */
  function Smallest(s: seq<Orb>): (r: Option<nat>)
    ensures r.None? <==> |s| == 0
    ensures r.Some? ==> (r.value < |s|
      && (forall j :: 0 <= j < |s| ==> s[r.value].count <= s[j].count)
      && (forall j :: 0 <= j < r.value ==> s[r.value].count < s[j].count))
  {
    if |s| == 0 then None
    else
      var n := |s| - 1;
      var init := s[..n];
      assert forall i :: 0 <= i < n ==> s[i] == init[i];
      match Smallest(init)
      case None => Some(n)
      case Some(k) => if s[n].count < s[k].count then Some(n) else Some(k)
  }

  /** `randomKiller` of `mergeWhenLessThan4`: the survivor and its index among the others. */
  datatype Killer = Killer(orb: Orb, idx: nat)

  /**
   * The survivor of a merge: among the orbs other than the oldest one,
   * the one with the fewest protons (the first on ties), with its index
   * in that filtered list. `None` when no other orb exists.
   */
  function KillerOf(g: seq<Orb>): (r: Option<Killer>)
    ensures |g| == 0 ==> r.None?
    ensures r.Some? ==> (|g| > 0 &&
      var others := Others(g, g[Oldest(g).value]);
      && r.value.idx < |others| && r.value.orb == others[r.value.idx]
      && r.value.orb in g && r.value.orb.handle != g[Oldest(g).value].handle
      && (forall j :: 0 <= j < |others| ==> r.value.orb.count <= others[j].count)
      && (forall j :: 0 <= j < r.value.idx ==> r.value.orb.count < others[j].count))
  {
    match Oldest(g)
    case None => None
    case Some(o) =>
      var others := Others(g, g[o]);
      match Smallest(others)
      case None => None
      case Some(k) => Some(Killer(others[k], k))
  }

  /** A group of two or more distinct objects always has a survivor. */
  lemma KillerExists(g: seq<Orb>)
    requires |g| >= 2 && DistinctHandles(g)
    ensures KillerOf(g).Some?
  {
    var o := Oldest(g).value;
    var other := if o == 0 then 1 else 0;
    assert g[other].handle != g[o].handle;
    assert g[other] in Others(g, g[o]);
  }

  // ---------------------------------------------------------- list surgery

  /**
   * Where the dead-orb loop of `mergeWhenLessThan4` stops: `found` is false
   * when it stopped at the "Orb not found" throw; `live` is the list at that
   * point and `dead` the orbs recorded as dead before it.
   */
  datatype DeadLoop = DeadLoop(found: bool, live: seq<Orb>, dead: seq<Orb>)

  /**
   * The dead-orb loop of `mergeWhenLessThan4`: each orb of the group is
   * looked up in the live list; it is spared when its live index equals
   * `keep` (the survivor's index among the *others*), otherwise it is
   * spliced out and recorded as dead. The first orb missing from the live
   * list stops the loop with the throw.
   */
  function RemoveDead(live: seq<Orb>, g: seq<Orb>, keep: nat): (r: DeadLoop)
    ensures |r.live| + |r.dead| == |live|
    ensures (forall x :: x in r.live ==> x in live) && (forall x :: x in r.dead ==> x in g)
    ensures DistinctHandles(live) ==> DistinctHandles(r.live)
    decreases |g|
  {
    if |g| == 0 then DeadLoop(true, live, [])
    else
      var idx := IndexOf(live, g[0]);
      if idx == -1 then DeadLoop(false, live, [])
      else if idx == keep then RemoveDead(live, g[1..], keep)
      else
        DistinctAfterDelete(live, idx);
        var rest := RemoveDead(SpliceDelete(live, idx), g[1..], keep);
        assert forall x :: x in rest.dead ==> x in g;
        DeadLoop(rest.found, rest.live, [g[0]] + rest.dead)
  }

  /** The objects of a list, in order. */
  function Handles(s: seq<Orb>): (r: seq<nat>)
    ensures |r| == |s| && forall i :: 0 <= i < |s| ==> r[i] == s[i].handle
  {
    seq(|s|, i requires 0 <= i < |s| => s[i].handle)
  }

  /** A splice-delete takes exactly one object out of the list. */
  lemma HandlesAfterDelete(s: seq<Orb>, i: nat)
    requires i < |s|
    ensures multiset(Handles(SpliceDelete(s, i))) + multiset{s[i].handle} == multiset(Handles(s))
  {
    assert Handles(s) == Handles(s[..i]) + [s[i].handle] + Handles(s[i + 1..]);
    assert Handles(SpliceDelete(s, i)) == Handles(s[..i]) + Handles(s[i + 1..]);
  }

  /** Splicing out the object of `o` and recording `o` as dead keeps the objects accounted for. */
  lemma MovedToDead(live: seq<Orb>, idx: nat, o: Orb, kept: seq<Orb>, dead: seq<Orb>)
    requires idx < |live| && live[idx].handle == o.handle
    requires multiset(Handles(kept)) + multiset(Handles(dead)) == multiset(Handles(SpliceDelete(live, idx)))
    ensures multiset(Handles(kept)) + multiset(Handles([o] + dead)) == multiset(Handles(live))
  {
    HandlesAfterDelete(live, idx);
    assert Handles([o] + dead) == [o.handle] + Handles(dead);
  }

  /**
   * The dead-orb loop loses no object and invents none: the objects left
   * in the list and the objects recorded as dead are, together, the
   * objects the list held. Since every dead orb is an orb of the group,
   * the loop removes group objects only.
   */
  lemma {:induction false} RemoveDeadAccounts(live: seq<Orb>, g: seq<Orb>, keep: nat)
    ensures multiset(Handles(RemoveDead(live, g, keep).live)) + multiset(Handles(RemoveDead(live, g, keep).dead))
         == multiset(Handles(live))
    decreases |g|
  {
    if |g| > 0 {
      var idx := IndexOf(live, g[0]);
      if idx == keep {
        RemoveDeadAccounts(live, g[1..], keep);
      } else if idx != -1 {
        var rest := RemoveDead(SpliceDelete(live, idx), g[1..], keep);
        assert RemoveDead(live, g, keep) == DeadLoop(rest.found, rest.live, [g[0]] + rest.dead);
        RemoveDeadAccounts(SpliceDelete(live, idx), g[1..], keep);
        MovedToDead(live, idx, g[0], rest.live, rest.dead);
      }
    }
  }

  /** An orb that is no object of the group stays in the list, wherever it stands. */
  lemma {:induction false} RemoveDeadSparesBystanders(live: seq<Orb>, g: seq<Orb>, keep: nat, o: Orb)
    requires o in live && forall x :: x in g ==> x.handle != o.handle
    ensures o in RemoveDead(live, g, keep).live
    decreases |g|
  {
    if |g| > 0 {
      var idx := IndexOf(live, g[0]);
      assert g[0] in g;
      assert forall x :: x in g[1..] ==> x in g;
      if idx == keep {
        RemoveDeadSparesBystanders(live, g[1..], keep, o);
      } else if idx != -1 {
        var k :| 0 <= k < |live| && live[k] == o;
        assert k != idx;
        assert o in SpliceDelete(live, idx) by {
          if k < idx {
            assert SpliceDelete(live, idx)[k] == o;
          } else {
            assert SpliceDelete(live, idx)[k - 1] == o;
          }
        }
        RemoveDeadSparesBystanders(SpliceDelete(live, idx), g[1..], keep, o);
      }
    }
  }

  /**
   * `mergeWhenMoreThan4` runs `splice(k, 1)` for k = 0, 1, ..., n-1 on the
   * live list: at each orb's index within the colliding group.
   */
  function DropFront(s: seq<Orb>, n: nat): (r: seq<Orb>)
    ensures forall x :: x in r ==> x in s
    ensures DistinctHandles(s) ==> DistinctHandles(r)
  {
    if n == 0 then s
    else
      var prev := DropFront(s, n - 1);
      DistinctAfterDelete(prev, n - 1);
      SpliceDelete(prev, n - 1)
  }

  /** The elements at odd indices. */
  function OddIndexed(s: seq<Orb>): (r: seq<Orb>)
    ensures |r| == |s| / 2
  {
    seq(|s| / 2, i requires 0 <= i < |s| / 2 => s[2 * i + 1])
  }

  /**
   * The n successive splices remove the orbs at live indices 0, 2, 4, ...,
   * 2n-2 and keep those at 1, 3, ..., 2n-1, whatever cells they stand on:
   * the orbs removed are the front of the list, not the colliding ones.
   */
  lemma {:induction false} DropFrontShape(s: seq<Orb>, n: nat)
    requires 2 * n <= |s|
    ensures DropFront(s, n) == OddIndexed(s[..2 * n]) + s[2 * n..]
  {
    if n > 0 {
      DropFrontShape(s, n - 1);
      var prev := DropFront(s, n - 1);
      var a := OddIndexed(s[..2 * (n - 1)]);
      assert prev == a + s[2 * (n - 1)..];
      assert |a| == n - 1;
      assert prev[n - 1] == s[2 * n - 2];
      var r := SpliceDelete(prev, n - 1);
      assert r == a + s[2 * n - 1..];
      assert OddIndexed(s[..2 * n]) == a + [s[2 * n - 1]];
      assert s[2 * n - 1..] == [s[2 * n - 1]] + s[2 * n..];
    }
  }

  /**
   * An instance of `mergeWhenLessThan4`'s list surgery on the live list
   * [a, b, c] where b and c collide, b is the oldest and c (index 0 among
   * the others) survives: the dead-orb loop removes both b and c, and the
   * final splice at b's group index 0 overwrites the bystander a with the
   * merged orb.
   */
  lemma MergeOverwritesBystander(a: Orb, b: Orb, c: Orb, merged: Orb)
    requires DistinctHandles([a, b, c])
    ensures RemoveDead([a, b, c], [b, c], 0) == DeadLoop(true, [a], [b, c])
    ensures SpliceReplace([a], IndexOf([b, c], b) as nat, merged) == [merged]
  {
    assert a.handle != b.handle && a.handle != c.handle && b.handle != c.handle by {
      assert [a, b, c][0] == a && [a, b, c][1] == b && [a, b, c][2] == c;
    }
    assert IndexOf([a, b, c], b) == 1;
    assert SpliceDelete([a, b, c], 1) == [a, c];
    assert [b, c][0] == b && [b, c][1..] == [c];
    assert IndexOf([a, c], c) == 1;
    assert SpliceDelete([a, c], 1) == [a];
    assert [c][0] == c && [c][1..] == [];
    assert RemoveDead([a], [], 0) == DeadLoop(true, [a], []);
    assert RemoveDead([a, c], [c], 0) == DeadLoop(true, [a], [c]) by {
      assert IndexOf([a, c], [c][0]) == 1;
      assert RemoveDead(SpliceDelete([a, c], 1), [c][1..], 0) == DeadLoop(true, [a], []);
      assert [[c][0]] + [] == [c];
    }
    assert RemoveDead([a, b, c], [b, c], 0) == DeadLoop(true, [a], [b, c]) by {
      assert IndexOf([a, b, c], [b, c][0]) == 1;
      assert RemoveDead(SpliceDelete([a, b, c], 1), [b, c][1..], 0) == DeadLoop(true, [a], [c]);
      assert [[b, c][0]] + [c] == [b, c];
    }
  }
}
