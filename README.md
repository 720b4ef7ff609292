# react-native-orbs: a verified model of the orb engine

react-native-orbs is a two-player chain-reaction game on a square board.
Orbs stand on cells; `createOrb` places one whatever already stands there,
and a cell can hold several orbs for a while. An orb has a side
(1 or 2), a count of 1 to 4 and one proton per count, laid out on a 3x3
local grid. Clicking an orb whose count is below 4 only rearranges its
protons. Clicking an orb of count 4 or more detonates it: one new orb of
count 1 appears on every in-bounds neighbour. Then a cascade loop resolves
every cell that now holds two or more orbs:

- a cell whose counts total 4 or more detonates again;
- a smaller total merges into one orb, built from a surviving orb.

The loop stops when one side owns the whole board or no cell is shared; a
board one side owns can still have shared cells when the loop stops. The
engine (`OrbsState`, lib/OrbState.ts) returns a tree of reactions: create,
delete, move, createProton, moveProton, finishGame, grouped in sequences and
parallel groups. The UI replays that tree as animations.

This project models, in Dafny:

- The engine, as the class `OrbEngine.OrbsState`:
  - a mutable orb list;
  - the process-wide id counter (`IdGenerator`);
  - a handle counter standing for JavaScript object identity;
  - every operation, each with the same branches, the same id allocation
    order and the same exceptions as the source.
- The entities of the engine (`OrbTypes`), its slot table (`ProtonHelper`)
  and its neighbour helper (`CellHelper`).
- The cell grouping, oldest-orb, survivor and list-surgery logic of
  `checkMerges` and the two merge methods (`OrbCollisions`).
- JavaScript's `split` with a one-character separator, and its inverse
  `join` (`Text`).
- The two board-text parsers: `orbStateFromString` and `fromString`
  (`BoardText`). This includes the `initialState` fixture of
  lib/useOrbReactionRunner.ts, proved to parse to its seven placements.
- `DoneCounter` (`Completion`), the logger's category gate (`Logger`), and
  the engine helpers duplicated in components/Balls.tsx (`Balls`).

Exceptions become `Err` values of a `Result`. A read of `undefined` that
would raise a TypeError is the error `UndefinedRead`. State mutated before
a throw stays mutated, as in the source.

The model reproduces the source's behaviour even where it looks unintended:

- `mergeWhenMoreThan4` splices the live list at each orb's index within
  the group, not within the list. For a group of n orbs it removes the orbs
  at list indices 0, 2, ..., 2n-2, whatever cells they stand on, and keeps
  those at odd indices.
- `mergeWhenLessThan4` can overwrite an orb on another cell.
- `incrementOrb` leaves the detonated orb in the list.
- The runner's `to = protons.length + 1` makes `simpleIncrementOrb` read a
  missing proton.
- `orbStateFromString` compares with a three-character marker and so gives
  every placement side 2.

Lemmas exhibit each of these. The proton table and the detonation
threshold follow the code:

- count 2 is laid out as (1,0),(1,2);
- count 3 is laid out as (0,1),(2,0),(2,2);
- an orb detonates at count >= 4;
- detonated orbs take the detonating orb's side.

## Model

| member | source | states |
|---|---|---|
| ProtonHelper.Positions | lib/OrbState.ts:484-512 | defined exactly for counts 1..4 (otherwise the "Invalid count" throw); `count` pairwise-distinct slots inside the 3x3 grid; count 1 is only the centre |
| ProtonHelper.Layout | lib/OrbState.ts:484-512 | the table entry of a valid count, agreeing with `Positions` |
| CellHelper.GetNeighbors | lib/OrbState.ts:517-535 | at most four cells, each at Manhattan distance 1; in-bounds cells for an in-bounds origin |
| CellHelper.NeighborsExact | lib/OrbState.ts:517-535 | for an in-bounds cell: exactly the in-bounds orthogonal neighbours, one per open side, in the order x-1, x+1, y-1, y+1 |
| CellHelper.NeighborCounts | lib/OrbState.ts:517-535 | four neighbours inside, three on an edge, two in a corner |
| OrbTypes.FreshProtons | lib/OrbState.ts:66-71 | one proton per slot, at that slot, with consecutive increasing ids |
| OrbTypes.FindById | lib/OrbState.ts:136 | `find` by id: `None` iff no orb has the id; otherwise the first index with that id |
| OrbTypes.IndexOf | lib/OrbState.ts:390 | `indexOf` by object identity: -1 iff absent, otherwise the first index of that object |
| OrbTypes.IndexOfDistinct | lib/OrbState.ts:320 | in a list without repeated objects, the index of the i-th element is i |
| OrbTypes.SpliceDelete | lib/OrbState.ts:395 | `splice(start, 1)`: removes the element at `start`, or nothing when `start` is past the end |
| OrbTypes.SpliceReplace | lib/OrbState.ts:398 | `splice(start, 1, item)`: replaces the element at `start`, or appends `item` when `start` is past the end |
| OrbTypes.DistinctAfterDelete | lib/OrbState.ts:395 | a splice-delete never repeats an object |
| OrbTypes.DistinctAfterReplace | lib/OrbState.ts:398 | splicing in a new object never repeats an object |
| OrbTypes.BoardOkAppend | lib/OrbState.ts:73 | appending new well-formed orbs keeps the board invariant |
| OrbTypes.IsGameFinished | lib/OrbState.ts:165-167 | true iff the board is non-empty and every orb has the first orb's side (the side set has size 1) |
| OrbTypes.OneSide | lib/OrbState.ts:166 | a side set of size one means every orb has the same side |
| OrbTypes.Deletes | lib/OrbState.ts:318-326 | one delete reaction per orb, in order |
| OrbTypes.TotalAtLeast | lib/OrbState.ts:293-295 | the total count of a group is at least its size |
| OrbCollisions.OrbsAtFacts | lib/OrbState.ts:280-286 | a cell's bucket holds exactly the orbs standing on that cell |
| OrbCollisions.CellKeysFacts | lib/OrbState.ts:280-286 | each occupied cell is a key exactly once, and only occupied cells are keys |
| OrbCollisions.CellKeysOrder | lib/OrbState.ts:290 | keys come in order of first appearance in the list |
| OrbCollisions.OrbsAtDistinct | lib/OrbState.ts:285 | a bucket repeats no object |
| OrbCollisions.CellGroupsFacts | lib/OrbState.ts:278-290 | groups are non-empty, one per cell, ordered by first appearance, drawn from the list, without repeated objects |
| OrbCollisions.CellGroupsCover | lib/OrbState.ts:280-286 | every orb lies in the group of its own cell |
| OrbCollisions.GroupByCell | lib/OrbState.ts:278-290 | the grouping loop produces `CellGroups` of the list |
| OrbCollisions.Colliding | lib/OrbState.ts:291 | keeps exactly the groups of two or more orbs |
| OrbCollisions.NoCollisionIffNothingColliding | lib/OrbState.ts:290-291 | no cell is shared iff no group is left to resolve |
| OrbCollisions.Oldest | lib/OrbState.ts:333-348 | `None` only for an empty group; otherwise the oldest index: the first falsy movement id, else the first smallest movement id |
| OrbCollisions.OldestUnique | lib/OrbState.ts:333-348 | the oldest orb is unique |
| OrbCollisions.OldestOrb | lib/OrbState.ts:333-348 | the scan with early exit returns `Oldest` |
| OrbCollisions.Others | lib/OrbState.ts:355 | `filter(o => o !== oldest)`: keeps exactly the other objects |
| OrbCollisions.OthersAppend | lib/OrbState.ts:355 | the filter distributes over concatenation, so it keeps the other objects in their order |
| OrbCollisions.Smallest | lib/OrbState.ts:356-368 | the first index of minimum count; `None` iff the list is empty |
| OrbCollisions.KillerOf | lib/OrbState.ts:354-368 | the survivor is the first fewest-count orb among the others, with its index among the others |
| OrbCollisions.KillerExists | lib/OrbState.ts:354-368 | a group of two or more distinct objects has a survivor |
| OrbCollisions.RemoveDead | lib/OrbState.ts:388-396 | the dead-orb loop's result: whether it ran to the end, the live list and the removed orbs; live and dead sizes add up to the list's size, dead orbs come from the group, live orbs from the list, and no object is repeated |
| OrbCollisions.RemoveDeadAccounts | lib/OrbState.ts:388-396 | the loop loses no object: the live and dead objects together are exactly the objects of the list, as a multiset |
| OrbCollisions.RemoveDeadSparesBystanders | lib/OrbState.ts:388-396 | an orb of the list that is not in the group stays live |
| OrbCollisions.DropFront | lib/OrbState.ts:318-320 | the n successive splices keep only orbs of the list and repeat none |
| OrbCollisions.DropFrontShape | lib/OrbState.ts:318-320 | the splices remove the orbs at list indices 0, 2, ..., 2n-2 and keep the others, whatever cells they stand on |
| OrbCollisions.MergeOverwritesBystander | lib/OrbState.ts:388-398 | on [a, b, c] with b, c colliding, both die and the merged orb replaces the bystander a |
| OrbEngine.NewOrb | lib/OrbState.ts:60-72 | a laid-out orb with the command's fields, no movement id, proton ids right after the orb id |
| OrbEngine.SplitOrb | lib/OrbState.ts:213-229 | count 1, proton at the centre, ids in the order orb, proton, movement |
| OrbEngine.SplitOrbsFresh | lib/OrbState.ts:213-231 | the spawned orbs are well formed, new objects, and carry ids and handles from the counters |
| OrbEngine.MergedOrb | lib/OrbState.ts:371-386 | the survivor's id, cell and side, the total as count, a new movement id, then new protons for that total |
| OrbEngine.MergeProtonReactions | lib/OrbState.ts:411-426 | one reaction per new proton: a move where the survivor had a proton at that index, a create otherwise |
| OrbEngine.MergeKeepsTotal | lib/OrbState.ts:371-398 | a completed merge leaves an orb with the survivor's id and side whose count is the cell's total |
| OrbEngine.DeleteOrb | lib/OrbState.ts:195-207 | OrbNotFound iff no orb has the id; otherwise one delete of an orb with that id |
| OrbEngine.SimpleIncrementOrb | lib/OrbState.ts:169-193 | InvalidCount first, then OrbNotFound; UndefinedRead iff `to` exceeds the orb's protons; otherwise one parallel group moving proton i to slot i of the layout for `to` |
| OrbEngine.IncrementToNextCountThrows | lib/OrbState.ts:169-193 | on a well-formed orb below 4, incrementing to protons+1 always reads a missing proton |
| OrbEngine.OrbsState.constructor | lib/OrbState.ts:39-40 | an empty, valid board with the counter where it stands |
| OrbEngine.OrbsState.NewId | lib/OrbState.ts:31-36 | returns the counter and bumps it by one |
| OrbEngine.OrbsState.NewProtons | lib/OrbState.ts:66-71 | consecutive fresh ids, one per slot; the counter moves by the number of slots |
| OrbEngine.OrbsState.CreateOrb | lib/OrbState.ts:57-109 | InvalidCount with nothing changed; otherwise appends `NewOrb` (whatever stands on the cell), consumes 1+count ids, returns its create/createProton/moveProton sequence |
| OrbEngine.OrbsState.Initialize | lib/OrbState.ts:42-44 | Ok iff every count is valid; otherwise the first invalid count is the error, and the placements before it have been created (`Placed`) with their ids and handles consumed; on success every placement's `NewOrb` is appended in order (`Placed`), with consecutive ids and handles from the counters, and one create tree per placement; the handle counter moves by one per new orb on both paths |
| OrbEngine.PlacedOrbs | lib/OrbState.ts:42-44 | what `Placed` means orb by orb: the j-th new orb is the j-th placement's `NewOrb`, with the ids after those of the placements before it and the j-th handle |
| OrbEngine.PlacedSnoc | lib/OrbState.ts:42-44 | creating the next placement's orb extends `Placed` by one |
| OrbEngine.InitStep | lib/OrbState.ts:42-44 | one iteration of `initialize` keeps its progress: placements valid, orbs placed, counters and reactions in step |
| OrbEngine.OrbsState.RunCommand | lib/OrbState.ts:46-55 | a valid create appends the new orb and returns its create reaction, consuming 1+count ids and one handle; an invalid count is InvalidCount with the board, the id counter and the handle counter unchanged; an increment does exactly what `incrementOrb` does (`Incremented`), including its fuel cases |
| OrbEngine.OrbsState.NewSplitOrb | lib/OrbState.ts:213-229 | allocates `SplitOrb` from the counters |
| OrbEngine.SplitKeepsBoard | lib/OrbState.ts:209-231 | appending the spawned orbs to a well-formed board keeps the board invariant under the advanced counters |
| OrbEngine.OrbsState.SplitFromPos | lib/OrbState.ts:209-272 | appends one `SplitOrb` per neighbour, consuming three ids each, and returns their create/createProton/move sequence |
| OrbEngine.OrbsState.MergeWhenMoreThan4 | lib/OrbState.ts:309-331 | `Detonated`: the split from the group's cell with the oldest orb's side is appended, then the n splices at group indices; the counters move by three ids and one handle per spawned orb; the result is the group's deletes plus the split in one parallel group |
| OrbEngine.OrbsState.MergeWhenLessThan4 | lib/OrbState.ts:350-430 | each error case in source order, with the state it leaves; with a survivor and a valid total, `Merged`: the dead-orb loop, then either the splice of the merged orb at the oldest orb's group index with the deletes plus proton reactions, or CollidingOrbMissing with the dead orbs already removed |
| OrbEngine.OrbsState.MergeInto | lib/OrbState.ts:371-398 | the merged orb, the dead-orb loop and the final splice, in that order; when the loop stops early, CollidingOrbMissing with the list the loop left |
| OrbEngine.OrbsState.NewMergedOrb | lib/OrbState.ts:373-386 | allocates `MergedOrb`: the movement id before the proton ids |
| OrbEngine.OrbsState.RemoveDeadOrbs | lib/OrbState.ts:388-396 | the loop computes `RemoveDead`: whether it finished, the live list it leaves and the orbs it removed |
| OrbEngine.OrbsState.ResolveGroup | lib/OrbState.ts:293-302 | a total of 4 or more detonates (`Detonated`); a smaller total merges with that total (`Merged`); success is a single parallel group, and the only error is CollidingOrbMissing |
| OrbEngine.OrbsState.ResolveCell | lib/OrbState.ts:290-302 | a cell with fewer than two orbs gives nothing and changes nothing; a shared cell whose total is 4 or more detonates (`Detonated`), a smaller total merges (`Merged` with that total); a shared cell gives one parallel group or CollidingOrbMissing |
| OrbEngine.CellReady | lib/OrbState.ts:278-302 | every cell group of a well-formed board repeats no object and has ids below the counter and counts of at least 1, as resolving a cell requires |
| OrbEngine.OrbsState.CheckMerges | lib/OrbState.ts:277-307 | one reaction per shared cell; the only error is CollidingOrbMissing; with no shared cell, returns nothing and changes nothing |
| OrbEngine.OrbsState.Cascade | lib/OrbState.ts:147-160 | no fuel is CascadeFuelExhausted with nothing changed; a finished board gives [finishGame] and a settled unfinished board gives nothing, both with board and counters unchanged; the counters never go down; otherwise each round is a non-empty parallel group, a finishGame comes last, and the loop stops finished or with no cell shared; errors are CollidingOrbMissing or running out of fuel |
| OrbEngine.OrbsState.IncrementOrb | lib/OrbState.ts:133-163 | `Incremented`: OrbNotFound with nothing changed; below 4 the simple increment, changing nothing; at 4 or more a delete of the orb, the split, then settled cascade rounds, with the detonated orb left in the list; with no fuel, CascadeFuelExhausted on the old list plus the spawned orbs; when that board is finished, [delete, split, finishGame]; when it is unfinished with no shared cell, [delete, split]; when no round resolved a cell, the old list plus the spawned orbs; the counters move at least by the split's three ids and one handle per spawned orb; its only errors are CollidingOrbMissing and running out of fuel |
| Text.Split | lib/orbStateInitialization.ts:4 | at least one piece |
| Text.SplitPiecesFree | lib/orbStateInitialization.ts:12 | no piece contains the separator |
| Text.JoinSplit | lib/orbStateInitialization.ts:4 | joining the pieces with the separator gives back the string |
| Text.SplitJoin | lib/orbStateInitialization.ts:12 | pieces free of the separator, once joined, split back into themselves |
| Text.SplitCount | lib/orbStateInitialization.ts:12 | one piece more than there are separators |
| Text.SplitConcat | lib/orbStateInitialization.ts:12 | splitting at a separator splits both sides independently |
| Text.JoinAvoids | lib/useOrbReactionRunner.ts:331-337 | a character other than the separator occurs in a join only if it occurs in a piece |
| BoardText.ParseCount | lib/orbStateInitialization.ts:17 | `parseInt(part[1])`: a digit iff the second character is 0-9, with that digit's value; NaN otherwise |
| BoardText.KeptLines | lib/orbStateInitialization.ts:4 | never more lines than given |
| BoardText.KeptLinesMembers | lib/orbStateInitialization.ts:4 | exactly the lines containing a "\|" are kept |
| BoardText.KeptLinesAppend | lib/orbStateInitialization.ts:4 | the line filter distributes over concatenation, so kept lines keep their order |
| BoardText.ParseBoard | lib/orbStateInitialization.ts:3-28 | the nested loops produce `BoardOrbs` of the text |
| BoardText.ParseRow | lib/orbStateInitialization.ts:13-23 | the inner loop produces the placements of one line |
| BoardText.OrbStateFromString | lib/orbStateInitialization.ts:3-28 | the parse with the three-character marker, so every placement has side 2 |
| BoardText.FromString | lib/useOrbReactionRunner.ts:304-329 | the parse with the up triangle as side-1 marker |
| BoardText.RowOrbsMembers | lib/orbStateInitialization.ts:13-23 | a line yields exactly one placement per non-blank part, at that part's index |
| BoardText.RowOrbsOrdered | lib/orbStateInitialization.ts:19 | a line's placements are in row y, in increasing column order |
| BoardText.GridOrbsBound | lib/orbStateInitialization.ts:10-24 | no more placements than parts |
| BoardText.GridOrbsRowMajor | lib/orbStateInitialization.ts:10-24 | placements come in row-major order |
| BoardText.GridOrbsMembers | lib/orbStateInitialization.ts:10-24 | a placement is yielded iff a non-blank part stands at that row and column |
| BoardText.MisencodedMarkerNeverMatches | lib/orbStateInitialization.ts:16 | the three-character marker never equals a one-character string, so every side is 2 |
| BoardText.UpTriangleSide | lib/useOrbReactionRunner.ts:317 | side 1 iff the part starts with the up triangle |
| BoardText.FramedRowsKept | lib/useOrbReactionRunner.ts:331-337 | rows between an empty first and last line are exactly the kept lines |
| BoardText.InitialStateKeptLines | lib/useOrbReactionRunner.ts:331-337 | the fixture's kept lines are its five rows |
| BoardText.InitialStateParses | lib/useOrbReactionRunner.ts:331-337 | the fixture parses to its seven placements, with their cells, counts and sides |
| Completion.FiredExactly | lib/DoneCounter.ts:10-15 | after n calls the callback has fired once iff 1 <= finishCount <= n, and never otherwise |
| Completion.FiresAtMostOnce | lib/DoneCounter.ts:10-15 | the callback fires at most once |
| Completion.NeverFiresBelowOne | lib/DoneCounter.ts:10-15 | with finishCount <= 0 it never fires, so an empty parallel group never completes |
| Completion.NoFiringAfterFinish | lib/DoneCounter.ts:10-15 | once fired, later calls do not fire again |
| Completion.DoneCounter.constructor | lib/DoneCounter.ts:4-8 | a fresh counter has count 0 and has fired nothing |
| Completion.DoneCounter.Done | lib/DoneCounter.ts:10-15 | count rises by exactly one; the callback fires on the call that makes count equal finishCount, at most once in all |
| Logger.Overlaps | lib/logger.ts:3-8 | true iff some element of `a` is an element of `b` |
| Logger.Log | lib/logger.ts:10-15 | prints iff no category list is set or some ":"-segment of the key is a category |
| Logger.EmptyNeverOverlaps | lib/logger.ts:3-8 | false whenever either list is empty |
| Logger.ShowsIffSegment | lib/logger.ts:12 | under a category list, shown iff some segment of the key is a category |
| Logger.UndefinedShowsAll | lib/logger.ts:12 | without a category list every key is shown |
| Logger.OrbsErrorShown | lib/logger.ts:1-13 | with the shipped categories, "ORBS:ERROR" is printed |
| Logger.InfoApplySuppressed | lib/logger.ts:1-13 | with the shipped categories, "INFO:APPLY" is suppressed |
| Logger.WholeSegmentMatch | lib/logger.ts:5 | the segment "ORB" does not match the category "ORBS" |
| Balls.CellBallBallPositions | components/Balls.tsx:282-309 | defined exactly for counts 1..4, otherwise the "Invalid count" throw |
| Balls.SameSlotsAsEngine | components/Balls.tsx:282-309 | the same table as the engine's: `count` distinct slots in the 3x3 grid |
| Balls.GetNeighbors | components/Balls.tsx:376-393 | the pushes produce the engine's neighbour list, with all its proved properties |
| Balls.IncrementBallCount | components/Balls.tsx:311-334 | InvalidCount for `to` outside 2..4; UndefinedRead iff too few balls; Ok otherwise |
| Balls.IncrementShape | components/Balls.tsx:311-334 | `to` entries: the first `to`-1 balls in order, each sent to its slot of the layout for `to`, then one new ball in the last slot |

## Left out

- React, React Native and the animation runner of lib/useOrbReactionRunner.ts
  and lib/useOrbReactionRunner.tsx: UI code with no logic of the engine's
  own. The tree the runner replays is modelled; its playback is not.
- Floating-point pixel layout (`PhonePositionHelper`,
  `cellBallPositionInPhone`, `cellBallBallPositionInPhone`) and `Math.random`
  ball ids: not part of the game logic.
- `console.log` output of lib/logger.ts: only the print/suppress decision is
  modelled.
- The `onDone` callback of `DoneCounter`: modelled as the number of times it
  has been called, not as a closure.
- `IdGenerator` is process-wide static state. The model holds it as the
  engine field `nextId`, and the constructor is told where the counter
  stands.
- JavaScript object identity is modelled by a `handle` field on each orb.
  `indexOf` and `!==` compare handles.
- OrbEngine.OrbsState.Cascade: the source's `while (true)` loop is bounded
  by a `fuel` parameter, and running out is the error `CascadeFuelExhausted`.
  The model does not prove that the cascade terminates.
- OrbEngine.OrbsState.CheckMerges: states the number of reactions, the
  error kind and the no-collision case. It does not state that each
  reaction is a parallel group, nor the board after each cell;
  `ResolveGroup` and `ResolveCell` state, for one cell, the detonate or
  merge choice by total and the board it leaves.
- OrbEngine.OrbsState.Cascade: does not state the board after a round that
  resolved a cell; it states the rounds' shape, the settled end state and
  the unchanged board when no round ran.
- OrbEngine.OrbsState.IncrementOrb: does not state the board after a
  cascade that resolved a cell; it states the rounds' shape and the settled
  end state.
- OrbEngine.OrbsState.MergeWhenMoreThan4 and OrbEngine.OrbsState.ResolveGroup
  require a group without repeated objects; ResolveGroup also requires
  counts of at least 1 and ids below the counter. `checkMerges` only passes
  such groups, drawn from a well-formed board.
- The runtime `Invalid command` branch of `runCommand` cannot be reached
  with typed commands.
- The `No random killer` check of `mergeWhenLessThan4` cannot fire, because
  `reduce` never yields index -1.
- Strings are sequences of characters. UTF-16 surrogate pairs are not
  modelled: every marker in the source is one UTF-16 unit or a
  three-character literal.
- A `NaN` count from the parsers is carried as `ParsedCount.NaN`. It is
  not fed to the engine.
- components/Board.tsx, hooks/useAnimationCount.tsx, constants/Game.ts and
  lib/typeUtils.ts: layout, constants and type aliases only.
- Of components/Balls.tsx, only the helpers that mirror the engine are
  modelled. The component, its animations and its in-place `splice` on
  React state are not.
