# Sliding-piece puzzle engine, modelled in Dafny

The game is played on a small grid, 4x4 by default. Some cells hold blockers.
There are exactly four pieces, one of each type: 0 top-left, 1 top-right,
2 bottom-left and 3 bottom-right. A swipe moves every piece one cell in the
swipe direction at the same time. A step is refused at the grid edge or onto
a blocker. Every moving piece that contends for a cell with another piece
goes back to its own cell. Collision passes repeat until one reverts
nothing, or until ten passes have run. The level is won when the pieces form
a 2x2 square with each type at its own corner, +y meaning up.

The project models these parts of the code:

- **The move resolver** (`MoveResolver`). It is one specification, `Resolve`.
  Two implementations are proved to compute it:
  - the solver's version over a type-indexed position array (`SolverMoves`);
  - live play's version over a dictionary keyed by piece (`LiveMoves`).
- **The win test.** There are two of them:
  - the solver's `CheckWinConditionInState` (`WinEvaluator`);
  - live play's `CheckWinCondition` (`Gameplay`).

  Both are proved to accept exactly the solved square.
- **The search state and the solver.** `GameState` is a value of four
  positions ordered by type, with element-wise equality and a hash
  (`GameStates`). The solver is a breadth-first search with a 75,000-dequeue
  budget (`Generator.LevelGenerator.GetShortestSolutionLength`). It is
  proved against the shortest-run specification in `Search`. `StateCount`
  shows that on a board of at most 16 cells the budget is never reached.
- **The level generator.** It makes up to 150 random placement attempts and
  keeps the first candidate whose shortest solution meets the length band.
  It also keeps the session's used-seed bookkeeping (`Generator`).
- **Live play** (`Gameplay.GameManager`):
  - loading a level's blockers and pieces;
  - a swipe, with the logical position update that ends the move animation;
  - the live win test;
  - the logical-to-cell row flip.
- **Level order and the level-select screen** (`LevelSelection`):
  - a level's number taken from its file name;
  - the one-time sorted level list;
  - next-level and display-index lookups;
  - the lock rule of the level buttons.
- **Progression** (`Progression.ProgressionStore`): best star ratings and
  unlock flags kept in the player-preferences store, modelled as a
  `map<string, int>` field. Also the name of the level after a given one,
  built with C#'s `int.TryParse` and `ToString("D2")` (`Numerals`).

Inputs the code takes from outside become parameters. These are the
Unity and System random streams, whether a cell prefab is assigned, the
loaded level asset, the level asset names, and the element hash of
`Vector2Int`.

## Model

| member | source | states |
|---|---|---|
| Geometry.Dir.Delta | Assets/Scripts/LevelGenerator.cs:189 | each swipe direction is a unit vector |
| Geometry.Wrap32 | Assets/Scripts/LevelGenerator.cs:292 | C#'s unchecked `int` addition: the result is a 32-bit value congruent to the exact sum modulo 2^32, and equal to it when it fits |
| Geometry.RemoveAt | Assets/Scripts/LevelGenerator.cs:317 | `List.RemoveAt(i)`: one element shorter, order kept, exactly the element at i removed from the multiset |
| Geometry.RemoveAtDistinct | Assets/Scripts/LevelGenerator.cs:310-318 | removing a cell from a duplicate-free cell list leaves a duplicate-free list without that cell and with nothing new |
| MoveResolver.ClaimantsBelowSpec | Assets/Scripts/LevelGenerator.cs:233-243 | the landing list built over the first n pieces holds exactly the indices below n that aim at the cell, ascending and without repeats |
| MoveResolver.ClaimantsSpec | Assets/Scripts/LevelGenerator.cs:233-243 | the full landing list of a cell holds exactly the pieces aiming at it, in index order |
| MoveResolver.NoClaimantsBelow | Assets/Scripts/LevelGenerator.cs:239-240 | a cell that none of the pieces seen so far aims at has no landing list yet |
| MoveResolver.ContestedIff | Assets/Scripts/LevelGenerator.cs:253 | a landing list longer than one means two different pieces aim at the cell, and conversely |
| MoveResolver.PartialPassStart | Assets/Scripts/LevelGenerator.cs:245-268 | before any piece is visited, the pass has changed nothing |
| MoveResolver.PartialPassEnd | Assets/Scripts/LevelGenerator.cs:245-268 | after every piece is visited, the in-place pass equals the order-free pass `PassStep`: every moving piece aiming at a contested cell is back at its own cell |
| MoveResolver.PartialPassContested | Assets/Scripts/LevelGenerator.cs:250-266 | visiting a moving piece whose cell is contested sends every claimant of that cell back to its own cell and leaves the others alone |
| MoveResolver.PartialPassSkip | Assets/Scripts/LevelGenerator.cs:250-253 | visiting a piece that is not moving, or whose cell is not contested, changes nothing |
| MoveResolver.PartialPassDiffers | Assets/Scripts/LevelGenerator.cs:261-264 | a pass has reverted something after visit i exactly when it had before or visit i reverted something |
| MoveResolver.Tentative | Assets/Scripts/LevelGenerator.cs:209-224 | before any pass, each piece aims at its own cell or one step along the swipe onto an in-grid cell free of blockers |
| MoveResolver.PassStep | Assets/Scripts/LevelGenerator.cs:233-268 | a collision pass only ever sends a piece back to its own cell, never anywhere else |
| MoveResolver.Settle | Assets/Scripts/LevelGenerator.cs:226-270 | after the passes, every piece is at its own cell or at the target it had before them |
| MoveResolver.Resolve | Assets/Scripts/LevelGenerator.cs:209-270 | in a successor every piece either stays where it is or moves exactly one step along the swipe onto an in-grid cell free of blockers; so a piece whose step is refused does not move |
| MoveResolver.SettleKeepsReverted | Assets/Scripts/LevelGenerator.cs:245-268 | a piece back at its own cell stays there in every later pass |
| MoveResolver.ResolveContendersRevert | Assets/Scripts/LevelGenerator.cs:245-268 | two pieces with the same tentative target both end at their own cells: no piece wins a contest, whether the other claimant moves or stays |
| MoveResolver.MoversShrink | Assets/Scripts/LevelGenerator.cs:245-268 | when the moving pieces of one position are among those of another, there are no more of them, and strictly fewer when one is dropped |
| MoveResolver.PassStepShrinks | Assets/Scripts/LevelGenerator.cs:245-268 | a pass never starts a piece moving, and a pass that changes something stops at least one |
| MoveResolver.SettleReachesStable | Assets/Scripts/LevelGenerator.cs:229-270 | with more passes allowed than moving pieces, the loop ends on a pass that reverted nothing |
| MoveResolver.ResolveIsStable | Assets/Scripts/LevelGenerator.cs:270 | with fewer than ten pieces the pass cap never binds: the successor is a position that one more pass would not change |
| MoveResolver.StableContestedStays | Assets/Scripts/LevelGenerator.cs:245-268 | in a settled position any piece on a contested cell is a piece that did not move |
| MoveResolver.StableIsDistinct | Assets/Scripts/LevelGenerator.cs:226-270 | when a pass reverts nothing, pieces that started on distinct cells end on distinct cells |
| MoveResolver.ResolvePreservesValid | Assets/Scripts/LevelGenerator.cs:209-270 | a swipe keeps the pieces on distinct in-grid cells free of blockers |
| Sorting.SortBy | Assets/Scripts/LevelGenerator.cs:342 | `List.Sort` by an integer key: a permutation of the input, in non-decreasing key order |
| Sorting.SortByKeys | Assets/Scripts/LevelGenerator.cs:342 | sorting keeps the multiset of keys |
| Sorting.SortedOnePerType | Assets/Scripts/LevelGenerator.cs:342 | four ascending types that are 0, 1, 2, 3 in some order are 0, 1, 2, 3 |
| Sorting.SortByOnePerKey | Assets/Scripts/LevelGenerator.cs:342 | sorting pieces holding one of each type 0..3 puts type t at index t, and every piece at the index of its type |
| LevelModel.NewLevelData | Assets/Scripts/LevelData.cs:18-31 | a new level record has a 4x4 grid and empty blocker and piece lists |
| LevelModel.SortByTypeIndexes | Assets/Scripts/LevelGenerator.cs:342 | with one piece per type, the type-sorted list has four pieces, type t at index t, and each piece at the index of its type |
| WinEvaluator.BoundsFrom | Assets/Scripts/LevelGenerator.cs:125-142 | the min/max loop yields a box that contains every position, and each side of the box is attained by some position or is the starting value |
| WinEvaluator.CheckWinConditionInState | Assets/Scripts/LevelGenerator.cs:115-118 | the test is false unless there are exactly four positions |
| WinEvaluator.CornersFromFour | Assets/Scripts/LevelGenerator.cs:148-171 | corner flag t is set exactly when position t lies in the box at type t's corner |
| WinEvaluator.WinIffSquare | Assets/Scripts/LevelGenerator.cs:115-174 | for 32-bit positions, the test is true exactly when indices 0, 1, 2, 3 sit at (x, y+1), (x+1, y+1), (x, y), (x+1, y) for some (x, y) |
| WinEvaluator.SquareBounds | Assets/Scripts/LevelGenerator.cs:125-144 | a winning square's box runs from the top-left piece's x to one more, and from one below its y to its y |
| GameStates.FromPieces | Assets/Scripts/LevelGenerator.cs:45-63 | the list constructor fails with ArgumentException unless it is given exactly four pieces, and otherwise holds four positions |
| GameStates.FromPiecesOrdersByType | Assets/Scripts/LevelGenerator.cs:45-63 | with one piece per type, the state holds each piece's position at the index of its type |
| GameStates.EqualsFrom | Assets/Scripts/LevelGenerator.cs:76-82 | the element loop of `Equals` succeeds from index i exactly when the suffixes from i are equal |
| GameStates.StateEquals | Assets/Scripts/LevelGenerator.cs:71-83 | `Equals` holds exactly when the two states are equal values, which the visited set relies on |
| GameStates.EqualStatesHashEqual | Assets/Scripts/LevelGenerator.cs:85-93 | states that `Equals` calls equal get equal hash codes (17, then times 31 plus the element hash), for any element hash |
| Search.ShortestUnique | Assets/Scripts/LevelGenerator.cs:176-282 | a shortest solution length is unique, and it exists only for a solvable state |
| Search.WinningStartIsZero | Assets/Scripts/LevelGenerator.cs:198-203 | a state that already wins has shortest solution length 0, and only such a state does |
| Search.RunStaysIn | Assets/Scripts/LevelGenerator.cs:205-279 | every run of swipes from a state in a set closed under swipes stays in the set |
| Search.LevelExpanded | Assets/Scripts/LevelGenerator.cs:191-203 | once the queue front is one level deeper, every run of at most L swipes ends in an expanded state |
| Search.InvInit | Assets/Scripts/LevelGenerator.cs:180-184 | the queue holding only the start state at distance 0 satisfies the search invariant |
| Search.BandedAdvance | Assets/Scripts/LevelGenerator.cs:198-200 | once the queue front sits at distance L + 1, every queued state is at distance at least L + 1 |
| Search.CoveredAdvance | Assets/Scripts/LevelGenerator.cs:191-203 | when every run of at most L swipes ends in an expanded state and expansion closed the visited set, every run of L + 1 swipes ends in a visited state |
| Search.InvAdvance | Assets/Scripts/LevelGenerator.cs:198-200 | when the queue front is at distance L + 1, the invariant holds at level L + 1 |
| Search.TailKeeps | Assets/Scripts/LevelGenerator.cs:198 | the queue without its front keeps its distance order and its path witnesses |
| Search.InvDequeue | Assets/Scripts/LevelGenerator.cs:198-203 | dequeuing a front state that does not win marks it expanded |
| Search.QueuedAfterSnoc | Assets/Scripts/LevelGenerator.cs:274-278 | queuing an unvisited state at the next distance and marking it visited keeps the old queue a prefix, the visited set equal to the old one plus the newly queued states, and one new visited state per new queue entry |
| Search.InvExpandDirection | Assets/Scripts/LevelGenerator.cs:272-278 | one direction of the inner loop, queued when new and skipped when seen, keeps the search invariant and the queue's growth as described |
| Search.InvSeen | Assets/Scripts/LevelGenerator.cs:274 | a successor that was already visited is skipped without breaking the invariant |
| Search.SnocKeeps | Assets/Scripts/LevelGenerator.cs:274-278 | queuing a state that no run of L or fewer swipes reaches, at distance L + 1, keeps the distance order and the witnesses |
| Search.SnocBanded | Assets/Scripts/LevelGenerator.cs:274-278 | a state queued at distance L + 1 keeps the queue's distances within L and L + 1 and non-decreasing |
| Search.SnocWitnessed | Assets/Scripts/LevelGenerator.cs:274-278 | a new state queued with a run that reaches it keeps every queued state paired with a run of its distance |
| Search.SnocUnreached | Assets/Scripts/LevelGenerator.cs:274-278 | a state no run of L or fewer swipes reaches, queued at L + 1, keeps every queued distance a shortest one |
| Search.InvEnqueue | Assets/Scripts/LevelGenerator.cs:274-278 | a new successor is marked visited and queued at distance L + 1 with a witnessing run |
| Search.InvWin | Assets/Scripts/LevelGenerator.cs:202-203 | a winning front state at distance L means L is the shortest solution length |
| Search.InvExhausted | Assets/Scripts/LevelGenerator.cs:191-281 | an empty queue means no run of swipes reaches a win |
| Search.QStatesCard | Assets/Scripts/LevelGenerator.cs:180 | a queue holds at most as many distinct states as it has entries |
| Search.FrontNotExpanded | Assets/Scripts/LevelGenerator.cs:198-199 | when visited states number exactly the expanded ones plus the queue entries, the dequeued state was not expanded before |
| Search.ExploreFront | Assets/Scripts/LevelGenerator.cs:193-203 | each dequeue of a non-winning state adds one new reachable non-winning state to the expanded ones and keeps visited = expanded + queued without overlap |
| Search.ExploredWithinReachable | Assets/Scripts/LevelGenerator.cs:191-197 | the expanded states are never more than the reachable ones, so a level with fewer than 75,000 reachable states never hits the budget |
| StateCount.RunKeepsPlaced | Assets/Scripts/LevelGenerator.cs:205-279 | every run of swipes from four pieces on distinct free in-grid cells keeps them so |
| StateCount.StateCodeRange | Assets/Scripts/LevelGenerator.cs:8-9 | a well-placed state's number, its four cell numbers as base width*height digits, lies below (width*height)^4 |
| StateCount.StateCodeInjective | Assets/Scripts/LevelGenerator.cs:65-93 | two well-placed states with the same number are the same state |
| StateCount.CodesCard | Assets/Scripts/LevelGenerator.cs:181 | a set of well-placed states has exactly as many numbers as states |
| StateCount.PlacedStatesCount | Assets/Scripts/LevelGenerator.cs:8-9 | a board of width x height holds at most (width*height)^4 well-placed states |
| StateCount.ReachableStatesFew | Assets/Scripts/LevelGenerator.cs:186-197 | on a board of at most 16 cells, such as the default 4 x 4, a well-placed start reaches at most 65,536 states, fewer than the 75,000-dequeue budget |
| SolverMoves.LandingSpots | Assets/Scripts/LevelGenerator.cs:233-243 | the landing dictionary maps every intended cell, and only those, to the pieces aiming at it, in index order |
| SolverMoves.RevertAll | Assets/Scripts/LevelGenerator.cs:255-266 | every listed piece is back at its current cell, the others are untouched, and the flag is set exactly when the array changed |
| SolverMoves.VisitPiece | Assets/Scripts/LevelGenerator.cs:247-267 | one visit of the second loop advances the array by one step of the in-place pass, and reports whether it changed anything |
| SolverMoves.ResolutionPass | Assets/Scripts/LevelGenerator.cs:231-268 | one pass rewrites the array to `PassStep` of it and reports whether anything was reverted |
| SolverMoves.TentativeTargets | Assets/Scripts/LevelGenerator.cs:209-224 | the fresh array holds each piece's one-step target, or its current cell when the step leaves the grid or hits a blocker |
| SolverMoves.Successor | Assets/Scripts/LevelGenerator.cs:209-272 | the solver's successor computation equals `Resolve` |
| Generator.UnityRange | Assets/Scripts/LevelGenerator.cs:308-336 | `Random.Range(lo, hi)` lies in lo..hi-1, is lo when lo == hi, and lies in hi..lo-1 when the bounds are reversed |
| Generator.NextSeedValue | Assets/Scripts/LevelGenerator.cs:24 | `Next(int.MinValue, int.MaxValue)` is a 32-bit value below int.MaxValue |
| Generator.FromSortedPieces | Assets/Scripts/LevelGenerator.cs:342-343 | pieces already ordered by type give the solver the state of their positions in list order |
| Generator.PermutedPlacement | Assets/Scripts/LevelGenerator.cs:342 | reordering validly placed distinct pieces keeps them validly placed |
| Generator.SortedPlacement | Assets/Scripts/LevelGenerator.cs:342 | sorting validly placed pieces, one per type, keeps them validly placed with type t at index t |
| Generator.AssembledShape | Assets/Scripts/LevelGenerator.cs:294-342 | an attempt's record has the input seed and name, the generator's grid size, distinct in-grid blockers (min..max of them when 0 <= min <= max), and one piece per type, type t at index t, on distinct free in-grid cells |
| Generator.PlaceBlockers | Assets/Scripts/LevelGenerator.cs:308-318 | the blockers are distinct in-grid cells, none still available; the cells are only moved, never lost (the available and blocker lists together are the old available list as a multiset); there are exactly `count` of them, or every cell when fewer are available, and none for a negative count |
| Generator.ShuffleTypes | Assets/Scripts/LevelGenerator.cs:321-329 | the shuffled type list is a permutation of 0, 1, 2, 3 |
| Generator.PlacePieces | Assets/Scripts/LevelGenerator.cs:331-340 | all four pieces are placed exactly when at least four cells are available; then piece i has type i of the shuffle, and the pieces sit on distinct available in-grid cells free of blockers |
| Generator.ColumnMajorIndex | Assets/Scripts/LevelGenerator.cs:302-306 | the cell added for column x and row y sits at index x * height + y |
| Generator.AvailableCells | Assets/Scripts/LevelGenerator.cs:300-306 | the candidate cell list holds every grid cell exactly once, width * height cells, column by column: index k holds (k / height, k % height) |
| Generator.LevelGenerator.constructor | Assets/Scripts/LevelGenerator.cs:8-14 | a 4x4 grid, 3 to 4 blockers, and no seed used yet |
| Generator.LevelGenerator.RequestNewUnusedSeed | Assets/Scripts/LevelGenerator.cs:16-34 | the returned seed is the last draw and joins the used set; every earlier draw of the call was used already; a used seed comes back only after 1001 draws |
| Generator.LevelGenerator.MarkSeedAsUsed | Assets/Scripts/LevelGenerator.cs:36-39 | the seed joins the used set and nothing else changes |
| Generator.LevelGenerator.GetShortestSolutionLength | Assets/Scripts/LevelGenerator.cs:176-282 | fails unless there are four pieces; otherwise the result is -1 or the shortest solution length; a level that already wins gets 0; without the budget cut-off it is -1 exactly for unsolvable levels; the cut-off happens only after 75,000 distinct reachable non-winning states were expanded |
| Generator.LevelGenerator.ExpandState | Assets/Scripts/LevelGenerator.cs:205-279 | generating the four successors of the dequeued state keeps the search invariant; the old queue stays a prefix, at most four states are appended, each new and at the next distance, and the visited set grows by exactly those, one per appended entry |
| Generator.LevelGenerator.BuildCandidate | Assets/Scripts/LevelGenerator.cs:292-342 | an attempt that places all four pieces yields a record of the candidate shape (see AssembledShape); on a non-empty grid whose blocker band leaves at least four free cells, every attempt yields a candidate |
| Generator.LevelGenerator.ScoreCandidate | Assets/Scripts/LevelGenerator.cs:343-351 | an accepted candidate has a shortest solution length inside the band; a rejection without the budget cut-off means no shortest length is inside the band; the cut-off rejects, comes only after 75,000 distinct reachable non-winning states, and never happens for a well-placed start on a board of at most 16 cells |
| Generator.LevelGenerator.GenerateLevel | Assets/Scripts/LevelGenerator.cs:284-357 | a returned level has the candidate shape and a shortest solution length inside the band; a band with a set minimum above its maximum returns nothing |
| LiveMoves.LandingSpotsOf | Assets/Scripts/GameManager.cs:344-355 | the landing dictionary maps each intended cell to the pieces aiming at it, in list order |
| LiveMoves.RevertConflicting | Assets/Scripts/GameManager.cs:370-381 | every conflicting piece's entry is back at its current cell, other entries are untouched, and the flag reports a change |
| LiveMoves.VisitMovable | Assets/Scripts/GameManager.cs:357-384 | one visit of the second loop advances the dictionary by one step of the in-place pass |
| LiveMoves.CollisionPass | Assets/Scripts/GameManager.cs:342-384 | one pass rewrites the dictionary to `PassStep` of it and reports whether anything was reverted |
| LiveMoves.IntendedTargets | Assets/Scripts/GameManager.cs:319-335 | each piece's entry is its one-step target, or its current cell when the step leaves the grid or hits a blocker |
| LiveMoves.ResolveLiveMove | Assets/Scripts/GameManager.cs:319-386 | live play's resolution equals `Resolve`, the same successor the solver computes |
| Gameplay.LogicalToCellGridPosition | Assets/Scripts/GameManager.cs:192-195 | the row flip keeps the column and keeps a row inside 0..height - 1 exactly when it was inside |
| Gameplay.CellMapping | Assets/Scripts/GameManager.cs:192-195 | the row flip is its own inverse and maps grid cells exactly onto grid cells |
| Gameplay.InGridPiecesCount | Assets/Scripts/GameManager.cs:265-284 | the kept pieces are exactly the on-grid ones, each as often as it occurs |
| Gameplay.InGridPiecesAll | Assets/Scripts/GameManager.cs:265-284 | when every piece is on the grid, every piece is kept, in order |
| Gameplay.LiveWinMatchesSolver | Assets/Scripts/GameManager.cs:503-557 | on type-ordered pieces, the live win test gives the same verdict as the solver's test |
| Gameplay.LiveWinIsSquare | Assets/Scripts/GameManager.cs:503-557 | with 32-bit coordinates, the live verdict on type-ordered pieces is exactly the solved square |
| Gameplay.BoundsOrderFree | Assets/Scripts/GameManager.cs:513-533 | sorting the pieces by position leaves their bounding box unchanged |
| Gameplay.LiveWinOrderFree | Assets/Scripts/GameManager.cs:513-556 | the live verdict does not depend on the order of the piece list |
| Gameplay.GridCells | Assets/Scripts/GameManager.cs:211-239 | the cell dictionary's keys are exactly the grid's cells |
| Gameplay.CollectBlockers | Assets/Scripts/GameManager.cs:241-258 | the blocker set is exactly the level's blocker list |
| Gameplay.PiecesWithCells | Assets/Scripts/GameManager.cs:260-285 | a piece is kept, in list order, exactly when its flipped cell is in the dictionary, that is when it is on the grid |
| Gameplay.PieceBounds | Assets/Scripts/GameManager.cs:524-533 | the live min/max loop computes the pieces' bounding box |
| Gameplay.CornerFlags | Assets/Scripts/GameManager.cs:537-549 | each corner flag is set exactly when a piece of its type sits at its corner |
| Gameplay.AnyMoved | Assets/Scripts/GameManager.cs:404-431 | the scan finds a move exactly when some resolved target differs from its piece's cell |
| Gameplay.UpdateDataPositions | Assets/Scripts/GameManager.cs:445-467 | after a move each piece's logical position is its resolved target and its type is unchanged |
| Gameplay.GameManager.constructor | Assets/Scripts/GameManager.cs:18-63 | a 4x4 grid, nothing loaded, timer stopped, no move under way, empty collections |
| Gameplay.GameManager.SetupGridAndPiecesFromData | Assets/Scripts/GameManager.cs:204-312 | the grid takes the level's size; with a cell prefab, the cells are the grid, the blockers are the level's, and the pieces are the level's on-grid pieces sorted by type, so type t sits at index t for a well-formed level |
| Gameplay.GameManager.StartOrRestartLevel | Assets/Scripts/GameManager.cs:100-156 | no asset changes nothing; an asset that parses to null clears the loaded flag, so later swipes are ignored, and keeps the board; a parsed level is set up as `SetupGridAndPiecesFromData` states (grid cells, blockers, on-grid pieces by type, nothing without a cell prefab), and for a well-formed level the pieces' positions are the solver's start state; the first level waits for the how-to-play popup, any other starts its timer |
| Gameplay.GameManager.CheckWinCondition | Assets/Scripts/GameManager.cs:503-557 | reports a win exactly when there are four pieces whose bounding box is 2x2, with a piece of each type at its own corner |
| Gameplay.GameManager.HandlePlayerMoveInput | Assets/Scripts/GameManager.cs:314-501 | ignored while a move runs, the timer is stopped, or no level is loaded; otherwise the positions become `Resolve` of the old ones, types and board are kept, placements stay valid, and a win is reported exactly when some piece moved and the live test passes |
| Gameplay.LoadedPieces | Assets/Scripts/GameManager.cs:260-287 | the loaded list is sorted by type; with one on-grid piece per type, index t holds type t |
| Gameplay.LoadedIsSolverStart | Assets/Scripts/GameManager.cs:260-287 | with one piece per type, all on the grid, the loaded list holds at index t the position the solver's start state gives type t |
| Gameplay.StartHoldsPiece | Assets/Scripts/LevelGenerator.cs:45-63 | with one piece per type, the start state gives each piece's type the piece's position |
| Numerals.Digits | Assets/Scripts/LevelSelectionManager.cs:35 | the decimal form of a number has at least one character, all ASCII digits |
| Numerals.DigitsRoundTrip | Assets/Scripts/LevelSelectionManager.cs:35 | reading back the decimal form of n gives n |
| Numerals.PadLeft | Assets/Scripts/LevelProgressionManager.cs:46 | zero-padding reaches the width, never shortens and keeps a digit string a digit string |
| Numerals.PadLeftValue | Assets/Scripts/LevelProgressionManager.cs:46 | zero-padding keeps the value of a digit string |
| Numerals.FormatD2 | Assets/Scripts/LevelProgressionManager.cs:46 | `ToString("D2")` has at least two characters: all digits for a non-negative value, a minus sign then digits for a negative one |
| Numerals.TryParseInt | Assets/Scripts/LevelProgressionManager.cs:43 | a successful parse gives a 32-bit value |
| Numerals.FormatD2NonNegative | Assets/Scripts/LevelProgressionManager.cs:43-46 | a non-negative 32-bit value formats as at least two digits that `int.TryParse` reads back as the value |
| Numerals.FormatD2Negative | Assets/Scripts/LevelProgressionManager.cs:43-46 | a negative 32-bit value formats as a minus sign and at least two digits that `int.TryParse` reads back as the value |
| Numerals.ParseFormatD2 | Assets/Scripts/LevelProgressionManager.cs:43-46 | `ToString("D2")` of a 32-bit value has at least two characters, all digits except a leading minus sign, and `int.TryParse` reads it back as the value |
| Numerals.ParseDigits | Assets/Scripts/LevelSelectionManager.cs:117 | a non-empty digit string parses to its value when that fits an `int`, and fails otherwise |
| Progression.KeysDistinct | Assets/Scripts/LevelProgressionManager.cs:5-6 | rating keys and unlock keys never collide, and each key names exactly one level |
| Progression.Split | Assets/Scripts/LevelProgressionManager.cs:41 | `Split('_')` gives at least one piece, and no piece contains the separator |
| Progression.JoinSplit | Assets/Scripts/LevelProgressionManager.cs:41 | joining the pieces back with the separator gives the original name |
| Progression.SplitNone | Assets/Scripts/LevelProgressionManager.cs:41 | a name without the separator is a single piece |
| Progression.SplitTwo | Assets/Scripts/LevelProgressionManager.cs:41-43 | two separator-free pieces around one separator split back into those two |
| Progression.NextLevelName | Assets/Scripts/LevelProgressionManager.cs:39-49 | a name has a next level only when it splits at '_' into exactly two pieces that rebuild the name, the second a valid `int`; the next level is the first piece, '_', and that number plus one (wrapping) in "D2" form |
| Progression.SplitPair | Assets/Scripts/LevelProgressionManager.cs:41-43 | a name that splits into two pieces is those pieces around the separator |
| Progression.NextLevelNameOf | Assets/Scripts/LevelProgressionManager.cs:39-49 | conversely, every name of two separator-free pieces around '_' whose second piece parses as an `int` has that next level |
| Progression.NextLevelNameOfD2 | Assets/Scripts/LevelProgressionManager.cs:39-49 | for `P_N` with N a 32-bit number written in "D2" form, the next level is `P_` followed by N + 1 (wrapping) written with at least two digits |
| Progression.ProgressionStore.GetStarRating | Assets/Scripts/LevelProgressionManager.cs:20-23 | a level never rated reads 0, and a rating in a valid store is 0..3 |
| Progression.ProgressionStore.IsLevelUnlocked | Assets/Scripts/LevelProgressionManager.cs:31-37 | a name ending in "01" is always open; any other level is open exactly when its unlock entry is 1 |
| Progression.ProgressionStore.SetStarRating | Assets/Scripts/LevelProgressionManager.cs:8-18 | values outside 0..3 are ignored; a rating is stored only when it beats the old one; no rating ever drops, unlock state is untouched, and every stored rating stays in 0..3 |
| Progression.ProgressionStore.UnlockLevel | Assets/Scripts/LevelProgressionManager.cs:25-37 | the flag is set to 1, that level, and only it, becomes unlocked, and ratings are untouched |
| Progression.ProgressionStore.UnlockNextLevel | Assets/Scripts/LevelProgressionManager.cs:39-49 | a name with a next level sets that level's flag; any other name changes nothing |
| Progression.ProgressionStore.ResetAllProgression | Assets/Scripts/LevelProgressionManager.cs:31-56 | afterwards every rating reads 0, and exactly the levels whose names end in "01" are unlocked |
| LevelSelection.SkipNonDigits | Assets/Scripts/LevelSelectionManager.cs:113 | the scan stops at the first digit at or after i, or at the end |
| LevelSelection.SkipDigits | Assets/Scripts/LevelSelectionManager.cs:113 | the scan stops at the first non-digit at or after i, or at the end |
| LevelSelection.GetLevelNumberFromName | Assets/Scripts/LevelSelectionManager.cs:108-122 | the number is in 0..int.MaxValue, and it is int.MaxValue for an empty name or a name without digits |
| LevelSelection.LevelNumberOfFirstRun | Assets/Scripts/LevelSelectionManager.cs:113-121 | the number is the value of the first maximal digit run when that fits an `int`, and int.MaxValue otherwise |
| LevelSelection.LevelNumberOf | Assets/Scripts/LevelSelectionManager.cs:108-122 | "Level_07", "Level_07_hard" and "stage07" are all level 7 |
| LevelSelection.SortedEntries | Assets/Scripts/LevelSelectionManager.cs:90-103 | the names of the sorted pairs are a permutation of the loaded names in non-decreasing level-number order |
| LevelSelection.BuildEntries | Assets/Scripts/LevelSelectionManager.cs:90-98 | the first loop builds one (number, name) pair per loaded name, in order |
| LevelSelection.NamesOf | Assets/Scripts/LevelSelectionManager.cs:102-103 | the second loop lists the names of the pairs, in order |
| LevelSelection.IndexOf | Assets/Scripts/LevelSelectionManager.cs:131 | `List.IndexOf` is -1 exactly for an absent name, and otherwise the first position holding it |
| LevelSelection.IndexBeforeLast | Assets/Scripts/LevelSelectionManager.cs:131-134 | the first listing is before the last entry exactly when the name is listed before the last entry |
| LevelSelection.SetUpButton | Assets/Scripts/LevelSelectionManager.cs:32-66 | button i shows "Level i+1", the level's key and rating; it is locked exactly when it is not the first level, the previous level has no stars, and the level was not unlocked; an unlocked button's level becomes unlocked in the store, and nothing else changes |
| LevelSelection.SetUpButtons | Assets/Scripts/LevelSelectionManager.cs:32-68 | one button per level, the first never locked, each later one locked exactly by the lock rule; the store gains exactly the unlock flags of the unlocked buttons, and ratings are untouched |
| LevelSelection.SetUpSoFarStep | Assets/Scripts/LevelSelectionManager.cs:32-68 | one more button keeps the loop's invariant: every button labelled, rated and locked by the lock rule, ratings unchanged, and the open levels those open before plus the open buttons' levels |
| LevelSelection.LabelledStep | Assets/Scripts/LevelSelectionManager.cs:34-66 | one more button keeps every button showing its number, its level's key and its rating |
| LevelSelection.LockedSoFarStep | Assets/Scripts/LevelSelectionManager.cs:48-64 | one more button keeps the first button open and every later one locked by the lock rule |
| LevelSelection.OpenStep | Assets/Scripts/LevelSelectionManager.cs:52-61 | after one more button, the open levels are those open before plus that button's level when it is open |
| LevelSelection.LockedStep | Assets/Scripts/LevelSelectionManager.cs:55-63 | the button just set up is locked exactly as the lock rule says |
| LevelSelection.LockedWhenDistinct | Assets/Scripts/LevelSelectionManager.cs:55-63 | with distinct file names, a later level is locked exactly when the previous level has no stars and the level was not unlocked before |
| LevelSelection.LevelSelectionManager.constructor | Assets/Scripts/LevelSelectionManager.cs:14-15 | an empty level list, not yet built |
| LevelSelection.LevelSelectionManager.EnsureLevelOrderInitialized | Assets/Scripts/LevelSelectionManager.cs:71-106 | the list is built only once: an already built list is kept; otherwise it becomes a permutation of the loaded names in level-number order |
| LevelSelection.LevelSelectionManager.GetNextLevelInSequence | Assets/Scripts/LevelSelectionManager.cs:124-137 | the result is the entry after the first listing of the name; there is none exactly when the list is empty or the name is not listed before the last entry |
| LevelSelection.LevelSelectionManager.GetDisplayIndexOfLevel | Assets/Scripts/LevelSelectionManager.cs:139-147 | -1 exactly when the name is not listed (an empty list included), otherwise its first position |
| LevelSelection.LevelSelectionManager.PopulateLevels | Assets/Scripts/LevelSelectionManager.cs:22-69 | builds the order if needed; one button per level with its key; the first is unlocked; a locked button follows a level without stars; an unlocked button's level is unlocked in the store; ratings are untouched |

## Left out

- Rendering, animation, prefabs, sprites and UI:
  - cell and piece layout (`CalculateCellCenterAnchoredPosition`);
  - the lerp loop of `MovePiecesCoroutine`;
  - reparenting and cell occupants;
  - button instantiation and destruction;
  - `ShowHowToPlay`, `UIManager`, `LevelButton`, `Cell`, `Movable` and `PlayerInput`.

  They are float geometry and engine objects.
- The timer, `Update`, `CalculateStars`, `HandleLevelWin` and `HandleLevelFail_TimeUp`. They are float time thresholds and UI flow. A win is reported as the `won` result of `CheckWinCondition` and `HandlePlayerMoveInput` instead of being acted on.
- Gameplay.GameManager.HandlePlayerMoveInput: treats a move as atomic. In the code the timer can run out while `MovePiecesCoroutine` animates (`Update` clears `timerIsRunning`, GameManager.cs:89-95), and then no win test runs after the move (GameManager.cs:499-500). The model runs the win test whenever the timer was running when the swipe arrived.
- Gameplay.GameManager.StartOrRestartLevel: assumes the UI manager exists, so that the how-to-play popup of the first level stops the timer and holds input. The popup's own effects are not modelled. Whether the level is the first in play order is an `isFirstLevel` parameter.
- Loading and saving: JSON parsing, `Resources.Load`/`LoadAll`, `SaveLevelToJson` and `PlayerPrefs.Save`. These are I/O. The outcome of loading the level asset is a `LevelAsset` parameter (no asset, an asset that parses to null, or a level), and the level asset names are a `seq<string>` parameter. Null and empty asset arrays are both the empty sequence.
- The editor tool that calls `GenerateLevel` and its band clamp. `GenerateLevel` accepts any band, as the method itself does.
- The engine's random number generators. `UnityEngine.Random` after `InitState` is a function from (seed, call number) to a raw draw. `System.Random` is a stream of raw draws. Their distributions and algorithms are not modelled.
- Generator.UnityRange: reduces a raw draw modulo the width of the range. It does not claim to be bit-for-bit Unity's mapping from its state to a value.
- Generator.LevelGenerator.GenerateLevel: does not state that a `null` result means all 150 attempts were rejected. It states the properties of what it returns and that an empty band returns nothing.
- Generator.LevelGenerator.GetShortestSolutionLength: when the budget cut-off is hit, -1 is not claimed to mean unsolvable, as in the source. The cut-off is reported by a ghost flag, which is set only together with the 75,000 distinct reachable non-winning states expanded before it.
- `Vector2Int.GetHashCode` is a parameter. The 32-bit overflow of the hash sum is not modelled: hashes are compared only for equality.
- Integer coordinates are unbounded. Where 32-bit range matters, as in the win tests' `int.MaxValue`/`int.MinValue` starting values, lemmas require 32-bit coordinates. `inputSeed + currentAttempt` and the next level number wrap explicitly (`Wrap32`).
- The sort of the pieces by (x, y) in the live win test, and its `Find` lookup, are not executed step by step. The `Find` returns the piece it was given. `LiveWinOrderFree` proves that the verdict does not depend on the list order, so the verdict is computed on the type-ordered list.
- `List.Sort` is unstable; the model sorts with a stable insertion sort. Only one contract depends on the order of equal keys. `FromPieces` keeps the input order of pieces of the same type, so on a malformed level with two pieces of one type, `GetShortestSolutionLength` is stated for that stable order, while the source's order of such ties is unspecified. A level with one piece per type, which the generator always builds, has no ties.
- A piece (a `Movable` reference) is identified by its index in the type-sorted piece list.
- Null checks on the level's lists, on `levelButtonScript` and on assets are not modelled. Collections in the model are never null.
- `\d` and `int.TryParse` are modelled over ASCII digits only. Culture settings, surrounding whitespace, thousands separators and non-ASCII Unicode digits are not modelled. `EndsWith` is an ordinal character comparison.
- PlayerPrefs is modelled as its integer entries only. Float and string entries, and the warning `ResetAllProgression` logs, are not modelled.
- LevelSelection.SetUpButtons: does not restate that every rating stays in 0..3. It states that no rating changes at all.
- LevelSelection.LevelSelectionManager.PopulateLevels: states the lock rule in its one-directional form. The exact rule, for every button, is stated on `SetUpButtons`, which `PopulateLevels` runs on the level list.

Where the intended behaviour and the code differ, the model follows the code:

- **The search budget.** The intended budget counts state expansions. The code counts dequeues, including the final, winning one. It gives up when the count passes 75,000.
- **Blocker placement.** As intended, the chosen number of blockers is always drawn. The code stops early when no cell is left.
- **Level-record checks.** A level record is meant to hold exactly four well-placed pieces. The code does not check this when loading. The live win test simply answers false unless four pieces are present.
- **Board dimensions.** A board with non-positive dimensions is meant to fail fast. The code has no such check.
- **Collision passes.** The intended pass reverts every claimant of every contested cell. The code handles a contested cell only when it visits a moving claimant. It reverts only claimants that are not already at their own cell. With pieces on distinct cells the two agree, and `PartialPassEnd` states the code's pass exactly.
- **One resolver or two.** A single resolver is intended. The code has two copies. The model keeps both and proves that each computes `Resolve`.
