/**
 * The level generator: session seed bookkeeping, the breadth-first solver
 * that scores a candidate by its shortest solution length, and the
 * attempt loop that builds random candidates and keeps the first one the
 * solver accepts.
 */
module Generator {
  import opened Geometry
  import opened Wrappers
  import opened MoveResolver
  import opened WinEvaluator
  import opened LevelModel
  import opened GameStates
  import opened Search
  import opened StateCount
  import opened SolverMoves

  const MaxSeedAttempts: nat := 1000
  const MaxBfsSearchIterations: nat := 75000
  const MaxPlacementAttemptsPerSeed: nat := 150

  /**
   * UnityEngine.Random after `InitState(seed)`: call number `k` sees the
   * raw draw `raw(seed, k)`. The engine's generator is not modelled.
   */
  type UnityRandom = (int, nat) -> nat

  /** `Random.Range(lo, hi)` for ints: `hi` exclusive, `lo` when equal, bounds swapped when reversed. */
  function UnityRange(raw: UnityRandom, seed: int, k: nat, lo: int, hi: int): (v: int)
    ensures lo < hi ==> lo <= v < hi
    ensures lo == hi ==> v == lo
    ensures hi < lo ==> hi <= v < lo
  {
    if lo < hi then lo + raw(seed, k) % (hi - lo)
    else if lo == hi then lo
    else hi + raw(seed, k) % (lo - hi)
  }

  /** `System.Random.Next(int.MinValue, int.MaxValue)` on draw number `k` of the stream `raw`. */
  function NextSeedValue(raw: nat -> nat, k: nat): (v: int)
    ensures IntMin <= v < IntMax
  {
    IntMin + raw(k) % (IntMax - IntMin)
  }

  /** The acceptance band: no band (`min == -1`), or `min <= n <= max`. */
  predicate MeetsPathTarget(n: int, minTarget: int, maxTarget: int) {
    minTarget == -1 || (n >= minTarget && n <= maxTarget)
  }

  /** The board the solver uses for a level: the generator's grid size and the level's blockers. */
  function BoardOf(width: int, height: int, d: LevelData): Board {
    Board(width, height, SetOf(d.blockerPositions))
  }

  /** The search state of a level: its pieces ordered by type. */
  function StartOf(d: LevelData): GameState {
    GameState(Positions(d.initialPiecePositions))
  }

  /**
   * What every attempt that gets to the solver has built: the given seed,
   * name and grid size; distinct in-grid blockers, as many as the drawn
   * count, which lies in min..max when 0 <= min <= max; one piece per type,
   * index t holding type t, on distinct in-grid cells free of blockers.
   */
  predicate CandidateShape(d: LevelData, seed: int, name: string, w: int, h: int, minB: int, maxB: int) {
    && d.seed == seed && d.levelName == name && d.gridSize == Pos(w, h)
    && Distinct(d.blockerPositions)
    && (forall b :: b in d.blockerPositions ==> InGrid(b, w, h))
    && (0 <= minB <= maxB ==> minB <= |d.blockerPositions| <= maxB)
    && |d.initialPiecePositions| == 4
    && (forall t :: 0 <= t < 4 ==> d.initialPiecePositions[t].pieceType == t)
    && ValidPlacement(Positions(d.initialPiecePositions), w, h, SetOf(d.blockerPositions))
  }

  /** Four pieces whose index is their type hold one piece per type. */
  lemma OrderedIsOnePerType(pieces: seq<PieceData>)
    requires |pieces| == 4 && forall t :: 0 <= t < 4 ==> pieces[t].pieceType == t
    ensures OnePerType(pieces)
  {
    var keys := Sorting.Keys(pieces, TypeOf);
    assert keys == [0, 1, 2, 3];
  }

  /** Pieces already ordered by type make the same state whether or not they are sorted again. */
  lemma FromSortedPieces(pieces: seq<PieceData>)
    requires |pieces| == 4 && forall t :: 0 <= t < 4 ==> pieces[t].pieceType == t
    ensures FromPieces(pieces) == Success(GameState(Positions(pieces)))
  {
    OrderedIsOnePerType(pieces);
    var sorted := SortByType(pieces);
    SortByTypeIndexes(pieces);
    assert forall i :: 0 <= i < 4 ==> sorted[i] == pieces[i];
    assert sorted == pieces;
  }

  /** A rearrangement of validly placed pieces is validly placed. */
  lemma PermutedPlacement(pieces: seq<PieceData>, sorted: seq<PieceData>, w: int, h: int, blockers: set<Pos>)
    requires multiset(sorted) == multiset(pieces) && |sorted| == |pieces|
    requires forall a, b :: 0 <= a < b < |sorted| ==> sorted[a] != sorted[b]
    requires ValidPlacement(Positions(pieces), w, h, blockers)
    ensures ValidPlacement(Positions(sorted), w, h, blockers)
  {
    var ps := Positions(sorted);
    forall a | 0 <= a < |sorted| ensures exists i :: 0 <= i < |pieces| && sorted[a] == pieces[i] {
      Sorting.ElementOfPermutation(sorted, pieces, a);
    }
    forall a, b | 0 <= a < b < |sorted| ensures ps[a] != ps[b] {
      var i :| 0 <= i < |pieces| && sorted[a] == pieces[i];
      var j :| 0 <= j < |pieces| && sorted[b] == pieces[j];
      assert i != j;
    }
  }

  /** Sorting validly placed pieces, one per type, by type keeps the placement valid and puts type t at index t. */
  lemma SortedPlacement(pieces: seq<PieceData>, w: int, h: int, blockers: set<Pos>)
    requires OnePerType(pieces)
    requires ValidPlacement(Positions(pieces), w, h, blockers)
    ensures |SortByType(pieces)| == 4
    ensures forall t :: 0 <= t < 4 ==> SortByType(pieces)[t].pieceType == t
    ensures ValidPlacement(Positions(SortByType(pieces)), w, h, blockers)
  {
    var sorted := SortByType(pieces);
    SortByTypeIndexes(pieces);
    PermutedPlacement(pieces, sorted, w, h, blockers);
  }

  /** The level an attempt assembles from its blockers and its placed, shuffled pieces has the candidate shape. */
  lemma AssembledShape(seed: int, name: string, w: int, h: int, minB: int, maxB: int,
                       blockers: seq<Pos>, pieces: seq<PieceData>, types: seq<int>)
    requires Distinct(blockers) && forall p :: p in blockers ==> InGrid(p, w, h)
    requires 0 <= minB <= maxB ==> minB <= |blockers| <= maxB
    requires |types| == 4 && multiset(types) == multiset{0, 1, 2, 3}
    requires |pieces| == 4 && forall j :: 0 <= j < 4 ==> pieces[j].pieceType == types[j]
    requires ValidPlacement(Positions(pieces), w, h, SetOf(blockers))
    ensures CandidateShape(LevelData(seed, name, Pos(w, h), blockers, SortByType(pieces)), seed, name, w, h, minB, maxB)
  {
    assert Sorting.Keys(pieces, TypeOf) == types;
    SortedPlacement(pieces, w, h, SetOf(blockers));
  }

  /**
   * The blocker loop: up to `count` randomly chosen cells move from the
   * available list to the blocker list, stopping early when none is left.
   */
  method PlaceBlockers(available0: seq<Pos>, count: int, raw: UnityRandom, seed: int, k0: nat, ghost w: int, ghost h: int)
    returns (blockers: seq<Pos>, available: seq<Pos>, k: nat)
    requires Distinct(available0) && forall p :: p in available0 ==> InGrid(p, w, h)
    ensures Distinct(blockers) && Distinct(available)
    ensures forall p :: p in blockers ==> InGrid(p, w, h)
    ensures forall p :: p in available ==> InGrid(p, w, h) && p !in blockers
    ensures count < 0 ==> blockers == []
    ensures 0 <= count ==> |blockers| <= count && (|blockers| == count || available == [])
    ensures multiset(available0) == multiset(available) + multiset(blockers)
    ensures 0 <= count ==> |blockers| == if count <= |available0| then count else |available0|
  {
    k := k0;
    available := available0;
    blockers := [];
    var i := 0;
    while i < count
      invariant Distinct(available) && Distinct(blockers)
      invariant forall p :: p in available ==> InGrid(p, w, h) && p !in blockers
      invariant forall p :: p in blockers ==> InGrid(p, w, h)
      invariant 0 <= i == |blockers|
      invariant i <= count || i == 0
      invariant multiset(available0) == multiset(available) + multiset(blockers)
      decreases count - i
    {
      if |available| == 0 {
        break;
      }
      var randomIndex := UnityRange(raw, seed, k, 0, |available|);
      k := k + 1;
      var cell := available[randomIndex];
      RemoveAtDistinct(available, randomIndex);
      assert cell in available;
      assert cell !in blockers;
      assert forall j :: 0 <= j < |blockers| ==> blockers[j] != cell by {
        forall j | 0 <= j < |blockers| ensures blockers[j] != cell {
          assert blockers[j] in blockers;
        }
      }
      blockers := blockers + [cell];
      available := RemoveAt(available, randomIndex);
      i := i + 1;
    }
    assert |multiset(available0)| == |available| + |blockers|;
  }

  /** The in-place shuffle of the type list [0, 1, 2, 3]: swap index i with a random index in i..3. */
  method ShuffleTypes(raw: UnityRandom, seed: int, k0: nat) returns (types: seq<int>, k: nat)
    ensures |types| == 4 && multiset(types) == multiset{0, 1, 2, 3}
  {
    k := k0;
    var pieceTypesToPlace := new int[4](t => t);
    assert pieceTypesToPlace[..] == [0, 1, 2, 3];
    var i := 0;
    while i < pieceTypesToPlace.Length - 1
      invariant 0 <= i <= pieceTypesToPlace.Length - 1
      invariant multiset(pieceTypesToPlace[..]) == multiset{0, 1, 2, 3}
    {
      var randomIndexToSwap := UnityRange(raw, seed, k, i, pieceTypesToPlace.Length);
      k := k + 1;
      ghost var before := pieceTypesToPlace[..];
      var temp := pieceTypesToPlace[i];
      pieceTypesToPlace[i] := pieceTypesToPlace[randomIndexToSwap];
      pieceTypesToPlace[randomIndexToSwap] := temp;
      assert pieceTypesToPlace[..] == before[i := before[randomIndexToSwap]][randomIndexToSwap := before[i]];
      SwapKeepsMultiset(before, i, randomIndexToSwap);
      i := i + 1;
    }
    types := pieceTypesToPlace[..];
  }

  /** Exchanging two elements keeps the same elements. */
  lemma SwapKeepsMultiset(s: seq<int>, i: int, j: int)
    requires 0 <= i < |s| && 0 <= j < |s|
    ensures multiset(s[i := s[j]][j := s[i]]) == multiset(s)
  {
  }

  /**
   * The piece loop: piece i gets type `types[i]` and a randomly chosen cell
   * removed from the available list; None when the list runs out first.
   */
  method PlacePieces(available0: seq<Pos>, types: seq<int>, raw: UnityRandom, seed: int, k0: nat,
                     ghost w: int, ghost h: int, ghost blockers: set<Pos>)
    returns (placed: Option<seq<PieceData>>, k: nat)
    requires |types| == 4
    requires Distinct(available0)
    requires forall p :: p in available0 ==> InGrid(p, w, h) && p !in blockers
    ensures placed.Some? ==> 4 <= |available0| && |placed.value| == 4
    ensures placed.Some? ==> forall j :: 0 <= j < 4 ==> placed.value[j].pieceType == types[j]
    ensures placed.Some? ==> ValidPlacement(Positions(placed.value), w, h, blockers)
    ensures placed.Some? ==> forall j :: 0 <= j < 4 ==> placed.value[j].position in available0
    ensures placed.Some? <==> 4 <= |available0|
  {
    k := k0;
    var available := available0;
    var pieces: seq<PieceData> := [];
    var i := 0;
    while i < 4
      invariant 0 <= i <= 4 && |pieces| == i && |available| + i == |available0|
      invariant Distinct(available)
      invariant forall p :: p in available ==> InGrid(p, w, h) && p !in blockers
      invariant forall j :: 0 <= j < i ==> pieces[j].pieceType == types[j]
      invariant ValidPlacement(Positions(pieces), w, h, blockers)
      invariant forall j :: 0 <= j < i ==> pieces[j].position !in available
      invariant forall j :: 0 <= j < i ==> pieces[j].position in available0
      invariant forall p :: p in available ==> p in available0
    {
      if |available| == 0 {
        return None, k;
      }
      var randomIndex := UnityRange(raw, seed, k, 0, |available|);
      k := k + 1;
      var piecePos := available[randomIndex];
      RemoveAtDistinct(available, randomIndex);
      available := RemoveAt(available, randomIndex);
      pieces := pieces + [PieceData(piecePos, types[i])];
      i := i + 1;
    }
    placed := Some(pieces);
  }

  /** Index `x * height + y` of a column-by-column list of cells holds `(x, y)`. */
  lemma ColumnMajorIndex(x: int, y: int, height: int)
    requires 0 <= y < height
    ensures (x * height + y) / height == x && (x * height + y) % height == y
  {
    var k := x * height + y;
    DigitPair(k / height, k % height, x, y, height);
  }

  /** Index k of `cells` holds cell (k / height, k % height). */
  predicate ColumnMajor(cells: seq<Pos>, height: int)
    requires height > 0
  {
    forall k :: 0 <= k < |cells| ==> cells[k] == Pos(k / height, k % height)
  }

  /** Appending cell (x, y) at index x * height + y keeps the column-major layout. */
  lemma ColumnMajorSnoc(cells: seq<Pos>, x: int, y: int, height: int)
    requires 0 <= y < height && ColumnMajor(cells, height) && |cells| == x * height + y
    ensures ColumnMajor(cells + [Pos(x, y)], height)
  {
    ColumnMajorIndex(x, y, height);
    var c := cells + [Pos(x, y)];
    forall k | 0 <= k < |c| ensures c[k] == Pos(k / height, k % height) {
      if k < |cells| {
        assert c[k] == cells[k];
      }
    }
  }

  /**
   * The available-cell list of an attempt: every in-grid cell once, column
   * by column (x outer, y inner), so index k holds (k / height, k % height).
   */
  method AvailableCells(width: int, height: int) returns (cells: seq<Pos>)
    ensures Distinct(cells)
    ensures forall p :: p in cells <==> InGrid(p, width, height)
    ensures width > 0 && height > 0 ==> |cells| == width * height
    ensures height > 0 ==> forall k :: 0 <= k < |cells| ==> cells[k] == Pos(k / height, k % height)
  {
    cells := [];
    var x := 0;
    while x < width
      invariant 0 <= x <= width || (x == 0 && width < 0)
      invariant Distinct(cells)
      invariant forall p :: p in cells <==> 0 <= p.x < x && 0 <= p.y < height
      invariant height > 0 ==> |cells| == x * height
      invariant height > 0 ==> ColumnMajor(cells, height)
    {
      var y := 0;
      while y < height
        invariant 0 <= y <= height || (y == 0 && height < 0)
        invariant Distinct(cells)
        invariant forall p :: p in cells <==> (0 <= p.x < x && 0 <= p.y < height) || (p.x == x && 0 <= p.y < y)
        invariant height > 0 ==> |cells| == x * height + y
        invariant height > 0 ==> ColumnMajor(cells, height)
      {
        ColumnMajorSnoc(cells, x, y, height);
        cells := cells + [Pos(x, y)];
        y := y + 1;
      }
      assert height > 0 ==> x * height + height == (x + 1) * height;
      x := x + 1;
    }
  }

  class LevelGenerator {
    var gridWidth: int
    var gridHeight: int
    var minBlockers: int
    var maxBlockers: int
    /** `usedSeedsThisSession_Generator`. */
    var usedSeeds: set<int>
    /** The raw draws of `randomForSeedGeneration`, and how many have been taken. */
    const seedSource: nat -> nat
    var seedDraws: nat

    /** The component's defaults: a 4x4 grid, 3 to 4 blockers, no seed used yet. */
    constructor (seedSource: nat -> nat)
      ensures gridWidth == 4 && gridHeight == 4 && minBlockers == 3 && maxBlockers == 4
      ensures usedSeeds == {} && this.seedSource == seedSource && seedDraws == 0
    {
      gridWidth, gridHeight := 4, 4;
      minBlockers, maxBlockers := 3, 4;
      usedSeeds := {};
      this.seedSource := seedSource;
      seedDraws := 0;
    }

    /**
     * Draws seeds until one is unused, giving up after 1001 draws, and
     * records the one returned: a seed already used is returned only when
     * all 1001 draws were used seeds.
     */
    method RequestNewUnusedSeed() returns (newSeedValue: int)
      modifies this
      ensures usedSeeds == old(usedSeeds) + {newSeedValue}
      ensures IntMin <= newSeedValue < IntMax
      ensures old(seedDraws) < seedDraws <= old(seedDraws) + MaxSeedAttempts + 1
      ensures newSeedValue == NextSeedValue(seedSource, seedDraws - 1)
      ensures forall k :: old(seedDraws) <= k < seedDraws - 1 ==> NextSeedValue(seedSource, k) in old(usedSeeds)
      ensures newSeedValue in old(usedSeeds) ==> seedDraws == old(seedDraws) + MaxSeedAttempts + 1
      ensures gridWidth == old(gridWidth) && gridHeight == old(gridHeight)
      ensures minBlockers == old(minBlockers) && maxBlockers == old(maxBlockers)
    {
      newSeedValue := NextSeedValue(seedSource, seedDraws);
      seedDraws := seedDraws + 1;
      var attemptCount := 1;
      while attemptCount <= MaxSeedAttempts && newSeedValue in usedSeeds
        invariant 1 <= attemptCount <= MaxSeedAttempts + 1
        invariant seedDraws == old(seedDraws) + attemptCount
        invariant newSeedValue == NextSeedValue(seedSource, seedDraws - 1)
        invariant forall k :: old(seedDraws) <= k < seedDraws - 1 ==> NextSeedValue(seedSource, k) in old(usedSeeds)
        invariant usedSeeds == old(usedSeeds)
        invariant gridWidth == old(gridWidth) && gridHeight == old(gridHeight)
        invariant minBlockers == old(minBlockers) && maxBlockers == old(maxBlockers)
      {
        newSeedValue := NextSeedValue(seedSource, seedDraws);
        seedDraws := seedDraws + 1;
        attemptCount := attemptCount + 1;
      }
      usedSeeds := usedSeeds + {newSeedValue};
    }

    /** Records a seed as used this session. */
    method MarkSeedAsUsed(seedToMark: int)
      modifies this
      ensures usedSeeds == old(usedSeeds) + {seedToMark}
      ensures seedDraws == old(seedDraws)
      ensures gridWidth == old(gridWidth) && gridHeight == old(gridHeight)
      ensures minBlockers == old(minBlockers) && maxBlockers == old(maxBlockers)
    {
      usedSeeds := usedSeeds + {seedToMark};
    }

    /**
     * Breadth-first search from the level's pieces: the length of a
     * shortest winning run of swipes, or -1 when the reachable states hold
     * no win or a 75001st dequeue was due (`budgetHit`); in that case the
     * 75000 states expanded before, `explored`, are distinct, reachable and
     * not winning. Fails like the source's GameState constructor unless
     * there are four pieces.
     */
    method GetShortestSolutionLength(level: LevelData)
      returns (r: Result<int, StateError>, ghost budgetHit: bool, ghost explored: set<GameState>)
      ensures r.Failure? <==> |level.initialPiecePositions| != 4
      ensures r.Success? ==>
        var init := FromPieces(level.initialPiecePositions).value;
        var step := GameStep(BoardOf(gridWidth, gridHeight, level));
        && (r.value == -1 || ShortestIs(step, IsWin, init, r.value))
        && (budgetHit ==> r.value == -1)
        && (budgetHit ==> |explored| == MaxBfsSearchIterations && ReachedNonWinning(step, IsWin, init, explored))
        && (!budgetHit ==> (r.value == -1 <==> !Solvable(step, IsWin, init)))
        && (IsWin(init) ==> r.value == 0)
    {
      budgetHit, explored := false, {};
      var initial := FromPieces(level.initialPiecePositions);
      if initial.Failure? {
        r := Failure(initial.error);
        return;
      }
      var initialGameState := initial.value;
      ghost var step := GameStep(BoardOf(gridWidth, gridHeight, level));
      var statesToVisit: seq<(GameState, int)> := [(initialGameState, 0)];
      var visitedStates: set<GameState> := {initialGameState};
      ghost var expanded: set<GameState> := {};
      ghost var L: nat := 0;
      ghost var paths: map<GameState, seq<Dir>> := map[initialGameState := []];
      ghost var lastExpanded := initialGameState;
      InvInit(step, IsWin, initialGameState);
      var currentIterationCount := 0;
      while |statesToVisit| > 0
        invariant 0 <= currentIterationCount <= MaxBfsSearchIterations
        invariant Inv(step, IsWin, initialGameState, statesToVisit, visitedStates, expanded, L, paths, lastExpanded, 4)
        invariant IsWin(initialGameState) ==> currentIterationCount == 0 && statesToVisit == [(initialGameState, 0)]
        invariant |expanded| == currentIterationCount && |visitedStates| == |expanded| + |statesToVisit|
        invariant ReachedNonWinning(step, IsWin, initialGameState, expanded)
        decreases MaxBfsSearchIterations - currentIterationCount
      {
        currentIterationCount := currentIterationCount + 1;
        if currentIterationCount > MaxBfsSearchIterations {
          budgetHit, explored := true, expanded;
          r := Success(-1);
          return;
        }
        var currentQueueEntry := statesToVisit[0];
        var currentGameState := currentQueueEntry.0;
        var currentPathLen := currentQueueEntry.1;
        if currentPathLen != L {
          InvAdvance(step, IsWin, initialGameState, statesToVisit, visitedStates, expanded, L, paths, lastExpanded);
          L := L + 1;
        }
        if CheckWinConditionInState(currentGameState.piecePositions) {
          InvWin(step, IsWin, initialGameState, statesToVisit, visitedStates, expanded, L, paths, lastExpanded, 4);
          r := Success(currentPathLen);
          return;
        }
        ghost var sp := paths[currentGameState];
        assert Run(step, initialGameState, sp) == currentGameState;
        ExploreFront(step, IsWin, initialGameState, statesToVisit, visitedStates, expanded, sp);
        InvDequeue(step, IsWin, initialGameState, statesToVisit, visitedStates, expanded, L, paths, lastExpanded);
        statesToVisit := statesToVisit[1..];
        expanded := expanded + {currentGameState};
        lastExpanded := currentGameState;
        statesToVisit, visitedStates, paths := ExpandState(level, currentGameState, step, initialGameState,
                                                           statesToVisit, visitedStates, expanded, currentPathLen, L, paths, sp);
      }
      InvExhausted(step, IsWin, initialGameState, visitedStates, expanded, L, paths, lastExpanded);
      r := Success(-1);
    }

    /**
     * The inner loop of the search: the successor of `cur` in each of the
     * four directions, in order, is queued one level deeper unless it was
     * seen before.
     */
    method ExpandState(level: LevelData, cur: GameState, ghost step: StepFn, ghost init: GameState,
                       q0: seq<(GameState, int)>, visited0: set<GameState>, ghost expanded: set<GameState>,
                       currentPathLen: int, ghost L: nat, ghost paths0: map<GameState, seq<Dir>>, ghost sp: seq<Dir>)
      returns (statesToVisit: seq<(GameState, int)>, visitedStates: set<GameState>, ghost paths: map<GameState, seq<Dir>>)
      requires step == GameStep(BoardOf(gridWidth, gridHeight, level))
      requires Inv(step, IsWin, init, q0, visited0, expanded, L, paths0, cur, 0)
      requires cur in expanded && |sp| == L && Run(step, init, sp) == cur && currentPathLen == L
      ensures Inv(step, IsWin, init, statesToVisit, visitedStates, expanded, L, paths, cur, 4)
      ensures |statesToVisit| <= |q0| + 4
      ensures QueuedAfter(q0, visited0, statesToVisit, visitedStates, currentPathLen + 1)
      ensures |visitedStates| - |statesToVisit| == |visited0| - |q0|
    {
      statesToVisit, visitedStates, paths := q0, visited0, paths0;
      var dirIndex := 0;
      while dirIndex < |SwipeDirections|
        invariant 0 <= dirIndex <= |SwipeDirections|
        invariant Inv(step, IsWin, init, statesToVisit, visitedStates, expanded, L, paths, cur, dirIndex)
        invariant |statesToVisit| <= |q0| + dirIndex
        invariant QueuedAfter(q0, visited0, statesToVisit, visitedStates, currentPathLen + 1)
      {
        var currentDirection := SwipeDirections[dirIndex];
        var nextPiecePositions := Successor(cur.piecePositions, currentDirection, gridWidth, gridHeight, level.blockerPositions);
        var nextGeneratedState := GameState(nextPiecePositions);
        assert nextGeneratedState == step(cur, currentDirection);
        InvExpandDirection(step, IsWin, init, q0, visited0, statesToVisit, visitedStates, expanded, L, paths, cur, dirIndex, sp);
        if nextGeneratedState !in visitedStates {
          visitedStates := visitedStates + {nextGeneratedState};
          statesToVisit := statesToVisit + [(nextGeneratedState, currentPathLen + 1)];
          paths := paths[nextGeneratedState := sp + [currentDirection]];
        }
        dirIndex := dirIndex + 1;
      }
    }

    /**
     * One placement attempt after `Random.InitState(attemptSeed)`: draws the
     * blocker count and removes that many random cells from the available
     * list, shuffles the four piece types, places each on a random remaining
     * cell, and sorts the pieces by type. None when the cells run out before
     * all four pieces are placed.
     */
    method BuildCandidate(inputSeed: int, levelName: string, attemptSeed: int, raw: UnityRandom)
      returns (candidate: Option<LevelData>)
      ensures candidate.Some? ==>
        CandidateShape(candidate.value, inputSeed, levelName, gridWidth, gridHeight, minBlockers, maxBlockers)
      ensures (gridWidth > 0 && gridHeight > 0 && 0 <= minBlockers <= maxBlockers
               && maxBlockers + 4 <= gridWidth * gridHeight) ==> candidate.Some?
    {
      var k: nat := 0;
      var available := AvailableCells(gridWidth, gridHeight);
      var numberOfBlockers := UnityRange(raw, attemptSeed, k, minBlockers, maxBlockers + 1);
      k := k + 1;
      ghost var allCells := available;
      var blockers;
      blockers, available, k := PlaceBlockers(available, numberOfBlockers, raw, attemptSeed, k, gridWidth, gridHeight);
      assert |allCells| == |available| + |blockers| by {
        assert |multiset(allCells)| == |multiset(available) + multiset(blockers)|;
      }
      var pieceTypesToPlace;
      pieceTypesToPlace, k := ShuffleTypes(raw, attemptSeed, k);
      var placed;
      placed, k := PlacePieces(available, pieceTypesToPlace, raw, attemptSeed, k, gridWidth, gridHeight, SetOf(blockers));
      if placed.None? {
        return None;
      }
      var pieces := placed.value;
      assert 0 <= minBlockers <= maxBlockers ==> |blockers| == numberOfBlockers;
      AssembledShape(inputSeed, levelName, gridWidth, gridHeight, minBlockers, maxBlockers,
                     blockers, pieces, pieceTypesToPlace);
      candidate := Some(LevelData(inputSeed, levelName, Pos(gridWidth, gridHeight), blockers, SortByType(pieces)));
    }

    /**
     * The acceptance test of an attempt: the solver finds a shortest
     * solution and, unless the band is off (`min == -1`), its length lies in
     * min..max. When the search budget was not hit (`budgetHit` false), a
     * rejection means no shortest solution length meets the band; when it
     * was, `explored` holds the 75000 distinct reachable non-winning states
     * the search expanded, which a well-placed start on a board of at most
     * 16 cells does not have.
     */
    method ScoreCandidate(d: LevelData, minSolutionPathTarget: int, maxSolutionPathTarget: int)
      returns (accepted: bool, ghost budgetHit: bool, ghost explored: set<GameState>)
      requires |d.initialPiecePositions| == 4
      requires forall t :: 0 <= t < 4 ==> d.initialPiecePositions[t].pieceType == t
      ensures accepted ==> exists n :: MeetsPathTarget(n, minSolutionPathTarget, maxSolutionPathTarget)
                                      && ShortestIs(GameStep(BoardOf(gridWidth, gridHeight, d)), IsWin, StartOf(d), n)
      ensures !accepted && !budgetHit ==>
        forall n :: ShortestIs(GameStep(BoardOf(gridWidth, gridHeight, d)), IsWin, StartOf(d), n)
                    ==> !MeetsPathTarget(n, minSolutionPathTarget, maxSolutionPathTarget)
      ensures budgetHit ==> !accepted && |explored| == MaxBfsSearchIterations
                            && ReachedNonWinning(GameStep(BoardOf(gridWidth, gridHeight, d)), IsWin, StartOf(d), explored)
      ensures Placed(BoardOf(gridWidth, gridHeight, d), StartOf(d)) && gridWidth * gridHeight <= 16 ==> !budgetHit
    {
      FromSortedPieces(d.initialPiecePositions);
      ghost var step := GameStep(BoardOf(gridWidth, gridHeight, d));
      forall m | ShortestIs(step, IsWin, StartOf(d), m) ensures Solvable(step, IsWin, StartOf(d)) {
        ShortestUnique(step, IsWin, StartOf(d), m, m);
      }
      var calculatedSolutionLength;
      calculatedSolutionLength, budgetHit, explored := GetShortestSolutionLength(d);
      if budgetHit && Placed(BoardOf(gridWidth, gridHeight, d), StartOf(d)) && gridWidth * gridHeight <= 16 {
        ReachableStatesFew(BoardOf(gridWidth, gridHeight, d), IsWin, StartOf(d), explored);
      }
      accepted := false;
      if calculatedSolutionLength.Success? && calculatedSolutionLength.value != -1 {
        var n := calculatedSolutionLength.value;
        accepted := minSolutionPathTarget == -1
          || (n >= minSolutionPathTarget && n <= maxSolutionPathTarget);
        if accepted {
          assert MeetsPathTarget(n, minSolutionPathTarget, maxSolutionPathTarget);
        } else {
          forall m | ShortestIs(step, IsWin, StartOf(d), m)
            ensures !MeetsPathTarget(m, minSolutionPathTarget, maxSolutionPathTarget)
          {
            ShortestUnique(step, IsWin, StartOf(d), n, m);
          }
        }
      }
    }

    /**
     * Up to 150 attempts, attempt `a` seeding Unity's generator with
     * `inputSeed + a` (32-bit wrap-around): the first candidate whose
     * shortest solution exists and meets the band is returned; None after
     * 150 rejected attempts.
     */
    method GenerateLevel(inputSeed: int, levelName: string, minSolutionPathTarget: int,
                         maxSolutionPathTarget: int, raw: UnityRandom)
      returns (result: Option<LevelData>)
      ensures result.Some? ==>
        var d := result.value;
        && CandidateShape(d, inputSeed, levelName, gridWidth, gridHeight, minBlockers, maxBlockers)
        && exists n :: MeetsPathTarget(n, minSolutionPathTarget, maxSolutionPathTarget)
                       && ShortestIs(GameStep(BoardOf(gridWidth, gridHeight, d)), IsWin, StartOf(d), n)
      ensures minSolutionPathTarget != -1 && maxSolutionPathTarget < minSolutionPathTarget ==> result.None?
    {
      var placementAttemptCount := 0;
      var currentAttempt := 0;
      while currentAttempt < MaxPlacementAttemptsPerSeed
        invariant 0 <= currentAttempt <= MaxPlacementAttemptsPerSeed
      {
        placementAttemptCount := placementAttemptCount + 1;
        var attemptSeed := Wrap32(inputSeed + currentAttempt);
        var candidate := BuildCandidate(inputSeed, levelName, attemptSeed, raw);
        if candidate.Some? {
          var newLevelData := candidate.value;
          var accepted, budgetHit, explored := ScoreCandidate(newLevelData, minSolutionPathTarget, maxSolutionPathTarget);
          if accepted {
            result := Some(newLevelData);
            return;
          }
        }
        currentAttempt := currentAttempt + 1;
      }
      result := None;
    }
  }
}
