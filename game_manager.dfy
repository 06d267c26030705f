/**
 * The logical side of live play (GameManager): the logical-to-cell row
 * flip, loading a level's blockers and pieces, a swipe (resolution and the
 * logical position update that ends the move animation) and the live win
 * test. Rendering, animation and the timer are not modelled.
 */
module Gameplay {
  import opened Geometry
  import opened Wrappers
  import opened MoveResolver
  import opened WinEvaluator
  import opened LevelModel
  import opened LiveMoves
  import opened GameStates
  import Sorting

  /**
   * What `Resources.Load` and `JsonUtility.FromJson` hand to
   * StartOrRestartLevel: no asset, an asset that parses to null, or a level.
   */
  datatype LevelAsset = NoAsset | NullLevel | Parsed(data: LevelData)

  /** Logical coordinates grow upwards, cell rows grow downwards: row `gridHeight - 1 - y`. */
  function LogicalToCellGridPosition(logicalPos: Pos, gridHeight: int): (cell: Pos)
    ensures cell.x == logicalPos.x
    ensures 0 <= cell.y < gridHeight <==> 0 <= logicalPos.y < gridHeight
  {
    Pos(logicalPos.x, (gridHeight - 1) - logicalPos.y)
  }

  /** The row flip is its own inverse and maps the grid onto itself. */
  lemma CellMapping(p: Pos, gridWidth: int, gridHeight: int)
    ensures LogicalToCellGridPosition(LogicalToCellGridPosition(p, gridHeight), gridHeight) == p
    ensures InGrid(LogicalToCellGridPosition(p, gridHeight), gridWidth, gridHeight) <==> InGrid(p, gridWidth, gridHeight)
  {
  }

  /** The pieces of `ps` that lie on the grid, in list order. */
  function InGridPieces(ps: seq<PieceData>, w: int, h: int): seq<PieceData> {
    if ps == [] then []
    else
      var last := ps[|ps| - 1];
      InGridPieces(ps[..|ps| - 1], w, h) + if InGrid(last.position, w, h) then [last] else []
  }

  /** Filtering keeps every on-grid piece as often as it occurs and drops the others. */
  lemma {:induction false} InGridPiecesCount(ps: seq<PieceData>, w: int, h: int, x: PieceData)
    ensures multiset(InGridPieces(ps, w, h))[x] == if InGrid(x.position, w, h) then multiset(ps)[x] else 0
  {
    if ps != [] {
      var init, last := ps[..|ps| - 1], ps[|ps| - 1];
      assert ps == init + [last];
      InGridPiecesCount(init, w, h, x);
    }
  }

  /** When every piece is on the grid, filtering keeps the whole list. */
  lemma {:induction false} InGridPiecesAll(ps: seq<PieceData>, w: int, h: int)
    requires forall i :: 0 <= i < |ps| ==> InGrid(ps[i].position, w, h)
    ensures InGridPieces(ps, w, h) == ps
  {
    if ps != [] {
      InGridPiecesAll(ps[..|ps| - 1], w, h);
      assert ps == ps[..|ps| - 1] + [ps[|ps| - 1]];
    }
  }

  /** The piece `p` has type `t` and sits at type t's corner of the box whose bottom-left cell is `origin`. */
  predicate Hit(p: PieceData, t: int, origin: Pos) {
    p.pieceType == t && Sub(p.position, origin) == CornerOffset(t)
  }

  /** Some piece of type `t` sits at its corner. */
  predicate CornerHeld(pieces: seq<PieceData>, t: int, origin: Pos) {
    exists i :: 0 <= i < |pieces| && Hit(pieces[i], t, origin)
  }

  /**
   * The live verdict, stated on the list as a whole: four pieces whose
   * bounding box is 2x2, with a piece of type 0, 1, 2, 3 at its top-left,
   * top-right, bottom-left and bottom-right cell.
   */
  predicate LiveWin(pieces: seq<PieceData>) {
    && |pieces| == 4
    && var b := BoundsOf(Positions(pieces));
    && IsTwoByTwo(b)
    && forall t :: 0 <= t < 4 ==> CornerHeld(pieces, t, Pos(b.minX, b.minY))
  }

  /**
   * On type-ordered pieces (index t holds type t) the live verdict is the
   * solver's verdict on their positions.
   */
  lemma LiveWinMatchesSolver(pieces: seq<PieceData>)
    requires |pieces| == 4 && forall t :: 0 <= t < 4 ==> pieces[t].pieceType == t
    ensures LiveWin(pieces) <==> CheckWinConditionInState(Positions(pieces))
  {
    var s := Positions(pieces);
    var b := BoundsOf(s);
    var origin := Pos(b.minX, b.minY);
    CornersFromFour(s, b);
    if IsTwoByTwo(b) {
      forall t | 0 <= t < 4 ensures CornerHeld(pieces, t, origin) <==> AtCorner(s[t], t, b) {
        if CornerHeld(pieces, t, origin) {
          var i :| 0 <= i < 4 && Hit(pieces[i], t, origin);
          assert i == t;
        }
        if AtCorner(s[t], t, b) {
          assert Hit(pieces[t], t, origin);
        }
      }
    }
  }

  /** With 32-bit coordinates, the live verdict on type-ordered pieces is exactly the solved square. */
  lemma LiveWinIsSquare(pieces: seq<PieceData>)
    requires |pieces| == 4 && forall t :: 0 <= t < 4 ==> pieces[t].pieceType == t
    requires AllInt32(Positions(pieces))
    ensures LiveWin(pieces) <==> IsWinningSquare(Positions(pieces))
  {
    LiveWinMatchesSolver(pieces);
    WinIffSquare(Positions(pieces));
  }

  /** Every element of `r` occurring in `s` makes the box of `s` at least as large as that of `r`. */
  lemma BoundsCover(s: seq<Pos>, r: seq<Pos>)
    requires forall k :: 0 <= k < |r| ==> r[k] in s
    ensures BoundsOf(s).minX <= BoundsOf(r).minX && BoundsOf(s).maxX >= BoundsOf(r).maxX
    ensures BoundsOf(s).minY <= BoundsOf(r).minY && BoundsOf(s).maxY >= BoundsOf(r).maxY
  {
    var bs, br := BoundsOf(s), BoundsOf(r);
    if br.minX != IntMax {
      var k :| 0 <= k < |r| && br.minX == r[k].x;
      assert r[k] in s;
    }
    if br.maxX != IntMin {
      var k :| 0 <= k < |r| && br.maxX == r[k].x;
      assert r[k] in s;
    }
    if br.minY != IntMax {
      var k :| 0 <= k < |r| && br.minY == r[k].y;
      assert r[k] in s;
    }
    if br.maxY != IntMin {
      var k :| 0 <= k < |r| && br.maxY == r[k].y;
      assert r[k] in s;
    }
  }

  /** Every piece of `qs` is a piece of `ps`: its position is among theirs and it holds any corner it held in `qs`. */
  lemma PiecesCovered(ps: seq<PieceData>, qs: seq<PieceData>)
    requires multiset(qs) == multiset(ps)
    ensures forall k :: 0 <= k < |qs| ==> Positions(qs)[k] in Positions(ps)
    ensures forall t, o :: CornerHeld(qs, t, o) ==> CornerHeld(ps, t, o)
  {
    forall k | 0 <= k < |qs| ensures Positions(qs)[k] in Positions(ps) && exists j :: 0 <= j < |ps| && ps[j] == qs[k] {
      Sorting.ElementOfPermutation(qs, ps, k);
      var j :| 0 <= j < |ps| && ps[j] == qs[k];
      assert Positions(ps)[j] == Positions(qs)[k];
    }
  }

  /** Rearranging the pieces leaves their bounding box as it is. */
  lemma BoundsOrderFree(ps: seq<PieceData>, qs: seq<PieceData>)
    requires multiset(qs) == multiset(ps)
    ensures BoundsOf(Positions(ps)) == BoundsOf(Positions(qs))
  {
    PiecesCovered(ps, qs);
    PiecesCovered(qs, ps);
    BoundsCover(Positions(ps), Positions(qs));
    BoundsCover(Positions(qs), Positions(ps));
  }

  /**
   * The live verdict does not depend on the order of the list, which is
   * why the model leaves out the sort by (x, y) that precedes it.
   */
  lemma LiveWinOrderFree(ps: seq<PieceData>, qs: seq<PieceData>)
    requires multiset(qs) == multiset(ps)
    ensures LiveWin(ps) <==> LiveWin(qs)
  {
    assert |ps| == |multiset(ps)| == |qs|;
    BoundsOrderFree(ps, qs);
    PiecesCovered(ps, qs);
    PiecesCovered(qs, ps);
  }

  /** The keys of the cell dictionary: every cell of the `w` x `h` grid, row by row. */
  method GridCells(w: int, h: int) returns (cells: set<Pos>)
    ensures forall c :: c in cells <==> InGrid(c, w, h)
  {
    cells := {};
    var cellY := 0;
    while cellY < h
      invariant cellY <= h || cellY == 0
      invariant forall c :: c in cells <==> 0 <= c.x < w && 0 <= c.y < cellY
    {
      var cellX := 0;
      while cellX < w
        invariant cellX <= w || cellX == 0
        invariant forall c :: c in cells <==> (0 <= c.x < w && 0 <= c.y < cellY) || (c.y == cellY && 0 <= c.x < cellX)
      {
        cells := cells + {Pos(cellX, cellY)};
        cellX := cellX + 1;
      }
      cellY := cellY + 1;
    }
  }

  /** The blocker set built from the level's list. */
  method CollectBlockers(blockerPositions: seq<Pos>) returns (blockerPositionsSet: set<Pos>)
    ensures blockerPositionsSet == SetOf(blockerPositions)
  {
    blockerPositionsSet := {};
    var i := 0;
    while i < |blockerPositions|
      invariant 0 <= i <= |blockerPositions|
      invariant blockerPositionsSet == SetOf(blockerPositions[..i])
    {
      assert blockerPositions[..i + 1] == blockerPositions[..i] + [blockerPositions[i]];
      blockerPositionsSet := blockerPositionsSet + {blockerPositions[i]};
      i := i + 1;
    }
    assert blockerPositions[..i] == blockerPositions;
  }

  /** The pieces whose flipped cell is a key of the cell dictionary, in list order. */
  method PiecesWithCells(sortedInitialPieces: seq<PieceData>, gridCells: set<Pos>, w: int, h: int)
    returns (placed: seq<PieceData>)
    requires forall c :: c in gridCells <==> InGrid(c, w, h)
    ensures placed == InGridPieces(sortedInitialPieces, w, h)
  {
    placed := [];
    var i := 0;
    while i < |sortedInitialPieces|
      invariant 0 <= i <= |sortedInitialPieces|
      invariant placed == InGridPieces(sortedInitialPieces[..i], w, h)
    {
      var pieceData := sortedInitialPieces[i];
      assert sortedInitialPieces[..i + 1][..i] == sortedInitialPieces[..i];
      var cellPosForPiece := LogicalToCellGridPosition(pieceData.position, h);
      CellMapping(pieceData.position, w, h);
      if cellPosForPiece in gridCells {
        placed := placed + [PieceData(pieceData.position, pieceData.pieceType)];
      }
      i := i + 1;
    }
    assert sortedInitialPieces[..i] == sortedInitialPieces;
  }

  /** The min/max loop of the live win test, from int.MaxValue / int.MinValue. */
  method PieceBounds(currentPieces: seq<PieceData>) returns (minX: int, maxX: int, minY: int, maxY: int)
    ensures Bounds(minX, maxX, minY, maxY) == BoundsOf(Positions(currentPieces))
  {
    ghost var s := Positions(currentPieces);
    minX, maxX, minY, maxY := IntMax, IntMin, IntMax, IntMin;
    var i := 0;
    while i < |currentPieces|
      invariant 0 <= i <= |currentPieces|
      invariant BoundsFrom(s, i, Bounds(minX, maxX, minY, maxY)) == BoundsOf(s)
    {
      var p := currentPieces[i];
      if p.position.x < minX { minX := p.position.x; }
      if p.position.x > maxX { maxX := p.position.x; }
      if p.position.y < minY { minY := p.position.y; }
      if p.position.y > maxY { maxY := p.position.y; }
      i := i + 1;
    }
  }

  /** The corner loop of the live win test: each flag is set iff some piece of its type sits at its corner. */
  method CornerFlags(currentPieces: seq<PieceData>, origin: Pos)
    returns (foundTL: bool, foundTR: bool, foundBL: bool, foundBR: bool)
    ensures foundTL <==> CornerHeld(currentPieces, 0, origin)
    ensures foundTR <==> CornerHeld(currentPieces, 1, origin)
    ensures foundBL <==> CornerHeld(currentPieces, 2, origin)
    ensures foundBR <==> CornerHeld(currentPieces, 3, origin)
  {
    foundTL, foundTR, foundBL, foundBR := false, false, false, false;
    var i := 0;
    while i < |currentPieces|
      invariant 0 <= i <= |currentPieces|
      invariant foundTL <==> exists j :: 0 <= j < i && Hit(currentPieces[j], 0, origin)
      invariant foundTR <==> exists j :: 0 <= j < i && Hit(currentPieces[j], 1, origin)
      invariant foundBL <==> exists j :: 0 <= j < i && Hit(currentPieces[j], 2, origin)
      invariant foundBR <==> exists j :: 0 <= j < i && Hit(currentPieces[j], 3, origin)
    {
      var pCheckType := currentPieces[i];
      var relativePos := Sub(pCheckType.position, origin);
      if relativePos == Pos(0, 1) && pCheckType.pieceType == 0 {
        foundTL := true;
      } else if relativePos == Pos(1, 1) && pCheckType.pieceType == 1 {
        foundTR := true;
      } else if relativePos == Pos(0, 0) && pCheckType.pieceType == 2 {
        foundBL := true;
      } else if relativePos == Pos(1, 0) && pCheckType.pieceType == 3 {
        foundBR := true;
      }
      i := i + 1;
    }
  }

  /** The scan of the move animation: whether some piece's resolved target differs from its cell. */
  method AnyMoved(cur: seq<Pos>, newPiecePositions: map<nat, Pos>) returns (anyMoved: bool)
    requires KeyedByIndex(newPiecePositions, |cur|)
    ensures anyMoved <==> IntendedList(newPiecePositions, |cur|) != cur
  {
    ghost var resolved := IntendedList(newPiecePositions, |cur|);
    anyMoved := false;
    var k := 0;
    while k < |cur|
      invariant 0 <= k <= |cur|
      invariant anyMoved <==> exists j :: 0 <= j < k && cur[j] != resolved[j]
    {
      if cur[k] != newPiecePositions[k] {
        anyMoved := true;
      }
      k := k + 1;
    }
    if !anyMoved {
      assert resolved == cur;
    }
  }

  /** The logical update closing the move animation: each piece takes its resolved target and keeps its type. */
  method UpdateDataPositions(pieces: seq<PieceData>, newPiecePositions: map<nat, Pos>) returns (updated: seq<PieceData>)
    requires KeyedByIndex(newPiecePositions, |pieces|)
    ensures |updated| == |pieces|
    ensures Positions(updated) == IntendedList(newPiecePositions, |pieces|)
    ensures forall k :: 0 <= k < |pieces| ==> updated[k].pieceType == pieces[k].pieceType
  {
    updated := pieces;
    var k := 0;
    while k < |updated|
      invariant 0 <= k <= |updated| == |pieces|
      invariant forall j :: 0 <= j < k ==> updated[j] == PieceData(newPiecePositions[j], pieces[j].pieceType)
      invariant forall j :: k <= j < |updated| ==> updated[j] == pieces[j]
    {
      updated := updated[k := PieceData(newPiecePositions[k], updated[k].pieceType)];
      k := k + 1;
    }
    assert Positions(updated) == IntendedList(newPiecePositions, |pieces|);
  }

  /** Live play's logical state. `movablePieces` holds the piece data of the movable list, in list order. */
  class GameManager {
    var gridWidth: int
    var gridHeight: int
    var isMoving: bool
    var timerIsRunning: bool
    /** `currentLevelData != null`. */
    var levelLoaded: bool
    /** The keys of the cell dictionary. */
    var gridCells: set<Pos>
    var blockerPositionsSet: set<Pos>
    var movablePieces: seq<PieceData>

    /** Field initialisers and Awake: a 4x4 grid, nothing loaded, empty collections, timer stopped. */
    constructor()
      ensures gridWidth == 4 && gridHeight == 4
      ensures !isMoving && !timerIsRunning && !levelLoaded
      ensures gridCells == {} && blockerPositionsSet == {} && movablePieces == []
    {
      gridWidth, gridHeight := 4, 4;
      isMoving, timerIsRunning, levelLoaded := false, false, false;
      gridCells, blockerPositionsSet, movablePieces := {}, {}, [];
    }

    /**
     * The logical part of loading a level: the grid takes the level's size;
     * without a cell prefab nothing else happens. Otherwise every blocker
     * goes into the blocker set, and the pieces, sorted by type, are kept
     * when their cell exists, then the kept list is sorted by type again.
     */
    method SetupGridAndPiecesFromData(d: LevelData, hasCellPrefab: bool)
      modifies this
      ensures gridWidth == d.gridSize.x && gridHeight == d.gridSize.y
      ensures isMoving == old(isMoving) && timerIsRunning == old(timerIsRunning) && levelLoaded == old(levelLoaded)
      ensures !hasCellPrefab ==> gridCells == {} && blockerPositionsSet == {} && movablePieces == []
      ensures hasCellPrefab ==> forall c :: c in gridCells <==> InGrid(c, gridWidth, gridHeight)
      ensures hasCellPrefab ==> blockerPositionsSet == SetOf(d.blockerPositions)
      ensures hasCellPrefab ==> Sorting.SortedBy(movablePieces, TypeOf)
      ensures hasCellPrefab ==> forall x :: (multiset(movablePieces)[x] ==
        if InGrid(x.position, gridWidth, gridHeight) then multiset(d.initialPiecePositions)[x] else 0)
      ensures hasCellPrefab && OnePerType(d.initialPiecePositions)
              && (forall i :: 0 <= i < |d.initialPiecePositions| ==> InGrid(d.initialPiecePositions[i].position, gridWidth, gridHeight))
              ==> |movablePieces| == 4 && forall t :: 0 <= t < 4 ==> movablePieces[t].pieceType == t
    {
      gridCells, movablePieces, blockerPositionsSet := {}, [], {};
      gridWidth := d.gridSize.x;
      gridHeight := d.gridSize.y;
      if !hasCellPrefab {
        return;
      }
      gridCells := GridCells(gridWidth, gridHeight);
      blockerPositionsSet := CollectBlockers(d.blockerPositions);
      var sortedInitialPieces := SortByType(d.initialPiecePositions);
      var placed := PiecesWithCells(sortedInitialPieces, gridCells, gridWidth, gridHeight);
      movablePieces := SortByType(placed);
      LoadedPieces(d.initialPiecePositions, gridWidth, gridHeight);
    }

    /**
     * StartOrRestartLevel with the outcome of loading the level asset:
     * without an asset nothing changes; an asset that parses to null
     * clears the current level, which makes every later swipe be ignored,
     * and leaves the board as it was; a level is set up, the flags are
     * reset, and then either the timer starts or, on the first level, the
     * how-to-play popup holds the timer and blocks input.
     */
    method StartOrRestartLevel(asset: LevelAsset, isFirstLevel: bool, hasCellPrefab: bool)
      modifies this
      ensures asset.NoAsset? ==> unchanged(this)
      ensures asset.NullLevel? ==> !levelLoaded
      ensures asset.NullLevel? ==> gridWidth == old(gridWidth) && gridHeight == old(gridHeight)
      ensures asset.NullLevel? ==> isMoving == old(isMoving) && timerIsRunning == old(timerIsRunning)
      ensures asset.NullLevel? ==> gridCells == old(gridCells) && blockerPositionsSet == old(blockerPositionsSet)
      ensures asset.NullLevel? ==> movablePieces == old(movablePieces)
      ensures asset.Parsed? ==> levelLoaded && timerIsRunning == !isFirstLevel && isMoving == isFirstLevel
      ensures asset.Parsed? ==> gridWidth == asset.data.gridSize.x && gridHeight == asset.data.gridSize.y
      ensures asset.Parsed? && !hasCellPrefab ==> gridCells == {} && blockerPositionsSet == {} && movablePieces == []
      ensures asset.Parsed? && hasCellPrefab ==> forall c :: c in gridCells <==> InGrid(c, gridWidth, gridHeight)
      ensures asset.Parsed? && hasCellPrefab ==> blockerPositionsSet == SetOf(asset.data.blockerPositions)
      ensures asset.Parsed? && hasCellPrefab ==> Sorting.SortedBy(movablePieces, TypeOf)
      ensures asset.Parsed? && hasCellPrefab ==> forall x :: (multiset(movablePieces)[x] ==
        if InGrid(x.position, gridWidth, gridHeight) then multiset(asset.data.initialPiecePositions)[x] else 0)
      ensures asset.Parsed? && hasCellPrefab && OnePerType(asset.data.initialPiecePositions)
              && (forall i :: 0 <= i < |asset.data.initialPiecePositions| ==>
                    InGrid(asset.data.initialPiecePositions[i].position, gridWidth, gridHeight))
              ==> |movablePieces| == 4 && (forall t :: 0 <= t < 4 ==> movablePieces[t].pieceType == t)
                  && Positions(movablePieces) == FromPieces(asset.data.initialPiecePositions).value.piecePositions
    {
      if asset.NoAsset? {
        return;
      }
      if asset.NullLevel? {
        levelLoaded := false;
        return;
      }
      levelLoaded := true;
      SetupGridAndPiecesFromData(asset.data, hasCellPrefab);
      isMoving := false;
      timerIsRunning := false;
      if isFirstLevel {
        timerIsRunning := false;
        isMoving := true;
      } else {
        timerIsRunning := true;
        isMoving := false;
      }
      var pieces := asset.data.initialPiecePositions;
      if hasCellPrefab && OnePerType(pieces) && (forall i :: 0 <= i < |pieces| ==> InGrid(pieces[i].position, gridWidth, gridHeight)) {
        LoadedIsSolverStart(pieces, movablePieces, gridWidth, gridHeight);
      }
    }

    /**
     * The live win test: false unless there are four pieces; otherwise the
     * bounding box must be 2x2 and each corner flag set by a piece of its
     * type at its offset from the box's bottom-left cell.
     */
    method CheckWinCondition() returns (won: bool)
      ensures won <==> LiveWin(movablePieces)
    {
      if |movablePieces| != 4 {
        return false;
      }
      var currentPieces := movablePieces;
      var minX, maxX, minY, maxY := PieceBounds(currentPieces);
      won := false;
      if maxX - minX == 1 && maxY - minY == 1 {
        var foundTL, foundTR, foundBL, foundBR := CornerFlags(currentPieces, Pos(minX, minY));
        won := foundTL && foundTR && foundBL && foundBR;
        assert won <==> forall t :: 0 <= t < 4 ==> CornerHeld(currentPieces, t, Pos(minX, minY)) by {
          if won {
            forall t | 0 <= t < 4 ensures CornerHeld(currentPieces, t, Pos(minX, minY)) {
              assert t == 0 || t == 1 || t == 2 || t == 3;
            }
          }
        }
      }
    }

    /**
     * A swipe in `direction`. Ignored (nothing changes) while a move is
     * animating, while the timer is stopped, or with no level loaded.
     * Otherwise every piece's logical position becomes its resolved target
     * (the same successor the solver computes), its type stays, and input
     * is released; when some piece moved and the timer runs, the live win
     * test is reported in `won`.
     */
    method HandlePlayerMoveInput(direction: Pos) returns (won: bool)
      modifies this
      ensures old(isMoving || !timerIsRunning || !levelLoaded) ==> unchanged(this) && !won
      ensures !old(isMoving || !timerIsRunning || !levelLoaded) ==>
        && |movablePieces| == |old(movablePieces)|
        && Positions(movablePieces) == Resolve(Positions(old(movablePieces)), direction, gridWidth, gridHeight, blockerPositionsSet)
        && (forall k :: 0 <= k < |movablePieces| ==> movablePieces[k].pieceType == old(movablePieces[k].pieceType))
        && !isMoving && timerIsRunning && levelLoaded
        && (won <==> Positions(movablePieces) != Positions(old(movablePieces)) && LiveWin(movablePieces))
      ensures gridWidth == old(gridWidth) && gridHeight == old(gridHeight)
      ensures gridCells == old(gridCells) && blockerPositionsSet == old(blockerPositionsSet)
      ensures |old(movablePieces)| < MaxResolutionPasses
              && ValidPlacement(Positions(old(movablePieces)), gridWidth, gridHeight, blockerPositionsSet)
              ==> ValidPlacement(Positions(movablePieces), gridWidth, gridHeight, blockerPositionsSet)
    {
      won := false;
      if isMoving || !timerIsRunning || !levelLoaded {
        return;
      }
      var cur := Positions(movablePieces);
      var intendedNextPositions := ResolveLiveMove(cur, direction, gridWidth, gridHeight, blockerPositionsSet);
      if |cur| < MaxResolutionPasses && ValidPlacement(cur, gridWidth, gridHeight, blockerPositionsSet) {
        ResolvePreservesValid(cur, direction, gridWidth, gridHeight, blockerPositionsSet);
      }
      isMoving := true;
      var anyMoved := AnyMoved(cur, intendedNextPositions);
      if !anyMoved {
        isMoving := false;
        return;
      }
      movablePieces := UpdateDataPositions(movablePieces, intendedNextPositions);
      isMoving := false;
      if timerIsRunning {
        won := CheckWinCondition();
      }
    }
  }

  /**
   * What loading keeps of a level's pieces: the list sorted by type, filtered
   * to the grid and sorted again holds each on-grid piece as often as the
   * level does; with one piece per type, all on the grid, index t holds type t.
   */
  lemma LoadedPieces(pieces: seq<PieceData>, w: int, h: int)
    ensures Sorting.SortedBy(SortByType(InGridPieces(SortByType(pieces), w, h)), TypeOf)
    ensures forall x :: (multiset(SortByType(InGridPieces(SortByType(pieces), w, h)))[x] ==
      if InGrid(x.position, w, h) then multiset(pieces)[x] else 0)
    ensures OnePerType(pieces) && (forall i :: 0 <= i < |pieces| ==> InGrid(pieces[i].position, w, h))
      ==> var r := SortByType(InGridPieces(SortByType(pieces), w, h));
          |r| == 4 && forall t :: 0 <= t < 4 ==> r[t].pieceType == t
  {
    var sorted := SortByType(pieces);
    forall x ensures multiset(SortByType(InGridPieces(sorted, w, h)))[x] ==
      if InGrid(x.position, w, h) then multiset(pieces)[x] else 0
    {
      InGridPiecesCount(sorted, w, h, x);
    }
    if OnePerType(pieces) && (forall i :: 0 <= i < |pieces| ==> InGrid(pieces[i].position, w, h)) {
      forall i | 0 <= i < |sorted| ensures InGrid(sorted[i].position, w, h) {
        Sorting.ElementOfPermutation(sorted, pieces, i);
      }
      InGridPiecesAll(sorted, w, h);
      Sorting.SortByKeys(pieces, TypeOf);
      SortByTypeIndexes(sorted);
    }
  }

  /**
   * With one piece per type, all on the grid, the loaded list holds at
   * index t the position that the solver's start state gives type t.
   */
  lemma LoadedIsSolverStart(pieces: seq<PieceData>, loaded: seq<PieceData>, w: int, h: int)
    requires OnePerType(pieces)
    requires |loaded| == 4 && forall t :: 0 <= t < 4 ==> loaded[t].pieceType == t
    requires forall x :: multiset(loaded)[x] == if InGrid(x.position, w, h) then multiset(pieces)[x] else 0
    ensures FromPieces(pieces).Success?
    ensures Positions(loaded) == FromPieces(pieces).value.piecePositions
  {
    FromPiecesOrdersByType(pieces);
    var s := FromPieces(pieces).value.piecePositions;
    forall t | 0 <= t < 4 ensures Positions(loaded)[t] == s[t] {
      var x := loaded[t];
      assert x in multiset(loaded);
      assert multiset(loaded)[x] == if InGrid(x.position, w, h) then multiset(pieces)[x] else 0;
      StartHoldsPiece(pieces, x);
    }
  }

  /** A piece of a level with one piece per type gives its position to its type's index of the start state. */
  lemma StartHoldsPiece(pieces: seq<PieceData>, x: PieceData)
    requires OnePerType(pieces) && x in multiset(pieces)
    ensures FromPieces(pieces).Success? && 0 <= x.pieceType < 4
    ensures FromPieces(pieces).value.piecePositions[x.pieceType] == x.position
  {
    FromPiecesOrdersByType(pieces);
    var i :| 0 <= i < |pieces| && pieces[i] == x;
  }
}
