/**
 * Live play's move resolution (GameManager.HandlePlayerMoveInput): the
 * intended position of every piece is kept in a dictionary keyed by the
 * piece and overwritten in place across collision passes. A piece is
 * identified here by its index in the type-sorted piece list.
 */
module LiveMoves {
  import opened Geometry
  import opened MoveResolver

  /** The dictionary holds exactly one entry per piece index below `n`. */
  ghost predicate KeyedByIndex(m: map<nat, Pos>, n: nat) {
    forall k: nat :: k in m <==> k < n
  }

  /** The dictionary's entries as a list, index k holding piece k's entry. */
  ghost function IntendedList(m: map<nat, Pos>, n: nat): (r: seq<Pos>)
    requires KeyedByIndex(m, n)
    ensures |r| == n
  {
    seq(n, k requires 0 <= k < n => m[k])
  }

  /** The landing lists: for each intended cell, the pieces aiming at it, in list order. */
  method LandingSpotsOf(m: map<nat, Pos>, n: nat) returns (landing: map<Pos, seq<nat>>)
    requires KeyedByIndex(m, n)
    ensures forall j :: 0 <= j < n ==> IntendedList(m, n)[j] in landing
    ensures forall c :: c in landing ==> landing[c] == Claimants(IntendedList(m, n), c)
  {
    ghost var next0 := IntendedList(m, n);
    landing := map[];
    var i := 0;
    while i < n
      invariant 0 <= i <= n
      invariant forall j :: 0 <= j < i ==> next0[j] in landing
      invariant forall c :: c in landing ==> landing[c] == ClaimantsBelow(next0, i, c)
    {
      var intendedPos := m[i];
      assert intendedPos == next0[i];
      if intendedPos !in landing {
        NoClaimantsBelow(next0, i, intendedPos);
        landing := landing[intendedPos := []];
      }
      landing := landing[intendedPos := landing[intendedPos] + [i]];
      i := i + 1;
    }
  }

  /** Sends every listed piece that is still moving back to its current cell. */
  method RevertConflicting(cur: seq<Pos>, m: map<nat, Pos>, conflictingPieces: seq<nat>)
    returns (m': map<nat, Pos>, changed: bool)
    requires KeyedByIndex(m, |cur|)
    requires forall q :: 0 <= q < |conflictingPieces| ==> conflictingPieces[q] < |cur|
    ensures KeyedByIndex(m', |cur|)
    ensures forall k :: 0 <= k < |cur| ==>
      IntendedList(m', |cur|)[k] == if k in conflictingPieces then cur[k] else IntendedList(m, |cur|)[k]
    ensures changed <==> IntendedList(m', |cur|) != IntendedList(m, |cur|)
  {
    m' := m;
    changed := false;
    var j := 0;
    while j < |conflictingPieces|
      invariant 0 <= j <= |conflictingPieces|
      invariant KeyedByIndex(m', |cur|)
      invariant forall k :: 0 <= k < |cur| ==> m'[k] == if k in conflictingPieces[..j] then cur[k] else m[k]
      invariant changed <==> exists k :: 0 <= k < |cur| && m'[k] != m[k]
    {
      var conflictPiece := conflictingPieces[j];
      assert conflictingPieces[..j + 1] == conflictingPieces[..j] + [conflictPiece];
      if m'[conflictPiece] != cur[conflictPiece] {
        m' := m'[conflictPiece := cur[conflictPiece]];
        changed := true;
      }
      j := j + 1;
    }
    assert conflictingPieces[..j] == conflictingPieces;
    if changed {
      var k :| 0 <= k < |cur| && m'[k] != m[k];
      assert IntendedList(m', |cur|)[k] != IntendedList(m, |cur|)[k];
    }
  }

  /** Visits piece `i` in the second loop of a pass. */
  method VisitMovable(cur: seq<Pos>, m: map<nat, Pos>, landing: map<Pos, seq<nat>>, i: int, ghost next0: seq<Pos>)
    returns (m': map<nat, Pos>, changed: bool)
    requires |next0| == |cur| && 0 <= i < |cur| && KeyedByIndex(m, |cur|)
    requires forall c :: c in landing ==> landing[c] == Claimants(next0, c)
    requires forall j :: 0 <= j < |next0| ==> next0[j] in landing
    requires IntendedList(m, |cur|) == PartialPass(cur, next0, i)
    ensures KeyedByIndex(m', |cur|)
    ensures IntendedList(m', |cur|) == PartialPass(cur, next0, i + 1)
    ensures changed <==> IntendedList(m', |cur|) != IntendedList(m, |cur|)
  {
    m', changed := m, false;
    var originalPos := cur[i];
    var intendedTargetPos := m[i];
    assert intendedTargetPos == PartialPass(cur, next0, i)[i];
    if intendedTargetPos != originalPos && intendedTargetPos in landing && |landing[intendedTargetPos]| > 1 {
      assert intendedTargetPos == next0[i];
      PartialPassContested(cur, next0, i);
      ClaimantsSpec(next0, intendedTargetPos);
      m', changed := RevertConflicting(cur, m, landing[intendedTargetPos]);
    } else {
      PartialPassSkip(cur, next0, i);
    }
  }

  /** One collision pass over the dictionary. */
  method CollisionPass(cur: seq<Pos>, m: map<nat, Pos>) returns (m': map<nat, Pos>, changedThisPass: bool)
    requires KeyedByIndex(m, |cur|)
    ensures KeyedByIndex(m', |cur|)
    ensures IntendedList(m', |cur|) == PassStep(cur, IntendedList(m, |cur|))
    ensures changedThisPass <==> IntendedList(m', |cur|) != IntendedList(m, |cur|)
  {
    ghost var next0 := IntendedList(m, |cur|);
    var landingSpots := LandingSpotsOf(m, |cur|);
    m' := m;
    changedThisPass := false;
    PartialPassStart(cur, next0);
    var i := 0;
    while i < |cur|
      invariant 0 <= i <= |cur|
      invariant KeyedByIndex(m', |cur|)
      invariant IntendedList(m', |cur|) == PartialPass(cur, next0, i)
      invariant changedThisPass <==> IntendedList(m', |cur|) != next0
    {
      PartialPassDiffers(cur, next0, i);
      var changed;
      m', changed := VisitMovable(cur, m', landingSpots, i, next0);
      changedThisPass := changedThisPass || changed;
      i := i + 1;
    }
    PartialPassEnd(cur, next0);
  }

  /** The first loop of the handler: every piece's one-step target, or its own cell when the step is refused. */
  method IntendedTargets(cur: seq<Pos>, direction: Pos, gridWidth: int, gridHeight: int, blockerPositionsSet: set<Pos>)
    returns (m: map<nat, Pos>)
    ensures KeyedByIndex(m, |cur|)
    ensures IntendedList(m, |cur|) == Tentative(cur, direction, gridWidth, gridHeight, blockerPositionsSet)
  {
    m := map[];
    var i := 0;
    while i < |cur|
      invariant 0 <= i <= |cur|
      invariant forall k: nat :: k in m <==> k < i
      invariant forall k :: 0 <= k < i ==> m[k] == Target(cur[k], direction, gridWidth, gridHeight, blockerPositionsSet)
    {
      var currentPos := cur[i];
      var potentialNextPos := Add(currentPos, direction);
      var canMove := true;
      if potentialNextPos.x < 0 || potentialNextPos.x >= gridWidth || potentialNextPos.y < 0
         || potentialNextPos.y >= gridHeight || potentialNextPos in blockerPositionsSet {
        canMove := false;
      }
      if canMove {
        m := m[i := potentialNextPos];
      } else {
        m := m[i := currentPos];
      }
      i := i + 1;
    }
  }

  /**
   * The whole resolution of a swipe in live play: tentative targets, then
   * passes while one reverted something, at most ten. It computes the same
   * successor as the solver's array-based code.
   */
  method ResolveLiveMove(cur: seq<Pos>, direction: Pos, gridWidth: int, gridHeight: int, blockerPositionsSet: set<Pos>)
    returns (intendedNextPositions: map<nat, Pos>)
    ensures KeyedByIndex(intendedNextPositions, |cur|)
    ensures IntendedList(intendedNextPositions, |cur|) == Resolve(cur, direction, gridWidth, gridHeight, blockerPositionsSet)
  {
    intendedNextPositions := IntendedTargets(cur, direction, gridWidth, gridHeight, blockerPositionsSet);
    ghost var spec := Resolve(cur, direction, gridWidth, gridHeight, blockerPositionsSet);
    var changedThisPass := true;
    var safetyCounter := 0;
    while changedThisPass && safetyCounter < MaxResolutionPasses
      invariant 0 <= safetyCounter <= MaxResolutionPasses
      invariant KeyedByIndex(intendedNextPositions, |cur|)
      invariant changedThisPass ==>
        Settle(cur, IntendedList(intendedNextPositions, |cur|), MaxResolutionPasses - safetyCounter) == spec
      invariant !changedThisPass ==> IntendedList(intendedNextPositions, |cur|) == spec
      decreases MaxResolutionPasses - safetyCounter
    {
      safetyCounter := safetyCounter + 1;
      intendedNextPositions, changedThisPass := CollisionPass(cur, intendedNextPositions);
    }
  }
}
