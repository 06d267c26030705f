/**
 * The solver's successor computation (GetShortestSolutionLength's inner
 * loop): tentative targets written into a copy of the position array, then
 * collision passes that rewrite that array in place.
 */
module SolverMoves {
  import opened Geometry
  import opened MoveResolver

  /** The landing lists of `next0`, built in index order. */
  method LandingSpots(next0: seq<Pos>) returns (landing: map<Pos, seq<nat>>)
    ensures forall j :: 0 <= j < |next0| ==> next0[j] in landing
    ensures forall c :: c in landing ==> landing[c] == Claimants(next0, c)
  {
    landing := map[];
    var i := 0;
    while i < |next0|
      invariant 0 <= i <= |next0|
      invariant forall j :: 0 <= j < i ==> next0[j] in landing
      invariant forall c :: c in landing ==> landing[c] == ClaimantsBelow(next0, i, c)
    {
      var p := next0[i];
      if p !in landing {
        NoClaimantsBelow(next0, i, p);
        landing := landing[p := []];
      }
      landing := landing[p := landing[p] + [i]];
      i := i + 1;
    }
  }

  /** Sends every piece listed in `indices` back to its current cell. */
  method RevertAll(cur: seq<Pos>, a: array<Pos>, indices: seq<nat>) returns (changed: bool)
    requires a.Length == |cur|
    requires forall q :: 0 <= q < |indices| ==> indices[q] < |cur|
    modifies a
    ensures forall k :: 0 <= k < |cur| ==> a[k] == if k in indices then cur[k] else old(a[k])
    ensures changed <==> a[..] != old(a[..])
  {
    changed := false;
    var q := 0;
    while q < |indices|
      invariant 0 <= q <= |indices|
      invariant forall k :: 0 <= k < |cur| ==> a[k] == if k in indices[..q] then cur[k] else old(a[k])
      invariant changed <==> a[..] != old(a[..])
    {
      var idx := indices[q];
      assert indices[..q + 1] == indices[..q] + [idx];
      if a[idx] != cur[idx] {
        a[idx] := cur[idx];
        changed := true;
      }
      q := q + 1;
    }
    assert indices[..q] == indices;
  }

  /** Visits piece `i` in the second loop of a pass. */
  method VisitPiece(cur: seq<Pos>, a: array<Pos>, landing: map<Pos, seq<nat>>, i: int, ghost next0: seq<Pos>)
    returns (changed: bool)
    requires a.Length == |cur| == |next0| && 0 <= i < |cur|
    requires forall c :: c in landing ==> landing[c] == Claimants(next0, c)
    requires next0[i] in landing
    requires a[..] == PartialPass(cur, next0, i)
    modifies a
    ensures a[..] == PartialPass(cur, next0, i + 1)
    ensures changed <==> a[..] != old(a[..])
  {
    changed := false;
    if a[i] != cur[i] {
      var t := a[i];
      if t in landing && |landing[t]| > 1 {
        PartialPassContested(cur, next0, i);
        ClaimantsSpec(next0, t);
        changed := RevertAll(cur, a, landing[t]);
        return;
      }
    }
    PartialPassSkip(cur, next0, i);
  }

  /** One collision pass over the intended positions in `a`. */
  method ResolutionPass(cur: seq<Pos>, a: array<Pos>) returns (reverted: bool)
    requires a.Length == |cur|
    modifies a
    ensures a[..] == PassStep(cur, old(a[..]))
    ensures reverted <==> a[..] != old(a[..])
  {
    ghost var next0 := a[..];
    var n := a.Length;
    var landing := LandingSpots(a[..]);
    reverted := false;
    PartialPassStart(cur, next0);
    var i := 0;
    while i < n
      invariant 0 <= i <= n
      invariant a[..] == PartialPass(cur, next0, i)
      invariant reverted <==> a[..] != next0
    {
      PartialPassDiffers(cur, next0, i);
      var changed := VisitPiece(cur, a, landing, i, next0);
      reverted := reverted || changed;
      i := i + 1;
    }
    PartialPassEnd(cur, next0);
  }

  /** The tentative targets, written into a fresh copy of `cur`. */
  method TentativeTargets(cur: seq<Pos>, delta: Pos, width: int, height: int, blockers: seq<Pos>)
    returns (a: array<Pos>)
    ensures fresh(a)
    ensures a[..] == Tentative(cur, delta, width, height, SetOf(blockers))
  {
    a := new Pos[|cur|](k requires 0 <= k < |cur| => cur[k]);
    var i := 0;
    while i < a.Length
      invariant 0 <= i <= a.Length == |cur|
      invariant forall k :: 0 <= k < i ==> a[k] == Target(cur[k], delta, width, height, SetOf(blockers))
    {
      var pieceCurrentPos := cur[i];
      var potential := Add(pieceCurrentPos, delta);
      var isOutOfBounds := potential.x < 0 || potential.x >= width || potential.y < 0 || potential.y >= height;
      var hitsBlocker := potential in blockers;
      if isOutOfBounds || hitsBlocker {
        a[i] := pieceCurrentPos;
      } else {
        a[i] := potential;
      }
      i := i + 1;
    }
  }

  /** The successor of `cur` under the swipe `dir`: tentative targets, then up to ten passes. */
  method Successor(cur: seq<Pos>, dir: Dir, width: int, height: int, blockers: seq<Pos>) returns (next: seq<Pos>)
    ensures next == Resolve(cur, dir.Delta(), width, height, SetOf(blockers))
  {
    var a := TentativeTargets(cur, dir.Delta(), width, height, blockers);
    ghost var spec := Resolve(cur, dir.Delta(), width, height, SetOf(blockers));
    var collisionResolvedInPass := true;
    var resolutionPassCount := 0;
    while collisionResolvedInPass && resolutionPassCount < MaxResolutionPasses
      invariant 0 <= resolutionPassCount <= MaxResolutionPasses && a.Length == |cur|
      invariant collisionResolvedInPass ==> Settle(cur, a[..], MaxResolutionPasses - resolutionPassCount) == spec
      invariant !collisionResolvedInPass ==> a[..] == spec
      decreases MaxResolutionPasses - resolutionPassCount
    {
      resolutionPassCount := resolutionPassCount + 1;
      collisionResolvedInPass := ResolutionPass(cur, a);
    }
    next := a[..];
  }
}
