/**
 * The simultaneous-move transition shared by the solver and by live play.
 *
 * Every piece first picks a tentative target: one step in the swipe
 * direction, or its own cell when that step leaves the grid or lands on a
 * blocker. Then collision passes run: in each pass every cell that two or
 * more pieces intend to land on is found, and every piece aiming at such a
 * cell that is still moving goes back to its current cell. Nobody wins a
 * contested cell. Passes repeat while a pass reverted something, at most
 * ten times.
 *
 * One pass, as both code paths run it, is independent of the order in
 * which pieces are visited: the landing lists are built from the intended
 * positions at the start of the pass, and a moving piece is reverted exactly
 * when its start-of-pass target has two or more claimants. `PassStep` states
 * that directly.
 */
module MoveResolver {
  import opened Geometry

  /** The do-while's safety ceiling on collision passes. */
  const MaxResolutionPasses: nat := 10

  /** The landing list of `c` among the first `n` pieces: the indices below `n` aiming at `c`, in order. */
  function ClaimantsBelow(next: seq<Pos>, n: nat, c: Pos): seq<nat>
    requires n <= |next|
  {
    if n == 0 then [] else ClaimantsBelow(next, n - 1, c) + (if next[n - 1] == c then [n - 1] else [])
  }

  /** The landing list of `c`: the indices of all pieces aiming at `c`, in order. */
  function Claimants(next: seq<Pos>, c: Pos): seq<nat> {
    ClaimantsBelow(next, |next|, c)
  }

  /** The landing list below `n` holds exactly the indices below `n` aiming at `c`, ascending. */
  lemma {:induction false} ClaimantsBelowSpec(next: seq<Pos>, n: nat, c: Pos)
    requires n <= |next|
    ensures forall a :: 0 <= a < |ClaimantsBelow(next, n, c)| ==>
      ClaimantsBelow(next, n, c)[a] < n && next[ClaimantsBelow(next, n, c)[a]] == c
    ensures forall j :: 0 <= j < n && next[j] == c ==> j in ClaimantsBelow(next, n, c)
    ensures forall a, b :: 0 <= a < b < |ClaimantsBelow(next, n, c)| ==>
      ClaimantsBelow(next, n, c)[a] < ClaimantsBelow(next, n, c)[b]
  {
    if n > 0 {
      ClaimantsBelowSpec(next, n - 1, c);
      var prev := ClaimantsBelow(next, n - 1, c);
      var r := ClaimantsBelow(next, n, c);
      if next[n - 1] == c {
        assert r == prev + [n - 1];
        forall a | 0 <= a < |r| ensures r[a] < n && next[r[a]] == c {
          if a < |prev| {
            assert r[a] == prev[a];
          } else {
            assert r[a] == n - 1;
          }
        }
        forall j | 0 <= j < n && next[j] == c ensures j in r {
          if j < n - 1 {
            assert j in prev;
          } else {
            assert r[|prev|] == j;
          }
        }
        forall a, b | 0 <= a < b < |r| ensures r[a] < r[b] {
          assert r[a] == prev[a];
          if b < |prev| {
            assert r[b] == prev[b];
          }
        }
      } else {
        assert r == prev;
      }
    }
  }

  /** The landing list of `c` holds exactly the indices of the pieces aiming at `c`, ascending. */
  lemma ClaimantsSpec(next: seq<Pos>, c: Pos)
    ensures var r := Claimants(next, c);
      && (forall a :: 0 <= a < |r| ==> r[a] < |next| && next[r[a]] == c)
      && (forall j :: 0 <= j < |next| && next[j] == c ==> j in r)
      && (forall a, b :: 0 <= a < b < |r| ==> r[a] < r[b])
  {
    ClaimantsBelowSpec(next, |next|, c);
    assert Claimants(next, c) == ClaimantsBelow(next, |next|, c);
  }

  /** A cell none of the first `n` pieces aims at has an empty landing list. */
  lemma {:induction false} NoClaimantsBelow(next: seq<Pos>, n: nat, c: Pos)
    requires n <= |next|
    requires forall j :: 0 <= j < n ==> next[j] != c
    ensures ClaimantsBelow(next, n, c) == []
  {
    if n > 0 {
      NoClaimantsBelow(next, n - 1, c);
    }
  }

  /** A cell is contested when two different pieces intend to land on it. */
  lemma ContestedIff(next: seq<Pos>, c: Pos)
    ensures |Claimants(next, c)| > 1 <==>
            exists i, j :: 0 <= i < j < |next| && next[i] == c && next[j] == c
  {
    var r := Claimants(next, c);
    ClaimantsSpec(next, c);
    if |r| > 1 {
      var i, j := r[0], r[1];
      assert 0 <= i < j < |next| && next[i] == c && next[j] == c;
    }
    if i, j :| 0 <= i < j < |next| && next[i] == c && next[j] == c {
      assert i in r && j in r;
      var a :| 0 <= a < |r| && r[a] == i;
      var b :| 0 <= b < |r| && r[b] == j;
      assert a != b;
    }
  }

  /** The tentative target of one piece. */
  function Target(p: Pos, delta: Pos, width: int, height: int, blockers: set<Pos>): Pos {
    var q := Add(p, delta);
    if !InGrid(q, width, height) || q in blockers then p else q
  }

  /**
   * Tentative targets of all pieces, before any collision pass: a piece
   * aims one step along the swipe when that cell is in the grid and free of
   * blockers, and at its own cell otherwise.
   */
  function Tentative(cur: seq<Pos>, delta: Pos, width: int, height: int, blockers: set<Pos>): (r: seq<Pos>)
    ensures |r| == |cur|
    ensures forall i :: 0 <= i < |cur| ==>
      r[i] == cur[i] || (r[i] == Add(cur[i], delta) && InGrid(r[i], width, height) && r[i] !in blockers)
  {
    seq(|cur|, i requires 0 <= i < |cur| => Target(cur[i], delta, width, height, blockers))
  }

  /** True when piece `k` is still moving and aims at a contested cell. */
  predicate Reverts(cur: seq<Pos>, next: seq<Pos>, k: int)
    requires |next| == |cur| && 0 <= k < |cur|
  {
    next[k] != cur[k] && |Claimants(next, next[k])| > 1
  }

  /**
   * One collision pass: every moving piece aiming at a contested cell goes
   * back to its current cell; a pass never moves a piece anywhere else.
   */
  function PassStep(cur: seq<Pos>, next: seq<Pos>): (r: seq<Pos>)
    requires |next| == |cur|
    ensures |r| == |cur|
    ensures forall k :: 0 <= k < |cur| ==> r[k] == next[k] || r[k] == cur[k]
  {
    seq(|next|, k requires 0 <= k < |next| => if Reverts(cur, next, k) then cur[k] else next[k])
  }

    /** A moving piece before index `i` aims at the cell piece `k` aims at. */
  predicate HandledBy(cur: seq<Pos>, next0: seq<Pos>, k: int, i: int)
    requires |next0| == |cur| && 0 <= k < |cur|
  {
    exists j :: 0 <= j < i && j < |cur| && next0[j] != cur[j] && next0[j] == next0[k]
  }

  /**
   * The intended positions part-way through a pass, once the pieces before
   * index `i` have been visited: visiting a moving piece whose cell is
   * contested sends every claimant of that cell back.
   */
  function PartialPass(cur: seq<Pos>, next0: seq<Pos>, i: int): (r: seq<Pos>)
    requires |next0| == |cur|
    ensures |r| == |cur|
  {
    seq(|cur|, k requires 0 <= k < |cur| =>
      if Reverts(cur, next0, k) && HandledBy(cur, next0, k, i) then cur[k] else next0[k])
  }

  /** Before any piece is visited nothing has changed. */
  lemma PartialPassStart(cur: seq<Pos>, next0: seq<Pos>)
    requires |next0| == |cur|
    ensures PartialPass(cur, next0, 0) == next0
  {
  }

  /** After every piece is visited the pass is complete. */
  lemma PartialPassEnd(cur: seq<Pos>, next0: seq<Pos>)
    requires |next0| == |cur|
    ensures PartialPass(cur, next0, |cur|) == PassStep(cur, next0)
  {
    forall k | 0 <= k < |cur| && Reverts(cur, next0, k)
      ensures HandledBy(cur, next0, k, |cur|)
    {
    }
  }

  /** Visiting a still-moving piece whose cell is contested reverts every claimant of the cell. */
  lemma PartialPassContested(cur: seq<Pos>, next0: seq<Pos>, i: int)
    requires |next0| == |cur| && 0 <= i < |cur|
    requires PartialPass(cur, next0, i)[i] != cur[i]
    requires |Claimants(next0, next0[i])| > 1
    ensures forall k :: 0 <= k < |cur| ==>
      PartialPass(cur, next0, i + 1)[k] ==
        if k in Claimants(next0, next0[i]) then cur[k] else PartialPass(cur, next0, i)[k]
  {
    var t := next0[i];
    ClaimantsSpec(next0, t);
    forall k | 0 <= k < |cur|
      ensures PartialPass(cur, next0, i + 1)[k] ==
        if k in Claimants(next0, t) then cur[k] else PartialPass(cur, next0, i)[k]
    {
      if next0[k] == t {
        assert k in Claimants(next0, t);
        assert next0[i] != cur[i];
        if next0[k] != cur[k] {
          assert Reverts(cur, next0, k) && HandledBy(cur, next0, k, i + 1);
        }
      } else {
        assert k !in Claimants(next0, t);
        assert HandledBy(cur, next0, k, i + 1) == HandledBy(cur, next0, k, i);
      }
    }
  }

  /** Visiting a piece that is not moving, or whose cell is not contested, changes nothing. */
  lemma PartialPassSkip(cur: seq<Pos>, next0: seq<Pos>, i: int)
    requires |next0| == |cur| && 0 <= i < |cur|
    requires PartialPass(cur, next0, i)[i] == cur[i] || |Claimants(next0, next0[i])| <= 1
    ensures PartialPass(cur, next0, i + 1) == PartialPass(cur, next0, i)
  {
    forall k | 0 <= k < |cur|
      ensures PartialPass(cur, next0, i + 1)[k] == PartialPass(cur, next0, i)[k]
    {
      if Reverts(cur, next0, k) && HandledBy(cur, next0, k, i + 1) && next0[i] != cur[i] && next0[i] == next0[k] {
        assert Reverts(cur, next0, i);
        assert HandledBy(cur, next0, i, i);
        assert HandledBy(cur, next0, k, i);
      }
    }
  }

  /** A pass has reverted something once some visit has reverted something. */
  lemma PartialPassDiffers(cur: seq<Pos>, next0: seq<Pos>, i: int)
    requires |next0| == |cur| && 0 <= i
    ensures PartialPass(cur, next0, i + 1) != next0 <==>
      (PartialPass(cur, next0, i) != next0 || PartialPass(cur, next0, i + 1) != PartialPass(cur, next0, i))
  {
    var p, q := PartialPass(cur, next0, i), PartialPass(cur, next0, i + 1);
    if p != next0 {
      var k :| 0 <= k < |cur| && p[k] != next0[k];
      assert q[k] != next0[k];
    }
    if q != p {
      var k :| 0 <= k < |cur| && q[k] != p[k];
      assert q[k] != next0[k];
    }
  }

/** The do-while of collision passes, with `fuel` passes left: a pass always runs, and the loop stops after a pass that reverted nothing. */
  function Settle(cur: seq<Pos>, next: seq<Pos>, fuel: nat): (r: seq<Pos>)
    requires |next| == |cur|
    ensures |r| == |cur|
    ensures forall i :: 0 <= i < |cur| ==> r[i] == next[i] || r[i] == cur[i]
    decreases fuel
  {
    if fuel == 0 then next
    else
      var after := PassStep(cur, next);
      if after == next then after else Settle(cur, after, fuel - 1)
  }

  /**
   * The successor of the positions `cur` under the swipe `delta`: every
   * piece either stays where it is or moves exactly one step along the
   * swipe onto an in-grid cell that holds no blocker.
   */
  function Resolve(cur: seq<Pos>, delta: Pos, width: int, height: int, blockers: set<Pos>): (r: seq<Pos>)
    ensures |r| == |cur|
    ensures forall i :: 0 <= i < |cur| ==>
      r[i] == cur[i] || (r[i] == Add(cur[i], delta) && InGrid(r[i], width, height) && r[i] !in blockers)
  {
    Settle(cur, Tentative(cur, delta, width, height, blockers), MaxResolutionPasses)
  }

  /** A pass is stable when it reverts nothing: this is how the do-while stops early. */
  predicate Stable(cur: seq<Pos>, next: seq<Pos>)
    requires |next| == |cur|
  {
    PassStep(cur, next) == next
  }

  /** A piece that is back at its current cell stays there in every later pass. */
  lemma {:induction false} SettleKeepsReverted(cur: seq<Pos>, next: seq<Pos>, fuel: nat, i: int)
    requires |next| == |cur| && 0 <= i < |cur|
    requires next[i] == cur[i]
    ensures Settle(cur, next, fuel)[i] == cur[i]
    decreases fuel
  {
    if fuel > 0 {
      var after := PassStep(cur, next);
      if after != next {
        SettleKeepsReverted(cur, after, fuel - 1, i);
      }
    }
  }

  /**
   * "All contenders revert": when two different pieces aim at the same cell
   * (one of them may be a piece that is not moving), both end where they
   * started. There is no lowest-index winner.
   */
  lemma ResolveContendersRevert(cur: seq<Pos>, delta: Pos, width: int, height: int, blockers: set<Pos>, i: int, j: int)
    requires 0 <= i < |cur| && 0 <= j < |cur| && i != j
    requires Target(cur[i], delta, width, height, blockers) == Target(cur[j], delta, width, height, blockers)
    ensures Resolve(cur, delta, width, height, blockers)[i] == cur[i]
    ensures Resolve(cur, delta, width, height, blockers)[j] == cur[j]
  {
    var tent := Tentative(cur, delta, width, height, blockers);
    ContestedIff(tent, tent[i]);
    if i < j {
      assert |Claimants(tent, tent[i])| > 1;
    } else {
      assert 0 <= j < i < |tent| && tent[j] == tent[i] && tent[i] == tent[i];
      assert |Claimants(tent, tent[i])| > 1;
    }
    var after := PassStep(tent, tent);
    var first := PassStep(cur, tent);
    assert first[i] == cur[i] && first[j] == cur[j];
    if first == tent {
      assert Settle(cur, tent, MaxResolutionPasses) == first;
    } else {
      SettleKeepsReverted(cur, first, MaxResolutionPasses - 1, i);
      SettleKeepsReverted(cur, first, MaxResolutionPasses - 1, j);
    }
  }

  /** Number of pieces among the first `n` that are still moving. */
  function Movers(cur: seq<Pos>, next: seq<Pos>, n: nat): (m: nat)
    requires |next| == |cur| && n <= |cur|
    ensures m <= n
  {
    if n == 0 then 0
    else Movers(cur, next, n - 1) + (if next[n - 1] != cur[n - 1] then 1 else 0)
  }

  /** Fewer movers in `a` than in `b` when `a`'s movers are a proper subset of `b`'s. */
  lemma {:induction false} MoversShrink(cur: seq<Pos>, a: seq<Pos>, b: seq<Pos>, n: nat)
    requires |a| == |cur| && |b| == |cur| && n <= |cur|
    requires forall k :: 0 <= k < n && a[k] != cur[k] ==> b[k] != cur[k]
    ensures Movers(cur, a, n) <= Movers(cur, b, n)
    ensures (exists k :: 0 <= k < n && a[k] == cur[k] && b[k] != cur[k]) ==>
            Movers(cur, a, n) < Movers(cur, b, n)
  {
    if n > 0 {
      MoversShrink(cur, a, b, n - 1);
      if exists k :: 0 <= k < n && a[k] == cur[k] && b[k] != cur[k] {
        var k :| 0 <= k < n && a[k] == cur[k] && b[k] != cur[k];
        if k < n - 1 {
          assert exists k' :: 0 <= k' < n - 1 && a[k'] == cur[k'] && b[k'] != cur[k'];
        }
      }
    }
  }

  /** A pass that changes something reverts at least one mover and starts no new one. */
  lemma PassStepShrinks(cur: seq<Pos>, next: seq<Pos>)
    requires |next| == |cur|
    ensures Movers(cur, PassStep(cur, next), |cur|) <= Movers(cur, next, |cur|)
    ensures PassStep(cur, next) != next ==>
            Movers(cur, PassStep(cur, next), |cur|) < Movers(cur, next, |cur|)
  {
    var after := PassStep(cur, next);
    if after != next {
      var k :| 0 <= k < |cur| && after[k] != next[k];
      assert after[k] == cur[k] && next[k] != cur[k];
    }
    MoversShrink(cur, after, next, |cur|);
  }

  /** With more passes left than moving pieces, the passes stop because one reverted nothing. */
  lemma {:induction false} SettleReachesStable(cur: seq<Pos>, next: seq<Pos>, fuel: nat)
    requires |next| == |cur|
    requires fuel > Movers(cur, next, |cur|)
    ensures Stable(cur, Settle(cur, next, fuel))
    decreases fuel
  {
    var after := PassStep(cur, next);
    PassStepShrinks(cur, next);
    if after != next {
      SettleReachesStable(cur, after, fuel - 1);
    }
  }

  /**
   * With fewer than ten pieces (the game has four) the ten-pass ceiling
   * never binds: the successor is a position where one more pass would
   * revert nothing.
   */
  lemma ResolveIsStable(cur: seq<Pos>, delta: Pos, width: int, height: int, blockers: set<Pos>)
    requires |cur| < MaxResolutionPasses
    ensures Stable(cur, Resolve(cur, delta, width, height, blockers))
  {
    var tent := Tentative(cur, delta, width, height, blockers);
    SettleReachesStable(cur, tent, MaxResolutionPasses);
  }

  /** In a stable position, a piece on a contested cell is a piece that did not move. */
  lemma StableContestedStays(cur: seq<Pos>, next: seq<Pos>, k: int)
    requires |next| == |cur| && 0 <= k < |cur|
    requires Stable(cur, next)
    ensures |Claimants(next, next[k])| > 1 ==> next[k] == cur[k]
  {
    assert PassStep(cur, next)[k] == next[k];
  }

  /** After a pass that reverts nothing, pieces that started on distinct cells are on distinct cells. */
  lemma StableIsDistinct(cur: seq<Pos>, next: seq<Pos>)
    requires |next| == |cur|
    requires Distinct(cur)
    requires Stable(cur, next)
    ensures Distinct(next)
  {
    forall i, j | 0 <= i < j < |next|
      ensures next[i] != next[j]
    {
      ContestedIff(next, next[i]);
      StableContestedStays(cur, next, i);
      StableContestedStays(cur, next, j);
    }
  }

  /** A well-formed position: pieces on distinct in-grid cells that hold no blocker. */
  predicate ValidPlacement(s: seq<Pos>, width: int, height: int, blockers: set<Pos>) {
    && Distinct(s)
    && (forall i :: 0 <= i < |s| ==> InGrid(s[i], width, height) && s[i] !in blockers)
  }

  /** A swipe keeps a well-formed position well-formed: no overlap, no piece off the grid or on a blocker. */
  lemma ResolvePreservesValid(cur: seq<Pos>, delta: Pos, width: int, height: int, blockers: set<Pos>)
    requires |cur| < MaxResolutionPasses
    requires ValidPlacement(cur, width, height, blockers)
    ensures ValidPlacement(Resolve(cur, delta, width, height, blockers), width, height, blockers)
  {
    ResolveIsStable(cur, delta, width, height, blockers);
    StableIsDistinct(cur, Resolve(cur, delta, width, height, blockers));
    forall i | 0 <= i < |cur|
      ensures var r := Resolve(cur, delta, width, height, blockers);
              InGrid(r[i], width, height) && r[i] !in blockers
    {
    }
  }
}
