/**
 * How many search states a board can hold: every state reachable from a
 * well-placed start keeps its four pieces on the grid, and four in-grid
 * cells of a width x height board make at most (width * height)^4 states.
 * On the generator's 4 x 4 board that is 65536, fewer than the solver's
 * budget of dequeued states.
 */
module StateCount {
  import opened Geometry
  import opened MoveResolver
  import opened GameStates
  import opened Search

  /** A search state of four pieces on distinct in-grid cells of `b` free of blockers. */
  predicate Placed(b: Board, s: GameState) {
    |s.piecePositions| == 4 && ValidPlacement(s.piecePositions, b.width, b.height, b.blockers)
  }

  /** Every run from a well-placed state ends in a well-placed state. */
  lemma {:induction false} RunKeepsPlaced(b: Board, init: GameState, p: seq<Dir>)
    requires Placed(b, init)
    ensures Placed(b, Run(GameStep(b), init, p))
    decreases |p|
  {
    if p != [] {
      var q := p[..|p| - 1];
      RunKeepsPlaced(b, init, q);
      var s := Run(GameStep(b), init, q);
      ResolvePreservesValid(s.piecePositions, p[|p| - 1].Delta(), b.width, b.height, b.blockers);
    }
  }

  /** The number of a cell in column-major order: `x * height + y`. */
  function CellCode(p: Pos, height: int): int {
    p.x * height + p.y
  }

  /** The number of a four-piece state: its cell numbers as digits in base `n`. */
  function StateCode(s: GameState, height: int, n: int): int
    requires |s.piecePositions| == 4
  {
    var c := s.piecePositions;
    ((CellCode(c[0], height) * n + CellCode(c[1], height)) * n + CellCode(c[2], height)) * n + CellCode(c[3], height)
  }

  lemma MulAtLeast(k: int, n: int)
    requires k >= 1 && n >= 0
    ensures k * n >= n
  {
    assert k * n == (k - 1) * n + n;
  }

  lemma MulMono(a: int, b: int, n: int)
    requires 0 <= a <= b && n >= 0
    ensures a * n <= b * n
  {
    assert b * n == a * n + (b - a) * n;
  }

  /** A two-digit number in base `n` determines both digits. */
  lemma DigitPair(a: int, b: int, c: int, d: int, n: int)
    requires 0 <= b < n && 0 <= d < n && a * n + b == c * n + d
    ensures a == c && b == d
  {
    if a < c {
      MulAtLeast(c - a, n);
    } else if c < a {
      MulAtLeast(a - c, n);
    }
  }

  /** A digit below `n` after a prefix below `m` gives a number below `m * n`. */
  lemma DigitBound(a: int, b: int, m: int, n: int)
    requires 0 <= a < m && 0 <= b < n
    ensures 0 <= a * n + b < m * n
  {
    MulMono(a + 1, m, n);
    MulMono(0, a, n);
  }

  /** An in-grid cell's number lies in 0 .. width * height - 1 and gives the cell back. */
  lemma CellCodeRange(p: Pos, width: int, height: int)
    requires InGrid(p, width, height)
    ensures 0 <= CellCode(p, height) < width * height
  {
    DigitBound(p.x, p.y, width, height);
  }

  lemma CellCodeInjective(p: Pos, q: Pos, width: int, height: int)
    requires InGrid(p, width, height) && InGrid(q, width, height)
    requires CellCode(p, height) == CellCode(q, height)
    ensures p == q
  {
    DigitPair(p.x, p.y, q.x, q.y, height);
  }

  /** Four digits below `n` make a number below `n^4`. */
  lemma FourDigitBound(d0: int, d1: int, d2: int, d3: int, n: int)
    requires 0 <= d0 < n && 0 <= d1 < n && 0 <= d2 < n && 0 <= d3 < n
    ensures 0 <= ((d0 * n + d1) * n + d2) * n + d3 < n * n * n * n
  {
    DigitBound(d0, d1, n, n);
    DigitBound(d0 * n + d1, d2, n * n, n);
    DigitBound((d0 * n + d1) * n + d2, d3, n * n * n, n);
  }

  /** A four-digit number in base `n` determines its four digits. */
  lemma FourDigitPair(x0: int, x1: int, x2: int, x3: int, y0: int, y1: int, y2: int, y3: int, n: int)
    requires 0 <= x1 < n && 0 <= x2 < n && 0 <= x3 < n
    requires 0 <= y1 < n && 0 <= y2 < n && 0 <= y3 < n
    requires ((x0 * n + x1) * n + x2) * n + x3 == ((y0 * n + y1) * n + y2) * n + y3
    ensures x0 == y0 && x1 == y1 && x2 == y2 && x3 == y3
  {
    DigitPair((x0 * n + x1) * n + x2, x3, (y0 * n + y1) * n + y2, y3, n);
    DigitPair(x0 * n + x1, x2, y0 * n + y1, y2, n);
    DigitPair(x0, x1, y0, y1, n);
  }

  /** A placed state's number lies in 0 .. (width * height)^4 - 1. */
  lemma StateCodeRange(b: Board, s: GameState)
    requires Placed(b, s)
    ensures var n := b.width * b.height;
      0 <= StateCode(s, b.height, n) < n * n * n * n
  {
    var c := s.piecePositions;
    CellCodeRange(c[0], b.width, b.height);
    CellCodeRange(c[1], b.width, b.height);
    CellCodeRange(c[2], b.width, b.height);
    CellCodeRange(c[3], b.width, b.height);
    FourDigitBound(CellCode(c[0], b.height), CellCode(c[1], b.height), CellCode(c[2], b.height), CellCode(c[3], b.height), b.width * b.height);
  }

  /** Two placed states with the same number are the same state. */
  lemma StateCodeInjective(b: Board, s: GameState, t: GameState)
    requires Placed(b, s) && Placed(b, t)
    requires StateCode(s, b.height, b.width * b.height) == StateCode(t, b.height, b.width * b.height)
    ensures s == t
  {
    var n := b.width * b.height;
    var c, e := s.piecePositions, t.piecePositions;
    forall i | 0 <= i < 4 ensures 0 <= CellCode(c[i], b.height) < n && 0 <= CellCode(e[i], b.height) < n {
      CellCodeRange(c[i], b.width, b.height);
      CellCodeRange(e[i], b.width, b.height);
    }
    FourDigitPair(CellCode(c[0], b.height), CellCode(c[1], b.height), CellCode(c[2], b.height), CellCode(c[3], b.height),
      CellCode(e[0], b.height), CellCode(e[1], b.height), CellCode(e[2], b.height), CellCode(e[3], b.height), n);
    forall i | 0 <= i < 4 ensures c[i] == e[i] {
      CellCodeInjective(c[i], e[i], b.width, b.height);
    }
    assert c == e;
  }

  /** The integers 0 .. m - 1. */
  function Below(m: nat): set<int> {
    if m == 0 then {} else Below(m - 1) + {m - 1}
  }

  lemma {:induction false} BelowCard(m: nat)
    ensures |Below(m)| == m
    ensures forall k :: k in Below(m) <==> 0 <= k < m
  {
    if m > 0 {
      BelowCard(m - 1);
    }
  }

  /** The numbers of the placed states of `S`. */
  function Codes(S: set<GameState>, b: Board): set<int> {
    set s | s in S && Placed(b, s) :: StateCode(s, b.height, b.width * b.height)
  }

  /** Placed states have as many numbers as there are states. */
  lemma {:induction false} CodesCard(S: set<GameState>, b: Board)
    requires forall s :: s in S ==> Placed(b, s)
    ensures |Codes(S, b)| == |S|
    decreases |S|
  {
    if S == {} {
      assert Codes(S, b) == {};
    } else {
      var s :| s in S;
      var S' := S - {s};
      CodesCard(S', b);
      var k := StateCode(s, b.height, b.width * b.height);
      assert Codes(S, b) == Codes(S', b) + {k};
      if k in Codes(S', b) {
        var t :| t in S' && StateCode(t, b.height, b.width * b.height) == k;
        StateCodeInjective(b, s, t);
      }
    }
  }

  /** A set of placed states has at most (width * height)^4 elements. */
  lemma PlacedStatesCount(S: set<GameState>, b: Board)
    requires forall s :: s in S ==> Placed(b, s)
    ensures var n := b.width * b.height; |S| <= n * n * n * n
  {
    var n := b.width * b.height;
    var M := n * n * n * n;
    CodesCard(S, b);
    if S != {} {
      var s :| s in S;
      StateCodeRange(b, s);
      BelowCard(M);
      forall k | k in Codes(S, b) ensures k in Below(M) {
        var t :| t in S && StateCode(t, b.height, n) == k;
        StateCodeRange(b, t);
      }
      assert Codes(S, b) <= Below(M);
      assert Below(M) == Codes(S, b) + (Below(M) - Codes(S, b));
    }
  }

  /**
   * On a board of at most 16 cells, from a well-placed start, a set of
   * reachable non-winning states has at most 65536 elements, so the
   * solver's budget of 75000 dequeued states is never used up there.
   */
  lemma ReachableStatesFew(b: Board, win: GameState -> bool, init: GameState, E: set<GameState>)
    requires Placed(b, init) && b.width * b.height <= 16
    requires ReachedNonWinning(GameStep(b), win, init, E)
    ensures |E| <= 65536
  {
    forall s | s in E ensures Placed(b, s) {
      var p :| Run(GameStep(b), init, p) == s;
      RunKeepsPlaced(b, init, p);
    }
    PlacedStatesCount(E, b);
    var n := b.width * b.height;
    if E != {} {
      var s :| s in E;
      assert InGrid(s.piecePositions[0], b.width, b.height);
      MulMono(n, 16, n);
      MulMono(n * n, 256, n);
      MulMono(n * n * n, 4096, n);
      MulMono(n, 16, 16);
      MulMono(n * n, 256, 16);
      MulMono(n * n * n, 4096, 16);
    }
  }
}
