/**
 * The generator's win test on a type-ordered position array: the four
 * positions must span a 2x2 box with index 0, 1, 2, 3 at its top-left,
 * top-right, bottom-left and bottom-right corner (+y is up).
 */
module WinEvaluator {
  import opened Geometry

  /** The running bounding box of the min/max loop. */
  datatype Bounds = Bounds(minX: int, maxX: int, minY: int, maxY: int)

  /** The loop's starting values: int.MaxValue for the minima, int.MinValue for the maxima. */
  const Unset: Bounds := Bounds(IntMax, IntMin, IntMax, IntMin)

  /** The min/max loop over `s[i..]`, starting from the box `b`. */
  function BoundsFrom(s: seq<Pos>, i: nat, b: Bounds): (r: Bounds)
    requires i <= |s|
    ensures r.minX <= b.minX && forall k :: i <= k < |s| ==> r.minX <= s[k].x
    ensures r.maxX >= b.maxX && forall k :: i <= k < |s| ==> r.maxX >= s[k].x
    ensures r.minY <= b.minY && forall k :: i <= k < |s| ==> r.minY <= s[k].y
    ensures r.maxY >= b.maxY && forall k :: i <= k < |s| ==> r.maxY >= s[k].y
    ensures r.minX == b.minX || exists k :: i <= k < |s| && r.minX == s[k].x
    ensures r.maxX == b.maxX || exists k :: i <= k < |s| && r.maxX == s[k].x
    ensures r.minY == b.minY || exists k :: i <= k < |s| && r.minY == s[k].y
    ensures r.maxY == b.maxY || exists k :: i <= k < |s| && r.maxY == s[k].y
    decreases |s| - i
  {
    if i == |s| then b
    else
      var p := s[i];
      var b' := Bounds(
        if p.x < b.minX then p.x else b.minX,
        if p.x > b.maxX then p.x else b.maxX,
        if p.y < b.minY then p.y else b.minY,
        if p.y > b.maxY then p.y else b.maxY);
      BoundsFrom(s, i + 1, b')
  }

  /** The bounding box of `s` as the source computes it. */
  function BoundsOf(s: seq<Pos>): Bounds {
    BoundsFrom(s, 0, Unset)
  }

  /** A 2x2 box: the source's `isTwoByTwoSquare`. */
  predicate IsTwoByTwo(b: Bounds) {
    b.maxX - b.minX == 1 && b.maxY - b.minY == 1
  }

  /** The four corner flags. */
  datatype Corners = Corners(topLeft: bool, topRight: bool, bottomLeft: bool, bottomRight: bool)

  const NoCorners: Corners := Corners(false, false, false, false)

  /** The offset from the box's bottom-left cell at which the piece of type `t` belongs. */
  function CornerOffset(t: int): Pos {
    if t == 0 then Pos(0, 1)
    else if t == 1 then Pos(1, 1)
    else if t == 2 then Pos(0, 0)
    else Pos(1, 0)
  }

  /** One iteration of the corner loop: the piece at `p` with index `t`. */
  function CornerStep(p: Pos, t: int, b: Bounds, c: Corners): Corners {
    if b.minX <= p.x <= b.maxX && b.minY <= p.y <= b.maxY then
      var rel := Sub(p, Pos(b.minX, b.minY));
      if rel == Pos(0, 1) && t == 0 then c.(topLeft := true)
      else if rel == Pos(1, 1) && t == 1 then c.(topRight := true)
      else if rel == Pos(0, 0) && t == 2 then c.(bottomLeft := true)
      else if rel == Pos(1, 0) && t == 3 then c.(bottomRight := true)
      else c
    else c
  }

  /** The corner loop over indices `t..3`. */
  function CornersFrom(s: seq<Pos>, t: nat, b: Bounds, c: Corners): Corners
    requires |s| == 4 && t <= 4
    decreases 4 - t
  {
    if t == 4 then c else CornersFrom(s, t + 1, b, CornerStep(s[t], t, b, c))
  }

  /**
   * `CheckWinConditionInState`: false unless there are four positions;
   * otherwise the box must be 2x2 and all four corner flags set. The grid
   * size arguments of the source are never read and are not modelled.
   */
  function CheckWinConditionInState(s: seq<Pos>): (won: bool)
    ensures won ==> |s| == 4
  {
    if |s| != 4 then false
    else
      var b := BoundsOf(s);
      if IsTwoByTwo(b) then
        var c := CornersFrom(s, 0, b, NoCorners);
        c.topLeft && c.topRight && c.bottomLeft && c.bottomRight
      else false
  }

  /**
   * The solved shape, stated without the loops: index 1 right of index 0,
   * index 2 below it, index 3 below-right of it.
   */
  predicate IsWinningSquare(s: seq<Pos>) {
    |s| == 4
    && s[1] == Add(s[0], Pos(1, 0))
    && s[2] == Add(s[0], Pos(0, -1))
    && s[3] == Add(s[0], Pos(1, -1))
  }

  /** Every coordinate fits a C# `int`, as Vector2Int's do. */
  predicate AllInt32(s: seq<Pos>) {
    forall i :: 0 <= i < |s| ==> IsInt32(s[i].x) && IsInt32(s[i].y)
  }

  /** Corner loop unrolled: flag t is set iff position t sits in the box at its corner offset. */
  lemma CornersFromFour(s: seq<Pos>, b: Bounds)
    requires |s| == 4
    ensures var c := CornersFrom(s, 0, b, NoCorners);
      (c.topLeft <==> AtCorner(s[0], 0, b))
      && (c.topRight <==> AtCorner(s[1], 1, b))
      && (c.bottomLeft <==> AtCorner(s[2], 2, b))
      && (c.bottomRight <==> AtCorner(s[3], 3, b))
  {
    var c1 := CornerStep(s[0], 0, b, NoCorners);
    var c2 := CornerStep(s[1], 1, b, c1);
    var c3 := CornerStep(s[2], 2, b, c2);
    var c4 := CornerStep(s[3], 3, b, c3);
    assert CornersFrom(s, 0, b, NoCorners) == CornersFrom(s, 1, b, c1) == CornersFrom(s, 2, b, c2)
        == CornersFrom(s, 3, b, c3) == CornersFrom(s, 4, b, c4) == c4;
  }

  /** The piece of type `t` at `p` lies inside box `b` at the corner type `t` belongs to. */
  predicate AtCorner(p: Pos, t: int, b: Bounds) {
    b.minX <= p.x <= b.maxX && b.minY <= p.y <= b.maxY
    && Sub(p, Pos(b.minX, b.minY)) == CornerOffset(t)
  }

  /**
   * The loop-based test and the shape agree, for 32-bit coordinates (with
   * wider ones the int.MaxValue / int.MinValue starting values could stand).
   */
  lemma WinIffSquare(s: seq<Pos>)
    requires AllInt32(s)
    ensures CheckWinConditionInState(s) <==> IsWinningSquare(s)
  {
    if |s| == 4 {
      var b := BoundsOf(s);
      CornersFromFour(s, b);
      if IsWinningSquare(s) {
        SquareBounds(s);
      }
    }
  }

  /** The bounding box of a winning square spans from index 2 to index 1. */
  lemma SquareBounds(s: seq<Pos>)
    requires AllInt32(s) && IsWinningSquare(s)
    ensures BoundsOf(s) == Bounds(s[0].x, s[0].x + 1, s[0].y - 1, s[0].y)
  {
    var b := BoundsOf(s);
    assert IsInt32(s[1].x) && IsInt32(s[2].y);
    assert b.minX <= s[0].x && b.maxX >= s[1].x;
    assert b.minY <= s[2].y && b.maxY >= s[0].y;
  }
}
