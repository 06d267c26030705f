/**
 * Board geometry shared by the solver and live play: integer grid
 * coordinates (Unity's Vector2Int), the four swipe directions, and the
 * in-bounds / blocked queries. Logical coordinates grow upwards: +y is "up".
 */
module Geometry {

  /** A grid coordinate; both components are 32-bit in the source. */
  datatype Pos = Pos(x: int, y: int)

  /** Component-wise sum, Vector2Int's `+`. */
  function Add(p: Pos, d: Pos): Pos {
    Pos(p.x + d.x, p.y + d.y)
  }

  /** Component-wise difference, Vector2Int's `-`. */
  function Sub(p: Pos, d: Pos): Pos {
    Pos(p.x - d.x, p.y - d.y)
  }

  /** The four swipe directions, in the order the solver tries them. */
  datatype Dir = Up | Down | Left | Right {
    /** Unity's Vector2Int.up / down / left / right. */
    function Delta(): (d: Pos)
      ensures d.x * d.x + d.y * d.y == 1
    {
      match this
      case Up => Pos(0, 1)
      case Down => Pos(0, -1)
      case Left => Pos(-1, 0)
      case Right => Pos(1, 0)
    }
  }

  /** The solver's direction array: up, down, left, right. */
  const SwipeDirections: seq<Dir> := [Up, Down, Left, Right]

  /** The position of `d` in `SwipeDirections`. */
  function DirIndex(d: Dir): (i: nat)
    ensures i < |SwipeDirections| && SwipeDirections[i] == d
  {
    match d
    case Up => 0
    case Down => 1
    case Left => 2
    case Right => 3
  }

  /** `0 <= x < width && 0 <= y < height`. */
  predicate InGrid(p: Pos, width: int, height: int) {
    0 <= p.x < width && 0 <= p.y < height
  }

  /** C#'s int.MaxValue and int.MinValue. */
  const IntMax: int := 0x7fff_ffff
  const IntMin: int := -0x8000_0000

  predicate IsInt32(n: int) {
    IntMin <= n <= IntMax
  }

  /** Unchecked 32-bit two's-complement wrap-around of C#'s default `int` arithmetic. */
  function Wrap32(n: int): (r: int)
    ensures IsInt32(r)
    ensures (r - n) % 0x1_0000_0000 == 0
    ensures IsInt32(n) ==> r == n
  {
    var m := (n - IntMin) % 0x1_0000_0000;
    m + IntMin
  }

  /** The members of a list, for the source's `List.Contains` lookups. */
  function SetOf<T>(s: seq<T>): set<T> {
    set x | x in s
  }

  /** No two elements of `s` are equal. */
  predicate Distinct<T(==)>(s: seq<T>) {
    forall i, j :: 0 <= i < j < |s| ==> s[i] != s[j]
  }

  /** `List.RemoveAt(i)`: the list without its element at index `i`. */
  function RemoveAt<T>(s: seq<T>, i: int): (r: seq<T>)
    requires 0 <= i < |s|
    ensures |r| == |s| - 1
    ensures forall j :: 0 <= j < |r| ==> r[j] == if j < i then s[j] else s[j + 1]
    ensures multiset(r) + multiset{s[i]} == multiset(s)
  {
    assert s == s[..i] + [s[i]] + s[i + 1..];
    s[..i] + s[i + 1..]
  }

  /** Removing an element from a duplicate-free list removes every copy of it and keeps the rest. */
  lemma RemoveAtDistinct<T>(s: seq<T>, i: int)
    requires 0 <= i < |s| && Distinct(s)
    ensures Distinct(RemoveAt(s, i))
    ensures s[i] !in RemoveAt(s, i)
    ensures forall x :: x in RemoveAt(s, i) ==> x in s
  {
    var r := RemoveAt(s, i);
    forall x | x in r ensures x in s && x != s[i] {
      var j :| 0 <= j < |r| && r[j] == x;
    }
  }
}
