/**
 * The solver's search state: the four piece positions ordered by piece
 * type, with element-wise equality and a polynomial hash.
 */
module GameStates {
  import opened Geometry
  import opened Wrappers
  import opened LevelModel

  /** `GameState.piecePositions`: index t holds the piece of type t. */
  datatype GameState = GameState(piecePositions: seq<Pos>)

  /** The exception the list constructor throws. */
  datatype StateError = ArgumentException

  /**
   * `new GameState(piecesList)`: sorts a copy by type and throws unless it
   * holds exactly four pieces.
   */
  function FromPieces(pieces: seq<PieceData>): (r: Result<GameState, StateError>)
    ensures r.Success? <==> |pieces| == 4
    ensures r.Success? ==> |r.value.piecePositions| == 4
  {
    var ordered := SortByType(pieces);
    if |ordered| != 4 then Failure(ArgumentException)
    else Success(GameState(Positions(ordered)))
  }

  /** With one piece per type, the state holds each piece's position at the index of its type. */
  lemma FromPiecesOrdersByType(pieces: seq<PieceData>)
    requires OnePerType(pieces)
    ensures FromPieces(pieces).Success?
    ensures forall i :: 0 <= i < |pieces| ==>
              0 <= pieces[i].pieceType < 4
              && FromPieces(pieces).value.piecePositions[pieces[i].pieceType] == pieces[i].position
  {
    SortByTypeIndexes(pieces);
  }

  /** The index-by-index loop of `GameState.Equals` from `i`: true exactly when the suffixes agree. */
  function EqualsFrom(a: seq<Pos>, b: seq<Pos>, i: nat): (r: bool)
    requires |a| == |b| && i <= |a|
    ensures r <==> a[i..] == b[i..]
    decreases |a| - i
  {
    if i == |a| then true
    else if a[i].x != b[i].x || a[i].y != b[i].y then
      assert a[i..][0] == a[i] && b[i..][0] == b[i];
      false
    else
      assert a[i..] == [a[i]] + a[i + 1..];
      assert b[i..] == [b[i]] + b[i + 1..];
      EqualsFrom(a, b, i + 1)
  }

  /** `GameState.Equals`: equal lengths, then the element loop; it is value equality of the states. */
  function StateEquals(s: GameState, t: GameState): (r: bool)
    ensures r <==> s == t
  {
    if |s.piecePositions| != |t.piecePositions| then false
    else
      assert s.piecePositions[0..] == s.piecePositions;
      assert t.piecePositions[0..] == t.piecePositions;
      EqualsFrom(s.piecePositions, t.piecePositions, 0)
  }

  /**
   * `GetHashCode` over the first `n` positions: 17, then times 31 plus the
   * element hash, with Vector2Int's hash as the parameter `elemHash`.
   */
  function HashPrefix(p: seq<Pos>, n: nat, elemHash: Pos -> int): int
    requires n <= |p|
  {
    if n == 0 then 17 else HashPrefix(p, n - 1, elemHash) * 31 + elemHash(p[n - 1])
  }

  function Hash(s: GameState, elemHash: Pos -> int): int {
    HashPrefix(s.piecePositions, |s.piecePositions|, elemHash)
  }

  /** States the source calls equal get equal hash codes. */
  lemma EqualStatesHashEqual(s: GameState, t: GameState, elemHash: Pos -> int)
    requires StateEquals(s, t)
    ensures Hash(s, elemHash) == Hash(t, elemHash)
  {
  }
}
