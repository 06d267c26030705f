/**
 * The serialisable level records: a piece placement and a level
 * (seed, name, grid size, blockers, initial pieces).
 */
module LevelModel {
  import opened Geometry
  import Sorting

  /** A piece placement; `pieceType` 0, 1, 2, 3 is top-left, top-right, bottom-left, bottom-right. */
  datatype PieceData = PieceData(position: Pos, pieceType: int)

  /** A level record as the generator produces it and the loader reads it. */
  datatype LevelData = LevelData(
    seed: int,
    levelName: string,
    gridSize: Pos,
    blockerPositions: seq<Pos>,
    initialPiecePositions: seq<PieceData>)

  /** The record a fresh `new LevelData()` holds: a 4x4 grid and empty blocker and piece lists. */
  function NewLevelData(): (d: LevelData)
    ensures d.gridSize == Pos(4, 4)
    ensures d.blockerPositions == []
    ensures d.initialPiecePositions == []
  {
    LevelData(0, "", Pos(4, 4), [], [])
  }

  /** The sort key of every `Sort` by piece type. */
  function TypeOf(p: PieceData): int {
    p.pieceType
  }

  /** The positions of the pieces, in list order. */
  function Positions(pieces: seq<PieceData>): (r: seq<Pos>)
    ensures |r| == |pieces|
    ensures forall i :: 0 <= i < |pieces| ==> r[i] == pieces[i].position
  {
    seq(|pieces|, i requires 0 <= i < |pieces| => pieces[i].position)
  }

  /** `list.Sort((p1, p2) => p1.pieceType.CompareTo(p2.pieceType))`. */
  function SortByType(pieces: seq<PieceData>): seq<PieceData> {
    Sorting.SortBy(pieces, TypeOf)
  }

  /** Exactly one piece of each of the four types. */
  predicate OnePerType(pieces: seq<PieceData>) {
    multiset(Sorting.Keys(pieces, TypeOf)) == multiset{0, 1, 2, 3}
  }

  /**
   * Sorting one piece of each type by type puts the piece of type t at
   * index t.
   */
  lemma SortByTypeIndexes(pieces: seq<PieceData>)
    requires OnePerType(pieces)
    ensures |pieces| == 4 && |SortByType(pieces)| == 4
    ensures forall t :: 0 <= t < 4 ==> SortByType(pieces)[t].pieceType == t
    ensures forall i :: 0 <= i < |pieces| ==>
              0 <= pieces[i].pieceType < 4 && SortByType(pieces)[pieces[i].pieceType] == pieces[i]
  {
    var r := SortByType(pieces);
    Sorting.SortByOnePerKey(pieces, TypeOf);
    forall k | 0 <= k < 4 ensures r[k].pieceType == k {
      assert TypeOf(r[k]) == k;
    }
    forall i | 0 <= i < |pieces| ensures 0 <= pieces[i].pieceType < 4 && r[pieces[i].pieceType] == pieces[i] {
      assert TypeOf(pieces[i]) == pieces[i].pieceType;
    }
  }
}
