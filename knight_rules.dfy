/** Knight moves (Rules/KnightRules.ts). */
module KnightRules {
  import opened Types
  import opened Positions
  import opened Pieces
  import opened GeneralRules
  import opened Leapers

  const KnightOffsets: seq<Offset> := [(1, 2), (1, -2), (-1, 2), (-1, -2), (2, 1), (2, -1), (-2, 1), (-2, -1)]

  predicate IsKnightOffset(dx: int, dy: int)
  {
    (Abs(dx) == 1 && Abs(dy) == 2) || (Abs(dx) == 2 && Abs(dy) == 1)
  }

  /** knightMove: the target is one knight offset away and is empty or held
      by an opponent. The board's bounds are not checked. */
  predicate KnightMove(initial: Position, desired: Position, team: Team, board: seq<Piece>)
  {
    exists k :: 0 <= k < |KnightOffsets| && SamePosition(desired, Target(initial, KnightOffsets[k]))
                && TileIsEmptyOrOccupiedByOpponent(desired, board, team)
  }

  /** The knight offsets are exactly the displacements (+-1, +-2) and (+-2, +-1). */
  lemma KnightOffsetsAreKnightJumps(initial: Position, desired: Position)
    ensures (exists k :: 0 <= k < |KnightOffsets| && desired == Target(initial, KnightOffsets[k]))
            <==> IsKnightOffset(desired.x - initial.x, desired.y - initial.y)
  {
    var dx, dy := desired.x - initial.x, desired.y - initial.y;
    if IsKnightOffset(dx, dy) {
      var k := if dx == 1 && dy == 2 then 0 else if dx == 1 && dy == -2 then 1
        else if dx == -1 && dy == 2 then 2 else if dx == -1 && dy == -2 then 3
        else if dx == 2 && dy == 1 then 4 else if dx == 2 && dy == -1 then 5
        else if dx == -2 && dy == 1 then 6 else 7;
      assert desired == Target(initial, KnightOffsets[k]);
    }
  }

  /** knightMove accepts exactly the knight jumps onto a square that is empty
      or held by an opponent. */
  lemma KnightMoveMeaning(initial: Position, desired: Position, team: Team, board: seq<Piece>)
    ensures KnightMove(initial, desired, team, board) <==>
      IsKnightOffset(desired.x - initial.x, desired.y - initial.y) && TileIsEmptyOrOccupiedByOpponent(desired, board, team)
  {
    KnightOffsetsAreKnightJumps(initial, desired);
  }

  /** getPossibleKnightMoves. */
  function PossibleKnightMoves(knight: Piece, board: seq<Piece>): seq<Position>
  {
    OffsetTargets(knight.position, knight.team, board, KnightOffsets)
  }

  method GetPossibleKnightMoves(knight: Piece, board: seq<Piece>) returns (moves: seq<Position>)
    ensures moves == PossibleKnightMoves(knight, board)
  {
    moves := CollectOffsetTargets(knight.position, knight.team, board, KnightOffsets);
  }

  /** At most eight squares, and a square is generated exactly when it is a
      knight jump away, on the board, and empty or held by an opponent. */
  lemma PossibleKnightMovesMeaning(knight: Piece, board: seq<Piece>, m: Position)
    ensures |PossibleKnightMoves(knight, board)| <= 8
    ensures m in PossibleKnightMoves(knight, board) <==>
      && IsKnightOffset(m.x - knight.position.x, m.y - knight.position.y)
      && OnBoard(m)
      && TileIsEmptyOrOccupiedByOpponent(m, board, knight.team)
  {
    OffsetTargetsMembership(knight.position, knight.team, board, KnightOffsets);
    KnightOffsetsAreKnightJumps(knight.position, m);
  }

  /** The validator and the generator agree on every square of the board;
      off the board the validator may accept what the generator never offers. */
  lemma KnightValidatorAgreesWithGenerator(knight: Piece, desired: Position, board: seq<Piece>)
    ensures OnBoard(desired) ==>
      (KnightMove(knight.position, desired, knight.team, board) <==> desired in PossibleKnightMoves(knight, board))
    ensures !OnBoard(desired) ==> desired !in PossibleKnightMoves(knight, board)
  {
    PossibleKnightMovesMeaning(knight, board, desired);
    KnightMoveMeaning(knight.position, desired, knight.team, board);
  }
}
