/** A chess piece (Models/Piece.ts). The en-passant flag that the source keeps
    on the Pawn subclass (Models/Pawn.ts) is a field of every piece here; it is
    false on every piece that is not a pawn, and an absent flag is false. The
    list of possible moves is always present: the source's constructor puts an
    empty list in place of a missing one. */
module Pieces {
  import opened Types
  import opened Positions

  datatype Piece = Piece(
    position: Position,
    kind: PieceType,
    team: Team,
    hasMoved: bool,
    enPassant: bool,
    possibleMoves: seq<Position>)
  {
    predicate IsPawn() { kind == Pawn }
    predicate IsRook() { kind == Rook }
    predicate IsKnight() { kind == Knight }
    predicate IsBishop() { kind == Bishop }
    predicate IsKing() { kind == King }
    predicate IsQueen() { kind == Queen }

    /** Piece.samePiecePosition: the two pieces stand on the same square. */
    predicate SamePiecePosition(other: Piece)
    {
      Positions.SamePosition(position, other.position)
    }

    /** Piece.samePosition: this piece stands on pos. */
    predicate SamePosition(pos: Position)
    {
      Positions.SamePosition(position, pos)
    }

    /** Piece.clone and Pawn.clone: copies of the position and of every
        possible move, with the same kind, team and flags. */
    function Clone(): (c: Piece)
      ensures c == this
    {
      Piece(Positions.Clone(position), kind, team, hasMoved, enPassant, Positions.CloneAll(possibleMoves))
    }
  }

  /** The Piece constructor: the possible moves default to the empty list and
      a piece built this way carries no en-passant flag. */
  function NewPiece(position: Position, kind: PieceType, team: Team, hasMoved: bool,
                    possibleMoves: seq<Position> := []): (p: Piece)
    ensures p.position == position && p.kind == kind && p.team == team
    ensures p.hasMoved == hasMoved && p.possibleMoves == possibleMoves && !p.enPassant
  {
    Piece(position, kind, team, hasMoved, false, possibleMoves)
  }

  /** Exactly one of the six kind predicates holds, the one named by kind. */
  lemma ExactlyOneKind(p: Piece)
    ensures p.IsPawn() <==> p.kind == Pawn
    ensures (if p.IsPawn() then 1 else 0) + (if p.IsRook() then 1 else 0) + (if p.IsKnight() then 1 else 0)
          + (if p.IsBishop() then 1 else 0) + (if p.IsKing() then 1 else 0) + (if p.IsQueen() then 1 else 0) == 1
  {
  }

  /** samePiecePosition and samePosition are equality of squares. */
  lemma SamePositionMeansEqualSquares(p: Piece, q: Piece, pos: Position)
    ensures p.SamePiecePosition(q) <==> p.position == q.position
    ensures p.SamePosition(pos) <==> p.position == pos
  {
  }
}
