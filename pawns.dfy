/** The Pawn subclass (Models/Pawn.ts): a piece of kind Pawn that carries an
    en-passant flag. Pawn.clone is Piece.Clone, which keeps the flag. */
module Pawns {
  import opened Types
  import opened Positions
  import opened Pieces

  /** The Pawn constructor; an absent flag is passed as false. */
  function NewPawn(position: Position, team: Team, hasMoved: bool, enPassant: bool := false,
                   possibleMoves: seq<Position> := []): (p: Piece)
    ensures p.IsPawn() && p.kind == Pawn
    ensures p.position == position && p.team == team && p.hasMoved == hasMoved
    ensures p.enPassant == enPassant && p.possibleMoves == possibleMoves
  {
    Piece(position, Pawn, team, hasMoved, enPassant, possibleMoves)
  }

  /** Cloning a pawn keeps it a pawn with the same flag, team and square. */
  lemma CloneKeepsPawn(p: Piece)
    requires p.IsPawn()
    ensures p.Clone().IsPawn() && p.Clone().enPassant == p.enPassant
    ensures p.Clone().team == p.team && p.Clone().hasMoved == p.hasMoved && p.Clone().position == p.position
  {
  }
}
