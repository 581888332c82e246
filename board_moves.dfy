/** Board.getValidMoves (Models/Board.ts): the generator for a piece's kind. */
module MoveGeneration {
  import opened Types
  import opened Positions
  import opened Pieces
  import opened GeneralRules
  import opened PawnRules
  import opened Leapers
  import opened Rays
  import opened KnightRules
  import opened BishopRules
  import opened RookRules
  import opened QueenRules
  import opened KingRules
  import opened Layouts

  /** The switch on the piece's kind. */
  function ValidMoves(piece: Piece, board: seq<Piece>): seq<Position>
  {
    match piece.kind
    case Pawn => PossiblePawnMoves(piece, board)
    case Knight => PossibleKnightMoves(piece, board)
    case Bishop => PossibleBishopMoves(piece, board)
    case Rook => PossibleRookMoves(piece, board)
    case Queen => PossibleQueenMoves(piece, board)
    case King => PossibleKingMoves(piece, board)
  }

  /** No generator offers a square held by a piece of the mover's team, nor
      the mover's own square. */
  lemma ValidMovesNoFriend(piece: Piece, board: seq<Piece>, m: Position)
    requires m in ValidMoves(piece, board)
    ensures TileIsEmptyOrOccupiedByOpponent(m, board, piece.team)
    ensures m != piece.position
  {
    match piece.kind
    case Pawn =>
      PossiblePawnMovesShape(piece, board);
    case Knight =>
      PossibleKnightMovesMeaning(piece, board, m);
    case King =>
      PossibleKingMovesMeaning(piece, board, m);
    case Bishop =>
      SlideMoveStep(piece.position, piece.team, board, BishopDirections, m);
      SlideMovesLeaveOrigin(piece.position, piece.team, board, BishopDirections);
    case Rook =>
      SlideMoveStep(piece.position, piece.team, board, RookDirections, m);
      SlideMovesLeaveOrigin(piece.position, piece.team, board, RookDirections);
    case Queen =>
      SlideMoveStep(piece.position, piece.team, board, QueenDirections, m);
      SlideMovesLeaveOrigin(piece.position, piece.team, board, QueenDirections);
  }

  /** The generated squares depend on where the pieces stand and not on the
      pieces' own lists of possible moves. */
  lemma ValidMovesCongruent(p: Piece, q: Piece, a: seq<Piece>, b: seq<Piece>)
    requires Stripped(p) == Stripped(q) && SameLayout(a, b)
    ensures ValidMoves(p, a) == ValidMoves(q, b)
  {
    assert p.position == q.position && p.team == q.team && p.kind == q.kind by {
      assert Stripped(p).position == Stripped(q).position;
      assert Stripped(p).team == Stripped(q).team && Stripped(p).kind == Stripped(q).kind;
    }
    match p.kind
    case Pawn => PawnMovesCongruent(p, q, a, b);
    case Knight => OffsetTargetsCongruent(p.position, p.team, a, b, KnightOffsets);
    case King => OffsetTargetsCongruent(p.position, p.team, a, b, KingOffsets);
    case Bishop => SlideMovesCongruent(p.position, p.team, a, b, BishopDirections);
    case Rook => SlideMovesCongruent(p.position, p.team, a, b, RookDirections);
    case Queen => SlideMovesCongruent(p.position, p.team, a, b, QueenDirections);
  }
}
