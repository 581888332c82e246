/** Pawn moves (Rules/PawnRules.ts): the single-move validator and the
    generator of a pawn's possible moves, including en passant. */
module PawnRules {
  import opened Types
  import opened Positions
  import opened Pieces
  import opened GeneralRules

  /** The row from which a pawn may advance two squares. */
  function SpecialRow(team: Team): int
  {
    if team == White then 1 else 6
  }

  /** The direction in which a pawn advances along y. */
  function PawnDirection(team: Team): int
  {
    if team == White then 1 else -1
  }

  /** isValidPawnMove, which PawnRules calls unchanged: a one-square advance
      onto an empty square, a two-square advance from the special row over
      two empty squares, or a diagonal step onto a square an opponent holds. */
  predicate IsValidPawnMove(initial: Position, desired: Position, team: Team, board: seq<Piece>)
  {
    var direction := PawnDirection(team);
    var distance := desired.y - initial.y;
    if initial.x == desired.x && distance == direction then
      !TileIsOccupied(desired, board)
    else if initial.x == desired.x && initial.y == SpecialRow(team) && distance == 2 * direction then
      !TileIsOccupied(desired, board) && !TileIsOccupied(Position(desired.x, desired.y - direction), board)
    else if Abs(desired.x - initial.x) == 1 && distance == direction then
      TileIsOccupiedByOpponent(desired, board, team)
    else
      false
  }

  /** The piece found beside the pawn on square pos carries the en-passant
      flag; its team is not looked at. */
  predicate EnPassantNeighbour(pos: Position, board: seq<Piece>)
  {
    match FindAt(pos, board)
    case None => false
    case Some(p) => p.enPassant
  }

  /** The moves along the pawn's file. */
  function ForwardMoves(pawn: Piece, board: seq<Piece>): seq<Position>
  {
    var direction := PawnDirection(pawn.team);
    var normalMove := Position(pawn.position.x, pawn.position.y + direction);
    var specialMove := Position(normalMove.x, normalMove.y + direction);
    if TileIsOccupied(normalMove, board) then []
    else if pawn.position.y == SpecialRow(pawn.team) && !TileIsOccupied(specialMove, board) then [normalMove, specialMove]
    else [normalMove]
  }

  /** The diagonal move towards file x + side, side being -1 or 1: a capture,
      or an en-passant capture onto an empty square. */
  function DiagonalMoves(pawn: Piece, board: seq<Piece>, side: int): seq<Position>
  {
    var attack := Position(pawn.position.x + side, pawn.position.y + PawnDirection(pawn.team));
    var beside := Position(pawn.position.x + side, pawn.position.y);
    if TileIsOccupiedByOpponent(attack, board, pawn.team) then [attack]
    else if !TileIsOccupied(attack, board) && EnPassantNeighbour(beside, board) then [attack]
    else []
  }

  /** getPossiblePawnMoves: the forward moves, then the left and the right
      diagonal. */
  function PossiblePawnMoves(pawn: Piece, board: seq<Piece>): seq<Position>
  {
    ForwardMoves(pawn, board) + DiagonalMoves(pawn, board, -1) + DiagonalMoves(pawn, board, 1)
  }

  /** getPossiblePawnMoves as the source writes it: pushes onto a list. */
  method GetPossiblePawnMoves(pawn: Piece, board: seq<Piece>) returns (moves: seq<Position>)
    ensures moves == PossiblePawnMoves(pawn, board)
  {
    moves := [];
    var specialRow := SpecialRow(pawn.team);
    var pawnDirection := PawnDirection(pawn.team);
    var normalMove := Position(pawn.position.x, pawn.position.y + pawnDirection);
    if !TileIsOccupied(normalMove, board) {
      moves := moves + [normalMove];
      if pawn.position.y == specialRow {
        var specialMove := Position(normalMove.x, normalMove.y + pawnDirection);
        if !TileIsOccupied(specialMove, board) {
          moves := moves + [specialMove];
        }
      }
    }
    assert moves == ForwardMoves(pawn, board);
    var left := PushDiagonal(pawn, board, -1);
    var right := PushDiagonal(pawn, board, 1);
    moves := moves + left + right;
  }

  /** One diagonal attack of getPossiblePawnMoves. */
  method PushDiagonal(pawn: Piece, board: seq<Piece>, side: int) returns (moves: seq<Position>)
    ensures moves == DiagonalMoves(pawn, board, side)
  {
    moves := [];
    var attack := Position(pawn.position.x + side, pawn.position.y + PawnDirection(pawn.team));
    var beside := Position(pawn.position.x + side, pawn.position.y);
    if TileIsOccupiedByOpponent(attack, board, pawn.team) {
      moves := [attack];
    } else if !TileIsOccupied(attack, board) {
      var piece := FindAt(beside, board);
      if piece.Some? && piece.value.enPassant {
        moves := [attack];
      }
    }
  }

  /** A diagonal square is offered exactly when an opponent holds it, or when
      it is empty and the piece beside the pawn on that side has its
      en-passant flag set, whatever that piece's team. */
  predicate DiagonalOffered(pawn: Piece, board: seq<Piece>, side: int)
  {
    var attack := Position(pawn.position.x + side, pawn.position.y + PawnDirection(pawn.team));
    TileIsOccupiedByOpponent(attack, board, pawn.team)
    || (!TileIsOccupied(attack, board) && EnPassantNeighbour(Position(pawn.position.x + side, pawn.position.y), board))
  }

  /** The shape of the generated list: at most four squares, each one rank
      ahead (or two, straight ahead, from the special row), at most one file
      over, none of them held by a piece of the pawn's team; the double step
      is there exactly when both squares ahead are empty and the pawn is on
      its special row, and each diagonal exactly when DiagonalOffered holds. */
  lemma PossiblePawnMovesShape(pawn: Piece, board: seq<Piece>)
    ensures var r := PossiblePawnMoves(pawn, board);
      var direction := PawnDirection(pawn.team);
      && |r| <= 4
      && (forall m :: m in r ==>
            && TileIsEmptyOrOccupiedByOpponent(m, board, pawn.team)
            && Abs(m.x - pawn.position.x) <= 1
            && (m.y == pawn.position.y + direction
                || (m.y == pawn.position.y + 2 * direction && m.x == pawn.position.x
                    && pawn.position.y == SpecialRow(pawn.team))))
      && (Position(pawn.position.x, pawn.position.y + 2 * direction) in r <==>
            && !TileIsOccupied(Position(pawn.position.x, pawn.position.y + direction), board)
            && pawn.position.y == SpecialRow(pawn.team)
            && !TileIsOccupied(Position(pawn.position.x, pawn.position.y + 2 * direction), board))
      && (Position(pawn.position.x - 1, pawn.position.y + direction) in r <==> DiagonalOffered(pawn, board, -1))
      && (Position(pawn.position.x + 1, pawn.position.y + direction) in r <==> DiagonalOffered(pawn, board, 1))
  {
    var direction := PawnDirection(pawn.team);
    var f, l, rt := ForwardMoves(pawn, board), DiagonalMoves(pawn, board, -1), DiagonalMoves(pawn, board, 1);
    assert PossiblePawnMoves(pawn, board) == f + l + rt;
    forall m | m in l + rt ensures TileIsEmptyOrOccupiedByOpponent(m, board, pawn.team) {
    }
  }

  /** The validator and the generator agree except on en passant: a square
      the validator accepts is generated, and a generated square the
      validator refuses is an empty diagonal square offered for en passant. */
  lemma ValidatorAgreesWithGenerator(pawn: Piece, desired: Position, board: seq<Piece>)
    ensures IsValidPawnMove(pawn.position, desired, pawn.team, board) ==> desired in PossiblePawnMoves(pawn, board)
    ensures desired in PossiblePawnMoves(pawn, board) && !IsValidPawnMove(pawn.position, desired, pawn.team, board)
            ==> && Abs(desired.x - pawn.position.x) == 1
                && desired.y == pawn.position.y + PawnDirection(pawn.team)
                && !TileIsOccupied(desired, board)
                && EnPassantNeighbour(Position(desired.x, pawn.position.y), board)
  {
    var f, l, rt := ForwardMoves(pawn, board), DiagonalMoves(pawn, board, -1), DiagonalMoves(pawn, board, 1);
    assert PossiblePawnMoves(pawn, board) == f + l + rt;
  }
}
