/** Queen moves (Rules/QueenRules.ts). */
module QueenRules {
  import opened Types
  import opened Positions
  import opened Pieces
  import opened GeneralRules
  import opened Rays

  /** Right, left, up, down, then the diagonals up-right, up-left,
      down-right, down-left. */
  const QueenDirections: seq<Direction> :=
    [(1, 0), (-1, 0), (0, 1), (0, -1), (1, 1), (-1, 1), (1, -1), (-1, -1)]

  /** What queenMove returns: walk in the sign direction of the
      displacement, whatever it is. */
  predicate QueenAccepts(initial: Position, desired: Position, team: Team, board: seq<Piece>)
  {
    SignWalkAccepts(initial, desired, team, board)
  }

  method QueenMove(initial: Position, desired: Position, team: Team, board: seq<Piece>) returns (valid: bool)
    ensures valid == QueenAccepts(initial, desired, team, board)
  {
    var directionX := Sign(desired.x - initial.x);
    var directionY := Sign(desired.y - initial.y);
    var outcome := ScanRay(initial, (directionX, directionY), desired, team, board);
    valid := outcome == Reached(true);
  }

  /** getPossibleQueenMoves. */
  function PossibleQueenMoves(queen: Piece, board: seq<Piece>): seq<Position>
  {
    SlideMoves(queen.position, queen.team, board, QueenDirections)
  }

  method GetPossibleQueenMoves(queen: Piece, board: seq<Piece>) returns (moves: seq<Position>)
    ensures moves == PossibleQueenMoves(queen, board)
  {
    moves := CollectSlideMoves(queen.position, queen.team, board, QueenDirections);
  }

  /** For any square other than its own, the validator accepts exactly the
      squares the generator offers. */
  lemma QueenValidatorAgreesWithGenerator(queen: Piece, desired: Position, board: seq<Piece>)
    requires desired != queen.position
    ensures QueenAccepts(queen.position, desired, queen.team, board) <==> desired in PossibleQueenMoves(queen, board)
  {
    var o := queen.position;
    SignWalkAgrees(o, desired, queen.team, board, QueenDirections);
    var d := SignDirection(o, desired);
    assert d != (0, 0);
    assert d in QueenDirections;
  }

  /** The validator asked about the queen's own square answers whether that
      square is empty or held by an opponent. */
  lemma QueenZeroMove(queen: Piece, board: seq<Piece>)
    ensures QueenAccepts(queen.position, queen.position, queen.team, board)
      == TileIsEmptyOrOccupiedByOpponent(queen.position, board, queen.team)
  {
    assert SignDirection(queen.position, queen.position) == (0, 0);
    ZeroWalk(queen.position, queen.team, board);
  }

  /** The validator refuses every square off the queen's lines (not on its
      rank, file or diagonals), whatever the board. */
  lemma QueenRejectsOffLine(initial: Position, desired: Position, team: Team, board: seq<Piece>)
    requires desired.x != initial.x && desired.y != initial.y
    requires Abs(desired.x - initial.x) != Abs(desired.y - initial.y)
    ensures !QueenAccepts(initial, desired, team, board)
  {
    SignWalkStaysOnLines(initial, desired, team, board);
  }

  /** At most seven squares along each of the eight lines. */
  lemma PossibleQueenMovesBound(queen: Piece, board: seq<Piece>)
    ensures |PossibleQueenMoves(queen, board)| <= 56
  {
    SlideMovesBound(queen.position, queen.team, board, QueenDirections);
  }
}
