/** Bishop moves (Rules/BishopRules.ts). */
module BishopRules {
  import opened Types
  import opened Positions
  import opened Pieces
  import opened GeneralRules
  import opened Rays

  /** Up-right, down-right, down-left, up-left. */
  const BishopDirections: seq<Direction> := [(1, 1), (1, -1), (-1, -1), (-1, 1)]

  lemma BishopDirectionsDistinct()
    ensures DistinctUnits(BishopDirections)
  {
  }

  /** What bishopMove returns. */
  predicate BishopAccepts(initial: Position, desired: Position, team: Team, board: seq<Piece>)
  {
    FirstReached(initial, desired, team, board, BishopDirections)
  }

  /** bishopMove: for each diagonal in turn walk 1..7 steps; on reaching
      desired answer whether it is empty or held by an opponent; on an
      occupied square give up that diagonal. */
  method BishopMove(initial: Position, desired: Position, team: Team, board: seq<Piece>) returns (valid: bool)
    ensures valid == BishopAccepts(initial, desired, team, board)
  {
    var dirs := BishopDirections;
    for j := 0 to |dirs|
      invariant FirstReached(initial, desired, team, board, dirs[j..]) == FirstReached(initial, desired, team, board, dirs)
    {
      var outcome := ScanRay(initial, dirs[j], desired, team, board);
      if outcome.Reached? {
        return outcome.ok;
      }
      assert dirs[j..][1..] == dirs[j + 1..];
    }
    return false;
  }

  /** getPossibleBishopMoves. */
  function PossibleBishopMoves(bishop: Piece, board: seq<Piece>): seq<Position>
  {
    SlideMoves(bishop.position, bishop.team, board, BishopDirections)
  }

  method GetPossibleBishopMoves(bishop: Piece, board: seq<Piece>) returns (moves: seq<Position>)
    ensures moves == PossibleBishopMoves(bishop, board)
  {
    moves := CollectSlideMoves(bishop.position, bishop.team, board, BishopDirections);
  }

  /** The validator accepts exactly the squares the generator offers. */
  lemma BishopValidatorAgreesWithGenerator(bishop: Piece, desired: Position, board: seq<Piece>)
    ensures BishopAccepts(bishop.position, desired, bishop.team, board) <==> desired in PossibleBishopMoves(bishop, board)
  {
    FirstReachedAgrees(bishop.position, desired, bishop.team, board, BishopDirections);
    SlideMovesMembership(bishop.position, bishop.team, board, BishopDirections, desired);
  }

  /** At most seven squares along each of the four diagonals. */
  lemma PossibleBishopMovesBound(bishop: Piece, board: seq<Piece>)
    ensures |PossibleBishopMoves(bishop, board)| <= 28
  {
    SlideMovesBound(bishop.position, bishop.team, board, BishopDirections);
  }

  /** A square is offered exactly when it is k steps (1 <= k <= 7) along a
      diagonal, every square before it on that diagonal is empty, and it is
      empty or held by an opponent. The board's edge is not checked. */
  lemma PossibleBishopMovesMeaning(bishop: Piece, board: seq<Piece>, m: Position)
    ensures m in PossibleBishopMoves(bishop, board) <==>
      exists j, k :: 0 <= j < 4 && 1 <= k <= 7 && m == Step(bishop.position, BishopDirections[j], k)
        && ClearBetween(bishop.position, BishopDirections[j], board, 1, k)
        && TileIsEmptyOrOccupiedByOpponent(m, board, bishop.team)
  {
    var o, team := bishop.position, bishop.team;
    SlideMovesMembership(o, team, board, BishopDirections, m);
    forall j | 0 <= j < 4 {
      RayMembership(o, BishopDirections[j], team, board, m);
    }
  }

  /** Every offered square lies on a diagonal through the bishop, 1 to 7
      squares away, and is empty or held by an opponent. */
  lemma PossibleBishopMovesAreDiagonal(bishop: Piece, board: seq<Piece>, m: Position)
    requires m in PossibleBishopMoves(bishop, board)
    ensures 1 <= Abs(m.x - bishop.position.x) == Abs(m.y - bishop.position.y) <= 7
    ensures TileIsEmptyOrOccupiedByOpponent(m, board, bishop.team)
  {
    DiagonalSlide(bishop.position, bishop.team, board, BishopDirections, m);
  }

  /** The same for any list of diagonal unit steps. */
  lemma DiagonalSlide(o: Position, team: Team, board: seq<Piece>, dirs: seq<Direction>, m: Position)
    requires forall j :: 0 <= j < |dirs| ==> dirs[j] in {(1, 1), (1, -1), (-1, -1), (-1, 1)}
    requires m in SlideMoves(o, team, board, dirs)
    ensures 1 <= Abs(m.x - o.x) == Abs(m.y - o.y) <= 7
    ensures TileIsEmptyOrOccupiedByOpponent(m, board, team)
  {
    SlideMoveStep(o, team, board, dirs, m);
    var j, k :| 0 <= j < |dirs| && 1 <= k <= 7 && m == Step(o, dirs[j], k);
    var d := dirs[j];
    if d == (1, 1) {
      assert m == Position(o.x + k, o.y + k);
    } else if d == (1, -1) {
      assert m == Position(o.x + k, o.y - k);
    } else if d == (-1, -1) {
      assert m == Position(o.x - k, o.y - k);
    } else {
      assert m == Position(o.x - k, o.y + k);
    }
  }
}
