/** Rook moves (Rules/RookRules.ts). */
module RookRules {
  import opened Types
  import opened Positions
  import opened Pieces
  import opened GeneralRules
  import opened Rays

  /** Right, left, up, down. */
  const RookDirections: seq<Direction> := [(1, 0), (-1, 0), (0, 1), (0, -1)]

  /** What rookMove returns: refuse a displacement that changes both
      coordinates, otherwise walk in the sign direction. */
  predicate RookAccepts(initial: Position, desired: Position, team: Team, board: seq<Piece>)
  {
    var d := SignDirection(initial, desired);
    !(d.0 != 0 && d.1 != 0) && SignWalkAccepts(initial, desired, team, board)
  }

  method RookMove(initial: Position, desired: Position, team: Team, board: seq<Piece>) returns (valid: bool)
    ensures valid == RookAccepts(initial, desired, team, board)
  {
    var directionX := Sign(desired.x - initial.x);
    var directionY := Sign(desired.y - initial.y);
    if directionX != 0 && directionY != 0 {
      return false;
    }
    var outcome := ScanRay(initial, (directionX, directionY), desired, team, board);
    valid := outcome == Reached(true);
  }

  /** getPossibleRookMoves. Its loop pushes an occupied square when it is
      "empty or held by an opponent", which for an occupied square is "held
      by an opponent": the shared ray (RookRayTest). */
  function PossibleRookMoves(rook: Piece, board: seq<Piece>): seq<Position>
  {
    SlideMoves(rook.position, rook.team, board, RookDirections)
  }

  method GetPossibleRookMoves(rook: Piece, board: seq<Piece>) returns (moves: seq<Position>)
    ensures moves == PossibleRookMoves(rook, board)
  {
    moves := CollectSlideMoves(rook.position, rook.team, board, RookDirections);
  }

  /** On an occupied square the rook generator's test and the shared ray's
      test coincide. */
  lemma RookRayTest(pos: Position, board: seq<Piece>, team: Team)
    requires TileIsOccupied(pos, board)
    ensures TileIsEmptyOrOccupiedByOpponent(pos, board, team) <==> TileIsOccupiedByOpponent(pos, board, team)
  {
  }

  /** For any square other than its own, the validator accepts exactly the
      squares the generator offers. */
  lemma RookValidatorAgreesWithGenerator(rook: Piece, desired: Position, board: seq<Piece>)
    requires desired != rook.position
    ensures RookAccepts(rook.position, desired, rook.team, board) <==> desired in PossibleRookMoves(rook, board)
  {
    var o := rook.position;
    SignWalkAgrees(o, desired, rook.team, board, RookDirections);
    var d := SignDirection(o, desired);
    assert d != (0, 0);
    assert !(d.0 != 0 && d.1 != 0) <==> d in RookDirections;
  }

  /** The validator asked about the rook's own square answers whether that
      square is empty or held by an opponent; the generator never offers it. */
  lemma RookZeroMove(rook: Piece, board: seq<Piece>)
    ensures RookAccepts(rook.position, rook.position, rook.team, board)
      == TileIsEmptyOrOccupiedByOpponent(rook.position, board, rook.team)
    ensures rook.position !in PossibleRookMoves(rook, board)
  {
    var o := rook.position;
    assert SignDirection(o, o) == (0, 0);
    ZeroWalk(o, rook.team, board);
    SlideMovesMembership(o, rook.team, board, RookDirections, o);
    if o in PossibleRookMoves(rook, board) {
      var j :| 0 <= j < 4 && o in Ray(o, RookDirections[j], rook.team, board, 1);
      RayHasNoFriend(o, RookDirections[j], rook.team, board, o);
      var k :| 1 <= k <= 7 && o == Step(o, RookDirections[j], k);
      StepLeavesOrigin(o, RookDirections[j], k);
    }
  }

  /** At most seven squares along each of the four lines. */
  lemma PossibleRookMovesBound(rook: Piece, board: seq<Piece>)
    ensures |PossibleRookMoves(rook, board)| <= 28
  {
    SlideMovesBound(rook.position, rook.team, board, RookDirections);
  }

  /** Every offered square shares a rank or a file with the rook, lies 1 to 7
      squares away, and is empty or held by an opponent. */
  lemma PossibleRookMovesAreStraight(rook: Piece, board: seq<Piece>, m: Position)
    requires m in PossibleRookMoves(rook, board)
    ensures (m.x == rook.position.x && 1 <= Abs(m.y - rook.position.y) <= 7)
         || (m.y == rook.position.y && 1 <= Abs(m.x - rook.position.x) <= 7)
    ensures TileIsEmptyOrOccupiedByOpponent(m, board, rook.team)
  {
    StraightSlide(rook.position, rook.team, board, RookDirections, m);
  }

  /** The same for any list of unit steps along a rank or a file. */
  lemma StraightSlide(o: Position, team: Team, board: seq<Piece>, dirs: seq<Direction>, m: Position)
    requires forall j :: 0 <= j < |dirs| ==> dirs[j] in {(1, 0), (-1, 0), (0, 1), (0, -1)}
    requires m in SlideMoves(o, team, board, dirs)
    ensures (m.x == o.x && 1 <= Abs(m.y - o.y) <= 7) || (m.y == o.y && 1 <= Abs(m.x - o.x) <= 7)
    ensures TileIsEmptyOrOccupiedByOpponent(m, board, team)
  {
    SlideMoveStep(o, team, board, dirs, m);
    var j, k :| 0 <= j < |dirs| && 1 <= k <= 7 && m == Step(o, dirs[j], k);
    var d := dirs[j];
    if d == (1, 0) {
      assert m == Position(o.x + k, o.y);
    } else if d == (-1, 0) {
      assert m == Position(o.x - k, o.y);
    } else if d == (0, 1) {
      assert m == Position(o.x, o.y + k);
    } else {
      assert m == Position(o.x, o.y - k);
    }
  }
}
