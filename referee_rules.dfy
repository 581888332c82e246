/** The earlier single-move validators (the .ts files of components/Referee/Rules).
    They work on the Tile records and, unlike the engine's rules, never look
    at who holds the destination: they judge the displacement and, for the
    sliding pieces, the squares strictly between start and target. */
module RefereeRules {
  import opened Types
  import opened Positions
  import opened Leapers
  import opened KnightRules
  import opened KingRules
  import opened TileSetup

  // ---------------------------------------------------------------------
  // PawnRules.isValidMove: the occupancy tests are the caller's predicates.

  function RefereePawnDirection(team: Team): int
  {
    if team == White then 1 else -1
  }

  /** The three accepting branches in source order: a double step from the
      start row, a same-file move, a diagonal capture. The same-file branch
      asks for neither a distance nor a direction, so it accepts every move
      along the file onto a square neither team holds (the double-step
      branch adds nothing); the capture is a single diagonal step forward
      onto an opponent. */
  function RefereePawnMove(initial: Position, desired: Position, team: Team, boardState: seq<TilePiece>,
                           isPositionOccupiedBySameTeam: (Position, Team, seq<TilePiece>) -> bool,
                           tileIsOccupiedByOpponent: (int, int, seq<TilePiece>, Team) -> bool): (valid: bool)
    ensures valid <==>
      || (initial.x == desired.x && !isPositionOccupiedBySameTeam(desired, team, boardState)
          && !tileIsOccupiedByOpponent(desired.x, desired.y, boardState, team))
      || (Abs(desired.x - initial.x) == 1 && desired.y - initial.y == RefereePawnDirection(team)
          && tileIsOccupiedByOpponent(desired.x, desired.y, boardState, team))
  {
    var specialRow := if team == White then 1 else 6;
    var pawnDirection := if team == White then 1 else -1;
    if initial.x == desired.x && initial.y == specialRow && desired.y - initial.y == 2 * pawnDirection
       && !isPositionOccupiedBySameTeam(desired, team, boardState)
       && !tileIsOccupiedByOpponent(desired.x, desired.y, boardState, team) then
      true
    else if initial.x == desired.x && !isPositionOccupiedBySameTeam(desired, team, boardState)
       && !tileIsOccupiedByOpponent(desired.x, desired.y, boardState, team) then
      true
    else if Abs(desired.x - initial.x) == 1 && desired.y - initial.y == pawnDirection
       && tileIsOccupiedByOpponent(desired.x, desired.y, boardState, team) then
      true
    else
      false
  }

  function RefereePawnSpecialRow(team: Team): int
  {
    if team == White then 1 else 6
  }

  /** On an empty board the same-file branch lets a White pawn on its start
      row go four squares forward, and one square backwards. */
  lemma RefereePawnAcceptsAnyFileMove()
    ensures var sameTeam := (p: Position, t: Team, b: seq<TilePiece>) => false;
            var opponent := (x: int, y: int, b: seq<TilePiece>, t: Team) => false;
            && RefereePawnMove(Position(0, 1), Position(0, 5), White, [], sameTeam, opponent)
            && RefereePawnMove(Position(0, 1), Position(0, 0), White, [], sameTeam, opponent)
  {
  }

  /** PawnRules.isValidMove with its second branch limited to the single
      step forward that its comment announces. An accepted move goes one
      rank forward, or two from the start row along the file. */
  function RefereePawnMoveCorrected(initial: Position, desired: Position, team: Team, boardState: seq<TilePiece>,
                                    isPositionOccupiedBySameTeam: (Position, Team, seq<TilePiece>) -> bool,
                                    tileIsOccupiedByOpponent: (int, int, seq<TilePiece>, Team) -> bool): (valid: bool)
    ensures valid ==> Abs(desired.x - initial.x) <= 1
    ensures valid ==> desired.y - initial.y == RefereePawnDirection(team)
                      || (desired.y - initial.y == 2 * RefereePawnDirection(team) && initial.x == desired.x
                          && initial.y == RefereePawnSpecialRow(team))
  {
    var specialRow := RefereePawnSpecialRow(team);
    var pawnDirection := RefereePawnDirection(team);
    if initial.x == desired.x && initial.y == specialRow && desired.y - initial.y == 2 * pawnDirection
       && !isPositionOccupiedBySameTeam(desired, team, boardState)
       && !tileIsOccupiedByOpponent(desired.x, desired.y, boardState, team) then
      true
    else if initial.x == desired.x && desired.y - initial.y == pawnDirection
       && !isPositionOccupiedBySameTeam(desired, team, boardState)
       && !tileIsOccupiedByOpponent(desired.x, desired.y, boardState, team) then
      true
    else if Abs(desired.x - initial.x) == 1 && desired.y - initial.y == pawnDirection
       && tileIsOccupiedByOpponent(desired.x, desired.y, boardState, team) then
      true
    else
      false
  }

  /** The correction only takes moves away: it accepts exactly the moves
      the source accepts that are captures, single steps forward or double
      steps from the start row. */
  lemma RefereePawnCorrectionNarrows(initial: Position, desired: Position, team: Team, boardState: seq<TilePiece>,
                                     isPositionOccupiedBySameTeam: (Position, Team, seq<TilePiece>) -> bool,
                                     tileIsOccupiedByOpponent: (int, int, seq<TilePiece>, Team) -> bool)
    ensures RefereePawnMoveCorrected(initial, desired, team, boardState, isPositionOccupiedBySameTeam, tileIsOccupiedByOpponent)
        <==> RefereePawnMove(initial, desired, team, boardState, isPositionOccupiedBySameTeam, tileIsOccupiedByOpponent)
             && (initial.x != desired.x || desired.y - initial.y == RefereePawnDirection(team)
                 || (initial.y == RefereePawnSpecialRow(team) && desired.y - initial.y == 2 * RefereePawnDirection(team)))
  {
  }

  // ---------------------------------------------------------------------
  // KnightRules.isValidMove: a displacement test over a fixed offset list.

  const RefereeKnightOffsets: seq<Offset> := [(-2, -1), (-2, 1), (-1, -2), (-1, 2), (1, -2), (1, 2), (2, -1), (2, 1)]

  predicate RefereeKnightMove(initial: Position, desired: Position)
  {
    exists k :: 0 <= k < |RefereeKnightOffsets| &&
      initial.x + RefereeKnightOffsets[k].0 == desired.x && initial.y + RefereeKnightOffsets[k].1 == desired.y
  }

  /** The offset list holds exactly the knight jumps; the board is not
      consulted, neither its pieces nor its bounds. */
  lemma RefereeKnightMoveMeaning(initial: Position, desired: Position)
    ensures RefereeKnightMove(initial, desired) <==> IsKnightOffset(desired.x - initial.x, desired.y - initial.y)
  {
    var dx, dy := desired.x - initial.x, desired.y - initial.y;
    if IsKnightOffset(dx, dy) {
      var k := if dx == -2 && dy == -1 then 0 else if dx == -2 && dy == 1 then 1
        else if dx == -1 && dy == -2 then 2 else if dx == -1 && dy == 2 then 3
        else if dx == 1 && dy == -2 then 4 else if dx == 1 && dy == 2 then 5
        else if dx == 2 && dy == -1 then 6 else 7;
      assert initial.x + RefereeKnightOffsets[k].0 == desired.x && initial.y + RefereeKnightOffsets[k].1 == desired.y;
    }
  }

  /** The list is closed under negation, so the test is symmetric, and it
      never accepts staying put. */
  lemma RefereeKnightSymmetric(a: Position, b: Position)
    ensures RefereeKnightMove(a, b) <==> RefereeKnightMove(b, a)
    ensures !RefereeKnightMove(a, a)
  {
    RefereeKnightMoveMeaning(a, b);
    RefereeKnightMoveMeaning(b, a);
    RefereeKnightMoveMeaning(a, a);
  }

  // ---------------------------------------------------------------------
  // The sliding validators.

  /** tileIsOccupied of the bishop and rook validators: some record sits on
      (x, y). */
  predicate TileOccupied(x: int, y: int, boardState: seq<TilePiece>)
  {
    exists i :: 0 <= i < |boardState| && boardState[i].position.x == x && boardState[i].position.y == y
  }

  /** A record added on (px, py) changes the answer for that square only. */
  lemma TileOccupiedAppend(x: int, y: int, boardState: seq<TilePiece>, t: TilePiece)
    ensures TileOccupied(x, y, boardState + [t]) <==> TileOccupied(x, y, boardState) || t.position == Position(x, y)
  {
    var b := boardState + [t];
    if TileOccupied(x, y, boardState) {
      var i :| 0 <= i < |boardState| && boardState[i].position.x == x && boardState[i].position.y == y;
      assert b[i] == boardState[i];
    }
    if t.position == Position(x, y) {
      assert b[|boardState|] == t;
    }
  }

  /** Distinct step counts along a unit step land on distinct coordinates. */
  lemma UnitStepsDiffer(a: int, k: int, n: int, s: int)
    requires (s == 1 || s == -1) && k != n
    ensures a + k * s != a + n * s
  {
    if s == 1 {
      assert k * s == k && n * s == n;
    } else {
      assert k * s == -k && n * s == -n;
    }
  }

  /** One more step along s from step k is step k + 1. */
  lemma NextStep(a: int, k: int, s: int)
    ensures a + k * s + s == a + (k + 1) * s
  {
  }

  /** The squares k steps along (sx, sy) from initial, for 1 <= k < n, are
      all empty. */
  predicate ClearPath(initial: Position, sx: int, sy: int, n: int, boardState: seq<TilePiece>)
  {
    forall k :: 1 <= k < n ==> !TileOccupied(initial.x + k * sx, initial.y + k * sy, boardState)
  }

  /** An empty step k extends a clear path of k steps by one. */
  lemma ClearPathExtend(initial: Position, sx: int, sy: int, k: int, boardState: seq<TilePiece>)
    requires ClearPath(initial, sx, sy, k, boardState)
    requires !TileOccupied(initial.x + k * sx, initial.y + k * sy, boardState)
    ensures ClearPath(initial, sx, sy, k + 1, boardState)
  {
  }

  /** An occupied step k, short of n, blocks the path of n steps. */
  lemma ClearPathBlocked(initial: Position, sx: int, sy: int, k: int, n: int, boardState: seq<TilePiece>)
    requires 1 <= k < n
    requires TileOccupied(initial.x + k * sx, initial.y + k * sy, boardState)
    ensures !ClearPath(initial, sx, sy, n, boardState)
  {
  }

  /** BishopRules.isValidMove, stated: a diagonal displacement whose inner
      squares are empty. */
  predicate RefereeBishopAccepts(initial: Position, desired: Position, boardState: seq<TilePiece>)
  {
    var dx := if desired.x > initial.x then 1 else -1;
    var dy := if desired.y > initial.y then 1 else -1;
    Abs(desired.x - initial.x) == Abs(desired.y - initial.y)
      && ClearPath(initial, dx, dy, Abs(desired.x - initial.x), boardState)
  }

  /** BishopRules.isValidMove: the walk from the square after the start
      towards the target, failing on the first occupied square. On a zero
      displacement the walk heads away from the target and only an occupied
      square stops it, so the start must differ from the target. */
  method RefereeBishopMove(initial: Position, desired: Position, boardState: seq<TilePiece>) returns (valid: bool)
    requires initial != desired
    ensures valid == RefereeBishopAccepts(initial, desired, boardState)
  {
    if Abs(desired.x - initial.x) != Abs(desired.y - initial.y) {
      return false;
    }
    var dx := if desired.x > initial.x then 1 else -1;
    var dy := if desired.y > initial.y then 1 else -1;
    var x := initial.x + dx;
    var y := initial.y + dy;
    ghost var n := Abs(desired.x - initial.x);
    ghost var k := 1;
    while x != desired.x && y != desired.y
      invariant 1 <= k <= n
      invariant x == initial.x + k * dx && y == initial.y + k * dy
      invariant ClearPath(initial, dx, dy, k, boardState)
      decreases n - k
    {
      if TileOccupied(x, y, boardState) {
        return false;
      }
      x := x + dx;
      y := y + dy;
      k := k + 1;
    }
    return true;
  }

  /** RookRules.isValidMove, stated: a straight displacement (or none)
      whose inner squares are empty. */
  predicate RefereeRookAccepts(initial: Position, desired: Position, boardState: seq<TilePiece>)
  {
    !(initial.x != desired.x && initial.y != desired.y)
      && ClearPath(initial, Sign(desired.x - initial.x), Sign(desired.y - initial.y),
                   Abs(desired.x - initial.x) + Abs(desired.y - initial.y), boardState)
  }

  /** RookRules.isValidMove: the same walk with a zero step along the
      unchanged coordinate; a zero displacement never enters the loop. */
  method RefereeRookMove(initial: Position, desired: Position, boardState: seq<TilePiece>) returns (valid: bool)
    ensures valid == RefereeRookAccepts(initial, desired, boardState)
  {
    if initial.x != desired.x && initial.y != desired.y {
      return false;
    }
    var dx := if initial.x == desired.x then 0 else if desired.x > initial.x then 1 else -1;
    var dy := if initial.y == desired.y then 0 else if desired.y > initial.y then 1 else -1;
    var x := initial.x + dx;
    var y := initial.y + dy;
    ghost var n := Abs(desired.x - initial.x) + Abs(desired.y - initial.y);
    ghost var k := 1;
    while x != desired.x || y != desired.y
      invariant n == 0 || 1 <= k <= n
      invariant x == initial.x + k * dx && y == initial.y + k * dy
      invariant ClearPath(initial, dx, dy, k, boardState)
      decreases n - k
    {
      if TileOccupied(x, y, boardState) {
        return false;
      }
      x := x + dx;
      y := y + dy;
      k := k + 1;
    }
    return true;
  }

  /** BishopRules.isValidMove's walk as written, allowed at most fuel
      rounds: Some(answer) once the loop returns, None while it is still
      walking. The loop runs while neither coordinate has reached the
      target. */
  function RefereeBishopWalk(x: int, y: int, dx: int, dy: int, desired: Position, boardState: seq<TilePiece>, fuel: nat): Option<bool>
    decreases fuel
  {
    if !(x != desired.x && y != desired.y) then Some(true)
    else if TileOccupied(x, y, boardState) then Some(false)
    else if fuel == 0 then None
    else RefereeBishopWalk(x + dx, y + dy, dx, dy, desired, boardState, fuel - 1)
  }

  /** BishopRules.isValidMove as written, for every input, the zero
      displacement included. */
  function RefereeBishopAsWritten(initial: Position, desired: Position, boardState: seq<TilePiece>, fuel: nat): Option<bool>
  {
    if Abs(desired.x - initial.x) != Abs(desired.y - initial.y) then Some(false)
    else
      var dx := if desired.x > initial.x then 1 else -1;
      var dy := if desired.y > initial.y then 1 else -1;
      RefereeBishopWalk(initial.x + dx, initial.y + dy, dx, dy, desired, boardState, fuel)
  }

  /** On a diagonal of n steps, the walk from step k answers within n - k
      rounds, and its answer is whether the inner squares are empty. */
  lemma {:induction false} RefereeBishopWalkFrom(initial: Position, desired: Position, boardState: seq<TilePiece>,
                                                 dx: int, dy: int, n: int, k: int, fuel: nat)
    requires (dx == 1 || dx == -1) && (dy == 1 || dy == -1)
    requires 1 <= k <= n && desired == Position(initial.x + n * dx, initial.y + n * dy)
    requires ClearPath(initial, dx, dy, k, boardState)
    ensures fuel >= n - k ==> RefereeBishopWalk(initial.x + k * dx, initial.y + k * dy, dx, dy, desired, boardState, fuel).Some?
    ensures var w := RefereeBishopWalk(initial.x + k * dx, initial.y + k * dy, dx, dy, desired, boardState, fuel);
            w.Some? ==> w.value == ClearPath(initial, dx, dy, n, boardState)
    decreases n - k
  {
    if k < n {
      UnitStepsDiffer(initial.x, k, n, dx);
      UnitStepsDiffer(initial.y, k, n, dy);
      if TileOccupied(initial.x + k * dx, initial.y + k * dy, boardState) {
        ClearPathBlocked(initial, dx, dy, k, n, boardState);
      } else {
        ClearPathExtend(initial, dx, dy, k, boardState);
        NextStep(initial.x, k, dx);
        NextStep(initial.y, k, dy);
        if fuel > 0 {
          RefereeBishopWalkFrom(initial, desired, boardState, dx, dy, n, k + 1, fuel - 1);
        }
      }
    }
  }

  /** For a start other than the target the loop as written ends within
      |dx| rounds, with the answer RefereeBishopAccepts gives. */
  lemma RefereeBishopAsWrittenAgrees(initial: Position, desired: Position, boardState: seq<TilePiece>, fuel: nat)
    requires initial != desired
    ensures fuel >= Abs(desired.x - initial.x) ==> RefereeBishopAsWritten(initial, desired, boardState, fuel).Some?
    ensures RefereeBishopAsWritten(initial, desired, boardState, fuel).Some? ==>
            RefereeBishopAsWritten(initial, desired, boardState, fuel).value == RefereeBishopAccepts(initial, desired, boardState)
  {
    var n := Abs(desired.x - initial.x);
    if n == Abs(desired.y - initial.y) {
      var dx: int := if desired.x > initial.x then 1 else -1;
      var dy: int := if desired.y > initial.y then 1 else -1;
      assert desired == Position(initial.x + n * dx, initial.y + n * dy);
      RefereeBishopWalkFrom(initial, desired, boardState, dx, dy, n, 1, fuel);
    }
  }

  /** From k >= 1 steps down-left of p, walking down-left never meets p:
      on an empty board the walk never answers. */
  lemma {:induction false} RefereeBishopZeroWalk(p: Position, k: int, fuel: nat)
    requires k >= 1
    ensures RefereeBishopWalk(p.x - k, p.y - k, -1, -1, p, [], fuel) == None
    decreases fuel
  {
    assert !TileOccupied(p.x - k, p.y - k, []);
    if fuel > 0 {
      RefereeBishopZeroWalk(p, k + 1, fuel - 1);
    }
  }

  /** The zero displacement on an empty board: however many rounds it is
      given, the loop as written has not returned. */
  lemma RefereeBishopZeroNeverAnswers(p: Position, fuel: nat)
    ensures RefereeBishopAsWritten(p, p, [], fuel) == None
  {
    RefereeBishopZeroWalk(p, 1, fuel);
  }

  /** On a zero displacement the walk, when it returns at all, returns
      false: it only stops on an occupied square. */
  lemma {:induction false} RefereeBishopZeroWalkRefuses(p: Position, boardState: seq<TilePiece>, k: int, fuel: nat)
    requires k >= 1
    ensures var w := RefereeBishopWalk(p.x - k, p.y - k, -1, -1, p, boardState, fuel);
            w.Some? ==> !w.value
    decreases fuel
  {
    if fuel > 0 {
      RefereeBishopZeroWalkRefuses(p, boardState, k + 1, fuel - 1);
    }
  }

  /** BishopRules.isValidMove with a zero displacement rejected before the
      walk, as a move that goes nowhere. */
  method RefereeBishopMoveGuarded(initial: Position, desired: Position, boardState: seq<TilePiece>) returns (valid: bool)
    ensures valid <==> initial != desired && RefereeBishopAccepts(initial, desired, boardState)
  {
    if initial == desired {
      return false;
    }
    valid := RefereeBishopMove(initial, desired, boardState);
  }

  /** Wherever the loop as written returns, the guarded test gives the same
      answer. */
  lemma RefereeBishopGuardAgrees(initial: Position, desired: Position, boardState: seq<TilePiece>, fuel: nat)
    requires RefereeBishopAsWritten(initial, desired, boardState, fuel).Some?
    ensures RefereeBishopAsWritten(initial, desired, boardState, fuel).value
            == (initial != desired && RefereeBishopAccepts(initial, desired, boardState))
  {
    if initial == desired {
      RefereeBishopZeroWalkRefuses(initial, boardState, 1, fuel);
    } else {
      RefereeBishopAsWrittenAgrees(initial, desired, boardState, fuel);
    }
  }

  /** QueenRules.isValidMove: the bishop test, and the rook test when that
      fails. The bishop test is the guarded one; the rook test accepts
      staying put. */
  method RefereeQueenMove(initial: Position, desired: Position, boardState: seq<TilePiece>) returns (valid: bool)
    ensures valid <==> (initial != desired && RefereeBishopAccepts(initial, desired, boardState))
                       || RefereeRookAccepts(initial, desired, boardState)
  {
    valid := RefereeBishopMoveGuarded(initial, desired, boardState);
    if !valid {
      valid := RefereeRookMove(initial, desired, boardState);
    }
  }

  /** The inner squares of a walk of n steps never include the target. */
  lemma PathAvoidsTarget(initial: Position, sx: int, sy: int, n: int, boardState: seq<TilePiece>, t: TilePiece)
    requires (sx == 1 || sx == -1 || sx == 0) && (sy == 1 || sy == -1 || sy == 0) && (sx != 0 || sy != 0)
    requires t.position == Position(initial.x + n * sx, initial.y + n * sy)
    ensures ClearPath(initial, sx, sy, n, boardState + [t]) <==> ClearPath(initial, sx, sy, n, boardState)
  {
    forall k | 1 <= k < n
      ensures TileOccupied(initial.x + k * sx, initial.y + k * sy, boardState + [t])
          <==> TileOccupied(initial.x + k * sx, initial.y + k * sy, boardState)
    {
      TileOccupiedAppend(initial.x + k * sx, initial.y + k * sy, boardState, t);
      if sx != 0 {
        UnitStepsDiffer(initial.x, k, n, sx);
      } else {
        UnitStepsDiffer(initial.y, k, n, sy);
      }
    }
  }

  /** None of the sliding validators looks at the target square: a record
      put there changes no answer. */
  lemma SlidersIgnoreTarget(initial: Position, desired: Position, boardState: seq<TilePiece>, t: TilePiece)
    requires t.position == desired
    ensures RefereeBishopAccepts(initial, desired, boardState + [t]) <==> RefereeBishopAccepts(initial, desired, boardState)
    ensures RefereeRookAccepts(initial, desired, boardState + [t]) <==> RefereeRookAccepts(initial, desired, boardState)
  {
    var n := Abs(desired.x - initial.x);
    if n == Abs(desired.y - initial.y) {
      var dx := if desired.x > initial.x then 1 else -1;
      var dy := if desired.y > initial.y then 1 else -1;
      if n > 0 {
        PathAvoidsTarget(initial, dx, dy, n, boardState, t);
      }
    }
    if !(initial.x != desired.x && initial.y != desired.y) && initial != desired {
      var m := Abs(desired.x - initial.x) + Abs(desired.y - initial.y);
      PathAvoidsTarget(initial, Sign(desired.x - initial.x), Sign(desired.y - initial.y), m, boardState, t);
    }
  }

  /** A displacement that is neither straight nor diagonal fails both
      walks, and the rook walk accepts staying put. */
  lemma RefereeQueenLines(initial: Position, desired: Position, boardState: seq<TilePiece>)
    ensures initial.x != desired.x && initial.y != desired.y && Abs(desired.x - initial.x) != Abs(desired.y - initial.y)
      ==> !RefereeBishopAccepts(initial, desired, boardState) && !RefereeRookAccepts(initial, desired, boardState)
    ensures RefereeRookAccepts(initial, initial, boardState)
  {
  }

  // ---------------------------------------------------------------------
  // KingRules.isValidMove: bounds on the target, then a Chebyshev test.

  predicate RefereeKingMove(initial: Position, desired: Position)
  {
    if desired.x < 0 || desired.x > 7 || desired.y < 0 || desired.y > 7 then false
    else Abs(desired.x - initial.x) <= 1 && Abs(desired.y - initial.y) <= 1
  }

  /** The target must lie on the board, and then it is one of the king's
      steps or the start itself; the start's bounds and the pieces are not
      consulted. */
  lemma RefereeKingMoveMeaning(initial: Position, desired: Position)
    ensures RefereeKingMove(initial, desired) <==>
      OnBoard(desired) && (desired == initial || exists k :: 0 <= k < |KingOffsets| && desired == Target(initial, KingOffsets[k]))
  {
    KingOffsetsAreKingSteps(initial, desired);
  }
}
