/** Ray casting shared by the bishop, rook and queen rules
    (Rules/BishopRules.ts, Rules/RookRules.ts, Rules/QueenRules.ts): from a
    square, walk 1 to 7 steps in a direction. There is no bounds check: a ray
    goes on past the edge of the board while its squares are empty. */
module Rays {
  import opened Types
  import opened Positions
  import opened Pieces
  import opened GeneralRules

  type Direction = (int, int)

  /** The square i steps from origin in direction d. */
  function Step(origin: Position, d: Direction, i: int): Position
  {
    Position(origin.x + i * d.0, origin.y + i * d.1)
  }

  /** The generator's inner loop from step i on: empty squares are kept and
      the walk goes on; an occupied square is kept only when an opponent
      holds it, and the walk stops there. */
  function Ray(origin: Position, d: Direction, team: Team, board: seq<Piece>, i: nat): seq<Position>
    decreases 8 - i
  {
    if i >= 8 then []
    else
      var destination := Step(origin, d, i);
      if !TileIsOccupied(destination, board) then [destination] + Ray(origin, d, team, board, i + 1)
      else if TileIsOccupiedByOpponent(destination, board, team) then [destination]
      else []
  }

  /** The generator: the rays of the directions, in order. */
  function SlideMoves(origin: Position, team: Team, board: seq<Piece>, dirs: seq<Direction>): seq<Position>
  {
    if dirs == [] then []
    else SlideMoves(origin, team, board, dirs[..|dirs| - 1]) + Ray(origin, dirs[|dirs| - 1], team, board, 1)
  }

  /** The nested loops of the generators: over the directions, then over the
      distances 1..7 (CollectRay). */
  method CollectSlideMoves(origin: Position, team: Team, board: seq<Piece>, dirs: seq<Direction>)
    returns (moves: seq<Position>)
    ensures moves == SlideMoves(origin, team, board, dirs)
  {
    moves := [];
    for j := 0 to |dirs|
      invariant moves == SlideMoves(origin, team, board, dirs[..j])
    {
      var ray := CollectRay(origin, dirs[j], team, board);
      moves := moves + ray;
      assert dirs[..j + 1][..j] == dirs[..j];
    }
    assert dirs[..|dirs|] == dirs;
  }

  /** The inner loop: distances 1..7, pushing squares and breaking at the
      first occupied one, which is pushed only when an opponent holds it. */
  method CollectRay(origin: Position, d: Direction, team: Team, board: seq<Piece>) returns (ray: seq<Position>)
    ensures ray == Ray(origin, d, team, board, 1)
  {
    ray := [];
    var i := 1;
    while i < 8
      invariant 1 <= i <= 8
      invariant ray + Ray(origin, d, team, board, i) == Ray(origin, d, team, board, 1)
    {
      var destination := Step(origin, d, i);
      if !TileIsOccupied(destination, board) {
        ray := ray + [destination];
        assert Ray(origin, d, team, board, i) == [destination] + Ray(origin, d, team, board, i + 1);
      } else {
        assert Ray(origin, d, team, board, i) ==
          if TileIsOccupiedByOpponent(destination, board, team) then [destination] else [];
        if TileIsOccupiedByOpponent(destination, board, team) {
          ray := ray + [destination];
        }
        break;
      }
      i := i + 1;
    }
  }

  /** Every square from step i up to (not including) step k is empty. */
  predicate ClearBetween(origin: Position, d: Direction, board: seq<Piece>, i: int, k: int)
  {
    forall j :: i <= j < k ==> !TileIsOccupied(Step(origin, d, j), board)
  }

  /** What a ray holds: its n-th square is step i + n; there are at most
      8 - i of them; and step k (i <= k <= 7) is in the ray exactly when every
      square before it is empty and it is itself empty or held by an
      opponent. So the ray stops at the first occupied square, keeps that
      square only when an opponent holds it, and holds nothing beyond. */
  lemma {:induction false} RayShape(origin: Position, d: Direction, team: Team, board: seq<Piece>, i: nat)
    requires 1 <= i <= 8
    ensures var r := Ray(origin, d, team, board, i);
      && |r| <= 8 - i
      && (forall n :: 0 <= n < |r| ==> r[n] == Step(origin, d, i + n))
      && (forall k :: i <= k <= 7 ==>
            (k - i < |r| <==> ClearBetween(origin, d, board, i, k)
                              && TileIsEmptyOrOccupiedByOpponent(Step(origin, d, k), board, team)))
    decreases 8 - i
  {
    if i < 8 {
      var r := Ray(origin, d, team, board, i);
      var destination := Step(origin, d, i);
      RayShape(origin, d, team, board, i + 1);
      var rest := Ray(origin, d, team, board, i + 1);
      if !TileIsOccupied(destination, board) {
        assert r == [destination] + rest;
        forall k | i <= k <= 7
          ensures k - i < |r| <==> ClearBetween(origin, d, board, i, k)
                                   && TileIsEmptyOrOccupiedByOpponent(Step(origin, d, k), board, team)
        {
          if k > i {
            assert ClearBetween(origin, d, board, i, k) <==> ClearBetween(origin, d, board, i + 1, k);
          }
        }
      } else {
        forall k | i <= k <= 7
          ensures k - i < |r| <==> ClearBetween(origin, d, board, i, k)
                                   && TileIsEmptyOrOccupiedByOpponent(Step(origin, d, k), board, team)
        {
          if k > i {
            assert !ClearBetween(origin, d, board, i, k);
          }
        }
      }
    }
  }

  /** Every square of a ray is empty or held by an opponent. */
  lemma RayHasNoFriend(origin: Position, d: Direction, team: Team, board: seq<Piece>, m: Position)
    requires m in Ray(origin, d, team, board, 1)
    ensures TileIsEmptyOrOccupiedByOpponent(m, board, team)
    ensures exists k :: 1 <= k <= 7 && m == Step(origin, d, k)
  {
    RayShape(origin, d, team, board, 1);
    var r := Ray(origin, d, team, board, 1);
    var n :| 0 <= n < |r| && r[n] == m;
    assert 1 <= 1 + n <= 7;
  }

  /** Membership in a ray, stated without the ray: step k (1 <= k <= 7) with
      every earlier square empty and itself empty or held by an opponent. */
  lemma RayMembership(origin: Position, d: Direction, team: Team, board: seq<Piece>, m: Position)
    ensures m in Ray(origin, d, team, board, 1) <==>
      exists k :: 1 <= k <= 7 && m == Step(origin, d, k) && ClearBetween(origin, d, board, 1, k)
        && TileIsEmptyOrOccupiedByOpponent(m, board, team)
  {
    RayShape(origin, d, team, board, 1);
    var r := Ray(origin, d, team, board, 1);
    if m in r {
      var n :| 0 <= n < |r| && r[n] == m;
      assert 1 <= 1 + n <= 7 && m == Step(origin, d, 1 + n);
    }
    if exists k :: 1 <= k <= 7 && m == Step(origin, d, k) && ClearBetween(origin, d, board, 1, k)
        && TileIsEmptyOrOccupiedByOpponent(m, board, team) {
      var k :| 1 <= k <= 7 && m == Step(origin, d, k) && ClearBetween(origin, d, board, 1, k)
        && TileIsEmptyOrOccupiedByOpponent(m, board, team);
      assert r[k - 1] == m;
    }
  }

  /** There are at most seven squares per direction. */
  lemma {:induction false} SlideMovesBound(origin: Position, team: Team, board: seq<Piece>, dirs: seq<Direction>)
    ensures |SlideMoves(origin, team, board, dirs)| <= 7 * |dirs|
  {
    if dirs != [] {
      SlideMovesBound(origin, team, board, dirs[..|dirs| - 1]);
      RayShape(origin, dirs[|dirs| - 1], team, board, 1);
    }
  }

  /** A square is generated exactly when it is in the ray of one of the
      directions. */
  lemma SlideMovesMembership(origin: Position, team: Team, board: seq<Piece>, dirs: seq<Direction>, m: Position)
    ensures m in SlideMoves(origin, team, board, dirs) <==>
      exists j :: 0 <= j < |dirs| && m in Ray(origin, dirs[j], team, board, 1)
  {
    var ray := d => Ray(origin, d, team, board, 1);
    SlideMovesConcat(origin, team, board, dirs);
    ConcatMembership(dirs, ray, m);
  }

  /** The directions' lists, in order. */
  function Concat(dirs: seq<Direction>, f: Direction -> seq<Position>): seq<Position>
  {
    if dirs == [] then [] else Concat(dirs[..|dirs| - 1], f) + f(dirs[|dirs| - 1])
  }

  lemma {:induction false} SlideMovesConcat(origin: Position, team: Team, board: seq<Piece>, dirs: seq<Direction>)
    ensures SlideMoves(origin, team, board, dirs) == Concat(dirs, d => Ray(origin, d, team, board, 1))
  {
    if dirs != [] {
      SlideMovesConcat(origin, team, board, dirs[..|dirs| - 1]);
    }
  }

  lemma {:induction false} ConcatMembership(dirs: seq<Direction>, f: Direction -> seq<Position>, m: Position)
    ensures m in Concat(dirs, f) <==> exists j :: 0 <= j < |dirs| && m in f(dirs[j])
  {
    if dirs != [] {
      var n := |dirs| - 1;
      ConcatMembership(dirs[..n], f, m);
      if m in Concat(dirs[..n], f) {
        var j :| 0 <= j < n && m in f(dirs[..n][j]);
        assert dirs[..n][j] == dirs[j];
      } else if m !in f(dirs[n]) {
        forall j | 0 <= j < |dirs| ensures m !in f(dirs[j]) {
          if j < n {
            assert dirs[..n][j] == dirs[j];
          }
        }
      }
    }
  }

  /** Every generated square is 1 to 7 steps along one of the directions,
      and is empty or held by an opponent. */
  lemma SlideMoveStep(origin: Position, team: Team, board: seq<Piece>, dirs: seq<Direction>, m: Position)
    requires m in SlideMoves(origin, team, board, dirs)
    ensures TileIsEmptyOrOccupiedByOpponent(m, board, team)
    ensures exists j, k :: 0 <= j < |dirs| && 1 <= k <= 7 && m == Step(origin, dirs[j], k)
  {
    SlideMovesMembership(origin, team, board, dirs, m);
    var j :| 0 <= j < |dirs| && m in Ray(origin, dirs[j], team, board, 1);
    RayHasNoFriend(origin, dirs[j], team, board, m);
  }

  /** The validators' walk from step i towards desired: it reaches desired
      (and then accepts it iff it is empty or held by an opponent), meets an
      occupied square first, or runs out of steps. */
  datatype ScanOutcome = Reached(ok: bool) | Blocked | Exhausted

  function Scan(origin: Position, d: Direction, desired: Position, team: Team, board: seq<Piece>, i: nat): ScanOutcome
    decreases 8 - i
  {
    if i >= 8 then Exhausted
    else
      var passed := Step(origin, d, i);
      if SamePosition(passed, desired) then Reached(TileIsEmptyOrOccupiedByOpponent(passed, board, team))
      else if TileIsOccupied(passed, board) then Blocked
      else Scan(origin, d, desired, team, board, i + 1)
  }

  /** The validators' loop: for i in 1..7, stop on reaching desired or on an
      occupied square. */
  method ScanRay(origin: Position, d: Direction, desired: Position, team: Team, board: seq<Piece>)
    returns (outcome: ScanOutcome)
    ensures outcome == Scan(origin, d, desired, team, board, 1)
  {
    var i := 1;
    while i < 8
      invariant 1 <= i <= 8
      invariant Scan(origin, d, desired, team, board, i) == Scan(origin, d, desired, team, board, 1)
    {
      var passed := Step(origin, d, i);
      if SamePosition(passed, desired) {
        return Reached(TileIsEmptyOrOccupiedByOpponent(passed, board, team));
      }
      if TileIsOccupied(passed, board) {
        return Blocked;
      }
      i := i + 1;
    }
    return Exhausted;
  }

  /** The walk accepts desired exactly when the generator's ray holds it. */
  lemma {:induction false} ScanAgreesWithRay(origin: Position, d: Direction, desired: Position, team: Team, board: seq<Piece>, i: nat)
    ensures Scan(origin, d, desired, team, board, i) == Reached(true) <==> desired in Ray(origin, d, team, board, i)
    decreases 8 - i
  {
    if i < 8 {
      ScanAgreesWithRay(origin, d, desired, team, board, i + 1);
    }
  }

  /** The walk only ever reaches a square that lies on the ray. */
  lemma {:induction false} ScanReachesOnlyRaySquares(origin: Position, d: Direction, desired: Position, team: Team, board: seq<Piece>, i: nat)
    requires Scan(origin, d, desired, team, board, i).Reached?
    ensures exists k :: i <= k <= 7 && desired == Step(origin, d, k)
    decreases 8 - i
  {
    if Step(origin, d, i) != desired {
      ScanReachesOnlyRaySquares(origin, d, desired, team, board, i + 1);
    }
  }

  /** A unit direction: each component -1, 0 or 1, not both 0. */
  predicate IsUnit(d: Direction)
  {
    -1 <= d.0 <= 1 && -1 <= d.1 <= 1 && d != (0, 0)
  }

  /** A square k >= 1 steps along a unit direction is seen from origin in
      exactly that direction: the signs of its displacement are d. */
  lemma StepSigns(origin: Position, d: Direction, k: int)
    requires IsUnit(d) && k >= 1
    ensures Sign(Step(origin, d, k).x - origin.x) == d.0
    ensures Sign(Step(origin, d, k).y - origin.y) == d.1
  {
    assert Step(origin, d, k).x - origin.x == k * d.0;
    assert Step(origin, d, k).y - origin.y == k * d.1;
    if d.0 == 1 { assert k * d.0 == k; } else if d.0 == -1 { assert k * d.0 == -k; } else { assert k * d.0 == 0; }
    if d.1 == 1 { assert k * d.1 == k; } else if d.1 == -1 { assert k * d.1 == -k; } else { assert k * d.1 == 0; }
  }

  /** A unit-direction ray never returns to its origin. */
  lemma StepLeavesOrigin(origin: Position, d: Direction, k: int)
    requires IsUnit(d) && k >= 1
    ensures Step(origin, d, k) != origin
  {
    StepSigns(origin, d, k);
  }

  /** Along unit directions the generator never offers the origin. */
  lemma SlideMovesLeaveOrigin(origin: Position, team: Team, board: seq<Piece>, dirs: seq<Direction>)
    requires forall j :: 0 <= j < |dirs| ==> IsUnit(dirs[j])
    ensures origin !in SlideMoves(origin, team, board, dirs)
  {
    if origin in SlideMoves(origin, team, board, dirs) {
      SlideMoveStep(origin, team, board, dirs, origin);
      var j, k :| 0 <= j < |dirs| && 1 <= k <= 7 && origin == Step(origin, dirs[j], k);
      StepLeavesOrigin(origin, dirs[j], k);
    }
  }

  /** Directions pairwise different, all of them unit directions. */
  predicate DistinctUnits(dirs: seq<Direction>)
  {
    (forall j :: 0 <= j < |dirs| ==> IsUnit(dirs[j]))
    && (forall j, k :: 0 <= j < k < |dirs| ==> dirs[j] != dirs[k])
  }

  /** Two unit directions that reach the same square are the same direction. */
  lemma SameSquareSameDirection(origin: Position, d: Direction, e: Direction, k: int, l: int)
    requires IsUnit(d) && IsUnit(e) && k >= 1 && l >= 1
    requires Step(origin, d, k) == Step(origin, e, l)
    ensures d == e
  {
    StepSigns(origin, d, k);
    StepSigns(origin, e, l);
  }

  /** Bishop validator shape: the first direction whose walk reaches desired
      decides; a direction whose walk is blocked or exhausted passes the turn
      to the next one. */
  function FirstReached(origin: Position, desired: Position, team: Team, board: seq<Piece>, dirs: seq<Direction>): bool
  {
    if dirs == [] then false
    else match Scan(origin, dirs[0], desired, team, board, 1)
      case Reached(ok) => ok
      case _ => FirstReached(origin, desired, team, board, dirs[1..])
  }

  /** With distinct unit directions, the first-reached walk accepts desired
      exactly when one of the rays holds it. */
  lemma {:induction false} FirstReachedAgrees(origin: Position, desired: Position, team: Team, board: seq<Piece>, dirs: seq<Direction>)
    requires DistinctUnits(dirs)
    ensures FirstReached(origin, desired, team, board, dirs) <==>
      exists j :: 0 <= j < |dirs| && desired in Ray(origin, dirs[j], team, board, 1)
  {
    if dirs != [] {
      var rest := dirs[1..];
      assert DistinctUnits(rest) by {
        forall j, k | 0 <= j < k < |rest| ensures rest[j] != rest[k] {
          assert rest[j] == dirs[j + 1] && rest[k] == dirs[k + 1];
        }
      }
      FirstReachedAgrees(origin, desired, team, board, rest);
      ScanAgreesWithRay(origin, dirs[0], desired, team, board, 1);
      var outcome := Scan(origin, dirs[0], desired, team, board, 1);
      if outcome.Reached? {
        ScanReachesOnlyRaySquares(origin, dirs[0], desired, team, board, 1);
        var k0 :| 1 <= k0 <= 7 && desired == Step(origin, dirs[0], k0);
        forall j | 1 <= j < |dirs| ensures desired !in Ray(origin, dirs[j], team, board, 1) {
          if desired in Ray(origin, dirs[j], team, board, 1) {
            RayHasNoFriend(origin, dirs[j], team, board, desired);
            var k :| 1 <= k <= 7 && desired == Step(origin, dirs[j], k);
            SameSquareSameDirection(origin, dirs[0], dirs[j], k0, k);
          }
        }
      } else {
        if exists j :: 0 <= j < |dirs| && desired in Ray(origin, dirs[j], team, board, 1) {
          var j :| 0 <= j < |dirs| && desired in Ray(origin, dirs[j], team, board, 1);
          assert j > 0;
          assert rest[j - 1] == dirs[j];
        }
        if exists j :: 0 <= j < |rest| && desired in Ray(origin, rest[j], team, board, 1) {
          var j :| 0 <= j < |rest| && desired in Ray(origin, rest[j], team, board, 1);
          assert dirs[j + 1] == rest[j];
        }
      }
    }
  }

  /** Rook and queen validator direction: the signs of the displacement. */
  function SignDirection(origin: Position, desired: Position): Direction
  {
    (Sign(desired.x - origin.x), Sign(desired.y - origin.y))
  }

  /** Rook and queen validator shape: walk in the sign direction only. */
  predicate SignWalkAccepts(origin: Position, desired: Position, team: Team, board: seq<Piece>)
  {
    Scan(origin, SignDirection(origin, desired), desired, team, board, 1) == Reached(true)
  }

  /** With unit directions, a square is generated exactly when the walk in
      its sign direction accepts it and that direction is one of dirs. */
  lemma SignWalkAgrees(origin: Position, desired: Position, team: Team, board: seq<Piece>, dirs: seq<Direction>)
    requires DistinctUnits(dirs)
    ensures desired in SlideMoves(origin, team, board, dirs) <==>
      SignDirection(origin, desired) in dirs && SignWalkAccepts(origin, desired, team, board)
  {
    var dir := SignDirection(origin, desired);
    SlideMovesMembership(origin, team, board, dirs, desired);
    ScanAgreesWithRay(origin, dir, desired, team, board, 1);
    if desired in SlideMoves(origin, team, board, dirs) {
      var j :| 0 <= j < |dirs| && desired in Ray(origin, dirs[j], team, board, 1);
      RayHasNoFriend(origin, dirs[j], team, board, desired);
      var k :| 1 <= k <= 7 && desired == Step(origin, dirs[j], k);
      StepSigns(origin, dirs[j], k);
      assert dirs[j] == dir;
    }
    if dir in dirs && SignWalkAccepts(origin, desired, team, board) {
      var j :| 0 <= j < |dirs| && dirs[j] == dir;
    }
  }

  /** The sign-direction walk only reaches squares on a rank, file or
      diagonal through the origin. */
  lemma SignWalkStaysOnLines(origin: Position, desired: Position, team: Team, board: seq<Piece>)
    ensures Scan(origin, SignDirection(origin, desired), desired, team, board, 1).Reached? ==>
      desired.x == origin.x || desired.y == origin.y || Abs(desired.x - origin.x) == Abs(desired.y - origin.y)
  {
    var d := SignDirection(origin, desired);
    if Scan(origin, d, desired, team, board, 1).Reached? {
      ScanReachesOnlyRaySquares(origin, d, desired, team, board, 1);
      var k :| 1 <= k <= 7 && desired == Step(origin, d, k);
      assert desired.x - origin.x == k * d.0 && desired.y - origin.y == k * d.1;
    }
  }

  /** A walk with no displacement reaches desired at once, at step 1, and
      accepts it iff it is empty or held by an opponent. */
  lemma ZeroWalk(origin: Position, team: Team, board: seq<Piece>)
    ensures Scan(origin, (0, 0), origin, team, board, 1) == Reached(TileIsEmptyOrOccupiedByOpponent(origin, board, team))
  {
    assert Step(origin, (0, 0), 1) == origin;
  }
}
