/** The loop shared by the knight and king generators (Rules/KnightRules.ts,
    Rules/KingRules.ts): try a fixed list of offsets in order and keep each
    target that lies on the board and is empty or held by an opponent. */
module Leapers {
  import opened Types
  import opened Positions
  import opened Pieces
  import opened GeneralRules

  type Offset = (int, int)

  function Target(origin: Position, offset: Offset): Position
  {
    Position(origin.x + offset.0, origin.y + offset.1)
  }

  /** The target is kept by the generator. */
  predicate Admitted(target: Position, team: Team, board: seq<Piece>)
  {
    OnBoard(target) && TileIsEmptyOrOccupiedByOpponent(target, board, team)
  }

  /** The targets kept, in the order of the offsets. */
  function OffsetTargets(origin: Position, team: Team, board: seq<Piece>, offsets: seq<Offset>): seq<Position>
  {
    if offsets == [] then []
    else
      var rest := OffsetTargets(origin, team, board, offsets[..|offsets| - 1]);
      var target := Target(origin, offsets[|offsets| - 1]);
      if Admitted(target, team, board) then rest + [target] else rest
  }

  /** The for-of loop over the offsets, pushing each admitted target. */
  method CollectOffsetTargets(origin: Position, team: Team, board: seq<Piece>, offsets: seq<Offset>)
    returns (moves: seq<Position>)
    ensures moves == OffsetTargets(origin, team, board, offsets)
  {
    moves := [];
    for i := 0 to |offsets|
      invariant moves == OffsetTargets(origin, team, board, offsets[..i])
    {
      var destination := Target(origin, offsets[i]);
      if OnBoard(destination) && TileIsEmptyOrOccupiedByOpponent(destination, board, team) {
        moves := moves + [destination];
      }
      assert offsets[..i + 1][..i] == offsets[..i];
    }
    assert offsets[..|offsets|] == offsets;
  }

  /** At most one square per offset, and a square is kept exactly when it is
      the target of some offset, lies on the board and is empty or held by an
      opponent. */
  lemma {:induction false} OffsetTargetsMembership(origin: Position, team: Team, board: seq<Piece>, offsets: seq<Offset>)
    ensures |OffsetTargets(origin, team, board, offsets)| <= |offsets|
    ensures forall m :: m in OffsetTargets(origin, team, board, offsets) <==>
      exists k :: 0 <= k < |offsets| && m == Target(origin, offsets[k]) && Admitted(m, team, board)
  {
    if offsets != [] {
      var front := offsets[..|offsets| - 1];
      OffsetTargetsMembership(origin, team, board, front);
      forall m | m in OffsetTargets(origin, team, board, offsets)
        ensures exists k :: 0 <= k < |offsets| && m == Target(origin, offsets[k]) && Admitted(m, team, board)
      {
        if m in OffsetTargets(origin, team, board, front) {
          var k :| 0 <= k < |front| && m == Target(origin, front[k]) && Admitted(m, team, board);
          assert offsets[k] == front[k];
        } else {
          assert m == Target(origin, offsets[|offsets| - 1]);
        }
      }
      forall m | exists k :: 0 <= k < |offsets| && m == Target(origin, offsets[k]) && Admitted(m, team, board)
        ensures m in OffsetTargets(origin, team, board, offsets)
      {
        var k :| 0 <= k < |offsets| && m == Target(origin, offsets[k]) && Admitted(m, team, board);
        if k < |offsets| - 1 {
          assert front[k] == offsets[k];
        }
      }
    }
  }
}
