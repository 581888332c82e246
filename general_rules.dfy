/** Occupancy tests shared by the move rules (Rules/GeneralRules.ts). */
module GeneralRules {
  import opened Types
  import opened Positions
  import opened Pieces

  /** tileIsOccupied: some piece of the list stands on pos. */
  predicate TileIsOccupied(pos: Position, board: seq<Piece>)
  {
    exists i :: 0 <= i < |board| && board[i].SamePosition(pos)
  }

  /** tileIsOccupiedByOpponent: some piece of another team stands on pos. */
  predicate TileIsOccupiedByOpponent(pos: Position, board: seq<Piece>, team: Team)
  {
    exists i :: 0 <= i < |board| && board[i].SamePosition(pos) && board[i].team != team
  }

  /** tileIsEmptyOrOccupiedByOpponent. */
  predicate TileIsEmptyOrOccupiedByOpponent(pos: Position, board: seq<Piece>, team: Team)
  {
    !TileIsOccupied(pos, board) || TileIsOccupiedByOpponent(pos, board, team)
  }

  /** No two pieces of the list share a square. */
  predicate DistinctSquares(board: seq<Piece>)
  {
    forall i, j :: 0 <= i < j < |board| ==> board[i].position != board[j].position
  }

  /** Some piece of the given team stands on pos. */
  predicate TileIsOccupiedByTeam(pos: Position, board: seq<Piece>, team: Team)
  {
    exists i :: 0 <= i < |board| && board[i].position == pos && board[i].team == team
  }

  /** A square held by an opponent is occupied. */
  lemma OpponentImpliesOccupied(pos: Position, board: seq<Piece>, team: Team)
    ensures TileIsOccupiedByOpponent(pos, board, team) ==> TileIsOccupied(pos, board)
  {
  }

  /** With at most one piece per square, "empty or held by an opponent" is
      the same as "not held by a piece of one's own team". */
  lemma EmptyOrOpponentMeansNoFriend(pos: Position, board: seq<Piece>, team: Team)
    requires DistinctSquares(board)
    ensures TileIsEmptyOrOccupiedByOpponent(pos, board, team) <==> !TileIsOccupiedByTeam(pos, board, team)
  {
  }

  /** The first piece of the list standing on pos (Array.find). */
  function FindAt(pos: Position, board: seq<Piece>): (r: Option<Piece>)
    ensures r.Some? ==> r.value in board && r.value.position == pos
    ensures r.Some? ==> exists i :: 0 <= i < |board| && board[i] == r.value
                          && forall j :: 0 <= j < i ==> board[j].position != pos
    ensures r.None? <==> !TileIsOccupied(pos, board)
  {
    if board == [] then None
    else if board[0].SamePosition(pos) then Some(board[0])
    else
      var rest := board[1..];
      var r := FindAt(pos, rest);
      assert TileIsOccupied(pos, rest) ==> TileIsOccupied(pos, board) by {
        if TileIsOccupied(pos, rest) {
          var i :| 0 <= i < |rest| && rest[i].SamePosition(pos);
          assert board[i + 1].SamePosition(pos);
        }
      }
      assert r.Some? ==> exists i :: 0 <= i < |board| && board[i] == r.value
                           && forall j :: 0 <= j < i ==> board[j].position != pos by {
        if r.Some? {
          var i :| 0 <= i < |rest| && rest[i] == r.value && forall j :: 0 <= j < i ==> rest[j].position != pos;
          forall j | 0 <= j < i + 1
            ensures board[j].position != pos
          {
            if j > 0 {
              assert board[j] == rest[j - 1];
            }
          }
          assert board[i + 1] == r.value;
        }
      }
      r
  }
}
