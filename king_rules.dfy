/** King moves and castling (Rules/KingRules.ts). */
module KingRules {
  import opened Types
  import opened Positions
  import opened Pieces
  import opened GeneralRules
  import opened Leapers

  /** kingMove: one step in the sign direction of the displacement must land
      on desired, which must be empty or held by an opponent. The board's
      bounds are not checked. */
  predicate KingMove(initial: Position, desired: Position, team: Team, board: seq<Piece>)
  {
    var next := Target(initial, (Sign(desired.x - initial.x), Sign(desired.y - initial.y)));
    SamePosition(next, desired) && TileIsEmptyOrOccupiedByOpponent(desired, board, team)
  }

  /** kingMove accepts exactly the squares at most one step away in each
      coordinate (the king's own square included) that are empty or held by
      an opponent. */
  lemma KingMoveMeaning(initial: Position, desired: Position, team: Team, board: seq<Piece>)
    ensures KingMove(initial, desired, team, board) <==>
      Abs(desired.x - initial.x) <= 1 && Abs(desired.y - initial.y) <= 1
      && TileIsEmptyOrOccupiedByOpponent(desired, board, team)
  {
  }

  /** Up, down, left, right, top-left, top-right, bottom-left, bottom-right. */
  const KingOffsets: seq<Offset> := [(0, 1), (0, -1), (-1, 0), (1, 0), (-1, 1), (1, 1), (-1, -1), (1, -1)]

  /** The king offsets are exactly the non-zero displacements of at most one
      in each coordinate. */
  lemma KingOffsetsAreKingSteps(initial: Position, desired: Position)
    ensures (exists k :: 0 <= k < |KingOffsets| && desired == Target(initial, KingOffsets[k]))
            <==> desired != initial && Abs(desired.x - initial.x) <= 1 && Abs(desired.y - initial.y) <= 1
  {
    var dx, dy := desired.x - initial.x, desired.y - initial.y;
    if desired != initial && Abs(dx) <= 1 && Abs(dy) <= 1 {
      var k := if dx == 0 && dy == 1 then 0 else if dx == 0 && dy == -1 then 1
        else if dx == -1 && dy == 0 then 2 else if dx == 1 && dy == 0 then 3
        else if dx == -1 && dy == 1 then 4 else if dx == 1 && dy == 1 then 5
        else if dx == -1 && dy == -1 then 6 else 7;
      assert desired == Target(initial, KingOffsets[k]);
    }
  }

  /** getPossibleKingMoves. */
  function PossibleKingMoves(king: Piece, board: seq<Piece>): seq<Position>
  {
    OffsetTargets(king.position, king.team, board, KingOffsets)
  }

  method GetPossibleKingMoves(king: Piece, board: seq<Piece>) returns (moves: seq<Position>)
    ensures moves == PossibleKingMoves(king, board)
  {
    moves := CollectOffsetTargets(king.position, king.team, board, KingOffsets);
  }

  /** At most eight squares, and a square is generated exactly when it is one
      king step away, on the board, and empty or held by an opponent. */
  lemma PossibleKingMovesMeaning(king: Piece, board: seq<Piece>, m: Position)
    ensures |PossibleKingMoves(king, board)| <= 8
    ensures m in PossibleKingMoves(king, board) <==>
      && m != king.position
      && Abs(m.x - king.position.x) <= 1 && Abs(m.y - king.position.y) <= 1
      && OnBoard(m)
      && TileIsEmptyOrOccupiedByOpponent(m, board, king.team)
  {
    OffsetTargetsMembership(king.position, king.team, board, KingOffsets);
    KingOffsetsAreKingSteps(king.position, m);
  }

  /** The validator and the generator agree on every square of the board
      other than the king's own; the generator never offers that square nor
      any square off the board. */
  lemma KingValidatorAgreesWithGenerator(king: Piece, desired: Position, board: seq<Piece>)
    ensures OnBoard(desired) && desired != king.position ==>
      (KingMove(king.position, desired, king.team, board) <==> desired in PossibleKingMoves(king, board))
    ensures !OnBoard(desired) || desired == king.position ==> desired !in PossibleKingMoves(king, board)
  {
    PossibleKingMovesMeaning(king, board, desired);
    KingMoveMeaning(king.position, desired, king.team, board);
  }

  // ---------------------------------------------------------------------
  // Castling

  /** The rooks of the king's team that have not moved, in board order. */
  function UnmovedRooks(king: Piece, board: seq<Piece>): (rooks: seq<Piece>)
    ensures forall r :: r in rooks <==> r in board && r.IsRook() && r.team == king.team && !r.hasMoved
  {
    if board == [] then []
    else
      var rest := UnmovedRooks(king, board[..|board| - 1]);
      var p := board[|board| - 1];
      assert board == board[..|board| - 1] + [p];
      if p.IsRook() && p.team == king.team && !p.hasMoved then rest + [p] else rest
  }

  /** The pieces of the other team, in board order. */
  function Enemies(board: seq<Piece>, team: Team): (enemies: seq<Piece>)
    ensures forall p :: p in enemies <==> p in board && p.team != team
  {
    if board == [] then []
    else
      var rest := Enemies(board[..|board| - 1], team);
      var p := board[|board| - 1];
      assert board == board[..|board| - 1] + [p];
      if p.team != team then rest + [p] else rest
  }

  /** The square beside the king on the rook's side. */
  function AdjacentSquare(king: Piece, rook: Piece): Position
  {
    var direction := if rook.position.x > king.position.x then 1 else -1;
    Position(king.position.x + direction, king.position.y)
  }

  /** The rook's listed moves on the king's rank. */
  function ConcerningTiles(king: Piece, rook: Piece): (tiles: seq<Position>)
    ensures forall t :: t in tiles <==> t in rook.possibleMoves && t.y == king.position.y
  {
    FilterRank(rook.possibleMoves, king.position.y)
  }

  function FilterRank(moves: seq<Position>, y: int): (tiles: seq<Position>)
    ensures forall t :: t in tiles <==> t in moves && t.y == y
  {
    if moves == [] then []
    else
      var rest := FilterRank(moves[..|moves| - 1], y);
      var m := moves[|moves| - 1];
      assert moves == moves[..|moves| - 1] + [m];
      if m.y == y then rest + [m] else rest
  }

  /** An enemy move that hits the king's square or a concerning tile. */
  predicate Hits(kingSquare: Position, concerning: seq<Position>, move: Position)
  {
    SamePosition(kingSquare, move) || (exists t :: t in concerning && SamePosition(t, move))
  }

  /** Some enemy lists a move that hits. */
  predicate Threatened(kingSquare: Position, concerning: seq<Position>, enemies: seq<Piece>)
  {
    exists e, j :: 0 <= e < |enemies| && 0 <= j < |enemies[e].possibleMoves|
      && Hits(kingSquare, concerning, enemies[e].possibleMoves[j])
  }

  /** The rook can be castled with: it lists the square beside the king, and
      no enemy lists the king's square or a concerning tile. */
  predicate CastlingRook(king: Piece, rook: Piece, board: seq<Piece>)
  {
    (exists m :: m in rook.possibleMoves && SamePosition(m, AdjacentSquare(king, rook)))
    && !Threatened(king.position, ConcerningTiles(king, rook), Enemies(board, king.team))
  }

  function CastlingOver(king: Piece, board: seq<Piece>, rooks: seq<Piece>): seq<Position>
  {
    if rooks == [] then []
    else
      var rest := CastlingOver(king, board, rooks[..|rooks| - 1]);
      var rook := rooks[|rooks| - 1];
      if CastlingRook(king, rook, board) then rest + [rook.position] else rest
  }

  /** getCastlingMoves: nothing once the king has moved; otherwise the
      squares of the unmoved rooks of its team it may castle with. */
  function CastlingMoves(king: Piece, board: seq<Piece>): seq<Position>
  {
    if king.hasMoved then [] else CastlingOver(king, board, UnmovedRooks(king, board))
  }

  method GetCastlingMoves(king: Piece, board: seq<Piece>) returns (moves: seq<Position>)
    ensures moves == CastlingMoves(king, board)
  {
    moves := [];
    if king.hasMoved {
      return;
    }
    var rooks := UnmovedRooks(king, board);
    for r := 0 to |rooks|
      invariant moves == CastlingOver(king, board, rooks[..r])
    {
      assert rooks[..r + 1][..r] == rooks[..r];
      var rook := rooks[r];
      var adjacent := AdjacentSquare(king, rook);
      if !(exists m :: m in rook.possibleMoves && SamePosition(m, adjacent)) {
        continue;
      }
      var concerning := ConcerningTiles(king, rook);
      var enemies := Enemies(board, king.team);
      var isSafe := ScanEnemies(king.position, concerning, enemies);
      if isSafe {
        moves := moves + [rook.position];
      }
    }
    assert rooks[..|rooks|] == rooks;
  }

  /** The nested loops over the enemies and their listed moves, breaking out
      of both at the first hit. */
  method ScanEnemies(kingSquare: Position, concerning: seq<Position>, enemies: seq<Piece>) returns (isSafe: bool)
    ensures isSafe == !Threatened(kingSquare, concerning, enemies)
  {
    isSafe := true;
    var e := 0;
    while e < |enemies|
      invariant 0 <= e <= |enemies|
      invariant isSafe <==> forall f, j :: 0 <= f < e && 0 <= j < |enemies[f].possibleMoves| ==>
        !Hits(kingSquare, concerning, enemies[f].possibleMoves[j])
      invariant !isSafe ==> Threatened(kingSquare, concerning, enemies)
    {
      var hit := ScanMoves(kingSquare, concerning, enemies[e].possibleMoves);
      if hit >= 0 {
        isSafe := false;
        break;
      }
      e := e + 1;
    }
  }

  /** The inner loop: the index of the first listed move that hits, or -1. */
  method ScanMoves(kingSquare: Position, concerning: seq<Position>, moves: seq<Position>) returns (hit: int)
    ensures -1 <= hit < |moves|
    ensures hit >= 0 ==> Hits(kingSquare, concerning, moves[hit])
    ensures hit < 0 ==> forall j :: 0 <= j < |moves| ==> !Hits(kingSquare, concerning, moves[j])
  {
    for j := 0 to |moves|
      invariant forall k :: 0 <= k < j ==> !Hits(kingSquare, concerning, moves[k])
    {
      var move := moves[j];
      if SamePosition(kingSquare, move) || (exists t :: t in concerning && SamePosition(t, move)) {
        return j;
      }
    }
    return -1;
  }

  /** What castling offers: the squares of same-team unmoved rooks the king
      may castle with, and only while the king has not moved. */
  lemma {:induction false} CastlingOverMembership(king: Piece, board: seq<Piece>, rooks: seq<Piece>, m: Position)
    ensures |CastlingOver(king, board, rooks)| <= |rooks|
    ensures m in CastlingOver(king, board, rooks) <==>
      exists r :: r in rooks && r.position == m && CastlingRook(king, r, board)
  {
    if rooks != [] {
      var front := rooks[..|rooks| - 1];
      CastlingOverMembership(king, board, front, m);
      assert rooks == front + [rooks[|rooks| - 1]];
    }
  }

  /** A square is offered for castling exactly when the king has not moved
      and an unmoved rook of its team stands there that lists the square
      beside the king and no enemy move hits the king or the rook's moves on
      the king's rank. */
  lemma CastlingMovesMeaning(king: Piece, board: seq<Piece>, m: Position)
    ensures m in CastlingMoves(king, board) <==>
      && !king.hasMoved
      && exists r :: r in board && r.IsRook() && r.team == king.team && !r.hasMoved
           && r.position == m && CastlingRook(king, r, board)
  {
    if !king.hasMoved {
      CastlingOverMembership(king, board, UnmovedRooks(king, board), m);
    }
  }

  /** An enemy that lists the king's square rules out every castling. */
  lemma NoCastlingOutOfCheck(king: Piece, board: seq<Piece>, enemy: Piece)
    requires enemy in board && enemy.team != king.team && king.position in enemy.possibleMoves
    ensures CastlingMoves(king, board) == []
  {
    var enemies := Enemies(board, king.team);
    var e :| 0 <= e < |enemies| && enemies[e] == enemy;
    var j :| 0 <= j < |enemy.possibleMoves| && enemy.possibleMoves[j] == king.position;
    forall r | r in board && r.IsRook() && r.team == king.team && !r.hasMoved
      ensures !CastlingRook(king, r, board)
    {
      assert Hits(king.position, ConcerningTiles(king, r), enemies[e].possibleMoves[j]);
    }
    if CastlingMoves(king, board) != [] {
      CastlingMovesMeaning(king, board, CastlingMoves(king, board)[0]);
    }
  }
}
