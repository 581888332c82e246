/** The three ways Board.playMove (Models/Board.ts) rewrites the piece list:
    castling, en passant and an ordinary move or capture. */
module MoveApplication {
  import opened Types
  import opened Positions
  import opened Pieces
  import opened GeneralRules
  import opened PawnRules
  import opened Calculation

  /** The castling branch is taken when the played piece is a king and the
      first piece on the destination is a rook of its team. */
  predicate IsCastling(ps: seq<Piece>, played: Piece, destination: Position)
  {
    match FirstIndexAt(ps, destination)
    case None => false
    case Some(r) => played.IsKing() && ps[r].IsRook() && ps[r].team == played.team
  }

  /** The side the rook stands on. */
  function CastlingDirection(king: Position, rook: Position): int
  {
    if rook.x - king.x > 0 then 1 else -1
  }

  /** The castling map: every piece on the king's square moves to file
      king.x + 2 * direction, and the rook (the first piece on the
      destination) to the file in between. Only x changes; the source sets
      neither hasMoved nor any en-passant flag here. A piece after the rook
      on the rook's old square is compared against the already moved rook,
      so it stays where it is. */
  function CastledBoard(ps: seq<Piece>, king: Position, r: nat): (out: seq<Piece>)
    requires r < |ps|
  {
    var direction := CastlingDirection(king, ps[r].position);
    var newKingX := king.x + direction * 2;
    seq(|ps|, i requires 0 <= i < |ps| =>
      if ps[i].position == king then ps[i].(position := Position(newKingX, ps[i].position.y))
      else if i == r then ps[i].(position := Position(newKingX - direction, ps[i].position.y))
      else ps[i])
  }

  /** What castling does: the piece count, kinds, teams, flags and move
      lists stay; the king (on its square) goes two files towards the rook
      and the rook to the square the king crossed; every other piece stays
      put. */
  lemma CastledBoardMeaning(ps: seq<Piece>, king: Position, r: nat, i: nat)
    requires r < |ps| && i < |ps|
    requires ps[r].position != king
    ensures |CastledBoard(ps, king, r)| == |ps|
    ensures var q := CastledBoard(ps, king, r)[i];
      var direction := CastlingDirection(king, ps[r].position);
      && q == ps[i].(position := q.position)
      && q.position.y == ps[i].position.y
      && (ps[i].position == king ==> q.position.x == king.x + 2 * direction)
      && (i == r ==> q.position.x == king.x + direction)
      && (ps[i].position != king && i != r ==> q == ps[i])
  {
  }

  /** The en-passant flag after the move: only pawns carry one. */
  function WithFlag(p: Piece, flag: bool): Piece
  {
    if p.IsPawn() then p.(enPassant := flag) else p
  }

  /** The mover after the move. */
  function Moved(p: Piece, destination: Position, flag: bool): Piece
  {
    WithFlag(p, flag).(position := destination, hasMoved := true)
  }

  /** The reduce of the en-passant and the ordinary branches: the pieces on
      the mover's square move to destination (a pawn's flag becomes flag);
      the pieces on the captured square are dropped; every other pawn loses
      its flag. */
  function Reduced(ps: seq<Piece>, from: Position, destination: Position, captured: Position, flag: bool): (out: seq<Piece>)
    ensures |out| <= |ps|
  {
    if ps == [] then []
    else
      var rest := Reduced(ps[..|ps| - 1], from, destination, captured, flag);
      var p := ps[|ps| - 1];
      if p.position == from then rest + [Moved(p, destination, flag)]
      else if p.position != captured then rest + [WithFlag(p, false)]
      else rest
  }

  /** Membership in the reduced list, both ways: the movers, moved; the
      pieces off both squares, with their pawn flag cleared; nothing else. */
  lemma {:induction false} ReducedMeaning(ps: seq<Piece>, from: Position, destination: Position, captured: Position, flag: bool, q: Piece)
    ensures q in Reduced(ps, from, destination, captured, flag) <==>
      exists p :: p in ps && ((p.position == from && q == Moved(p, destination, flag))
                              || (p.position != from && p.position != captured && q == WithFlag(p, false)))
  {
    if ps != [] {
      var front := ps[..|ps| - 1];
      ReducedMeaning(front, from, destination, captured, flag, q);
      assert ps == front + [ps[|ps| - 1]];
    }
  }

  /** The square of the pawn an en-passant capture takes: behind the
      destination, seen from the mover. */
  function EnPassantCaptured(team: Team, destination: Position): Position
  {
    Position(destination.x, destination.y - PawnDirection(team))
  }

  /** The new piece list of playMove, or None when it refuses the move. */
  function Applied(ps: seq<Piece>, enPassantMove: bool, validMove: bool, played: Piece, destination: Position): Option<seq<Piece>>
  {
    if IsCastling(ps, played, destination) then Some(CastledBoard(ps, played.position, FirstIndexAt(ps, destination).value))
    else if enPassantMove then
      Some(Reduced(ps, played.position, destination, EnPassantCaptured(played.team, destination), false))
    else if validMove then
      Some(Reduced(ps, played.position, destination, destination, Abs(played.position.y - destination.y) == 2))
    else None
  }

  /** playMove refuses exactly when it is not a castling and neither flag is
      set. */
  lemma AppliedRefuses(ps: seq<Piece>, enPassantMove: bool, validMove: bool, played: Piece, destination: Position)
    ensures Applied(ps, enPassantMove, validMove, played, destination).None? <==>
      !IsCastling(ps, played, destination) && !enPassantMove && !validMove
  {
  }

  /** After an en-passant capture no piece stands on the captured square,
      every piece left there is a mover (now on destination, moved, without
      flag) or an untouched piece whose pawn flag is cleared. */
  lemma EnPassantClearsCapturedSquare(ps: seq<Piece>, played: Piece, destination: Position, q: Piece)
    requires q in Reduced(ps, played.position, destination, EnPassantCaptured(played.team, destination), false)
    ensures q.position != EnPassantCaptured(played.team, destination)
    ensures q.IsPawn() ==> !q.enPassant
  {
    ReducedMeaning(ps, played.position, destination, EnPassantCaptured(played.team, destination), false, q);
  }

  /** After an ordinary move every piece on the destination is a mover, with
      hasMoved set; the captured piece is gone. A pawn keeps an en-passant
      flag only if it is the mover and it advanced two ranks. */
  lemma OrdinaryMoveCaptures(ps: seq<Piece>, played: Piece, destination: Position, q: Piece)
    requires q in Reduced(ps, played.position, destination, destination, Abs(played.position.y - destination.y) == 2)
    ensures q.position == destination ==> q.hasMoved
    ensures q.IsPawn() && q.enPassant ==> q.position == destination && Abs(played.position.y - destination.y) == 2
  {
    ReducedMeaning(ps, played.position, destination, destination, Abs(played.position.y - destination.y) == 2, q);
  }
}
