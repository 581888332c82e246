/** The game state (Models/Board.ts): the piece list, the turn counter, the
    move log, the repetition table and the outcome flags, updated in place. */
module Boards {
  import opened Types
  import opened Positions
  import opened Pieces
  import opened Moves
  import opened SimplifiedPieces
  import opened GeneralRules
  import opened PawnRules
  import opened KnightRules
  import opened BishopRules
  import opened RookRules
  import opened QueenRules
  import opened KingRules
  import opened Layouts
  import opened MoveGeneration
  import opened Calculation
  import opened Material
  import opened MoveApplication

  /** boardHistory[key] || 0. */
  function Seen(history: map<seq<SimplifiedPiece>, int>, key: seq<SimplifiedPiece>): int
  {
    if key in history then history[key] else 0
  }

  class Board {
    var pieces: seq<Piece>
    var totalTurns: int
    var winningTeam: Option<Team>
    var stalemate: bool
    var draw: bool
    var moves: seq<Move>
    var boardHistory: map<seq<SimplifiedPiece>, int>

    constructor(pieces: seq<Piece>, totalTurns: int, moves: seq<Move>, boardHistory: map<seq<SimplifiedPiece>, int>)
      ensures this.pieces == pieces && this.totalTurns == totalTurns
      ensures this.moves == moves && this.boardHistory == boardHistory
      ensures !stalemate && !draw && winningTeam == None
    {
      this.pieces := pieces;
      this.totalTurns := totalTurns;
      this.stalemate := false;
      this.draw := false;
      this.moves := moves;
      this.boardHistory := boardHistory;
      this.winningTeam := None;
    }

    /** The currentTeam getter. */
    function CurrentTeam(): Team
      reads this`totalTurns
    {
      Calculation.CurrentTeam(totalTurns)
    }

    /** What calculateAllMoves leaves in the history, the draw flag and the
        outcome, given their values before: the key of the final pieces is
        counted once more; draw is set by the material rule or by the key's
        third occurrence and never cleared; and when the side to move has no
        move, the other side wins if a collected enemy move hits its king,
        else the game is a stalemate. */
    predicate Settled(history0: map<seq<SimplifiedPiece>, int>, draw0: bool, stalemate0: bool,
                      winning0: Option<Team>, enemyMoves: seq<Position>)
      reads this
    {
      var key := Key(pieces);
      var team := CurrentTeam();
      && boardHistory == history0[key := Seen(history0, key) + 1]
      && draw == (draw0 || MaterialDraw(pieces) || Seen(history0, key) + 1 == 3)
      && (if !NoMoves(pieces, team) then stalemate == stalemate0 && winningTeam == winning0
          else match FindKing(pieces, team)
            case None => false
            case Some(king) =>
              if king.position in enemyMoves then winningTeam == Some(team.Other()) && stalemate == stalemate0
              else stalemate && winningTeam == winning0)
    }

    /** calculateAllMoves. The source fails when the side to move has no
        move and no king; callers must not let that happen. */
    method CalculateAllMoves()
      modifies this
      requires NoMoves(Calculated(pieces, totalTurns), CurrentTeam()) ==> FindKing(pieces, CurrentTeam()).Some?
      ensures pieces == Calculated(old(pieces), totalTurns)
      ensures totalTurns == old(totalTurns) && moves == old(moves)
      ensures Settled(old(boardHistory), old(draw), old(stalemate), old(winningTeam),
                      EnemyMoves(Checked(Castled(old(pieces)), CurrentTeam()), CurrentTeam()))
    {
      var team := CurrentTeam();
      ghost var start := pieces;
      pieces := GenerateAllMoves(pieces);
      ghost var generated := pieces;
      pieces := AddCastlingMoves(pieces);
      assert pieces == Castled(start);
      CheckCurrentTeamMoves();
      ghost var checked := pieces;
      var enemyMoves := CollectEnemyMoves(pieces, team);
      pieces := ClearIdleMoves(pieces, team);
      assert pieces == Calculated(start, totalTurns);
      CalculatedLayout(start, totalTurns);
      FindKingCongruent(pieces, start, team);
      Settle(enemyMoves);
    }

    /** The end of calculateAllMoves: the material rule, the repetition
        count and, when the side to move has no move, the outcome. */
    method Settle(enemyMoves: seq<Position>)
      modifies this
      requires NoMoves(pieces, CurrentTeam()) ==> FindKing(pieces, CurrentTeam()).Some?
      ensures pieces == old(pieces) && totalTurns == old(totalTurns) && moves == old(moves)
      ensures Settled(old(boardHistory), old(draw), old(stalemate), old(winningTeam), enemyMoves)
    {
      CheckForDraw();
      CheckForThreeFoldRepetition();
      if NoMoves(pieces, CurrentTeam()) {
        CheckForStalemate(enemyMoves);
      }
    }

    /** The first pass of calculateAllMoves: every piece gets the generator's
        moves, computed on the list as it is being rewritten. */
    method GenerateAllMoves(start: seq<Piece>) returns (ps: seq<Piece>)
      ensures ps == Generated(start)
    {
      ps := start;
      SpliceEnds(Generated(start), start);
      for i := 0 to |ps|
        invariant |ps| == |start|
        invariant ps == Generated(start)[..i] + start[i..]
      {
        GeneratedStep(start, ps, i);
        var generated := GetValidMoves(ps[i], ps);
        ps := ps[i := ps[i].(possibleMoves := generated)];
      }
    }

    /** The second pass: every king, in list order, gets its castling squares
        appended. */
    method AddCastlingMoves(generated: seq<Piece>) returns (ps: seq<Piece>)
      ensures ps == WithCastling(generated, |generated|)
    {
      ps := generated;
      for i := 0 to |ps|
        invariant |ps| == |generated| && ps == WithCastling(generated, i)
      {
        CastlingStep(generated, ps, i);
        if ps[i].IsKing() {
          var castling := GetCastlingMoves(ps[i], ps);
          ps := ps[i := ps[i].(possibleMoves := ps[i].possibleMoves + castling)];
        }
      }
    }

    /** The enemy moves: the lists of the idle side, concatenated in order. */
    method CollectEnemyMoves(ps: seq<Piece>, team: Team) returns (enemyMoves: seq<Position>)
      ensures enemyMoves == EnemyMoves(ps, team)
    {
      enemyMoves := [];
      for i := 0 to |ps|
        invariant enemyMoves == EnemyMoves(ps[..i], team)
      {
        EnemyMovesStep(ps, team, i);
        if ps[i].team != team {
          enemyMoves := enemyMoves + ps[i].possibleMoves;
        }
      }
      assert ps[..|ps|] == ps;
    }

    /** The idle side's lists are emptied. */
    method ClearIdleMoves(checked: seq<Piece>, team: Team) returns (ps: seq<Piece>)
      ensures ps == ClearIdle(checked, team)
    {
      ps := checked;
      SpliceEnds(ClearIdle(checked, team), checked);
      for i := 0 to |ps|
        invariant |ps| == |checked|
        invariant ps == ClearIdle(checked, team)[..i] + checked[i..]
      {
        ClearIdleStep(checked, team, ps, i);
        if ps[i].team != team {
          ps := ps[i := ps[i].(possibleMoves := [])];
        }
      }
    }

    /** checkCurrentTeamMoves: every move of the side to move is tried on a
        clone of the board as it stands, and only the moves that leave its
        king unattacked are kept. */
    method CheckCurrentTeamMoves()
      modifies this
      ensures pieces == Checked(old(pieces), CurrentTeam())
      ensures totalTurns == old(totalTurns) && moves == old(moves) && boardHistory == old(boardHistory)
      ensures draw == old(draw) && stalemate == old(stalemate) && winningTeam == old(winningTeam)
    {
      var team := CurrentTeam();
      ghost var start := pieces;
      SpliceEnds(Checked(start, team), start);
      for i := 0 to |pieces|
        invariant |pieces| == |start|
        invariant pieces == Checked(start, team)[..i] + start[i..]
        invariant totalTurns == old(totalTurns) && moves == old(moves) && boardHistory == old(boardHistory)
        invariant draw == old(draw) && stalemate == old(stalemate) && winningTeam == old(winningTeam)
      {
        if pieces[i].team == team {
          CheckedStep(start, team, pieces, i, SafeMoves(pieces, pieces[i], pieces[i].possibleMoves, team));
          KeepSafeMoves(i);
        } else {
          CheckedStep(start, team, pieces, i, []);
        }
      }
    }

    /** The forEach body: the piece at index i keeps the moves the filter
        accepts. */
    method KeepSafeMoves(i: nat)
      modifies this
      requires i < |pieces|
      ensures pieces == old(pieces)[i := old(pieces)[i].(possibleMoves :=
        SafeMoves(old(pieces), old(pieces)[i], old(pieces)[i].possibleMoves, old(CurrentTeam())))]
      ensures totalTurns == old(totalTurns) && moves == old(moves) && boardHistory == old(boardHistory)
      ensures draw == old(draw) && stalemate == old(stalemate) && winningTeam == old(winningTeam)
    {
      var kept := SafeMovesOf(pieces[i]);
      pieces := pieces[i := pieces[i].(possibleMoves := kept)];
    }

    /** The filter over one piece's list: the moves IsSafeMove accepts, in
        order. */
    method SafeMovesOf(piece: Piece) returns (kept: seq<Position>)
      ensures kept == SafeMoves(pieces, piece, piece.possibleMoves, CurrentTeam())
    {
      var team := CurrentTeam();
      kept := [];
      for j := 0 to |piece.possibleMoves|
        invariant kept == SafeMoves(pieces, piece, piece.possibleMoves[..j], team)
      {
        SafeMovesStep(pieces, piece, piece.possibleMoves, team, j);
        var safe := IsSafeMove(piece, piece.possibleMoves[j]);
        if safe {
          kept := kept + [piece.possibleMoves[j]];
        }
      }
      assert piece.possibleMoves[..|piece.possibleMoves|] == piece.possibleMoves;
    }

    /** The filter's callback: on a clone, drop the destination's occupant,
        move the piece there, regenerate the idle side's moves and look for
        an attack on the king. */
    method IsSafeMove(piece: Piece, move: Position) returns (safe: bool)
      ensures safe == !LeavesKingAttacked(pieces, piece, move, CurrentTeam())
    {
      var simBoard := Clone();
      simBoard.pieces := RemoveAt(simBoard.pieces, move);
      var found := FirstIndexAt(simBoard.pieces, piece.position);
      if found.Some? {
        var k := found.value;
        simBoard.pieces := simBoard.pieces[k := simBoard.pieces[k].(position := move)];
      }
      assert simBoard.pieces == Simulated(pieces, piece, move);
      simBoard.pieces := RecomputeIdleMoves(simBoard.pieces, simBoard.CurrentTeam());
      safe := !KingAttacked(simBoard.pieces, simBoard.CurrentTeam());
    }

    /** On the simulated board, the idle side's lists are regenerated. */
    method RecomputeIdleMoves(sim: seq<Piece>, team: Team) returns (ps: seq<Piece>)
      ensures ps == Recomputed(sim, team)
    {
      ps := sim;
      SpliceEnds(Recomputed(sim, team), sim);
      for i := 0 to |ps|
        invariant |ps| == |sim|
        invariant ps == Recomputed(sim, team)[..i] + sim[i..]
      {
        RecomputedStep(sim, team, ps, i);
        if ps[i].team != team {
          var enemyMoves := GetValidMoves(ps[i], ps);
          ps := ps[i := ps[i].(possibleMoves := enemyMoves)];
        }
      }
    }

    /** getValidMoves: the generator for the piece's kind. */
    method GetValidMoves(piece: Piece, boardState: seq<Piece>) returns (moves: seq<Position>)
      ensures moves == ValidMoves(piece, boardState)
    {
      match piece.kind
      case Pawn => moves := GetPossiblePawnMoves(piece, boardState);
      case Knight => moves := GetPossibleKnightMoves(piece, boardState);
      case Bishop => moves := GetPossibleBishopMoves(piece, boardState);
      case Rook => moves := GetPossibleRookMoves(piece, boardState);
      case Queen => moves := GetPossibleQueenMoves(piece, boardState);
      case King => moves := GetPossibleKingMoves(piece, boardState);
    }

    /** playMove. The flags and the played piece (a copy of the board's
        piece) come from the caller, which also advances totalTurns. */
    method PlayMove(enPassantMove: bool, validMove: bool, playedPiece: Piece, destination: Position) returns (played: bool)
      modifies this
      requires var next := Applied(pieces, enPassantMove, validMove, playedPiece, destination);
        next.Some? && NoMoves(Calculated(next.value, totalTurns), CurrentTeam()) ==> FindKing(next.value, CurrentTeam()).Some?
      ensures played <==> Applied(old(pieces), enPassantMove, validMove, playedPiece, destination).Some?
      ensures !played ==> unchanged(this)
      ensures played ==> totalTurns == old(totalTurns)
      ensures played ==> moves == old(moves) + [Move(playedPiece.team, playedPiece.kind, playedPiece.position, destination)]
      ensures played ==> pieces == Calculated(Applied(old(pieces), enPassantMove, validMove, playedPiece, destination).value, totalTurns)
      ensures played ==> Settled(old(boardHistory), old(draw), old(stalemate), old(winningTeam),
        EnemyMoves(Checked(Castled(Applied(old(pieces), enPassantMove, validMove, playedPiece, destination).value), CurrentTeam()), CurrentTeam()))
    {
      var next := ApplyMove(pieces, enPassantMove, validMove, playedPiece, destination);
      if next.None? {
        return false;
      }
      Advance(next.value, Move(playedPiece.team, playedPiece.kind, Positions.Clone(playedPiece.position), Positions.Clone(destination)));
      return true;
    }

    /** The end of a played move: the new list replaces the pieces, the move
        is recorded and the moves are calculated again. */
    method Advance(applied: seq<Piece>, move: Move)
      modifies this
      requires NoMoves(Calculated(applied, totalTurns), CurrentTeam()) ==> FindKing(applied, CurrentTeam()).Some?
      ensures totalTurns == old(totalTurns) && moves == old(moves) + [move]
      ensures pieces == Calculated(applied, totalTurns)
      ensures Settled(old(boardHistory), old(draw), old(stalemate), old(winningTeam),
        EnemyMoves(Checked(Castled(applied), CurrentTeam()), CurrentTeam()))
    {
      pieces := applied;
      moves := moves + [move];
      CalculateAllMoves();
    }

    /** The three branches of playMove on the piece list: castling when the
        first piece on the destination is a rook of the king's team, else
        the en-passant capture, else the ordinary move, else a refusal. */
    method ApplyMove(ps: seq<Piece>, enPassantMove: bool, validMove: bool, playedPiece: Piece, destination: Position)
      returns (next: Option<seq<Piece>>)
      ensures next == Applied(ps, enPassantMove, validMove, playedPiece, destination)
    {
      var pawnDirection := if playedPiece.team == White then 1 else -1;
      var destinationIndex := FirstIndexAt(ps, destination);
      if destinationIndex.Some? && playedPiece.IsKing() && ps[destinationIndex.value].IsRook()
         && ps[destinationIndex.value].team == playedPiece.team {
        next := Some(CastledBoard(ps, playedPiece.position, destinationIndex.value));
      } else if enPassantMove {
        next := Some(Reduced(ps, playedPiece.position, destination,
                             Position(destination.x, destination.y - pawnDirection), false));
      } else if validMove {
        next := Some(Reduced(ps, playedPiece.position, destination, destination,
                             Abs(playedPiece.position.y - destination.y) == 2));
      } else {
        next := None;
      }
    }

    /** checkForDraw: sets draw under the material rule, never clears it. */
    method CheckForDraw()
      modifies this
      ensures draw == (old(draw) || MaterialDraw(pieces))
      ensures pieces == old(pieces) && totalTurns == old(totalTurns) && moves == old(moves)
      ensures boardHistory == old(boardHistory) && stalemate == old(stalemate) && winningTeam == old(winningTeam)
    {
      var ourDraw := CountTeam(pieces, White) == 1 || CountMinor(pieces, White) == 2;
      var oppDraw := CountTeam(pieces, Black) == 1 || CountMinor(pieces, Black) == 2;
      if ourDraw && oppDraw {
        draw := true;
      } else if CountTeam(pieces, White) == 3 && CountKnights(pieces, White) == 2 && CountTeam(pieces, Black) == 1 {
        draw := true;
      } else if CountTeam(pieces, Black) == 3 && CountKnights(pieces, Black) == 2 && CountTeam(pieces, White) == 1 {
        draw := true;
      }
    }

    /** checkForThreeFoldRepitition: count the current key once more and set
        draw when the count reaches exactly three. */
    method CheckForThreeFoldRepetition()
      modifies this
      ensures boardHistory == old(boardHistory)[Key(pieces) := Seen(old(boardHistory), Key(pieces)) + 1]
      ensures draw == (old(draw) || boardHistory[Key(pieces)] == 3)
      ensures pieces == old(pieces) && totalTurns == old(totalTurns) && moves == old(moves)
      ensures stalemate == old(stalemate) && winningTeam == old(winningTeam)
    {
      var simplified := Key(pieces);
      boardHistory := boardHistory[simplified := Seen(boardHistory, simplified) + 1];
      if boardHistory[simplified] == 3 {
        draw := true;
      }
    }

    /** checkForStalemate: with no move left, the side to move is mated when
        an enemy move hits its king and stalemated otherwise. The source
        fails when that side has no king. */
    method CheckForStalemate(enemyMoves: seq<Position>)
      modifies this
      requires FindKing(pieces, CurrentTeam()).Some?
      ensures pieces == old(pieces) && totalTurns == old(totalTurns) && moves == old(moves)
      ensures boardHistory == old(boardHistory) && draw == old(draw)
      ensures var kingPos := FindKing(pieces, CurrentTeam()).value.position;
        if kingPos in enemyMoves then winningTeam == Some(CurrentTeam().Other()) && stalemate == old(stalemate)
        else stalemate && winningTeam == old(winningTeam)
    {
      var kingPos := FindKing(pieces, CurrentTeam()).value.position;
      if exists m :: m in enemyMoves && SamePosition(m, kingPos) {
        winningTeam := if CurrentTeam() == White then Some(Black) else Some(White);
      } else {
        stalemate := true;
      }
    }

    /** clone: a new board with the same pieces, turn count and moves, and
        the same history (the source shares the history object). The new
        board's flags start cleared. */
    method Clone() returns (b: Board)
      ensures fresh(b)
      ensures b.pieces == pieces && b.totalTurns == totalTurns && b.moves == moves
      ensures b.boardHistory == boardHistory
      ensures !b.stalemate && !b.draw && b.winningTeam == None
    {
      b := new Board(pieces, totalTurns, moves, boardHistory);
    }
  }
}
