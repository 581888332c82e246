/** The standard setup (Constants.ts): the sixteen pieces of a side, the
    32-piece starting list and the initial board, on which the moves are
    calculated once. */
module Setup {
  import opened Types
  import opened Positions
  import opened Pieces
  import opened Pawns
  import opened Moves
  import opened GeneralRules
  import opened Calculation
  import opened Boards

  /** The axis labels: ranks "1".."8" and files "a".."h". */
  const VerticalAxis: seq<string> := ["1", "2", "3", "4", "5", "6", "7", "8"]
  const HorizontalAxis: seq<string> := ["a", "b", "c", "d", "e", "f", "g", "h"]

  /** The rank labels are the digits 1 to 8 and the file labels the letters
      a to h, one per line of the board. */
  lemma AxisLabels()
    ensures |VerticalAxis| == 8 && |HorizontalAxis| == 8
    ensures forall i :: 0 <= i < 8 ==> VerticalAxis[i] == [DigitChar(i + 1)]
    ensures forall i :: 0 <= i < 8 ==> HorizontalAxis[i] == [('a' as int + i) as char]
  {
  }

  /** createTeamPieces: the back rank on mainRow, then a pawn on every file
      of pawnRow; no piece has moved. */
  function CreateTeamPieces(team: Team, pawnRow: int, mainRow: int): (r: seq<Piece>)
    ensures |r| == 16
  {
    [ NewPiece(Position(0, mainRow), Rook, team, false),
      NewPiece(Position(1, mainRow), Knight, team, false),
      NewPiece(Position(2, mainRow), Bishop, team, false),
      NewPiece(Position(3, mainRow), Queen, team, false),
      NewPiece(Position(4, mainRow), King, team, false),
      NewPiece(Position(5, mainRow), Bishop, team, false),
      NewPiece(Position(6, mainRow), Knight, team, false),
      NewPiece(Position(7, mainRow), Rook, team, false) ]
    + seq(8, i => NewPawn(Position(i, pawnRow), team, false))
  }

  /** Entry i < 8 is the back-rank piece of file i, entry 8 + i the pawn of
      file i; every piece belongs to team, has not moved, carries no
      en-passant flag and has no moves yet. */
  lemma CreateTeamPiecesLayout(team: Team, pawnRow: int, mainRow: int)
    ensures var r := CreateTeamPieces(team, pawnRow, mainRow);
      && (forall i :: 0 <= i < 8 ==> r[i].position == Position(i, mainRow) && r[i].kind == BackRank[i])
      && (forall i :: 8 <= i < 16 ==> r[i].position == Position(i - 8, pawnRow) && r[i].kind == Pawn)
      && (forall i :: 0 <= i < 16 ==>
            r[i].team == team && !r[i].hasMoved && !r[i].enPassant && r[i].possibleMoves == [])
  {
  }

  /** With the two rows apart, no two pieces of a side share a square. */
  lemma CreateTeamPiecesDistinct(team: Team, pawnRow: int, mainRow: int)
    requires pawnRow != mainRow
    ensures DistinctSquares(CreateTeamPieces(team, pawnRow, mainRow))
  {
    CreateTeamPiecesLayout(team, pawnRow, mainRow);
  }

  /** The starting list: OPPONENT (Black) on rows 7 and 6, then OUR (White)
      on rows 0 and 1. */
  function InitialPieces(): (r: seq<Piece>)
    ensures |r| == 32
  {
    CreateTeamPieces(Black, 6, 7) + CreateTeamPieces(White, 1, 0)
  }

  /** 32 pieces on distinct squares, the first sixteen Black and the rest
      White, and exactly two kings: Black's on (4, 7) and White's on (4, 0). */
  lemma InitialPiecesLayout()
    ensures var r := InitialPieces();
      && DistinctSquares(r)
      && (forall i :: 0 <= i < 32 ==> (r[i].team == Black <==> i < 16))
      && (forall i :: 0 <= i < 32 ==> (r[i].IsKing() <==> i == 4 || i == 20))
      && r[4].position == Position(4, 7) && r[20].position == Position(4, 0)
  {
    var r := InitialPieces();
    var black := CreateTeamPieces(Black, 6, 7);
    var white := CreateTeamPieces(White, 1, 0);
    CreateTeamPiecesLayout(Black, 6, 7);
    CreateTeamPiecesLayout(White, 1, 0);
    forall i | 0 <= i < 32
      ensures r[i] == if i < 16 then black[i] else white[i - 16]
    {
    }
  }

  /** Each side has exactly one king. */
  lemma InitialKings()
    ensures FindKing(InitialPieces(), White) == Some(InitialPieces()[20])
    ensures FindKing(InitialPieces(), Black) == Some(InitialPieces()[4])
  {
    InitialPiecesLayout();
    KingsAt(InitialPieces());
  }

  /** The king search on any list with the initial list's kings and sides. */
  lemma KingsAt(r: seq<Piece>)
    requires |r| == 32
    requires forall i :: 0 <= i < 32 ==> (r[i].team == Black <==> i < 16)
    requires forall i :: 0 <= i < 32 ==> (r[i].IsKing() <==> i == 4 || i == 20)
    ensures FindKing(r, White) == Some(r[20]) && FindKing(r, Black) == Some(r[4])
  {
    FindKingFirst(r, White, 20);
    FindKingFirst(r, Black, 4);
  }

  /** The initial board: the starting list, totalTurns 1 (so OUR, White,
      moves first), no moves and an empty history; the moves are then
      calculated once. */
  method InitialBoard() returns (b: Board)
    ensures fresh(b)
    ensures b.totalTurns == 1 && b.CurrentTeam() == White && b.moves == []
    ensures b.pieces == Calculated(InitialPieces(), 1)
    ensures b.Settled(map[], false, false, None, EnemyMoves(Checked(Castled(InitialPieces()), White), White))
  {
    InitialKings();
    b := new Board(InitialPieces(), 1, [], map[]);
    b.CalculateAllMoves();
  }
}
