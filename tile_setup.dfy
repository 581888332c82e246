/** The earlier setup the single-move validators work on
    (components/Tile/Constants.ts): plain piece records built by appending
    to a list, the major pieces group by group and then the pawns file by
    file. The image paths the records carry are not modelled. */
module TileSetup {
  import opened Types
  import opened Positions

  /** The Tile piece record without its image path. addPiece sets neither
      the optional en-passant flag nor a list of possible moves, so the
      record has no such fields. */
  datatype TilePiece = TilePiece(position: Position, kind: PieceType, team: Team)

  /** samePosition of the Tile constants: both coordinates agree. */
  predicate SameTilePosition(p1: Position, p2: Position)
  {
    p1.x == p2.x && p1.y == p2.y
  }

  lemma SameTilePositionIsEquality(p1: Position, p2: Position)
    ensures SameTilePosition(p1, p2) <==> p1 == p2
    ensures SameTilePosition(p1, p1) && (SameTilePosition(p1, p2) <==> SameTilePosition(p2, p1))
  {
  }

  /** addPiece: exactly one record is appended, with the given square,
      kind and team; the records before it are kept. */
  function AddPiece(board: seq<TilePiece>, x: int, y: int, kind: PieceType, team: Team): (r: seq<TilePiece>)
    ensures |r| == |board| + 1 && r[..|board|] == board
    ensures r[|board|].position == Position(x, y) && r[|board|].kind == kind && r[|board|].team == team
  {
    board + [TilePiece(Position(x, y), kind, team)]
  }

  /** One entry of the majorPieces table, without its image name. */
  datatype MajorGroup = MajorGroup(kind: PieceType, positions: seq<int>)

  const MajorPieces: seq<MajorGroup> := [
    MajorGroup(Rook, [0, 7]),
    MajorGroup(Knight, [1, 6]),
    MajorGroup(Bishop, [2, 5]),
    MajorGroup(Queen, [3]),
    MajorGroup(King, [4])
  ]

  /** The records one group adds for the files xs: on each file, White on
      row 0 and then Black on row 7. */
  function FileTiles(g: MajorGroup, xs: seq<int>): seq<TilePiece>
  {
    if xs == [] then []
    else
      var x := xs[|xs| - 1];
      FileTiles(g, xs[..|xs| - 1])
        + [TilePiece(Position(x, 0), g.kind, White),
           TilePiece(Position(x, 7), g.kind, Black)]
  }

  /** The records the groups gs add, group after group. */
  function GroupTiles(gs: seq<MajorGroup>): seq<TilePiece>
  {
    if gs == [] then []
    else GroupTiles(gs[..|gs| - 1]) + FileTiles(gs[|gs| - 1], gs[|gs| - 1].positions)
  }

  /** The pawns of files 0 to n - 1: on each file, White on row 1 and then
      Black on row 6. */
  function PawnTiles(n: nat): seq<TilePiece>
  {
    if n == 0 then []
    else
      PawnTiles(n - 1)
        + [TilePiece(Position(n - 1, 1), Pawn, White),
           TilePiece(Position(n - 1, 6), Pawn, Black)]
  }

  /** The list initialBoardState ends up holding. */
  function InitialTiles(): (r: seq<TilePiece>)
    ensures |r| == 32
  {
    MajorTilesAt();
    PawnTilesAt(8);
    GroupTiles(MajorPieces) + PawnTiles(8)
  }

  /** initialBoardState: the forEach over the groups and their files, then
      the loop over the pawn files, each step appending through addPiece. */
  method InitialBoardState() returns (board: seq<TilePiece>)
    ensures board == InitialTiles()
  {
    board := AddGroups([], MajorPieces);
    board := AddPawns(board, 8);
  }

  /** The forEach over the groups gs, appending after board. */
  method AddGroups(start: seq<TilePiece>, gs: seq<MajorGroup>) returns (board: seq<TilePiece>)
    ensures board == start + GroupTiles(gs)
  {
    board := start;
    for gi := 0 to |gs|
      invariant board == start + GroupTiles(gs[..gi])
    {
      board := AddFiles(board, gs[gi]);
      GroupTilesStep(gs, gi);
    }
    assert gs[..|gs|] == gs;
  }

  lemma GroupTilesStep(gs: seq<MajorGroup>, gi: nat)
    requires gi < |gs|
    ensures GroupTiles(gs[..gi + 1]) == GroupTiles(gs[..gi]) + FileTiles(gs[gi], gs[gi].positions)
  {
    assert gs[..gi + 1][..gi] == gs[..gi];
  }

  /** The forEach over the files of one group. */
  method AddFiles(start: seq<TilePiece>, g: MajorGroup) returns (board: seq<TilePiece>)
    ensures board == start + FileTiles(g, g.positions)
  {
    board := start;
    for xi := 0 to |g.positions|
      invariant board == start + FileTiles(g, g.positions[..xi])
    {
      var x := g.positions[xi];
      board := AddPiece(board, x, 0, g.kind, White);
      board := AddPiece(board, x, 7, g.kind, Black);
      assert g.positions[..xi + 1][..xi] == g.positions[..xi];
    }
    assert g.positions[..|g.positions|] == g.positions;
  }

  /** The loop over the pawn files 0 to n - 1. */
  method AddPawns(start: seq<TilePiece>, n: nat) returns (board: seq<TilePiece>)
    ensures board == start + PawnTiles(n)
  {
    board := start;
    for x := 0 to n
      invariant board == start + PawnTiles(x)
    {
      board := AddPiece(board, x, 1, Pawn, White);
      board := AddPiece(board, x, 6, Pawn, Black);
    }
  }

  // ---------------------------------------------------------------------
  // The shape of the result.

  /** The order in which the groups visit the files, and its inverse. */
  const MajorOrder: seq<int> := [0, 7, 1, 6, 2, 5, 3, 4]
  const MajorSlot: seq<int> := [0, 2, 4, 6, 7, 5, 3, 1]

  function HomeRow(team: Team): int
  {
    if team == White then 0 else 7
  }

  function PawnRow(team: Team): int
  {
    if team == White then 1 else 6
  }

  /** Record i of the result: the even entries are White, the odd ones
      Black; the first sixteen are the major pieces in group order, the
      rest the pawns in file order. */
  function TileAt(i: nat): TilePiece
    requires i < 32
  {
    var team := if i % 2 == 0 then White else Black;
    if i < 16 then
      var x := MajorOrder[i / 2];
      TilePiece(Position(x, HomeRow(team)), BackRank[x], team)
    else
      TilePiece(Position((i - 16) / 2, PawnRow(team)), Pawn, team)
  }

  /** The pawn records of files 0 to n - 1, by index. */
  lemma {:induction false} PawnTilesAt(n: nat)
    requires n <= 8
    ensures |PawnTiles(n)| == 2 * n
    ensures forall k :: 0 <= k < 2 * n ==>
      PawnTiles(n)[k] == TileAt(16 + k)
  {
    if n > 0 {
      PawnTilesAt(n - 1);
      forall k | 0 <= k < 2 * n
        ensures PawnTiles(n)[k] == TileAt(16 + k)
      {
        if k >= 2 * (n - 1) {
          if k % 2 == 0 {
            assert PawnTiles(n)[k] == TilePiece(Position(n - 1, 1), Pawn, White);
          } else {
            assert PawnTiles(n)[k] == TilePiece(Position(n - 1, 6), Pawn, Black);
          }
        }
      }
    }
  }

  /** The records of one group on one or two files. */
  lemma FileTilesOfFiles(g: MajorGroup, a: int, b: int)
    ensures FileTiles(g, [a]) ==
      [TilePiece(Position(a, 0), g.kind, White),
       TilePiece(Position(a, 7), g.kind, Black)]
    ensures FileTiles(g, [a, b]) == FileTiles(g, [a]) +
      [TilePiece(Position(b, 0), g.kind, White),
       TilePiece(Position(b, 7), g.kind, Black)]
  {
    assert [a][..0] == [];
    assert [a, b][..1] == [a];
  }

  /** The major-piece records, by index. */
  lemma MajorTilesAt()
    ensures |GroupTiles(MajorPieces)| == 16
    ensures forall k :: 0 <= k < 16 ==> GroupTiles(MajorPieces)[k] == TileAt(k)
  {
    var g := MajorPieces;
    FileTilesOfFiles(g[0], 0, 7);
    FileTilesOfFiles(g[1], 1, 6);
    FileTilesOfFiles(g[2], 2, 5);
    FileTilesOfFiles(g[3], 3, 3);
    FileTilesOfFiles(g[4], 4, 4);
    assert g[..1][..0] == [];
    assert GroupTiles(g[..1]) == [TileAt(0), TileAt(1), TileAt(2), TileAt(3)];
    assert g[..2][..1] == g[..1];
    assert GroupTiles(g[..2]) == GroupTiles(g[..1]) + [TileAt(4), TileAt(5), TileAt(6), TileAt(7)];
    assert g[..3][..2] == g[..2];
    assert GroupTiles(g[..3]) == GroupTiles(g[..2]) + [TileAt(8), TileAt(9), TileAt(10), TileAt(11)];
    assert g[..4][..3] == g[..3];
    assert GroupTiles(g[..4]) == GroupTiles(g[..3]) + [TileAt(12), TileAt(13)];
    assert g[..5][..4] == g[..4];
    assert g[..5] == g;
    assert GroupTiles(g) == GroupTiles(g[..4]) + [TileAt(14), TileAt(15)];
  }

  /** Record i of initialBoardState is TileAt(i). */
  lemma InitialTilesAt()
    ensures |InitialTiles()| == 32
    ensures forall i :: 0 <= i < 32 ==> InitialTiles()[i] == TileAt(i)
  {
    MajorTilesAt();
    PawnTilesAt(8);
  }

  /** 32 records on distinct squares, alternating White and Black, so
      sixteen per team; back-rank pieces on rows 0 (White) and 7 (Black)
      with the kinds rook, knight, bishop, queen, king, bishop, knight,
      rook on files 0 to 7; pawns on rows 1 (White) and 6 (Black). */
  lemma InitialTilesLayout()
    ensures var t := InitialTiles();
      && |t| == 32
      && (forall i, j :: 0 <= i < j < 32 ==> t[i].position != t[j].position)
      && (forall i :: 0 <= i < 32 ==> (t[i].team == White <==> i % 2 == 0))
      && (forall i :: 0 <= i < 32 ==> 0 <= t[i].position.x < 8)
      && (forall i :: 0 <= i < 32 && t[i].kind != Pawn ==>
            t[i].position.y == HomeRow(t[i].team) && t[i].kind == BackRank[t[i].position.x])
      && (forall i :: 0 <= i < 32 && t[i].kind == Pawn ==> t[i].position.y == PawnRow(t[i].team))
  {
    InitialTilesAt();
    var t := InitialTiles();
    forall i, j | 0 <= i < j < 32
      ensures t[i].position != t[j].position
    {
      if i < 16 && j < 16 && i / 2 != j / 2 {
        assert MajorOrder[i / 2] != MajorOrder[j / 2];
      }
    }
  }

  /** Every square of the four home rows holds a record. */
  lemma InitialTilesCoverHomeRows(x: int, team: Team)
    requires 0 <= x < 8
    ensures exists i :: 0 <= i < 32 && InitialTiles()[i].position == Position(x, HomeRow(team))
                        && InitialTiles()[i].kind == BackRank[x] && InitialTiles()[i].team == team
    ensures exists i :: 0 <= i < 32 && InitialTiles()[i].position == Position(x, PawnRow(team))
                        && InitialTiles()[i].kind == Pawn && InitialTiles()[i].team == team
  {
    InitialTilesAt();
    var side := if team == White then 0 else 1;
    var major := 2 * MajorSlot[x] + side;
    assert MajorOrder[major / 2] == x;
    assert InitialTiles()[major] == TileAt(major);
    var pawn := 16 + 2 * x + side;
    assert InitialTiles()[pawn] == TileAt(pawn);
  }
}
