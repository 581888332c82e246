# Chess rules engine — a verified model

This project models the rules engine of a browser chess game written in
TypeScript, and proves properties of that model. The engine works on an
8×8 integer grid. It has four parts:

- the occupancy predicates and the per-piece move generators and
  validators of `src/Rules`;
- the `Board` state machine of `src/Models/Board.ts`. It computes every
  piece's moves, filters out moves that leave the own king attacked,
  detects the material draw, threefold repetition, checkmate and stalemate,
  and plays castling, en-passant and ordinary moves;
- the value classes `Position`, `Piece`, `Pawn`, `Move` and
  `SimplifiedPiece`, and the standard setup of `src/Constants.ts`;
- the earlier single-move validators of `src/components/Referee/Rules` and
  their setup in `src/components/Tile/Constants.ts`.

## How it is modelled

- **Sides.** The board's OUR and OPPONENT are the rules' WHITE and BLACK.
  OUR is White: its pawns advance towards higher y, and it moves on odd
  turn counts.
- **Value classes** become datatypes, so `clone` is the identity on values.
  The en-passant flag of the `Pawn` subclass is a field of every piece,
  false on non-pawns and false when absent. A piece's list of possible
  moves is always present: the constructor substitutes an empty list for a
  missing one.
- **Generators and validators** are specification functions. The source's
  loops (`for`/`forEach` with `push`, `break` and early `return`) are
  methods proved to compute exactly those functions. The functions' meaning
  is proved in lemmas:
  - membership in both directions;
  - bounds on the result size;
  - that a generated square never holds a friendly piece;
  - that each validator agrees with its generator.
- **`Board`** is a class whose fields the methods update in place.
  `calculateAllMoves` runs its stages as loops over the piece list:
  1. generate every piece's moves;
  2. append castling squares to the kings;
  3. filter the side to move by simulation;
  4. collect the enemy moves;
  5. clear the idle side's lists;
  6. run the material check, the repetition count and the outcome.

  Each stage is proved to compute a function of the list (`Generated`,
  `WithCastling`, `Checked`, `EnemyMoves`, `ClearIdle`). The end state is
  stated through `Calculated` and the predicate `Board.Settled`.
- **The filter depends only on where the pieces stand.** The filter of
  `checkCurrentTeamMoves` rewrites lists while it runs. The filter's
  answer depends only on the pieces' squares, kinds, teams and flags, not on
  their lists (the `*Congruent` lemmas). So it equals a filter over the
  list as it was before the pass.
- **The repetition key** is the sequence of simplified pieces, not its JSON
  text.

Where the code departs from the standard rules of chess, the model follows
the code:

- castling does not set `hasMoved` on the king or the rook;
- castling squares are checked by the filter like any other move;
- the checkmate test counts every enemy move, including pawn pushes;
- the material check runs before the repetition count;
- a side with exactly two kings, knights or bishops is "drawn" whatever else
  it holds (`Material.MinorPairIgnoresOtherPieces`);
- the engine has no promotion step;
- the ray generators have no bounds check;
- the en-passant test does not look at the neighbouring piece's team.

## Model

| member | source | states |
|---|---|---|
| Positions.SamePositionIsEquality | src/Models/Position.ts:10-12 | samePosition holds iff both coordinates agree, i.e. iff the positions are equal; it is reflexive and symmetric |
| Positions.Clone | src/Models/Position.ts:15-17 | the copy is samePosition-equal to, and the same value as, the original |
| Positions.CloneAll | src/Models/Piece.ts:66 | copying a list of squares position by position gives the same list |
| Pieces.ExactlyOneKind | src/Models/Piece.ts:29-46 | exactly one of isPawn/isRook/isKnight/isBishop/isKing/isQueen holds, the one chosen by the kind |
| Pieces.SamePositionMeansEqualSquares | src/Models/Piece.ts:50-57 | samePiecePosition holds iff the two pieces' squares are equal; samePosition(pos) iff the piece stands on pos |
| Pieces.NewPiece | src/Models/Piece.ts:13-26 | the constructor stores position, kind, team and hasMoved; the move list defaults to empty and there is no en-passant flag |
| Pieces.Piece.Clone | src/Models/Piece.ts:60-68 | the clone has the same square, kind, team, hasMoved and every possible move |
| Pawns.NewPawn | src/Models/Pawn.ts:12-21 | a pawn has kind PAWN (so isPawn holds) and stores its square, team, hasMoved, the given en-passant flag (absent means unset) and moves |
| Pawns.CloneKeepsPawn | src/Models/Pawn.ts:24-32 | the clone of a pawn is a pawn with the same en-passant flag, team, hasMoved and square |
| Moves.Move.Clone | src/Models/Move.ts:33-40 | the clone keeps team, piece and both squares |
| Moves.NatToStringRoundTrip | src/Models/Move.ts:29 | the decimal text of a coordinate reads back as the same natural number |
| Moves.IntToStringRoundTrip | src/Models/Move.ts:29 | the text of an integer starts with '-' exactly when it is negative, and its digits read back as its magnitude |
| Moves.MessageNamesTeam | src/Models/Move.ts:27-29 | toMessage opens with "Black" exactly for the OPPONENT side and "White" otherwise, then " moved " and the piece name |
| Moves.MessageEndsWithSquares | src/Models/Move.ts:29 | for on-board squares the message ends " from fx, fy to tx, ty." with the four coordinates as digits |
| SimplifiedPieces.Simplify | src/Models/SimplifiedPiece.ts:13-19 | the simplified piece carries the source piece's square, kind, team and move list |
| SimplifiedPieces.SimplifyForgetsFlags | src/Models/SimplifiedPiece.ts:6-19 | two pieces simplify identically iff they differ at most in hasMoved and the en-passant flag |
| SimplifiedPieces.Key | src/Models/Board.ts:275-277 | the repetition key has one entry per piece, entry i being the simplified piece i |
| SimplifiedPieces.KeyDeterminesLayout | src/Models/Board.ts:275-277 | two piece lists share a key iff they agree piece by piece except for hasMoved and the en-passant flags |
| GeneralRules.OpponentImpliesOccupied | src/Rules/GeneralRules.ts:10-32 | a square held by an opponent is occupied |
| GeneralRules.EmptyOrOpponentMeansNoFriend | src/Rules/GeneralRules.ts:41-50 | with at most one piece per square, "empty or held by an opponent" is exactly "not held by a friendly piece" |
| GeneralRules.FindAt | src/Rules/PawnRules.ts:106-108 | the found piece is the first piece of the list standing on the square (every earlier piece stands elsewhere); none is found iff the square is unoccupied |
| PawnRules.GetPossiblePawnMoves | src/Rules/PawnRules.ts:63-126 | the loop-free pushes compute the pawn generator exactly |
| PawnRules.PushDiagonal | src/Rules/PawnRules.ts:103-123 | one diagonal branch pushes the square iff an opponent holds it, or it is empty and the piece beside the pawn has its en-passant flag set |
| PawnRules.PossiblePawnMovesShape | src/Rules/PawnRules.ts:63-126 | at most 4 squares, none friendly, at most one file over, one rank ahead (two only for the same-file double step from the start row); the double step is offered iff both squares ahead are empty and the pawn is on its start row; each diagonal is offered iff an opponent holds it or the en-passant neighbour (of any team) is flagged |
| PawnRules.ValidatorAgreesWithGenerator | src/Rules/PawnRules.ts:10-61 | every square isValidPawnMove accepts is generated; a generated square it rejects is an empty diagonal step offered through the en-passant flag |
| KnightRules.KnightOffsetsAreKnightJumps | src/Rules/KnightRules.ts:19-28 | the eight listed offsets are exactly the (±1,±2)/(±2,±1) displacements |
| KnightRules.KnightMoveMeaning | src/Rules/KnightRules.ts:13-36 | knightMove holds iff the displacement is a knight jump and the target is empty or held by an opponent |
| KnightRules.GetPossibleKnightMoves | src/Rules/KnightRules.ts:44-79 | the offset loop computes the knight generator exactly |
| KnightRules.PossibleKnightMovesMeaning | src/Rules/KnightRules.ts:50-76 | at most 8 squares; a square is generated iff it is a knight jump away, on the board, and empty or held by an opponent |
| KnightRules.KnightValidatorAgreesWithGenerator | src/Rules/KnightRules.ts:13-79 | on the board the validator and the generator agree; off the board nothing is generated |
| Leapers.CollectOffsetTargets | src/Rules/KnightRules.ts:61-76 | the loop over an offset table computes the offset targets (shared with the king generator) |
| Leapers.OffsetTargetsMembership | src/Rules/KingRules.ts:63-78 | at most one square per offset; a square is generated iff it is some offset away, on the board, and empty or held by an opponent |
| Rays.CollectRay | src/Rules/BishopRules.ts:71-87 | the distance loop with its break computes the ray of one direction |
| Rays.CollectSlideMoves | src/Rules/RookRules.ts:66-84 | the loop over the directions concatenates their rays |
| Rays.RayShape | src/Rules/BishopRules.ts:71-87 | the n-th square of a ray is n+1 steps out; at most 7 squares; step k is in the ray iff every earlier step is empty and step k is empty or held by an opponent, so the ray stops at the first occupied square |
| Rays.RayHasNoFriend | src/Rules/QueenRules.ts:75-83 | every ray square is empty or held by an opponent and lies 1 to 7 steps out |
| Rays.RayMembership | src/Rules/BishopRules.ts:70-88 | a square is in a ray iff it is step k (1..7) with every earlier step empty and itself empty or held by an opponent |
| Rays.SlideMovesBound | src/Rules/BishopRules.ts:70-88 | at most 7 squares per direction |
| Rays.SlideMovesMembership | src/Rules/RookRules.ts:66-84 | a square is generated iff it is in the ray of one of the directions |
| Rays.SlideMoveStep | src/Rules/QueenRules.ts:68-86 | every generated square is empty or held by an opponent and lies 1..7 steps along a direction |
| Rays.ScanRay | src/Rules/RookRules.ts:27-42 | the validator loop with its early returns computes the scan outcome: reached (accepting iff empty or opponent), blocked, or exhausted |
| Rays.ScanAgreesWithRay | src/Rules/BishopRules.ts:30-47 | the scan accepts desired iff desired is in the ray |
| Rays.ScanReachesOnlyRaySquares | src/Rules/RookRules.ts:27-40 | a scan only reaches squares 1..7 steps along its direction |
| Rays.SlideMovesLeaveOrigin | src/Rules/QueenRules.ts:69-73 | no generator built from unit directions offers the piece's own square |
| Rays.FirstReachedAgrees | src/Rules/BishopRules.ts:30-49 | trying the directions in turn accepts desired iff desired is in one of their rays |
| Rays.SignWalkAgrees | src/Rules/QueenRules.ts:22-40 | walking in the sign direction accepts desired iff desired is generated, for distinct unit directions containing that sign direction |
| Rays.SignWalkStaysOnLines | src/Rules/QueenRules.ts:22-38 | a sign walk reaches desired only when desired is on a rank, file or diagonal of the origin |
| Rays.ZeroWalk | src/Rules/QueenRules.ts:22-33 | a zero displacement is reached at step 1 and accepted iff the origin square is empty or held by an opponent |
| BishopRules.BishopMove | src/Rules/BishopRules.ts:17-50 | the nested loops compute the validator: the first diagonal that reaches desired decides |
| BishopRules.GetPossibleBishopMoves | src/Rules/BishopRules.ts:58-91 | the nested loops compute the bishop generator exactly |
| BishopRules.BishopValidatorAgreesWithGenerator | src/Rules/BishopRules.ts:17-91 | bishopMove accepts exactly the generated squares |
| BishopRules.PossibleBishopMovesBound | src/Rules/BishopRules.ts:63-88 | at most 28 squares |
| BishopRules.PossibleBishopMovesMeaning | src/Rules/BishopRules.ts:70-88 | a square is generated iff it is k (1..7) steps along a diagonal with every earlier step empty and itself empty or held by an opponent; off-board squares are not excluded |
| BishopRules.PossibleBishopMovesAreDiagonal | src/Rules/BishopRules.ts:70-86 | every generated square has abs(dx) = abs(dy) between 1 and 7 and is empty or held by an opponent |
| RookRules.RookMove | src/Rules/RookRules.ts:16-43 | the loop computes the validator: refuse a change of both coordinates, else walk in the sign direction |
| RookRules.GetPossibleRookMoves | src/Rules/RookRules.ts:51-87 | the loops compute the rook generator exactly |
| RookRules.RookRayTest | src/Rules/RookRules.ts:76-79 | on an occupied square the generator's "empty or opponent" test is "held by an opponent", so the rook shares the bishop's ray |
| RookRules.RookValidatorAgreesWithGenerator | src/Rules/RookRules.ts:16-87 | for any square but its own, rookMove accepts exactly the generated squares |
| RookRules.RookZeroMove | src/Rules/RookRules.ts:22-35 | asked about its own square, rookMove answers whether it is empty or opponent-held, and the generator never offers it |
| RookRules.PossibleRookMovesBound | src/Rules/RookRules.ts:66-86 | at most 28 squares |
| RookRules.PossibleRookMovesAreStraight | src/Rules/RookRules.ts:58-82 | every generated square shares the rook's x or y, 1..7 away, and is empty or held by an opponent |
| QueenRules.QueenMove | src/Rules/QueenRules.ts:16-41 | the loop computes the validator: walk in the sign direction of the displacement |
| QueenRules.GetPossibleQueenMoves | src/Rules/QueenRules.ts:49-89 | the loops compute the queen generator over its 8 directions |
| QueenRules.QueenValidatorAgreesWithGenerator | src/Rules/QueenRules.ts:16-89 | for any square but its own, queenMove accepts exactly the generated squares |
| QueenRules.QueenZeroMove | src/Rules/QueenRules.ts:22-33 | asked about its own square, queenMove answers whether it is empty or opponent-held |
| QueenRules.QueenRejectsOffLine | src/Rules/QueenRules.ts:22-40 | a displacement that is neither straight nor diagonal is rejected |
| QueenRules.PossibleQueenMovesBound | src/Rules/QueenRules.ts:68-88 | at most 56 squares |
| KingRules.KingMoveMeaning | src/Rules/KingRules.ts:17-37 | kingMove holds iff each coordinate changes by at most 1 and the target is empty or held by an opponent |
| KingRules.KingOffsetsAreKingSteps | src/Rules/KingRules.ts:52-61 | the eight offsets are exactly the displacements of Chebyshev distance 1 |
| KingRules.GetPossibleKingMoves | src/Rules/KingRules.ts:45-81 | the offset loop computes the king generator exactly |
| KingRules.PossibleKingMovesMeaning | src/Rules/KingRules.ts:63-78 | at most 8 squares; a square is generated iff it is one king step away, on the board, and empty or held by an opponent |
| KingRules.KingValidatorAgreesWithGenerator | src/Rules/KingRules.ts:17-81 | for an on-board square other than its own, kingMove and the generator agree; nothing else is generated |
| KingRules.UnmovedRooks | src/Rules/KingRules.ts:99-101 | the list holds exactly the unmoved rooks of the king's team |
| KingRules.Enemies | src/Rules/KingRules.ts:118 | the list holds exactly the pieces of the other team |
| KingRules.ConcerningTiles | src/Rules/KingRules.ts:115-117 | the concerning tiles are exactly the rook's listed moves on the king's rank |
| KingRules.FilterRank | src/Rules/KingRules.ts:115-117 | keeps exactly the moves on the given rank |
| KingRules.GetCastlingMoves | src/Rules/KingRules.ts:89-142 | the loops with continue, the isSafe flag and both breaks compute the castling squares exactly |
| KingRules.ScanEnemies | src/Rules/KingRules.ts:120-136 | the enemy loop ends safe iff no enemy lists the king's square or a concerning tile |
| KingRules.ScanMoves | src/Rules/KingRules.ts:125-133 | the inner loop returns the index of a move that lists the king's square or a concerning tile, or -1 when no move does |
| KingRules.CastlingOverMembership | src/Rules/KingRules.ts:103-139 | at most one square per rook; a square is offered iff it is the square of a rook that passes the adjacency and safety tests |
| KingRules.CastlingMovesMeaning | src/Rules/KingRules.ts:89-142 | a square is offered iff the king has not moved and it holds an unmoved rook of the king's team that lists the square beside the king and that no enemy threatens through the king's square or the rook's moves on that rank |
| KingRules.NoCastlingOutOfCheck | src/Rules/KingRules.ts:125-135 | when an enemy lists the king's square, no castling square is offered |
| MoveGeneration.ValidMovesNoFriend | src/Models/Board.ts:141-158 | no generated move of any kind lands on a friendly piece or on the piece's own square |
| MoveGeneration.ValidMovesCongruent | src/Models/Board.ts:141-158 | the generated moves depend only on the pieces' squares, kinds, teams and flags, not on their move lists |
| Layouts.OccupancyCongruent | src/Rules/GeneralRules.ts:10-50 | the three occupancy predicates depend only on the layout |
| Layouts.PawnMovesCongruent | src/Rules/PawnRules.ts:63-126 | the pawn generator depends only on the layout |
| Layouts.SlideMovesCongruent | src/Rules/BishopRules.ts:70-88 | the sliding generators depend only on the layout |
| Calculation.CurrentTeamAlternates | src/Models/Board.ts:41-43 | the side to move alternates with the turn count; turn 1 is White's (OUR), turn 0 Black's |
| Calculation.Generated | src/Models/Board.ts:51-53 | every piece's list becomes its generated moves on the unchanged list; squares, kinds and teams are kept |
| Calculation.WithCastling | src/Models/Board.ts:56-63 | appending castling squares keeps the layout and leaves the unvisited pieces as they were |
| Calculation.WithCastlingEntries | src/Models/Board.ts:56-63 | only kings change; a king keeps its generated moves followed by its castling squares; a king that has moved gains nothing |
| Calculation.RemoveAt | src/Models/Board.ts:103-105 | the simulation's removal keeps exactly the pieces not on the destination |
| Calculation.FirstIndexAt | src/Models/Board.ts:106-108 | find returns the first piece on the square, or none when no piece stands there |
| Calculation.Recomputed | src/Models/Board.ts:111-119 | on the simulated board every enemy's list is regenerated and every other piece is kept |
| Calculation.FindKing | src/Models/Board.ts:121-123 | the found piece is a king of the team on the board; none is found iff the team has no king |
| Calculation.LeavesKingAttackedCongruent | src/Models/Board.ts:100-133 | the simulation's verdict depends only on the layout of the board and of the mover |
| Calculation.SafeMovesMembership | src/Models/Board.ts:100-134 | a move survives the filter iff it is in the list and does not leave the own king attacked (an enemy pawn's same-file moves do not attack) |
| Calculation.SafeMovesCongruent | src/Models/Board.ts:100-134 | the filter gives the same list on any board with the same layout |
| Calculation.Checked | src/Models/Board.ts:96-136 | the filter pass keeps every piece's square, kind, team and flags |
| Calculation.CheckedMeaning | src/Models/Board.ts:96-136 | other pieces are untouched; a move of the side to move survives iff it does not leave its king attacked; lists only shrink |
| Calculation.EnemyMoves | src/Models/Board.ts:69-71 | a square is collected iff some piece not of the side to move lists it |
| Calculation.ClearIdle | src/Models/Board.ts:74-76 | the idle side's lists become empty and every other piece is kept |
| Calculation.CalculatedLayout | src/Models/Board.ts:49-90 | calculating the moves never moves, adds or removes a piece |
| Calculation.CalculatedMeaning | src/Models/Board.ts:49-90 | after the calculation the idle side has no moves, and a move of the side to move is kept iff it was generated or castled and does not leave its king attacked |
| Calculation.CastledNoFriend | src/Models/Board.ts:51-63 | apart from an unmoved king's castling squares, no listed move lands on a friendly piece or the piece's own square |
| Material.SwapTeamsCounts | src/Models/Board.ts:242-268 | exchanging the teams exchanges the two sides' piece, minor-piece and knight counts |
| Material.MaterialDrawSymmetric | src/Models/Board.ts:242-268 | the material rule treats both sides alike |
| Material.LoneKingsDraw | src/Models/Board.ts:243-254 | a single piece on each side is a draw |
| Material.MinorPairIgnoresOtherPieces | src/Models/Board.ts:245-254 | two kings/knights/bishops of one side against a lone piece is a draw whatever else that side holds |
| MoveApplication.CastledBoardMeaning | src/Models/Board.ts:180-189 | castling keeps the piece count, kinds, teams, flags and lists; the king goes two files towards the rook, the rook to the square in between, ranks unchanged, every other piece stays |
| MoveApplication.ReducedMeaning | src/Models/Board.ts:190-223 | after the move the list holds the mover on the destination (moved, its pawn flag set as given), every piece off both squares with its pawn flag cleared, and nothing else |
| MoveApplication.AppliedRefuses | src/Models/Board.ts:175-224 | playMove refuses iff it is not a king-onto-own-rook castling and neither flag is set |
| MoveApplication.EnPassantClearsCapturedSquare | src/Models/Board.ts:190-207 | after an en-passant capture no piece stands on the captured square and no pawn keeps an en-passant flag |
| MoveApplication.OrdinaryMoveCaptures | src/Models/Board.ts:208-223 | after an ordinary move every piece left on the destination is marked as moved (a captured piece is gone), and a pawn keeps the en-passant flag only when it is the moved piece on the destination after a two-rank move |
| Boards.Board.constructor | src/Models/Board.ts:26-38 | stores pieces, turn count, moves and history; stalemate and draw start false and there is no winner |
| Boards.Board.CalculateAllMoves | src/Models/Board.ts:49-90 | the pieces become the calculated list; turn count and moves are kept; history, draw, stalemate and winner are settled as in Settle, with the enemy moves collected before the idle lists are cleared |
| Boards.Board.Settle | src/Models/Board.ts:79-89 | the current key's history count rises by one; draw becomes set by the material rule or a third occurrence and is never cleared; only when the side to move has no move, the other side wins if an enemy move hits its king, else stalemate is set; pieces, turn count and moves are kept |
| Boards.Board.GenerateAllMoves | src/Models/Board.ts:51-53 | the loop computes the generation stage |
| Boards.Board.AddCastlingMoves | src/Models/Board.ts:56-63 | the loop over the kings computes the castling stage |
| Boards.Board.CheckCurrentTeamMoves | src/Models/Board.ts:96-136 | the in-place pass leaves the filtered list and changes no other field |
| Boards.Board.KeepSafeMoves | src/Models/Board.ts:99-134 | one piece's list is replaced by its safe moves and nothing else changes |
| Boards.Board.SafeMovesOf | src/Models/Board.ts:100-134 | the filter loop keeps the safe moves in order |
| Boards.Board.IsSafeMove | src/Models/Board.ts:101-133 | one simulation answers whether the move leaves the own king unattacked |
| Boards.Board.RecomputeIdleMoves | src/Models/Board.ts:111-119 | the loop regenerates the enemy lists of the simulated board |
| Boards.Board.CollectEnemyMoves | src/Models/Board.ts:69-71 | the loop collects the lists of the pieces not of the side to move |
| Boards.Board.ClearIdleMoves | src/Models/Board.ts:74-76 | the loop empties the idle side's lists |
| Boards.Board.GetValidMoves | src/Models/Board.ts:141-158 | dispatches on the kind to the matching generator |
| Boards.Board.ApplyMove | src/Models/Board.ts:170-224 | the three branches compute the new list, or a refusal |
| Boards.Board.PlayMove | src/Models/Board.ts:164-237 | returns false and changes nothing exactly when the move is refused; otherwise the list is rewritten, exactly one Move is appended, the turn count is kept and the moves are calculated again |
| Boards.Board.Advance | src/Models/Board.ts:226-236 | the new list replaces the pieces, the move is appended and the calculation runs |
| Boards.Board.CheckForDraw | src/Models/Board.ts:242-269 | draw becomes set when the material rule holds and is never cleared; nothing else changes |
| Boards.Board.CheckForThreeFoldRepetition | src/Models/Board.ts:274-280 | the current key's count goes up by one and the other keys' counts are kept; draw is set when that count is exactly 3 and never cleared |
| Boards.Board.CheckForStalemate | src/Models/Board.ts:286-294 | when an enemy move hits the king's square the other team wins, otherwise stalemate is set; nothing else changes |
| Boards.Board.Clone | src/Models/Board.ts:299-306 | a new board with the same pieces, turn count, moves and the same history; its flags start cleared |
| Setup.AxisLabels | src/Constants.ts:8-9 | eight rank labels "1".."8" and eight file labels "a".."h" |
| Setup.CreateTeamPieces | src/Constants.ts:19-36 | sixteen pieces per side |
| Setup.CreateTeamPiecesLayout | src/Constants.ts:19-36 | rook, knight, bishop, queen, king, bishop, knight, rook on files 0..7 of mainRow, then a pawn on every file of pawnRow; all of the team, unmoved, unflagged and with no moves |
| Setup.CreateTeamPiecesDistinct | src/Constants.ts:19-36 | with the two rows apart, no two pieces of a side share a square |
| Setup.InitialPiecesLayout | src/Constants.ts:39-43 | 32 pieces on distinct squares, the first sixteen OPPONENT (Black), two kings: Black's on (4, 7) and White's on (4, 0) |
| Setup.InitialKings | src/Constants.ts:39-43 | each side has its king where the setup puts it |
| Setup.InitialBoard | src/Constants.ts:39-50 | turn count 1 so OUR (White) moves first, no moves, empty history; the moves are calculated once |
| TileSetup.SameTilePositionIsEquality | src/components/Tile/Constants.ts:7-9 | samePosition holds iff the squares are equal; reflexive and symmetric |
| TileSetup.AddPiece | src/components/Tile/Constants.ts:52-54 | exactly one record is appended, with the given square, kind and team, keeping the earlier records |
| TileSetup.InitialBoardState | src/components/Tile/Constants.ts:65-76 | the forEach over the groups and files, then the pawn loop, build the initial record list |
| TileSetup.AddGroups | src/components/Tile/Constants.ts:65-70 | the group loop appends each group's records in order |
| TileSetup.AddFiles | src/components/Tile/Constants.ts:66-69 | one group appends, per file, White on row 0 and then Black on row 7 |
| TileSetup.AddPawns | src/components/Tile/Constants.ts:73-76 | the pawn loop appends, per file, White on row 1 and then Black on row 6 |
| TileSetup.InitialTilesAt | src/components/Tile/Constants.ts:57-76 | record i is the i-th major piece in group order, then the pawns in file order, alternating White and Black |
| TileSetup.InitialTilesLayout | src/components/Tile/Constants.ts:57-76 | 32 records on distinct squares, sixteen per team; back-rank kinds R,N,B,Q,K,B,N,R on rows 0 (White) and 7 (Black); pawns on rows 1 and 6 |
| TileSetup.InitialTilesCoverHomeRows | src/components/Tile/Constants.ts:57-76 | every square of the four home rows holds the expected record |
| RefereeRules.RefereePawnMove | src/components/Referee/Rules/PawnRules.ts:5-70 | accepted iff a same-file move to a square neither predicate reports (any distance or direction, subsuming the double step), or a diagonal step forward onto an opponent |
| RefereeRules.RefereeKnightMoveMeaning | src/components/Referee/Rules/KnightRules.ts:5-25 | accepted iff the displacement is a knight jump; neither occupancy nor bounds is consulted |
| RefereeRules.RefereeKnightSymmetric | src/components/Referee/Rules/KnightRules.ts:9-24 | valid(a, b) iff valid(b, a), and never for a zero displacement |
| RefereeRules.TileOccupiedAppend | src/components/Referee/Rules/BishopRules.ts:32-34 | a square is occupied in an extended list iff it was before or the new record stands there |
| RefereeRules.RefereeBishopMove | src/components/Referee/Rules/BishopRules.ts:5-30 | for a start other than the target, the while loop accepts iff the displacement is diagonal and every square strictly between is empty |
| RefereeRules.RefereeRookMove | src/components/Referee/Rules/RookRules.ts:4-39 | the while loop accepts iff the move is straight (or zero) and every square strictly between is empty |
| RefereeRules.RefereeQueenMove | src/components/Referee/Rules/QueenRules.ts:6-15 | accepted iff the guarded bishop test accepts (a start other than the target, diagonal, inner squares empty) or the rook test accepts |
| RefereeRules.RefereeBishopAsWrittenAgrees | src/components/Referee/Rules/BishopRules.ts:10-29 | for a start other than the target, the loop as written returns within abs(dx) rounds, and whenever it returns its answer is the diagonal-and-clear-path test |
| RefereeRules.RefereeBishopGuardAgrees | src/components/Referee/Rules/BishopRules.ts:10-29 | whenever the loop as written returns, zero displacement included, its answer equals the guarded bishop test |
| RefereeRules.RefereePawnAcceptsAnyFileMove | src/components/Referee/Rules/PawnRules.ts:41-53 | on an empty board a White pawn on (0, 1) may go to (0, 5) and back to (0, 0) |
| RefereeRules.RefereePawnMoveCorrected | src/components/Referee/Rules/PawnRules.ts:22-67 | an accepted move goes at most one file over and one rank forward, or two ranks forward along the file from the start row |
| RefereeRules.RefereeBishopZeroNeverAnswers | src/components/Referee/Rules/BishopRules.ts:17-27 | with start equal to target on an empty board, the loop as written has not returned after any number of rounds |
| RefereeRules.RefereeBishopMoveGuarded | src/components/Referee/Rules/BishopRules.ts:5-30 | accepted iff the start differs from the target, the displacement is diagonal and every square strictly between is empty; no precondition |
| RefereeRules.RefereePawnCorrectionNarrows | src/components/Referee/Rules/PawnRules.ts:41-53 | the corrected pawn test accepts exactly the moves the source accepts that are captures, single steps forward or double steps from the start row |
| RefereeRules.SlidersIgnoreTarget | src/components/Referee/Rules/BishopRules.ts:23-29 | whatever stands on the target does not change the bishop or rook answer |
| RefereeRules.RefereeQueenLines | src/components/Referee/Rules/QueenRules.ts:11-14 | a displacement neither straight nor diagonal is rejected; a zero displacement passes the rook test |
| RefereeRules.RefereeKingMoveMeaning | src/components/Referee/Rules/KingRules.ts:4-21 | accepted iff the target is on the board and at most one step away in each coordinate, the zero move included; the start square is not checked |

## Left out

- The user interface (drag and drop, rendering, CSS class names, the React
  referee component) is not part of this model. So are the promotion
  dialog, which is the only place promotion happens, and the stub referee
  that always refuses.
- Image paths are not modelled: the piece's image name and the Tile
  records' image field are dropped.
- `GRID_SIZE` and the duplicate axis constants of the Tile module are
  display constants and are not modelled.
- The repetition key is the sequence of simplified pieces, not its
  `JSON.stringify` text; two lists have the same text exactly when they
  have the same sequence.
- Object identity is not modelled. Values replace objects, so the model
  does not capture that:
  - `clone` returns fresh objects;
  - the castling branch updates `position.x` in place;
  - a cloned board shares its history object with the original;
  - a `playedPiece` that is an element of the list would alias.
- `totalTurns` is advanced by a caller that is not part of this model.
  That caller also computes the `enPassantMove` and `validMove` flags, so
  they are parameters of `PlayMove`.
- The `../Types` index module is not part of this model. Its piece-type
  names are a parameter of `Moves.ToMessage`, and the two teams and six
  kinds are datatypes.
- Boards.Board.CalculateAllMoves: requires a king of the side to move
  whenever that side ends up with no move, because the source then fails
  dereferencing a missing king. The same holds for PlayMove, Advance,
  Settle and CheckForStalemate.
- Calculation.LeavesKingAttacked: when the simulated board has no king, or
  no piece is left on the mover's square, the source fails on a missing
  object. The model answers "not attacked" and leaves the board as the
  removal made it.
- RefereeRules.RefereeBishopMove: requires the start to differ from the
  target. On a zero displacement the source loop walks away from the target
  and stops only on an occupied square, so it may not terminate (see
  Findings). The zero case is modelled by RefereeBishopAsWritten, whose walk
  is bounded by a fuel count. The fuel bound does not model the loop running
  forever, only that it has not returned after any finite number of rounds.
- RefereeRules.RefereeQueenMove: uses the guarded bishop test of the
  Findings. Where the source's bishop loop returns, the answer is the
  same (RefereeBishopGuardAgrees). Where that loop never ends, the model
  answers with the rook test.
- Position and board coordinates are unbounded integers, like the source's
  numbers; no overflow arises at these sizes.

## Findings

| source | as written | input that shows it | evidently intended | confidence | as-written member | corrected member |
|---|---|---|---|---|---|---|
| src/components/Referee/Rules/PawnRules.ts:41-53 | the "one square forward" branch tests only that the file is unchanged and the target is free | a White pawn on (0, 1) with an empty board: (0, 5) and (0, 0) are accepted | the branch also requires the rank to change by exactly the pawn direction | high; not executed | RefereeRules.RefereePawnAcceptsAnyFileMove | RefereeRules.RefereePawnMoveCorrected |
| src/components/Referee/Rules/BishopRules.ts:17-27 | for a zero displacement both step signs are -1, and the loop runs while neither coordinate equals the target's | start = target on an empty board: the walk heads away from the target and never returns | a move to the piece's own square is rejected before the walk | high; not executed | RefereeRules.RefereeBishopZeroNeverAnswers | RefereeRules.RefereeBishopMoveGuarded |
