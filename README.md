# A verified model of a small chess engine

This project models the rules core and the search of a terminal chess engine written in Rust.
It covers:

- colours and piece kinds;
- two coordinate types:
  - the unpacked `(rank, file)` position used by the game;
  - the byte-packed square (`rank << 3 | file`) used by the board;
- the 64-square board with `move`, `promote`, `iter` and `position_of`;
- castling rights;
- the game state with `move`, `promote`, `is_promotion`, attack detection, the move generator `moves`, `check`, `mate` and `status`;
- the minimax search of `ai.rs` with its evaluation ordering and material estimate.

The modules follow the source files:

| module | source |
|---|---|
| `Pieces` | `src/game/piece.rs` |
| `Positions` | `src/game/position.rs` |
| `Squares` | `src/game/board/position.rs` |
| `Boards` | `src/game/board.rs` |
| `Castlings` | `src/game/castling.rs` |
| `Games`, `Attacks`, `MoveGen` | `src/game.rs` |
| `MoveRules`, `KingSafety` | properties of `src/game.rs` |
| `Search` | `src/ai.rs` |
| `Directions`, `Wrappers` | helpers |

Most of the source is pure computation over copied values: the board and the castling records are `Copy`, and `Game::move` and `Game::promote` take `&self` and return a new game. The model therefore uses datatypes and functions for it. The parts that update state step by step become methods proved equal to those functions:

- the `moves` vector pushes, the `saturate` loop and the `try_insert` calls (`MoveGen`);
- the in-place castling-right updates behind `let mut castling` (class `Castlings.CastlingRights`);
- the candidate loop of `minimax` (`Search.Minimax`).

Coordinates are unbounded integers. The game position's `usize` `wrapping_sub` from 0 gives -1 here, which is off the board exactly as the wrapped value is. The game-level board lookup returns nothing for a position off the board.

The main results are below. Every question of whether a square is attacked uses the corrected bishop test (see "## Findings"). This covers the check filter of `moves`, the castling conditions, `check`, `mate`, `status` and the search. The source's own test can disagree on falling diagonals, and the results below then describe the corrected engine, not the source (see "## Left out").


- The move generator lists exactly the destinations the chess move rules allow and the check filter accepts, in both directions (`MoveRules.MoverDestinations`, `MoveRules.KingDestinations`).
- With the corrected bishop test, a move it lists for a piece other than the king, or a king step, never leaves the mover's own king attacked (`KingSafety.MoverKeepsKingSafe`, `KingSafety.KingStepKeepsKingSafe`).
- Every listed move can be played (`KingSafety.DestinationsArePlayable`, `Search.CandidatesArePlayable`).
- `status` reports a win only for the side not to move, and only when the side to move is checkmated (`MoveGen.Status`, `MoveRules.StatusRule`).
- `minimax` returns the first candidate whose evaluation is best for the side to move (`Search.MinimaxIsOptimal`).
- The evaluation order is a total preorder (`Search.CmpIsTotalPreorder`).
- The starting position is well formed and its material estimate is 0 (`Games.NewIsWellFormed`, `Search.InitialEstimate`).

## Model

| member | source | states |
|---|---|---|
| Pieces.PieceColor.Not | src/game/piece.rs:57-66 | the opposite colour differs from the colour |
| Pieces.NotInvolution | src/game/piece.rs:57-66 | `!` swaps White and Black and is its own inverse |
| Pieces.PieceColor.PawnStartingRank | src/game/piece.rs:42-47 | pawns start strictly inside the board (rank 1 or 6) |
| Pieces.PieceColor.PieceStartingRank | src/game/piece.rs:49-54 | the back rank is rank 0 or rank 7 |
| Pieces.StartingRanks | src/game/piece.rs:42-54 | the two colours' ranks mirror each other (sum 7), and the pawn rank is one step forward of the back rank |
| Positions.Position.Pawn | src/game/position.rs:55-60 | a pawn step keeps the file and moves one rank forward for the colour (+1 White, -1 Black) |
| Positions.Position.ToString | src/game/position.rs:63-67 | two characters: file letter a–h, then rank digit 1–8 |
| Positions.StepsAreInverse | src/game/position.rs:23-49 | up/down and left/right undo each other, always move, and commute |
| Positions.StepValidity | src/game/position.rs:23-53 | a step from a valid square stays on the board exactly when it does not cross the matching edge |
| Positions.PawnStepsOpposite | src/game/position.rs:55-60 | White's pawn step is `up`, Black's is `down`, and the two colours' steps undo each other |
| Positions.PawnStartOneStepFromPieceStart | src/game/piece.rs:42-54 | one pawn step from the back rank reaches the pawn starting rank |
| Positions.ToStringInjective | src/game/position.rs:63-67 | two valid positions display the same exactly when they are equal |
| Squares.New | src/game/board/position.rs:11-15 | packing a rank and file below 8 gives back that rank and file |
| Squares.Rank | src/game/board/position.rs:17-19 | the rank of a square is below 8 |
| Squares.File | src/game/board/position.rs:21-23 | the file of a square is below 8 |
| Squares.PackingIsBitwise | src/game/board/position.rs:11-23 | on bytes, `rank << 3 \| file` stays below 64, `>> 3` gives the rank back and `& 0b111` the file, and it equals `rank * 8 + file` |
| Squares.NewOfCoordinates | src/game/board/position.rs:11-23 | every square is the packing of its own rank and file |
| Squares.SameCoordinates | src/game/board/position.rs:11-23 | squares with equal rank and file are equal |
| Squares.Up | src/game/board/position.rs:50-52 | `None` exactly on rank 7; otherwise one rank up on the same file |
| Squares.Down | src/game/board/position.rs:54-56 | `None` exactly on rank 0; otherwise one rank down on the same file |
| Squares.Left | src/game/board/position.rs:58-60 | `None` exactly on file 0; otherwise one file left on the same rank |
| Squares.Right | src/game/board/position.rs:62-64 | `None` exactly on file 7; otherwise one file right on the same rank |
| Squares.PawnStep | src/game/board/position.rs:66-71 | the pawn step is `up` for White and `down` for Black; the two colours' steps undo each other |
| Squares.LiftedSteps | src/game/board/position.rs:74-94 | the `Option` steps propagate `None` and apply the plain step to `Some`; two lateral steps fail exactly within two files of the edge |
| Squares.ToString | src/game/board/position.rs:35-39 | two characters encoding the file letter and the rank digit |
| Squares.ToSquareCoordinates | src/game/board/position.rs:11-23 | packing a valid game position keeps its rank and file |
| Squares.ToPosition | src/game/board/position.rs:11-23 | unpacking a square gives a valid position that packs back to the square |
| Squares.RepresentationsAgree | src/game/board/position.rs:11-39 | packing and unpacking are inverse and both `Display`s agree |
| Squares.DisplayAgrees | src/game/board/position.rs:35-39 | the packed square displays as its unpacked position does |
| Squares.StepsAgree | src/game/board/position.rs:49-64 | each packed step is `None` exactly where the unpacked step leaves the board, and otherwise lands on the same square |
| Squares.VerticalStepsAgree | src/game/board/position.rs:50-56 | the same for `up` and `down` |
| Squares.HorizontalStepsAgree | src/game/board/position.rs:58-64 | the same for `left` and `right` |
| Boards.Initial | src/game/board.rs:26-54 | the reference starting board (its ensures restates it); the placement is stated by `StartingPieceByRank`, `InitialKings` and `InitialCounts` |
| Boards.IsVacant | src/game/board.rs:130-132 | definition; used by every vacancy condition of the move rules |
| Boards.New | src/game/board.rs:26-54 | the method that fills the array builds the starting board |
| Boards.StartingPieceByRank | src/game/board.rs:26-54 | back rank on ranks 0 and 7, pawns on ranks 1 and 6, and nothing elsewhere |
| Boards.InitialKings | src/game/board.rs:26-54 | a colour's king starts exactly on file 4 of its back rank |
| Boards.KingHome | src/game/board.rs:26-54 | that square is index 4 for White and 60 for Black |
| Boards.InitialKingIndex | src/game/board.rs:26-54 | the starting board holds a colour's king on exactly that index |
| Boards.BackRankKing | src/game/board.rs:26-54 | the back-rank order has the king on file 4 only |
| Boards.InitialMiddleEmpty | src/game/board.rs:26-54 | ranks 2 to 5 start empty |
| Boards.IterFrom | src/game/board.rs:60-66 | from index `i` on, lists exactly that colour's pieces, with their squares, in increasing square order |
| Boards.NothingLeft | src/game/board.rs:60-66 | with no piece of the colour from `i` on, the listing is empty |
| Boards.Iter | src/game/board.rs:60-66 | every piece of the colour appears exactly with its square, in increasing square order, and nothing else appears |
| Boards.WhiteFrom | src/game/board.rs:26-66 | the starting board lists 16 − i White pieces from index i ≤ 16 on |
| Boards.BlackFrom | src/game/board.rs:26-66 | the starting board lists 16 Black pieces from index i ≤ 48 on, and 64 − i after that |
| Boards.InitialCounts | src/game/board.rs:26-66 | each side starts with 16 pieces |
| Boards.FindFrom | src/game/board.rs:123-128 | the first square from `i` on that holds the piece, or `None` exactly when no square from `i` on holds it |
| Boards.PositionOf | src/game/board.rs:123-128 | the lowest-indexed square holding the piece, or `None` exactly when the piece is absent |
| Boards.Moved | src/game/board.rs:69-109 | `from` is emptied and `to` receives the piece. An en passant capture empties the passed pawn's square. Castling moves the rook from its corner to the square the king crossed. Every other square is unchanged |
| Boards.Move | src/game/board.rs:69-109 | the copying method returns exactly `Moved` |
| Boards.Promoted | src/game/board.rs:111-121 | `to` holds a new piece of the pawn's colour and the chosen kind, `from` is emptied, and nothing else changes |
| Boards.Promote | src/game/board.rs:111-121 | the copying method returns exactly `Promoted` |
| Castlings.NewInfo | src/game/castling.rs:16-21 | a new record allows both castlings |
| Castlings.CastlingInfo.CanCastleQueenside | src/game/castling.rs:47-55 | definition; stated by `NewInfo`, `MovedKing` and `MovedQueensideRook` |
| Castlings.CastlingInfo.CanCastleKingside | src/game/castling.rs:57-65 | definition; stated by `NewInfo`, `MovedKing` and `MovedKingsideRook` |
| Castlings.CastlingInfo.MovedKing | src/game/castling.rs:23-25 | after the king moves, neither castling is allowed, and later rook moves change nothing |
| Castlings.CastlingInfo.MovedQueensideRook | src/game/castling.rs:27-35 | revokes queenside castling and keeps the kingside right and the king's state |
| Castlings.CastlingInfo.MovedKingsideRook | src/game/castling.rs:37-45 | revokes kingside castling and keeps the queenside right and the king's state |
| Castlings.UpdatesOnlyRevoke | src/game/castling.rs:23-45 | no update grants a right that was not held, and a moved king stays moved |
| Castlings.UpdatesIdempotent | src/game/castling.rs:23-45 | applying an update twice is the same as once |
| Castlings.NoNewRightsTransitive | src/game/castling.rs:23-45 | "grants no new right" composes over several updates |
| Castlings.Castling.With | src/game/castling.rs:93-100 | replacing one colour's record leaves the other colour's record unchanged |
| Castlings.New | src/game/castling.rs:75-80 | both colours start with both castlings allowed |
| Castlings.CastlingRights.constructor | src/game.rs:313 | the mutable copy starts equal to the game's rights |
| Castlings.CastlingRights.MoveKing | src/game.rs:316-318 | updates only the mover's record, by `move_king` |
| Castlings.CastlingRights.MoveQueensideRook | src/game.rs:319-321 | updates only the mover's record, by `move_queenside_rook` |
| Castlings.CastlingRights.MoveKingsideRook | src/game.rs:322-324 | updates only the mover's record, by `move_kingside_rook` |
| Directions.Direction.Step | src/game.rs:176-197 | one step of a sliding direction moves by that direction's rank and file offsets, and never stays put |
| Directions.WalkIsRepeatedStep | src/game.rs:88-101 | walking k steps is k repeated single steps, and a walk of one or more steps leaves the square |
| Directions.DirectionKinds | src/game.rs:176-197 | the rook's directions are exactly the straight ones, the bishop's exactly the diagonal ones, and each offset is −1, 0 or 1 |
| Games.New | src/game.rs:45-56 | White moves first, with no en passant square |
| Games.NewGame | src/game.rs:45-56 | every castling right is held and every square holds its starting piece |
| Games.NewIsWellFormed | src/game.rs:45-56 | the starting game meets every condition the engine's `expect`s rely on |
| Games.NewKings | src/game.rs:45-56 | each colour has exactly one king, on file 4 of its back rank |
| Games.NewKingHome | src/game.rs:45-56 | the king stands on its home square and `position_of` finds it |
| Games.NewKingUnique | src/game.rs:45-56 | `position_of` finds the only king of that colour |
| Games.NewPawns | src/game.rs:45-56 | no pawn starts on its promotion rank |
| Games.PromotionIsOntoOpponentsBackRank | src/game.rs:352-364 | a move is a promotion exactly when a pawn moves onto the opponent's back rank |
| Games.CastlingAfterMove | src/game.rs:313-326 | the other colour's rights are unchanged, and no right is gained |
| Games.Moved | src/game.rs:306-334 | the turn passes; the board is `Board::move`'s; the en passant square is `to` exactly when a pawn moved two ranks; the mover loses exactly the rights its king or corner rook revokes |
| Games.Move | src/game.rs:306-334 | the method with a mutable castling copy returns exactly `Moved` |
| Games.Promoted | src/game.rs:337-350 | the turn passes; there is no en passant square; the rights are unchanged; `to` holds the chosen piece; `from` is emptied; nothing else changes |
| Games.KingPosition | src/game.rs:366-373 | the position found holds that colour's king |
| Games.Get | src/game.rs:62-64 | definition: the piece on a valid square, nothing off the board; stated by `Games.NewGame` and `Squares.RepresentationsAgree` |
| Games.IsPromotion | src/game.rs:352-364 | definition; stated by `PromotionIsOntoOpponentsBackRank` |
| Games.WellFormed | src/game.rs:13-21 | definition of the assumed invariant of play (see "## Left out"); stated for the start by `NewIsWellFormed` |
| Games.PawnForwardOnBoard | src/game.rs:103-106 | in a well-formed game, a pawn's forward step stays on the board |
| Attacks.AttacksBySquare | src/game.rs:277-302 | a colour attacks a square exactly when some piece of that colour attacks it by its kind's pattern |
| Attacks.RookAttacksAlongRay | src/game.rs:254-275 | along a straight ray, `rook_attacks` holds exactly when every square strictly between is vacant |
| Attacks.AlongRank | src/game.rs:254-263 | the same along a rank |
| Attacks.AlongFile | src/game.rs:264-275 | the same along a file |
| Attacks.BishopAttacksAlongRay | src/game.rs:246-252 | along a diagonal, the corrected bishop test holds exactly when every square strictly between is vacant |
| Attacks.BishopTargetsLieOnDiagonals | src/game.rs:246-252 | every square a bishop attacks is some number of steps along a diagonal |
| Attacks.RookTargetsLieOnLines | src/game.rs:254-275 | every other square a rook attacks is some number of steps along a straight line |
| Attacks.AsWrittenAgreesOnRisingDiagonals | src/game.rs:246-252 | the source's zipped ranges test the right squares when rank and file grow together |
| Attacks.AsWrittenSeesThroughBlocker | src/game.rs:246-252 | a concrete position where the source's test sees through a blocker that the corrected test respects |
| Attacks.RookAttacks | src/game.rs:254-275 | definition; stated by `RookAttacksAlongRay`, `AlongRank` and `AlongFile` |
| Attacks.BishopAttacksAsWritten | src/game.rs:246-252 | definition of the source's test; stated by `AsWrittenAgreesOnRisingDiagonals` and `AsWrittenSeesThroughBlocker` |
| Attacks.BishopAttacks | src/game.rs:246-252 | definition of the corrected test; stated by `BishopAttacksAlongRay` and `BishopTargetsLieOnDiagonals` |
| Attacks.PieceAttacks | src/game.rs:280-300 | definition of the per-kind pattern with the corrected bishop test; stated by the `MoveRules` rules |
| Attacks.Attacks | src/game.rs:277-302 | definition of `attacks` with the corrected bishop test; stated by `AttacksBySquare` |
| Attacks.PieceAttacksAsWritten | src/game.rs:280-300 | definition of the per-kind pattern with the source's `bishop_attacks`; stated by `PatternsAgreeAwayFromBishopTests` |
| Attacks.AttacksAsWritten | src/game.rs:277-302 | definition of `attacks` exactly as written; stated by `AsWrittenMissesCheck` |
| Attacks.PatternsAgreeAwayFromBishopTests | src/game.rs:277-302 | the source's pattern and the corrected one agree for every kind but bishop and queen; for those they agree on rising diagonals and off the diagonals |
| Attacks.AsWrittenMissesCheck | src/game.rs:277-302 | White king e1, White pawns b2 and d4, Black queen a5, Black king e8: the queen attacks e1, but the source's `attacks` reports that no Black piece does |
| MoveGen.RayEnds | src/game.rs:90 | the slide stops at the board's edge |
| MoveGen.RayStops | src/game.rs:91-95 | on an occupied square, the slide pushes it only if it holds an enemy that the filter accepts, then stops |
| MoveGen.RayContinues | src/game.rs:96-99 | on a vacant square, the slide pushes it if the filter accepts it, then continues |
| MoveGen.RemainingDecreases | src/game.rs:90-99 | every iteration brings the slide closer to the edge (termination of the `while`) |
| MoveGen.Saturate | src/game.rs:88-101 | the loop appends exactly the slide in one direction |
| MoveGen.Insert | src/game.rs:159-166 | `try_insert` pushes a valid square not held by the mover's colour that the filter accepts, and nothing else |
| MoveGen.PawnPushes | src/game.rs:103-157 | the pawn arm pushes, in order: the single step, the double step and the two captures (en passant included) |
| MoveGen.KnightMoves | src/game.rs:158-175 | the knight arm pushes the eight `try_insert` targets, in order |
| MoveGen.SaturateBishop | src/game.rs:176-181 | the four diagonal slides are appended in order |
| MoveGen.SaturateRook | src/game.rs:182-187 | the four straight slides are appended in order |
| MoveGen.ArmMoves | src/game.rs:102-197 | the `match` arm of a piece other than the king; the queen's is the rook's slides followed by the bishop's |
| MoveGen.KingMoves | src/game.rs:198-240 | the king's eight filtered steps, then queenside castling, then kingside castling |
| MoveGen.PieceMoves | src/game.rs:78-242 | the closure mapped over the pieces produces the piece's full destination list |
| MoveGen.Entry | src/game.rs:76-78 | each item's key is a valid square holding the piece the board iterates over |
| MoveGen.LegalMoves | src/game.rs:66-244 | one item per piece of the colour, and every key holds a piece of that colour (the doc comment's ENSURES) |
| MoveGen.Status | src/game.rs:380-390 | `None` exactly when the side to move is not mated; a win for the opponent exactly on mate with check; a draw exactly on mate without check. This restates the body; the promise in terms of destinations is `MoveRules.StatusRule` |
| MoveGen.Check | src/game.rs:366-373 | definition, over the corrected `Attacks.Attacks`; stated by `MoveRules.StatusRule` and `MoveRules.CastlingRule` |
| MoveGen.Mate | src/game.rs:375-377 | definition; stated by `MoveRules.MateMeansNoMoves` |
| MoveGen.Destinations | src/game.rs:78-242 | definition of one item's list; stated by `MoveRules.MoverDestinations` and `MoveRules.KingDestinations` |
| MoveGen.AfterMove | src/game.rs:80-84 | definition: a promotion is tried as a queen, anything else as `move`; stated by `KingSafety.MoverKeepsKingSafe` |
| MoveGen.DoesNotCauseCheck | src/game.rs:79-86 | definition, over the corrected `Attacks.Attacks`; stated by `MoveRules.MoverDestinations` |
| MoveGen.KingStepIsSafe | src/game.rs:199-200 | definition, over the corrected `Attacks.Attacks`; stated by `MoveRules.KingDestinations` |
| MoveGen.Ray | src/game.rs:88-101 | definition; stated by `RayEnds`, `RayStops`, `RayContinues` and `MoveRules.RayMembership` |
| MoveGen.Slide | src/game.rs:88-101 | definition; stated by `MoveRules.SlideMembership` |
| MoveGen.TryInsert | src/game.rs:159-166 | definition; stated by `MoveRules.TryInsertRule` |
| MoveRules.RayMembership | src/game.rs:88-101 | a square is in the slide from the j-th step on exactly when the declarative reach rule holds |
| MoveRules.OffBoardReachesNothing | src/game.rs:90 | past the edge nothing is reached |
| MoveRules.BlockedReachesFirst | src/game.rs:91-95 | an occupied square is the last one reachable |
| MoveRules.VacantReachesOn | src/game.rs:96-99 | a vacant square lets the slide reach on |
| MoveRules.SlideMembership | src/game.rs:88-101 | a square is in a slide exactly when the reach rule holds from the first step |
| MoveRules.StraightSlide | src/game.rs:182-187 | a square in a straight slide is on the board, rook-attacked, not the mover's own, and accepted by the filter |
| MoveRules.StraightTarget | src/game.rs:182-187 | conversely, such a square lies in one of the straight slides |
| MoveRules.RookSlidesRule | src/game.rs:182-187 | the rook arm lists exactly the valid squares the rook attacks that do not hold its own colour and that the filter accepts |
| MoveRules.DiagonalSlide | src/game.rs:176-181 | a square in a diagonal slide is on the board, bishop-attacked, not the mover's own, and accepted by the filter |
| MoveRules.DiagonalTarget | src/game.rs:176-181 | conversely, such a square lies in one of the diagonal slides |
| MoveRules.BishopSlidesRule | src/game.rs:176-181 | the bishop arm lists exactly the valid squares the bishop attacks that do not hold its own colour and that the filter accepts |
| MoveRules.TryInsertRule | src/game.rs:159-166 | `try_insert` adds exactly its square, when that square is valid, not the mover's own, and accepted by the filter |
| MoveRules.KnightJumpsRule | src/game.rs:158-175 | the knight arm lists exactly the valid knight-jump squares that do not hold its own colour and that the filter accepts |
| MoveRules.KingStepsRule | src/game.rs:198-216 | the king's steps are exactly the valid adjacent squares that do not hold its own colour and that the filter accepts |
| MoveRules.PawnCapturesRule | src/game.rs:118-156 | the two capture pushes list exactly the diagonal squares holding an enemy or beside the just-advanced pawn, when the filter accepts them |
| MoveRules.PawnMovesRule | src/game.rs:103-157 | the pawn arm lists exactly the squares of the pawn rule (single step, double step from the start, capture, en passant) that the filter accepts |
| MoveRules.PawnAttacksDiagonal | src/game.rs:281-284 | a pawn attacks exactly the two squares diagonally ahead of it |
| MoveRules.ArmRule | src/game.rs:102-197 | every arm lists exactly the valid squares its piece's move rule allows and the filter accepts |
| MoveRules.MoverDestinations | src/game.rs:68-197 | for a piece other than the king, the destinations are exactly the valid rule-allowed squares after which the king's square is not attacked |
| MoveRules.KingDestinations | src/game.rs:198-240 | the king's destinations are exactly its safe, rule-allowed steps plus the allowed castlings |
| MoveRules.CastlingRule | src/game.rs:218-240 | a listed castling starts from the king's home square while not in check, and lands on file 2 with the queenside right or on file 6 with the kingside right |
| MoveRules.CastlingCases | src/game.rs:218-240 | a listed castling lands two files left or right of the king, and its conditions held |
| MoveRules.KingIsUnique | src/game.rs:69-75 | in a well-formed game, the king `position_of` finds is the one on the given square |
| MoveRules.LegalMovesEntries | src/game.rs:66-244 | every item lists its piece's destinations, and no square is listed twice |
| MoveRules.EveryPieceListed | src/game.rs:76-78 | every piece of the colour has an item |
| MoveRules.MateMeansNoMoves | src/game.rs:375-377 | mate holds exactly when no piece of the colour has a destination |
| MoveRules.StatusRule | src/game.rs:380-390 | in progress exactly when some own piece has a destination; a win for the opponent exactly when none has one and the king is attacked; never a win for the side to move |
| KingSafety.SoleHolder | src/game/board.rs:123-128 | a piece held on one square only is found on that square |
| KingSafety.MoveKeepsKing | src/game/board.rs:69-109 | moving another piece, not onto the king and not capturing it en passant, keeps the king where it was |
| KingSafety.PromoteKeepsKing | src/game/board.rs:111-121 | a promotion that does not land on the king keeps it where it was |
| KingSafety.StepMovesKing | src/game/board.rs:69-109 | a one-file king step is a legal board move, and afterwards the king is found on its target |
| KingSafety.KingSquareIsUnique | src/game.rs:69-75 | the found king is the only king of its colour |
| KingSafety.PawnTargets | src/game.rs:103-156 | a pawn never moves onto its own piece, and a diagonal move onto an empty square has an enemy beside it |
| KingSafety.MoverKeepsKingSafe | src/game.rs:79-86 | after a listed move of a piece other than the king, that colour's king is still found on the same square and is not in check |
| KingSafety.KingStepKeepsKingSafe | src/game.rs:198-216 | a listed king step can be played, and afterwards the king stands on its target, not in check |
| KingSafety.DestinationsArePlayable | src/game.rs:306-308 | every listed destination is on the board and satisfies `Game::move`'s precondition |
| KingSafety.CastlingIsPlayable | src/game/board.rs:69-109 | a listed castling has its rook squares on the board, so `Board::move`'s `expect`s hold |
| KingSafety.RookSquaresExist | src/game/board.rs:69-109 | from file 4 to file 2 or 6 on the same rank, both rook squares exist |
| KingSafety.KingStepIsPlayable | src/game.rs:306-308 | a king step onto an adjacent valid square satisfies `Game::move`'s precondition |
| Search.CmpIsLexicographic | src/ai.rs:20-38 | the order ranks a White win above everything, a Black win below, and otherwise compares estimates, with a draw counting as 0 |
| Search.CmpIsTotalPreorder | src/ai.rs:20-38 | reflexive, antisymmetric under `reverse`, and transitive |
| Search.CmpExtremes | src/ai.rs:26-34 | a White win beats everything else, a Black win loses to everything else, and a draw ties an estimate of 0 |
| Search.Cmp | src/ai.rs:20-38 | definition; stated by `CmpIsLexicographic`, `CmpIsTotalPreorder` and `CmpExtremes` |
| Search.Value | src/ai.rs:46-55 | piece values lie between 0 and 9, with 0 exactly for the king |
| Search.Material | src/ai.rs:57-65 | the sum of values lies between 0 and 9 per piece |
| Search.EstimateOf | src/ai.rs:57-65 | definition: White's material minus Black's; stated by `InitialEstimate` |
| Search.Worth | src/ai.rs:46-55 | the same bound for a list of kinds |
| Search.WorthStep | src/ai.rs:46-55 | the worth of a list is its head's value plus its tail's worth |
| Search.WhiteMaterialFrom | src/ai.rs:57-60 | the White material of the starting board, counted from any index |
| Search.BackRankWorth | src/ai.rs:46-55 | the back rank is worth 31 |
| Search.BlackBackRankFrom | src/ai.rs:61-64 | Black's material from index 56 on is the worth of the rest of its back rank |
| Search.BlackPawnsFrom | src/ai.rs:61-64 | Black's material from an index between 48 and 56 |
| Search.BlackStartsAt48 | src/game/board.rs:60-66 | Black's listing on the starting board is the same from any index up to 48 |
| Search.InitialEstimate | src/ai.rs:57-65 | the starting position is estimated at 0 |
| Search.Expand | src/ai.rs:78-87 | a promotion expands into the four promotions in the order queen, rook, bishop, knight; any other destination into one plain move |
| Search.PieceCandidatesMembership | src/ai.rs:77-87 | a piece's candidates are exactly the expansions of its destinations |
| Search.FlattenMembership | src/ai.rs:74-87 | the flattened candidates are exactly the expansions of the listed pairs |
| Search.CandidatesRule | src/ai.rs:74-87 | a move is a candidate exactly when it expands a destination of a piece of the side to move |
| Search.CandidatesArePlayable | src/ai.rs:88-91 | every candidate meets the precondition of `move` or `promote` |
| Search.Candidates | src/ai.rs:74-87 | only playable moves are searched |
| Search.Play | src/ai.rs:88-91 | playing a candidate passes the turn |
| Search.NotMatedHasCandidates | src/ai.rs:67-68 | when the side to move is not mated there is a candidate, so the final `expect` holds |
| Search.SearchableChild | src/ai.rs:93-98 | the game after a candidate is well formed; when the search recurses, it is searchable one level shallower and not mated |
| Search.Scored | src/ai.rs:88-99 | the candidates, in order, each paired with its evaluation (this restates the body; the promise about the loop is `MinimaxIsOptimal`) |
| Search.Evaluate | src/ai.rs:93-99 | definition; stated by `EvaluateMove` and `SearchableChild` |
| Search.Pick | src/ai.rs:100-105 | returns an element of the scored list exactly when the list is non-empty |
| Search.PickStep | src/ai.rs:100-105 | one iteration replaces the best exactly when there is none yet or the new evaluation compares as `better` |
| Search.FirstBestExtends | src/ai.rs:100-105 | appending a candidate keeps or moves the first-best index as the replacement rule does |
| Search.PickIsFirstBest | src/ai.rs:100-105 | the pick is the first element that nothing compares `better` than, and that every earlier element is strictly worse than |
| Search.MinimaxValue | src/ai.rs:68-108 | the result is a candidate paired with its own evaluation |
| Search.MinimaxIsOptimal | src/ai.rs:68-108 | the result is the first candidate with the best evaluation for the side to move |
| Search.PlayMove | src/ai.rs:89-92 | the method applies `move` or `promote` exactly as `Play` does |
| Search.EvaluateMove | src/ai.rs:93-99 | the outcome, or the estimate at depth 0, or the recursive minimax value |
| Search.Consider | src/ai.rs:100-105 | one loop iteration turns the best of the first i candidates into the best of the first i + 1 |
| Search.Minimax | src/ai.rs:68-108 | the loop returns exactly the first-best candidate and its evaluation |
| Search.Choose | src/ai.rs:111-113 | the chosen move is the minimax move, and it is a candidate |

## Left out

- Rendering is not modelled. This covers the `render` and `square` methods, the `Display` of colours and outcomes, and the terminal UI, `main` and benchmarks. These are presentation or I/O.
- `Search.EstimateOf`: the material sums are unbounded integers. The source sums into `i8`. A side holds at most 103 points (every pawn promoted to a queen), so the `i8` sums cannot overflow and the difference is not observable.
- `cfg!(debug_assertions)`: the check filter is modelled as the debug build has it. A promotion is tried as a promotion to a queen (`MoveGen.AfterMove`). A release build calls `move` on the promotion instead; the pawn and the queen occupy the same square, and only occupancy matters for whether the opponent attacks the king.
- The two `debug_assert_eq!`s of `Board::move` (src/game/board.rs:76-82 and 99-105) are not preconditions of `Boards.Moved`. The model follows the release build: it moves whatever stands on the en passant and rook squares. The castling assertion can fail in reachable play, for example when a rook is captured on its corner and the right is kept. The other `debug_assert!`s are modelled as preconditions:
  - `!is_promotion` of `Game::move` (`Games.Moved`, `Games.Move`);
  - `is_promotion` and `PROMOTIONS.contains` of `Game::promote` (`Games.Promoted`);
  - the pawn of `Board::promote` (`Boards.Promoted`, `Boards.Promote`);
  - the bounds of `Position::new` (`Squares.New`).
- `Games.WellFormed` holds the conditions the source's `expect`s rely on:
  - the en passant square holds a pawn of the side that just moved;
  - each king exists.

  It also holds invariants of play that the source never checks. Each colour has exactly one king. No pawn stands on its last rank. The square a double-stepped pawn skipped is vacant. A colour that may castle has its king on file 4 of its back rank. These are assumed, not proved: only the starting game is shown to satisfy them (`Games.NewIsWellFormed`).
- Game-level positions are `int`. The `usize` `wrapping_sub` below file or rank 0 gives -1 instead of the wrapped value. Both are off the board and hold nothing.
- `src/game.rs` is written against a board with a different interface from `src/game/board.rs`: its board takes and yields game positions and references. The game-level lookup `Games.Get` converts the position to a packed square and returns nothing off the board. That board revision is not part of this model.
- Every member requiring `Search.Searchable` (`Search.SearchableChild`, `Evaluate`, `Scored`, `MinimaxValue`, `MinimaxIsOptimal`, `EvaluateMove`, `Consider`, `Minimax`, `Choose`) assumes that every game the search visits is well formed. The model does not prove that `move` and `promote` preserve well-formedness. With the source's bishop test this assumption can fail: a move that leaves the king attacked along a falling diagonal is listed, the king can then be captured, and the next `position_of(..).expect("king always exists")` (src/game.rs:74) panics. `Searchable` excludes such searches.
- Castling moves are listed without the check filter, as the source lists them. The model proves what a listed castling satisfies (`MoveRules.CastlingRule`) but not that the king is safe afterwards.
- AttacksBySquare: characterises `Attacks.Attacks`, which uses the corrected bishop test. The source's `attacks` (`Attacks.AttacksAsWritten`) can disagree on a falling diagonal (`Attacks.AsWrittenMissesCheck`). Every member built on `Attacks.Attacks` therefore describes the corrected engine:
  - `MoveGen.DoesNotCauseCheck`, `MoveGen.KingStepIsSafe`, the castling conditions, `MoveGen.Check`, `MoveGen.Mate` and `MoveGen.Status`;
  - `Search.Evaluate`, `Search.Minimax` and `Search.Choose`.
- MoverKeepsKingSafe: proved for the corrected attack test only. With the source's test, a listed move can leave the king attacked. For example, after 1.d4 c6 2.a3 Qa5 the source does not see the queen's check on e1, so a move such as 3.h3 passes the filter.
- KingStepKeepsKingSafe: proved for the corrected attack test only. With the source's test, the king's filter can accept a step onto a square attacked along a falling diagonal.
- Laziness is not modelled. `Game::moves` returns a lazy iterator; it is modelled as the list `MoveGen.LegalMoves` of all items, with the per-piece closure modelled by the method `MoveGen.PieceMoves`. The short-circuit of `all` in `mate` and of `any` in `attacks` is not modelled. Only the result matters, and the model computes the same boolean.

## Findings

| source | as written | input that shows it | evidently intended | confidence | as-written member | corrected member |
|---|---|---|---|---|---|---|
| src/game.rs:246-252 | `bishop_attacks` zips the ascending rank range with the ascending file range. On a falling diagonal it therefore tests the squares of the other diagonal of the rectangle, not the squares between the bishop and its target. | White bishop on d1 (rank 0, file 3), Black pawn on c2 (rank 1, file 2), target a4 (rank 3, file 0). The source reports a4 attacked through the pawn, because it tests b2 and c3 instead of c2 and b3. | The squares strictly between the two, stepping from the bishop towards the target, are vacant. | not executed | Attacks.AsWrittenSeesThroughBlocker | Attacks.BishopAttacks |
| src/game.rs:277-302 | `attacks` uses `bishop_attacks` for bishops and queens. It therefore misses an attack along a falling diagonal whenever the mirrored squares are occupied, and so do `check`, the move filter (src/game.rs:79-86) and the castling conditions built on it. | White king on e1, White pawns on b2 and d4, Black queen on a5, Black king on e8 (the squares that matter after 1.d4 c6 2.a3 Qa5). The queen attacks e1 across the vacant b4, c3 and d2. The source tests b2, c3 and d4, finds the pawns, and reports no attack, so White is not in check and moves that ignore the check are listed. | A bishop or queen attacks along its diagonal when the squares between it and the target are vacant. | not executed | Attacks.AsWrittenMissesCheck | Attacks.Attacks |
