/** The game state of src/game.rs: whose turn it is, the board, the pawn that has just
    advanced two squares (for en passant) and the castling rights, with the transitions
    `move` and `promote` that each return a new state. Positions are the rank/file pairs of
    `Positions`; a position off the board holds nothing. */
module Games {
  import opened Wrappers
  import opened Pieces
  import opened Positions
  import Squares
  import Boards
  import Castlings

  datatype Outcome = Win(winner: PieceColor) | Draw

  /** The piece types a pawn may be promoted to, in the order the search tries them. */
  const PROMOTIONS: seq<PieceType> := [Queen, Rook, Bishop, Knight]

  datatype Game = Game(
    turn: PieceColor,
    board: Boards.Board,
    justAdvancedTwo: Option<Position>,
    castling: Castlings.Castling)

  /** The piece at `p`, if any; nothing stands off the board. */
  function Get(g: Game, p: Position): Option<Piece>
  {
    if p.IsValid() then g.board[Squares.ToSquare(p)] else None
  }

  predicate IsVacant(g: Game, p: Position)
  {
    Get(g, p).None?
  }

  /** `Game::new`: White to move on the starting board, no en passant square, every
      castling right held. */
  function New(): (g: Game)
    ensures g.turn == White && g.justAdvancedTwo == None
  {
    Game(White, Boards.Initial(), None, Castlings.New())
  }

  /** The starting game holds every castling right and has the starting piece on every
      square. */
  lemma NewGame(p: Position)
    requires p.IsValid()
    ensures forall c: PieceColor :: New().castling.Get(c).CanCastleQueenside() && New().castling.Get(c).CanCastleKingside()
    ensures Get(New(), p) == Boards.StartingPiece(Squares.ToSquare(p))
  {
  }

  /** `Game::is_promotion`: a pawn moving onto its last rank. */
  predicate IsPromotion(g: Game, from: Position, to: Position)
  {
    Get(g, from).Some? && Get(g, from).value.kind == Pawn &&
    match Get(g, from).value.color
    case White => to.rank == 7
    case Black => to.rank == 0
  }

  /** The last rank of a pawn is the rank the opponent's pieces start on. */
  lemma PromotionIsOntoOpponentsBackRank(g: Game, from: Position, to: Position)
    ensures IsPromotion(g, from, to) <==>
      Get(g, from).Some? && Get(g, from).value.kind == Pawn &&
      to.rank == Get(g, from).value.color.Not().PieceStartingRank()
  {
  }

  /** What `Game::move` demands of its arguments: both squares on the board, a piece on
      `from`, and what `Board::move` demands of the packed squares. */
  predicate CanMove(g: Game, from: Position, to: Position)
  {
    from.IsValid() && to.IsValid() &&
    Boards.CanMove(g.board, Squares.ToSquare(from), Squares.ToSquare(to))
  }

  /** The castling rights after `piece` leaves `from`: leaving its colour's back rank from
      file 4 as a king, or from file 0 or 7 as a rook, revokes the matching rights. */
  function CastlingAfterMove(castling: Castlings.Castling, piece: Piece, from: Position): (r: Castlings.Castling)
    ensures r.Get(piece.color.Not()) == castling.Get(piece.color.Not())
    ensures forall c: PieceColor :: Castlings.NoNewRights(castling.Get(c), r.Get(c))
  {
    var info := castling.Get(piece.color);
    Castlings.UpdatesOnlyRevoke(info);
    if from.rank != piece.color.PieceStartingRank() then castling
    else if piece.kind == King && from.file == 4 then castling.With(piece.color, info.MovedKing())
    else if piece.kind == Rook && from.file == 0 then castling.With(piece.color, info.MovedQueensideRook())
    else if piece.kind == Rook && from.file == 7 then castling.With(piece.color, info.MovedKingsideRook())
    else castling
  }

  /** The state after `Game::move(from, to)`: the other side moves next, the board is
      `Board::move`'s, the en passant square is `to` exactly when a pawn advanced two
      ranks, and the castling rights lose what the moving piece revokes. */
  function Moved(g: Game, from: Position, to: Position): (r: Game)
    requires CanMove(g, from, to) && !IsPromotion(g, from, to)
    ensures r.turn == g.turn.Not() && r.turn != g.turn
    ensures r.board == Boards.Moved(g.board, Squares.ToSquare(from), Squares.ToSquare(to))
    ensures r.justAdvancedTwo.Some? <==>
      Get(g, from).value.kind == Pawn && Boards.AbsDiff(from.rank, to.rank) == 2
    ensures r.justAdvancedTwo.Some? ==> r.justAdvancedTwo.value == to
    ensures forall c: PieceColor :: Castlings.NoNewRights(g.castling.Get(c), r.castling.Get(c))
    ensures var piece := Get(g, from).value;
      r.castling.Get(piece.color.Not()) == g.castling.Get(piece.color.Not()) &&
      r.castling.Get(piece.color) ==
        if from.rank != piece.color.PieceStartingRank() then g.castling.Get(piece.color)
        else if piece.kind == King && from.file == 4 then Castlings.KingHasMoved
        else if piece.kind == Rook && from.file == 0 then g.castling.Get(piece.color).MovedQueensideRook()
        else if piece.kind == Rook && from.file == 7 then g.castling.Get(piece.color).MovedKingsideRook()
        else g.castling.Get(piece.color)
  {
    var piece := Get(g, from).value;
    Game(
      g.turn.Not(),
      Boards.Moved(g.board, Squares.ToSquare(from), Squares.ToSquare(to)),
      if piece.kind == Pawn && Boards.AbsDiff(from.rank, to.rank) == 2 then Some(to) else None,
      CastlingAfterMove(g.castling, piece, from))
  }

  /** `Game::move`: copies the board through `Board::move` and updates a mutable copy of the
      castling rights. */
  method Move(g: Game, from: Position, to: Position) returns (r: Game)
    requires CanMove(g, from, to) && !IsPromotion(g, from, to)
    ensures r == Moved(g, from, to)
  {
    var piece := Get(g, from).value;
    var board := Boards.Move(g.board, Squares.ToSquare(from), Squares.ToSquare(to));
    var justAdvancedTwo := if piece.kind == Pawn && Boards.AbsDiff(from.rank, to.rank) == 2 then Some(to) else None;
    var castling := new Castlings.CastlingRights(g.castling);
    if from.rank == piece.color.PieceStartingRank() {
      if piece.kind == King && from.file == 4 {
        castling.MoveKing(piece.color);
      } else if piece.kind == Rook && from.file == 0 {
        castling.MoveQueensideRook(piece.color);
      } else if piece.kind == Rook && from.file == 7 {
        castling.MoveKingsideRook(piece.color);
      }
    }
    r := Game(g.turn.Not(), board, justAdvancedTwo, castling.Value());
  }

  /** The state after `Game::promote(from, to, kind)`: the other side moves next, the pawn
      becomes a `kind` on `to`, there is no en passant square and the castling rights are
      unchanged. */
  function Promoted(g: Game, from: Position, to: Position, kind: PieceType): (r: Game)
    requires from.IsValid() && to.IsValid() && IsPromotion(g, from, to) && kind in PROMOTIONS
    ensures r.turn == g.turn.Not()
    ensures r.justAdvancedTwo == None && r.castling == g.castling
    ensures Get(r, to) == Some(Piece(Get(g, from).value.color, kind)) && kind != Pawn && kind != King
    ensures from != to ==> IsVacant(r, from)
    ensures forall p: Position :: p != from && p != to ==> Get(r, p) == Get(g, p)
  {
    Game(g.turn.Not(), Boards.Promoted(g.board, Squares.ToSquare(from), Squares.ToSquare(to), kind), None, g.castling)
  }

  /** Where the king of `color` stands (`position_of(king).expect("king always exists")`):
      the lowest-indexed square holding it. */
  function KingPosition(g: Game, color: PieceColor): (r: Position)
    requires Boards.PositionOf(g.board, Piece(color, King)).Some?
    ensures r.IsValid() && Get(g, r) == Some(Piece(color, King))
  {
    Squares.ToPosition(Boards.PositionOf(g.board, Piece(color, King)).value)
  }

  /** The conditions under which the engine's queries are defined, as the source's
      `expect`s state them: each colour has exactly one king; no pawn stands on its last rank (its
      next step would leave the board); the en passant square, when present, holds a pawn
      of the side that just moved and the square it skipped is vacant; and a colour that
      may still castle has its king on file 4 of its back rank. */
  ghost predicate WellFormed(g: Game)
  {
    (forall c: PieceColor :: Boards.PositionOf(g.board, Piece(c, King)).Some?) &&
    (forall c: PieceColor, s: Squares.Square :: g.board[s] == Some(Piece(c, King)) ==>
      Boards.PositionOf(g.board, Piece(c, King)) == Some(s)) &&
    (forall s: Squares.Square :: g.board[s].Some? && g.board[s].value.kind == Pawn ==>
      Squares.Rank(s) != g.board[s].value.color.Not().PieceStartingRank()) &&
    (g.justAdvancedTwo.Some? ==>
      var p := g.justAdvancedTwo.value;
      p.IsValid() && Get(g, p) == Some(Piece(g.turn.Not(), Pawn)) && IsVacant(g, p.Pawn(g.turn))) &&
    (forall c: PieceColor :: g.castling.Get(c).KingHasNotMoved? ==>
      Get(g, Position(c.PieceStartingRank(), 4)) == Some(Piece(c, King)))
  }

  /** A pawn of a well-formed game can always step forward without leaving the board. */
  lemma PawnForwardOnBoard(g: Game, from: Position)
    requires WellFormed(g) && Get(g, from).Some? && Get(g, from).value.kind == Pawn
    ensures from.Pawn(Get(g, from).value.color).IsValid()
  {
    var s := Squares.ToSquare(from);
    assert g.board[s] == Get(g, from);
  }

  /** The starting position satisfies every condition the engine relies on. */
  lemma NewIsWellFormed()
    ensures WellFormed(New())
  {
    NewKings();
    NewPawns();
  }

  lemma NewKings()
    ensures forall c: PieceColor :: Boards.PositionOf(New().board, Piece(c, King)).Some?
    ensures forall c: PieceColor, s: Squares.Square :: New().board[s] == Some(Piece(c, King)) ==>
      Boards.PositionOf(New().board, Piece(c, King)) == Some(s)
    ensures forall c: PieceColor :: Get(New(), Position(c.PieceStartingRank(), 4)) == Some(Piece(c, King))
  {
    forall c: PieceColor
      ensures Get(New(), Position(c.PieceStartingRank(), 4)) == Some(Piece(c, King))
      ensures Boards.PositionOf(New().board, Piece(c, King)).Some?
    {
      NewKingHome(c);
    }
    forall c: PieceColor, s: Squares.Square | New().board[s] == Some(Piece(c, King))
      ensures Boards.PositionOf(New().board, Piece(c, King)) == Some(s)
    {
      NewKingUnique(c, s);
    }
  }

  lemma NewKingHome(c: PieceColor)
    ensures Get(New(), Position(c.PieceStartingRank(), 4)) == Some(Piece(c, King))
    ensures Boards.PositionOf(New().board, Piece(c, King)).Some?
  {
    var home := Squares.ToSquare(Position(c.PieceStartingRank(), 4));
    Boards.InitialKings(c, home);
    assert New().board[home] == Some(Piece(c, King));
  }

  lemma NewKingUnique(c: PieceColor, s: Squares.Square)
    requires New().board[s] == Some(Piece(c, King))
    ensures Boards.PositionOf(New().board, Piece(c, King)) == Some(s)
  {
    var b := New().board;
    var r := Boards.PositionOf(b, Piece(c, King));
    assert r.Some?;
    Boards.InitialKings(c, r.value);
    Boards.InitialKings(c, s);
  }

  lemma NewPawns()
    ensures forall s: Squares.Square :: New().board[s].Some? && New().board[s].value.kind == Pawn ==>
      Squares.Rank(s) != New().board[s].value.color.Not().PieceStartingRank()
  {
    var b := New().board;
    forall s: Squares.Square | b[s].Some? && b[s].value.kind == Pawn
      ensures Squares.Rank(s) != b[s].value.color.Not().PieceStartingRank()
    {
      Boards.StartingPieceByRank(s);
    }
  }
}
