/** The point of the filter in `Game::moves` (src/game.rs): no listed move leaves the
    mover's own king attacked. A move of any other piece leaves the king where it was;
    a king's step carries the king to its destination; in both cases the filter has
    already checked that square. */
module KingSafety {
  import opened Wrappers
  import opened Pieces
  import opened Positions
  import Squares
  import Boards
  import opened Games
  import opened Attacks
  import opened MoveGen
  import opened MoveRules

  type Square = Squares.Square

  // ---------------------------------------------------------------------------------------
  // Where the king stands after a move, on the packed board

  /** A piece that stands on `s` and nowhere else is found on `s` by `position_of`. */
  lemma SoleHolder(b: Boards.Board, piece: Piece, s: Square)
    requires b[s] == Some(piece)
    requires forall u: Square :: b[u] == Some(piece) ==> u == s
    ensures Boards.PositionOf(b, piece) == Some(s)
  {
  }

  /** `Board::move` of a piece other than a king leaves a king that stood alone on `k`
      alone on `k`, unless the move lands on `k` or takes en passant on `k`. */
  lemma MoveKeepsKing(b: Boards.Board, from: Square, to: Square, king: Piece, k: Square)
    requires Boards.CanMove(b, from, to) && b[from].value.kind != King && king.kind == King
    requires b[k] == Some(king) && forall u: Square :: b[u] == Some(king) ==> u == k
    requires k != to
    requires Boards.IsEnPassant(b, from, to) ==> Boards.EnPassantSquare(from, to) != k
    ensures Boards.PositionOf(Boards.Moved(b, from, to), king) == Some(k)
  {
    var r := Boards.Moved(b, from, to);
    assert !Boards.IsCastling(b, from, to);
    forall u: Square | r[u] == Some(king)
      ensures u == k
    {
      if u != from && u != to && !(Boards.IsEnPassant(b, from, to) && u == Boards.EnPassantSquare(from, to)) {
        assert r[u] == b[u];
      }
    }
    SoleHolder(r, king, k);
  }

  /** `Board::promote` leaves a king that stood alone on `k` alone on `k`, unless the
      promotion lands on `k`. */
  lemma PromoteKeepsKing(b: Boards.Board, from: Square, to: Square, kind: PieceType, king: Piece, k: Square)
    requires b[from].Some? && b[from].value.kind == Pawn && kind != King && king.kind == King
    requires b[k] == Some(king) && forall u: Square :: b[u] == Some(king) ==> u == k
    requires k != to
    ensures Boards.PositionOf(Boards.Promoted(b, from, to, kind), king) == Some(k)
  {
    var r := Boards.Promoted(b, from, to, kind);
    forall u: Square | r[u] == Some(king)
      ensures u == k
    {
      if u != from && u != to {
        assert r[u] == b[u];
      }
    }
    SoleHolder(r, king, k);
  }

  /** A king's step of at most one file (not a castling) carries a king that stood alone
      on `from` to `to`, where it again stands alone. */
  lemma StepMovesKing(b: Boards.Board, from: Square, to: Square, king: Piece)
    requires b[from] == Some(king) && king.kind == King && from != to
    requires Boards.AbsDiff(Squares.File(from), Squares.File(to)) <= 1
    requires forall u: Square :: b[u] == Some(king) ==> u == from
    ensures Boards.CanMove(b, from, to)
    ensures Boards.PositionOf(Boards.Moved(b, from, to), king) == Some(to)
  {
    var r := Boards.Moved(b, from, to);
    assert !Boards.IsCastling(b, from, to) && !Boards.IsEnPassant(b, from, to);
    SoleHolder(r, king, to);
  }

  // ---------------------------------------------------------------------------------------
  // The game-level guarantee

  /** In a well-formed game the king of `color` stands on no square but its own. */
  lemma KingSquareIsUnique(g: Game, color: PieceColor)
    requires WellFormed(g)
    ensures g.board[Squares.ToSquare(KingPosition(g, color))] == Some(Piece(color, King))
    ensures forall u: Square :: g.board[u] == Some(Piece(color, King)) ==> u == Squares.ToSquare(KingPosition(g, color))
  {
    var k := Boards.PositionOf(g.board, Piece(color, King)).value;
    assert Squares.ToSquare(KingPosition(g, color)) == k;
    forall u: Square | g.board[u] == Some(Piece(color, King))
      ensures u == k
    {
      assert Boards.PositionOf(g.board, Piece(color, King)) == Some(u);
    }
  }

  /** A pawn's listed destination is never held by its own side, and a capture onto an
      empty square takes the opponent's piece beside the pawn (en passant). */
  lemma PawnTargets(g: Game, from: Position, t: Position)
    requires WellFormed(g) && from.IsValid() && Get(g, from).Some? && Get(g, from).value.kind == Pawn
    requires PawnRule(g, Get(g, from).value.color, from, t)
    ensures !HoldsOwn(g, t, Get(g, from).value.color)
    ensures t.file != from.file && IsVacant(g, t) ==> IsEnemy(g, Position(from.rank, t.file), Get(g, from).value.color)
  {
    var color := Get(g, from).value.color;
    var beside := Position(from.rank, t.file);
    if !IsEnemy(g, t, color) && t != from.Pawn(color) && t != from.Pawn(color).Pawn(color) {
      assert EnPassantBeside(g, beside, color);
      assert g.turn == color;
      assert t == beside.Pawn(g.turn);
    }
  }

  /** After a listed move of a piece other than the king, the mover's king still stands
      on its square, alone, and is not in check. */
  lemma MoverKeepsKingSafe(g: Game, from: Position, t: Position)
    requires WellFormed(g) && IsMover(g, from) && t in Destinations(g, from)
    ensures t.IsValid()
    ensures var color := Get(g, from).value.color;
      Boards.PositionOf(AfterMove(g, from, t).board, Piece(color, King)) ==
        Some(Squares.ToSquare(KingPosition(g, color))) &&
      KingPosition(AfterMove(g, from, t), color) == KingPosition(g, color) &&
      !Check(AfterMove(g, from, t), color)
  {
    var piece := Get(g, from).value;
    var color := piece.color;
    var king := KingPosition(g, color);
    var k := Squares.ToSquare(king);
    MoverDestinations(g, from, t);
    KingSquareIsUnique(g, color);
    var fs, ts := Squares.ToSquare(from), Squares.ToSquare(t);
    assert g.board[fs] == Get(g, from);
    assert g.board[ts] == Get(g, t);
    if piece.kind == Pawn {
      PawnTargets(g, from, t);
    }
    assert k != ts;
    var after := AfterMove(g, from, t);
    if IsPromotion(g, from, t) {
      PromoteKeepsKing(g.board, fs, ts, Queen, Piece(color, King), k);
    } else {
      if Boards.IsEnPassant(g.board, fs, ts) {
        Squares.ToSquareCoordinates(from);
        Squares.ToSquareCoordinates(t);
        Squares.ToSquareCoordinates(Position(from.rank, t.file));
        assert Boards.EnPassantSquare(fs, ts) == Squares.ToSquare(Position(from.rank, t.file));
      }
      MoveKeepsKing(g.board, fs, ts, Piece(color, King), k);
    }
    Squares.RepresentationsAgree(king);
  }

  /** After a listed step of the king (any listed move of at most one file; castlings move
      two), the king stands alone on its destination and is not in check. */
  lemma KingStepKeepsKingSafe(g: Game, from: Position, t: Position)
    requires WellFormed(g) && from.IsValid() && Get(g, from).Some? && Get(g, from).value.kind == King
    requires t in Destinations(g, from) && AbsDiff(from.file, t.file) <= 1
    ensures t.IsValid() && Games.CanMove(g, from, t) && !IsPromotion(g, from, t)
    ensures var color := Get(g, from).value.color;
      Boards.PositionOf(Games.Moved(g, from, t).board, Piece(color, King)) == Some(Squares.ToSquare(t)) &&
      KingPosition(Games.Moved(g, from, t), color) == t &&
      !Check(Games.Moved(g, from, t), color)
  {
    var color := Get(g, from).value.color;
    KingDestinations(g, from, t);
    CastlingCases(g, from, color, t);
    assert KingStepIsSafe(g, from, t);
    KingIsUnique(g, color, from);
    KingSquareIsUnique(g, color);
    var fs, ts := Squares.ToSquare(from), Squares.ToSquare(t);
    Squares.ToSquareCoordinates(from);
    Squares.ToSquareCoordinates(t);
    assert g.board[fs] == Some(Piece(color, King));
    assert fs != ts;
    StepMovesKing(g.board, fs, ts, Piece(color, King));
    Squares.RepresentationsAgree(t);
  }

  /** Every listed destination is on the board and satisfies what `Game::move` (and
      `Board::move`, for a castling: both rook squares exist) demands. */
  lemma DestinationsArePlayable(g: Game, from: Position, t: Position)
    requires WellFormed(g) && from.IsValid() && Get(g, from).Some? && t in Destinations(g, from)
    ensures t.IsValid() && Games.CanMove(g, from, t)
  {
    var piece := Get(g, from).value;
    var fs := Squares.ToSquare(from);
    assert g.board[fs] == Get(g, from);
    if piece.kind != King {
      MoverDestinations(g, from, t);
    } else {
      KingDestinations(g, from, t);
      if t in MoveGen.Castlings(g, from, piece.color) {
        CastlingIsPlayable(g, from, t);
      } else {
        KingStepIsPlayable(g, from, t);
      }
    }
  }

  /** A castling destination is on the board and both rook squares exist. */
  lemma CastlingIsPlayable(g: Game, from: Position, t: Position)
    requires WellFormed(g) && from.IsValid() && Get(g, from).Some? && Get(g, from).value.kind == King
    requires t in MoveGen.Castlings(g, from, Get(g, from).value.color)
    ensures t.IsValid() && Games.CanMove(g, from, t)
  {
    CastlingRule(g, from, t);
    var fs := Squares.ToSquare(from);
    assert g.board[fs] == Get(g, from);
    Squares.ToSquareCoordinates(from);
    Squares.ToSquareCoordinates(t);
    RookSquaresExist(fs, Squares.ToSquare(t));
  }

  /** A king on file 4 castling to file 2 or 6 of its rank has both rook squares. */
  lemma RookSquaresExist(from: Square, to: Square)
    requires Squares.File(from) == 4 && Squares.Rank(to) == Squares.Rank(from)
    requires Squares.File(to) == 2 || Squares.File(to) == 6
    ensures Boards.RookSquares(from, to).0.Some? && Boards.RookSquares(from, to).1.Some?
  {
    Squares.LiftedSteps(to, White);
  }

  /** A king step is on the board and is not a castling. */
  lemma KingStepIsPlayable(g: Game, from: Position, t: Position)
    requires WellFormed(g) && from.IsValid() && Get(g, from).Some? && Get(g, from).value.kind == King
    requires t.IsValid() && t != from && PieceAttacks(g, Get(g, from).value.color, from, King, t)
    ensures Games.CanMove(g, from, t)
  {
    var fs := Squares.ToSquare(from);
    assert g.board[fs] == Get(g, from);
    Squares.ToSquareCoordinates(from);
    Squares.ToSquareCoordinates(t);
  }
}
