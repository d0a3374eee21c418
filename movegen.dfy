/** Move generation and the outcome rules of src/game.rs: `Game::moves` with its
    check-safety filter, `check`, `mate` and `status`. Each generator is a method that
    pushes onto a vector as the source does, proved equal to a function that states the
    same list declaratively; the properties of the list are lemmas about the functions. */
module MoveGen {
  import opened Wrappers
  import opened Pieces
  import opened Positions
  import opened Directions
  import Squares
  import Boards
  import opened Games
  import opened Attacks

  // ---------------------------------------------------------------------------------------
  // The check-safety filter

  /** What a candidate move of the piece on `from` to `to` leads to, as the filter simulates
      it: a promotion is tried as a promotion to a queen, anything else as `Game::move`. */
  function AfterMove(g: Game, from: Position, to: Position): Game
    requires from.IsValid() && to.IsValid() && Get(g, from).Some? && Get(g, from).value.kind != King
  {
    if IsPromotion(g, from, to) then Promoted(g, from, to, Queen) else Moved(g, from, to)
  }

  /** `does_not_cause_check` for a piece other than the king: after the move, the opponent
      does not attack the square the mover's king stood on before it. */
  predicate DoesNotCauseCheck(g: Game, from: Position, to: Position, king: Position)
    requires from.IsValid() && to.IsValid() && Get(g, from).Some? && Get(g, from).value.kind != King
  {
    !Attacks.Attacks(AfterMove(g, from, to), Get(g, from).value.color.Not(), king)
  }

  /** The king's own `does_not_cause_check`: after the king steps to `to`, the opponent
      does not attack `to`. */
  predicate KingStepIsSafe(g: Game, from: Position, to: Position)
    requires from.IsValid() && to.IsValid() && Get(g, from).Some? && Get(g, from).value.kind == King
    requires Attacks.AbsDiff(from.file, to.file) <= 1
  {
    Squares.ToSquareCoordinates(from);
    Squares.ToSquareCoordinates(to);
    !Attacks.Attacks(Moved(g, from, to), Get(g, from).value.color.Not(), to)
  }

  /** The filter as the closure `does_not_cause_check` of a piece other than the king:
      the destination is on the board and the move passes `DoesNotCauseCheck`. */
  function Filter(g: Game, from: Position, king: Position): Position -> bool
    requires IsMover(g, from)
  {
    (to: Position) => to.IsValid() && DoesNotCauseCheck(g, from, to, king)
  }

  /** The king's closure: the step is one `Game::move` accepts and passes
      `KingStepIsSafe`. */
  function KingFilter(g: Game, from: Position): Position -> bool
    requires from.IsValid() && Get(g, from).Some? && Get(g, from).value.kind == King
  {
    (to: Position) => to.IsValid() && Attacks.AbsDiff(from.file, to.file) <= 1 && KingStepIsSafe(g, from, to)
  }

  /** The piece on `from` is on the board and is not a king: the pieces whose moves are
      filtered by `DoesNotCauseCheck`. */
  predicate IsMover(g: Game, from: Position)
  {
    from.IsValid() && Get(g, from).Some? && Get(g, from).value.kind != King
  }

  // ---------------------------------------------------------------------------------------
  // Sliding pieces

  /** How many more steps in direction `dir` stay on the board from `p`. */
  function Remaining(dir: Direction, p: Position): nat
  {
    if dir.DRank() == 1 then (if p.rank < 8 then 8 - p.rank else 0)
    else if dir.DRank() == -1 then (if p.rank >= 0 then p.rank + 1 else 0)
    else if dir.DFile() == 1 then (if p.file < 8 then 8 - p.file else 0)
    else (if p.file >= 0 then p.file + 1 else 0)
  }

  /** What `saturate` pushes for a piece of `color`, from `to` on in direction `dir`: each
      vacant square the filter accepts, then the first occupied square if it holds an
      opponent's piece and the filter accepts it. */
  function Ray(g: Game, color: PieceColor, safe: Position -> bool, dir: Direction, to: Position): seq<Position>
    decreases Remaining(dir, to)
  {
    if !to.IsValid() then []
    else if Get(g, to).Some? then
      if Get(g, to).value.color != color && safe(to) then [to] else []
    else
      (if safe(to) then [to] else []) + Ray(g, color, safe, dir, dir.Step(to))
  }

  /** `saturate(f)`: walks from `f(from)` while on the board, pushing onto `moves`. */
  method Saturate(g: Game, color: PieceColor, safe: Position -> bool, from: Position, dir: Direction,
                  moves: seq<Position>)
    returns (r: seq<Position>)
    ensures r == moves + Slide(g, color, safe, from, dir)
  {
    r := moves;
    var to := dir.Step(from);
    while to.IsValid()
      invariant r + Ray(g, color, safe, dir, to) == moves + Slide(g, color, safe, from, dir)
      decreases Remaining(dir, to)
    {
      var other := Get(g, to);
      if other.Some? {
        RayStops(g, color, safe, dir, to);
        ghost var before := r;
        if other.value.color != color && safe(to) {
          r := r + [to];
        }
        assert r == before + Ray(g, color, safe, dir, to);
        assert r == moves + Slide(g, color, safe, from, dir);
        break;
      }
      ghost var before := r;
      ghost var pushed := if safe(to) then [to] else [];
      RayContinues(g, color, safe, dir, to);
      if safe(to) {
        r := r + [to];
      }
      assert r == before + pushed;
      Associative(before, pushed, Ray(g, color, safe, dir, dir.Step(to)));
      RemainingDecreases(dir, to);
      to := dir.Step(to);
    }
    if !to.IsValid() {
      RayEnds(g, color, safe, dir, to);
      assert r + [] == r;
    }
  }

  lemma RayEnds(g: Game, color: PieceColor, safe: Position -> bool, dir: Direction, to: Position)
    requires !to.IsValid()
    ensures Ray(g, color, safe, dir, to) == []
  {
  }

  lemma RayStops(g: Game, color: PieceColor, safe: Position -> bool, dir: Direction, to: Position)
    requires to.IsValid() && Get(g, to).Some?
    ensures Ray(g, color, safe, dir, to) == if Get(g, to).value.color != color && safe(to) then [to] else []
  {
  }

  lemma RayContinues(g: Game, color: PieceColor, safe: Position -> bool, dir: Direction, to: Position)
    requires to.IsValid() && Get(g, to).None?
    ensures Ray(g, color, safe, dir, to) == (if safe(to) then [to] else []) + Ray(g, color, safe, dir, dir.Step(to))
  {
  }

  /** A step that stays on the board brings the end of the ray closer. */
  lemma RemainingDecreases(dir: Direction, p: Position)
    requires p.IsValid()
    ensures Remaining(dir, dir.Step(p)) < Remaining(dir, p)
  {
  }

  /** What `saturate` pushes for the piece on `from` in direction `dir`. */
  function Slide(g: Game, color: PieceColor, safe: Position -> bool, from: Position, dir: Direction): seq<Position>
  {
    Ray(g, color, safe, dir, dir.Step(from))
  }

  /** The rook arm's four `saturate` calls: up, left, down, right. */
  function RookSlides(g: Game, color: PieceColor, safe: Position -> bool, from: Position): seq<Position>
  {
    Slide(g, color, safe, from, North) + Slide(g, color, safe, from, West) +
    Slide(g, color, safe, from, South) + Slide(g, color, safe, from, East)
  }

  /** The bishop arm's four `saturate` calls: up-left, up-right, down-left, down-right. */
  function BishopSlides(g: Game, color: PieceColor, safe: Position -> bool, from: Position): seq<Position>
  {
    Slide(g, color, safe, from, NorthWest) + Slide(g, color, safe, from, NorthEast) +
    Slide(g, color, safe, from, SouthWest) + Slide(g, color, safe, from, SouthEast)
  }

  // ---------------------------------------------------------------------------------------
  // Single-step pieces

  /** `try_insert` for a piece of `color`: `to` is on the board, not held by a piece of
      that colour, and the filter accepts it. */
  function TryInsert(g: Game, color: PieceColor, safe: Position -> bool, to: Position): seq<Position>
  {
    if to.IsValid() && (IsVacant(g, to) || Get(g, to).value.color != color) && safe(to) then [to] else []
  }

  /** The knight arm's eight `try_insert` calls, in order. */
  function KnightJumps(g: Game, color: PieceColor, safe: Position -> bool, from: Position): seq<Position>
  {
    TryInsert(g, color, safe, from.Up().Up().Left()) + TryInsert(g, color, safe, from.Up().Up().Right()) +
    TryInsert(g, color, safe, from.Left().Left().Up()) + TryInsert(g, color, safe, from.Left().Left().Down()) +
    TryInsert(g, color, safe, from.Down().Down().Left()) + TryInsert(g, color, safe, from.Down().Down().Right()) +
    TryInsert(g, color, safe, from.Right().Right().Up()) + TryInsert(g, color, safe, from.Right().Right().Down())
  }

  /** The king's eight `try_insert` calls, in order. */
  function KingSteps(g: Game, color: PieceColor, safe: Position -> bool, from: Position): seq<Position>
  {
    TryInsert(g, color, safe, from.Up()) + TryInsert(g, color, safe, from.Up().Right()) +
    TryInsert(g, color, safe, from.Right()) + TryInsert(g, color, safe, from.Down().Right()) +
    TryInsert(g, color, safe, from.Down()) + TryInsert(g, color, safe, from.Down().Left()) +
    TryInsert(g, color, safe, from.Left()) + TryInsert(g, color, safe, from.Up().Left())
  }

  /** Queenside castling: the right is held, the three squares towards the rook are
      vacant, and the king's square and the two it crosses are not attacked. */
  predicate QueensideCastlingAllowed(g: Game, from: Position, color: PieceColor)
  {
    g.castling.Get(color).CanCastleQueenside() &&
    IsVacant(g, from.Left()) && IsVacant(g, from.Left().Left()) && IsVacant(g, from.Left().Left().Left()) &&
    !Attacks.Attacks(g, color.Not(), from) && !Attacks.Attacks(g, color.Not(), from.Left()) &&
    !Attacks.Attacks(g, color.Not(), from.Left().Left())
  }

  /** Kingside castling: the right is held, the two squares towards the rook are vacant,
      and the king's square and the two it crosses are not attacked. */
  predicate KingsideCastlingAllowed(g: Game, from: Position, color: PieceColor)
  {
    g.castling.Get(color).CanCastleKingside() &&
    IsVacant(g, from.Right()) && IsVacant(g, from.Right().Right()) &&
    !Attacks.Attacks(g, color.Not(), from) && !Attacks.Attacks(g, color.Not(), from.Right()) &&
    !Attacks.Attacks(g, color.Not(), from.Right().Right())
  }

  /** The castlings the king arm pushes after its steps: queenside, then kingside. */
  function Castlings(g: Game, from: Position, color: PieceColor): seq<Position>
  {
    (if QueensideCastlingAllowed(g, from, color) then [from.Left().Left()] else []) +
    (if KingsideCastlingAllowed(g, from, color) then [from.Right().Right()] else [])
  }

  // ---------------------------------------------------------------------------------------
  // Pawns

  /** A piece of the opponent of `color` stands on `p`. */
  predicate IsEnemy(g: Game, p: Position, color: PieceColor)
  {
    Get(g, p).Some? && Get(g, p).value.color == color.Not()
  }

  /** The en passant test: the pawn that just advanced two squares stands on `beside`, and
      it belongs to the opponent of `color`. (The source `expect`s a piece on that square;
      `WellFormed` guarantees one.) */
  predicate EnPassantBeside(g: Game, beside: Position, color: PieceColor)
  {
    g.justAdvancedTwo == Some(beside) && IsEnemy(g, beside, color)
  }

  /** A pawn's single push: the square ahead, when vacant and accepted by the filter. */
  function PawnPush(g: Game, safe: Position -> bool, forward: Position): seq<Position>
  {
    if IsVacant(g, forward) && safe(forward) then [forward] else []
  }

  /** A pawn's double push: from its starting rank, two squares ahead when both are vacant
      and the filter accepts the second. */
  function PawnDoublePush(g: Game, color: PieceColor, safe: Position -> bool, from: Position): seq<Position>
  {
    var forward := from.Pawn(color);
    var forwardTwo := forward.Pawn(color);
    if from.rank == color.PawnStartingRank() && IsVacant(g, forward) && IsVacant(g, forwardTwo) && safe(forwardTwo)
    then [forwardTwo] else []
  }

  /** A pawn's capture onto `target`, diagonally ahead: an opponent's piece stands there, or
      the pawn that just advanced two squares stands on `beside`; and the filter accepts
      it. */
  function PawnCapture(g: Game, color: PieceColor, safe: Position -> bool, target: Position, beside: Position): seq<Position>
  {
    if (IsEnemy(g, target, color) || EnPassantBeside(g, beside, color)) && safe(target) then [target] else []
  }

  /** The moves of a pawn of `color` on `from`, in the order `Game::moves` pushes them: the
      single push, the double push, the capture to the left, the capture to the right. */
  function PawnMoves(g: Game, color: PieceColor, safe: Position -> bool, from: Position): seq<Position>
  {
    var forward := from.Pawn(color);
    PawnPush(g, safe, forward) + PawnDoublePush(g, color, safe, from) +
    PawnCapture(g, color, safe, forward.Left(), from.Left()) + PawnCapture(g, color, safe, forward.Right(), from.Right())
  }

  // ---------------------------------------------------------------------------------------
  // All moves

  /** The destinations `Game::moves` lists for the piece on `from`, in the order it pushes
      them; the king of the piece's colour is the first found by `position_of`. */
  function Destinations(g: Game, from: Position): seq<Position>
    requires WellFormed(g) && from.IsValid() && Get(g, from).Some?
  {
    var piece := Get(g, from).value;
    if piece.kind == King then KingSteps(g, piece.color, KingFilter(g, from), from) + Castlings(g, from, piece.color)
    else Arm(g, piece, Filter(g, from, KingPosition(g, piece.color)), from)
  }

  /** The arm of the `match` in `Game::moves` for a `piece` other than a king on `from`,
      with the filter `safe`. */
  function Arm(g: Game, piece: Piece, safe: Position -> bool, from: Position): seq<Position>
  {
    match piece.kind
    case Pawn => PawnMoves(g, piece.color, safe, from)
    case Knight => KnightJumps(g, piece.color, safe, from)
    case Bishop => BishopSlides(g, piece.color, safe, from)
    case Rook => RookSlides(g, piece.color, safe, from)
    case Queen => RookSlides(g, piece.color, safe, from) + BishopSlides(g, piece.color, safe, from)
    case King => []
  }

  /** A `try_insert` call: pushes `to` when it is on the board, not held by a piece of
      `color`, and accepted by the filter. */
  method Insert(g: Game, color: PieceColor, safe: Position -> bool, to: Position, moves: seq<Position>)
    returns (r: seq<Position>)
    ensures r == moves + TryInsert(g, color, safe, to)
  {
    r := moves;
    if to.IsValid() && (Get(g, to).None? || Get(g, to).value.color != color) && safe(to) {
      r := r + [to];
    }
  }

  /** The closure `Game::moves` maps over the pieces: the destinations of the piece on
      `from`, pushed by the arm of the `match` for its kind. */
  method PieceMoves(g: Game, from: Position) returns (moves: seq<Position>)
    requires WellFormed(g) && from.IsValid() && Get(g, from).Some?
    ensures moves == Destinations(g, from)
  {
    var piece := Get(g, from).value;
    var color := piece.color;
    var king := KingPosition(g, color);
    if piece.kind == King {
      moves := KingMoves(g, color, KingFilter(g, from), from);
      return;
    }
    moves := ArmMoves(g, piece, Filter(g, from, king), from);
  }

  /** The `match` of `Game::moves` for a piece other than a king. */
  method ArmMoves(g: Game, piece: Piece, safe: Position -> bool, from: Position) returns (moves: seq<Position>)
    ensures moves == Arm(g, piece, safe, from)
  {
    match piece.kind {
      case Pawn =>
        moves := PawnPushes(g, piece.color, safe, from);
      case Knight =>
        moves := KnightMoves(g, piece.color, safe, from);
      case Bishop =>
        moves := SaturateBishop(g, piece.color, safe, from, []);
      case Rook =>
        moves := SaturateRook(g, piece.color, safe, from, []);
      case Queen =>
        moves := SaturateRook(g, piece.color, safe, from, []);
        assert moves == RookSlides(g, piece.color, safe, from);
        moves := SaturateBishop(g, piece.color, safe, from, moves);
      case King =>
        moves := [];
    }
  }

  /** The pawn arm: the forward push, the double push, then the two captures. */
  method PawnPushes(g: Game, color: PieceColor, safe: Position -> bool, from: Position) returns (moves: seq<Position>)
    ensures moves == PawnMoves(g, color, safe, from)
  {
    moves := [];
    var forward := from.Pawn(color);
    if IsVacant(g, forward) && safe(forward) {
      moves := moves + [forward];
    }
    assert moves == PawnPush(g, safe, forward);
    var forwardTwo := forward.Pawn(color);
    if from.rank == color.PawnStartingRank() && IsVacant(g, forward) && IsVacant(g, forwardTwo) &&
      safe(forwardTwo)
    {
      moves := moves + [forwardTwo];
    }
    assert moves == PawnPush(g, safe, forward) + PawnDoublePush(g, color, safe, from);
    var left := forward.Left();
    ghost var before := moves;
    if (IsEnemy(g, left, color) || EnPassantBeside(g, from.Left(), color)) && safe(left) {
      moves := moves + [left];
    }
    assert moves == before + PawnCapture(g, color, safe, left, from.Left());
    var right := forward.Right();
    before := moves;
    if (IsEnemy(g, right, color) || EnPassantBeside(g, from.Right(), color)) && safe(right) {
      moves := moves + [right];
    }
    assert moves == before + PawnCapture(g, color, safe, right, from.Right());
  }

  /** The knight arm: eight `try_insert` calls. */
  method KnightMoves(g: Game, color: PieceColor, safe: Position -> bool, from: Position) returns (moves: seq<Position>)
    ensures moves == KnightJumps(g, color, safe, from)
  {
    moves := [];
    moves := Insert(g, color, safe, from.Up().Up().Left(), moves);
    assert moves == TryInsert(g, color, safe, from.Up().Up().Left());
    moves := Insert(g, color, safe, from.Up().Up().Right(), moves);
    moves := Insert(g, color, safe, from.Left().Left().Up(), moves);
    moves := Insert(g, color, safe, from.Left().Left().Down(), moves);
    moves := Insert(g, color, safe, from.Down().Down().Left(), moves);
    moves := Insert(g, color, safe, from.Down().Down().Right(), moves);
    moves := Insert(g, color, safe, from.Right().Right().Up(), moves);
    moves := Insert(g, color, safe, from.Right().Right().Down(), moves);
  }

  /** The rook arm (and the first half of the queen's): `saturate` up, left, down, right. */
  method SaturateRook(g: Game, color: PieceColor, safe: Position -> bool, from: Position, moves: seq<Position>)
    returns (r: seq<Position>)
    ensures r == moves + RookSlides(g, color, safe, from)
  {
    r := Saturate(g, color, safe, from, North, moves);
    r := Saturate(g, color, safe, from, West, r);
    r := Saturate(g, color, safe, from, South, r);
    r := Saturate(g, color, safe, from, East, r);
    AppendFour(moves, Slide(g, color, safe, from, North), Slide(g, color, safe, from, West),
      Slide(g, color, safe, from, South), Slide(g, color, safe, from, East));
  }

  /** The bishop arm (and the second half of the queen's): `saturate` along the four
      diagonals. */
  method SaturateBishop(g: Game, color: PieceColor, safe: Position -> bool, from: Position, moves: seq<Position>)
    returns (r: seq<Position>)
    ensures r == moves + BishopSlides(g, color, safe, from)
  {
    r := Saturate(g, color, safe, from, NorthWest, moves);
    r := Saturate(g, color, safe, from, NorthEast, r);
    r := Saturate(g, color, safe, from, SouthWest, r);
    r := Saturate(g, color, safe, from, SouthEast, r);
    AppendFour(moves, Slide(g, color, safe, from, NorthWest), Slide(g, color, safe, from, NorthEast),
      Slide(g, color, safe, from, SouthWest), Slide(g, color, safe, from, SouthEast));
  }

  /** The king arm: eight `try_insert` calls with the king's filter `safe`, then the two
      castlings, which that filter does not screen. */
  method KingMoves(g: Game, color: PieceColor, safe: Position -> bool, from: Position) returns (moves: seq<Position>)
    ensures moves == KingSteps(g, color, safe, from) + Castlings(g, from, color)
  {
    moves := [];
    moves := Insert(g, color, safe, from.Up(), moves);
    assert moves == TryInsert(g, color, safe, from.Up());
    moves := Insert(g, color, safe, from.Up().Right(), moves);
    moves := Insert(g, color, safe, from.Right(), moves);
    moves := Insert(g, color, safe, from.Down().Right(), moves);
    moves := Insert(g, color, safe, from.Down(), moves);
    moves := Insert(g, color, safe, from.Down().Left(), moves);
    moves := Insert(g, color, safe, from.Left(), moves);
    moves := Insert(g, color, safe, from.Up().Left(), moves);
    ghost var steps := moves;
    ghost var queenside := if QueensideCastlingAllowed(g, from, color) then [from.Left().Left()] else [];
    ghost var kingside := if KingsideCastlingAllowed(g, from, color) then [from.Right().Right()] else [];
    if QueensideCastlingAllowed(g, from, color) {
      moves := moves + [from.Left().Left()];
    }
    assert moves == steps + queenside;
    if KingsideCastlingAllowed(g, from, color) {
      moves := moves + [from.Right().Right()];
    }
    assert moves == steps + queenside + kingside;
    Associative(steps, queenside, kingside);
  }

  // ---------------------------------------------------------------------------------------
  // Moves of a colour, check, mate and status

  /** One item of `Game::moves`: the square of a piece and the destinations listed for it. */
  function Entry(g: Game, s: Squares.Square): (r: (Position, seq<Position>))
    requires WellFormed(g) && g.board[s].Some?
    ensures r.0.IsValid() && Get(g, r.0) == g.board[s]
  {
    var from := Squares.ToPosition(s);
    (from, Destinations(g, from))
  }

  /** `Game::moves(color)`: one item per piece of `color`, in the order of `Board::iter`;
      every key holds a piece of `color`, as the source's doc comment promises. */
  function LegalMoves(g: Game, color: PieceColor): (r: seq<(Position, seq<Position>)>)
    requires WellFormed(g)
    ensures |r| == |Boards.Iter(g.board, color)|
    ensures forall k :: 0 <= k < |r| ==>
      r[k].0.IsValid() && Get(g, r[k].0).Some? && Get(g, r[k].0).value.color == color
  {
    var pieces := Boards.Iter(g.board, color);
    seq(|pieces|, k requires 0 <= k < |pieces| => Entry(g, pieces[k].0))
  }

  /** `Game::check`: the king of `color` stands on a square the other colour attacks. */
  predicate Check(g: Game, color: PieceColor)
    requires Boards.PositionOf(g.board, Piece(color, King)).Some?
  {
    Attacks.Attacks(g, color.Not(), KingPosition(g, color))
  }

  /** `Game::mate`: no piece of `color` has a destination. */
  predicate Mate(g: Game, color: PieceColor)
    requires WellFormed(g)
  {
    var all := LegalMoves(g, color);
    forall k :: 0 <= k < |all| ==> all[k].1 == []
  }

  /** `Game::status`: `None` while the side to move has a move; otherwise a win for the
      other side when the side to move is in check, and a draw when it is not. */
  function Status(g: Game): (r: Option<Outcome>)
    requires WellFormed(g)
    ensures r.None? <==> !Mate(g, g.turn)
    ensures r == Some(Win(g.turn.Not())) <==> Mate(g, g.turn) && Check(g, g.turn)
    ensures r == Some(Draw) <==> Mate(g, g.turn) && !Check(g, g.turn)
  {
    if Mate(g, g.turn) then Some(if Check(g, g.turn) then Win(g.turn.Not()) else Draw) else None
  }

  lemma AppendFour<T>(m: seq<T>, a: seq<T>, b: seq<T>, c: seq<T>, d: seq<T>)
    ensures m + a + b + c + d == m + (a + b + c + d)
  {
    Associative(m + a + b, c, d);
    Associative(m + a, b, c + d);
    Associative(m, a, b + (c + d));
    Associative(a + b, c, d);
    Associative(a, b, c + d);
  }

  lemma Associative<T>(a: seq<T>, b: seq<T>, c: seq<T>)
    ensures (a + b) + c == a + (b + c)
  {
  }

  lemma Associative4<T>(a: seq<T>, b: seq<T>, c: seq<T>, d: seq<T>)
    ensures a + (b + (c + d)) == a + b + c + d
  {
  }
}
