/** What the lists built by `Game::moves` contain, stated against the attack geometry of
    src/game.rs: a slider reaches exactly the squares it attacks that are not held by its
    own side, a knight and a king exactly their attack patterns, and every listed move
    passes the check-safety filter. */
module MoveRules {
  import opened Wrappers
  import opened Pieces
  import opened Positions
  import opened Directions
  import Squares
  import Boards
  import opened Games
  import opened Attacks
  import opened MoveGen

  /** A piece of `color` stands on `p`. */
  predicate HoldsOwn(g: Game, p: Position, color: PieceColor)
  {
    Get(g, p).Some? && Get(g, p).value.color == color
  }

  /** A slider of `color` on `from` reaches the square `d` steps away in direction `dir`:
      the squares before it are vacant, it is on the board and not held by `color`, and
      the filter accepts it. */
  predicate Reaches(g: Game, color: PieceColor, safe: Position -> bool, from: Position, dir: Direction, d: int)
  {
    d >= 1 && dir.Walk(from, d).IsValid() &&
    (forall k :: 1 <= k < d ==> IsVacant(g, dir.Walk(from, k))) &&
    !HoldsOwn(g, dir.Walk(from, d), color) && safe(dir.Walk(from, d))
  }

  // ---------------------------------------------------------------------------------------
  // Sliding pieces

  /** The slider reaches `t` in `j` or more steps in direction `dir`. */
  ghost predicate ReachesBeyond(g: Game, color: PieceColor, safe: Position -> bool, from: Position, dir: Direction,
                          j: int, t: Position)
  {
    exists d :: d >= j && t == dir.Walk(from, d) && Reaches(g, color, safe, from, dir, d)
  }

  /** From the `j`-th square on, the ray holds exactly the squares the slider reaches. */
  lemma {:induction false} RayMembership(g: Game, color: PieceColor, safe: Position -> bool, from: Position,
                                         dir: Direction, j: int, t: Position)
    requires from.IsValid() && j >= 1
    requires forall k :: 1 <= k < j ==> IsVacant(g, dir.Walk(from, k))
    ensures t in Ray(g, color, safe, dir, dir.Walk(from, j)) <==> ReachesBeyond(g, color, safe, from, dir, j, t)
    decreases Remaining(dir, dir.Walk(from, j))
  {
    var to := dir.Walk(from, j);
    if !to.IsValid() {
      RayEnds(g, color, safe, dir, to);
      OffBoardReachesNothing(g, color, safe, from, dir, j, t);
    } else if Get(g, to).Some? {
      RayStops(g, color, safe, dir, to);
      BlockedReachesFirst(g, color, safe, from, dir, j, t);
    } else {
      RayContinues(g, color, safe, dir, to);
      WalkIsRepeatedStep(dir, from, j);
      RemainingDecreases(dir, to);
      RayMembership(g, color, safe, from, dir, j + 1, t);
      VacantReachesOn(g, color, safe, from, dir, j, t);
    }
  }

  /** Once the walk has left the board, nothing further is reached. */
  lemma OffBoardReachesNothing(g: Game, color: PieceColor, safe: Position -> bool, from: Position, dir: Direction,
                               j: int, t: Position)
    requires from.IsValid() && j >= 1 && !dir.Walk(from, j).IsValid()
    ensures !ReachesBeyond(g, color, safe, from, dir, j, t)
  {
  }

  /** An occupied `j`-th square is the last one reached: it is reached exactly when it is
      not held by `color` and the filter accepts it. */
  lemma BlockedReachesFirst(g: Game, color: PieceColor, safe: Position -> bool, from: Position, dir: Direction,
                            j: int, t: Position)
    requires j >= 1 && forall k :: 1 <= k < j ==> IsVacant(g, dir.Walk(from, k))
    requires dir.Walk(from, j).IsValid() && !IsVacant(g, dir.Walk(from, j))
    ensures ReachesBeyond(g, color, safe, from, dir, j, t) <==>
      t == dir.Walk(from, j) && !HoldsOwn(g, t, color) && safe(t)
  {
    if t == dir.Walk(from, j) && !HoldsOwn(g, t, color) && safe(t) {
      assert Reaches(g, color, safe, from, dir, j);
    }
  }

  /** A vacant `j`-th square is reached exactly when the filter accepts it, and the walk
      goes on past it. */
  lemma VacantReachesOn(g: Game, color: PieceColor, safe: Position -> bool, from: Position, dir: Direction,
                        j: int, t: Position)
    requires j >= 1 && forall k :: 1 <= k < j ==> IsVacant(g, dir.Walk(from, k))
    requires dir.Walk(from, j).IsValid() && IsVacant(g, dir.Walk(from, j))
    ensures ReachesBeyond(g, color, safe, from, dir, j, t) <==>
      (t == dir.Walk(from, j) && safe(t)) || ReachesBeyond(g, color, safe, from, dir, j + 1, t)
  {
    if t == dir.Walk(from, j) && safe(t) {
      assert Reaches(g, color, safe, from, dir, j);
    }
  }

  /** `saturate` in direction `dir` pushes exactly the squares the slider reaches. */
  lemma SlideMembership(g: Game, color: PieceColor, safe: Position -> bool, from: Position, dir: Direction,
                        t: Position)
    requires from.IsValid()
    ensures t in Slide(g, color, safe, from, dir) <==> ReachesBeyond(g, color, safe, from, dir, 1, t)
  {
    WalkIsRepeatedStep(dir, from, 0);
    RayMembership(g, color, safe, from, dir, 1, t);
  }

  /** A slide along a rank or a file lists a square exactly when the slider reaches it
      there, and the rook rule then holds of it. */
  lemma StraightSlide(g: Game, color: PieceColor, safe: Position -> bool, from: Position, dir: Direction, t: Position)
    requires from.IsValid() && !dir.IsDiagonal()
    ensures t in Slide(g, color, safe, from, dir) ==>
      t.IsValid() && t != from && RookAttacks(g, from, t) && !HoldsOwn(g, t, color) && safe(t)
  {
    SlideMembership(g, color, safe, from, dir, t);
    if t in Slide(g, color, safe, from, dir) {
      var d :| t == dir.Walk(from, d) && Reaches(g, color, safe, from, dir, d);
      WalkIsRepeatedStep(dir, from, d);
      RookAttacksAlongRay(g, from, dir, d);
    }
  }

  /** Every square the rook rule allows lies on one of the four straight slides. */
  lemma StraightTarget(g: Game, color: PieceColor, safe: Position -> bool, from: Position, t: Position)
    requires from.IsValid()
    requires t.IsValid() && t != from && RookAttacks(g, from, t) && !HoldsOwn(g, t, color) && safe(t)
    ensures exists dir: Direction :: !dir.IsDiagonal() && t in Slide(g, color, safe, from, dir)
  {
    RookTargetsLieOnLines(g, from, t);
    var dir: Direction, d: nat :| !dir.IsDiagonal() && d >= 1 && dir.Walk(from, d) == t;
    RookAttacksAlongRay(g, from, dir, d);
    assert Reaches(g, color, safe, from, dir, d);
    SlideMembership(g, color, safe, from, dir, t);
  }

  /** The rook arm lists exactly the squares other than `from` that the rook attacks, that
      its own side does not hold and that the filter accepts. */
  lemma RookSlidesRule(g: Game, color: PieceColor, safe: Position -> bool, from: Position, t: Position)
    requires from.IsValid()
    ensures t in RookSlides(g, color, safe, from) <==>
      t.IsValid() && t != from && RookAttacks(g, from, t) && !HoldsOwn(g, t, color) && safe(t)
  {
    StraightSlide(g, color, safe, from, North, t);
    StraightSlide(g, color, safe, from, West, t);
    StraightSlide(g, color, safe, from, South, t);
    StraightSlide(g, color, safe, from, East, t);
    if t.IsValid() && t != from && RookAttacks(g, from, t) && !HoldsOwn(g, t, color) && safe(t) {
      StraightTarget(g, color, safe, from, t);
    }
  }

  /** A diagonal slide lists a square exactly when the slider reaches it there, and the
      bishop rule then holds of it. */
  lemma DiagonalSlide(g: Game, color: PieceColor, safe: Position -> bool, from: Position, dir: Direction, t: Position)
    requires from.IsValid() && dir.IsDiagonal()
    ensures t in Slide(g, color, safe, from, dir) ==>
      t.IsValid() && t != from && BishopAttacks(g, from, t) && !HoldsOwn(g, t, color) && safe(t)
  {
    SlideMembership(g, color, safe, from, dir, t);
    if t in Slide(g, color, safe, from, dir) {
      var d :| t == dir.Walk(from, d) && Reaches(g, color, safe, from, dir, d);
      WalkIsRepeatedStep(dir, from, d);
      BishopAttacksAlongRay(g, from, dir, d);
    }
  }

  /** Every square the bishop rule allows lies on one of the four diagonal slides. */
  lemma DiagonalTarget(g: Game, color: PieceColor, safe: Position -> bool, from: Position, t: Position)
    requires from.IsValid()
    requires t.IsValid() && t != from && BishopAttacks(g, from, t) && !HoldsOwn(g, t, color) && safe(t)
    ensures exists dir: Direction :: dir.IsDiagonal() && t in Slide(g, color, safe, from, dir)
  {
    BishopTargetsLieOnDiagonals(g, from, t);
    var dir: Direction, d: nat :| dir.IsDiagonal() && d >= 1 && dir.Walk(from, d) == t;
    BishopAttacksAlongRay(g, from, dir, d);
    assert Reaches(g, color, safe, from, dir, d);
    SlideMembership(g, color, safe, from, dir, t);
  }

  /** The bishop arm lists exactly the squares other than `from` that the bishop attacks,
      that its own side does not hold and that the filter accepts. */
  lemma BishopSlidesRule(g: Game, color: PieceColor, safe: Position -> bool, from: Position, t: Position)
    requires from.IsValid()
    ensures t in BishopSlides(g, color, safe, from) <==>
      t.IsValid() && t != from && BishopAttacks(g, from, t) && !HoldsOwn(g, t, color) && safe(t)
  {
    DiagonalSlide(g, color, safe, from, NorthWest, t);
    DiagonalSlide(g, color, safe, from, NorthEast, t);
    DiagonalSlide(g, color, safe, from, SouthWest, t);
    DiagonalSlide(g, color, safe, from, SouthEast, t);
    if t.IsValid() && t != from && BishopAttacks(g, from, t) && !HoldsOwn(g, t, color) && safe(t) {
      DiagonalTarget(g, color, safe, from, t);
    }
  }

  // ---------------------------------------------------------------------------------------
  // Knights and king steps

  /** `try_insert` pushes its square exactly when it is on the board, not held by `color`
      and accepted by the filter. */
  lemma TryInsertRule(g: Game, color: PieceColor, safe: Position -> bool, to: Position, t: Position)
    ensures t in TryInsert(g, color, safe, to) <==> t == to && to.IsValid() && !HoldsOwn(g, to, color) && safe(to)
  {
  }

  /** The knight arm lists exactly the squares on the board a knight on `from` attacks,
      that its own side does not hold and that the filter accepts. */
  lemma KnightJumpsRule(g: Game, color: PieceColor, safe: Position -> bool, from: Position, t: Position)
    ensures t in KnightJumps(g, color, safe, from) <==>
      t.IsValid() && PieceAttacks(g, color, from, Knight, t) && !HoldsOwn(g, t, color) && safe(t)
  {
    TryInsertRule(g, color, safe, from.Up().Up().Left(), t);
    TryInsertRule(g, color, safe, from.Up().Up().Right(), t);
    TryInsertRule(g, color, safe, from.Left().Left().Up(), t);
    TryInsertRule(g, color, safe, from.Left().Left().Down(), t);
    TryInsertRule(g, color, safe, from.Down().Down().Left(), t);
    TryInsertRule(g, color, safe, from.Down().Down().Right(), t);
    TryInsertRule(g, color, safe, from.Right().Right().Up(), t);
    TryInsertRule(g, color, safe, from.Right().Right().Down(), t);
  }

  /** The king's eight `try_insert` calls list exactly the squares on the board next to
      `from` that its own side does not hold and that the filter accepts. */
  lemma KingStepsRule(g: Game, color: PieceColor, safe: Position -> bool, from: Position, t: Position)
    ensures t in KingSteps(g, color, safe, from) <==>
      t.IsValid() && t != from && PieceAttacks(g, color, from, King, t) && !HoldsOwn(g, t, color) && safe(t)
  {
    TryInsertRule(g, color, safe, from.Up(), t);
    TryInsertRule(g, color, safe, from.Up().Right(), t);
    TryInsertRule(g, color, safe, from.Right(), t);
    TryInsertRule(g, color, safe, from.Down().Right(), t);
    TryInsertRule(g, color, safe, from.Down(), t);
    TryInsertRule(g, color, safe, from.Down().Left(), t);
    TryInsertRule(g, color, safe, from.Left(), t);
    TryInsertRule(g, color, safe, from.Up().Left(), t);
  }

  // ---------------------------------------------------------------------------------------
  // Pawns

  /** The pawn rule before the check filter: one square ahead onto a vacant square; two
      squares ahead from the starting rank across two vacant squares; or onto a square the
      pawn attacks, holding an opponent's piece or lying behind the pawn that just advanced
      two squares. */
  predicate PawnRule(g: Game, color: PieceColor, from: Position, t: Position)
  {
    var forward := from.Pawn(color);
    (t == forward && IsVacant(g, t)) ||
    (from.rank == color.PawnStartingRank() && t == forward.Pawn(color) && IsVacant(g, forward) && IsVacant(g, t)) ||
    (PieceAttacks(g, color, from, Pawn, t) && (IsEnemy(g, t, color) || EnPassantBeside(g, Position(from.rank, t.file), color)))
  }

  /** The pawn arm lists exactly the squares the pawn rule allows and the filter accepts. */
  lemma PawnMovesRule(g: Game, color: PieceColor, safe: Position -> bool, from: Position, t: Position)
    ensures t in PawnMoves(g, color, safe, from) <==> PawnRule(g, color, from, t) && safe(t)
  {
    var forward := from.Pawn(color);
    var pushes := PawnPush(g, safe, forward) + PawnDoublePush(g, color, safe, from);
    var captures := PawnCapture(g, color, safe, forward.Left(), from.Left()) +
      PawnCapture(g, color, safe, forward.Right(), from.Right());
    assert PawnMoves(g, color, safe, from) == pushes + captures;
    PawnCapturesRule(g, color, safe, from, t);
  }

  /** The two diagonal captures list exactly the squares the pawn attacks that hold an
      opponent's piece or lie behind the pawn that just advanced two squares, and that the
      filter accepts. */
  lemma PawnCapturesRule(g: Game, color: PieceColor, safe: Position -> bool, from: Position, t: Position)
    ensures var forward := from.Pawn(color);
      t in PawnCapture(g, color, safe, forward.Left(), from.Left()) +
        PawnCapture(g, color, safe, forward.Right(), from.Right()) <==>
      PieceAttacks(g, color, from, Pawn, t) &&
      (IsEnemy(g, t, color) || EnPassantBeside(g, Position(from.rank, t.file), color)) && safe(t)
  {
    var forward := from.Pawn(color);
    var left := PawnCapture(g, color, safe, forward.Left(), from.Left());
    var right := PawnCapture(g, color, safe, forward.Right(), from.Right());
    PawnAttacksDiagonal(color, from, t);
    assert t in left + right <==> t in left || t in right;
    if t == forward.Left() {
      assert Position(from.rank, t.file) == from.Left();
    } else if t == forward.Right() {
      assert Position(from.rank, t.file) == from.Right();
    }
  }

  /** A pawn attacks exactly the two squares diagonally ahead of it. */
  lemma PawnAttacksDiagonal(color: PieceColor, from: Position, t: Position)
    ensures forall g: Game :: PieceAttacks(g, color, from, Pawn, t) <==>
      t == from.Pawn(color).Left() || t == from.Pawn(color).Right()
  {
  }

  // ---------------------------------------------------------------------------------------
  // The destinations of a piece

  /** The move rule of `piece` on `from` before the check filter: the pawn rule for a pawn;
      for any other piece, a square other than `from` that it attacks and its own side
      does not hold (for a king, its single steps). */
  predicate MoveRule(g: Game, piece: Piece, from: Position, t: Position)
  {
    if piece.kind == Pawn then PawnRule(g, piece.color, from, t)
    else t != from && PieceAttacks(g, piece.color, from, piece.kind, t) && !HoldsOwn(g, t, piece.color)
  }

  /** The arm of `Game::moves` for a piece other than a king lists exactly the squares on
      the board its move rule allows and the filter accepts. */
  lemma ArmRule(g: Game, piece: Piece, safe: Position -> bool, from: Position, t: Position)
    requires from.IsValid() && piece.kind != King
    requires forall p: Position :: safe(p) ==> p.IsValid()
    ensures t in Arm(g, piece, safe, from) <==> t.IsValid() && MoveRule(g, piece, from, t) && safe(t)
  {
    match piece.kind {
      case Pawn =>
        PawnMovesRule(g, piece.color, safe, from, t);
      case Knight =>
        KnightJumpsRule(g, piece.color, safe, from, t);
      case Bishop =>
        BishopSlidesRule(g, piece.color, safe, from, t);
      case Rook =>
        RookSlidesRule(g, piece.color, safe, from, t);
      case Queen =>
        BishopSlidesRule(g, piece.color, safe, from, t);
        RookSlidesRule(g, piece.color, safe, from, t);
    }
  }

  /** `Game::moves` lists for a piece other than a king exactly the squares on the board
      that its move rule allows and after which its king is not attacked. */
  lemma MoverDestinations(g: Game, from: Position, t: Position)
    requires WellFormed(g) && IsMover(g, from)
    ensures t in Destinations(g, from) <==>
      t.IsValid() && MoveRule(g, Get(g, from).value, from, t) &&
      DoesNotCauseCheck(g, from, t, KingPosition(g, Get(g, from).value.color))
  {
    var piece := Get(g, from).value;
    ArmRule(g, piece, Filter(g, from, KingPosition(g, piece.color)), from, t);
  }

  /** `Game::moves` lists for a king its single steps onto squares on the board that its
      own side does not hold and where it is not attacked after the step, followed by the
      castlings. */
  lemma KingDestinations(g: Game, from: Position, t: Position)
    requires WellFormed(g) && from.IsValid() && Get(g, from).Some? && Get(g, from).value.kind == King
    ensures t in Destinations(g, from) <==>
      (t.IsValid() && t != from && PieceAttacks(g, Get(g, from).value.color, from, King, t) &&
       !HoldsOwn(g, t, Get(g, from).value.color) && KingStepIsSafe(g, from, t)) ||
      t in MoveGen.Castlings(g, from, Get(g, from).value.color)
  {
    var color := Get(g, from).value.color;
    KingStepsRule(g, color, KingFilter(g, from), from, t);
  }

  /** A castling is listed only for a king on its home square (file 4 of its back rank)
      that is not in check, lands two files away on file 2 or 6 of that rank, and needs
      the matching right. */
  lemma CastlingRule(g: Game, from: Position, t: Position)
    requires WellFormed(g) && from.IsValid() && Get(g, from).Some? && Get(g, from).value.kind == King
    requires t in MoveGen.Castlings(g, from, Get(g, from).value.color)
    ensures var color := Get(g, from).value.color;
      from == Position(color.PieceStartingRank(), 4) && KingPosition(g, color) == from &&
      !Check(g, color) && t.rank == from.rank &&
      ((t.file == 2 && g.castling.Get(color).CanCastleQueenside()) ||
       (t.file == 6 && g.castling.Get(color).CanCastleKingside()))
  {
    var color := Get(g, from).value.color;
    var home := Position(color.PieceStartingRank(), 4);
    CastlingCases(g, from, color, t);
    assert g.castling.Get(color).KingHasNotMoved?;
    assert Get(g, home) == Some(Piece(color, King));
    KingIsUnique(g, color, from);
    KingIsUnique(g, color, home);
  }

  /** A castling destination is two files towards the rook whose castling is allowed. */
  lemma CastlingCases(g: Game, from: Position, color: PieceColor, t: Position)
    ensures t in MoveGen.Castlings(g, from, color) ==>
      (t == Position(from.rank, from.file - 2) && QueensideCastlingAllowed(g, from, color)) ||
      (t == Position(from.rank, from.file + 2) && KingsideCastlingAllowed(g, from, color))
  {
    OneOfTwo(QueensideCastlingAllowed(g, from, color), KingsideCastlingAllowed(g, from, color),
      from.Left().Left(), from.Right().Right(), t);
  }

  /** Membership in a list of at most two optional entries. */
  lemma OneOfTwo(first: bool, second: bool, a: Position, b: Position, t: Position)
    ensures t in (if first then [a] else []) + (if second then [b] else []) ==>
      (first && t == a) || (second && t == b)
  {
  }

  /** In a well-formed game the king of `color` is wherever a king of `color` stands. */
  lemma KingIsUnique(g: Game, color: PieceColor, p: Position)
    requires WellFormed(g) && p.IsValid() && Get(g, p) == Some(Piece(color, King))
    ensures KingPosition(g, color) == p
  {
    var s := Squares.ToSquare(p);
    assert g.board[s] == Some(Piece(color, King));
    assert Boards.PositionOf(g.board, Piece(color, King)) == Some(s);
    Squares.RepresentationsAgree(p);
  }

  // ---------------------------------------------------------------------------------------
  // Moves of a colour, mate and status

  /** `Game::moves(color)` lists each piece once, with its destinations. */
  lemma LegalMovesEntries(g: Game, color: PieceColor)
    requires WellFormed(g)
    ensures var all := LegalMoves(g, color);
      (forall k :: 0 <= k < |all| ==> all[k].1 == Destinations(g, all[k].0)) &&
      (forall k, l :: 0 <= k < l < |all| ==> all[k].0 != all[l].0)
  {
    var all := LegalMoves(g, color);
    var pieces := Boards.Iter(g.board, color);
    forall k, l | 0 <= k < l < |all|
      ensures all[k].0 != all[l].0
    {
      assert pieces[k].0 < pieces[l].0;
      assert Squares.ToSquare(all[k].0) == pieces[k].0;
      assert Squares.ToSquare(all[l].0) == pieces[l].0;
    }
  }

  /** Every piece of `color` is a key of `Game::moves(color)`. */
  lemma EveryPieceListed(g: Game, color: PieceColor, p: Position)
    requires WellFormed(g) && p.IsValid() && HoldsOwn(g, p, color)
    ensures exists k :: 0 <= k < |LegalMoves(g, color)| && LegalMoves(g, color)[k].0 == p
  {
    var all := LegalMoves(g, color);
    var pieces := Boards.Iter(g.board, color);
    var s := Squares.ToSquare(p);
    assert g.board[s] == Get(g, p);
    assert (s, g.board[s].value) in pieces;
    var k :| 0 <= k < |pieces| && pieces[k] == (s, g.board[s].value);
    Squares.RepresentationsAgree(p);
    assert all[k].0 == p;
  }

  /** `mate(color)` holds exactly when no piece of `color` has a destination. */
  lemma MateMeansNoMoves(g: Game, color: PieceColor)
    requires WellFormed(g)
    ensures Mate(g, color) <==> forall p: Position :: p.IsValid() && HoldsOwn(g, p, color) ==> Destinations(g, p) == []
  {
    var all := LegalMoves(g, color);
    LegalMovesEntries(g, color);
    if Mate(g, color) {
      forall p: Position | p.IsValid() && HoldsOwn(g, p, color)
        ensures Destinations(g, p) == []
      {
        EveryPieceListed(g, color, p);
        var k :| 0 <= k < |all| && all[k].0 == p;
      }
    }
  }

  /** `status`: the game goes on exactly while some piece of the side to move has a
      destination; when none has, the side to move has lost if its king is attacked and
      it is a draw if not. The side to move never wins. */
  lemma StatusRule(g: Game)
    requires WellFormed(g)
    ensures Status(g).None? <==>
      exists p: Position :: p.IsValid() && HoldsOwn(g, p, g.turn) && Destinations(g, p) != []
    ensures Status(g) == Some(Win(g.turn.Not())) <==>
      (forall p: Position :: p.IsValid() && HoldsOwn(g, p, g.turn) ==> Destinations(g, p) == []) &&
      Attacks.Attacks(g, g.turn.Not(), KingPosition(g, g.turn))
    ensures Status(g) != Some(Win(g.turn))
  {
    MateMeansNoMoves(g, g.turn);
  }
}
