/** Which squares the pieces of a colour attack (`Game::attacks`, `rook_attacks`,
    `bishop_attacks` in src/game.rs). The geometry is computed from coordinates and
    vacancy of the squares in between, independently of move generation. */
module Attacks {
  import opened Wrappers
  import opened Pieces
  import opened Positions
  import opened Directions
  import Squares
  import Boards
  import Castlings
  import opened Games

  function Min(a: int, b: int): int { if a < b then a else b }

  function Max(a: int, b: int): int { if a < b then b else a }

  function AbsDiff(a: int, b: int): nat { Boards.AbsDiff(a, b) }

  /** `rook_attacks`: same rank with every file strictly between vacant, or same file with
      every rank strictly between vacant. */
  predicate RookAttacks(g: Game, p: Position, t: Position)
  {
    (p.rank == t.rank &&
      forall file :: Min(p.file, t.file) < file < Max(p.file, t.file) ==> IsVacant(g, Position(p.rank, file))) ||
    (p.file == t.file &&
      forall rank :: Min(p.rank, t.rank) < rank < Max(p.rank, t.rank) ==> IsVacant(g, Position(rank, p.file)))
  }

  /** `bishop_attacks` as the source writes it: on a diagonal, it pairs the ascending
      ranks with the ascending files between the two squares, so the squares it requires
      vacant are those of the rising diagonal through the lower corner of the rectangle
      the two squares span. */
  predicate BishopAttacksAsWritten(g: Game, p: Position, t: Position)
  {
    AbsDiff(p.rank, t.rank) == AbsDiff(p.file, t.file) &&
    forall k :: 1 <= k < AbsDiff(p.rank, t.rank) ==> IsVacant(g, Zipped(p, t, k))
  }

  /** The `k`-th pair of the zipped rank and file ranges: both counted up from the smaller
      coordinate. */
  function Zipped(p: Position, t: Position, k: int): Position
  {
    Position(Min(p.rank, t.rank) + k, Min(p.file, t.file) + k)
  }

  /** The `k`-th square from `p` towards `t` along their diagonal. */
  function Between(p: Position, t: Position, k: int): Position
  {
    Position(if t.rank < p.rank then p.rank - k else p.rank + k,
             if t.file < p.file then p.file - k else p.file + k)
  }

  /** `bishop_attacks` as intended: on a diagonal, with every square strictly between the
      two vacant. */
  predicate BishopAttacks(g: Game, p: Position, t: Position)
  {
    AbsDiff(p.rank, t.rank) == AbsDiff(p.file, t.file) &&
    forall k :: 1 <= k < AbsDiff(p.rank, t.rank) ==> IsVacant(g, Between(p, t, k))
  }

  /** Whether a `kind` of `color` standing on `from` attacks `target`. */
  predicate PieceAttacks(g: Game, color: PieceColor, from: Position, kind: PieceType, target: Position)
  {
    match kind
    case Pawn =>
      var step := from.Pawn(color);
      step.rank == target.rank && AbsDiff(step.file, target.file) == 1
    case Knight =>
      (AbsDiff(from.rank, target.rank) == 1 && AbsDiff(from.file, target.file) == 2) ||
      (AbsDiff(from.rank, target.rank) == 2 && AbsDiff(from.file, target.file) == 1)
    case Bishop => BishopAttacks(g, from, target)
    case Rook => RookAttacks(g, from, target)
    case Queen => BishopAttacks(g, from, target) || RookAttacks(g, from, target)
    case King => AbsDiff(from.rank, target.rank) <= 1 && AbsDiff(from.file, target.file) <= 1
  }

  /** `Game::attacks`: some piece of `color`, in the board's iteration order, attacks
      `target`. */
  predicate Attacks(g: Game, color: PieceColor, target: Position)
  {
    var pieces := Boards.Iter(g.board, color);
    exists k :: 0 <= k < |pieces| &&
      PieceAttacks(g, color, Squares.ToPosition(pieces[k].0), pieces[k].1.kind, target)
  }

  // ---------------------------------------------------------------------------------------
  // Reference geometry

  /** `Attacks` ranges over exactly the pieces of `color` on the board. */
  lemma AttacksBySquare(g: Game, color: PieceColor, target: Position)
    ensures Attacks(g, color, target) <==>
      exists p: Position :: p.IsValid() && Get(g, p).Some? && Get(g, p).value.color == color &&
        PieceAttacks(g, color, p, Get(g, p).value.kind, target)
  {
    if Attacks(g, color, target) {
      AttackerStands(g, color, target);
    }
    if exists p: Position :: (p.IsValid() && Get(g, p).Some? && Get(g, p).value.color == color &&
                              PieceAttacks(g, color, p, Get(g, p).value.kind, target)) {
      var p: Position :| (p.IsValid() && Get(g, p).Some? && Get(g, p).value.color == color &&
                          PieceAttacks(g, color, p, Get(g, p).value.kind, target));
      AttackerIsListed(g, color, target, p);
    }
  }

  lemma AttackerStands(g: Game, color: PieceColor, target: Position)
    requires Attacks(g, color, target)
    ensures exists p: Position :: (p.IsValid() && Get(g, p).Some? && Get(g, p).value.color == color &&
                                   PieceAttacks(g, color, p, Get(g, p).value.kind, target))
  {
    var pieces := Boards.Iter(g.board, color);
    var k :| 0 <= k < |pieces| &&
      PieceAttacks(g, color, Squares.ToPosition(pieces[k].0), pieces[k].1.kind, target);
    var p := Squares.ToPosition(pieces[k].0);
    assert Get(g, p) == Some(pieces[k].1);
  }

  lemma AttackerIsListed(g: Game, color: PieceColor, target: Position, p: Position)
    requires p.IsValid() && Get(g, p).Some? && Get(g, p).value.color == color
    requires PieceAttacks(g, color, p, Get(g, p).value.kind, target)
    ensures Attacks(g, color, target)
  {
    var pieces := Boards.Iter(g.board, color);
    var s := Squares.ToSquare(p);
    Squares.RepresentationsAgree(p);
    assert (s, g.board[s].value) in pieces;
    var k :| 0 <= k < |pieces| && pieces[k] == (s, g.board[s].value);
    assert Squares.ToPosition(pieces[k].0) == p;
  }

  /** A rook on `p` attacks the square `d` steps away in a straight direction exactly when
      every square it passes on the way is vacant. */
  lemma RookAttacksAlongRay(g: Game, p: Position, dir: Direction, d: nat)
    requires !dir.IsDiagonal() && d >= 1
    ensures RookAttacks(g, p, dir.Walk(p, d)) <==> forall k :: 1 <= k < d ==> IsVacant(g, dir.Walk(p, k))
  {
    if dir.DRank() == 0 {
      AlongRank(g, p, dir, d);
    } else {
      AlongFile(g, p, dir, d);
    }
  }

  lemma AlongRank(g: Game, p: Position, dir: Direction, d: nat)
    requires dir.DRank() == 0 && d >= 1
    ensures RookAttacks(g, p, dir.Walk(p, d)) <==> forall k :: 1 <= k < d ==> IsVacant(g, dir.Walk(p, k))
  {
    var t := dir.Walk(p, d);
    if RookAttacks(g, p, t) {
      forall k | 1 <= k < d
        ensures IsVacant(g, dir.Walk(p, k))
      {
        var q := dir.Walk(p, k);
        assert q == Position(p.rank, q.file) && Min(p.file, t.file) < q.file < Max(p.file, t.file);
      }
    }
    if forall k :: 1 <= k < d ==> IsVacant(g, dir.Walk(p, k)) {
      forall file | Min(p.file, t.file) < file < Max(p.file, t.file)
        ensures IsVacant(g, Position(p.rank, file))
      {
        var k := AbsDiff(file, p.file);
        assert Position(p.rank, file) == dir.Walk(p, k);
      }
      assert p.rank == t.rank;
    }
  }

  lemma AlongFile(g: Game, p: Position, dir: Direction, d: nat)
    requires dir.DFile() == 0 && d >= 1
    ensures RookAttacks(g, p, dir.Walk(p, d)) <==> forall k :: 1 <= k < d ==> IsVacant(g, dir.Walk(p, k))
  {
    var t := dir.Walk(p, d);
    if RookAttacks(g, p, t) {
      forall k | 1 <= k < d
        ensures IsVacant(g, dir.Walk(p, k))
      {
        var q := dir.Walk(p, k);
        assert q == Position(q.rank, p.file) && Min(p.rank, t.rank) < q.rank < Max(p.rank, t.rank);
      }
    }
    if forall k :: 1 <= k < d ==> IsVacant(g, dir.Walk(p, k)) {
      forall rank | Min(p.rank, t.rank) < rank < Max(p.rank, t.rank)
        ensures IsVacant(g, Position(rank, p.file))
      {
        var k := AbsDiff(rank, p.rank);
        assert Position(rank, p.file) == dir.Walk(p, k);
      }
      assert p.file == t.file;
    }
  }

  /** A bishop on `p` attacks the square `d` steps away along a diagonal exactly when every
      square it passes on the way is vacant. */
  lemma BishopAttacksAlongRay(g: Game, p: Position, dir: Direction, d: nat)
    requires dir.IsDiagonal() && d >= 1
    ensures BishopAttacks(g, p, dir.Walk(p, d)) <==> forall k :: 1 <= k < d ==> IsVacant(g, dir.Walk(p, k))
  {
    var t := dir.Walk(p, d);
    assert AbsDiff(p.rank, t.rank) == d == AbsDiff(p.file, t.file);
    forall k | 1 <= k < d
      ensures Between(p, t, k) == dir.Walk(p, k)
    {
    }
  }

  /** Every square a bishop attacks, other than its own, lies along one of the four
      diagonal directions. */
  lemma BishopTargetsLieOnDiagonals(g: Game, p: Position, t: Position)
    requires BishopAttacks(g, p, t) && p != t
    ensures exists dir: Direction, d: nat :: dir.IsDiagonal() && d >= 1 && dir.Walk(p, d) == t
  {
    var dir :=
      if t.rank > p.rank then (if t.file > p.file then NorthEast else NorthWest)
      else (if t.file > p.file then SouthEast else SouthWest);
    var d := AbsDiff(p.rank, t.rank);
    assert dir.Walk(p, d) == t;
  }

  /** Every square a rook attacks, other than its own, lies along one of the four straight
      directions. */
  lemma RookTargetsLieOnLines(g: Game, p: Position, t: Position)
    requires RookAttacks(g, p, t) && p != t
    ensures exists dir: Direction, d: nat :: !dir.IsDiagonal() && d >= 1 && dir.Walk(p, d) == t
  {
    var dir :=
      if t.rank > p.rank then North else if t.rank < p.rank then South
      else if t.file > p.file then East else West;
    var d := if p.rank == t.rank then AbsDiff(p.file, t.file) else AbsDiff(p.rank, t.rank);
    assert dir.Walk(p, d) == t;
  }

  // ---------------------------------------------------------------------------------------
  // The `bishop_attacks` defect

  /** On a rising diagonal (rank and file change the same way) the source's check is the
      intended one. */
  lemma AsWrittenAgreesOnRisingDiagonals(g: Game, p: Position, t: Position)
    requires t.rank - p.rank == t.file - p.file
    ensures BishopAttacksAsWritten(g, p, t) <==> BishopAttacks(g, p, t)
  {
    var d := AbsDiff(p.rank, t.rank);
    if t.rank < p.rank {
      if BishopAttacks(g, p, t) {
        forall k | 1 <= k < d
          ensures IsVacant(g, Zipped(p, t, k))
        {
          assert Zipped(p, t, k) == Between(p, t, d - k);
        }
      }
      if BishopAttacksAsWritten(g, p, t) {
        forall k | 1 <= k < d
          ensures IsVacant(g, Between(p, t, k))
        {
          assert Zipped(p, t, d - k) == Between(p, t, k);
        }
      }
    } else {
      forall k | 1 <= k < d
        ensures Zipped(p, t, k) == Between(p, t, k)
      {
      }
    }
  }

  /** A board with a white bishop on d1 (rank 0, file 3) and a black pawn on c2 (rank 1,
      file 2), nothing else. */
  function BlockedBishopGame(): Game
  {
    Game(White,
      seq(64, _ => None)[3 := Some(Piece(White, Bishop))][10 := Some(Piece(Black, Pawn))],
      None, Castlings.New())
  }

  /** On the falling diagonal from d1 to a4 the pawn on c2 blocks the bishop, yet the
      source's check inspects b2 and c3 instead and reports an attack. */
  lemma AsWrittenSeesThroughBlocker()
    ensures BishopAttacksAsWritten(BlockedBishopGame(), Position(0, 3), Position(3, 0))
    ensures !BishopAttacks(BlockedBishopGame(), Position(0, 3), Position(3, 0))
    ensures !IsVacant(BlockedBishopGame(), Position(1, 2))
  {
    var g := BlockedBishopGame();
    assert Between(Position(0, 3), Position(3, 0), 1) == Position(1, 2);
    assert !IsVacant(g, Position(1, 2));
    forall k | 1 <= k < 3
      ensures IsVacant(g, Zipped(Position(0, 3), Position(3, 0), k))
    {
      assert Squares.ToSquare(Zipped(Position(0, 3), Position(3, 0), k)) == 9 * k;
    }
  }

  // ---------------------------------------------------------------------------------------
  // `Game::attacks` as written

  /** The attack pattern `Game::attacks` uses, with `bishop_attacks` as written for the
      bishop and the queen. */
  predicate PieceAttacksAsWritten(g: Game, color: PieceColor, from: Position, kind: PieceType, target: Position)
  {
    match kind
    case Bishop => BishopAttacksAsWritten(g, from, target)
    case Queen => BishopAttacksAsWritten(g, from, target) || RookAttacks(g, from, target)
    case _ => PieceAttacks(g, color, from, kind, target)
  }

  /** `Game::attacks` as written: some piece of `color` attacks `target` by the pattern
      above. */
  predicate AttacksAsWritten(g: Game, color: PieceColor, target: Position)
  {
    var pieces := Boards.Iter(g.board, color);
    exists k :: 0 <= k < |pieces| &&
      PieceAttacksAsWritten(g, color, Squares.ToPosition(pieces[k].0), pieces[k].1.kind, target)
  }

  /** The two patterns differ only for bishops and queens, and there only where the two
      bishop tests differ, which excludes every rising diagonal. */
  lemma PatternsAgreeAwayFromBishopTests(g: Game, color: PieceColor, from: Position, kind: PieceType, target: Position)
    ensures kind != Bishop && kind != Queen ==>
      (PieceAttacksAsWritten(g, color, from, kind, target) <==> PieceAttacks(g, color, from, kind, target))
    ensures (target.rank - from.rank == target.file - from.file ||
             AbsDiff(from.rank, target.rank) != AbsDiff(from.file, target.file)) ==>
      (PieceAttacksAsWritten(g, color, from, kind, target) <==> PieceAttacks(g, color, from, kind, target))
  {
    if target.rank - from.rank == target.file - from.file {
      AsWrittenAgreesOnRisingDiagonals(g, from, target);
    }
  }

  /** White king on e1, White pawns on b2 and d4, Black queen on a5, Black king on e8: the
      squares that decide whether e1 is attacked after 1.d4 c6 2.a3 Qa5. */
  function QueenCheckGame(): Game
  {
    Game(White,
      seq(64, _ => None)[4 := Some(Piece(White, King))][9 := Some(Piece(White, Pawn))]
        [27 := Some(Piece(White, Pawn))][32 := Some(Piece(Black, Queen))][60 := Some(Piece(Black, King))],
      None, Castlings.New())
  }

  /** The queen on a5 attacks e1 across the vacant b4, c3 and d2, but the source's test
      inspects b2, c3 and d4, finds the pawns, and reports that White is not attacked. */
  lemma AsWrittenMissesCheck()
    ensures Attacks(QueenCheckGame(), Black, Position(0, 4))
    ensures !AttacksAsWritten(QueenCheckGame(), Black, Position(0, 4))
  {
    QueenAttacksKing();
    QueenCheckAsWritten();
  }

  lemma QueenAttacksKing()
    ensures Attacks(QueenCheckGame(), Black, Position(0, 4))
  {
    var g := QueenCheckGame();
    var queen := Position(4, 0);
    var king := Position(0, 4);
    forall k | 1 <= k < 4
      ensures IsVacant(g, Between(queen, king, k))
    {
      assert Squares.ToSquare(Between(queen, king, k)) == 32 - 7 * k;
    }
    assert Get(g, queen) == Some(Piece(Black, Queen));
    AttacksBySquare(g, Black, king);
  }

  lemma QueenCheckAsWritten()
    ensures !AttacksAsWritten(QueenCheckGame(), Black, Position(0, 4))
  {
    var g := QueenCheckGame();
    var pieces := Boards.Iter(g.board, Black);
    forall k | 0 <= k < |pieces|
      ensures !PieceAttacksAsWritten(g, Black, Squares.ToPosition(pieces[k].0), pieces[k].1.kind, Position(0, 4))
    {
      assert g.board[pieces[k].0] == Some(pieces[k].1);
      NoAsWrittenAttackFrom(pieces[k].0);
    }
  }

  /** No Black piece of that position attacks e1 by the source's pattern. */
  lemma NoAsWrittenAttackFrom(s: Squares.Square)
    requires QueenCheckGame().board[s].Some? && QueenCheckGame().board[s].value.color == Black
    ensures !PieceAttacksAsWritten(QueenCheckGame(), Black, Squares.ToPosition(s), QueenCheckGame().board[s].value.kind, Position(0, 4))
  {
    QueenCheckBlackPieces(s);
    if s == 32 {
      assert Squares.ToPosition(s) == Position(4, 0);
      QueenBlockedAsWritten();
    } else {
      assert Squares.ToPosition(s) == Position(7, 4);
    }
  }

  /** The source's test for the queen on a5 stops at the pawn on b2. */
  lemma QueenBlockedAsWritten()
    ensures !PieceAttacksAsWritten(QueenCheckGame(), Black, Position(4, 0), Queen, Position(0, 4))
  {
    assert Squares.ToSquare(Zipped(Position(4, 0), Position(0, 4), 1)) == 9;
  }

  /** Black's only pieces in that position are the queen on a5 and the king on e8. */
  lemma QueenCheckBlackPieces(s: Squares.Square)
    requires QueenCheckGame().board[s].Some? && QueenCheckGame().board[s].value.color == Black
    ensures (s == 32 && QueenCheckGame().board[s].value.kind == Queen) ||
      (s == 60 && QueenCheckGame().board[s].value.kind == King)
  {
  }
}
